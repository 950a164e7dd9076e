/**
 * The bridge as a whole: the connection, the cached device state, the
 * receive buffer and the notifications emitted, and what connecting,
 * listening, the heartbeat and stopping do to them (bridge.py lines
 * 86-217 and 450-472), as functions. The `Bridge` class performs the same
 * steps in place.
 */
module Session {
  import opened Options
  import opened PyJson
  import opened Framing
  import opened Dispatch
  import opened Commands
  import opened Sending
  import opened Retry
  import opened Seqs

  datatype BridgeState = BridgeState(link: Link, device: DeviceState, buffer: string, notes: seq<Notification>)

  /** The state right after construction. */
  function Initial(): (s: BridgeState)
    ensures !s.link.connected && s.link.sent == [] && s.notes == [] && s.buffer == []
    ensures Shaped(s.device)
  {
    BridgeState(Link(false, false, []), InitialDevice(), [], [])
  }

  /** Marks the bridge disconnected and changes nothing else. */
  function Disconnect(s: BridgeState): BridgeState
  {
    s.(link := s.link.(connected := false))
  }

  /**
   * One `_connect`. A connection made at time `t` marks the bridge connected,
   * with a writer and `t` as its last heartbeat, and emits the "connected"
   * system event; the initial-state query it makes sends nothing (see
   * README). A refusal only marks it disconnected.
   */
  function Connect(s: BridgeState, outcome: AttemptOutcome): BridgeState
  {
    match outcome
    case Refused => Disconnect(s)
    case Accepted(t) =>
      BridgeState(s.link.(connected := true, hasWriter := true),
                  s.device.(lastHeartbeat := t), s.buffer, s.notes + [Connected])
  }

  /** `_connect_with_retry(max_retries)`: the state after the schedule has run. */
  function ConnectWithRetry(s: BridgeState, maxRetries: int, outcomes: seq<AttemptOutcome>): BridgeState
  {
    var r := Retry.Retry(maxRetries, outcomes);
    match r.connectedAt
    case Some(t) => Connect(s, Accepted(t))
    case None => if r.attempts == 0 then s else Disconnect(s)
  }

  /** `_handle_disconnection`: reconnect with three attempts unless connected again meanwhile. */
  function HandleDisconnection(s: BridgeState, outcomes: seq<AttemptOutcome>): BridgeState
  {
    if s.link.connected then s else ConnectWithRetry(s, 3, outcomes)
  }

  // ----------------------------------------------------------------- listen

  /** The effect of dispatching: the new device state, and the notifications appended. */
  function Absorb(s: BridgeState, r: Step): BridgeState
  {
    s.(device := r.device, notes := s.notes + r.notes)
  }

  /** One read of text, framed and dispatched; `now` is the time of that read. */
  function Receive(s: BridgeState, text: string, decode: string -> Frame, now: real): BridgeState
  {
    var f := Split(s.buffer + text);
    Absorb(s.(buffer := f.rest), ApplyLines(s.device, f.lines, decode, now))
  }

  /**
   * What one pass of the listen loop meets: text read (after UTF-8
   * decoding), a zero-length read, a timeout, cancellation, a reset
   * connection or another error.
   */
  datatype ReadEvent =
    | Received(text: string, at: real)
    | EndOfStream
    | ReadTimeout
    | ListenCancelled
    | ConnectionReset
    | ReadFailed

  /** The state after some events, and whether the loop has ended. */
  datatype Listening = Listening(state: BridgeState, ended: bool)

  function ListenStep(s: BridgeState, event: ReadEvent, decode: string -> Frame): Listening
  {
    match event
    case Received(text, at) => Listening(Receive(s, text, decode, at), false)
    case EndOfStream => Listening(Disconnect(s), true)
    case ReadTimeout => Listening(s, false)
    case ListenCancelled => Listening(s, true)
    case ConnectionReset => Listening(Disconnect(s), true)
    case ReadFailed => Listening(Disconnect(s), true)
  }

  /** The `while self.connected` loop over a sequence of events. */
  function ListenReads(s: BridgeState, events: seq<ReadEvent>, decode: string -> Frame): Listening
    decreases |events|
  {
    if events == [] then Listening(s, !s.link.connected)
    else
      var before := ListenReads(s, events[..|events| - 1], decode);
      if before.ended then before
      else
        var step := ListenStep(before.state, events[|events| - 1], decode);
        Listening(step.state, step.ended || !step.state.link.connected)
  }

  /**
   * `_listen_loop` over the events it meets: a fresh buffer, the loop, and,
   * when the loop has ended with the bridge disconnected, the reconnection.
   */
  function Listen(s: BridgeState, events: seq<ReadEvent>, decode: string -> Frame,
                  outcomes: seq<AttemptOutcome>): BridgeState
  {
    var r := ListenReads(s.(buffer := []), events, decode);
    if r.ended then HandleDisconnection(r.state, outcomes) else r.state
  }

  // -------------------------------------------------------------- heartbeat

  /** A heartbeat is sent when more than 15 seconds have passed since the last one. */
  predicate HeartbeatDue(s: BridgeState, now: real)
  {
    now - s.device.lastHeartbeat > 15.0
  }

  /** One pass of `_heartbeat_loop` at time `now`. */
  function HeartbeatTick(s: BridgeState, now: real, writeOk: bool): BridgeState
  {
    if !HeartbeatDue(s, now) then s
    else
      var r := Send(s.link, Heartbeat, writeOk);
      s.(link := r.link, device := if r.ok then s.device.(lastHeartbeat := now) else s.device)
  }

  /** A pass of the heartbeat loop: the time it runs and whether a write would succeed. */
  datatype Tick = Tick(now: real, writeOk: bool)

  /** `_heartbeat_loop` over a sequence of passes; it stops once the bridge is disconnected. */
  function Heartbeats(s: BridgeState, ticks: seq<Tick>): BridgeState
    decreases |ticks|
  {
    if ticks == [] then s
    else
      var before := Heartbeats(s, ticks[..|ticks| - 1]);
      if !before.link.connected then before
      else HeartbeatTick(before, ticks[|ticks| - 1].now, ticks[|ticks| - 1].writeOk)
  }

  /** `async_stop`: only marks the bridge disconnected; the writer is closed but kept. */
  function Stop(s: BridgeState): BridgeState
  {
    Disconnect(s)
  }

  // ================================================================ lemmas

  /** Reading never leaves a newline in the buffer, so no complete line waits. */
  lemma ReceiveLeavesNoNewline(s: BridgeState, text: string, decode: string -> Frame, now: real)
    ensures NoNewline(Receive(s, text, decode, now).buffer)
  {
    SplitRestNoNewline(s.buffer + text);
  }

  /** Reading changes neither the connection nor what was sent, and only adds notifications. */
  lemma ReceiveFootprint(s: BridgeState, text: string, decode: string -> Frame, now: real)
    ensures var r := Receive(s, text, decode, now);
      r.link == s.link && r.notes[..|s.notes|] == s.notes
  {
  }

  /**
   * Reading the same text in two pieces dispatches the same lines in the
   * same order, and leaves the same state, as reading it at once.
   */
  lemma TwoReadsAsOneRead(s: BridgeState, a: string, b: string, decode: string -> Frame, now: real)
    ensures Receive(Receive(s, a, decode, now), b, decode, now) == Receive(s, a + b, decode, now)
  {
    var first := Split(s.buffer + a);
    var second := Split(first.rest + b);
    var r1 := ApplyLines(s.device, first.lines, decode, now);
    var r2 := ApplyLines(r1.device, second.lines, decode, now);
    var s1 := s.(device := r1.device, buffer := first.rest, notes := s.notes + r1.notes);
    ReceiveIs(s, a, decode, now, first, r1);
    ReceiveIs(s1, b, decode, now, second, r2);
    SplitTwice(s.buffer, a, b);
    ApplyLinesAppend(s.device, first.lines, second.lines, decode, now);
    ReceiveIs(s, a + b, decode, now, Framed(first.lines + second.lines, second.rest),
              Step(r2.device, r1.notes + r2.notes));
    ConcatAssoc(s.notes, r1.notes, r2.notes);
  }

  /** A read, given the split of the buffer and what applying its lines did. */
  lemma ReceiveIs(s: BridgeState, text: string, decode: string -> Frame, now: real, f: Framed, r: Step)
    requires f == Split(s.buffer + text)
    requires r == ApplyLines(s.device, f.lines, decode, now)
    ensures Receive(s, text, decode, now) == s.(device := r.device, buffer := f.rest, notes := s.notes + r.notes)
  {
  }

  /** Once the loop has ended, later events are not consumed. */
  lemma {:induction false} ListenEndedStays(s: BridgeState, xs: seq<ReadEvent>, ys: seq<ReadEvent>, decode: string -> Frame)
    requires ListenReads(s, xs, decode).ended
    ensures ListenReads(s, xs + ys, decode) == ListenReads(s, xs, decode)
    decreases |ys|
  {
    if ys == [] {
      assert xs + ys == xs;
    } else {
      var zs := ys[..|ys| - 1];
      assert (xs + ys)[..|xs + ys| - 1] == xs + zs;
      ListenEndedStays(s, xs, zs, decode);
    }
  }

  /** After every read that is part of the loop, the buffer holds no newline. */
  lemma {:induction false} ListenBufferNoNewline(s: BridgeState, events: seq<ReadEvent>, decode: string -> Frame)
    requires NoNewline(s.buffer)
    ensures NoNewline(ListenReads(s, events, decode).state.buffer)
    decreases |events|
  {
    if events != [] {
      var before := ListenReads(s, events[..|events| - 1], decode);
      ListenBufferNoNewline(s, events[..|events| - 1], decode);
      if !before.ended && events[|events| - 1].Received? {
        ReceiveLeavesNoNewline(before.state, events[|events| - 1].text, decode, events[|events| - 1].at);
      }
    }
  }

  /**
   * A zero-length read ends the loop without dispatching anything, marks the
   * bridge disconnected, leaves the events after it unread, and hands over to
   * the reconnection with three attempts.
   */
  lemma EndOfStreamReconnects(s: BridgeState, before: seq<ReadEvent>, after: seq<ReadEvent>,
                              decode: string -> Frame, outcomes: seq<AttemptOutcome>)
    requires !ListenReads(s.(buffer := []), before, decode).ended
    ensures var r := ListenReads(s.(buffer := []), before, decode).state;
      Listen(s, before + [EndOfStream] + after, decode, outcomes)
      == ConnectWithRetry(Disconnect(r), 3, outcomes)
  {
    var s0 := s.(buffer := []);
    var upTo := before + [EndOfStream];
    assert upTo[..|upTo| - 1] == before;
    assert ListenReads(s0, upTo, decode).ended;
    ListenEndedStays(s0, upTo, after, decode);
  }

  /**
   * `async_stop` does not keep the bridge down: once the cancelled listen
   * loop ends with the bridge disconnected, it reconnects.
   */
  lemma StopThenCancelReconnects(s: BridgeState, decode: string -> Frame, t: real)
    ensures Listen(Stop(s), [ListenCancelled], decode, [Accepted(t)]).link.connected
  {
    var s0 := Stop(s).(buffer := []);
    assert [ListenCancelled][..0] == [];
    assert ListenReads(s0, [ListenCancelled], decode).ended;
    RetryAttempts(3, [Accepted(t)]);
    assert OutcomeAt([Accepted(t)], 0).Accepted?;
  }

  /** A successful connection emits exactly the "connected" event and sends nothing. */
  lemma ConnectedOnce(s: BridgeState, n: int, outcomes: seq<AttemptOutcome>)
    ensures var r := ConnectWithRetry(s, n, outcomes);
      && r.link.sent == s.link.sent
      && (r.link.connected <==> Retry.Retry(n, outcomes).connectedAt.Some? || (n <= 0 && s.link.connected))
      && r.notes == s.notes + (if Retry.Retry(n, outcomes).connectedAt.Some? then [Connected] else [])
  {
    RetryAttempts(n, outcomes);
  }

  /**
   * After a heartbeat goes out at time `t`, none goes out again until more
   * than 15 seconds later.
   */
  lemma HeartbeatRateLimited(s: BridgeState, t: real, later: real, writeOk: bool)
    requires HeartbeatDue(s, t) && CanSend(s.link)
    requires later - t <= 15.0
    ensures var r := HeartbeatTick(s, t, true);
      r.link.sent == s.link.sent + [Heartbeat]
      && HeartbeatTick(r, later, writeOk) == r
  {
  }

  /** A heartbeat from the panel at time `t` holds back the bridge's own until more than 15 seconds later. */
  lemma PanelHeartbeatDefers(s: BridgeState, frame: Frame, t: real, later: real, writeOk: bool)
    requires IsAccepted(frame, Protocol.MsgTypeHeartbeat)
    requires later - t <= 15.0
    ensures var r := s.(device := ProcessFrame(s.device, frame, t).device);
      HeartbeatTick(r, later, writeOk) == r
  {
    HeartbeatStampsTime(s.device, frame, t);
  }

  /** A failed heartbeat write marks the bridge disconnected, which ends the loop. */
  lemma {:induction false} HeartbeatsStopWhenDisconnected(s: BridgeState, ticks: seq<Tick>, more: seq<Tick>)
    requires !Heartbeats(s, ticks).link.connected
    ensures Heartbeats(s, ticks + more) == Heartbeats(s, ticks)
    decreases |more|
  {
    if more == [] {
      assert ticks + more == ticks;
    } else {
      var m := more[..|more| - 1];
      assert (ticks + more)[..|ticks + more| - 1] == ticks + m;
      HeartbeatsStopWhenDisconnected(s, ticks, m);
    }
  }
}
