/**
 * `iPanoBridge` (bridge.py) as a class whose methods update its fields in
 * place, step by step as the Python methods do. Each method is proved to
 * leave the object in the state that the functions of `Session`, `Sending`
 * and `Dispatch` compute from the state it started in; what those functions
 * promise is proved about them in their own modules.
 *
 * Sockets, clocks and the Home Assistant bus are not part of the object:
 * each read, each connection attempt and each heartbeat pass arrives as a
 * parameter, what is written goes to the `sent` log, and bus events and
 * dispatcher signals go to the `notifications` log.
 */
module IpanoBridge {
  import opened Options
  import opened PyJson
  import opened Protocol
  import opened Text
  import opened Seqs
  import opened Framing
  import opened Dispatch
  import opened Commands
  import opened Sending
  import opened Retry
  import opened Session

  class Bridge {
    const host: string
    const port: int

    // connection
    var connected: bool
    var hasWriter: bool
    var lastHeartbeat: real

    // what the bridge knows of the panel
    var buttonStates: map<int, bool>
    var relayStates: map<int, Json>
    var backlightStates: map<int, Json>
    var proximityState: bool

    /** Text received but not yet cut into lines. */
    var buffer: string

    /** Every command written to the panel, in order. */
    var sent: seq<Command>

    /** Every bus event and dispatcher signal, in order. */
    var notifications: seq<Notification>

    ghost function Conn(): Link
      reads this
    {
      Link(connected, hasWriter, sent)
    }

    ghost function Device(): DeviceState
      reads this
    {
      DeviceState(buttonStates, relayStates, backlightStates, proximityState, lastHeartbeat)
    }

    ghost function State(): BridgeState
      reads this
    {
      BridgeState(Conn(), Device(), buffer, notifications)
    }

    /** The state maps keep the keys `__init__` gives them. */
    ghost predicate Valid()
      reads this
    {
      Shaped(Device())
    }

    /** `__init__`: the port defaults to 3124; nothing is connected, known or sent yet. */
    constructor (host: string, port: Option<int>)
      ensures this.host == host
      ensures this.port == if port.Some? then port.value else DefaultPort
      ensures State() == Initial()
      ensures Valid()
    {
      this.host := host;
      this.port := if port.Some? then port.value else DefaultPort;
      connected := false;
      hasWriter := false;
      lastHeartbeat := 0.0;
      buttonStates := map[131 := false, 132 := false, 133 := false, 134 := false];
      relayStates := map[0 := JBool(false), 1 := JBool(false)];
      backlightStates := map[0 := JInt(0), 1 := JInt(0), 2 := JInt(0), 3 := JInt(0)];
      proximityState := false;
      buffer := [];
      sent := [];
      notifications := [];
    }

    // ------------------------------------------------------------ sending

    /**
     * `_send_message`: refuses without a connection and writer; otherwise
     * the write either succeeds and the command is sent, or fails and the
     * bridge marks itself disconnected.
     */
    method SendMessage(c: Command, writeOk: bool) returns (ok: bool)
      modifies this
      ensures var r := Send(old(Conn()), c, writeOk);
        ok == r.ok && State() == old(State()).(link := r.link)
    {
      if !connected || !hasWriter {
        return false;
      }
      if writeOk {
        sent := sent + [c];
        ok := true;
      } else {
        connected := false;
        ok := false;
      }
    }

    /** `async_wake_screen`. */
    method WakeScreen(writeOk: bool) returns (ok: bool)
      modifies this
      ensures var r := Sending.WakeScreen(old(Conn()), writeOk);
        ok == r.ok && State() == old(State()).(link := r.link)
    {
      ok := SendMessage(ScreenWake, writeOk);
    }

    /**
     * `async_set_all_backlights`: four control commands, buttons 0 to 3,
     * each sent whatever became of the ones before; the result is the
     * conjunction of the four. `writes[k]` is whether write `k` succeeds.
     */
    method SetAllBacklights(color: string, writes: seq<bool>) returns (success: bool)
      modifies this
      ensures var r := Sending.SetAllBacklights(old(Conn()), color, writes);
        success == r.ok && State() == old(State()).(link := r.link)
    {
      var value := ColorCode(color);
      ghost var cs := AllBacklights(value);
      success := true;
      for btnNum := 0 to 4
        invariant Sent(Conn(), success) == SendEach(old(Conn()), cs[..btnNum], writes)
        invariant State() == old(State()).(link := Conn())
      {
        var ok := SendMessage(BacklightControl(btnNum, value), WriteAt(writes, btnNum));
        success := success && ok;
        assert cs[..btnNum + 1][..btnNum] == cs[..btnNum];
      }
      assert cs[..4] == cs;
    }

    /**
     * `async_set_backlight`: "all" in any letter case sets every button;
     * otherwise the button is numbered from 1 and must be one of the four.
     */
    method SetBacklight(button: Argument, color: string, writes: seq<bool>) returns (ok: bool)
      modifies this
      ensures var r := Sending.SetBacklight(old(Conn()), button, color, writes);
        ok == r.ok && State() == old(State()).(link := r.link)
    {
      match ResolveButton(button) {
        case AllButtons =>
          ok := SetAllBacklights(color, writes);
        case OneButton(i) =>
          ok := SendMessage(BacklightControl(i, ColorCode(color)), WriteAt(writes, 0));
        case NoButton =>
          ok := false;
      }
    }

    /** `async_control_relay`: only relays the bridge tracks, numbered from 1 by the caller. */
    method ControlRelay(relay: Argument, on: bool, writeOk: bool) returns (ok: bool)
      modifies this
      ensures var r := Sending.ControlRelay(old(Conn()), relay, on, old(relayStates).Keys, writeOk);
        ok == r.ok && State() == old(State()).(link := r.link)
    {
      var n := IntOf(relay);
      if n.Some? && n.value - 1 in relayStates {
        ok := SendMessage(RelayControl(n.value - 1, on), writeOk);
      } else {
        ok := false;
      }
    }

    // ----------------------------------------------------------- handlers

    /** `_handle_button_event`. */
    method HandleButtonEvent(frame: map<string, Json>)
      requires Valid()
      modifies this
      ensures State() == Absorb(old(State()), HandleButton(old(Device()), frame))
      ensures Valid()
    {
      ButtonFootprint(Device(), frame);
      var event := Get(frame, "data", JObject(map[]));
      if !event.JObject? {
        return;
      }
      var keyCode := Get(event.fields, "keyCode", JNull);
      var action := Get(event.fields, "action", JNull);
      var repeatCount := Get(event.fields, "repeatCount", JInt(0));
      var key := IntValue(keyCode);
      if key.Some? && key.value in ButtonMap {
        var pressed := EqualsInt(action, 0);
        buttonStates := buttonStates[key.value := pressed];
        notifications := notifications + [ButtonEvent(ButtonMap[key.value], pressed, repeatCount, key.value)];
      }
    }

    /** One pass of the loop in `_handle_relay_change`; `raised` when the entry raised. */
    method RelayListEntry(entry: Json) returns (raised: bool)
      modifies this
      ensures var r := RelayEntry(old(Device()), entry);
        raised == r.raised && State() == Absorb(old(State()), Step(r.device, r.notes))
    {
      if !entry.JObject? {
        return true;
      }
      var num := Get(entry.fields, "num", JNull);
      var val := Get(entry.fields, "val", JBool(false));
      if !Hashable(num) {
        return true;
      }
      var k := IntValue(num);
      if k.Some? && k.value in relayStates {
        relayStates := relayStates[k.value := val];
        notifications := notifications + [RelayUpdate(k.value + 1, Truthy(val), relayStates)];
      }
      raised := false;
    }

    /** One pass of the loop in `_handle_backlight_change`; `raised` when the entry raised. */
    method BacklightListEntry(entry: Json) returns (raised: bool)
      modifies this
      ensures var r := BacklightEntry(old(Device()), entry);
        raised == r.raised && State() == Absorb(old(State()), Step(r.device, r.notes))
    {
      if !entry.JObject? {
        return true;
      }
      var num := Get(entry.fields, "num", JNull);
      var value := Get(entry.fields, "val", JInt(0));
      var k := IntValue(num);
      if k.None? {
        return true;
      }
      if 0 <= k.value <= 3 {
        var oldValue := if k.value in backlightStates then backlightStates[k.value] else JInt(0);
        backlightStates := backlightStates[k.value := value];
        raised := oldValue != value && !Hashable(value);
      } else {
        raised := false;
      }
    }

    /** The `for` loop of `_handle_relay_change`, up to the first entry that raises. */
    method RelayList(items: seq<Json>) returns (raised: bool)
      modifies this
      ensures var r := Entries(Relays, old(Device()), items);
        raised == r.raised && State() == Absorb(old(State()), Step(r.device, r.notes))
    {
      ghost var d := Device();
      for i := 0 to |items|
        invariant var r := Entries(Relays, d, items[..i]);
          !r.raised && State() == Absorb(old(State()), Step(r.device, r.notes))
      {
        ghost var before := Entries(Relays, d, items[..i]);
        raised := RelayListEntry(items[i]);
        EntryStep(Relays, d, items, i);
        ConcatAssoc(old(notifications), before.notes, RelayEntry(before.device, items[i]).notes);
        if raised {
          EntriesAppend(Relays, d, items[..i + 1], items[i + 1..]);
          assert items[..i + 1] + items[i + 1..] == items;
          return;
        }
      }
      assert items[..|items|] == items;
      raised := false;
    }

    /** The `for` loop of `_handle_backlight_change`, up to the first entry that raises. */
    method BacklightList(items: seq<Json>) returns (raised: bool)
      modifies this
      ensures var r := Entries(Backlights, old(Device()), items);
        raised == r.raised && State() == Absorb(old(State()), Step(r.device, r.notes))
    {
      ghost var d := Device();
      for i := 0 to |items|
        invariant var r := Entries(Backlights, d, items[..i]);
          !r.raised && State() == Absorb(old(State()), Step(r.device, r.notes))
      {
        ghost var before := Entries(Backlights, d, items[..i]);
        raised := BacklightListEntry(items[i]);
        EntryStep(Backlights, d, items, i);
        ConcatAssoc(old(notifications), before.notes, BacklightEntry(before.device, items[i]).notes);
        if raised {
          EntriesAppend(Backlights, d, items[..i + 1], items[i + 1..]);
          assert items[..i + 1] + items[i + 1..] == items;
          return;
        }
      }
      assert items[..|items|] == items;
      raised := false;
    }

    /** `_handle_relay_change`: a payload that is not a list is refused. */
    method HandleRelayChange(frame: map<string, Json>)
      requires Valid()
      modifies this
      ensures State() == Absorb(old(State()), HandleRelay(old(Device()), frame))
      ensures Valid()
    {
      RelayFootprint(Device(), frame);
      var list := Get(frame, "data", JList([]));
      if list.JList? {
        var _ := RelayList(list.items);
      }
    }

    /**
     * `_handle_backlight_change`: a payload that is not a list is refused;
     * otherwise, unless an entry raised, the new backlight values are
     * signalled once after the whole list.
     */
    method HandleBacklightChange(frame: map<string, Json>)
      requires Valid()
      modifies this
      ensures State() == Absorb(old(State()), HandleBacklight(old(Device()), frame))
      ensures Valid()
    {
      BacklightFootprint(Device(), frame);
      var list := Get(frame, "data", JList([]));
      if list.JList? {
        BacklightEntriesSilent(Device(), list.items);
        var raised := BacklightList(list.items);
        if !raised {
          notifications := notifications + [BacklightUpdate(backlightStates)];
        }
      }
    }

    /** `_handle_proximity`. */
    method HandleProximityEvent(frame: map<string, Json>)
      requires Valid()
      modifies this
      ensures State() == Absorb(old(State()), HandleProximity(old(Device()), frame))
      ensures Valid()
    {
      var detected := Get(frame, "data", JBool(false));
      proximityState := Truthy(detected);
      notifications := notifications + [ProximityUpdate(proximityState)];
    }

    /** `_process_message` on a decoded line at time `now`. */
    method ProcessMessage(frame: Frame, now: real)
      requires Valid()
      modifies this
      ensures State() == Absorb(old(State()), ProcessFrame(old(Device()), frame, now))
      ensures Valid()
    {
      if frame.Malformed? || !frame.value.JObject? {
        return;
      }
      var data := frame.value.fields;
      var msgType := Get(data, "type", JNull);
      var status := Get(data, "state", JInt(StatusOk));
      if !EqualsInt(status, StatusOk) {
        return;
      }
      if EqualsInt(msgType, MsgTypeButton) {
        HandleButtonEvent(data);
      } else if EqualsInt(msgType, MsgTypeRelayChange) {
        HandleRelayChange(data);
      } else if EqualsInt(msgType, MsgTypeBacklightChange) {
        HandleBacklightChange(data);
      } else if EqualsInt(msgType, MsgTypeProximity) {
        HandleProximityEvent(data);
      } else if EqualsInt(msgType, MsgTypeHeartbeat) {
        lastHeartbeat := now;
      }
    }

    // ------------------------------------------------------------ listening

    /**
     * One read of `_listen_loop`: the text is appended to the buffer, and
     * while the buffer holds a newline, the text before the first one is
     * cut off, stripped and, unless nothing is left, dispatched with the
     * time of the read.
     */
    method ReceiveText(data: string, now: real, decode: string -> Frame)
      requires Valid()
      modifies this
      ensures State() == Receive(old(State()), data, decode, now)
      ensures Valid()
    {
      buffer := buffer + data;
      ghost var whole := buffer;
      ghost var d := Device();
      ghost var done: seq<string> := [];
      while '\n' in buffer
        invariant Valid()
        invariant Split(whole) == Framed(done + Split(buffer).lines, Split(buffer).rest)
        invariant Device() == ApplyLines(d, done, decode, now).device
        invariant notifications == old(notifications) + ApplyLines(d, done, decode, now).notes
        invariant Conn() == old(Conn())
        decreases |buffer|
      {
        HasNewline(buffer);
        var i := NewlineAt(buffer);
        var line := buffer[..i];
        CutStep(whole, done, buffer, i, Strip(line), buffer[i + 1..]);
        buffer := buffer[i + 1..];
        line := Strip(line);
        if line != [] {
          ghost var before := ApplyLines(d, done, decode, now);
          ProcessMessage(decode(line), now);
          ApplyLinesStep(d, done, line, decode, now);
          ConcatAssoc(old(notifications), before.notes, ProcessFrame(before.device, decode(line), now).notes);
          done := done + [line];
        } else {
          assert done + [] == done;
        }
      }
      SplitNone(buffer);
      assert done + [] == done;
    }

    /**
     * `_listen_loop` over the events its reads meet: a fresh buffer, then
     * reads while connected; a zero-length read, a reset connection or
     * another error marks the bridge disconnected, a cancellation ends the
     * loop as it is, a timeout is ignored. A loop that ends disconnected
     * hands over to `_handle_disconnection`.
     */
    method ListenLoop(events: seq<ReadEvent>, decode: string -> Frame, outcomes: seq<AttemptOutcome>)
      requires Valid()
      modifies this
      ensures State() == Listen(old(State()), events, decode, outcomes)
      ensures Valid()
    {
      buffer := [];
      ghost var s0 := State();
      var k := 0;
      var stopped := false;
      while !stopped && connected && k < |events|
        invariant 0 <= k <= |events|
        invariant Valid()
        invariant ListenReads(s0, events[..k], decode) == Listening(State(), stopped || !connected)
      {
        ListenStepAt(s0, events, k, decode);
        stopped := ReadOnce(events[k], decode);
        k := k + 1;
      }
      if stopped || !connected {
        ListenEndedStays(s0, events[..k], events[k..], decode);
        assert events[..k] + events[k..] == events;
        var _ := HandleDisconnection(outcomes);
      } else {
        assert events[..k] == events;
      }
    }

    /**
     * One pass of the `while self.connected` loop: a read that delivers
     * text is framed and dispatched, a zero-length read, a reset connection
     * or another error marks the bridge disconnected and ends the loop, a
     * cancellation ends it as it is, a timeout is ignored.
     */
    method ReadOnce(event: ReadEvent, decode: string -> Frame) returns (ended: bool)
      requires Valid()
      modifies this
      ensures State() == ListenStep(old(State()), event, decode).state
      ensures ended == ListenStep(old(State()), event, decode).ended
      ensures Valid()
    {
      ended := false;
      match event {
        case Received(text, at) =>
          ReceiveText(text, at, decode);
        case EndOfStream =>
          connected := false;
          ended := true;
        case ReadTimeout =>
        case ListenCancelled =>
          ended := true;
        case ConnectionReset =>
          connected := false;
          ended := true;
        case ReadFailed =>
          connected := false;
          ended := true;
      }
    }

    // ----------------------------------------------------------- connecting

    /**
     * `_connect` with the outcome of opening the connection. A connection
     * marks the bridge connected with a writer and stamps the heartbeat
     * time; the initial-state query that follows never sends anything,
     * because it stops at a name that is not imported; then the
     * "connected" system event is fired. A refusal or error only marks the
     * bridge disconnected.
     */
    method Connect(outcome: AttemptOutcome)
      modifies this
      ensures State() == Session.Connect(old(State()), outcome)
    {
      match outcome
      case Refused =>
        connected := false;
      case Accepted(t) =>
        hasWriter := true;
        connected := true;
        lastHeartbeat := t;
        notifications := notifications + [Connected];
    }

    /**
     * `_connect_with_retry(max_retries)`: attempts until one connects, at
     * most `max_retries` of them; `waits` are the pauses, in seconds, taken
     * between attempts.
     */
    method ConnectWithRetry(maxRetries: int, outcomes: seq<AttemptOutcome>) returns (waits: seq<nat>)
      modifies this
      ensures State() == Session.ConnectWithRetry(old(State()), maxRetries, outcomes)
      ensures waits == Retry.Retry(maxRetries, outcomes).waits
    {
      waits := [];
      var attempt := 0;
      while attempt < maxRetries
        invariant 0 <= attempt && (attempt <= maxRetries || attempt == 0)
        invariant var rest := RetryFrom(attempt, maxRetries, outcomes);
          Retry.Retry(maxRetries, outcomes) == RetryRun(attempt + rest.attempts, rest.connectedAt, waits + rest.waits)
        invariant State() == if attempt == 0 then old(State()) else Disconnect(old(State()))
        decreases maxRetries - attempt
      {
        var outcome := OutcomeAt(outcomes, attempt);
        Connect(outcome);
        if connected {
          assert waits + [] == waits;
          return;
        }
        ghost var prior := waits;
        ghost var wait: seq<nat> := [];
        if attempt < maxRetries - 1 {
          wait := [Pow2(attempt)];
          waits := waits + [Pow2(attempt)];
        }
        ConcatAssoc(prior, wait, RetryFrom(attempt + 1, maxRetries, outcomes).waits);
        attempt := attempt + 1;
      }
      assert waits + [] == waits;
    }

    /** `async_start`: up to five attempts. */
    method Start(outcomes: seq<AttemptOutcome>) returns (waits: seq<nat>)
      modifies this
      ensures State() == Session.ConnectWithRetry(old(State()), 5, outcomes)
      ensures waits == Retry.Retry(5, outcomes).waits
    {
      waits := ConnectWithRetry(5, outcomes);
    }

    /** `_handle_disconnection`: reconnects with three attempts unless connected again. */
    method HandleDisconnection(outcomes: seq<AttemptOutcome>) returns (waits: seq<nat>)
      modifies this
      ensures State() == Session.HandleDisconnection(old(State()), outcomes)
      ensures waits == if old(connected) then [] else Retry.Retry(3, outcomes).waits
    {
      if !connected {
        waits := ConnectWithRetry(3, outcomes);
      } else {
        waits := [];
      }
    }

    // ------------------------------------------------------------ heartbeat

    /** One pass of `_heartbeat_loop` at time `now`. */
    method HeartbeatTick(now: real, writeOk: bool)
      modifies this
      ensures State() == Session.HeartbeatTick(old(State()), now, writeOk)
    {
      if now - lastHeartbeat > 15.0 {
        var success := SendMessage(Heartbeat, writeOk);
        if success {
          lastHeartbeat := now;
        }
      }
    }

    /** `_heartbeat_loop` over its passes; it runs while the bridge is connected. */
    method HeartbeatLoop(ticks: seq<Tick>)
      modifies this
      ensures State() == Heartbeats(old(State()), ticks)
    {
      var k := 0;
      while connected && k < |ticks|
        invariant 0 <= k <= |ticks|
        invariant State() == Heartbeats(old(State()), ticks[..k])
      {
        assert ticks[..k + 1][..k] == ticks[..k];
        HeartbeatTick(ticks[k].now, ticks[k].writeOk);
        k := k + 1;
      }
      if !connected {
        HeartbeatsStopWhenDisconnected(old(State()), ticks[..k], ticks[k..]);
        assert ticks[..k] + ticks[k..] == ticks;
      } else {
        assert ticks[..k] == ticks;
      }
    }

    /** `async_stop`: marks the bridge disconnected; tasks and the writer are not modelled. */
    method Stop()
      modifies this
      ensures State() == Session.Stop(old(State()))
    {
      connected := false;
    }
  }

  /** One more entry of a list: the handler so far, then that entry unless the handler already raised. */
  lemma EntryStep(kind: ListKind, d: DeviceState, items: seq<Json>, i: nat)
    requires i < |items|
    ensures var before := Entries(kind, d, items[..i]);
      var last := Entry(kind, before.device, items[i]);
      Entries(kind, d, items[..i + 1])
      == if before.raised then before else Run(last.device, before.notes + last.notes, last.raised)
  {
    assert items[..i + 1][..i] == items[..i];
  }

  /** A buffer holding a newline is cut before its end. */
  lemma HasNewline(s: string)
    requires '\n' in s
    ensures NewlineAt(s) < |s|
  {
    NewlineAtIsFirst(s);
    assert s[..|s|] == s;
  }

  /** One more line: the lines so far, then that line's frame. */
  lemma ApplyLinesStep(d: DeviceState, done: seq<string>, line: string, decode: string -> Frame, now: real)
    ensures var before := ApplyLines(d, done, decode, now);
      var last := ProcessFrame(before.device, decode(line), now);
      ApplyLines(d, done + [line], decode, now) == Step(last.device, before.notes + last.notes)
  {
    assert (done + [line])[..|done|] == done;
  }

  /** One more event of the listen loop. */
  lemma ListenStepAt(s: BridgeState, events: seq<ReadEvent>, k: nat, decode: string -> Frame)
    requires k < |events|
    ensures var before := ListenReads(s, events[..k], decode);
      var step := ListenStep(before.state, events[k], decode);
      ListenReads(s, events[..k + 1], decode)
      == if before.ended then before else Listening(step.state, step.ended || !step.state.link.connected)
  {
    assert events[..k + 1][..k] == events[..k];
  }
}

