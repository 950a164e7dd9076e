/**
 * `_send_message` (bridge.py lines 379-394) and the public calls built on it
 * (lines 397-448), as functions of the connection's state. A write either
 * succeeds, and the command joins the log of what was sent, or raises, and
 * the bridge marks itself disconnected.
 */
module Sending {
  import opened Protocol
  import opened Commands
  import opened Text

  /** The sending side of the connection. */
  datatype Link = Link(connected: bool, hasWriter: bool, sent: seq<Command>)

  /** The link after a send, and what the call returned. */
  datatype Sent = Sent(link: Link, ok: bool)

  /** Whether the write of number `k` (0-based) of a call succeeds; writes past the end fail. */
  function WriteAt(writes: seq<bool>, k: nat): bool
  {
    k < |writes| && writes[k]
  }

  predicate CanSend(l: Link)
  {
    l.connected && l.hasWriter
  }

  function Send(l: Link, c: Command, writeOk: bool): Sent
  {
    if !CanSend(l) then Sent(l, false)
    else if writeOk then Sent(l.(sent := l.sent + [c]), true)
    else Sent(l.(connected := false), false)
  }

  /**
   * Sending several commands one after another, keeping the conjunction of
   * the results, as `async_set_all_backlights` does.
   */
  function SendEach(l: Link, cs: seq<Command>, writes: seq<bool>): Sent
    decreases |cs|
  {
    if cs == [] then Sent(l, true)
    else
      var before := SendEach(l, cs[..|cs| - 1], writes);
      var last := Send(before.link, cs[|cs| - 1], WriteAt(writes, |cs| - 1));
      Sent(last.link, before.ok && last.ok)
  }

  /** A send either appends exactly its command and succeeds, or appends nothing and fails. */
  lemma SendOutcome(l: Link, c: Command, writeOk: bool)
    ensures var r := Send(l, c, writeOk);
      && (r.ok <==> CanSend(l) && writeOk)
      && r.link.sent == (if r.ok then l.sent + [c] else l.sent)
      && r.link.hasWriter == l.hasWriter
      && (r.link.connected <==> l.connected && (r.ok || !l.hasWriter))
  {
  }

  /**
   * The commands of a batch go out in order up to the first failed write;
   * the batch succeeds exactly when every one of them went out.
   */
  lemma {:induction false} SendEachPrefix(l: Link, cs: seq<Command>, writes: seq<bool>)
    ensures var r := SendEach(l, cs, writes);
      exists k :: 0 <= k <= |cs|
        && r.link.sent == l.sent + cs[..k]
        && (r.ok <==> k == |cs|)
        && (CanSend(l) ==> forall i :: 0 <= i < k ==> WriteAt(writes, i))
        && (CanSend(l) && k < |cs| ==> !WriteAt(writes, k))
        && (!CanSend(l) ==> k == 0)
    decreases |cs|
  {
    var r := SendEach(l, cs, writes);
    if cs == [] {
      assert r.link.sent == l.sent + cs[..0];
    } else {
      var n := |cs| - 1;
      var before := SendEach(l, cs[..n], writes);
      SendEachPrefix(l, cs[..n], writes);
      var k :| 0 <= k <= n
        && before.link.sent == l.sent + cs[..n][..k]
        && (before.ok <==> k == n)
        && (CanSend(l) ==> forall i :: 0 <= i < k ==> WriteAt(writes, i))
        && (CanSend(l) && k < n ==> !WriteAt(writes, k))
        && (!CanSend(l) ==> k == 0);
      assert cs[..n][..k] == cs[..k];
      SendEachKeepsOpen(l, cs[..n], writes);
      if before.ok && CanSend(before.link) && WriteAt(writes, n) {
        assert cs[..k] + [cs[n]] == cs[..n + 1];
        assert r.link.sent == l.sent + cs[..n + 1];
      } else {
        assert r.link.sent == l.sent + cs[..k];
      }
    }
  }

  /** While every write of a batch succeeds the link stays usable, and a failure is final. */
  lemma {:induction false} SendEachKeepsOpen(l: Link, cs: seq<Command>, writes: seq<bool>)
    ensures var r := SendEach(l, cs, writes);
      && r.link.hasWriter == l.hasWriter
      && (r.ok && cs != [] ==> CanSend(r.link))
      && (r.ok ==> CanSend(r.link) == CanSend(l))
      && (!r.ok ==> !r.link.connected || !l.hasWriter)
    decreases |cs|
  {
    if cs != [] {
      SendEachKeepsOpen(l, cs[..|cs| - 1], writes);
    }
  }

  /** Without a connection nothing is sent and every non-empty batch fails. */
  lemma {:induction false} DisconnectedSendsNothing(l: Link, cs: seq<Command>, writes: seq<bool>)
    requires !CanSend(l)
    ensures SendEach(l, cs, writes).link == l
    ensures cs != [] ==> !SendEach(l, cs, writes).ok
    decreases |cs|
  {
    if cs != [] {
      DisconnectedSendsNothing(l, cs[..|cs| - 1], writes);
    }
  }

  // ---------------------------------------------------------- public calls

  function WakeScreen(l: Link, writeOk: bool): Sent
  {
    Send(l, ScreenWake, writeOk)
  }

  /** `async_set_all_backlights(color)`. */
  function SetAllBacklights(l: Link, color: string, writes: seq<bool>): Sent
  {
    SendEach(l, AllBacklights(ColorCode(color)), writes)
  }

  /** `async_set_backlight(button, color)`. */
  function SetBacklight(l: Link, button: Argument, color: string, writes: seq<bool>): Sent
  {
    match ResolveButton(button)
    case AllButtons => SetAllBacklights(l, color, writes)
    case OneButton(i) => Send(l, BacklightControl(i, ColorCode(color)), WriteAt(writes, 0))
    case NoButton => Sent(l, false)
  }

  /** `async_control_relay(relay, state)`; `tracked` is the key set of `relay_states`. */
  function ControlRelay(l: Link, relay: Argument, on: bool, tracked: set<int>, writeOk: bool): Sent
  {
    match ResolveRelay(relay, tracked)
    case None => Sent(l, false)
    case Some(i) => Send(l, RelayControl(i, on), writeOk)
  }

  /** Setting one button's backlight sends exactly one control command for button `n - 1`. */
  lemma SetOneBacklight(l: Link, n: int, color: string, writes: seq<bool>)
    requires 1 <= n <= NumButtons && CanSend(l) && WriteAt(writes, 0)
    ensures SetBacklight(l, AsNumber(n), color, writes)
         == Sent(l.(sent := l.sent + [BacklightControl(n - 1, ColorCode(color))]), true)
  {
  }

  /** A button number out of range sends nothing and fails. */
  lemma SetBacklightOutOfRange(l: Link, n: int, color: string, writes: seq<bool>)
    requires !(1 <= n <= NumButtons)
    ensures SetBacklight(l, AsNumber(n), color, writes) == Sent(l, false)
  {
  }

  /**
   * "all", in any letter case, sends the four buttons' commands in order
   * and succeeds exactly when all four writes do.
   */
  lemma SetBacklightAll(l: Link, button: string, color: string, writes: seq<bool>)
    requires Lower(button) == "all"
    ensures var r := SetBacklight(l, AsText(button), color, writes);
      && (r.ok <==> CanSend(l) && forall i :: 0 <= i < NumButtons ==> WriteAt(writes, i))
      && (r.ok ==> r.link.sent == l.sent + AllBacklights(ColorCode(color)))
  {
    var cs := AllBacklights(ColorCode(color));
    SendEachPrefix(l, cs, writes);
    assert cs[..|cs|] == cs;
  }

  /** A relay command goes out only for a relay the bridge tracks, numbered from 1 by the caller. */
  lemma ControlTrackedRelay(l: Link, n: int, on: bool, writeOk: bool)
    ensures var r := ControlRelay(l, AsNumber(n), on, {0, 1}, writeOk);
      && (r.ok <==> 1 <= n <= NumRelays && CanSend(l) && writeOk)
      && r.link.sent == (if r.ok then l.sent + [RelayControl(n - 1, on)] else l.sent)
  {
  }
}
