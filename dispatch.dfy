/**
 * What one inbound frame does to the bridge's device state and which
 * notifications it emits (bridge.py `_process_message` and the four
 * `_handle_*` handlers), as pure functions. The `Bridge` class carries out
 * the same steps in place and is proved to agree with these functions.
 *
 * Python exceptions raised inside a handler are caught by that handler;
 * whatever the handler had already changed stays changed, and whatever it
 * had not yet emitted is not emitted.
 */
module Dispatch {
  import opened Options
  import opened PyJson
  import opened Protocol
  import opened Seqs

  /** The bridge's cached view of the panel. */
  datatype DeviceState = DeviceState(
    buttons: map<int, bool>,       // key code -> pressed
    relays: map<int, Json>,        // relay index (0-based) -> last reported value
    backlights: map<int, Json>,    // button index (0-based) -> last reported colour code
    proximity: bool,
    lastHeartbeat: real)

  /**
   * One notification to the rest of the system. Where the bridge fires a bus
   * event and a dispatcher signal for the same occurrence, one entry stands
   * for both; timestamps and the device name are not modelled.
   */
  datatype Notification =
    | ButtonEvent(button: string, pressed: bool, repeatCount: Json, keyCode: int)
    | Connected
    | RelayUpdate(relay: int, on: bool, relays: map<int, Json>)
    | BacklightUpdate(backlights: map<int, Json>)
    | ProximityUpdate(detected: bool)

  /** A line as `json.loads` sees it: not JSON at all, or some JSON value. */
  datatype Frame = Malformed | Parsed(value: Json)

  /** The effect of one frame. */
  datatype Step = Step(device: DeviceState, notes: seq<Notification>)

  /** The effect of part of a payload list; `raised` when an entry raised and ended the handler. */
  datatype Run = Run(device: DeviceState, notes: seq<Notification>, raised: bool)

  /** The two handlers that walk a list of `{num, val}` entries. */
  datatype ListKind = Relays | Backlights

  const RelayIndices: set<int> := {0, 1}
  const BacklightIndices: set<int> := {0, 1, 2, 3}

  /** The key sets the bridge starts with, and keeps. */
  ghost predicate Shaped(d: DeviceState)
  {
    && d.buttons.Keys == ButtonMap.Keys
    && d.relays.Keys == RelayIndices
    && d.backlights.Keys == BacklightIndices
  }

  /** The state `iPanoBridge.__init__` sets up. */
  function InitialDevice(): (d: DeviceState)
    ensures Shaped(d)
    ensures forall k :: k in d.buttons ==> !d.buttons[k]
    ensures forall i :: i in d.relays ==> !Truthy(d.relays[i])
    ensures forall i :: i in d.backlights ==> d.backlights[i] == JInt(0)
    ensures !d.proximity
  {
    DeviceState(
      map[131 := false, 132 := false, 133 := false, 134 := false],
      map[0 := JBool(false), 1 := JBool(false)],
      map[0 := JInt(0), 1 := JInt(0), 2 := JInt(0), 3 := JInt(0)],
      false,
      0.0)
  }

  /** The relay indices the bridge tracks are the panel's NUM_RELAYS relays. */
  lemma RelayIndicesMatchNumRelays()
    ensures forall i :: i in RelayIndices <==> 0 <= i < NumRelays
    ensures |RelayIndices| == NumRelays
  {
  }

  // ---------------------------------------------------------------- buttons

  function HandleButton(d: DeviceState, frame: map<string, Json>): Step
  {
    var event := Get(frame, "data", JObject(map[]));
    if !event.JObject? then Step(d, [])  // `.get` on a non-dict raises
    else
      var key := Get(event.fields, "keyCode", JNull);
      var action := Get(event.fields, "action", JNull);
      var repeat := Get(event.fields, "repeatCount", JInt(0));
      if IntValue(key).Some? && IntValue(key).value in ButtonMap then
        var code := IntValue(key).value;
        var pressed := EqualsInt(action, 0);
        Step(d.(buttons := d.buttons[code := pressed]),
             [ButtonEvent(ButtonMap[code], pressed, repeat, code)])
      else Step(d, [])
  }

  // ------------------------------------------------- relay and backlight lists

  /** One entry of a relay list. */
  function RelayEntry(d: DeviceState, entry: Json): Run
  {
    if !entry.JObject? then Run(d, [], true)
    else
      var num := Get(entry.fields, "num", JNull);
      var val := Get(entry.fields, "val", JBool(false));
      if !Hashable(num) then Run(d, [], true)  // `num in dict` raises
      else if IntValue(num).Some? && IntValue(num).value in d.relays then
        var k := IntValue(num).value;
        var relays := d.relays[k := val];
        Run(d.(relays := relays), [RelayUpdate(k + 1, Truthy(val), relays)], false)
      else Run(d, [], false)
  }

  /** One entry of a backlight list. */
  function BacklightEntry(d: DeviceState, entry: Json): Run
  {
    if !entry.JObject? then Run(d, [], true)
    else
      var num := Get(entry.fields, "num", JNull);
      var val := Get(entry.fields, "val", JInt(0));
      if IntValue(num).None? then Run(d, [], true)  // `0 <= num` raises for None and non-numbers
      else
        var k := IntValue(num).value;
        if 0 <= k <= 3 then
          var previous := if k in d.backlights then d.backlights[k] else JInt(0);
          // a changed value is looked up in BACKLIGHT_COLORS for the log line,
          // which raises when the value cannot be hashed
          Run(d.(backlights := d.backlights[k := val]), [], previous != val && !Hashable(val))
        else Run(d, [], false)
  }

  function Entry(kind: ListKind, d: DeviceState, entry: Json): Run
  {
    match kind
    case Relays => RelayEntry(d, entry)
    case Backlights => BacklightEntry(d, entry)
  }

  /** The `for` loop over a payload list, up to the first entry that raises. */
  function Entries(kind: ListKind, d: DeviceState, entries: seq<Json>): Run
    decreases |entries|
  {
    if entries == [] then Run(d, [], false)
    else
      var before := Entries(kind, d, entries[..|entries| - 1]);
      if before.raised then before
      else
        var last := Entry(kind, before.device, entries[|entries| - 1]);
        Run(last.device, before.notes + last.notes, last.raised)
  }

  function HandleRelay(d: DeviceState, frame: map<string, Json>): Step
  {
    var list := Get(frame, "data", JList([]));
    if !list.JList? then Step(d, [])
    else
      var r := Entries(Relays, d, list.items);
      Step(r.device, r.notes)
  }

  function HandleBacklight(d: DeviceState, frame: map<string, Json>): Step
  {
    var list := Get(frame, "data", JList([]));
    if !list.JList? then Step(d, [])
    else
      var r := Entries(Backlights, d, list.items);
      Step(r.device, if r.raised then [] else [BacklightUpdate(r.device.backlights)])
  }

  // -------------------------------------------------------------- proximity

  function HandleProximity(d: DeviceState, frame: map<string, Json>): Step
  {
    var detected := Truthy(Get(frame, "data", JBool(false)));
    Step(d.(proximity := detected), [ProximityUpdate(detected)])
  }

  // --------------------------------------------------------------- dispatch

  /** `_process_message` on a decoded line, at time `now`. */
  function ProcessFrame(d: DeviceState, frame: Frame, now: real): Step
  {
    match frame
    case Malformed => Step(d, [])
    case Parsed(v) =>
      if !v.JObject? then Step(d, [])  // `.get` on a non-dict raises
      else
        var msgType := Get(v.fields, "type", JNull);
        var status := Get(v.fields, "state", JInt(StatusOk));
        if !EqualsInt(status, StatusOk) then Step(d, [])
        else if EqualsInt(msgType, MsgTypeButton) then HandleButton(d, v.fields)
        else if EqualsInt(msgType, MsgTypeRelayChange) then HandleRelay(d, v.fields)
        else if EqualsInt(msgType, MsgTypeBacklightChange) then HandleBacklight(d, v.fields)
        else if EqualsInt(msgType, MsgTypeProximity) then HandleProximity(d, v.fields)
        else if EqualsInt(msgType, MsgTypeHeartbeat) then Step(d.(lastHeartbeat := now), [])
        else Step(d, [])
  }

  /** The lines of one read, dispatched in order. */
  function ApplyLines(d: DeviceState, lines: seq<string>, decode: string -> Frame, now: real): Step
    decreases |lines|
  {
    if lines == [] then Step(d, [])
    else
      var before := ApplyLines(d, lines[..|lines| - 1], decode, now);
      var last := ProcessFrame(before.device, decode(lines[|lines| - 1]), now);
      Step(last.device, before.notes + last.notes)
  }

  // ================================================================ lemmas

  /** An accepted frame of the given message type: a JSON object whose status is 200. */
  predicate IsAccepted(frame: Frame, code: int)
  {
    && frame.Parsed?
    && frame.value.JObject?
    && EqualsInt(Get(frame.value.fields, "state", JInt(StatusOk)), StatusOk)
    && EqualsInt(Get(frame.value.fields, "type", JNull), code)
  }

  /** A frame whose status is present and is not 200 is dropped. */
  lemma NonOkStatusDropped(d: DeviceState, fields: map<string, Json>, now: real)
    requires "state" in fields && !EqualsInt(fields["state"], StatusOk)
    ensures ProcessFrame(d, Parsed(JObject(fields)), now) == Step(d, [])
  {
  }

  /** A frame without a status is treated as one with status 200. */
  lemma MissingStatusIsOk(d: DeviceState, fields: map<string, Json>, now: real)
    requires "state" !in fields
    ensures ProcessFrame(d, Parsed(JObject(fields)), now)
         == ProcessFrame(d, Parsed(JObject(fields["state" := JInt(StatusOk)])), now)
  {
  }

  /** A heartbeat only refreshes the heartbeat time. */
  lemma HeartbeatStampsTime(d: DeviceState, frame: Frame, now: real)
    requires IsAccepted(frame, MsgTypeHeartbeat)
    ensures ProcessFrame(d, frame, now) == Step(d.(lastHeartbeat := now), [])
  {
  }

  /** Frames of any type the bridge does not handle change nothing and emit nothing. */
  lemma UnhandledTypeIgnored(d: DeviceState, frame: Frame, now: real)
    requires frame.Parsed? && frame.value.JObject?
    requires var t := Get(frame.value.fields, "type", JNull);
      !EqualsInt(t, MsgTypeButton) && !EqualsInt(t, MsgTypeRelayChange)
      && !EqualsInt(t, MsgTypeBacklightChange) && !EqualsInt(t, MsgTypeProximity)
      && !EqualsInt(t, MsgTypeHeartbeat)
    ensures ProcessFrame(d, frame, now) == Step(d, [])
  {
  }

  /** Lines that are not JSON, and JSON that is not an object, are ignored. */
  lemma MalformedIgnored(d: DeviceState, frame: Frame, now: real)
    requires frame.Malformed? || !frame.value.JObject?
    ensures ProcessFrame(d, frame, now) == Step(d, [])
  {
  }

  /** A known key code records the button as pressed exactly when the action is 0, and emits one event. */
  lemma KnownButton(d: DeviceState, frame: map<string, Json>, event: map<string, Json>, code: int)
    requires Get(frame, "data", JObject(map[])) == JObject(event)
    requires "keyCode" in event && event["keyCode"] == JInt(code) && code in ButtonMap
    ensures var pressed := "action" in event && EqualsInt(event["action"], 0);
      HandleButton(d, frame) == Step(
        d.(buttons := d.buttons[code := pressed]),
        [ButtonEvent(ButtonMap[code], pressed, Get(event, "repeatCount", JInt(0)), code)])
  {
  }

  /** An unknown key code is only logged. */
  lemma UnknownButton(d: DeviceState, frame: map<string, Json>, event: map<string, Json>)
    requires Get(frame, "data", JObject(map[])) == JObject(event)
    requires var key := IntValue(Get(event, "keyCode", JNull)); key.None? || key.value !in ButtonMap
    ensures HandleButton(d, frame) == Step(d, [])
  {
  }

  /** Pressing the first button, as the panel reports it. */
  lemma FirstButtonPressed(d: DeviceState, now: real)
    ensures var frame := Parsed(JObject(map["type" := JInt(0),
                                            "data" := JObject(map["keyCode" := JInt(131), "action" := JInt(0)])]));
      ProcessFrame(d, frame, now)
      == Step(d.(buttons := d.buttons[131 := true]), [ButtonEvent("button_1", true, JInt(0), 131)])
  {
    var event := map["keyCode" := JInt(131), "action" := JInt(0)];
    var fields := map["type" := JInt(0), "data" := JObject(event)];
    assert Get(fields, "state", JInt(StatusOk)) == JInt(StatusOk);
    assert Get(fields, "type", JNull) == JInt(0);
    KnownButton(d, fields, event, 131);
  }

  /** Handling a list in two parts is handling the first part and then, unless it raised, the second. */
  lemma {:induction false} EntriesAppend(kind: ListKind, d: DeviceState, xs: seq<Json>, ys: seq<Json>)
    ensures var a := Entries(kind, d, xs);
      var b := Entries(kind, a.device, ys);
      Entries(kind, d, xs + ys) == if a.raised then a else Run(b.device, a.notes + b.notes, b.raised)
    decreases |ys|
  {
    if ys == [] {
      assert xs + ys == xs;
    } else {
      var zs := ys[..|ys| - 1];
      assert (xs + ys)[..|xs + ys| - 1] == xs + zs;
      assert (xs + ys)[|xs + ys| - 1] == ys[|ys| - 1];
      EntriesAppend(kind, d, xs, zs);
    }
  }

  /** A relay list changes only relay values, and only those the bridge already tracks. */
  lemma {:induction false} RelayEntriesFootprint(d: DeviceState, entries: seq<Json>)
    ensures var r := Entries(Relays, d, entries).device;
      r == d.(relays := r.relays) && r.relays.Keys == d.relays.Keys
    decreases |entries|
  {
    if entries != [] {
      RelayEntriesFootprint(d, entries[..|entries| - 1]);
    }
  }

  /** A backlight list changes only backlight values, and only under the indices 0 to 3. */
  lemma {:induction false} BacklightEntriesFootprint(d: DeviceState, entries: seq<Json>)
    ensures var r := Entries(Backlights, d, entries).device;
      r == d.(backlights := r.backlights)
      && d.backlights.Keys <= r.backlights.Keys <= d.backlights.Keys + BacklightIndices
    decreases |entries|
  {
    if entries != [] {
      BacklightEntriesFootprint(d, entries[..|entries| - 1]);
    }
  }

  /** Backlight entries notify nothing one by one; the handler notifies once at the end. */
  lemma {:induction false} BacklightEntriesSilent(d: DeviceState, entries: seq<Json>)
    ensures Entries(Backlights, d, entries).notes == []
    decreases |entries|
  {
    if entries != [] {
      BacklightEntriesSilent(d, entries[..|entries| - 1]);
    }
  }

  /** A relay entry that is a dict with a hashable `num` does not raise. */
  predicate WellFormedRelayEntry(entry: Json)
  {
    entry.JObject? && Hashable(Get(entry.fields, "num", JNull))
  }

  /** The number an entry's `num` equals, when it is a dict whose `num` is a number. */
  function EntryNum(entry: Json): Option<int>
  {
    if entry.JObject? then IntValue(Get(entry.fields, "num", JNull)) else None
  }

  /** The entries whose `num` is one of `keys`, in list order. */
  function Addressing(entries: seq<Json>, keys: set<int>): (m: seq<Json>)
    ensures |m| <= |entries|
    decreases |entries|
  {
    if entries == [] then []
    else
      var e := entries[|entries| - 1];
      Addressing(entries[..|entries| - 1], keys)
        + (if EntryNum(e).Some? && EntryNum(e).value in keys then [e] else [])
  }

  /**
   * The `val` of the last entry whose `num` is `k` (`missing` when that
   * entry has no `val`), or `current` when no entry names `k`.
   */
  function LastValue(entries: seq<Json>, k: int, missing: Json, current: Json): Json
    decreases |entries|
  {
    if entries == [] then current
    else
      var e := entries[|entries| - 1];
      if EntryNum(e) == Some(k) then Get(e.fields, "val", missing)
      else LastValue(entries[..|entries| - 1], k, missing, current)
  }

  /** The relay update emitted for entry `e`: its relay numbered from 1, and whether its value is truthy. */
  predicate UpdateFor(n: Notification, e: Json)
  {
    && e.JObject? && EntryNum(e).Some?
    && n.RelayUpdate?
    && n.relay == EntryNum(e).value + 1
    && n.on == Truthy(Get(e.fields, "val", JBool(false)))
  }

  /** One update per entry, in the same order. */
  predicate UpdatesFor(notes: seq<Notification>, m: seq<Json>)
  {
    |notes| == |m| && forall i :: 0 <= i < |m| ==> UpdateFor(notes[i], m[i])
  }

  lemma UpdatesForAppend(n1: seq<Notification>, m1: seq<Json>, n2: seq<Notification>, m2: seq<Json>)
    requires UpdatesFor(n1, m1) && UpdatesFor(n2, m2)
    ensures UpdatesFor(n1 + n2, m1 + m2)
  {
    forall i | 0 <= i < |m1 + m2| ensures UpdateFor((n1 + n2)[i], (m1 + m2)[i]) {
      if i < |m1| {
        assert (n1 + n2)[i] == n1[i] && (m1 + m2)[i] == m1[i];
      } else {
        assert (n1 + n2)[i] == n2[i - |m1|] && (m1 + m2)[i] == m2[i - |m1|];
      }
    }
  }

  /**
   * One relay entry: one that is not a dict, or whose `num` cannot be hashed,
   * raises and changes nothing; one whose `num` is a tracked relay stores its
   * raw `val` (False when missing) and emits that relay's update; any other
   * entry changes nothing.
   */
  lemma RelayEntryStores(d: DeviceState, entry: Json)
    ensures var r := RelayEntry(d, entry);
      && (r.raised <==> !WellFormedRelayEntry(entry))
      && (r.raised ==> r.device == d && r.notes == [])
      && (!r.raised ==>
            var k := EntryNum(entry);
            var val := Get(entry.fields, "val", JBool(false));
            if k.Some? && k.value in d.relays then
              && r.device == d.(relays := d.relays[k.value := val])
              && r.notes == [RelayUpdate(k.value + 1, Truthy(val), d.relays[k.value := val])]
            else r.device == d && r.notes == [])
  {
  }

  /**
   * One backlight entry: one that is not a dict, or whose `num` is not a
   * number, raises and changes nothing; one whose `num` is 0 to 3 stores its
   * raw `val` (0 when missing), raising afterwards only for a changed value
   * that cannot be hashed; any other entry changes nothing. No entry emits.
   */
  lemma BacklightEntryStores(d: DeviceState, entry: Json)
    ensures var r := BacklightEntry(d, entry);
      && r.notes == []
      && (EntryNum(entry).None? ==> r.raised && r.device == d)
      && (EntryNum(entry).Some? ==>
            var k := EntryNum(entry).value;
            var val := Get(entry.fields, "val", JInt(0));
            var previous := if k in d.backlights then d.backlights[k] else JInt(0);
            if 0 <= k <= 3 then
              && r.device == d.(backlights := d.backlights[k := val])
              && (r.raised <==> previous != val && !Hashable(val))
            else r.device == d && !r.raised)
  {
  }

  /**
   * A list of relay entries that are dicts with hashable `num`s is handled to
   * the end. Each tracked relay ends up holding the raw `val` of the last
   * entry naming it, or keeps its value when none does, and one update is
   * emitted per entry naming a tracked relay, in list order.
   */
  lemma {:induction false} RelayUpdatePerEntry(d: DeviceState, entries: seq<Json>)
    requires forall i :: 0 <= i < |entries| ==> WellFormedRelayEntry(entries[i])
    ensures var r := Entries(Relays, d, entries);
      && !r.raised
      && r.device.relays.Keys == d.relays.Keys
      && (forall k :: k in d.relays ==> r.device.relays[k] == LastValue(entries, k, JBool(false), d.relays[k]))
      && UpdatesFor(r.notes, Addressing(entries, d.relays.Keys))
    decreases |entries|
  {
    if entries != [] {
      var prefix := entries[..|entries| - 1];
      var e := entries[|entries| - 1];
      assert forall i :: 0 <= i < |prefix| ==> WellFormedRelayEntry(prefix[i]) by {
        forall i | 0 <= i < |prefix| ensures WellFormedRelayEntry(prefix[i]) {
          assert prefix[i] == entries[i];
        }
      }
      RelayUpdatePerEntry(d, prefix);
      var before := Entries(Relays, d, prefix);
      assert WellFormedRelayEntry(e);
      RelayEntryStores(before.device, e);
      RelayStep(d, entries, before, RelayEntry(before.device, e));
    }
  }

  /** The step of RelayUpdatePerEntry for the last entry. */
  lemma RelayStep(d: DeviceState, entries: seq<Json>, before: Run, last: Run)
    requires entries != []
    requires var prefix := entries[..|entries| - 1];
      && !before.raised
      && before.device.relays.Keys == d.relays.Keys
      && (forall k :: k in d.relays ==> before.device.relays[k] == LastValue(prefix, k, JBool(false), d.relays[k]))
      && UpdatesFor(before.notes, Addressing(prefix, d.relays.Keys))
    requires entries[|entries| - 1].JObject? && !last.raised
    requires var e := entries[|entries| - 1];
      var k := EntryNum(e);
      var val := Get(e.fields, "val", JBool(false));
      if k.Some? && k.value in before.device.relays then
           && last.device.relays == before.device.relays[k.value := val]
           && last.notes == [RelayUpdate(k.value + 1, Truthy(val), last.device.relays)]
         else last.device == before.device && last.notes == []
    ensures && last.device.relays.Keys == d.relays.Keys
      && (forall k :: k in d.relays ==> last.device.relays[k] == LastValue(entries, k, JBool(false), d.relays[k]))
      && UpdatesFor(before.notes + last.notes, Addressing(entries, d.relays.Keys))
  {
    var prefix := entries[..|entries| - 1];
    var e := entries[|entries| - 1];
    var k := EntryNum(e);
    if k.Some? && k.value in d.relays {
      assert UpdateFor(last.notes[0], e);
      UpdatesForAppend(before.notes, Addressing(prefix, d.relays.Keys), last.notes, [e]);
    } else {
      assert before.notes + last.notes == before.notes;
      assert Addressing(entries, d.relays.Keys) == Addressing(prefix, d.relays.Keys) + [];
    }
  }

  /** Switching the first relay on, as the panel reports it. */
  lemma FirstRelayOn(d: DeviceState, now: real)
    requires Shaped(d)
    ensures var entry := JObject(map["num" := JInt(0), "val" := JBool(true)]);
      var frame := Parsed(JObject(map["type" := JInt(50), "data" := JList([entry])]));
      var relays := d.relays[0 := JBool(true)];
      ProcessFrame(d, frame, now) == Step(d.(relays := relays), [RelayUpdate(1, true, relays)])
  {
    var entry := JObject(map["num" := JInt(0), "val" := JBool(true)]);
    assert [entry][..0] == [];
    var fields := map["type" := JInt(50), "data" := JList([entry])];
    assert Get(fields, "state", JInt(StatusOk)) == JInt(StatusOk);
    assert Get(fields, "type", JNull) == JInt(50);
  }

  /** A backlight entry that cannot raise: a dict whose `num` is a number and whose `val` is hashable. */
  predicate SafeBacklightEntry(entry: Json)
  {
    && entry.JObject?
    && IntValue(Get(entry.fields, "num", JNull)).Some?
    && Hashable(Get(entry.fields, "val", JInt(0)))
  }

  lemma {:induction false} SafeBacklightsDoNotRaise(d: DeviceState, entries: seq<Json>)
    requires forall i :: 0 <= i < |entries| ==> SafeBacklightEntry(entries[i])
    ensures !Entries(Backlights, d, entries).raised
    decreases |entries|
  {
    if entries != [] {
      var prefix := entries[..|entries| - 1];
      assert forall i :: 0 <= i < |prefix| ==> SafeBacklightEntry(prefix[i]) by {
        forall i | 0 <= i < |prefix| ensures SafeBacklightEntry(prefix[i]) {
          assert prefix[i] == entries[i];
        }
      }
      SafeBacklightsDoNotRaise(d, prefix);
      assert SafeBacklightEntry(entries[|entries| - 1]);
    }
  }

  /** The value stored for backlight `k`, read as `dict.get(k, 0)`. */
  function Stored(m: map<int, Json>, k: int): Json
  {
    if k in m then m[k] else JInt(0)
  }

  /**
   * A backlight list whose entries cannot raise leaves each backlight 0 to 3
   * holding the raw `val` of the last entry naming it (0 when that entry has
   * no `val`), or its earlier value when none does; any other key is kept as it was.
   */
  lemma {:induction false} SafeBacklightsStoreLast(d: DeviceState, entries: seq<Json>)
    requires forall i :: 0 <= i < |entries| ==> SafeBacklightEntry(entries[i])
    ensures var r := Entries(Backlights, d, entries).device.backlights;
      && (forall k :: 0 <= k <= 3 ==> Stored(r, k) == LastValue(entries, k, JInt(0), Stored(d.backlights, k)))
      && (forall k :: !(0 <= k <= 3) ==> (k in r <==> k in d.backlights) && Stored(r, k) == Stored(d.backlights, k))
    decreases |entries|
  {
    if entries != [] {
      var prefix := entries[..|entries| - 1];
      var e := entries[|entries| - 1];
      assert forall i :: 0 <= i < |prefix| ==> SafeBacklightEntry(prefix[i]) by {
        forall i | 0 <= i < |prefix| ensures SafeBacklightEntry(prefix[i]) {
          assert prefix[i] == entries[i];
        }
      }
      SafeBacklightsStoreLast(d, prefix);
      SafeBacklightsDoNotRaise(d, prefix);
      assert SafeBacklightEntry(e);
      var before := Entries(Backlights, d, prefix);
      BacklightEntryStores(before.device, e);
      BacklightStep(d, entries, before.device.backlights, Entries(Backlights, d, entries).device.backlights);
    }
  }

  /** The step of SafeBacklightsStoreLast for the last entry. */
  lemma BacklightStep(d: DeviceState, entries: seq<Json>, before: map<int, Json>, after: map<int, Json>)
    requires entries != [] && SafeBacklightEntry(entries[|entries| - 1])
    requires var prefix := entries[..|entries| - 1];
      && (forall k :: 0 <= k <= 3 ==> Stored(before, k) == LastValue(prefix, k, JInt(0), Stored(d.backlights, k)))
      && (forall k :: !(0 <= k <= 3) ==> (k in before <==> k in d.backlights) && Stored(before, k) == Stored(d.backlights, k))
    requires var e := entries[|entries| - 1];
      var k := EntryNum(e).value;
      after == if 0 <= k <= 3 then before[k := Get(e.fields, "val", JInt(0))] else before
    ensures && (forall k :: 0 <= k <= 3 ==> Stored(after, k) == LastValue(entries, k, JInt(0), Stored(d.backlights, k)))
      && (forall k :: !(0 <= k <= 3) ==> (k in after <==> k in d.backlights) && Stored(after, k) == Stored(d.backlights, k))
  {
  }

  /** A backlight list whose entries cannot raise ends in exactly one update carrying the new values. */
  lemma SafeBacklightsNotifyOnce(d: DeviceState, frame: map<string, Json>, entries: seq<Json>)
    requires Get(frame, "data", JList([])) == JList(entries)
    requires forall i :: 0 <= i < |entries| ==> SafeBacklightEntry(entries[i])
    ensures var r := HandleBacklight(d, frame);
      r.notes == [BacklightUpdate(r.device.backlights)]
  {
    SafeBacklightsDoNotRaise(d, entries);
  }

  /**
   * An entry without `num` makes the handler raise at that entry: the values
   * of the entries before it stay stored, and no update is emitted at all.
   */
  lemma BacklightMissingNum(d: DeviceState, frame: map<string, Json>, entries: seq<Json>, i: nat)
    requires Get(frame, "data", JList([])) == JList(entries)
    requires i < |entries| && entries[i].JObject? && "num" !in entries[i].fields
    requires forall j :: 0 <= j < i ==> SafeBacklightEntry(entries[j])
    ensures HandleBacklight(d, frame) == Step(Entries(Backlights, d, entries[..i]).device, [])
  {
    var before := entries[..i];
    assert forall j :: 0 <= j < |before| ==> SafeBacklightEntry(before[j]) by {
      forall j | 0 <= j < |before| ensures SafeBacklightEntry(before[j]) {
        assert before[j] == entries[j];
      }
    }
    SafeBacklightsDoNotRaise(d, before);
    var upTo := entries[..i + 1];
    assert upTo[..|upTo| - 1] == before;
    assert upTo[|upTo| - 1] == entries[i];
    assert Entries(Backlights, d, upTo).raised;
    EntriesAppend(Backlights, d, upTo, entries[i + 1..]);
    assert upTo + entries[i + 1..] == entries;
  }

  /** An empty backlight list still emits the update. */
  lemma EmptyBacklightList(d: DeviceState, frame: map<string, Json>)
    requires Get(frame, "data", JList([])) == JList([])
    ensures HandleBacklight(d, frame) == Step(d, [BacklightUpdate(d.backlights)])
  {
  }

  /** Payloads of relay and backlight frames that are not lists are ignored. */
  lemma NonListPayloadIgnored(d: DeviceState, frame: map<string, Json>)
    requires !Get(frame, "data", JList([])).JList?
    ensures HandleRelay(d, frame) == Step(d, [])
    ensures HandleBacklight(d, frame) == Step(d, [])
  {
  }

  /** A proximity frame records the truthiness of its payload, absent meaning no presence. */
  lemma ProximityRecorded(d: DeviceState, frame: map<string, Json>)
    ensures var detected := "data" in frame && Truthy(frame["data"]);
      HandleProximity(d, frame) == Step(d.(proximity := detected), [ProximityUpdate(detected)])
  {
  }

  /** A button frame changes only button states, and only under known key codes. */
  lemma ButtonFootprint(d: DeviceState, frame: map<string, Json>)
    ensures var r := HandleButton(d, frame).device;
      r == d.(buttons := r.buttons) && d.buttons.Keys <= r.buttons.Keys <= d.buttons.Keys + ButtonMap.Keys
  {
  }

  /** A relay frame changes only relay values, and only those already tracked. */
  lemma RelayFootprint(d: DeviceState, frame: map<string, Json>)
    ensures var r := HandleRelay(d, frame).device;
      r == d.(relays := r.relays) && r.relays.Keys == d.relays.Keys
  {
    var list := Get(frame, "data", JList([]));
    if list.JList? {
      RelayEntriesFootprint(d, list.items);
    }
  }

  /** A backlight frame changes only backlight values, and only under the indices 0 to 3. */
  lemma BacklightFootprint(d: DeviceState, frame: map<string, Json>)
    ensures var r := HandleBacklight(d, frame).device;
      r == d.(backlights := r.backlights)
      && d.backlights.Keys <= r.backlights.Keys <= d.backlights.Keys + BacklightIndices
  {
    var list := Get(frame, "data", JList([]));
    if list.JList? {
      BacklightEntriesFootprint(d, list.items);
    }
  }

  /**
   * Each part of the device state is changed only by an accepted frame of
   * the matching type, and only accepted frames of a handled type notify.
   */
  lemma ProcessFrameFootprint(d: DeviceState, frame: Frame, now: real)
    ensures var r := ProcessFrame(d, frame, now);
      && (r.device.buttons != d.buttons ==> IsAccepted(frame, MsgTypeButton))
      && (r.device.relays != d.relays ==> IsAccepted(frame, MsgTypeRelayChange))
      && (r.device.backlights != d.backlights ==> IsAccepted(frame, MsgTypeBacklightChange))
      && (r.device.proximity != d.proximity ==> IsAccepted(frame, MsgTypeProximity))
      && (r.device.lastHeartbeat != d.lastHeartbeat ==> IsAccepted(frame, MsgTypeHeartbeat))
      && (r.notes != [] ==>
            IsAccepted(frame, MsgTypeButton) || IsAccepted(frame, MsgTypeRelayChange)
            || IsAccepted(frame, MsgTypeBacklightChange) || IsAccepted(frame, MsgTypeProximity))
  {
    if frame.Parsed? && frame.value.JObject? {
      ButtonFootprint(d, frame.value.fields);
      RelayFootprint(d, frame.value.fields);
      BacklightFootprint(d, frame.value.fields);
    }
  }

  /** Every frame keeps the key sets the bridge started with. */
  lemma ProcessFrameKeepsShape(d: DeviceState, frame: Frame, now: real)
    requires Shaped(d)
    ensures Shaped(ProcessFrame(d, frame, now).device)
  {
    if frame.Parsed? && frame.value.JObject? {
      var f := frame.value.fields;
      var msgType := Get(f, "type", JNull);
      if !EqualsInt(Get(f, "state", JInt(StatusOk)), StatusOk) {
      } else if EqualsInt(msgType, MsgTypeButton) {
        ButtonFootprint(d, f);
      } else if EqualsInt(msgType, MsgTypeRelayChange) {
        RelayFootprint(d, f);
      } else if EqualsInt(msgType, MsgTypeBacklightChange) {
        BacklightFootprint(d, f);
      }
    }
  }

  /** Any sequence of lines keeps the key sets the bridge started with. */
  lemma {:induction false} ApplyLinesKeepsShape(d: DeviceState, lines: seq<string>, decode: string -> Frame, now: real)
    requires Shaped(d)
    ensures Shaped(ApplyLines(d, lines, decode, now).device)
    decreases |lines|
  {
    if lines != [] {
      var before := ApplyLines(d, lines[..|lines| - 1], decode, now);
      ApplyLinesKeepsShape(d, lines[..|lines| - 1], decode, now);
      ProcessFrameKeepsShape(before.device, decode(lines[|lines| - 1]), now);
    }
  }

  /** Dispatching lines in two batches is dispatching them in one. */
  lemma {:induction false} ApplyLinesAppend(d: DeviceState, xs: seq<string>, ys: seq<string>, decode: string -> Frame, now: real)
    ensures var a := ApplyLines(d, xs, decode, now);
      var b := ApplyLines(a.device, ys, decode, now);
      ApplyLines(d, xs + ys, decode, now) == Step(b.device, a.notes + b.notes)
    decreases |ys|
  {
    if ys == [] {
      assert xs + ys == xs;
    } else {
      var zs := ys[..|ys| - 1];
      assert (xs + ys)[..|xs + ys| - 1] == xs + zs;
      assert (xs + ys)[|xs + ys| - 1] == ys[|ys| - 1];
      ApplyLinesAppend(d, xs, zs, decode, now);
      var a := ApplyLines(d, xs, decode, now);
      var b := ApplyLines(a.device, zs, decode, now);
      var last := ProcessFrame(b.device, decode(ys[|ys| - 1]), now);
      assert ApplyLines(a.device, ys, decode, now) == Step(last.device, b.notes + last.notes);
      ConcatAssoc(a.notes, b.notes, last.notes);
    }
  }
}
