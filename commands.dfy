/**
 * The commands the bridge sends to the panel (bridge.py lines 379-448): the
 * dict each public call builds, the line `json.dumps` turns it into, and how
 * the callers' button, colour and relay arguments are resolved.
 */
module Commands {
  import opened Options
  import opened PyJson
  import opened Protocol
  import opened Text
  import opened Framing
  import opened Seqs

  /** What the bridge can ask of the panel. */
  datatype Command =
    | ScreenWake
    | BacklightControl(num: int, val: int)
    | RelayControl(num: int, on: bool)
    | Heartbeat

  /** The dict handed to `_send_message`. */
  function Message(c: Command): (m: Json)
    ensures m.JObject? && "type" in m.fields && m.fields["type"].JInt?
  {
    match c
    case ScreenWake =>
      JObject(map["type" := JInt(MsgTypeScreenWake)])
    case BacklightControl(num, val) =>
      JObject(map["type" := JInt(MsgTypeBacklightControl),
                  "data" := JObject(map["num" := JInt(num), "val" := JInt(val)])])
    case RelayControl(num, on) =>
      JObject(map["type" := JInt(MsgTypeRelayControl),
                  "data" := JObject(map["num" := JInt(num), "val" := JBool(on)])])
    case Heartbeat =>
      JObject(map["type" := JInt(MsgTypeHeartbeat), "data" := JStr("ok"),
                  "state" := JInt(StatusOk), "msg" := JStr("")])
  }

  /** The panel's reading of a dict as a command: the inverse of `Message`. */
  function ParseCommand(m: Json): Option<Command>
  {
    if !m.JObject? then None
    else
      var f := m.fields;
      if f == map["type" := JInt(MsgTypeScreenWake)] then Some(ScreenWake)
      else if f == map["type" := JInt(MsgTypeHeartbeat), "data" := JStr("ok"),
                       "state" := JInt(StatusOk), "msg" := JStr("")] then Some(Heartbeat)
      else if f.Keys == {"type", "data"} && f["data"].JObject? && f["data"].fields.Keys == {"num", "val"} then
        var num := f["data"].fields["num"];
        var val := f["data"].fields["val"];
        if f["type"] == JInt(MsgTypeBacklightControl) && num.JInt? && val.JInt? then
          Some(BacklightControl(num.i, val.i))
        else if f["type"] == JInt(MsgTypeRelayControl) && num.JInt? && val.JBool? then
          Some(RelayControl(num.i, val.b))
        else None
      else None
  }

  /** Every command is read back as itself. */
  lemma ParseMessage(c: Command)
    ensures ParseCommand(Message(c)) == Some(c)
  {
    var f := Message(c).fields;
    match c
    case ScreenWake =>
    case Heartbeat =>
    case BacklightControl(num, val) =>
      assert "msg" !in f;
    case RelayControl(num, on) =>
      assert "msg" !in f;
  }

  /** Only the dicts the bridge builds are read as commands, so distinct commands are distinct dicts. */
  lemma MessageOfParse(m: Json)
    requires ParseCommand(m).Some?
    ensures Message(ParseCommand(m).value) == m
  {
    var f := m.fields;
    if f.Keys == {"type", "data"} && f["data"].JObject? && f["data"].fields.Keys == {"num", "val"} {
      var g := f["data"].fields;
      assert g == map["num" := g["num"], "val" := g["val"]];
      assert f == map["type" := f["type"], "data" := f["data"]];
    }
  }

  lemma MessageInjective(c: Command, d: Command)
    requires Message(c) == Message(d)
    ensures c == d
  {
    ParseMessage(c);
    ParseMessage(d);
  }

  // ------------------------------------------------------------ wire format

  /** Python's `str(n)`. */
  function IntText(n: int): (s: string)
    ensures s != [] && s[|s| - 1] != ' '
  {
    if n < 0 then "-" + Decimal(-n) else Decimal(n)
  }

  /** The `"key": value` pairs of the command's dict as `json.dumps` writes them, in insertion order. */
  function Items(c: Command): string
  {
    match c
    case ScreenWake => "\"type\": 20"
    case BacklightControl(num, val) => "\"type\": 11, \"data\": {" + ControlTail(num, IntText(val))
    case RelayControl(num, on) => "\"type\": 51, \"data\": {" + ControlTail(num, if on then "true" else "false")
    case Heartbeat =>
      "\"type\": 500, " + "\"data\": \"ok\", " + "\"state\": 200, " + "\"msg\": \"\""
  }

  /** The `data` dict of a control command, closed. */
  function ControlTail(num: int, val: string): string
  {
    "\"num\": " + IntText(num) + ", \"val\": " + val + "}"
  }

  /** `json.dumps` of the command's dict with its default separators. */
  function Render(c: Command): string
  {
    "{" + Items(c) + "}"
  }

  function Renders(cs: seq<Command>): (rs: seq<string>)
    ensures |rs| == |cs|
    ensures forall i :: 0 <= i < |cs| ==> rs[i] == Render(cs[i])
  {
    seq(|cs|, i requires 0 <= i < |cs| => Render(cs[i]))
  }

  /** Lines, each followed by a newline, one after the other. */
  function Join(lines: seq<string>): string
    decreases |lines|
  {
    if lines == [] then [] else (lines[0] + "\n") + Join(lines[1..])
  }

  /** The stream the panel receives from a sequence of sends. */
  function Stream(cs: seq<Command>): string
  {
    Join(Renders(cs))
  }

  lemma NoNewlineJoin(a: string, b: string)
    requires NoNewline(a) && NoNewline(b)
    ensures NoNewline(a + b)
  {
    assert forall k :: 0 <= k < |a + b| ==> (a + b)[k] == if k < |a| then a[k] else b[k - |a|];
  }

  lemma IntTextNoNewline(n: int)
    ensures NoNewline(IntText(n))
  {
    var s := if n < 0 then Decimal(-n) else Decimal(n);
    assert forall k :: 0 <= k < |s| ==> IsDigit(s[k]);
    if n < 0 {
      NoNewlineJoin("-", s);
    }
  }

  /** The pairs `"num": n, "val": v}` closing a control command. */
  lemma ControlTailNoNewline(num: int, val: string)
    requires NoNewline(val)
    ensures NoNewline(ControlTail(num, val))
  {
    IntTextNoNewline(num);
    var a := "\"num\": ";
    NoNewlineJoin(a, IntText(num));
    NoNewlineJoin(a + IntText(num), ", \"val\": ");
    NoNewlineJoin(a + IntText(num) + ", \"val\": ", val);
    NoNewlineJoin(a + IntText(num) + ", \"val\": " + val, "}");
  }

  lemma HeartbeatItemsNoNewline()
    ensures NoNewline(Items(Heartbeat))
  {
    var a, b, d, e := "\"type\": 500, ", "\"data\": \"ok\", ", "\"state\": 200, ", "\"msg\": \"\"";
    NoNewlineJoin(a, b);
    NoNewlineJoin(a + b, d);
    NoNewlineJoin(a + b + d, e);
  }

  lemma BacklightItemsNoNewline(num: int, val: int)
    ensures NoNewline(Items(BacklightControl(num, val)))
  {
    IntTextNoNewline(val);
    ControlTailNoNewline(num, IntText(val));
    NoNewlineJoin("\"type\": 11, \"data\": {", ControlTail(num, IntText(val)));
  }

  lemma RelayLiteralsNoNewline()
    ensures NoNewline("true") && NoNewline("false") && NoNewline("\"type\": 51, \"data\": {")
  {
  }

  lemma RelayItemsNoNewline(num: int, on: bool)
    ensures NoNewline(Items(RelayControl(num, on)))
  {
    var v: string := if on then "true" else "false";
    RelayLiteralsNoNewline();
    ControlTailNoNewline(num, v);
    NoNewlineJoin("\"type\": 51, \"data\": {", ControlTail(num, v));
  }

  lemma ItemsNoNewline(c: Command)
    ensures NoNewline(Items(c))
  {
    match c
    case ScreenWake =>
    case Heartbeat => HeartbeatItemsNoNewline();
    case BacklightControl(num, val) => BacklightItemsNoNewline(num, val);
    case RelayControl(num, on) => RelayItemsNoNewline(num, on);
  }

  /** A rendered command is one stripped, newline-free line. */
  lemma RenderDispatchable(c: Command)
    ensures Dispatchable(Render(c))
  {
    ItemsNoNewline(c);
    NoNewlineJoin("{", Items(c));
    NoNewlineJoin("{" + Items(c), "}");
  }

  /** Joined dispatchable lines are received as exactly those lines. */
  lemma {:induction false} JoinFrames(lines: seq<string>)
    requires forall i :: 0 <= i < |lines| ==> Dispatchable(lines[i])
    ensures Split(Join(lines)) == Framed(lines, [])
    decreases |lines|
  {
    if lines == [] {
      SplitNone([]);
    } else {
      var first := lines[0] + "\n";
      var rest := lines[1..];
      forall i | 0 <= i < |rest| ensures Dispatchable(rest[i]) {
        assert rest[i] == lines[i + 1];
      }
      JoinFrames(rest);
      CompleteLine(lines[0]);
      SplitAppend(first, Join(rest));
      assert Split(first).rest + Join(rest) == Join(rest);
      HeadTail(lines);
    }
  }

  /**
   * Newline framing delivers the sent commands one per line, in order,
   * and leaves nothing half-received.
   */
  lemma StreamFrames(cs: seq<Command>)
    ensures Split(Stream(cs)) == Framed(Renders(cs), [])
  {
    forall i | 0 <= i < |cs| ensures Dispatchable(Renders(cs)[i]) {
      RenderDispatchable(cs[i]);
    }
    JoinFrames(Renders(cs));
  }

  // ------------------------------------------------------------- arguments

  /** The colour names the panel knows, case-insensitively; anything else is "off". */
  function ColorCode(color: string): (v: int)
    ensures 0 <= v <= 3
    ensures Lower(color) !in BacklightColors.Values ==> v == 0
    ensures v != 0 ==> v in BacklightColors && Lower(color) == BacklightColors[v]
  {
    BacklightColorsBijective();
    var c := Lower(color);
    if c == "off" then 0
    else if c == "white" then 1
    else if c == "yellow" then 2
    else if c == "both" then 3
    else 0
  }

  /** Colour names and codes agree with BACKLIGHT_COLORS, in both directions. */
  lemma ColorCodeInvertsColors()
    ensures forall k :: k in BacklightColors ==> ColorCode(BacklightColors[k]) == k
  {
    LowerFixed("off");
    LowerFixed("white");
    LowerFixed("yellow");
    LowerFixed("both");
  }

  /** Case does not matter to the colour. */
  lemma ColorCodeIgnoresCase(color: string)
    ensures ColorCode(Lower(color)) == ColorCode(color)
  {
    LowerIdempotent(color);
  }

  /** A button or relay argument: Python code passes either a number or text. */
  datatype Argument = AsNumber(n: int) | AsText(text: string)

  /** Python's `int(arg)`; `None` where it raises. */
  function IntOf(a: Argument): Option<int>
  {
    match a
    case AsNumber(n) => Some(n)
    case AsText(t) => ParseInt(t)
  }

  /** Which backlights a `set_backlight` call addresses. */
  datatype BacklightTarget = AllButtons | OneButton(index: int) | NoButton

  function ResolveButton(a: Argument): (t: BacklightTarget)
    ensures t.AllButtons? <==> a.AsText? && Lower(a.text) == "all"
    ensures t.OneButton? ==> 0 <= t.index <= 3 && IntOf(a) == Some(t.index + 1)
    ensures t.NoButton? ==> IntOf(a).None? || !(1 <= IntOf(a).value <= 4)
  {
    if a.AsText? && Lower(a.text) == "all" then AllButtons
    else
      var n := IntOf(a);
      if n.Some? && 0 <= n.value - 1 <= 3 then OneButton(n.value - 1) else NoButton
  }

  /** Buttons are numbered 1 to NUM_BUTTONS by the caller and 0 to 3 on the wire. */
  lemma ButtonNumbers(n: int)
    ensures ResolveButton(AsNumber(n)) == if 1 <= n <= NumButtons then OneButton(n - 1) else NoButton
  {
  }

  /** The same holds for the number written as text. */
  lemma ButtonNumeralText(n: nat)
    ensures ResolveButton(AsText(Decimal(n))) == if 1 <= n <= NumButtons then OneButton(n - 1) else NoButton
  {
    var s := Decimal(n);
    assert Lower(s) != "all" by {
      assert IsDigit(s[0]);
      assert Lower(s)[0] == LowerChar(s[0]) == s[0];
    }
    ParseDecimal(n);
    assert IntOf(AsText(s)) == Some(n);
  }

  /** The relay a `control_relay` call addresses, if it is one the bridge tracks. */
  function ResolveRelay(a: Argument, tracked: set<int>): (r: Option<int>)
    ensures r.Some? <==> IntOf(a).Some? && IntOf(a).value - 1 in tracked
    ensures r.Some? ==> r.value + 1 == IntOf(a).value
  {
    match IntOf(a)
    case None => None
    case Some(n) => if n - 1 in tracked then Some(n - 1) else None
  }

  /** The four commands `set_all_backlights` sends, button 0 first. */
  function AllBacklights(val: int): (cs: seq<Command>)
    ensures |cs| == NumButtons
    ensures forall i :: 0 <= i < NumButtons ==> cs[i] == BacklightControl(i, val)
  {
    seq(NumButtons, i requires 0 <= i < NumButtons => BacklightControl(i, val))
  }
}
