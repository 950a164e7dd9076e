# iPano Plus bridge — a Dafny model

This project models `iPanoBridge`, the TCP bridge between Home Assistant and
an iPano Plus wall panel (`custom_components/ipano_plus/bridge.py`), together
with the protocol constants it uses (`custom_components/ipano_plus/const.py`).

The bridge holds one connection to the panel. It reads newline-delimited JSON
frames from it and keeps a cached view of the panel: which buttons are
pressed, what the relays and backlights report, the proximity sensor, and
when the last heartbeat was seen. Every change it learns of is announced to
the rest of the system. It writes JSON commands back: screen wake, backlight
control, relay control and heartbeats. It reconnects with exponential
backoff when the connection drops.

The project is layered as follows:

- `Protocol` (const.py): message-type codes, key codes, the button map and
  the backlight colour table.
- `PyJson`: JSON values plus the parts of Python's object semantics that the
  handlers depend on. These are `dict.get` with a default, truthiness, `==`
  against an integer (where `True == 1`), and unhashable keys.
- `Text`: `str.strip`, ASCII `str.lower`, and `int()` on text.
- `Framing`: cutting the receive buffer into lines, as in the inner loop of
  `_listen_loop`.
- `Dispatch`: `_process_message` and the four `_handle_*` handlers, written
  as pure functions from the cached device state and a decoded frame to the
  new state and the notifications emitted.
- `Commands`: the dict each public call builds, the line `json.dumps` writes
  for it, and how button, colour and relay arguments are resolved.
- `Retry`: the attempt and wait schedule of `_connect_with_retry`.
- `Sending`: `_send_message` and the public send calls, as functions over the
  connection.
- `Session`: connecting, listening, the heartbeat and stopping, as functions
  over the whole bridge state.
- `IpanoBridge.Bridge`: a class whose fields are those of `iPanoBridge`. Its
  methods update them in place with the loops of the source. Each method is
  proved to leave exactly the state that the corresponding `Session`,
  `Sending` or `Dispatch` function describes.

The following are parameters of the model rather than effects:

- Socket reads are a sequence of read events: text, a zero-length read, a
  timeout, a cancellation, a reset, or another error.
- The outcome of each connection attempt and of each write is a parameter.
- The clock is a time value given with each read, connection and heartbeat
  pass.
- `json.loads` is a function parameter `decode` from a line to a `Frame`.
- The bus events and dispatcher signals become `Notification` values appended
  to a list. One entry stands for the pair fired for the same occurrence.

`async_stop` only clears the connected flag and cancels its asyncio tasks; it
records no "stopped" state. A listen loop that is then cancelled sees the
bridge disconnected, and so hands over to `_handle_disconnection`, which
reconnects. `Session.StopThenCancelReconnects` proves this.

## Model

| member | source | states |
|---|---|---|
| Protocol.MessageTypeCodes | custom_components/ipano_plus/const.py:16-28 | the thirteen message-type codes are pairwise distinct and include the heartbeat and button codes |
| Protocol.ButtonMapKeys | custom_components/ipano_plus/const.py:31-41 | the button map's keys are exactly the listed key codes, and there are `NUM_BUTTONS` of each |
| Protocol.ButtonMapOrdered | custom_components/ipano_plus/const.py:33-41 | key code 130+i is listed at position i-1 and names `button_i` |
| Protocol.ButtonMapInjective | custom_components/ipano_plus/const.py:36-41 | distinct key codes name distinct buttons |
| Protocol.BacklightColorsBijective | custom_components/ipano_plus/const.py:44-49 | the colour table maps the codes 0-3 one-to-one onto off, white, yellow and both |
| Text.StripSpec | custom_components/ipano_plus/bridge.py:176-177 | a stripped line starts and ends with a non-space; it is empty exactly when the line is all whitespace; a line already trimmed is kept as it is |
| Text.StripIsSlice | custom_components/ipano_plus/bridge.py:176 | the stripped line is a contiguous slice of the line |
| Text.StripKeeps | custom_components/ipano_plus/bridge.py:176 | stripping introduces no character the line did not hold |
| Text.StripLeftSpec | custom_components/ipano_plus/bridge.py:176 | exactly the leading whitespace is removed |
| Text.StripRightSpec | custom_components/ipano_plus/bridge.py:176 | exactly the trailing whitespace is removed |
| Text.LowerChar | custom_components/ipano_plus/bridge.py:405 | an upper-case ASCII letter becomes its lower-case letter and every other character is kept |
| Text.LowerIdempotent | custom_components/ipano_plus/bridge.py:405-407 | lower-casing twice is lower-casing once |
| Text.LowerFixed | custom_components/ipano_plus/bridge.py:405-407 | text without upper-case letters is unchanged |
| Text.StripPadded | custom_components/ipano_plus/bridge.py:411 | whitespace around text that has a non-space at both ends is exactly what stripping removes |
| Text.ParseSigned | custom_components/ipano_plus/bridge.py:411 | `int()` of whitespace, an optional `+` or `-`, one or more digits and whitespace is the value of the digits, negated after `-` |
| Text.ParseIntOnlyNumerals | custom_components/ipano_plus/bridge.py:411 | `int()` succeeds only on text of that shape: whitespace, an optional sign, at least one digit, whitespace |
| Text.ParseDecimal | custom_components/ipano_plus/bridge.py:411 | `int()` of the decimal numeral of n is n |
| Text.ParseDigits | custom_components/ipano_plus/bridge.py:411 | `int()` of a digit string is the value of its digits |
| Text.DecimalValue | custom_components/ipano_plus/bridge.py:386 | the numeral written for n has the value n |
| Framing.NewlineAt | custom_components/ipano_plus/bridge.py:174-175 | the cut position is inside the buffer only at a newline |
| Framing.NewlineAtIsFirst | custom_components/ipano_plus/bridge.py:175 | `split("\n", 1)` cuts at the first newline |
| Framing.SplitStep | custom_components/ipano_plus/bridge.py:174-178 | one pass of the inner loop: the stripped first line unless blank, then the lines of the rest |
| Framing.SplitRestNoNewline | custom_components/ipano_plus/bridge.py:174 | when the inner loop stops, the buffer holds no newline |
| Framing.SplitNone | custom_components/ipano_plus/bridge.py:174 | a buffer without a newline dispatches nothing and is kept whole |
| Framing.SplitLinesDispatchable | custom_components/ipano_plus/bridge.py:175-178 | every dispatched line is non-empty, holds no newline, and has no whitespace at either end |
| Framing.CleanAppend | custom_components/ipano_plus/bridge.py:176-177 | stripping and dropping blank lines works piece by piece |
| Framing.PiecesAppend | custom_components/ipano_plus/bridge.py:172-175 | cutting a buffer extended by more text is cutting the old buffer, then cutting its remainder with the new text |
| Framing.SplitAppend | custom_components/ipano_plus/bridge.py:172-178 | the same for the dispatched lines |
| Framing.FeedAllIsOneRead | custom_components/ipano_plus/bridge.py:166-178 | feeding chunks read by read dispatches the same lines and leaves the same buffer as one read of all of them |
| Framing.TwoReadsAsOne | custom_components/ipano_plus/bridge.py:166-178 | two reads frame exactly as the single read of their concatenation |
| Framing.CompleteLine | custom_components/ipano_plus/bridge.py:174-178 | a dispatchable line followed by a newline is dispatched as it is and leaves nothing behind |
| Framing.FrameAcrossTwoReads | custom_components/ipano_plus/bridge.py:172-178 | a frame split over two reads stays buffered after the first read and is dispatched whole after the second |
| Framing.FirstReadBuffered | custom_components/ipano_plus/bridge.py:172-174 | text without a newline is only buffered |
| Commands.Message | custom_components/ipano_plus/bridge.py:398-438 | every command is a JSON object with an integer `type` |
| Commands.ParseMessage | custom_components/ipano_plus/bridge.py:398-438 | every command is recovered from the dict sent for it |
| Commands.MessageOfParse | custom_components/ipano_plus/bridge.py:398-438 | a dict that reads back as a command is exactly that command's dict |
| Commands.MessageInjective | custom_components/ipano_plus/bridge.py:398-438 | distinct commands send distinct dicts |
| Commands.RenderDispatchable | custom_components/ipano_plus/bridge.py:386 | `json.dumps` of a command writes a single line with no whitespace at its ends |
| Commands.JoinFrames | custom_components/ipano_plus/bridge.py:386 | lines written one after another, each with its newline, are framed back into exactly those lines |
| Commands.StreamFrames | custom_components/ipano_plus/bridge.py:386 | the stream of sent commands frames into their rendered lines, with nothing left over |
| Commands.ColorCode | custom_components/ipano_plus/bridge.py:404-405 | the colour code is one of 0-3; a name that is no colour of the table, in any case, gives 0; a non-zero code is the table's code for the lower-cased name |
| Commands.ColorCodeInvertsColors | custom_components/ipano_plus/bridge.py:404-405 | the colour map inverts the backlight colour table |
| Commands.ColorCodeIgnoresCase | custom_components/ipano_plus/bridge.py:405 | the colour name is matched without regard to case |
| Commands.ResolveButton | custom_components/ipano_plus/bridge.py:407-419 | "all" in any case addresses every button; a number n addresses button n-1 exactly when 1 <= n <= 4; anything else addresses none |
| Commands.ButtonNumbers | custom_components/ipano_plus/bridge.py:411-412 | numeric button n is button n-1 when 1 <= n <= 4, and no button otherwise |
| Commands.ButtonNumeralText | custom_components/ipano_plus/bridge.py:411-412 | the same for the decimal text of n |
| Commands.ResolveRelay | custom_components/ipano_plus/bridge.py:435-436 | relay n resolves exactly when n-1 is a tracked relay index, and then to n-1 |
| Dispatch.InitialDevice | custom_components/ipano_plus/bridge.py:55-61 | the initial view has the fixed key sets, every button released, relays off, backlights 0 and no proximity |
| Dispatch.RelayIndicesMatchNumRelays | custom_components/ipano_plus/bridge.py:59 | the tracked relay indices are 0 to `NUM_RELAYS`-1 |
| Dispatch.NonOkStatusDropped | custom_components/ipano_plus/bridge.py:225-229 | a frame whose state is not 200 changes nothing |
| Dispatch.MissingStatusIsOk | custom_components/ipano_plus/bridge.py:225 | a frame without a state is handled as if its state were 200 |
| Dispatch.HeartbeatStampsTime | custom_components/ipano_plus/bridge.py:241-243 | an accepted heartbeat frame only stamps the heartbeat time |
| Dispatch.UnhandledTypeIgnored | custom_components/ipano_plus/bridge.py:244-245 | a frame of any other type changes nothing |
| Dispatch.MalformedIgnored | custom_components/ipano_plus/bridge.py:247-250 | a line that is not a JSON object changes nothing |
| Dispatch.KnownButton | custom_components/ipano_plus/bridge.py:255-276 | a known key code records pressed exactly when the action is 0, and emits one button event |
| Dispatch.UnknownButton | custom_components/ipano_plus/bridge.py:279-280 | an unknown key code changes nothing |
| Dispatch.FirstButtonPressed | custom_components/ipano_plus/bridge.py:233-276 | a press of key 131 marks `button_1` pressed and emits its event |
| Dispatch.EntriesAppend | custom_components/ipano_plus/bridge.py:294-340 | walking a payload list in two parts is walking it whole; an entry that raises ends the walk |
| Dispatch.RelayEntryStores | custom_components/ipano_plus/bridge.py:295-310 | a relay entry raises exactly when it is not a dict or its `num` cannot be hashed, and then changes nothing; a `num` naming a tracked relay k stores the raw `val` (False when missing) at k and emits the update for relay k+1 with the truthiness of `val`; any other entry changes nothing |
| Dispatch.BacklightEntryStores | custom_components/ipano_plus/bridge.py:329-340 | a backlight entry emits nothing; one that is not a dict or whose `num` is not a number raises and changes nothing; a `num` k in 0-3 stores the raw `val` (0 when missing) at k and raises only for a changed value that cannot be hashed; any other `num` changes nothing |
| Dispatch.RelayUpdatePerEntry | custom_components/ipano_plus/bridge.py:294-314 | a list of dicts with hashable `num`s never raises and adds no relay; each tracked relay holds the `val` of the last entry naming it, or its earlier value; one update is emitted per entry naming a tracked relay, in list order, with that entry's relay and truthiness |
| Dispatch.FirstRelayOn | custom_components/ipano_plus/bridge.py:285-310 | relay entry `{num: 0, val: true}` switches relay 1 on and emits its update |
| Dispatch.SafeBacklightsDoNotRaise | custom_components/ipano_plus/bridge.py:328-340 | backlight entries with an integer `num` and an integer `val` never raise |
| Dispatch.SafeBacklightsStoreLast | custom_components/ipano_plus/bridge.py:328-340 | after such a list, each backlight 0-3 holds the `val` of the last entry naming it (0 when missing), or its earlier value; every other key is kept as it was |
| Dispatch.SafeBacklightsNotifyOnce | custom_components/ipano_plus/bridge.py:328-343 | such a list emits exactly one backlight update, carrying the final backlight map |
| Dispatch.BacklightMissingNum | custom_components/ipano_plus/bridge.py:329-346 | an entry without `num` raises; the entries before it stay applied and no update is emitted |
| Dispatch.EmptyBacklightList | custom_components/ipano_plus/bridge.py:322-343 | an empty backlight list still emits one update |
| Dispatch.NonListPayloadIgnored | custom_components/ipano_plus/bridge.py:288-292 | a relay or backlight payload that is not a list changes nothing |
| Dispatch.ProximityRecorded | custom_components/ipano_plus/bridge.py:351-362 | a proximity frame records the truthiness of its data and emits it |
| Dispatch.ButtonFootprint | custom_components/ipano_plus/bridge.py:252-283 | the button handler changes only button states, and only for mapped key codes |
| Dispatch.RelayFootprint | custom_components/ipano_plus/bridge.py:285-317 | the relay handler changes only relay values, and never the set of relays |
| Dispatch.BacklightFootprint | custom_components/ipano_plus/bridge.py:319-346 | the backlight handler changes only backlight values, and adds only the indices 0-3 |
| Dispatch.RelayEntriesFootprint | custom_components/ipano_plus/bridge.py:294-314 | walking relay entries changes only relay values, and never the set of relays |
| Dispatch.BacklightEntriesFootprint | custom_components/ipano_plus/bridge.py:328-340 | walking backlight entries changes only backlight values, and adds only the indices 0-3 |
| Dispatch.BacklightEntriesSilent | custom_components/ipano_plus/bridge.py:328-340 | walking backlight entries emits nothing by itself |
| Dispatch.ProcessFrameFootprint | custom_components/ipano_plus/bridge.py:219-250 | each part of the device view changes only through an accepted frame of its own type, and only the four handled types emit |
| Dispatch.ProcessFrameKeepsShape | custom_components/ipano_plus/bridge.py:58-61 | processing a frame keeps the key sets the bridge starts with |
| Dispatch.ApplyLinesKeepsShape | custom_components/ipano_plus/bridge.py:174-178 | so does processing any sequence of lines |
| Dispatch.ApplyLinesAppend | custom_components/ipano_plus/bridge.py:174-178 | processing lines in two batches is processing them in one |
| Retry.RetryFromShape | custom_components/ipano_plus/bridge.py:88-99 | from attempt k on: at most `max_retries`-k attempts; a connection exactly when one is accepted; the waits are 2^j after each failed attempt j but the last |
| Retry.RetryAttempts | custom_components/ipano_plus/bridge.py:86-101 | at most `max_retries` attempts; connected exactly when some attempt is accepted, the last attempt made being the first accepted; otherwise every attempt is made |
| Retry.RetryWaits | custom_components/ipano_plus/bridge.py:96-99 | the waits are 1, 2, 4, ... seconds, one after each failed attempt except the last |
| Retry.BackoffTotal | custom_components/ipano_plus/bridge.py:96-99 | m waits add up to 2^m - 1 seconds |
| Retry.StartupGivesUp | custom_components/ipano_plus/bridge.py:81-101 | at start-up with every attempt refused: five attempts and waits of 1, 2, 4 and 8 seconds, 15 in all |
| Retry.ReconnectGivesUp | custom_components/ipano_plus/bridge.py:215-217 | when reconnecting with every attempt refused: three attempts, waiting 1 and then 2 seconds |
| Sending.SendOutcome | custom_components/ipano_plus/bridge.py:379-394 | a send succeeds exactly when connected with a writer and the write succeeds; only then is the command appended; a failed write disconnects |
| Sending.SendEachPrefix | custom_components/ipano_plus/bridge.py:425-431 | a sequence of sends delivers a prefix of the commands; it succeeds exactly when all are delivered, and it stops at the first failed write |
| Sending.SendEachKeepsOpen | custom_components/ipano_plus/bridge.py:379-394 | sending never changes the writer; after a failure the bridge is disconnected or has no writer |
| Sending.DisconnectedSendsNothing | custom_components/ipano_plus/bridge.py:381-383 | a bridge that cannot send changes nothing and reports failure |
| Sending.SetOneBacklight | custom_components/ipano_plus/bridge.py:403-415 | setting button n sends one control command for button n-1 with the colour's code |
| Sending.SetBacklightOutOfRange | custom_components/ipano_plus/bridge.py:411-419 | a button number outside 1-4 sends nothing and reports failure |
| Sending.SetBacklightAll | custom_components/ipano_plus/bridge.py:407-431 | "all" succeeds exactly when all four writes succeed, and then sends the four control commands |
| Sending.ControlTrackedRelay | custom_components/ipano_plus/bridge.py:433-448 | relay n is switched exactly when 1 <= n <= 2 and the send succeeds; otherwise nothing is sent |
| Session.Initial | custom_components/ipano_plus/bridge.py:40-61 | a new bridge is disconnected, has sent and emitted nothing, has an empty buffer and the initial device view |
| Session.ReceiveLeavesNoNewline | custom_components/ipano_plus/bridge.py:172-178 | after a read, no complete line waits in the buffer |
| Session.ReceiveFootprint | custom_components/ipano_plus/bridge.py:166-178 | a read changes neither the connection nor what was sent, and only appends notifications |
| Session.TwoReadsAsOneRead | custom_components/ipano_plus/bridge.py:166-178 | two reads leave the whole bridge in the same state as one read of both texts |
| Session.ListenEndedStays | custom_components/ipano_plus/bridge.py:164-194 | once the listen loop has ended, later events are not consumed |
| Session.ListenBufferNoNewline | custom_components/ipano_plus/bridge.py:164-178 | between reads the buffer never holds a complete line |
| Session.EndOfStreamReconnects | custom_components/ipano_plus/bridge.py:167-170 | a zero-length read disconnects, leaves the later events unread, and reconnects with three attempts |
| Session.StopThenCancelReconnects | custom_components/ipano_plus/bridge.py:450-456 | a stop followed by the cancellation of the listen loop still reconnects |
| Session.ConnectedOnce | custom_components/ipano_plus/bridge.py:86-142 | connecting with retries sends nothing, ends connected exactly when an attempt is accepted, and then emits one "connected" event |
| Session.HeartbeatRateLimited | custom_components/ipano_plus/bridge.py:146-154 | a due heartbeat is sent, and no other is sent within the next 15 seconds |
| Session.PanelHeartbeatDefers | custom_components/ipano_plus/bridge.py:241-243 | a heartbeat from the panel postpones the bridge's own heartbeat for 15 seconds |
| Session.HeartbeatsStopWhenDisconnected | custom_components/ipano_plus/bridge.py:146 | once disconnected, the heartbeat loop does nothing more |
| IpanoBridge.Bridge.constructor | custom_components/ipano_plus/bridge.py:40-61 | the fields start as `Session.Initial`; the port defaults to 3124 |
| IpanoBridge.Bridge.SendMessage | custom_components/ipano_plus/bridge.py:379-394 | the new state and the result are those of `Sending.Send` |
| IpanoBridge.Bridge.WakeScreen | custom_components/ipano_plus/bridge.py:397-401 | the new state and the result are those of `Sending.WakeScreen` |
| IpanoBridge.Bridge.SetAllBacklights | custom_components/ipano_plus/bridge.py:421-431 | the loop over buttons 0-3 leaves the state and the result of `Sending.SetAllBacklights` |
| IpanoBridge.Bridge.SetBacklight | custom_components/ipano_plus/bridge.py:403-419 | the new state and the result are those of `Sending.SetBacklight` |
| IpanoBridge.Bridge.ControlRelay | custom_components/ipano_plus/bridge.py:433-448 | the new state and the result are those of `Sending.ControlRelay` over the tracked relays |
| IpanoBridge.Bridge.HandleButtonEvent | custom_components/ipano_plus/bridge.py:252-283 | the in-place update is `Dispatch.HandleButton` |
| IpanoBridge.Bridge.RelayListEntry | custom_components/ipano_plus/bridge.py:295-314 | one pass of the relay loop is `Dispatch.RelayEntry` |
| IpanoBridge.Bridge.BacklightListEntry | custom_components/ipano_plus/bridge.py:329-340 | one pass of the backlight loop is `Dispatch.BacklightEntry` |
| IpanoBridge.Bridge.RelayList | custom_components/ipano_plus/bridge.py:294-314 | the relay loop is `Dispatch.Entries` over the list, and stops at the first entry that raises |
| IpanoBridge.Bridge.BacklightList | custom_components/ipano_plus/bridge.py:328-340 | the backlight loop is `Dispatch.Entries` over the list, and stops at the first entry that raises |
| IpanoBridge.Bridge.HandleRelayChange | custom_components/ipano_plus/bridge.py:285-317 | the in-place update is `Dispatch.HandleRelay` |
| IpanoBridge.Bridge.HandleBacklightChange | custom_components/ipano_plus/bridge.py:319-346 | the in-place update is `Dispatch.HandleBacklight` |
| IpanoBridge.Bridge.HandleProximityEvent | custom_components/ipano_plus/bridge.py:348-367 | the in-place update is `Dispatch.HandleProximity` |
| IpanoBridge.Bridge.ProcessMessage | custom_components/ipano_plus/bridge.py:219-250 | the in-place update is `Dispatch.ProcessFrame` |
| IpanoBridge.Bridge.ReceiveText | custom_components/ipano_plus/bridge.py:172-178 | the inner framing loop leaves the state of `Session.Receive`: the lines of `Framing.Split` dispatched in order, with the rest buffered |
| IpanoBridge.Bridge.ReadOnce | custom_components/ipano_plus/bridge.py:165-194 | one pass of the listen loop is `Session.ListenStep` |
| IpanoBridge.Bridge.ListenLoop | custom_components/ipano_plus/bridge.py:161-197 | the listen loop, followed by the reconnection when it ends disconnected, is `Session.Listen` |
| IpanoBridge.Bridge.Connect | custom_components/ipano_plus/bridge.py:103-142 | the new state is `Session.Connect` |
| IpanoBridge.Bridge.ConnectWithRetry | custom_components/ipano_plus/bridge.py:86-101 | the attempt loop leaves `Session.ConnectWithRetry`, and its waits are those of `Retry.Retry` |
| IpanoBridge.Bridge.Start | custom_components/ipano_plus/bridge.py:81-84 | start-up is five attempts with backoff |
| IpanoBridge.Bridge.HandleDisconnection | custom_components/ipano_plus/bridge.py:199-217 | reconnects with three attempts only when still disconnected |
| IpanoBridge.Bridge.HeartbeatTick | custom_components/ipano_plus/bridge.py:147-157 | one heartbeat pass is `Session.HeartbeatTick` |
| IpanoBridge.Bridge.HeartbeatLoop | custom_components/ipano_plus/bridge.py:144-159 | the heartbeat loop is `Session.Heartbeats` and stops once disconnected |
| IpanoBridge.Bridge.Stop | custom_components/ipano_plus/bridge.py:450-472 | stopping only marks the bridge disconnected |

## Left out

- Concurrency is left out. The listen loop, the heartbeat loop and the public
  calls are modelled one at a time; asyncio tasks, their cancellation and
  `asyncio.sleep` are not modelled. The sleeps show up only as the waits that
  `ConnectWithRetry` returns.
- Floating-point JSON numbers are left out. `PyJson` has no floats, so a
  `val` or `num` sent as a float is not modelled.
- UTF-8 decoding with `errors="ignore"` is left out. Reads are modelled as
  text already decoded, so a multi-byte character split across two reads is
  not modelled.
- `json.loads` is a parameter: the model fixes neither the JSON grammar nor
  how duplicate keys are resolved.
- `Commands.Render` covers only the commands the bridge builds, with
  `json.dumps`'s default separators. It is not a general JSON encoder.
- Logging and the Home Assistant objects are left out. The device name,
  timestamps and the text of log lines do not appear in the notifications.
- A bus event and the dispatcher signal fired for the same occurrence are one
  `Notification`.
- `Dispatch.RelayUpdate` and `Dispatch.BacklightUpdate` carry a copy of the
  relay or backlight map, taken when the update is emitted. The source passes
  the live dicts `self.relay_states` (bridge.py line 310) and
  `self.backlight_states` (line 343). A listener that keeps the dict therefore
  sees later changes through it, and the model does not capture that
  aliasing.
- `test_connection` is left out because it only probes a socket and touches
  no bridge state.
- `Text.Lower` and `Text.ParseInt` cover ASCII only. Python's Unicode case
  mapping, Unicode digits, and underscores in `int()` numerals are not
  modelled.
- `Dispatch.BacklightEntry` approximates Python's `!=` by structural
  inequality. A raised `TypeError` from the colour-name lookup is modelled for
  list and dict values that differ from the old value.
- `IpanoBridge.Bridge.Connect`: `_query_initial_states` is not called as a
  sending step. Its first statement names `MSG_TYPE_RELAY_QUERY`, which
  bridge.py does not import, so the `NameError` is caught inside it and
  nothing is ever sent.
- `IpanoBridge.Bridge.ReceiveText`: one read uses a single time value for
  every heartbeat frame in it, where the source reads the clock per frame.
- A write that fails is modelled as sending nothing, although part of the line
  may have reached the socket before the error.
- Reconnection is not re-entrant: the listen and heartbeat tasks that a
  connection starts are modelled as separate calls (`ListenLoop`,
  `HeartbeatLoop`) made by the caller.
