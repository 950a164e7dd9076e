/**
 * The protocol vocabulary of the iPano Plus panel (const.py): message-type
 * codes, the panel's key codes and the button names they stand for, and the
 * table of backlight colour codes.
 */
module Protocol {

  const MsgTypeButton: int := 0
  const MsgTypeBacklightChange: int := 10
  const MsgTypeBacklightControl: int := 11
  const MsgTypeScreenWake: int := 20
  const MsgTypeForegroundQuery: int := 30
  const MsgTypeStartApplication: int := 40
  const MsgTypeRelayChange: int := 50
  const MsgTypeRelayControl: int := 51
  const MsgTypeRelayQuery: int := 52
  const MsgTypeProximity: int := 60
  const MsgTypeProximitySet: int := 61
  const MsgTypeProximityQuery: int := 62
  const MsgTypeHeartbeat: int := 500

  /** The status code of a successful inbound frame. */
  const StatusOk: int := 200

  /** The panel's default TCP port. */
  const DefaultPort: int := 3124

  /** Buttons and relays of the 6-inch panel. */
  const NumButtons: nat := 4
  const NumRelays: nat := 2

  /** Key codes the panel reports for its buttons, in button order. */
  const ButtonKeycodes: seq<int> := [131, 132, 133, 134]

  /** Key code to button name. */
  const ButtonMap: map<int, string> :=
    map[131 := "button_1", 132 := "button_2", 133 := "button_3", 134 := "button_4"]

  /** Backlight value code to colour name. */
  const BacklightColors: map<int, string> :=
    map[0 := "off", 1 := "white", 2 := "yellow", 3 := "both"]

  /** Every message-type code the protocol defines. */
  function MessageTypeCodes(): (codes: seq<int>)
    ensures |codes| == 13
    ensures forall i, j :: 0 <= i < j < |codes| ==> codes[i] != codes[j]
    ensures MsgTypeHeartbeat in codes && MsgTypeButton in codes
  {
    [MsgTypeButton, MsgTypeBacklightChange, MsgTypeBacklightControl, MsgTypeScreenWake,
     MsgTypeForegroundQuery, MsgTypeStartApplication, MsgTypeRelayChange, MsgTypeRelayControl,
     MsgTypeRelayQuery, MsgTypeProximity, MsgTypeProximitySet, MsgTypeProximityQuery,
     MsgTypeHeartbeat]
  }

  /** The name of button `i` (1-based), "button_<i>". */
  function ButtonName(i: int): (name: string)
    requires 1 <= i <= 9
    ensures |name| == 8 && name[..7] == "button_"
  {
    "button_" + [('0' as int + i) as char]
  }

  /** The keys of BUTTON_MAP are exactly BUTTON_KEYCODES, and there are NUM_BUTTONS of them. */
  lemma ButtonMapKeys()
    ensures ButtonMap.Keys == set k | k in ButtonKeycodes
    ensures |ButtonKeycodes| == NumButtons && |ButtonMap| == NumButtons
  {
    assert ButtonMap.Keys == {131, 132, 133, 134};
  }

  /** Key code `130 + i` names button i, for i in 1..4: the map follows the key-code order. */
  lemma ButtonMapOrdered(i: int)
    requires 1 <= i <= NumButtons
    ensures 130 + i in ButtonMap && ButtonMap[130 + i] == ButtonName(i)
    ensures ButtonKeycodes[i - 1] == 130 + i
  {
  }

  /** BUTTON_MAP is one-to-one. */
  lemma ButtonMapInjective()
    ensures forall k1, k2 :: k1 in ButtonMap && k2 in ButtonMap && k1 != k2 ==> ButtonMap[k1] != ButtonMap[k2]
  {
  }

  /** BACKLIGHT_COLORS names the codes 0..3 with four distinct colours. */
  lemma BacklightColorsBijective()
    ensures BacklightColors.Keys == {0, 1, 2, 3}
    ensures forall c1, c2 :: c1 in BacklightColors && c2 in BacklightColors && c1 != c2 ==>
              BacklightColors[c1] != BacklightColors[c2]
    ensures BacklightColors.Values == {"off", "white", "yellow", "both"}
  {
    assert BacklightColors.Keys == {0, 1, 2, 3};
    assert BacklightColors[0] == "off" && BacklightColors[1] == "white";
    assert BacklightColors[2] == "yellow" && BacklightColors[3] == "both";
  }
}
