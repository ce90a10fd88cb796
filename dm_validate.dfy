/** The enum/string maps of the device manager (`device_manager_validate.c`):
    condition modes and step action types, read without regard to case. */
module DmValidate {
  import opened Common
  import opened DmTypes

  /** `dm_condition_to_string`. */
  function ConditionToString(m: ConditionMode): (s: string)
    ensures s == (if m == Any then "any" else "all")
  {
    match m
    case All => "all"
    case Any => "any"
  }

  /** `dm_condition_from_string`: None for a NULL or unknown name. */
  function ConditionFromString(name: Option<string>): (m: Option<ConditionMode>)
    ensures m == Some(All) <==> name.Some? && EqualsIgnoreCase(name.value, "all")
    ensures m == Some(Any) <==> name.Some? && EqualsIgnoreCase(name.value, "any")
  {
    assert Lower("all")[1] != Lower("any")[1];
    if name.None? then None
    else if EqualsIgnoreCase(name.value, "all") then Some(All)
    else if EqualsIgnoreCase(name.value, "any") then Some(Any)
    else None
  }

  /** Reading a printed mode, in any spelling of its case, gives it back. */
  lemma ConditionRoundTrip(m: ConditionMode, spelled: string)
    requires EqualsIgnoreCase(spelled, ConditionToString(m))
    ensures ConditionFromString(Some(spelled)) == Some(m)
  {
    if m == Any {
      assert Lower(spelled)[1] == 'n';
      assert !EqualsIgnoreCase(spelled, "all") by {
        assert Lower("all")[1] == 'l';
      }
    }
  }

  /** `k_action_types`, in table order. */
  const ActionNames: seq<(ActionType, string)> := [
    (TNop, "nop"), (TMqttPublish, "mqtt_publish"), (TAudioPlay, "audio_play"),
    (TAudioStop, "audio_stop"), (TSetFlag, "set_flag"), (TWaitFlags, "wait_flags"),
    (TLoop, "loop"), (TDelay, "delay"), (TEventBus, "event")
  ]

  /** `dm_action_type_to_string`: every type has an entry. */
  function ActionTypeToString(t: ActionType): (s: string)
    ensures exists k :: 0 <= k < |ActionNames| && ActionNames[k] == (t, s)
  {
    match t
    case TNop => assert ActionNames[0] == (t, "nop"); "nop"
    case TMqttPublish => assert ActionNames[1] == (t, "mqtt_publish"); "mqtt_publish"
    case TAudioPlay => assert ActionNames[2] == (t, "audio_play"); "audio_play"
    case TAudioStop => assert ActionNames[3] == (t, "audio_stop"); "audio_stop"
    case TSetFlag => assert ActionNames[4] == (t, "set_flag"); "set_flag"
    case TWaitFlags => assert ActionNames[5] == (t, "wait_flags"); "wait_flags"
    case TLoop => assert ActionNames[6] == (t, "loop"); "loop"
    case TDelay => assert ActionNames[7] == (t, "delay"); "delay"
    case TEventBus => assert ActionNames[8] == (t, "event"); "event"
  }

  /** First table index at or after `i` whose name equals `name` ignoring case. */
  function ActionIndex(name: string, i: nat): (k: Option<nat>)
    requires i <= |ActionNames|
    ensures k.Some? ==> i <= k.value < |ActionNames| && EqualsIgnoreCase(ActionNames[k.value].1, name)
    ensures k.None? ==> forall j :: i <= j < |ActionNames| ==> !EqualsIgnoreCase(ActionNames[j].1, name)
    decreases |ActionNames| - i
  {
    if i == |ActionNames| then None
    else if EqualsIgnoreCase(ActionNames[i].1, name) then Some(i)
    else ActionIndex(name, i + 1)
  }

  /** `dm_action_type_from_string`: None for a NULL or unknown name. */
  function ActionTypeFromString(name: Option<string>): (t: Option<ActionType>)
    ensures t.Some? <==> name.Some? && exists j :: 0 <= j < |ActionNames| && EqualsIgnoreCase(ActionNames[j].1, name.value)
    ensures t.Some? ==> exists j :: 0 <= j < |ActionNames| && ActionNames[j].0 == t.value && EqualsIgnoreCase(ActionNames[j].1, name.value)
  {
    if name.None? then None
    else match ActionIndex(name.value, 0)
      case Some(k) => Some(ActionNames[k].0)
      case None => None
  }

  /** The action names differ pairwise, even ignoring case. */
  lemma ActionNamesDistinct(i: nat, j: nat)
    requires i < j < |ActionNames|
    ensures !EqualsIgnoreCase(ActionNames[i].1, ActionNames[j].1)
  {
    var a, b := ActionNames[i].1, ActionNames[j].1;
    if |a| != |b| {
      assert |Lower(a)| != |Lower(b)|;
    } else if a[0] != b[0] {
      DiffersAt(a, b, 0);
    } else {
      DiffersAt(a, b, 6);
    }
  }

  lemma {:induction false} ActionIndexIsFirst(name: string, i: nat, k: nat)
    requires i <= k < |ActionNames| && EqualsIgnoreCase(ActionNames[k].1, name)
    requires forall j :: i <= j < k ==> !EqualsIgnoreCase(ActionNames[j].1, name)
    ensures ActionIndex(name, i) == Some(k)
    decreases k - i
  {
    if i < k {
      ActionIndexIsFirst(name, i + 1, k);
    }
  }

  /** Reading a printed action type, in any spelling of its case, gives it
      back: the two maps are inverse. */
  lemma ActionRoundTrip(t: ActionType, spelled: string)
    requires EqualsIgnoreCase(spelled, ActionTypeToString(t))
    ensures ActionTypeFromString(Some(spelled)) == Some(t)
  {
    var k :| 0 <= k < |ActionNames| && ActionNames[k] == (t, ActionTypeToString(t));
    EqualsIgnoreCaseFacts(spelled, ActionNames[k].1, spelled);
    forall j | 0 <= j < k ensures !EqualsIgnoreCase(ActionNames[j].1, spelled) {
      ActionNamesDistinct(j, k);
      if EqualsIgnoreCase(ActionNames[j].1, spelled) {
        EqualsIgnoreCaseFacts(ActionNames[j].1, spelled, ActionNames[k].1);
      }
    }
    ActionIndexIsFirst(spelled, 0, k);
  }
}
