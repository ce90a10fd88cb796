/** The constant table of device templates (`template_registry.c`): the seven
    template kinds the firmware can run, looked up by identifier without
    regard to case. The sensor-monitor kind exists as an enum value but has
    no table entry. */
module TemplateRegistry {
  import opened Common

  /** `dm_template_type_t`, in enum order. */
  datatype TemplateType =
    | Uid | SignalHold | MqttTrigger | FlagTrigger | IfCondition
    | IntervalTask | SequenceLock | SensorMonitor

  datatype Descriptor = Descriptor(kind: TemplateType, id: string, title: string, description: string)

  /** `s_templates`. */
  const Templates: seq<Descriptor> := [
    Descriptor(Uid, "uid_validator", "UID Validator",
      "Validates a set of identifiers reported by multiple sources."),
    Descriptor(SignalHold, "signal_hold", "Signal Hold Timer",
      "Accumulates heartbeat duration and triggers actions when the hold completes."),
    Descriptor(MqttTrigger, "on_mqtt_event", "MQTT Event Trigger",
      "Listens for MQTT messages and launches scenarios when payload matches."),
    Descriptor(FlagTrigger, "on_flag", "Flag Trigger",
      "Watches automation flags and triggers scenarios on specific states."),
    Descriptor(IfCondition, "if_condition", "Conditional Scenario",
      "Evaluates multiple flag conditions and runs true/false scenarios."),
    Descriptor(IntervalTask, "interval_task", "Interval Task",
      "Runs a scenario on a fixed interval."),
    Descriptor(SequenceLock, "sequence_lock", "Sequence Lock",
      "Validates an ordered list of MQTT triggers with optional hints.")
  ]

  /** A kind with an entry in the table. */
  predicate Registered(t: TemplateType) { t != SensorMonitor }

  /** `dm_template_registry_get_all`: the table and its length. */
  function GetAll(): (r: (seq<Descriptor>, nat))
    ensures r.1 == |r.0| == 7
    ensures forall i :: 0 <= i < |r.0| ==> Registered(r.0[i].kind)
    ensures forall i, j :: 0 <= i < j < |r.0| ==> r.0[i].kind != r.0[j].kind
  {
    (Templates, |Templates|)
  }

  /** First table index at or after `i` whose id equals `id` ignoring case. */
  function IndexById(id: string, i: nat): (k: Option<nat>)
    requires i <= |Templates|
    ensures k.Some? ==> i <= k.value < |Templates| && EqualsIgnoreCase(Templates[k.value].id, id)
    ensures k.Some? ==> forall j :: i <= j < k.value ==> !EqualsIgnoreCase(Templates[j].id, id)
    ensures k.None? ==> forall j :: i <= j < |Templates| ==> !EqualsIgnoreCase(Templates[j].id, id)
    decreases |Templates| - i
  {
    if i == |Templates| then None
    else if EqualsIgnoreCase(Templates[i].id, id) then Some(i)
    else IndexById(id, i + 1)
  }

  /** `dm_template_find`: NULL (None) for a NULL or empty id. */
  function Find(id: Option<string>): (d: Option<Descriptor>)
    ensures d.Some? <==> id.Some? && id.value != [] && exists j :: 0 <= j < |Templates| && EqualsIgnoreCase(Templates[j].id, id.value)
    ensures d.Some? ==> d.value in Templates && EqualsIgnoreCase(d.value.id, id.value)
  {
    if id.None? || id.value == [] then None
    else match IndexById(id.value, 0)
      case Some(k) => Some(Templates[k])
      case None => None
  }

  /** First table index at or after `i` whose kind is `t`. */
  function IndexByKind(t: TemplateType, i: nat): (k: Option<nat>)
    requires i <= |Templates|
    ensures k.Some? ==> i <= k.value < |Templates| && Templates[k.value].kind == t
    ensures k.None? ==> forall j :: i <= j < |Templates| ==> Templates[j].kind != t
    decreases |Templates| - i
  {
    if i == |Templates| then None
    else if Templates[i].kind == t then Some(i)
    else IndexByKind(t, i + 1)
  }

  /** `dm_template_type_to_string`: the id of the kind's entry, or "unknown". */
  function TypeToString(t: TemplateType): (s: string)
    ensures Registered(t) ==> exists j :: 0 <= j < |Templates| && Templates[j].kind == t && Templates[j].id == s
    ensures !Registered(t) ==> s == "unknown"
  {
    assert Registered(t) ==> IndexByKind(t, 0).Some? by {
      assert Templates[0].kind == Uid && Templates[1].kind == SignalHold && Templates[2].kind == MqttTrigger;
      assert Templates[3].kind == FlagTrigger && Templates[4].kind == IfCondition;
      assert Templates[5].kind == IntervalTask && Templates[6].kind == SequenceLock;
    }
    match IndexByKind(t, 0)
    case Some(k) => Templates[k].id
    case None => "unknown"
  }

  /** `dm_template_type_from_string`: None for a NULL name or no match. */
  function TypeFromString(name: Option<string>): (t: Option<TemplateType>)
    ensures t.Some? ==> name.Some? && Registered(t.value)
  {
    if name.None? then None
    else match IndexById(name.value, 0)
      case Some(k) => Some(Templates[k].kind)
      case None => None
  }

  /** A name is read as a kind only when it is that kind's table id,
      ignoring case. */
  lemma TypeFromStringFound(name: Option<string>)
    requires TypeFromString(name).Some?
    ensures exists j :: 0 <= j < |Templates| && Templates[j].kind == TypeFromString(name).value
                        && EqualsIgnoreCase(Templates[j].id, name.value)
  {
    var k := IndexById(name.value, 0).value;
    assert Templates[k].kind == TypeFromString(name).value;
  }

  /** No two table ids are equal ignoring case. */
  lemma IdsDistinct(i: nat, j: nat)
    requires i < j < |Templates|
    ensures !EqualsIgnoreCase(Templates[i].id, Templates[j].id)
  {
    var a, b := Templates[i].id, Templates[j].id;
    if |a| != |b| {
      assert |Lower(a)| != |Lower(b)|;
    } else if a[0] != b[0] {
      DiffersAt(a, b, 0);
    } else {
      assert false;
    }
  }

  /** Every registered kind is found again from its own name, spelled in
      any case. */
  lemma FromToString(t: TemplateType, spelled: string)
    requires Registered(t) && EqualsIgnoreCase(spelled, TypeToString(t))
    ensures TypeFromString(Some(spelled)) == Some(t)
  {
    var k :| 0 <= k < |Templates| && Templates[k].kind == t && Templates[k].id == TypeToString(t);
    EqualsIgnoreCaseFacts(spelled, TypeToString(t), spelled);
    forall j | 0 <= j < k ensures !EqualsIgnoreCase(Templates[j].id, spelled) {
      IdsDistinct(j, k);
      if EqualsIgnoreCase(Templates[j].id, spelled) {
        EqualsIgnoreCaseFacts(Templates[j].id, spelled, Templates[k].id);
      }
    }
    assert IndexById(spelled, 0) == Some(k) by {
      IndexIsFirstMatch(spelled, 0, k);
    }
  }

  /** `IndexById` finds the first match. */
  lemma {:induction false} IndexIsFirstMatch(id: string, i: nat, k: nat)
    requires i <= k < |Templates| && EqualsIgnoreCase(Templates[k].id, id)
    requires forall j :: i <= j < k ==> !EqualsIgnoreCase(Templates[j].id, id)
    ensures IndexById(id, i) == Some(k)
    decreases k - i
  {
    if i < k {
      IndexIsFirstMatch(id, i + 1, k);
    }
  }

  /** Lookups ignore case: names equal up to case find the same kind. */
  lemma FromStringIgnoresCase(a: string, b: string)
    requires EqualsIgnoreCase(a, b)
    ensures TypeFromString(Some(a)) == TypeFromString(Some(b))
    ensures Find(Some(a)) == Find(Some(b))
  {
    forall j | 0 <= j < |Templates|
      ensures EqualsIgnoreCase(Templates[j].id, a) == EqualsIgnoreCase(Templates[j].id, b)
    {
      EqualsIgnoreCaseFacts(Templates[j].id, a, b);
      EqualsIgnoreCaseFacts(Templates[j].id, b, a);
      EqualsIgnoreCaseFacts(a, b, a);
    }
    SameMatchesSameIndex(a, b, 0);
    EqualsIgnoreCaseFacts(a, b, a);
  }

  lemma {:induction false} SameMatchesSameIndex(a: string, b: string, i: nat)
    requires i <= |Templates|
    requires forall j :: 0 <= j < |Templates| ==> EqualsIgnoreCase(Templates[j].id, a) == EqualsIgnoreCase(Templates[j].id, b)
    ensures IndexById(a, i) == IndexById(b, i)
    decreases |Templates| - i
  {
    if i < |Templates| {
      SameMatchesSameIndex(a, b, i + 1);
    }
  }

  /** The sensor-monitor kind prints as "unknown", which names no template. */
  lemma SensorMonitorUnregistered()
    ensures TypeToString(SensorMonitor) == "unknown"
    ensures TypeFromString(Some("unknown")) == None
    ensures Find(Some("unknown")) == None
  {
    forall j | 0 <= j < |Templates| ensures !EqualsIgnoreCase(Templates[j].id, "unknown") {
      var id := Templates[j].id;
      if |id| != 7 {
        assert |Lower(id)| != |Lower("unknown")|;
      } else {
        DiffersAt(id, "unknown", 0);
      }
    }
  }
}
