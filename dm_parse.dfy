/** The JSON → configuration half of the device-manager codec
    (`device_manager_parse.c`): typed field readers with defaults, one
    reader per template kind with its validity rule, the step reader, and
    `dm_populate_config_from_json`, which walks the device array with
    counters and caps. Every reader here is a function of the JSON tree;
    the populating walk is also written as the loops the C code runs. */
module DmParse {
  import opened Common
  import opened Json
  import opened DmTypes
  import opened DmValidate
  import opened TemplateRegistry
  import opened DmTemplates
  import opened DmProfiles
  import opened TemplateRuntime

  // ------------------------------------------------------------- steps

  /** What the fixed-width fields of `device_action_step_t` can hold: the
      step delay, the wait timeout and the MQTT QoS, the 16-bit loop
      fields and at most MAX_FLAG_RULES wait requirements. */
  predicate StepFits(s: Step) {
    s.delayMs <= UINT32_MAX
    && match s.action
       case MqttPublish(_, _, qos, _) => qos <= UINT8_MAX
       case WaitFlags(_, reqs, timeout) => timeout <= UINT32_MAX && |reqs| <= MAX_FLAG_RULES
       case Loop(target, maxIter) => target <= UINT16_MAX && maxIter <= UINT16_MAX
       case _ => true
  }

  /** One wait requirement: skipped unless `flag` is a string (an empty one
      is kept); `state` defaults to true. */
  function RequirementFromJson(req: Json): (r: Option<FlagRequirement>)
    ensures r.Some? <==> StringOf(Get(req, "flag")).Some?
    ensures r.Some? ==> r.value.flag == StringOf(Get(req, "flag")).value
    ensures r.Some? ==> r.value.requiredState == BoolOr(Get(req, "state"), true)
  {
    match StringOf(Get(req, "flag"))
    case None => None
    case Some(f) => Some(FlagRequirement(f, BoolOr(Get(req, "state"), true)))
  }

  /** A mode field: ALL unless `mode` is a string naming a mode. */
  function ModeOrAll(o: Option<Json>): (m: ConditionMode)
    ensures m == Any <==> ConditionFromString(StringOf(o)) == Some(Any)
  {
    match ConditionFromString(StringOf(o))
    case Some(mode) => mode
    case None => All
  }

  /** `step_from_json`: None for a missing or unknown type and for a wait or
      loop step whose `wait`/`loop` member is not an object. Missing fields
      take their zero value; `qos` keeps the low byte of the number, as the
      `uint8_t` cast does. */
  function StepFromJson(obj: Json): (r: Option<Step>)
    ensures r.Some? ==> StepFits(r.value)
    ensures r.Some? ==> ActionTypeFromString(StringOf(Get(obj, "type"))) == Some(TypeOf(r.value.action))
    ensures r.Some? ==> r.value.delayMs == NumberToU32(Get(obj, "delay_ms"), 0)
    ensures r.None? <==>
      match ActionTypeFromString(StringOf(Get(obj, "type")))
      case None => true
      case Some(t) =>
        (t == TWaitFlags && !(Get(obj, "wait").Some? && Get(obj, "wait").value.JObject?))
        || (t == TLoop && !(Get(obj, "loop").Some? && Get(obj, "loop").value.JObject?))
  {
    match ActionTypeFromString(StringOf(Get(obj, "type")))
    case None => None
    case Some(t) =>
      var delay := NumberToU32(Get(obj, "delay_ms"), 0);
      match t
      case TNop => Some(Step(Nop, delay))
      case TAudioStop => Some(Step(AudioStop, delay))
      case TDelay => Some(Step(Delay, delay))
      case TMqttPublish =>
        Some(Step(MqttPublish(StringOrEmpty(Get(obj, "topic")), StringOrEmpty(Get(obj, "payload")),
                              NumberToU32(Get(obj, "qos"), 0) % 256, BoolOr(Get(obj, "retain"), false)), delay))
      case TAudioPlay =>
        Some(Step(AudioPlay(StringOrEmpty(Get(obj, "track")), BoolOr(Get(obj, "blocking"), false)), delay))
      case TSetFlag =>
        Some(Step(SetFlag(StringOrEmpty(Get(obj, "flag")), BoolOr(Get(obj, "value"), false)), delay))
      case TWaitFlags =>
        var w := Get(obj, "wait");
        if !(w.Some? && w.value.JObject?) then None
        else
          var reqs := match ArrayOf(Get(w.value, "requirements"))
            case Some(items) => Collect(items, MAX_FLAG_RULES, RequirementFromJson)
            case None => [];
          Some(Step(WaitFlags(ModeOrAll(Get(w.value, "mode")), reqs, NumberToU32(Get(w.value, "timeout_ms"), 0)), delay))
      case TLoop =>
        var l := Get(obj, "loop");
        if !(l.Some? && l.value.JObject?) then None
        else Some(Step(Loop(NumberToU16(Get(l.value, "target_step"), 0), NumberToU16(Get(l.value, "max_iterations"), 0)), delay))
      case TEventBus =>
        Some(Step(EventBus(StringOrEmpty(Get(obj, "event")), StringOrEmpty(Get(obj, "topic")),
                           StringOrEmpty(Get(obj, "payload"))), delay))
  }

  // ---------------------------------------------------------- helpers

  /** A string member copied into a cleared buffer: its text, or "". */
  function Text(obj: Json, key: string): string {
    StringOrEmpty(Get(obj, key))
  }

  /** `cJSON_IsString(x) && x->valuestring[0]`: a present, non-empty string. */
  function NonEmptyString(o: Option<Json>): (r: Option<string>)
    ensures r.Some? <==> o.Some? && o.value.JString? && o.value.s != ""
    ensures r.Some? ==> r.value == o.value.s
  {
    match StringOf(o)
    case Some(s) => if s != "" then Some(s) else None
    case None => None
  }

  /** The accepted items of an optional array member; no array, no items. */
  function ArrayItems<T>(o: Option<Json>, cap: nat, f: Json -> Option<T>): (r: seq<T>)
    ensures |r| <= cap
    ensures forall x :: x in r ==> exists j :: f(j) == Some(x)
  {
    match ArrayOf(o)
    case Some(items) => Collect(items, cap, f)
    case None => []
  }

  // -------------------------------------------------------- UID template

  /** A UID slot as the parser leaves it: a source, at most UID_MAX_VALUES
      values, none of them empty. */
  predicate SlotWellFormed(slot: UidSlot) {
    slot.sourceId != "" && |slot.values| <= UID_MAX_VALUES
    && forall i :: 0 <= i < |slot.values| ==> slot.values[i] != ""
  }

  /** What one element of the `slots` array does to the slot loop. */
  datatype SlotRead = SlotSkipped | SlotFailed | SlotTaken(slot: UidSlot)

  /** One accepted UID value: a non-empty string item. */
  function ValueFromJson(j: Json): (r: Option<string>)
    ensures r.Some? ==> r.value != ""
  {
    NonEmptyString(Some(j))
  }

  /** The non-empty string items of a `values` array, in order. */
  function Values(vs: seq<Json>): (r: seq<string>)
    ensures |r| <= |vs|
    ensures forall i :: 0 <= i < |r| ==> r[i] != ""
  {
    if |vs| == 0 then []
    else
      var last := vs[|vs| - 1];
      Values(vs[..|vs| - 1]) + (if ValueFromJson(last).Some? then [ValueFromJson(last).value] else [])
  }

  /** A prefix of the array holds no more values than the whole. */
  lemma {:induction false} ValuesPrefix(vs: seq<Json>, k: nat)
    requires k <= |vs|
    ensures |Values(vs[..k])| <= |Values(vs)|
    decreases |vs|
  {
    if k < |vs| {
      ValuesPrefix(vs[..|vs| - 1], k);
      assert vs[..|vs| - 1][..k] == vs[..k];
    } else {
      assert vs[..k] == vs;
    }
  }

  /** One `slots` element: skipped without a non-empty `source_id`; a slot
      with more than UID_MAX_VALUES non-empty values fails the whole
      template, because `dm_uid_template_add_value` refuses the ninth. */
  function SlotFromJson(j: Json): (r: SlotRead)
    ensures r.SlotSkipped? <==> NonEmptyString(Get(j, "source_id")).None?
    ensures r.SlotTaken? ==> SlotWellFormed(r.slot) && r.slot.sourceId == NonEmptyString(Get(j, "source_id")).value
    ensures r.SlotTaken? ==> r.slot.title == Text(j, "label")
  {
    match NonEmptyString(Get(j, "source_id"))
    case None => SlotSkipped
    case Some(source) =>
      var values := match ArrayOf(Get(j, "values")) case Some(vs) => Values(vs) case None => [];
      if |values| > UID_MAX_VALUES then SlotFailed
      else SlotTaken(UidSlot(source, Text(j, "label"), values))
  }

  /** The slot loop: at most `room` slots are taken; a failing slot fails
      the whole list, but elements after the cap are never read. */
  function SlotsFrom(items: seq<Json>, room: nat): (r: Option<seq<UidSlot>>)
    decreases |items|
  {
    if |items| == 0 || room == 0 then Some([])
    else match SlotFromJson(items[0])
      case SlotSkipped => SlotsFrom(items[1..], room)
      case SlotFailed => None
      case SlotTaken(slot) =>
        match SlotsFrom(items[1..], room - 1)
        case None => None
        case Some(rest) => Some([slot] + rest)
  }

  /** The slots taken fit the table and are well formed. */
  lemma {:induction false} SlotsFromBounds(items: seq<Json>, room: nat)
    ensures SlotsFrom(items, room).Some? ==>
      |SlotsFrom(items, room).value| <= room
      && forall i :: 0 <= i < |SlotsFrom(items, room).value| ==> SlotWellFormed(SlotsFrom(items, room).value[i])
  {
    if |items| > 0 && room > 0 {
      match SlotFromJson(items[0])
      case SlotSkipped => SlotsFromBounds(items[1..], room);
      case SlotFailed =>
      case SlotTaken(slot) => SlotsFromBounds(items[1..], room - 1);
    }
  }

  /** The inner loop of `uid_template_from_json`: the values of one slot,
      added one by one as `dm_uid_template_add_value` does; None when a
      value finds the slot full. */
  method SlotValuesLoop(vs: seq<Json>) returns (r: Option<seq<string>>)
    ensures r == (if |Values(vs)| > UID_MAX_VALUES then None else Some(Values(vs)))
  {
    var values: seq<string> := [];
    var k := 0;
    while k < |vs|
      invariant k <= |vs| && |values| <= UID_MAX_VALUES
      invariant values == Values(vs[..k])
    {
      assert vs[..k + 1][..k] == vs[..k];
      var v := ValueFromJson(vs[k]);
      if v.Some? {
        if |values| >= UID_MAX_VALUES {
          ValuesPrefix(vs, k + 1);
          return None;
        }
        values := values + [v.value];
      }
      k := k + 1;
    }
    assert vs[..k] == vs;
    return Some(values);
  }

  /** `slots` before the outcome of the rest of the loop. */
  function Prepend(slots: seq<UidSlot>, rest: Option<seq<UidSlot>>): Option<seq<UidSlot>> {
    match rest
    case None => None
    case Some(tail) => Some(slots + tail)
  }

  /** The nested loops of `uid_template_from_json`: slots by index and
      counter, each slot's values appended one by one as
      `dm_uid_template_add_value` does. */
  method UidSlotsLoop(items: seq<Json>) returns (r: Option<seq<UidSlot>>)
    ensures r == SlotsFrom(items, UID_MAX_SLOTS)
  {
    var slots: seq<UidSlot> := [];
    var i := 0;
    assert items[0..] == items;
    match SlotsFrom(items, UID_MAX_SLOTS) {
      case Some(all) => assert [] + all == all;
      case None =>
    }
    while i < |items|
      invariant i <= |items| && |slots| <= UID_MAX_SLOTS
      invariant SlotsFrom(items, UID_MAX_SLOTS) == Prepend(slots, SlotsFrom(items[i..], UID_MAX_SLOTS - |slots|))
    {
      if |slots| >= UID_MAX_SLOTS {
        break;
      }
      assert items[i..][1..] == items[i + 1..];
      var source := NonEmptyString(Get(items[i], "source_id"));
      if source.None? {
        i := i + 1;
        continue;
      }
      var values := ArrayOf(Get(items[i], "values"));
      var added: seq<string> := [];
      if values.Some? {
        var vs := SlotValuesLoop(values.value);
        if vs.None? {
          assert SlotFromJson(items[i]) == SlotFailed;
          return None;
        }
        added := vs.value;
      }
      var slot := UidSlot(source.value, Text(items[i], "label"), added);
      assert SlotFromJson(items[i]) == SlotTaken(slot);
      match SlotsFrom(items[i + 1..], UID_MAX_SLOTS - |slots| - 1) {
        case Some(tail) => assert (slots + [slot]) + tail == slots + ([slot] + tail);
        case None =>
      }
      slots := slots + [slot];
      i := i + 1;
    }
    if i == |items| {
      assert items[i..] == [];
    }
    assert slots + [] == slots;
    r := Some(slots);
  }

  /** The UID template the parser accepts: one to UID_MAX_SLOTS well-formed
      slots, and no start or broadcast fields. */
  predicate UidValid(u: UidTemplate) {
    0 < |u.slots| <= UID_MAX_SLOTS && (forall i :: 0 <= i < |u.slots| ==> SlotWellFormed(u.slots[i]))
    && u.startTopic == "" && u.startPayload == "" && u.broadcastTopic == "" && u.broadcastPayload == ""
  }

  /** `uid_template_from_json`: None without an object, without a `slots`
      array, when a slot holds too many values, or when no slot is taken.
      The start and broadcast fields are not read and stay empty. */
  function UidFromJson(o: Option<Json>): (r: Option<UidTemplate>)
    ensures r.Some? ==> UidValid(r.value)
  {
    if o.None? then None
    else
      var obj := o.value;
      match ArrayOf(Get(obj, "slots"))
      case None => None
      case Some(items) =>
        SlotsFromBounds(items, UID_MAX_SLOTS);
        match SlotsFrom(items, UID_MAX_SLOTS)
        case None => None
        case Some(slots) =>
          if |slots| == 0 then None
          else Some(UidTemplate(slots, "", "", "", "",
            Text(obj, "success_topic"), Text(obj, "success_payload"),
            Text(obj, "fail_topic"), Text(obj, "fail_payload"),
            Text(obj, "success_audio_track"), Text(obj, "fail_audio_track"),
            Text(obj, "success_signal_topic"), Text(obj, "success_signal_payload"),
            Text(obj, "fail_signal_topic"), Text(obj, "fail_signal_payload")))
  }

  // ------------------------------------------------- the other templates

  /** The signal-hold rule: a signal topic, a heartbeat topic and a
      positive hold time, every number within 32 bits. */
  predicate SignalValid(g: SignalTemplate) {
    g.signalTopic != "" && g.heartbeatTopic != "" && 0 < g.requiredHoldMs <= UINT32_MAX
    && g.signalOnMs <= UINT32_MAX && g.heartbeatTimeoutMs <= UINT32_MAX
  }

  /** `signal_template_from_json`: valid only with a signal topic, a
      heartbeat topic and a positive hold time. */
  function SignalFromJson(o: Option<Json>): (r: Option<SignalTemplate>)
    ensures r.Some? ==> SignalValid(r.value)
  {
    if o.None? then None
    else
      var obj := o.value;
      var t := SignalTemplate(
        Text(obj, "signal_topic"), Text(obj, "signal_payload_on"), Text(obj, "signal_payload_off"),
        NumberToU32(Get(obj, "signal_on_ms"), 0), Text(obj, "heartbeat_topic"),
        NumberToU32(Get(obj, "required_hold_ms"), 0), NumberToU32(Get(obj, "heartbeat_timeout_ms"), 1000),
        Text(obj, "hold_track"), BoolOr(Get(obj, "hold_track_loop"), false), Text(obj, "complete_track"));
      if t.signalTopic != "" && t.heartbeatTopic != "" && t.requiredHoldMs > 0 then Some(t) else None
  }

  /** One MQTT trigger rule: an object with a non-empty topic and scenario;
      `payload_required` defaults to "the payload is non-empty". */
  function MqttRuleFromJson(j: Json): (r: Option<MqttRule>)
    ensures r.Some? <==> j.JObject? && NonEmptyString(Get(j, "topic")).Some? && NonEmptyString(Get(j, "scenario")).Some?
    ensures r.Some? ==> r.value.payloadRequired == BoolOr(Get(j, "payload_required"), r.value.payload != "")
  {
    if !j.JObject? then None
    else match (NonEmptyString(Get(j, "topic")), NonEmptyString(Get(j, "scenario")))
      case (Some(topic), Some(scenario)) =>
        var payload := Text(j, "payload");
        Some(MqttRule(Text(j, "name"), topic, payload, scenario, BoolOr(Get(j, "payload_required"), payload != "")))
      case _ => None
  }

  /** One to MQTT_MAX_RULES rules, each with a topic and a scenario. */
  predicate MqttValid(m: MqttTemplate) {
    0 < |m.rules| <= MQTT_MAX_RULES
    && forall i :: 0 <= i < |m.rules| ==> m.rules[i].topic != "" && m.rules[i].scenario != ""
  }

  /** `mqtt_trigger_from_json`: the accepted rules, at most
      MQTT_MAX_RULES; valid only with at least one. */
  function MqttFromJson(o: Option<Json>): (r: Option<MqttTemplate>)
    ensures r.Some? ==> MqttValid(r.value)
  {
    if o.None? then None
    else match ArrayOf(Get(o.value, "rules"))
      case None => None
      case Some(items) =>
        var rules := Collect(items, MQTT_MAX_RULES, MqttRuleFromJson);
        assert forall i :: 0 <= i < |rules| ==> rules[i].topic != "" && rules[i].scenario != "" by {
          forall i | 0 <= i < |rules| ensures rules[i].topic != "" && rules[i].scenario != "" {
            assert rules[i] in rules;
          }
        }
        if |rules| == 0 then None else Some(MqttTemplate(rules))
  }

  /** One flag trigger rule: an object with a non-empty flag and scenario;
      the required state is read from `state` and defaults to true. */
  function FlagRuleFromJson(j: Json): (r: Option<FlagRule>)
    ensures r.Some? <==> j.JObject? && NonEmptyString(Get(j, "flag")).Some? && NonEmptyString(Get(j, "scenario")).Some?
    ensures r.Some? ==> r.value.requiredState == BoolOr(Get(j, "state"), true)
  {
    if !j.JObject? then None
    else match (NonEmptyString(Get(j, "flag")), NonEmptyString(Get(j, "scenario")))
      case (Some(flag), Some(scenario)) =>
        Some(FlagRule(Text(j, "name"), flag, BoolOr(Get(j, "state"), true), scenario))
      case _ => None
  }

  /** One to FLAG_MAX_RULES rules, each with a flag and a scenario. */
  predicate FlagValid(f: FlagTemplate) {
    0 < |f.rules| <= FLAG_MAX_RULES
    && forall i :: 0 <= i < |f.rules| ==> f.rules[i].flag != "" && f.rules[i].scenario != ""
  }

  /** `flag_trigger_from_json`: the accepted rules, at most FLAG_MAX_RULES;
      valid only with at least one. */
  function FlagFromJson(o: Option<Json>): (r: Option<FlagTemplate>)
    ensures r.Some? ==> FlagValid(r.value)
  {
    if o.None? then None
    else match ArrayOf(Get(o.value, "rules"))
      case None => None
      case Some(items) =>
        var rules := Collect(items, FLAG_MAX_RULES, FlagRuleFromJson);
        assert forall i :: 0 <= i < |rules| ==> rules[i].flag != "" && rules[i].scenario != "" by {
          forall i | 0 <= i < |rules| ensures rules[i].flag != "" && rules[i].scenario != "" {
            assert rules[i] in rules;
          }
        }
        if |rules| == 0 then None else Some(FlagTemplate(rules))
  }

  /** One condition rule: an object with a non-empty flag; `state`
      defaults to true. */
  function ConditionRuleFromJson(j: Json): (r: Option<ConditionRule>)
    ensures r.Some? <==> j.JObject? && NonEmptyString(Get(j, "flag")).Some?
    ensures r.Some? ==> r.value.requiredState == BoolOr(Get(j, "state"), true)
  {
    if !j.JObject? then None
    else match NonEmptyString(Get(j, "flag"))
      case Some(flag) => Some(ConditionRule(flag, BoolOr(Get(j, "state"), true)))
      case None => None
  }

  /** One to CONDITION_MAX_RULES rules, each with a flag, and a true
      scenario. */
  predicate ConditionValid(c: ConditionTemplate) {
    0 < |c.rules| <= CONDITION_MAX_RULES && c.trueScenario != ""
    && forall i :: 0 <= i < |c.rules| ==> c.rules[i].flag != ""
  }

  /** `condition_template_from_json`: the mode (ALL unless it names a
      mode), both scenarios, and at most CONDITION_MAX_RULES rules; valid
      only with a rule and a true scenario. */
  function ConditionFromJson(o: Option<Json>): (r: Option<ConditionTemplate>)
    ensures r.Some? ==> ConditionValid(r.value)
  {
    if o.None? then None
    else
      var obj := o.value;
      match ArrayOf(Get(obj, "rules"))
      case None => None
      case Some(items) =>
        var rules := Collect(items, CONDITION_MAX_RULES, ConditionRuleFromJson);
        assert forall i :: 0 <= i < |rules| ==> rules[i].flag != "" by {
          forall i | 0 <= i < |rules| ensures rules[i].flag != "" {
            assert rules[i] in rules;
          }
        }
        var t := ConditionTemplate(ModeOrAll(Get(obj, "mode")), rules, Text(obj, "true_scenario"), Text(obj, "false_scenario"));
        if |t.rules| > 0 && t.trueScenario != "" then Some(t) else None
  }

  /** A positive 32-bit interval and a scenario. */
  predicate IntervalValid(v: IntervalTemplate) {
    0 < v.intervalMs <= UINT32_MAX && v.scenario != ""
  }

  /** `interval_template_from_json`: the interval defaults to 1000 ms;
      valid only with a positive interval and a scenario. */
  function IntervalFromJson(o: Option<Json>): (r: Option<IntervalTemplate>)
    ensures r.Some? ==> IntervalValid(r.value)
  {
    if o.None? then None
    else
      var t := IntervalTemplate(NumberToU32(Get(o.value, "interval_ms"), 1000), Text(o.value, "scenario"));
      if t.intervalMs > 0 && t.scenario != "" then Some(t) else None
  }

  /** One sequence step: an object with a non-empty topic;
      `payload_required` defaults to false. */
  function SequenceStepFromJson(j: Json): (r: Option<SequenceStep>)
    ensures r.Some? <==> j.JObject? && NonEmptyString(Get(j, "topic")).Some?
    ensures r.Some? ==> r.value.payloadRequired == BoolOr(Get(j, "payload_required"), false)
  {
    if !j.JObject? then None
    else match NonEmptyString(Get(j, "topic"))
      case Some(topic) =>
        Some(SequenceStep(topic, Text(j, "payload"), BoolOr(Get(j, "payload_required"), false),
                          Text(j, "hint_topic"), Text(j, "hint_payload"), Text(j, "hint_audio_track")))
      case None => None
  }

  /** One to SEQUENCE_MAX_STEPS steps, each with a topic, and a 32-bit
      timeout. */
  predicate SequenceValid(q: SequenceTemplate) {
    0 < |q.steps| <= SEQUENCE_MAX_STEPS && q.timeoutMs <= UINT32_MAX
    && forall i :: 0 <= i < |q.steps| ==> q.steps[i].topic != ""
  }

  /** `sequence_template_from_json`: at most SEQUENCE_MAX_STEPS steps, no
      timeout and reset on error unless given; valid only with a step. */
  function SequenceFromJson(o: Option<Json>): (r: Option<SequenceTemplate>)
    ensures r.Some? ==> SequenceValid(r.value)
  {
    if o.None? then None
    else
      var obj := o.value;
      match ArrayOf(Get(obj, "steps"))
      case None => None
      case Some(items) =>
        var steps := Collect(items, SEQUENCE_MAX_STEPS, SequenceStepFromJson);
        assert forall i :: 0 <= i < |steps| ==> steps[i].topic != "" by {
          forall i | 0 <= i < |steps| ensures steps[i].topic != "" {
            assert steps[i] in steps;
          }
        }
        if |steps| == 0 then None
        else Some(SequenceTemplate(steps, NumberToU32(Get(obj, "timeout_ms"), 0), BoolOr(Get(obj, "reset_on_error"), true),
          Text(obj, "success_topic"), Text(obj, "success_payload"), Text(obj, "success_audio_track"), Text(obj, "success_scenario"),
          Text(obj, "fail_topic"), Text(obj, "fail_payload"), Text(obj, "fail_audio_track"), Text(obj, "fail_scenario")))
  }

  // ------------------------------------------------------ template dispatch

  /** What every template the parser accepts satisfies: the validity rule
      of its reader, and the caps of its fixed arrays. */
  predicate TemplateValid(t: TemplateConfig) {
    match t
    case UidConfig(u) => UidValid(u)
    case SignalConfig(g) => SignalValid(g)
    case MqttConfig(m) => MqttValid(m)
    case FlagConfig(f) => FlagValid(f)
    case ConditionConfig(c) => ConditionValid(c)
    case IntervalConfig(v) => IntervalValid(v)
    case SequenceConfig(q) => SequenceValid(q)
    case SensorConfig => false
  }

  /** `template_from_json`: the `type` names a registered template, whose
      data is read from the member of that kind; None when the type is
      missing or unknown or the data is invalid. */
  function TemplateFromJson(obj: Json): (r: Option<TemplateConfig>)
    ensures r.Some? ==> TemplateValid(r.value)
  {
    match TypeFromString(StringOf(Get(obj, "type")))
    case None => None
    case Some(kind) =>
      match kind
      case Uid => (match UidFromJson(Get(obj, "uid")) case Some(u) => Some(UidConfig(u)) case None => None)
      case SignalHold => (match SignalFromJson(Get(obj, "signal")) case Some(g) => Some(SignalConfig(g)) case None => None)
      case MqttTrigger => (match MqttFromJson(Get(obj, "mqtt")) case Some(m) => Some(MqttConfig(m)) case None => None)
      case FlagTrigger => (match FlagFromJson(Get(obj, "flag")) case Some(f) => Some(FlagConfig(f)) case None => None)
      case IfCondition =>
        (match ConditionFromJson(Get(obj, "condition")) case Some(c) => Some(ConditionConfig(c)) case None => None)
      case IntervalTask =>
        (match IntervalFromJson(Get(obj, "interval")) case Some(v) => Some(IntervalConfig(v)) case None => None)
      case SequenceLock =>
        (match SequenceFromJson(Get(obj, "sequence")) case Some(q) => Some(SequenceConfig(q)) case None => None)
      case SensorMonitor => None
  }

  /** A valid template other than the sequence lock passes the guard of
      the runtime's `register_*`; the sequence lock has no runtime and is
      refused as not supported. */
  lemma ValidTemplateRegisters(t: TemplateConfig)
    requires TemplateValid(t)
    ensures t.SequenceConfig? <==> RegisterGuard(t) == ErrNotSupported
    ensures !t.SequenceConfig? ==> RegisterGuard(t) == EspOk
  {
  }

  // ------------------------------------------------------------ devices

  /** One topic binding: any object; missing fields are empty. */
  function TopicFromJson(j: Json): (r: Option<TopicBinding>)
    ensures r.Some? <==> j.JObject?
  {
    if j.JObject? then Some(TopicBinding(Text(j, "name"), Text(j, "topic"))) else None
  }

  /** One element of a `steps` array: a step object `step_from_json`
      accepts; others are skipped. */
  function StepNodeFromJson(j: Json): (r: Option<Step>)
    ensures r.Some? ==> StepFits(r.value)
  {
    if j.JObject? then StepFromJson(j) else None
  }

  /** What the scenario table of a device can hold. */
  predicate ScenarioFits(sc: Scenario) {
    |sc.steps| <= MAX_STEPS && forall i :: 0 <= i < |sc.steps| ==> StepFits(sc.steps[i])
  }

  /** One scenario: any object; at most MAX_STEPS valid steps, invalid ones
      skipped. */
  function ScenarioFromJson(j: Json): (r: Option<Scenario>)
    ensures r.Some? <==> j.JObject?
    ensures r.Some? ==> ScenarioFits(r.value)
  {
    if !j.JObject? then None
    else
      var steps := ArrayItems(Get(j, "steps"), MAX_STEPS, StepNodeFromJson);
      assert forall i :: 0 <= i < |steps| ==> StepFits(steps[i]) by {
        forall i | 0 <= i < |steps| ensures StepFits(steps[i]) {
          assert steps[i] in steps;
        }
      }
      Some(Scenario(Text(j, "id"), Text(j, "name"), steps))
  }

  /** What a device the parser builds satisfies: the per-device caps, and
      a template only when it is valid. */
  predicate DeviceFits(d: Device) {
    |d.topics| <= MAX_TOPICS && |d.scenarios| <= MAX_SCENARIOS
    && (forall i :: 0 <= i < |d.scenarios| ==> ScenarioFits(d.scenarios[i]))
    && (d.template.Some? ==> TemplateValid(d.template.value))
  }

  /** One device of the `devices` loop: any object. Id and name default to
      empty; a `template` that is no object or fails to parse leaves the
      device without one. Tabs are not modelled. */
  function DeviceFromJson(j: Json): (r: Option<Device>)
    ensures r.Some? <==> j.JObject?
    ensures r.Some? ==> DeviceFits(r.value)
    ensures r.Some? ==> r.value.id == Text(j, "id") && r.value.displayName == Text(j, "name")
  {
    if !j.JObject? then None
    else
      var scenarios := ArrayItems(Get(j, "scenarios"), MAX_SCENARIOS, ScenarioFromJson);
      assert forall i :: 0 <= i < |scenarios| ==> ScenarioFits(scenarios[i]) by {
        forall i | 0 <= i < |scenarios| ensures ScenarioFits(scenarios[i]) {
          assert scenarios[i] in scenarios;
        }
      }
      var tpl := match Get(j, "template")
        case Some(t) => if t.JObject? then TemplateFromJson(t) else None
        case None => None;
      Some(Device(Text(j, "id"), Text(j, "name"), ArrayItems(Get(j, "topics"), MAX_TOPICS, TopicFromJson), scenarios, tpl))
  }

  // ----------------------------------------------------------- profiles

  /** The device-count cap of a profile: the capacity, or MAX_DEVICES
      without one. */
  function ProfileDeviceCap(capacity: nat): nat {
    if capacity != 0 then capacity else MAX_DEVICES
  }

  /** One element of the `profiles` array: skipped unless it is an object
      with a non-empty string id. The profile with that id (ignoring case)
      is updated, or a fresh one is appended; a string `name` replaces the
      name, a number `device_count` sets the count, capped. */
  function ProfileStep(cfg: DmConfig, node: Json): (r: DmConfig)
    requires |cfg.profiles| < MAX_PROFILES
    ensures r == cfg.(profiles := r.profiles)
    ensures |cfg.profiles| <= |r.profiles| <= |cfg.profiles| + 1
  {
    if !node.JObject? then cfg
    else match NonEmptyString(Get(node, "id"))
      case None => cfg
      case Some(id) =>
        var (ps, i) := match FindById(cfg, id)
          case Some(k) => (cfg.profiles, k)
          case None => (cfg.profiles + [Profile(id, "", 0)], |cfg.profiles|);
        var named := ps[i].(name := StringOr(Get(node, "name"), ps[i].name));
        var counted := match Get(node, "device_count")
          case Some(JNumber(_)) =>
            named.(deviceCount := Min(NumberToU32(Get(node, "device_count"), 0), ProfileDeviceCap(cfg.deviceCapacity)))
          case _ => named;
        cfg.(profiles := ps[i := counted])
  }

  /** The profile loop: elements in order until MAX_PROFILES profiles
      exist. */
  function ProfilesFrom(cfg: DmConfig, items: seq<Json>): (r: DmConfig)
    ensures r == cfg.(profiles := r.profiles)
    ensures |cfg.profiles| <= |r.profiles| <= Max(|cfg.profiles|, MAX_PROFILES)
    decreases |items|
  {
    if |items| == 0 || |cfg.profiles| >= MAX_PROFILES then cfg
    else ProfilesFrom(ProfileStep(cfg, items[0]), items[1..])
  }

  /** Profile ids are non-empty and pairwise different, ignoring case. */
  predicate ProfilesDistinct(ps: seq<Profile>) {
    (forall i :: 0 <= i < |ps| ==> ps[i].id != "")
    && forall i, j :: 0 <= i < j < |ps| ==> !EqualsIgnoreCase(ps[i].id, ps[j].id)
  }

  /** A profile step keeps the ids distinct: a new profile is appended only
      when no existing id matches. */
  lemma ProfileStepDistinct(cfg: DmConfig, node: Json)
    requires |cfg.profiles| < MAX_PROFILES && ProfilesDistinct(cfg.profiles)
    ensures ProfilesDistinct(ProfileStep(cfg, node).profiles)
    ensures forall i :: 0 <= i < |cfg.profiles| ==> ProfileStep(cfg, node).profiles[i].id == cfg.profiles[i].id
  {
    if node.JObject? && NonEmptyString(Get(node, "id")).Some? {
      var id := NonEmptyString(Get(node, "id")).value;
      if FindById(cfg, id).None? {
        forall i | 0 <= i < |cfg.profiles| ensures !EqualsIgnoreCase(cfg.profiles[i].id, id) {
          assert !ProfileMatches(cfg, i, id);
        }
      }
    }
  }

  lemma {:induction false} ProfilesFromDistinct(cfg: DmConfig, items: seq<Json>)
    requires ProfilesDistinct(cfg.profiles)
    ensures ProfilesDistinct(ProfilesFrom(cfg, items).profiles)
    decreases |items|
  {
    if |items| > 0 && |cfg.profiles| < MAX_PROFILES {
      ProfileStepDistinct(cfg, items[0]);
      ProfilesFromDistinct(ProfileStep(cfg, items[0]), items[1..]);
    }
  }

  /** Profile lookup reads only the ids. */
  lemma FindByIdSameIds(a: DmConfig, b: DmConfig, id: string)
    requires |a.profiles| == |b.profiles|
    requires forall k :: 0 <= k < |a.profiles| ==> a.profiles[k].id == b.profiles[k].id
    ensures FindById(a, id) == FindById(b, id)
  {
    if id != "" {
      FindFromSameIds(a, b, id, 0);
    }
  }

  lemma {:induction false} FindFromSameIds(a: DmConfig, b: DmConfig, id: string, i: nat)
    requires i <= |a.profiles| == |b.profiles|
    requires forall k :: 0 <= k < |a.profiles| ==> a.profiles[k].id == b.profiles[k].id
    ensures FindFrom(a, id, i) == FindFrom(b, id, i)
    decreases |a.profiles| - i
  {
    if i < |a.profiles| && i < MAX_PROFILES {
      FindFromSameIds(a, b, id, i + 1);
    }
  }

  // --------------------------------------------------------- population

  /** `dm_load_defaults` followed by the scalar fields of the document:
      schema and generation default to 1, `tab_limit` to MAX_TABS and is
      capped there; no profiles, no active profile, no devices. */
  function Scalars(root: Json, capacity: nat): (c: DmConfig)
    ensures c.profiles == [] && c.devices == [] && c.activeProfile == "" && c.deviceCapacity == capacity
    ensures c.tabLimit <= MAX_TABS
  {
    DmConfig(NumberToU32(Get(root, "schema"), CONFIG_VERSION), NumberToU32(Get(root, "generation"), 1),
             Min(NumberToU32(Get(root, "tab_limit"), MAX_TABS), MAX_TABS), [], "", capacity, [])
  }

  /** The configuration after the profiles and the active profile are
      read and `dm_profiles_ensure_active` ran. */
  function WithProfiles(root: Json, capacity: nat): (c: DmConfig) {
    var base := Scalars(root, capacity);
    var read := match ArrayOf(Get(root, "profiles"))
      case Some(items) => ProfilesFrom(base, items)
      case None => base;
    var active := match NonEmptyString(Get(root, "active_profile"))
      case Some(a) => read.(activeProfile := a)
      case None => read;
    EnsureActive(active).0
  }

  /** The device cap of the device loop: the capacity, or none. */
  function DeviceLoopCap(capacity: nat, items: seq<Json>): nat {
    if capacity != 0 then capacity else |items|
  }

  /** `dm_populate_config_from_json`. Without a `devices` array the device
      table is left empty and the active profile is not synced; otherwise
      the objects of the array become devices, until the capacity is
      reached, and the active profile records their number. */
  function Populate(root: Json, capacity: nat): (c: DmConfig) {
    var p := WithProfiles(root, capacity);
    match ArrayOf(Get(root, "devices"))
    case None => p.(devices := [])
    case Some(items) =>
      SyncToActive(p.(devices := Collect(items, DeviceLoopCap(capacity, items), DeviceFromJson)))
  }

  /** After the profile phase there are one to MAX_PROFILES profiles with
      distinct ids, the active id names one of them, and no device has
      been read. */
  lemma WithProfilesFacts(root: Json, capacity: nat)
    ensures var p := WithProfiles(root, capacity);
      0 < |p.profiles| <= MAX_PROFILES && ProfilesDistinct(p.profiles)
      && FindById(p, p.activeProfile).Some? && p.devices == []
      && p.tabLimit <= MAX_TABS && p.deviceCapacity == capacity
  {
    var base := Scalars(root, capacity);
    var read := match ArrayOf(Get(root, "profiles"))
      case Some(items) => ProfilesFrom(base, items)
      case None => base;
    if ArrayOf(Get(root, "profiles")).Some? {
      ProfilesFromDistinct(base, ArrayOf(Get(root, "profiles")).value);
    }
    var active := match NonEmptyString(Get(root, "active_profile"))
      case Some(a) => read.(activeProfile := a)
      case None => read;
    EnsureActiveSpec(active);
    EnsureActiveNamesProfile(active);
  }

  /** Syncing the active profile after the devices are read keeps the
      profile facts of the profile phase. */
  lemma SyncKeepsProfiles(p: DmConfig, devices: seq<Device>)
    requires 0 < |p.profiles| <= MAX_PROFILES && ProfilesDistinct(p.profiles)
    requires FindById(p, p.activeProfile).Some?
    ensures var c := SyncToActive(p.(devices := devices));
      0 < |c.profiles| <= MAX_PROFILES && ProfilesDistinct(c.profiles)
      && FindById(c, c.activeProfile).Some?
      && c == p.(devices := devices, profiles := c.profiles)
  {
    var q := p.(devices := devices);
    FindByIdSameIds(p, q, p.activeProfile);
    SyncToActiveSpec(q);
    EnsureActiveNamesProfile(q);
    var c := SyncToActive(q);
    FindByIdSameIds(c, q, c.activeProfile);
  }

  /** Every device of a table is within its caps. */
  predicate AllDevicesFit(ds: seq<Device>) {
    forall i :: 0 <= i < |ds| ==> DeviceFits(ds[i])
  }

  /** Every device read by the device loop is within its caps, and there
      are at most `capacity` of them when a capacity is set. */
  lemma DevicesFit(items: seq<Json>, capacity: nat)
    ensures var ds := Collect(items, DeviceLoopCap(capacity, items), DeviceFromJson);
      (capacity != 0 ==> |ds| <= capacity) && AllDevicesFit(ds)
  {
    var ds := Collect(items, DeviceLoopCap(capacity, items), DeviceFromJson);
    forall i | 0 <= i < |ds| ensures DeviceFits(ds[i]) {
      assert ds[i] in ds;
    }
  }

  /** What every populated configuration satisfies: a tab limit of at most
      MAX_TABS, one to MAX_PROFILES profiles with distinct ids of which
      the active one is found, at most `capacity` devices when a capacity
      is set, and every device within its caps with only valid
      templates. */
  lemma PopulateBounds(root: Json, capacity: nat)
    ensures var c := Populate(root, capacity);
      c.tabLimit <= MAX_TABS && c.deviceCapacity == capacity
      && 0 < |c.profiles| <= MAX_PROFILES && ProfilesDistinct(c.profiles)
      && FindById(c, c.activeProfile).Some?
      && (capacity != 0 ==> |c.devices| <= capacity)
      && AllDevicesFit(c.devices)
  {
    WithProfilesFacts(root, capacity);
    var p := WithProfiles(root, capacity);
    match ArrayOf(Get(root, "devices")) {
      case None =>
      case Some(items) =>
        var ds := Collect(items, DeviceLoopCap(capacity, items), DeviceFromJson);
        DevicesFit(items, capacity);
        SyncKeepsProfiles(p, ds);
        assert Populate(root, capacity) == SyncToActive(p.(devices := ds));
        assert Populate(root, capacity).devices == ds;
    }
  }

  /** Without a `devices` array the device table is empty and the profile
      phase is the end: the active profile's count is not synced. */
  lemma DevicesMissing(root: Json, capacity: nat)
    requires ArrayOf(Get(root, "devices")).None?
    ensures Populate(root, capacity) == WithProfiles(root, capacity)
    ensures Populate(root, capacity).devices == []
  {
    WithProfilesFacts(root, capacity);
  }

  /** With a `devices` array the active profile records how many devices
      were read, and the devices are the objects of the array in order,
      up to the capacity. */
  lemma DevicesRead(root: Json, capacity: nat)
    requires ArrayOf(Get(root, "devices")).Some?
    ensures var items := ArrayOf(Get(root, "devices")).value;
      var c := Populate(root, capacity);
      var (_, k) := EnsureActive(WithProfiles(root, capacity).(devices := c.devices));
      c.devices == Collect(items, DeviceLoopCap(capacity, items), DeviceFromJson)
      && k.Some? && k.value < |c.profiles| && c.profiles[k.value].deviceCount == |c.devices|
  {
    var items := ArrayOf(Get(root, "devices")).value;
    var ds := Collect(items, DeviceLoopCap(capacity, items), DeviceFromJson);
    var q := WithProfiles(root, capacity).(devices := ds);
    assert Populate(root, capacity) == SyncToActive(q);
    SyncToActiveSpec(q);
  }

  /** The profile loop of `dm_populate_config_from_json`: elements in
      order, stopping once MAX_PROFILES profiles exist. */
  method ProfileLoop(cfg0: DmConfig, items: seq<Json>) returns (cfg: DmConfig)
    ensures cfg == ProfilesFrom(cfg0, items)
  {
    cfg := cfg0;
    var i := 0;
    assert items[0..] == items;
    while i < |items|
      invariant i <= |items|
      invariant ProfilesFrom(cfg, items[i..]) == ProfilesFrom(cfg0, items)
    {
      if |cfg.profiles| >= MAX_PROFILES {
        break;
      }
      assert items[i..][1..] == items[i + 1..];
      cfg := ProfileStep(cfg, items[i]);
      i := i + 1;
    }
    if i == |items| {
      assert items[i..] == [];
    }
  }

  /** `dm_populate_config_from_json` as the C code runs it: defaults and
      scalars, the profile loop, the active profile, then the device loop
      (the capped array loop, stopping at the capacity) and the final
      sync. */
  method PopulateConfigFromJson(root: Json, capacity: nat) returns (cfg: DmConfig)
    ensures cfg == Populate(root, capacity)
  {
    cfg := Scalars(root, capacity);
    var profiles := ArrayOf(Get(root, "profiles"));
    if profiles.Some? {
      cfg := ProfileLoop(cfg, profiles.value);
    }
    var active := NonEmptyString(Get(root, "active_profile"));
    if active.Some? {
      cfg := cfg.(activeProfile := active.value);
    }
    cfg := EnsureActive(cfg).0;
    var devices := ArrayOf(Get(root, "devices"));
    if devices.None? {
      cfg := cfg.(devices := []);
      return;
    }
    var ds := CollectLoop(devices.value, DeviceLoopCap(capacity, devices.value), DeviceFromJson);
    cfg := SyncToActive(cfg.(devices := ds));
  }
}
