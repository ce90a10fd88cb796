/** The template half of `device_manager_export.c`: one `*_to_json` per
    template kind and `template_to_json`. Each object is written key by
    key, a member the C code skips being an absent value. The lemmas show
    which members and items are dropped and that the reader of the same
    kind gives every valid template back. */
module DmExportTemplates {
  import opened Common
  import opened Json
  import opened DmTypes
  import opened DmValidate
  import opened TemplateRegistry
  import opened DmParse

  /** `template_to_json_string`: a string member only when it is
      non-empty. */
  function IfSet(s: string): (r: Option<Json>)
    ensures r.Some? <==> s != ""
    ensures StringOrEmpty(r) == s
  {
    if s != "" then Some(JString(s)) else None
  }

  /** A member the C code adds only when `cond` holds. */
  function When(cond: bool, v: Json): (r: Option<Json>)
    ensures r.Some? <==> cond
  {
    if cond then Some(v) else None
  }

  function Num(n: nat): Json { JNumber(n as real) }

  function StringItem(s: string): Json { JString(s) }

  predicate NonEmpty(s: string) { s != "" }

  /** Reading back the non-empty string items of an array gives them
      again. */
  lemma {:induction false} ValuesOfStrings(items: seq<Json>, vs: seq<string>)
    requires |items| == |vs|
    requires forall i :: 0 <= i < |vs| ==> items[i] == JString(vs[i]) && vs[i] != ""
    ensures Values(items) == vs
  {
    if |vs| > 0 {
      var n := |vs| - 1;
      ValuesOfStrings(items[..n], vs[..n]);
      assert vs == vs[..n] + [vs[n]];
    }
  }

  /** The `rules` member of an object holding only it. */
  lemma RulesArray(items: seq<Json>)
    ensures ArrayOf(Get(JObject([Member("rules", JArray(items))]), "rules")) == Some(items)
  {
    assert [Member("rules", JArray(items))] == [Member("rules", JArray(items))] + [];
    GetFirst("rules", JArray(items), []);
  }

  // ------------------------------------------------------------ MQTT

  const MqttRuleKeys: seq<string> := ["name", "topic", "payload", "payload_required", "scenario"]

  /** One exported MQTT rule: `payload_required` is written only with a
      payload or when it is set. */
  function MqttRuleVals(r: MqttRule): seq<Option<Json>> {
    [IfSet(r.name), Some(JString(r.topic)), IfSet(r.payload),
     When(r.payload != "" || r.payloadRequired, JBool(r.payloadRequired)), Some(JString(r.scenario))]
  }

  function MqttRuleToJson(r: MqttRule): Json {
    JObject(Fields(MqttRuleKeys, MqttRuleVals(r)))
  }

  predicate MqttRuleComplete(r: MqttRule) { r.topic != "" && r.scenario != "" }

  /** `mqtt_template_to_json`: the rules with a topic and a scenario, among
      the first MQTT_MAX_RULES. */
  function MqttToJson(m: MqttTemplate): Json {
    JObject([Member("rules", JArray(Emit(m.rules, MQTT_MAX_RULES, MqttRuleComplete, MqttRuleToJson)))])
  }

  /** `payload_required` is written exactly when the payload is non-empty
      or the flag is set. */
  lemma MqttPayloadRequiredOmitted(r: MqttRule)
    ensures Get(MqttRuleToJson(r), "payload_required").Some? <==> r.payload != "" || r.payloadRequired
  {
    assert Distinct(MqttRuleKeys);
    GetFields(MqttRuleKeys, MqttRuleVals(r), 3);
  }

  /** Every exported rule comes from a rule with a topic and a scenario
      among the first MQTT_MAX_RULES. */
  lemma MqttIncompleteDropped(m: MqttTemplate, y: Json)
    requires ArrayOf(Get(MqttToJson(m), "rules")).Some? && y in ArrayOf(Get(MqttToJson(m), "rules")).value
    ensures exists i :: 0 <= i < |m.rules| && i < MQTT_MAX_RULES
                     && MqttRuleComplete(m.rules[i]) && y == MqttRuleToJson(m.rules[i])
  {
    RulesArray(Emit(m.rules, MQTT_MAX_RULES, MqttRuleComplete, MqttRuleToJson));
    EmitKept(m.rules, MQTT_MAX_RULES, MqttRuleComplete, MqttRuleToJson, y);
  }

  /** A rule with a topic and a scenario is read back unchanged. */
  lemma MqttRuleRoundTrip(r: MqttRule)
    requires MqttRuleComplete(r)
    ensures MqttRuleFromJson(MqttRuleToJson(r)) == Some(r)
  {
    var v := MqttRuleVals(r);
    assert Distinct(MqttRuleKeys);
    GetFields(MqttRuleKeys, v, 0);
    GetFields(MqttRuleKeys, v, 1);
    GetFields(MqttRuleKeys, v, 2);
    GetFields(MqttRuleKeys, v, 3);
    GetFields(MqttRuleKeys, v, 4);
  }

  /** Reading an exported MQTT trigger gives every valid template back. */
  lemma MqttRoundTrip(m: MqttTemplate)
    requires MqttValid(m)
    ensures MqttFromJson(Some(MqttToJson(m))) == Some(m)
  {
    var items := Emit(m.rules, MQTT_MAX_RULES, MqttRuleComplete, MqttRuleToJson);
    RulesArray(items);
    EmitAll(m.rules, MQTT_MAX_RULES, MqttRuleComplete, MqttRuleToJson);
    forall i | 0 <= i < |items| ensures MqttRuleFromJson(items[i]) == Some(m.rules[i]) {
      MqttRuleRoundTrip(m.rules[i]);
    }
    CollectAll(items, MQTT_MAX_RULES, MqttRuleFromJson, m.rules);
  }

  // ------------------------------------------------------------ flags

  const FlagRuleKeys: seq<string> := ["name", "flag", "state", "scenario"]

  /** One exported flag rule; the required state goes under `state`. */
  function FlagRuleVals(r: FlagRule): seq<Option<Json>> {
    [IfSet(r.name), Some(JString(r.flag)), Some(JBool(r.requiredState)), Some(JString(r.scenario))]
  }

  function FlagRuleToJson(r: FlagRule): Json {
    JObject(Fields(FlagRuleKeys, FlagRuleVals(r)))
  }

  predicate FlagRuleComplete(r: FlagRule) { r.flag != "" && r.scenario != "" }

  /** `flag_template_to_json`: the rules with a flag and a scenario, among
      the first FLAG_MAX_RULES. */
  function FlagToJson(f: FlagTemplate): Json {
    JObject([Member("rules", JArray(Emit(f.rules, FLAG_MAX_RULES, FlagRuleComplete, FlagRuleToJson)))])
  }

  lemma FlagRuleRoundTrip(r: FlagRule)
    requires FlagRuleComplete(r)
    ensures FlagRuleFromJson(FlagRuleToJson(r)) == Some(r)
  {
    var v := FlagRuleVals(r);
    assert Distinct(FlagRuleKeys);
    GetFields(FlagRuleKeys, v, 0);
    GetFields(FlagRuleKeys, v, 1);
    GetFields(FlagRuleKeys, v, 2);
    GetFields(FlagRuleKeys, v, 3);
  }

  /** Reading an exported flag trigger gives every valid template back. */
  lemma FlagRoundTrip(f: FlagTemplate)
    requires FlagValid(f)
    ensures FlagFromJson(Some(FlagToJson(f))) == Some(f)
  {
    var items := Emit(f.rules, FLAG_MAX_RULES, FlagRuleComplete, FlagRuleToJson);
    RulesArray(items);
    EmitAll(f.rules, FLAG_MAX_RULES, FlagRuleComplete, FlagRuleToJson);
    forall i | 0 <= i < |items| ensures FlagRuleFromJson(items[i]) == Some(f.rules[i]) {
      FlagRuleRoundTrip(f.rules[i]);
    }
    CollectAll(items, FLAG_MAX_RULES, FlagRuleFromJson, f.rules);
  }

  // -------------------------------------------------------- condition

  const ConditionRuleKeys: seq<string> := ["flag", "state"]
  const ConditionKeys: seq<string> := ["mode", "true_scenario", "false_scenario", "rules"]

  function ConditionRuleToJson(r: ConditionRule): Json {
    JObject(Fields(ConditionRuleKeys, [Some(JString(r.flag)), Some(JBool(r.requiredState))]))
  }

  predicate ConditionRuleComplete(r: ConditionRule) { r.flag != "" }

  /** The mode always, the scenarios when set, the rules with a flag. */
  function ConditionVals(c: ConditionTemplate): seq<Option<Json>> {
    [Some(JString(ConditionToString(c.mode))), IfSet(c.trueScenario), IfSet(c.falseScenario),
     Some(JArray(Emit(c.rules, CONDITION_MAX_RULES, ConditionRuleComplete, ConditionRuleToJson)))]
  }

  /** `condition_template_to_json`. */
  function ConditionToJson(c: ConditionTemplate): Json {
    JObject(Fields(ConditionKeys, ConditionVals(c)))
  }

  lemma ConditionRuleRoundTrip(r: ConditionRule)
    requires ConditionRuleComplete(r)
    ensures ConditionRuleFromJson(ConditionRuleToJson(r)) == Some(r)
  {
    assert Distinct(ConditionRuleKeys);
    GetFields(ConditionRuleKeys, [Some(JString(r.flag)), Some(JBool(r.requiredState))], 0);
    GetFields(ConditionRuleKeys, [Some(JString(r.flag)), Some(JBool(r.requiredState))], 1);
  }

  /** The members of an exported condition, read back. */
  lemma ConditionFields(c: ConditionTemplate)
    ensures var obj := ConditionToJson(c);
      ModeOrAll(Get(obj, "mode")) == c.mode
      && Text(obj, "true_scenario") == c.trueScenario && Text(obj, "false_scenario") == c.falseScenario
      && ArrayOf(Get(obj, "rules")) == Some(Emit(c.rules, CONDITION_MAX_RULES, ConditionRuleComplete, ConditionRuleToJson))
  {
    var v := ConditionVals(c);
    assert Distinct(ConditionKeys);
    GetFields(ConditionKeys, v, 0);
    GetFields(ConditionKeys, v, 1);
    GetFields(ConditionKeys, v, 2);
    GetFields(ConditionKeys, v, 3);
    var name := ConditionToString(c.mode);
    EqualsIgnoreCaseFacts(name, name, name);
    DmValidate.ConditionRoundTrip(c.mode, name);
  }

  /** Reading an exported condition gives every valid template back. */
  lemma ConditionRoundTrip(c: ConditionTemplate)
    requires ConditionValid(c)
    ensures ConditionFromJson(Some(ConditionToJson(c))) == Some(c)
  {
    var items := Emit(c.rules, CONDITION_MAX_RULES, ConditionRuleComplete, ConditionRuleToJson);
    ConditionFields(c);
    EmitAll(c.rules, CONDITION_MAX_RULES, ConditionRuleComplete, ConditionRuleToJson);
    forall i | 0 <= i < |items| ensures ConditionRuleFromJson(items[i]) == Some(c.rules[i]) {
      ConditionRuleRoundTrip(c.rules[i]);
    }
    CollectAll(items, CONDITION_MAX_RULES, ConditionRuleFromJson, c.rules);
  }

  // --------------------------------------------------------- interval

  const IntervalKeys: seq<string> := ["interval_ms", "scenario"]

  /** `interval_template_to_json`: the interval always, the scenario when
      set. */
  function IntervalToJson(v: IntervalTemplate): Json {
    JObject(Fields(IntervalKeys, [Some(Num(v.intervalMs)), IfSet(v.scenario)]))
  }

  /** Reading an exported interval task gives every valid template back. */
  lemma IntervalRoundTrip(v: IntervalTemplate)
    requires IntervalValid(v)
    ensures IntervalFromJson(Some(IntervalToJson(v))) == Some(v)
  {
    assert Distinct(IntervalKeys);
    GetFields(IntervalKeys, [Some(Num(v.intervalMs)), IfSet(v.scenario)], 0);
    GetFields(IntervalKeys, [Some(Num(v.intervalMs)), IfSet(v.scenario)], 1);
    NumberRoundTrip(v.intervalMs, 1000, 0);
  }

  // ------------------------------------------------------ signal hold

  const SignalKeys: seq<string> := [
    "signal_topic", "signal_payload_on", "signal_payload_off", "signal_on_ms", "heartbeat_topic",
    "required_hold_ms", "heartbeat_timeout_ms", "hold_track", "hold_track_loop", "complete_track"]

  /** The strings when set; the three times and the loop flag always. */
  function SignalVals(g: SignalTemplate): seq<Option<Json>> {
    [IfSet(g.signalTopic), IfSet(g.signalPayloadOn), IfSet(g.signalPayloadOff), Some(Num(g.signalOnMs)),
     IfSet(g.heartbeatTopic), Some(Num(g.requiredHoldMs)), Some(Num(g.heartbeatTimeoutMs)),
     IfSet(g.holdTrack), Some(JBool(g.holdTrackLoop)), IfSet(g.completeTrack)]
  }

  /** `signal_template_to_json`. */
  function SignalToJson(g: SignalTemplate): Json {
    JObject(Fields(SignalKeys, SignalVals(g)))
  }

  /** The string members of an exported signal-hold template, read back. */
  lemma SignalStrings(g: SignalTemplate)
    ensures var obj := SignalToJson(g);
      Text(obj, "signal_topic") == g.signalTopic && Text(obj, "signal_payload_on") == g.signalPayloadOn
      && Text(obj, "signal_payload_off") == g.signalPayloadOff && Text(obj, "heartbeat_topic") == g.heartbeatTopic
      && Text(obj, "hold_track") == g.holdTrack && Text(obj, "complete_track") == g.completeTrack
  {
    var v := SignalVals(g);
    assert Distinct(SignalKeys);
    GetFields(SignalKeys, v, 0);
    GetFields(SignalKeys, v, 1);
    GetFields(SignalKeys, v, 2);
    GetFields(SignalKeys, v, 4);
    GetFields(SignalKeys, v, 7);
    GetFields(SignalKeys, v, 9);
  }

  /** The numbers and the flag of an exported signal-hold template, read
      back. */
  lemma SignalNumbers(g: SignalTemplate)
    requires SignalValid(g)
    ensures var obj := SignalToJson(g);
      NumberToU32(Get(obj, "signal_on_ms"), 0) == g.signalOnMs
      && NumberToU32(Get(obj, "required_hold_ms"), 0) == g.requiredHoldMs
      && NumberToU32(Get(obj, "heartbeat_timeout_ms"), 1000) == g.heartbeatTimeoutMs
      && BoolOr(Get(obj, "hold_track_loop"), false) == g.holdTrackLoop
  {
    var v := SignalVals(g);
    assert Distinct(SignalKeys);
    GetFields(SignalKeys, v, 3);
    GetFields(SignalKeys, v, 5);
    GetFields(SignalKeys, v, 6);
    GetFields(SignalKeys, v, 8);
    NumberRoundTrip(g.signalOnMs, 0, 0);
    NumberRoundTrip(g.requiredHoldMs, 0, 0);
    NumberRoundTrip(g.heartbeatTimeoutMs, 1000, 0);
  }

  /** Reading an exported signal-hold template gives every valid template
      back; the heartbeat timeout is always written, so its default never
      applies. */
  lemma SignalRoundTrip(g: SignalTemplate)
    requires SignalValid(g)
    ensures SignalFromJson(Some(SignalToJson(g))) == Some(g)
  {
    SignalStrings(g);
    SignalNumbers(g);
  }

  // ---------------------------------------------------- sequence lock

  const SequenceStepKeys: seq<string> := ["topic", "payload", "payload_required", "hint_topic", "hint_payload", "hint_audio_track"]

  /** One exported step: `payload_required` always, the others when set. */
  function SequenceStepVals(t: SequenceStep): seq<Option<Json>> {
    [Some(JString(t.topic)), IfSet(t.payload), Some(JBool(t.payloadRequired)),
     IfSet(t.hintTopic), IfSet(t.hintPayload), IfSet(t.hintAudioTrack)]
  }

  function SequenceStepToJson(t: SequenceStep): Json {
    JObject(Fields(SequenceStepKeys, SequenceStepVals(t)))
  }

  predicate SequenceStepComplete(t: SequenceStep) { t.topic != "" }

  const SequenceKeys: seq<string> := [
    "steps", "timeout_ms", "reset_on_error", "success_topic", "success_payload", "success_audio_track",
    "success_scenario", "fail_topic", "fail_payload", "fail_audio_track", "fail_scenario"]

  /** The steps with a topic, `timeout_ms` only when positive,
      `reset_on_error` always, the action strings when set. */
  function SequenceVals(q: SequenceTemplate): seq<Option<Json>> {
    [Some(JArray(Emit(q.steps, SEQUENCE_MAX_STEPS, SequenceStepComplete, SequenceStepToJson))),
     When(q.timeoutMs > 0, Num(q.timeoutMs)), Some(JBool(q.resetOnError)),
     IfSet(q.successTopic), IfSet(q.successPayload), IfSet(q.successAudioTrack), IfSet(q.successScenario),
     IfSet(q.failTopic), IfSet(q.failPayload), IfSet(q.failAudioTrack), IfSet(q.failScenario)]
  }

  /** `sequence_template_to_json`. */
  function SequenceToJson(q: SequenceTemplate): Json {
    JObject(Fields(SequenceKeys, SequenceVals(q)))
  }

  /** `timeout_ms` is written exactly when the timeout is positive, and
      every exported step comes from a step with a topic. */
  lemma SequenceOmissions(q: SequenceTemplate, y: Json)
    requires ArrayOf(Get(SequenceToJson(q), "steps")).Some? && y in ArrayOf(Get(SequenceToJson(q), "steps")).value
    ensures Get(SequenceToJson(q), "timeout_ms").Some? <==> q.timeoutMs > 0
    ensures exists i :: 0 <= i < |q.steps| && i < SEQUENCE_MAX_STEPS
                     && SequenceStepComplete(q.steps[i]) && y == SequenceStepToJson(q.steps[i])
  {
    assert Distinct(SequenceKeys);
    GetFields(SequenceKeys, SequenceVals(q), 0);
    GetFields(SequenceKeys, SequenceVals(q), 1);
    EmitKept(q.steps, SEQUENCE_MAX_STEPS, SequenceStepComplete, SequenceStepToJson, y);
  }

  lemma SequenceStepRoundTrip(t: SequenceStep)
    requires SequenceStepComplete(t)
    ensures SequenceStepFromJson(SequenceStepToJson(t)) == Some(t)
  {
    var v := SequenceStepVals(t);
    assert Distinct(SequenceStepKeys);
    GetFields(SequenceStepKeys, v, 0);
    GetFields(SequenceStepKeys, v, 1);
    GetFields(SequenceStepKeys, v, 2);
    GetFields(SequenceStepKeys, v, 3);
    GetFields(SequenceStepKeys, v, 4);
    GetFields(SequenceStepKeys, v, 5);
  }

  /** The members of an exported sequence lock, read back. */
  lemma SequenceFields(q: SequenceTemplate)
    requires SequenceValid(q)
    ensures var obj := SequenceToJson(q);
      ArrayOf(Get(obj, "steps")) == Some(Emit(q.steps, SEQUENCE_MAX_STEPS, SequenceStepComplete, SequenceStepToJson))
      && NumberToU32(Get(obj, "timeout_ms"), 0) == q.timeoutMs
      && BoolOr(Get(obj, "reset_on_error"), true) == q.resetOnError
      && Text(obj, "success_topic") == q.successTopic && Text(obj, "success_payload") == q.successPayload
      && Text(obj, "success_audio_track") == q.successAudioTrack && Text(obj, "success_scenario") == q.successScenario
      && Text(obj, "fail_topic") == q.failTopic && Text(obj, "fail_payload") == q.failPayload
      && Text(obj, "fail_audio_track") == q.failAudioTrack && Text(obj, "fail_scenario") == q.failScenario
  {
    var v := SequenceVals(q);
    assert Distinct(SequenceKeys);
    GetFields(SequenceKeys, v, 0);
    GetFields(SequenceKeys, v, 1);
    GetFields(SequenceKeys, v, 2);
    GetFields(SequenceKeys, v, 3);
    GetFields(SequenceKeys, v, 4);
    GetFields(SequenceKeys, v, 5);
    GetFields(SequenceKeys, v, 6);
    GetFields(SequenceKeys, v, 7);
    GetFields(SequenceKeys, v, 8);
    GetFields(SequenceKeys, v, 9);
    GetFields(SequenceKeys, v, 10);
    NumberRoundTrip(q.timeoutMs, 0, 0);
  }

  /** Reading an exported sequence lock gives every valid template back. */
  lemma SequenceRoundTrip(q: SequenceTemplate)
    requires SequenceValid(q)
    ensures SequenceFromJson(Some(SequenceToJson(q))) == Some(q)
  {
    var items := Emit(q.steps, SEQUENCE_MAX_STEPS, SequenceStepComplete, SequenceStepToJson);
    SequenceFields(q);
    EmitAll(q.steps, SEQUENCE_MAX_STEPS, SequenceStepComplete, SequenceStepToJson);
    forall i | 0 <= i < |items| ensures SequenceStepFromJson(items[i]) == Some(q.steps[i]) {
      SequenceStepRoundTrip(q.steps[i]);
    }
    CollectAll(items, SEQUENCE_MAX_STEPS, SequenceStepFromJson, q.steps);
  }

  // -------------------------------------------------------------- UID

  const SlotKeys: seq<string> := ["source_id", "label", "values", "last_value"]

  /** What the runtime snapshot says of slot `i`: its last read value, or
      None without a snapshot, past its slots, or without a value. */
  function LastValue(snapshot: seq<Option<string>>, i: nat): Option<string> {
    if i < |snapshot| then snapshot[i] else None
  }

  /** One exported slot: the source, the label when set, the non-empty
      values among the first UID_MAX_VALUES, and the last value read when
      the runtime has one. */
  function SlotVals(slot: UidSlot, last: Option<string>): seq<Option<Json>> {
    [Some(JString(slot.sourceId)), IfSet(slot.title),
     Some(JArray(Emit(slot.values, UID_MAX_VALUES, NonEmpty, StringItem))),
     match last case Some(v) => Some(JString(v)) case None => None]
  }

  function SlotToJson(slot: UidSlot, last: Option<string>): Json {
    JObject(Fields(SlotKeys, SlotVals(slot, last)))
  }

  /** The slot loop from index `i`: slots without a source are skipped,
      and only the first UID_MAX_SLOTS are looked at. */
  function SlotsToJson(slots: seq<UidSlot>, snapshot: seq<Option<string>>, i: nat): (r: seq<Json>)
    requires i <= |slots|
    decreases |slots| - i
  {
    if i == |slots| || i >= UID_MAX_SLOTS then []
    else
      (if slots[i].sourceId != "" then [SlotToJson(slots[i], LastValue(snapshot, i))] else [])
      + SlotsToJson(slots, snapshot, i + 1)
  }

  const UidKeys: seq<string> := [
    "slots", "success_topic", "success_payload", "fail_topic", "fail_payload", "success_audio_track",
    "fail_audio_track", "success_signal_topic", "success_signal_payload", "fail_signal_topic", "fail_signal_payload"]

  /** The slots, then the ten action strings when set; the start and
      broadcast fields are not written. */
  function UidVals(u: UidTemplate, snapshot: seq<Option<string>>): seq<Option<Json>> {
    [Some(JArray(SlotsToJson(u.slots, snapshot, 0))),
     IfSet(u.successTopic), IfSet(u.successPayload), IfSet(u.failTopic), IfSet(u.failPayload),
     IfSet(u.successAudioTrack), IfSet(u.failAudioTrack), IfSet(u.successSignalTopic),
     IfSet(u.successSignalPayload), IfSet(u.failSignalTopic), IfSet(u.failSignalPayload)]
  }

  /** `uid_template_to_json`, with the runtime's snapshot of the device
      (empty when it has none). */
  function UidToJson(u: UidTemplate, snapshot: seq<Option<string>>): Json {
    JObject(Fields(UidKeys, UidVals(u, snapshot)))
  }

  /** A well-formed slot is read back unchanged; the last value, which the
      reader ignores, does not matter. */
  lemma SlotRoundTrip(slot: UidSlot, last: Option<string>)
    requires SlotWellFormed(slot)
    ensures SlotFromJson(SlotToJson(slot, last)) == SlotTaken(slot)
  {
    var v := SlotVals(slot, last);
    var items := Emit(slot.values, UID_MAX_VALUES, NonEmpty, StringItem);
    assert Distinct(SlotKeys);
    GetFields(SlotKeys, v, 0);
    GetFields(SlotKeys, v, 1);
    GetFields(SlotKeys, v, 2);
    EmitAll(slot.values, UID_MAX_VALUES, NonEmpty, StringItem);
    ValuesOfStrings(items, slot.values);
  }

  /** The slot loop reads back the slots from index `i` on. */
  lemma {:induction false} SlotsRoundTrip(slots: seq<UidSlot>, snapshot: seq<Option<string>>, i: nat)
    requires i <= |slots| <= UID_MAX_SLOTS
    requires forall k :: 0 <= k < |slots| ==> SlotWellFormed(slots[k])
    ensures SlotsFrom(SlotsToJson(slots, snapshot, i), UID_MAX_SLOTS - i) == Some(slots[i..])
    decreases |slots| - i
  {
    if i < |slots| {
      var items := SlotsToJson(slots, snapshot, i);
      var head := SlotToJson(slots[i], LastValue(snapshot, i));
      assert items == [head] + SlotsToJson(slots, snapshot, i + 1);
      assert items[1..] == SlotsToJson(slots, snapshot, i + 1);
      SlotRoundTrip(slots[i], LastValue(snapshot, i));
      SlotsRoundTrip(slots, snapshot, i + 1);
      assert slots[i..] == [slots[i]] + slots[i + 1..];
    }
  }

  /** The members of an exported UID template, read back. */
  lemma UidFields(u: UidTemplate, snapshot: seq<Option<string>>)
    ensures var obj := UidToJson(u, snapshot);
      ArrayOf(Get(obj, "slots")) == Some(SlotsToJson(u.slots, snapshot, 0))
      && Text(obj, "success_topic") == u.successTopic && Text(obj, "success_payload") == u.successPayload
      && Text(obj, "fail_topic") == u.failTopic && Text(obj, "fail_payload") == u.failPayload
      && Text(obj, "success_audio_track") == u.successAudioTrack && Text(obj, "fail_audio_track") == u.failAudioTrack
      && Text(obj, "success_signal_topic") == u.successSignalTopic
      && Text(obj, "success_signal_payload") == u.successSignalPayload
      && Text(obj, "fail_signal_topic") == u.failSignalTopic && Text(obj, "fail_signal_payload") == u.failSignalPayload
  {
    var v := UidVals(u, snapshot);
    assert Distinct(UidKeys);
    GetFields(UidKeys, v, 0);
    GetFields(UidKeys, v, 1);
    GetFields(UidKeys, v, 2);
    GetFields(UidKeys, v, 3);
    GetFields(UidKeys, v, 4);
    GetFields(UidKeys, v, 5);
    GetFields(UidKeys, v, 6);
    GetFields(UidKeys, v, 7);
    GetFields(UidKeys, v, 8);
    GetFields(UidKeys, v, 9);
    GetFields(UidKeys, v, 10);
  }

  /** Reading an exported UID template gives every valid template back,
      whatever the runtime snapshot held. */
  lemma UidRoundTrip(u: UidTemplate, snapshot: seq<Option<string>>)
    requires UidValid(u)
    ensures UidFromJson(Some(UidToJson(u, snapshot))) == Some(u)
  {
    UidFields(u, snapshot);
    SlotsRoundTrip(u.slots, snapshot, 0);
    assert u.slots[0..] == u.slots;
  }

  // ---------------------------------------------------------- dispatch

  /** The member name and the data `template_to_json` writes for a
      template; None for a kind it has no case for. */
  function TemplateData(t: TemplateConfig, snapshot: seq<Option<string>>): (r: Option<(string, Json)>)
    ensures r.None? <==> t.SensorConfig?
    ensures r.Some? ==> r.value.0 != "type"
  {
    match t
    case UidConfig(u) => Some(("uid", UidToJson(u, snapshot)))
    case SignalConfig(g) => Some(("signal", SignalToJson(g)))
    case MqttConfig(m) => Some(("mqtt", MqttToJson(m)))
    case FlagConfig(f) => Some(("flag", FlagToJson(f)))
    case ConditionConfig(c) => Some(("condition", ConditionToJson(c)))
    case IntervalConfig(v) => Some(("interval", IntervalToJson(v)))
    case SequenceConfig(q) => Some(("sequence", SequenceToJson(q)))
    case SensorConfig => None
  }

  /** `template_to_json`: the type name and the kind's data, or nothing
      (the NULL the caller turns into ESP_ERR_NO_MEM) for a kind without a
      case. */
  function TemplateToJson(t: TemplateConfig, snapshot: seq<Option<string>>): (r: Option<Json>)
    ensures r.None? <==> t.SensorConfig?
    ensures r.Some? ==> r.value.JObject?
  {
    match TemplateData(t, snapshot)
    case None => None
    case Some((key, data)) => Some(JObject([Member("type", JString(TypeToString(KindOf(t)))), Member(key, data)]))
  }

  /** The type and the data of an exported template, read back. */
  lemma TemplateHead(t: TemplateConfig, snapshot: seq<Option<string>>)
    requires !t.SensorConfig?
    ensures var obj := TemplateToJson(t, snapshot).value;
      TypeFromString(StringOf(Get(obj, "type"))) == Some(KindOf(t))
      && Get(obj, TemplateData(t, snapshot).value.0) == Some(TemplateData(t, snapshot).value.1)
  {
    var (key, data) := TemplateData(t, snapshot).value;
    var name := TypeToString(KindOf(t));
    GetFirst("type", JString(name), [Member(key, data)]);
    GetSkip("type", JString(name), [Member(key, data)], key);
    GetFirst(key, data, []);
    assert [Member(key, data)] + [] == [Member(key, data)];
    EqualsIgnoreCaseFacts(name, name, name);
    FromToString(KindOf(t), name);
  }

  // Any object whose type names a valid template's kind and whose member
  // of that kind holds the exported data reads back as the template.

  lemma UidReadBack(obj: Json, u: UidTemplate, snapshot: seq<Option<string>>)
    requires UidValid(u) && TypeFromString(StringOf(Get(obj, "type"))) == Some(Uid)
    requires Get(obj, "uid") == Some(UidToJson(u, snapshot))
    ensures TemplateFromJson(obj) == Some(UidConfig(u))
  {
    UidRoundTrip(u, snapshot);
  }

  lemma SignalReadBack(obj: Json, g: SignalTemplate)
    requires SignalValid(g) && TypeFromString(StringOf(Get(obj, "type"))) == Some(SignalHold)
    requires Get(obj, "signal") == Some(SignalToJson(g))
    ensures TemplateFromJson(obj) == Some(SignalConfig(g))
  {
    SignalRoundTrip(g);
  }

  lemma MqttReadBack(obj: Json, m: MqttTemplate)
    requires MqttValid(m) && TypeFromString(StringOf(Get(obj, "type"))) == Some(MqttTrigger)
    requires Get(obj, "mqtt") == Some(MqttToJson(m))
    ensures TemplateFromJson(obj) == Some(MqttConfig(m))
  {
    MqttRoundTrip(m);
  }

  lemma FlagReadBack(obj: Json, f: FlagTemplate)
    requires FlagValid(f) && TypeFromString(StringOf(Get(obj, "type"))) == Some(FlagTrigger)
    requires Get(obj, "flag") == Some(FlagToJson(f))
    ensures TemplateFromJson(obj) == Some(FlagConfig(f))
  {
    FlagRoundTrip(f);
  }

  lemma ConditionReadBack(obj: Json, c: ConditionTemplate)
    requires ConditionValid(c) && TypeFromString(StringOf(Get(obj, "type"))) == Some(IfCondition)
    requires Get(obj, "condition") == Some(ConditionToJson(c))
    ensures TemplateFromJson(obj) == Some(ConditionConfig(c))
  {
    ConditionRoundTrip(c);
  }

  lemma IntervalReadBack(obj: Json, v: IntervalTemplate)
    requires IntervalValid(v) && TypeFromString(StringOf(Get(obj, "type"))) == Some(IntervalTask)
    requires Get(obj, "interval") == Some(IntervalToJson(v))
    ensures TemplateFromJson(obj) == Some(IntervalConfig(v))
  {
    IntervalRoundTrip(v);
  }

  lemma SequenceReadBack(obj: Json, q: SequenceTemplate)
    requires SequenceValid(q) && TypeFromString(StringOf(Get(obj, "type"))) == Some(SequenceLock)
    requires Get(obj, "sequence") == Some(SequenceToJson(q))
    ensures TemplateFromJson(obj) == Some(SequenceConfig(q))
  {
    SequenceRoundTrip(q);
    SequenceParsed(obj, q);
  }

  lemma SequenceParsed(obj: Json, q: SequenceTemplate)
    requires TypeFromString(StringOf(Get(obj, "type"))) == Some(SequenceLock)
    requires SequenceFromJson(Get(obj, "sequence")) == Some(q)
    ensures TemplateFromJson(obj) == Some(SequenceConfig(q))
  {
  }

  /** Reading an exported template gives every valid template back. */
  lemma TemplateRoundTrip(t: TemplateConfig, snapshot: seq<Option<string>>)
    requires TemplateValid(t)
    ensures TemplateToJson(t, snapshot).Some?
    ensures TemplateFromJson(TemplateToJson(t, snapshot).value) == Some(t)
  {
    TemplateHead(t, snapshot);
    var obj := TemplateToJson(t, snapshot).value;
    match t {
      case UidConfig(u) => UidReadBack(obj, u, snapshot);
      case SignalConfig(g) => SignalReadBack(obj, g);
      case MqttConfig(m) => MqttReadBack(obj, m);
      case FlagConfig(f) => FlagReadBack(obj, f);
      case ConditionConfig(c) => ConditionReadBack(obj, c);
      case IntervalConfig(v) => IntervalReadBack(obj, v);
      case SequenceConfig(q) => SequenceReadBack(obj, q);
    }
  }
}
