/** The configuration → JSON half of the device-manager codec
    (`device_manager_export.c`). Each `*_to_json` is a function of the
    struct it serialises; optional members are emitted only when the C code
    emits them (non-empty strings, positive timeouts). The lemmas here show
    that reading an exported value back gives the value again. Printing
    the tree to text is not part of this model. */
module DmExport {
  import opened Common
  import opened Json
  import opened DmTypes
  import opened DmValidate
  import opened TemplateRegistry
  import opened DmTemplates
  import opened DmProfiles
  import opened DmParse

  /** A member present only when `cond` holds. */
  function OptMember(cond: bool, key: string, value: Json): (r: seq<Member>)
    ensures cond ==> r == [Member(key, value)]
    ensures !cond ==> r == []
  {
    if cond then [Member(key, value)] else []
  }

  /** `template_to_json_string`: the member only for a non-empty string. */
  function OptString(key: string, value: string): (r: seq<Member>)
    ensures r == OptMember(value != "", key, JString(value))
  {
    OptMember(value != "", key, JString(value))
  }

  function Num(n: nat): Json { JNumber(n as real) }

  function RequirementToJson(q: FlagRequirement): Json {
    JObject([Member("flag", JString(q.flag)), Member("state", JBool(q.requiredState))])
  }

  function RequirementsToJson(qs: seq<FlagRequirement>): (r: seq<Json>)
    ensures |r| == |qs| && forall i :: 0 <= i < |qs| ==> r[i] == RequirementToJson(qs[i])
  {
    seq(|qs|, i requires 0 <= i < |qs| => RequirementToJson(qs[i]))
  }

  /** The type-specific members of `step_to_json`. */
  function ActionMembers(a: Action): (r: seq<Member>)
    ensures forall m :: m in r ==> m.key != "type" && m.key != "delay_ms"
  {
    match a
    case MqttPublish(topic, payload, qos, retain) =>
      [Member("topic", JString(topic)), Member("payload", JString(payload)),
       Member("qos", Num(qos)), Member("retain", JBool(retain))]
    case AudioPlay(track, blocking) =>
      [Member("track", JString(track)), Member("blocking", JBool(blocking))]
    case SetFlag(flag, value) =>
      [Member("flag", JString(flag)), Member("value", JBool(value))]
    case WaitFlags(mode, reqs, timeout) =>
      [Member("wait", JObject(
        [Member("mode", JString(ConditionToString(mode)))]
        + OptMember(timeout > 0, "timeout_ms", Num(timeout))
        + [Member("requirements", JArray(RequirementsToJson(reqs)))]))]
    case Loop(target, maxIter) =>
      [Member("loop", JObject([Member("target_step", Num(target)), Member("max_iterations", Num(maxIter))]))]
    case EventBus(event, topic, payload) =>
      [Member("event", JString(event))] + OptString("topic", topic) + OptString("payload", payload)
    case _ => []
  }

  /** `step_to_json`: the type name, `delay_ms` only when positive, then the
      type's own members. */
  function StepToJson(s: Step): (r: Json)
    ensures r.JObject? && |r.members| >= 1
    ensures r.members[0] == Member("type", JString(ActionTypeToString(TypeOf(s.action))))
  {
    JObject(StepMembers(s))
  }

  function StepMembers(s: Step): seq<Member> {
    [Member("type", JString(ActionTypeToString(TypeOf(s.action))))]
    + OptMember(s.delayMs > 0, "delay_ms", Num(s.delayMs))
    + ActionMembers(s.action)
  }

  /** The members that precede the type-specific ones. */
  function StepHead(s: Step): (r: seq<Member>)
    ensures forall m :: m in r ==> m.key == "type" || m.key == "delay_ms"
  {
    [Member("type", JString(ActionTypeToString(TypeOf(s.action))))]
    + OptMember(s.delayMs > 0, "delay_ms", Num(s.delayMs))
  }

  /** The type and the delay read back from an exported step. */
  lemma StepHeadRoundTrip(s: Step)
    requires s.delayMs <= UINT32_MAX
    ensures ActionTypeFromString(StringOf(Get(StepToJson(s), "type"))) == Some(TypeOf(s.action))
    ensures NumberToU32(Get(StepToJson(s), "delay_ms"), 0) == s.delayMs
  {
    var name := ActionTypeToString(TypeOf(s.action));
    var rest := OptMember(s.delayMs > 0, "delay_ms", Num(s.delayMs)) + ActionMembers(s.action);
    assert StepMembers(s) == [Member("type", JString(name))] + rest;
    GetFirst("type", JString(name), rest);
    EqualsIgnoreCaseFacts(name, name, name);
    ActionRoundTrip(TypeOf(s.action), name);
    GetSkip("type", JString(name), rest, "delay_ms");
    if s.delayMs > 0 {
      assert rest == [Member("delay_ms", Num(s.delayMs))] + ActionMembers(s.action);
      GetFirst("delay_ms", Num(s.delayMs), ActionMembers(s.action));
      NumberRoundTrip(s.delayMs, 0, 0);
    } else {
      GetAbsent(rest, "delay_ms");
    }
  }

  /** Every step the struct can hold is read back unchanged from its
      export. */
  lemma StepRoundTrip(s: Step)
    requires StepFits(s)
    ensures StepFromJson(StepToJson(s)) == Some(s)
  {
    StepHeadRoundTrip(s);
    assert StepMembers(s) == StepHead(s) + ActionMembers(s.action);
    match s.action {
      case MqttPublish(_, _, _, _) => MqttRoundTrip(s);
      case AudioPlay(_, _) => PairRoundTrip(s);
      case SetFlag(_, _) => PairRoundTrip(s);
      case WaitFlags(_, _, _) => WaitRoundTrip(s);
      case Loop(_, _) => LoopRoundTrip(s);
      case EventBus(_, _, _) => EventRoundTrip(s);
      case _ =>
    }
  }

  lemma MqttRoundTrip(s: Step)
    requires StepFits(s) && s.action.MqttPublish?
    requires StepMembers(s) == StepHead(s) + ActionMembers(s.action)
    requires ActionTypeFromString(StringOf(Get(StepToJson(s), "type"))) == Some(TMqttPublish)
    requires NumberToU32(Get(StepToJson(s), "delay_ms"), 0) == s.delayMs
    ensures StepFromJson(StepToJson(s)) == Some(s)
  {
    MqttStepFields(s.action.topic, s.action.payload, s.action.qos, s.action.retain, StepHead(s));
  }

  lemma PairRoundTrip(s: Step)
    requires StepFits(s) && (s.action.AudioPlay? || s.action.SetFlag?)
    requires StepMembers(s) == StepHead(s) + ActionMembers(s.action)
    requires ActionTypeFromString(StringOf(Get(StepToJson(s), "type"))) == Some(TypeOf(s.action))
    requires NumberToU32(Get(StepToJson(s), "delay_ms"), 0) == s.delayMs
    ensures StepFromJson(StepToJson(s)) == Some(s)
  {
    PairFields(s.action, StepHead(s));
  }

  lemma WaitRoundTrip(s: Step)
    requires StepFits(s) && s.action.WaitFlags?
    requires StepMembers(s) == StepHead(s) + ActionMembers(s.action)
    requires ActionTypeFromString(StringOf(Get(StepToJson(s), "type"))) == Some(TWaitFlags)
    requires NumberToU32(Get(StepToJson(s), "delay_ms"), 0) == s.delayMs
    ensures StepFromJson(StepToJson(s)) == Some(s)
  {
    WaitStepFields(s.action.mode, s.action.requirements, s.action.timeoutMs, StepHead(s));
  }

  lemma LoopRoundTrip(s: Step)
    requires StepFits(s) && s.action.Loop?
    requires StepMembers(s) == StepHead(s) + ActionMembers(s.action)
    requires ActionTypeFromString(StringOf(Get(StepToJson(s), "type"))) == Some(TLoop)
    requires NumberToU32(Get(StepToJson(s), "delay_ms"), 0) == s.delayMs
    ensures StepFromJson(StepToJson(s)) == Some(s)
  {
    LoopStepFields(s.action.targetStep, s.action.maxIterations, StepHead(s));
  }

  lemma EventRoundTrip(s: Step)
    requires StepFits(s) && s.action.EventBus?
    requires StepMembers(s) == StepHead(s) + ActionMembers(s.action)
    requires ActionTypeFromString(StringOf(Get(StepToJson(s), "type"))) == Some(TEventBus)
    requires NumberToU32(Get(StepToJson(s), "delay_ms"), 0) == s.delayMs
    ensures StepFromJson(StepToJson(s)) == Some(s)
  {
    EventStepFields(s.action.event, s.action.topic, s.action.payload, StepHead(s));
  }

  lemma MqttStepFields(topic: string, payload: string, qos: nat, retain: bool, head: seq<Member>)
    requires qos <= UINT8_MAX
    requires forall m :: m in head ==> m.key == "type" || m.key == "delay_ms"
    ensures var o := JObject(head + ActionMembers(MqttPublish(topic, payload, qos, retain)));
      StringOrEmpty(Get(o, "topic")) == topic
      && StringOrEmpty(Get(o, "payload")) == payload
      && NumberToU32(Get(o, "qos"), 0) % 256 == qos
      && BoolOr(Get(o, "retain"), false) == retain
  {
    var fs := ActionMembers(MqttPublish(topic, payload, qos, retain));
    GetField(head, fs, 0);
    GetField(head, fs, 1);
    GetField(head, fs, 2);
    NumberRoundTrip(qos, 0, 0);
    LowByte(qos);
    GetField(head, fs, 3);
  }

  /** The two members of an audio or set-flag step. */
  lemma PairFields(a: Action, head: seq<Member>)
    requires a.AudioPlay? || a.SetFlag?
    requires forall m :: m in head ==> m.key == "type" || m.key == "delay_ms"
    ensures var o := JObject(head + ActionMembers(a));
      a.AudioPlay? ==> StringOrEmpty(Get(o, "track")) == a.track && BoolOr(Get(o, "blocking"), false) == a.blocking
    ensures var o := JObject(head + ActionMembers(a));
      a.SetFlag? ==> StringOrEmpty(Get(o, "flag")) == a.flag && BoolOr(Get(o, "value"), false) == a.value
  {
    GetField(head, ActionMembers(a), 0);
    GetField(head, ActionMembers(a), 1);
  }

  lemma LowByte(x: nat)
    requires x <= UINT8_MAX
    ensures x % 256 == x
  {
  }

  /** A wait requirement is read back from its export. */
  lemma RequirementRoundTrip(q: FlagRequirement)
    ensures RequirementFromJson(RequirementToJson(q)) == Some(q)
  {
    var fs := [Member("flag", JString(q.flag)), Member("state", JBool(q.requiredState))];
    GetField([], fs, 0);
    GetField([], fs, 1);
    assert [] + fs == fs;
  }

  /** The members of an exported wait object. */
  function WaitMembers(mode: ConditionMode, reqs: seq<FlagRequirement>, timeout: nat): seq<Member> {
    [Member("mode", JString(ConditionToString(mode)))]
    + OptMember(timeout > 0, "timeout_ms", Num(timeout))
    + [Member("requirements", JArray(RequirementsToJson(reqs)))]
  }

  lemma WaitStepFields(mode: ConditionMode, reqs: seq<FlagRequirement>, timeout: nat, head: seq<Member>)
    requires timeout <= UINT32_MAX && |reqs| <= MAX_FLAG_RULES
    requires forall m :: m in head ==> m.key == "type" || m.key == "delay_ms"
    ensures var w := Get(JObject(head + ActionMembers(WaitFlags(mode, reqs, timeout))), "wait");
      w == Some(JObject(WaitMembers(mode, reqs, timeout)))
      && ModeOrAll(Get(w.value, "mode")) == mode
      && NumberToU32(Get(w.value, "timeout_ms"), 0) == timeout
      && ArrayOf(Get(w.value, "requirements")) == Some(RequirementsToJson(reqs))
      && Collect(RequirementsToJson(reqs), MAX_FLAG_RULES, RequirementFromJson) == reqs
  {
    var wms := WaitMembers(mode, reqs, timeout);
    GetField(head, ActionMembers(WaitFlags(mode, reqs, timeout)), 0);
    WaitObjectFields(mode, reqs, timeout);
    var items := RequirementsToJson(reqs);
    forall i | 0 <= i < |items| ensures RequirementFromJson(items[i]) == Some(reqs[i]) {
      RequirementRoundTrip(reqs[i]);
    }
    CollectAll(items, MAX_FLAG_RULES, RequirementFromJson, reqs);
  }

  lemma WaitObjectFields(mode: ConditionMode, reqs: seq<FlagRequirement>, timeout: nat)
    requires timeout <= UINT32_MAX
    ensures var w := JObject(WaitMembers(mode, reqs, timeout));
      ModeOrAll(Get(w, "mode")) == mode
      && NumberToU32(Get(w, "timeout_ms"), 0) == timeout
      && ArrayOf(Get(w, "requirements")) == Some(RequirementsToJson(reqs))
  {
    var modeName := ConditionToString(mode);
    var tail := [Member("requirements", JArray(RequirementsToJson(reqs)))];
    var rest := OptMember(timeout > 0, "timeout_ms", Num(timeout)) + tail;
    assert WaitMembers(mode, reqs, timeout) == [Member("mode", JString(modeName))] + rest;
    GetFirst("mode", JString(modeName), rest);
    EqualsIgnoreCaseFacts(modeName, modeName, modeName);
    ConditionRoundTrip(mode, modeName);
    GetSkip("mode", JString(modeName), rest, "timeout_ms");
    GetSkip("mode", JString(modeName), rest, "requirements");
    if timeout > 0 {
      assert rest == [Member("timeout_ms", Num(timeout))] + tail;
      GetFirst("timeout_ms", Num(timeout), tail);
      GetSkip("timeout_ms", Num(timeout), tail, "requirements");
      NumberRoundTrip(timeout, 0, 0);
    } else {
      assert rest == tail;
      GetAbsent(tail, "timeout_ms");
    }
    GetFirst("requirements", JArray(RequirementsToJson(reqs)), []);
    assert tail == [Member("requirements", JArray(RequirementsToJson(reqs)))] + [];
  }

  lemma LoopStepFields(target: nat, maxIter: nat, head: seq<Member>)
    requires target <= UINT16_MAX && maxIter <= UINT16_MAX
    requires forall m :: m in head ==> m.key == "type" || m.key == "delay_ms"
    ensures var l := Get(JObject(head + ActionMembers(Loop(target, maxIter))), "loop");
      l.Some? && l.value.JObject?
      && NumberToU16(Get(l.value, "target_step"), 0) == target
      && NumberToU16(Get(l.value, "max_iterations"), 0) == maxIter
  {
    var lms := [Member("target_step", Num(target)), Member("max_iterations", Num(maxIter))];
    GetField(head, ActionMembers(Loop(target, maxIter)), 0);
    GetField([], lms, 0);
    GetField([], lms, 1);
    assert [] + lms == lms;
    NumberRoundTrip(target, 0, 0);
    NumberRoundTrip(maxIter, 0, 0);
  }

  lemma EventStepFields(event: string, topic: string, payload: string, head: seq<Member>)
    requires forall m :: m in head ==> m.key == "type" || m.key == "delay_ms"
    ensures var o := JObject(head + ActionMembers(EventBus(event, topic, payload)));
      StringOrEmpty(Get(o, "event")) == event
      && StringOrEmpty(Get(o, "topic")) == topic
      && StringOrEmpty(Get(o, "payload")) == payload
  {
    var ev := [Member("event", JString(event))];
    var ot, op := OptString("topic", topic), OptString("payload", payload);
    assert head + ActionMembers(EventBus(event, topic, payload)) == head + (ev + (ot + op));
    assert head + (ev + (ot + op)) == (head + ev) + (ot + op);
    GetAfter(head, ev + (ot + op), "event");
    GetFirst("event", JString(event), ot + op);
    GetAfter(head + ev, ot + op, "topic");
    GetAfter(head + ev, ot + op, "payload");
    if topic != "" {
      GetFirst("topic", JString(topic), op);
      GetSkip("topic", JString(topic), op, "payload");
    } else {
      assert ot + op == op;
      GetAbsent(op, "topic");
    }
    if payload != "" {
      GetFirst("payload", JString(payload), []);
      assert op == [Member("payload", JString(payload))] + [];
    } else {
      GetAbsent(op, "payload");
    }
  }
}
