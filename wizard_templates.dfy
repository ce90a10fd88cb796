/** The device templates of the configuration wizard (`devices_wizard.js`,
    assembled from wizard/wizard_04_helpers.js): the default settings of the
    seven template types, the `ensure*Template` repairs and
    `setDeviceTemplate`. A device is an object whose `template` holds a
    `type` and, under a key of its own per type, the settings. */
module WizardTemplates {
  import opened Common
  import opened JsValue

  /** The template types `setDeviceTemplate` accepts. */
  const TemplateTypes: seq<string> :=
    ["uid_validator", "signal_hold", "on_mqtt_event", "on_flag", "if_condition", "interval_task", "sequence_lock"]

  /** Where a template type keeps its settings inside `dev.template`. */
  function SettingsKey(kind: string): string {
    match kind
    case "uid_validator" => "uid"
    case "signal_hold" => "signal"
    case "on_mqtt_event" => "mqtt"
    case "on_flag" => "flag"
    case "if_condition" => "condition"
    case "interval_task" => "interval"
    case "sequence_lock" => "sequence"
    case _ => ""
  }

  /** The uid result actions, which must be strings. */
  const UidResultKeys: set<string> :=
    {"success_topic", "success_payload", "success_audio_track", "fail_topic", "fail_payload", "fail_audio_track"}
  /** The uid activation fields the bundle adds, kept when truthy. */
  const UidActivationKeys: set<string> := {"start_topic", "start_payload", "broadcast_topic", "broadcast_payload"}
  /** The text settings of a signal-hold template (with the bundle's `reset_topic`). */
  const SignalTextKeys: set<string> :=
    {"signal_topic", "signal_payload_on", "signal_payload_off", "heartbeat_topic", "reset_topic", "hold_track",
     "complete_track"}
  /** The sequence-lock result actions, which must be strings. */
  const SequenceResultKeys: set<string> :=
    {"success_topic", "success_payload", "success_audio_track", "success_scenario", "fail_topic", "fail_payload",
     "fail_audio_track", "fail_scenario"}

  function Blank(keys: set<string>): map<string, Value> {
    map k | k in keys :: EmptyString
  }

  /** `defaultUidTemplate()`. */
  const DefaultUid: Value := Obj(Blank(UidActivationKeys + UidResultKeys)["slots" := List([])])
  /** `defaultSignalTemplate()`. */
  const DefaultSignal: Value :=
    Obj(Blank(SignalTextKeys)["signal_on_ms" := Num(0)]["required_hold_ms" := Num(0)]
                             ["heartbeat_timeout_ms" := Num(0)]["hold_track_loop" := Bool(false)])
  /** `defaultMqttTemplate()` and `defaultFlagTemplate()`. */
  const DefaultRules: Value := Obj(map["rules" := List([])])
  /** `defaultConditionTemplate()`. */
  const DefaultCondition: Value :=
    Obj(map["mode" := Str("all"), "rules" := List([]), "true_scenario" := EmptyString, "false_scenario" := EmptyString])
  /** `defaultIntervalTemplate()`. */
  const DefaultInterval: Value := Obj(map["interval_ms" := Num(1000), "scenario" := EmptyString])
  /** `defaultSequenceTemplate()`. */
  const DefaultSequence: Value :=
    Obj(Blank(SequenceResultKeys)["steps" := List([])]["timeout_ms" := Num(0)]["reset_on_error" := Bool(true)])

  function DefaultSettings(kind: string): Value {
    match kind
    case "uid_validator" => DefaultUid
    case "signal_hold" => DefaultSignal
    case "on_mqtt_event" => DefaultRules
    case "on_flag" => DefaultRules
    case "if_condition" => DefaultCondition
    case "interval_task" => DefaultInterval
    case "sequence_lock" => DefaultSequence
    case _ => Undefined
  }

  /** The template the wizard installs for a type: `{type, <key>: default}`. */
  function FreshTemplate(kind: string): Value {
    Obj(map["type" := Str(kind), SettingsKey(kind) := DefaultSettings(kind)])
  }

  // ----- writing several keys -----

  /** Stores every entry of `f` into an object or array; a primitive ignores it. */
  function PutAll(v: Value, f: map<string, Value>): Value {
    match v
    case Obj(m) => Obj(m + f)
    case Arr(items, m) => Arr(items, m + f)
    case _ => v
  }

  lemma GetPutAll(v: Value, f: map<string, Value>)
    ensures forall k :: Get(PutAll(v, f), k) == if IsObjectLike(v) && k in f then f[k] else Get(v, k)
    ensures IsObjectLike(PutAll(v, f)) == IsObjectLike(v)
  {
  }

  /** `GetPutAll` at one key, without a quantifier to instantiate. */
  lemma GetPutAllAt(v: Value, f: map<string, Value>, k: string)
    ensures Get(PutAll(v, f), k) == if IsObjectLike(v) && k in f then f[k] else Get(v, k)
  {
  }

  /** `keys.forEach(k => { obj[k] = obj[k] || '' })`. */
  function FillText(v: Value, keys: set<string>): Value {
    PutAll(v, map k | k in keys :: TextOr(Get(v, k)))
  }

  /** `keys.forEach(k => { if (typeof obj[k] !== 'string') obj[k] = '' })`. */
  function FillStrings(v: Value, keys: set<string>): Value {
    PutAll(v, map k | k in keys :: StringOnly(Get(v, k)))
  }

  /** What `x || ''` leaves: a truthy value or the empty string. */
  predicate IsText(v: Value) { Truthy(v) || v == EmptyString }

  // ----- the per-element repairs of the forEach loops -----

  /** Applies a repair that may throw to every element, as `forEach` does;
      the first element that throws ends the loop. */
  function MapAll(xs: seq<Value>, f: Value -> Completion<Value>): (r: Completion<seq<Value>>)
    ensures r.Done? <==> forall i :: 0 <= i < |xs| ==> f(xs[i]).Done?
    ensures r.Done? ==> |r.value| == |xs| && forall i :: 0 <= i < |xs| ==> r.value[i] == f(xs[i]).value
  {
    if xs == [] then Done([])
    else match f(xs[0])
      case Threw => Threw
      case Done(x) =>
        match MapAll(xs[1..], f)
        case Threw => Threw
        case Done(rest) => Done([x] + rest)
  }

  /** The body of the uid `slots.forEach`. */
  function FixUidSlot(slot: Value): (r: Completion<Value>)
    ensures r.Threw? <==> Nullish(slot)
    ensures r.Done? && IsObjectLike(slot) ==>
              IsObjectLike(r.value) && IsText(Get(r.value, "source_id")) && IsText(Get(r.value, "label"))
              && Get(r.value, "values").Arr?
    ensures r.Done? && IsObjectLike(slot) && Get(slot, "values").Arr? ==> Get(r.value, "values") == Get(slot, "values")
    ensures r.Done? && !IsObjectLike(slot) ==> r.value == slot
  {
    if Nullish(slot) then Threw
    else
      var s1 := Put(slot, "source_id", TextOr(Get(slot, "source_id")));
      var s2 := Put(s1, "label", TextOr(Get(s1, "label")));
      Done(if Get(s2, "values").Arr? then s2 else Put(s2, "values", List([])))
  }

  /** The body of the `on_mqtt_event` `rules.forEach`. */
  function FixMqttRule(rule: Value): (r: Completion<Value>)
    ensures r.Threw? <==> Nullish(rule)
    ensures r.Done? && IsObjectLike(rule) ==>
              IsText(Get(r.value, "name")) && IsText(Get(r.value, "topic")) && IsText(Get(r.value, "payload"))
              && IsText(Get(r.value, "scenario"))
              && Get(r.value, "payload_required") == Bool(Truthy(Get(rule, "payload_required")))
    ensures r.Done? && !IsObjectLike(rule) ==> r.value == rule
  {
    if Nullish(rule) then Threw
    else
      var f := MqttRuleFix(rule);
      GetPutAllAt(rule, f, "name");
      GetPutAllAt(rule, f, "topic");
      GetPutAllAt(rule, f, "payload");
      GetPutAllAt(rule, f, "scenario");
      GetPutAllAt(rule, f, "payload_required");
      Done(PutAll(rule, f))
  }

  /** `required_state !== undefined ? !!required_state : true`. */
  function StateOrTrue(v: Value): Value { if v.Undefined? then Bool(true) else AsBool(v) }

  /** The body of the `on_flag` `rules.forEach`: a missing `required_state`
      becomes true, a present one is coerced to a boolean. */
  function FixFlagRule(rule: Value): (r: Completion<Value>)
    ensures r.Threw? <==> Nullish(rule)
    ensures r.Done? && IsObjectLike(rule) ==>
              IsText(Get(r.value, "name")) && IsText(Get(r.value, "flag")) && IsText(Get(r.value, "scenario"))
              && Get(r.value, "required_state") ==
                   (if Get(rule, "required_state").Undefined? then Bool(true)
                    else Bool(Truthy(Get(rule, "required_state"))))
    ensures r.Done? && !IsObjectLike(rule) ==> r.value == rule
  {
    if Nullish(rule) then Threw
    else
      var f := FlagRuleFix(rule);
      GetPutAll(rule, f);
      Done(PutAll(rule, f))
  }

  /** The body of the `if_condition` `rules.forEach`: only a missing
      `required_state` is set (to true); a present one is left as it is. */
  function FixConditionRule(rule: Value): (r: Completion<Value>)
    ensures r.Threw? <==> Nullish(rule)
    ensures r.Done? && IsObjectLike(rule) ==>
              IsText(Get(r.value, "flag"))
              && Get(r.value, "required_state") ==
                   (if Get(rule, "required_state").Undefined? then Bool(true) else Get(rule, "required_state"))
    ensures r.Done? && !IsObjectLike(rule) ==> r.value == rule
  {
    if Nullish(rule) then Threw
    else
      var r1 := Put(rule, "flag", TextOr(Get(rule, "flag")));
      Done(if Get(r1, "required_state").Undefined? then Put(r1, "required_state", Bool(true)) else r1)
  }

  /** The text fields of a sequence-lock step. */
  const StepTextKeys: set<string> := {"topic", "payload", "hint_topic", "hint_payload", "hint_audio_track"}

  lemma GetFillText(v: Value, keys: set<string>)
    ensures forall k :: Get(FillText(v, keys), k) == if IsObjectLike(v) && k in keys then TextOr(Get(v, k)) else Get(v, k)
    ensures IsObjectLike(FillText(v, keys)) == IsObjectLike(v)
  {
    GetPutAll(v, map k | k in keys :: TextOr(Get(v, k)));
  }

  /** The body of the `sequence_lock` `steps.forEach`. */
  function FixSequenceStep(step: Value): (r: Completion<Value>)
    ensures r.Threw? <==> Nullish(step)
    ensures r.Done? && IsObjectLike(step) ==>
              (forall k :: k in StepTextKeys ==> IsText(Get(r.value, k)))
              && Get(r.value, "payload_required") == Bool(Truthy(Get(step, "payload_required")))
    ensures r.Done? && !IsObjectLike(step) ==> r.value == step
  {
    if Nullish(step) then Threw
    else
      var s := FillText(step, StepTextKeys);
      var v := Put(s, "payload_required", AsBool(Get(step, "payload_required")));
      GetFillText(step, StepTextKeys);
      GetPut(s, "payload_required", AsBool(Get(step, "payload_required")));
      assert "payload_required" !in StepTextKeys;
      assert IsObjectLike(step) ==> forall k :: k in StepTextKeys ==> Get(v, k) == TextOr(Get(step, k));
      Done(v)
  }

  // ----- the settings repairs besides the list -----

  function Same(s: Value): Value { s }

  /** The uid result actions become strings, the activation fields text. */
  function UidFields(s: Value): Value {
    FillText(FillStrings(s, UidResultKeys), UidActivationKeys)
  }

  /** `mode === 'any' ? 'any' : 'all'`. */
  function ModeOf(v: Value): Value { if v == Str("any") then v else Str("all") }

  function ConditionFields(s: Value): Value {
    FillText(Put(s, "mode", ModeOf(Get(s, "mode"))), {"true_scenario", "false_scenario"})
  }

  function SequenceFields(s: Value): Value {
    var s1 := Put(s, "timeout_ms", Or(Get(s, "timeout_ms"), Num(0)));
    var s2 := if Get(s1, "reset_on_error").Undefined? then Put(s1, "reset_on_error", Bool(true)) else s1;
    FillStrings(s2, SequenceResultKeys)
  }

  // ----- ensure*Template -----

  /** The guard of every repair: `dev && dev.template && dev.template.type === kind`. */
  predicate HasTemplate(dev: Value, kind: string) {
    Truthy(dev) && Truthy(Get(dev, "template")) && Get(Get(dev, "template"), "type") == Str(kind)
  }

  /** The settings a repair starts from: the present ones, or the default
      when they are falsy. */
  function SettingsOf(dev: Value, kind: string): Value {
    Or(Get(Get(dev, "template"), SettingsKey(kind)), DefaultSettings(kind))
  }

  /** The shape shared by the repairs that own a list: install the default
      when the settings are falsy, replace a non-array list by `[]`, repair
      each element, then the other fields. `list.forEach` on a settings
      value that is a primitive throws. */
  function Repair(dev: Value, kind: string, listKey: string, fix: Value -> Completion<Value>,
                  fields: Value -> Value): Completion<Value>
  {
    if !HasTemplate(dev, kind) then Done(dev)
    else
      var t := Get(dev, "template");
      var s := SettingsOf(dev, kind);
      var s1 := if Get(s, listKey).Arr? then s else Put(s, listKey, List([]));
      var list := Get(s1, listKey);
      if !list.Arr? then Threw
      else
        match MapAll(list.items, fix)
        case Threw => Threw
        case Done(fixed) => Done(Put(dev, "template", Put(t, SettingsKey(kind), fields(Put(s1, listKey, Arr(fixed, list.named))))))
  }

  /** `ensureUidTemplate` (the bundle's, with the activation fields). */
  function EnsureUid(dev: Value): Completion<Value> {
    Repair(dev, "uid_validator", "slots", FixUidSlot, UidFields)
  }

  /** `ensureMqttTemplate`. */
  function EnsureMqtt(dev: Value): Completion<Value> {
    Repair(dev, "on_mqtt_event", "rules", FixMqttRule, Same)
  }

  /** `ensureFlagTemplate`. */
  function EnsureFlag(dev: Value): Completion<Value> {
    Repair(dev, "on_flag", "rules", FixFlagRule, Same)
  }

  /** `ensureConditionTemplate`. */
  function EnsureCondition(dev: Value): Completion<Value> {
    Repair(dev, "if_condition", "rules", FixConditionRule, ConditionFields)
  }

  /** `ensureSequenceTemplate`. */
  function EnsureSequence(dev: Value): Completion<Value> {
    Repair(dev, "sequence_lock", "steps", FixSequenceStep, SequenceFields)
  }

  /** `ensureSignalTemplate` (the bundle's, with `reset_topic`). */
  function EnsureSignal(dev: Value): Value {
    if !HasTemplate(dev, "signal_hold") then dev
    else
      Put(dev, "template", Put(Get(dev, "template"), "signal", SignalFix(SettingsOf(dev, "signal_hold"))))
  }

  /** The settings repair of `ensureSignalTemplate`. */
  function SignalFix(s0: Value): Value {
    var s := FillText(s0, SignalTextKeys);
    PutAll(s, SignalNumbers(s))
  }

  /** The entries the signal-hold repair writes besides the text. */
  function SignalNumbers(s: Value): map<string, Value> {
    map["required_hold_ms" := Or(Get(s, "required_hold_ms"), Num(0)),
        "heartbeat_timeout_ms" := Or(Get(s, "heartbeat_timeout_ms"), Num(0)),
        "hold_track_loop" := AsBool(Get(s, "hold_track_loop")),
        "signal_on_ms" := Or(Get(s, "signal_on_ms"), Num(0))]
  }

  /** `ensureIntervalTemplate`: a non-number period becomes 1000 ms. */
  function EnsureInterval(dev: Value): Value {
    if !HasTemplate(dev, "interval_task") then dev
    else
      Put(dev, "template", Put(Get(dev, "template"), "interval", IntervalFix(SettingsOf(dev, "interval_task"))))
  }

  /** The settings repair of `ensureIntervalTemplate`. */
  function IntervalFix(s: Value): Value {
    var s1 := if Get(s, "interval_ms").Num? then s else Put(s, "interval_ms", Num(1000));
    Put(s1, "scenario", TextOr(Get(s1, "scenario")))
  }

  /** The repair `setDeviceTemplate` runs for a type. */
  function EnsureFor(kind: string, dev: Value): Completion<Value> {
    match kind
    case "uid_validator" => EnsureUid(dev)
    case "signal_hold" => Done(EnsureSignal(dev))
    case "on_mqtt_event" => EnsureMqtt(dev)
    case "on_flag" => EnsureFlag(dev)
    case "if_condition" => EnsureCondition(dev)
    case "interval_task" => Done(EnsureInterval(dev))
    case "sequence_lock" => EnsureSequence(dev)
    case _ => Done(dev)
  }

  /** `setDeviceTemplate(dev, type)` on a device object: an unknown type
      clears the template; a known one installs a fresh default unless the
      device already has a template of that type, then repairs it. */
  function SetDeviceTemplate(dev: Value, kind: string): Completion<Value> {
    if !Truthy(dev) then Done(dev)
    else if kind !in TemplateTypes then Done(Put(dev, "template", Null))
    else
      var t := Get(dev, "template");
      var d1 := if !Truthy(t) || Get(t, "type") != Str(kind) then Put(dev, "template", FreshTemplate(kind)) else dev;
      EnsureFor(kind, d1)
  }

  // ----- properties -----

  /** A repair that owns a list throws exactly when the settings are a
      primitive or the list holds `null`/`undefined`; otherwise the device
      keeps every other property and its template type, and the list becomes
      an array of the repaired elements, in order. */
  lemma RepairResult(dev: Value, kind: string, listKey: string, fix: Value -> Completion<Value>,
                     fields: Value -> Value)
    requires HasTemplate(dev, kind) && kind in TemplateTypes
    requires forall x :: fix(x).Threw? <==> Nullish(x)
    requires forall x :: Get(fields(x), listKey) == Get(x, listKey)
    ensures var s := SettingsOf(dev, kind);
            var xs := ItemsOf(Get(s, listKey));
            var r := Repair(dev, kind, listKey, fix, fields);
            (r.Done? <==> IsObjectLike(s) && forall i :: 0 <= i < |xs| ==> !Nullish(xs[i]))
            && (r.Done? ==>
                  (forall k :: k != "template" ==> Get(r.value, k) == Get(dev, k))
                  && Get(Get(r.value, "template"), "type") == Str(kind)
                  && var ys := Get(Get(Get(r.value, "template"), SettingsKey(kind)), listKey);
                     ys.Arr? && |ys.items| == |xs| && forall i :: 0 <= i < |xs| ==> ys.items[i] == fix(xs[i]).value)
  {
    var t := Get(dev, "template");
    var s := SettingsOf(dev, kind);
    var s1 := if Get(s, listKey).Arr? then s else Put(s, listKey, List([]));
    var list := Get(s1, listKey);
    var xs := ItemsOf(Get(s, listKey));
    GetPut(s, listKey, List([]));
    if IsObjectLike(s) {
      assert list.Arr? && list.items == xs;
      var m := MapAll(list.items, fix);
      if m.Done? {
        var s2 := Put(s1, listKey, Arr(m.value, list.named));
        GetPut(s1, listKey, Arr(m.value, list.named));
        assert Get(fields(s2), listKey) == Arr(m.value, list.named);
        GetPut(t, SettingsKey(kind), fields(s2));
        GetPut(dev, "template", Put(t, SettingsKey(kind), fields(s2)));
      }
    }
  }

  lemma FillStringsKeeps(v: Value, keys: set<string>)
    requires IsObjectLike(v) && forall k :: k in keys ==> Get(v, k).Str?
    ensures FillStrings(v, keys) == v
  {
    var f := map k | k in keys :: StringOnly(Get(v, k));
    match v
    case Obj(m) => assert m + f == m;
    case Arr(items, m) => assert m + f == m;
  }

  lemma FillTextKeeps(v: Value, keys: set<string>)
    requires IsObjectLike(v) && forall k :: k in keys ==> IsText(Get(v, k))
    ensures FillText(v, keys) == v
  {
    var f := map k | k in keys :: TextOr(Get(v, k));
    match v
    case Obj(m) => assert m + f == m;
    case Arr(items, m) => assert m + f == m;
  }

  lemma GetFillStrings(v: Value, keys: set<string>)
    ensures forall k :: Get(FillStrings(v, keys), k) == if IsObjectLike(v) && k in keys then StringOnly(Get(v, k)) else Get(v, k)
    ensures IsObjectLike(FillStrings(v, keys)) == IsObjectLike(v)
  {
    GetPutAll(v, map k | k in keys :: StringOnly(Get(v, k)));
  }

  /** After the uid field repair the result actions are strings and the
      activation fields text. */
  lemma UidFieldsShape(x: Value)
    requires IsObjectLike(x)
    ensures var z := UidFields(x);
            IsObjectLike(z) && (forall k :: k in UidResultKeys ==> Get(z, k).Str?)
            && forall k :: k in UidActivationKeys ==> IsText(Get(z, k))
  {
    var y := FillStrings(x, UidResultKeys);
    GetFillStrings(x, UidResultKeys);
    GetFillText(y, UidActivationKeys);
    UidKeysApart();
  }

  lemma UidKeysApart()
    ensures UidResultKeys !! UidActivationKeys
  {
  }


  lemma UidFieldsIdempotent(x: Value)
    requires IsObjectLike(x)
    ensures UidFields(UidFields(x)) == UidFields(x)
  {
    var z := UidFields(x);
    UidFieldsShape(x);
    FillStringsKeeps(z, UidResultKeys);
    FillTextKeeps(z, UidActivationKeys);
  }


  lemma ConditionFieldsIdempotent(x: Value)
    requires IsObjectLike(x)
    ensures ConditionFields(ConditionFields(x)) == ConditionFields(x)
  {
    var y := Put(x, "mode", ModeOf(Get(x, "mode")));
    GetPut(x, "mode", ModeOf(Get(x, "mode")));
    GetFillText(y, {"true_scenario", "false_scenario"});
    var z := ConditionFields(x);
    PutOfGet(z, "mode");
    FillTextKeeps(z, {"true_scenario", "false_scenario"});
  }

  lemma FillStringsFacts(v: Value, keys: set<string>)
    requires IsObjectLike(v)
    ensures IsObjectLike(FillStrings(v, keys))
    ensures forall k :: k in keys ==> Get(FillStrings(v, keys), k).Str?
    ensures forall k :: k !in keys ==> Get(FillStrings(v, keys), k) == Get(v, k)
  {
    GetFillStrings(v, keys);
  }

  /** The fields the sequence-lock repair sets besides the result
      actions are not among them. */
  lemma SequenceKeysApart()
    ensures "timeout_ms" !in SequenceResultKeys && "reset_on_error" !in SequenceResultKeys
    ensures "steps" !in SequenceResultKeys
  {
  }

  lemma SequenceFieldsIdempotent(x: Value)
    requires IsObjectLike(x)
    ensures SequenceFields(SequenceFields(x)) == SequenceFields(x)
  {
    var t := Or(Get(x, "timeout_ms"), Num(0));
    var s1 := Put(x, "timeout_ms", t);
    var s2 := if Get(s1, "reset_on_error").Undefined? then Put(s1, "reset_on_error", Bool(true)) else s1;
    assert IsObjectLike(s2) && Get(s2, "timeout_ms") == t && !Get(s2, "reset_on_error").Undefined?;
    var z := FillStrings(s2, SequenceResultKeys);
    SequenceKeysApart();
    FillStringsFacts(s2, SequenceResultKeys);
    assert Get(z, "timeout_ms") == t && Or(t, Num(0)) == t;
    PutOfGet(z, "timeout_ms");
    FillStringsKeeps(z, SequenceResultKeys);
  }

  lemma {:induction false} MapAllKeeps(xs: seq<Value>, f: Value -> Completion<Value>)
    requires forall i :: 0 <= i < |xs| ==> f(xs[i]) == Done(xs[i])
    ensures MapAll(xs, f) == Done(xs)
  {
    if xs != [] {
      MapAllKeeps(xs[1..], f);
      assert [xs[0]] + xs[1..] == xs;
    }
  }

  lemma FixUidSlotIdempotent(x: Value)
    requires FixUidSlot(x).Done?
    ensures FixUidSlot(FixUidSlot(x).value) == FixUidSlot(x)
  {
    if IsObjectLike(x) {
      var y := FixUidSlot(x).value;
      PutOfGet(y, "source_id");
      PutOfGet(y, "label");
    }
  }

  lemma PutAllKeeps(v: Value, f: map<string, Value>)
    requires IsObjectLike(v) && forall k :: k in f ==> Get(v, k) == f[k] && !f[k].Undefined?
    ensures PutAll(v, f) == v
  {
    match v
    case Obj(m) => assert m + f == m;
    case Arr(items, m) => assert m + f == m;
  }

  lemma PutAllTwice(v: Value, f: map<string, Value>)
    ensures PutAll(PutAll(v, f), f) == PutAll(v, f)
  {
    match v
    case Obj(m) => assert m + f + f == m + f;
    case Arr(items, m) => assert m + f + f == m + f;
    case _ =>
  }

  /** The entries the `on_mqtt_event` rule repair writes. */
  function MqttRuleFix(rule: Value): map<string, Value> {
    map["name" := TextOr(Get(rule, "name")), "topic" := TextOr(Get(rule, "topic")),
        "payload" := TextOr(Get(rule, "payload")), "scenario" := TextOr(Get(rule, "scenario")),
        "payload_required" := AsBool(Get(rule, "payload_required"))]
  }

  lemma FixMqttRuleIdempotent(x: Value)
    requires FixMqttRule(x).Done?
    ensures FixMqttRule(FixMqttRule(x).value) == FixMqttRule(x)
  {
    if IsObjectLike(x) {
      var f := MqttRuleFix(x);
      var y := PutAll(x, f);
      assert FixMqttRule(x).value == y;
      PutAllAt(x, f, "name");
      PutAllAt(x, f, "topic");
      PutAllAt(x, f, "payload");
      PutAllAt(x, f, "scenario");
      PutAllAt(x, f, "payload_required");
      assert MqttRuleFix(y) == f;
      PutAllTwice(x, f);
    }
  }

  /** The entries the `on_flag` rule repair writes. */
  function FlagRuleFix(rule: Value): map<string, Value> {
    map["name" := TextOr(Get(rule, "name")), "flag" := TextOr(Get(rule, "flag")),
        "scenario" := TextOr(Get(rule, "scenario")),
        "required_state" := StateOrTrue(Get(rule, "required_state"))]
  }

  lemma FixFlagRuleIdempotent(x: Value)
    requires FixFlagRule(x).Done?
    ensures FixFlagRule(FixFlagRule(x).value) == FixFlagRule(x)
  {
    if IsObjectLike(x) {
      var f := FlagRuleFix(x);
      var y := PutAll(x, f);
      assert FixFlagRule(x).value == y;
      PutAllAt(x, f, "name");
      PutAllAt(x, f, "flag");
      PutAllAt(x, f, "scenario");
      PutAllAt(x, f, "required_state");
      assert FlagRuleFix(y) == f;
      PutAllTwice(x, f);
    }
  }

  /** One stored entry read back. */
  lemma PutAllAt(v: Value, f: map<string, Value>, k: string)
    requires IsObjectLike(v) && k in f
    ensures Get(PutAll(v, f), k) == f[k]
  {
  }

  lemma FixConditionRuleIdempotent(x: Value)
    requires FixConditionRule(x).Done?
    ensures FixConditionRule(FixConditionRule(x).value) == FixConditionRule(x)
  {
    if IsObjectLike(x) {
      var y := FixConditionRule(x).value;
      PutOfGet(y, "flag");
    }
  }

  lemma FixSequenceStepIdempotent(x: Value)
    requires FixSequenceStep(x).Done?
    ensures FixSequenceStep(FixSequenceStep(x).value) == FixSequenceStep(x)
  {
    if IsObjectLike(x) {
      var y := FixSequenceStep(x).value;
      GetFillText(x, StepTextKeys);
      GetPut(FillText(x, StepTextKeys), "payload_required", AsBool(Get(x, "payload_required")));
      assert IsObjectLike(y);
      FillTextKeeps(y, StepTextKeys);
      PutOfGet(y, "payload_required");
    }
  }

  /** What a fields repair must do for the repair that owns a list to be
      idempotent: keep objects objects, leave the list alone and settle
      after one application. */
  predicate FieldsRepair(fields: Value -> Value, listKey: string, x: Value) {
    IsObjectLike(x) ==>
      IsObjectLike(fields(x)) && Get(fields(x), listKey) == Get(x, listKey) && fields(fields(x)) == fields(x)
  }

  /** The settings a successful repair stores, and what they hold. */
  lemma RepairSettled(dev: Value, kind: string, listKey: string, fix: Value -> Completion<Value>,
                      fields: Value -> Value)
    requires kind in TemplateTypes && SettingsKey(kind) != "type"
    requires forall x :: fix(x).Threw? <==> Nullish(x)
    requires forall x :: FieldsRepair(fields, listKey, x)
    requires HasTemplate(dev, kind) && Repair(dev, kind, listKey, fix, fields).Done?
    ensures var s := SettingsOf(dev, kind);
            var s1 := if Get(s, listKey).Arr? then s else Put(s, listKey, List([]));
            var list := Get(s1, listKey);
            IsObjectLike(s) && list.Arr? && MapAll(list.items, fix).Done?
            && var f := fields(Put(s1, listKey, Arr(MapAll(list.items, fix).value, list.named)));
               IsObjectLike(f) && fields(f) == f
               && Get(f, listKey) == Arr(MapAll(list.items, fix).value, list.named)
               && Repair(dev, kind, listKey, fix, fields)
                    == Done(Put(dev, "template", Put(Get(dev, "template"), SettingsKey(kind), f)))
  {
    var s := SettingsOf(dev, kind);
    var s1 := if Get(s, listKey).Arr? then s else Put(s, listKey, List([]));
    GetPut(s, listKey, List([]));
    var list := Get(s1, listKey);
    var fixed := MapAll(list.items, fix).value;
    var s2 := Put(s1, listKey, Arr(fixed, list.named));
    GetPut(s1, listKey, Arr(fixed, list.named));
    assert FieldsRepair(fields, listKey, s2);
  }

  /** A repair that owns a list settles after one call: when its element and
      field repairs settle, a second call returns the device unchanged. */
  lemma RepairIdempotent(dev: Value, kind: string, listKey: string, fix: Value -> Completion<Value>,
                         fields: Value -> Value)
    requires kind in TemplateTypes && SettingsKey(kind) != "type"
    requires forall x :: fix(x).Threw? <==> Nullish(x)
    requires forall x :: fix(x).Done? ==> fix(fix(x).value) == fix(x)
    requires forall x :: FieldsRepair(fields, listKey, x)
    requires Repair(dev, kind, listKey, fix, fields).Done?
    ensures var r := Repair(dev, kind, listKey, fix, fields).value;
            Repair(r, kind, listKey, fix, fields) == Done(r)
  {
    if HasTemplate(dev, kind) {
      var key := SettingsKey(kind);
      var t := Get(dev, "template");
      RepairSettled(dev, kind, listKey, fix, fields);
      var s := SettingsOf(dev, kind);
      var s1 := if Get(s, listKey).Arr? then s else Put(s, listKey, List([]));
      var list := Get(s1, listKey);
      var fixed := MapAll(list.items, fix).value;
      var f := fields(Put(s1, listKey, Arr(fixed, list.named)));
      var t1 := Put(t, key, f);
      var d1 := Put(dev, "template", t1);
      GetPut(t, key, f);
      GetPut(dev, "template", t1);
      assert HasTemplate(d1, kind);
      assert SettingsOf(d1, kind) == f;
      forall i | 0 <= i < |fixed| ensures fix(fixed[i]) == Done(fixed[i]) {
        assert fixed[i] == fix(list.items[i]).value;
      }
      MapAllKeeps(fixed, fix);
      PutOfGet(f, listKey);
      PutOver(t, key, f, f);
      PutOver(dev, "template", t1, t1);
      assert Repair(d1, kind, listKey, fix, fields) == Done(Put(d1, "template", Put(t1, key, fields(f))));
    }
  }

  lemma UidFieldsRepair(x: Value)
    ensures FieldsRepair(UidFields, "slots", x)
  {
    if IsObjectLike(x) {
      UidFieldsKeepSlots(x);
      UidFieldsIdempotent(x);
    }
  }

  lemma UidFieldsKeepSlots(x: Value)
    requires IsObjectLike(x)
    ensures IsObjectLike(UidFields(x)) && Get(UidFields(x), "slots") == Get(x, "slots")
  {
    var y := FillStrings(x, UidResultKeys);
    SlotsNotAUidField();
    FillStringsFacts(x, UidResultKeys);
    assert Get(y, "slots") == Get(x, "slots");
    GetFillText(y, UidActivationKeys);
  }

  lemma SlotsNotAUidField()
    ensures "slots" !in UidResultKeys && "slots" !in UidActivationKeys
  {
  }

  lemma ConditionFieldsRepair(x: Value)
    ensures FieldsRepair(ConditionFields, "rules", x)
  {
    if IsObjectLike(x) {
      var y := Put(x, "mode", ModeOf(Get(x, "mode")));
      GetPut(x, "mode", ModeOf(Get(x, "mode")));
      assert Get(y, "rules") == Get(x, "rules");
      var z := FillText(y, {"true_scenario", "false_scenario"});
      GetFillText(y, {"true_scenario", "false_scenario"});
      assert "rules" !in {"true_scenario", "false_scenario"};
      assert Get(z, "rules") == Get(y, "rules");
      ConditionFieldsIdempotent(x);
    }
  }

  lemma SequenceFieldsRepair(x: Value)
    ensures FieldsRepair(SequenceFields, "steps", x)
  {
    if IsObjectLike(x) {
      var s1 := Put(x, "timeout_ms", Or(Get(x, "timeout_ms"), Num(0)));
      var s2 := if Get(s1, "reset_on_error").Undefined? then Put(s1, "reset_on_error", Bool(true)) else s1;
      assert IsObjectLike(s2) && Get(s2, "steps") == Get(x, "steps");
      FillStringsFacts(s2, SequenceResultKeys);
      SequenceKeysApart();
      SequenceFieldsIdempotent(x);
    }
  }

  /** `ensureUidTemplate` settles: a second call changes nothing. */
  lemma EnsureUidIdempotent(dev: Value)
    requires EnsureUid(dev).Done?
    ensures EnsureUid(EnsureUid(dev).value) == EnsureUid(dev)
  {
    forall x ensures FixUidSlot(x).Done? ==> FixUidSlot(FixUidSlot(x).value) == FixUidSlot(x) {
      if FixUidSlot(x).Done? { FixUidSlotIdempotent(x); }
    }
    forall x ensures FieldsRepair(UidFields, "slots", x) { UidFieldsRepair(x); }
    RepairIdempotent(dev, "uid_validator", "slots", FixUidSlot, UidFields);
  }

  /** `ensureMqttTemplate` settles. */
  lemma EnsureMqttIdempotent(dev: Value)
    requires EnsureMqtt(dev).Done?
    ensures EnsureMqtt(EnsureMqtt(dev).value) == EnsureMqtt(dev)
  {
    forall x ensures FixMqttRule(x).Done? ==> FixMqttRule(FixMqttRule(x).value) == FixMqttRule(x) {
      if FixMqttRule(x).Done? { FixMqttRuleIdempotent(x); }
    }
    RepairIdempotent(dev, "on_mqtt_event", "rules", FixMqttRule, Same);
  }

  /** `ensureFlagTemplate` settles. */
  lemma EnsureFlagIdempotent(dev: Value)
    requires EnsureFlag(dev).Done?
    ensures EnsureFlag(EnsureFlag(dev).value) == EnsureFlag(dev)
  {
    forall x ensures FixFlagRule(x).Done? ==> FixFlagRule(FixFlagRule(x).value) == FixFlagRule(x) {
      if FixFlagRule(x).Done? { FixFlagRuleIdempotent(x); }
    }
    RepairIdempotent(dev, "on_flag", "rules", FixFlagRule, Same);
  }

  /** `ensureConditionTemplate` settles. */
  lemma EnsureConditionIdempotent(dev: Value)
    requires EnsureCondition(dev).Done?
    ensures EnsureCondition(EnsureCondition(dev).value) == EnsureCondition(dev)
  {
    forall x ensures FixConditionRule(x).Done? ==> FixConditionRule(FixConditionRule(x).value) == FixConditionRule(x) {
      if FixConditionRule(x).Done? { FixConditionRuleIdempotent(x); }
    }
    forall x ensures FieldsRepair(ConditionFields, "rules", x) { ConditionFieldsRepair(x); }
    RepairIdempotent(dev, "if_condition", "rules", FixConditionRule, ConditionFields);
  }

  /** `ensureSequenceTemplate` settles. */
  lemma EnsureSequenceIdempotent(dev: Value)
    requires EnsureSequence(dev).Done?
    ensures EnsureSequence(EnsureSequence(dev).value) == EnsureSequence(dev)
  {
    forall x ensures FixSequenceStep(x).Done? ==> FixSequenceStep(FixSequenceStep(x).value) == FixSequenceStep(x) {
      if FixSequenceStep(x).Done? { FixSequenceStepIdempotent(x); }
    }
    forall x ensures FieldsRepair(SequenceFields, "steps", x) { SequenceFieldsRepair(x); }
    RepairIdempotent(dev, "sequence_lock", "steps", FixSequenceStep, SequenceFields);
  }

  /** The settings of one type inside a device. */
  function SettingsIn(dev: Value, kind: string): Value {
    Get(Get(dev, "template"), SettingsKey(kind))
  }

  lemma ConditionFieldsMode(x: Value)
    requires IsObjectLike(x)
    ensures Get(ConditionFields(x), "mode") == ModeOf(Get(x, "mode"))
  {
    var y := Put(x, "mode", ModeOf(Get(x, "mode")));
    GetPut(x, "mode", ModeOf(Get(x, "mode")));
    GetFillText(y, {"true_scenario", "false_scenario"});
    assert "mode" !in {"true_scenario", "false_scenario"};
  }

  /** The settings a successful repair leaves in the device. */
  lemma RepairStores(dev: Value, kind: string, f: Value)
    requires HasTemplate(dev, kind) && kind in TemplateTypes
    ensures SettingsIn(Put(dev, "template", Put(Get(dev, "template"), SettingsKey(kind), f)), kind) == f
  {
    var t := Get(dev, "template");
    GetPut(t, SettingsKey(kind), f);
    GetPut(dev, "template", Put(t, SettingsKey(kind), f));
  }

  /** After `ensureConditionTemplate` the mode is "any" exactly when it was
      the string "any" before, and "all" otherwise. */
  lemma EnsureConditionMode(dev: Value)
    requires HasTemplate(dev, "if_condition") && EnsureCondition(dev).Done?
    ensures Get(SettingsIn(EnsureCondition(dev).value, "if_condition"), "mode")
              == if Get(SettingsOf(dev, "if_condition"), "mode") == Str("any") then Str("any") else Str("all")
  {
    forall x ensures FieldsRepair(ConditionFields, "rules", x) { ConditionFieldsRepair(x); }
    RepairSettled(dev, "if_condition", "rules", FixConditionRule, ConditionFields);
    var s := SettingsOf(dev, "if_condition");
    var s1 := if Get(s, "rules").Arr? then s else Put(s, "rules", List([]));
    var list := Get(s1, "rules");
    var s2 := Put(s1, "rules", Arr(MapAll(list.items, FixConditionRule).value, list.named));
    GetPut(s, "rules", List([]));
    GetPut(s1, "rules", Arr(MapAll(list.items, FixConditionRule).value, list.named));
    assert Get(s2, "mode") == Get(s, "mode");
    ConditionFieldsMode(s2);
    RepairStores(dev, "if_condition", ConditionFields(s2));
  }

  /** The device a repair writes settings `f` into. */
  function WithSettings(dev: Value, kind: string, f: Value): Value {
    Put(dev, "template", Put(Get(dev, "template"), SettingsKey(kind), f))
  }

  /** Writing settings back keeps the template's type and its settings are
      then `f`. */
  lemma WithSettingsFacts(dev: Value, kind: string, f: Value)
    requires HasTemplate(dev, kind) && kind in TemplateTypes && IsObjectLike(Get(dev, "template"))
    ensures HasTemplate(WithSettings(dev, kind, f), kind)
    ensures SettingsIn(WithSettings(dev, kind, f), kind) == f
    ensures IsObjectLike(Get(WithSettings(dev, kind, f), "template"))
    ensures forall k :: k != "template" ==> Get(WithSettings(dev, kind, f), k) == Get(dev, k)
    ensures WithSettings(WithSettings(dev, kind, f), kind, f) == WithSettings(dev, kind, f)
  {
    var t := Get(dev, "template");
    GetPut(t, SettingsKey(kind), f);
    GetPut(dev, "template", Put(t, SettingsKey(kind), f));
    PutOver(t, SettingsKey(kind), f, f);
    PutOver(dev, "template", Put(t, SettingsKey(kind), f), Put(t, SettingsKey(kind), f));
  }

  /** The numeric entries and the text keys of a signal-hold template are apart. */
  lemma SignalKeysApart(s: Value)
    ensures forall k :: k in SignalNumbers(s) ==> k !in SignalTextKeys
  {
  }

  /** The signal-hold settings repair: text settings are text, the three
      durations are the old ones or 0 when those were falsy, the loop flag is
      a boolean. */
  lemma SignalFixFields(s0: Value)
    requires IsObjectLike(s0)
    ensures var s := SignalFix(s0);
            IsObjectLike(s)
            && (forall k :: k in SignalTextKeys ==> Get(s, k) == TextOr(Get(s0, k)))
            && Get(s, "required_hold_ms") == Or(Get(s0, "required_hold_ms"), Num(0))
            && Get(s, "heartbeat_timeout_ms") == Or(Get(s0, "heartbeat_timeout_ms"), Num(0))
            && Get(s, "signal_on_ms") == Or(Get(s0, "signal_on_ms"), Num(0))
            && Get(s, "hold_track_loop") == Bool(Truthy(Get(s0, "hold_track_loop")))
  {
    SignalFixText(s0);
    SignalFixNumbers(s0);
  }

  lemma SignalFixText(s0: Value)
    requires IsObjectLike(s0)
    ensures IsObjectLike(SignalFix(s0))
    ensures forall k :: k in SignalTextKeys ==> Get(SignalFix(s0), k) == TextOr(Get(s0, k))
  {
    var s := FillText(s0, SignalTextKeys);
    GetFillText(s0, SignalTextKeys);
    SignalKeysApart(s);
    GetPutAll(s, SignalNumbers(s));
  }

  lemma SignalFixNumbers(s0: Value)
    requires IsObjectLike(s0)
    ensures var s := SignalFix(s0);
            Get(s, "required_hold_ms") == Or(Get(s0, "required_hold_ms"), Num(0))
            && Get(s, "heartbeat_timeout_ms") == Or(Get(s0, "heartbeat_timeout_ms"), Num(0))
            && Get(s, "signal_on_ms") == Or(Get(s0, "signal_on_ms"), Num(0))
            && Get(s, "hold_track_loop") == Bool(Truthy(Get(s0, "hold_track_loop")))
  {
    var s := FillText(s0, SignalTextKeys);
    var f := SignalNumbers(s);
    SignalNumberKeysApart();
    FillTextOutside(s0, SignalTextKeys, "required_hold_ms");
    FillTextOutside(s0, SignalTextKeys, "heartbeat_timeout_ms");
    FillTextOutside(s0, SignalTextKeys, "signal_on_ms");
    FillTextOutside(s0, SignalTextKeys, "hold_track_loop");
    PutAllAt(s, f, "required_hold_ms");
    PutAllAt(s, f, "heartbeat_timeout_ms");
    PutAllAt(s, f, "signal_on_ms");
    PutAllAt(s, f, "hold_track_loop");
  }

  /** The numbers the signal-hold repair writes are not among its text
      fields. */
  lemma SignalNumberKeysApart()
    ensures "required_hold_ms" !in SignalTextKeys && "heartbeat_timeout_ms" !in SignalTextKeys
    ensures "signal_on_ms" !in SignalTextKeys && "hold_track_loop" !in SignalTextKeys
  {
  }

  lemma SignalNumbersSettle(s0: Value)
    requires IsObjectLike(s0)
    ensures SignalNumbers(SignalFix(s0)) == SignalNumbers(FillText(s0, SignalTextKeys))
  {
    var a := FillText(s0, SignalTextKeys);
    var b := SignalFix(s0);
    SignalFixNumbers(s0);
    SignalNumberKeysApart();
    FillTextOutside(s0, SignalTextKeys, "required_hold_ms");
    FillTextOutside(s0, SignalTextKeys, "heartbeat_timeout_ms");
    FillTextOutside(s0, SignalTextKeys, "signal_on_ms");
    FillTextOutside(s0, SignalTextKeys, "hold_track_loop");
    assert Or(Get(b, "required_hold_ms"), Num(0)) == Or(Get(a, "required_hold_ms"), Num(0));
    assert Or(Get(b, "heartbeat_timeout_ms"), Num(0)) == Or(Get(a, "heartbeat_timeout_ms"), Num(0));
    assert Or(Get(b, "signal_on_ms"), Num(0)) == Or(Get(a, "signal_on_ms"), Num(0));
    assert AsBool(Get(b, "hold_track_loop")) == AsBool(Get(a, "hold_track_loop"));
    SignalNumbersAgree(b, a);
  }

  /** Two settings with the same repaired periods and loop flag get the
      same numbers. */
  lemma SignalNumbersAgree(u: Value, v: Value)
    requires Or(Get(u, "required_hold_ms"), Num(0)) == Or(Get(v, "required_hold_ms"), Num(0))
    requires Or(Get(u, "heartbeat_timeout_ms"), Num(0)) == Or(Get(v, "heartbeat_timeout_ms"), Num(0))
    requires Or(Get(u, "signal_on_ms"), Num(0)) == Or(Get(v, "signal_on_ms"), Num(0))
    requires AsBool(Get(u, "hold_track_loop")) == AsBool(Get(v, "hold_track_loop"))
    ensures SignalNumbers(u) == SignalNumbers(v)
  {
  }


  lemma FillTextOutside(v: Value, keys: set<string>, k: string)
    requires k !in keys
    ensures Get(FillText(v, keys), k) == Get(v, k)
  {
    GetFillText(v, keys);
  }

  lemma SignalFixIdempotent(s0: Value)
    ensures SignalFix(SignalFix(s0)) == SignalFix(s0)
  {
    var s := FillText(s0, SignalTextKeys);
    var f := SignalNumbers(s);
    var s1 := PutAll(s, f);
    if IsObjectLike(s0) {
      SignalFixText(s0);
      FillTextKeeps(s1, SignalTextKeys);
      SignalNumbersSettle(s0);
      PutAllTwice(s, f);
    } else {
      GetFillText(s0, SignalTextKeys);
    }
  }

  /** `ensureSignalTemplate` stores the repaired settings. */
  lemma EnsureSignalStores(dev: Value)
    requires HasTemplate(dev, "signal_hold")
    ensures SettingsIn(EnsureSignal(dev), "signal_hold") == SignalFix(SettingsOf(dev, "signal_hold"))
  {
    RepairStores(dev, "signal_hold", SignalFix(SettingsOf(dev, "signal_hold")));
  }

  /** `ensureSignalTemplate` settles. */
  lemma EnsureSignalIdempotent(dev: Value)
    ensures EnsureSignal(EnsureSignal(dev)) == EnsureSignal(dev)
  {
    if HasTemplate(dev, "signal_hold") {
      var t := Get(dev, "template");
      var s0 := SettingsOf(dev, "signal_hold");
      var s1 := SignalFix(s0);
      var d1 := EnsureSignal(dev);
      GetPut(t, "signal", s1);
      GetPut(dev, "template", Put(t, "signal", s1));
      assert HasTemplate(d1, "signal_hold");
      assert Get(Get(d1, "template"), "signal") == s1;
      if IsObjectLike(s0) {
        SignalFixFields(s0);
      } else {
        GetFillText(s0, SignalTextKeys);
        assert s1 == s0;
      }
      assert Truthy(s1);
      assert SettingsOf(d1, "signal_hold") == s1;
      SignalFixIdempotent(s0);
      PutOver(t, "signal", s1, s1);
      PutOver(dev, "template", Put(t, "signal", s1), Put(t, "signal", s1));
    }
  }

  /** After `ensureIntervalTemplate` a numeric period is kept and any other
      becomes 1000 ms; the scenario is text. */
  lemma EnsureIntervalFields(dev: Value)
    requires HasTemplate(dev, "interval_task") && IsObjectLike(SettingsOf(dev, "interval_task"))
    ensures var s0 := SettingsOf(dev, "interval_task");
            var s := SettingsIn(EnsureInterval(dev), "interval_task");
            Get(s, "interval_ms") == (if Get(s0, "interval_ms").Num? then Get(s0, "interval_ms") else Num(1000))
            && Get(s, "scenario") == TextOr(Get(s0, "scenario"))
  {
    var s0 := SettingsOf(dev, "interval_task");
    var s1 := if Get(s0, "interval_ms").Num? then s0 else Put(s0, "interval_ms", Num(1000));
    GetPut(s0, "interval_ms", Num(1000));
    GetPut(s1, "scenario", TextOr(Get(s1, "scenario")));
    RepairStores(dev, "interval_task", Put(s1, "scenario", TextOr(Get(s1, "scenario"))));
  }

  /** `ensureIntervalTemplate` settles. */
  /** Repairing repaired interval settings changes nothing. */
  lemma IntervalFixSettles(s: Value)
    requires Truthy(s)
    ensures Truthy(IntervalFix(s)) && IntervalFix(IntervalFix(s)) == IntervalFix(s)
  {
    var s1 := if Get(s, "interval_ms").Num? then s else Put(s, "interval_ms", Num(1000));
    var s2 := IntervalFix(s);
    if IsObjectLike(s) {
      GetPut(s, "interval_ms", Num(1000));
      GetPut(s1, "scenario", TextOr(Get(s1, "scenario")));
      assert Get(s2, "interval_ms").Num?;
      PutOfGet(s2, "scenario");
    }
  }

  /** `ensureIntervalTemplate` settles. */
  lemma EnsureIntervalIdempotent(dev: Value)
    ensures EnsureInterval(EnsureInterval(dev)) == EnsureInterval(dev)
  {
    if HasTemplate(dev, "interval_task") {
      var s := SettingsOf(dev, "interval_task");
      var f := IntervalFix(s);
      assert IsObjectLike(Get(dev, "template"));
      WithSettingsFacts(dev, "interval_task", f);
      IntervalFixSettles(s);
      assert EnsureInterval(dev) == WithSettings(dev, "interval_task", f);
      assert SettingsOf(WithSettings(dev, "interval_task", f), "interval_task") == f;
    }
  }

  // ----- setDeviceTemplate -----

  /** A repair that owns a list leaves a device alone when its settings are
      already settled and the list is empty. */
  lemma RepairKeepsSettled(dev: Value, kind: string, listKey: string, fix: Value -> Completion<Value>,
                           fields: Value -> Value)
    requires HasTemplate(dev, kind) && kind in TemplateTypes
    requires IsObjectLike(SettingsIn(dev, kind)) && Get(SettingsIn(dev, kind), listKey) == List([])
    requires fields(SettingsIn(dev, kind)) == SettingsIn(dev, kind)
    ensures Repair(dev, kind, listKey, fix, fields) == Done(dev)
  {
    var t := Get(dev, "template");
    var s := SettingsIn(dev, kind);
    assert SettingsOf(dev, kind) == s;
    assert MapAll([], fix) == Done([]);
    PutOfGet(s, listKey);
    PutOfGet(t, SettingsKey(kind));
    PutOfGet(dev, "template");
  }

  lemma DefaultUidSettled()
    ensures UidFields(DefaultUid) == DefaultUid
  {
    assert "slots" !in UidResultKeys && "slots" !in UidActivationKeys;
    FillStringsKeeps(DefaultUid, UidResultKeys);
    FillTextKeeps(DefaultUid, UidActivationKeys);
  }

  lemma DefaultConditionSettled()
    ensures ConditionFields(DefaultCondition) == DefaultCondition
  {
    PutOfGet(DefaultCondition, "mode");
    FillTextKeeps(DefaultCondition, {"true_scenario", "false_scenario"});
  }

  lemma DefaultSequenceSettled()
    ensures SequenceFields(DefaultSequence) == DefaultSequence
  {
    SequenceKeysApart();
    PutOfGet(DefaultSequence, "timeout_ms");
    FillStringsKeeps(DefaultSequence, SequenceResultKeys);
  }

  lemma DefaultSignalSettled()
    ensures SignalFix(DefaultSignal) == DefaultSignal
  {
    SignalKeysApart(DefaultSignal);
    FillTextKeeps(DefaultSignal, SignalTextKeys);
    PutAllKeeps(DefaultSignal, SignalNumbers(DefaultSignal));
  }

  lemma DefaultIntervalSettled()
    ensures Put(DefaultInterval, "scenario", TextOr(Get(DefaultInterval, "scenario"))) == DefaultInterval
  {
    PutOfGet(DefaultInterval, "scenario");
  }

  lemma FreshInstalled(dev: Value, kind: string)
    requires IsObjectLike(dev) && kind in TemplateTypes
    ensures var d := Put(dev, "template", FreshTemplate(kind));
            HasTemplate(d, kind) && Get(d, "template") == FreshTemplate(kind)
            && SettingsIn(d, kind) == DefaultSettings(kind) && Truthy(DefaultSettings(kind))
  {
    GetPut(dev, "template", FreshTemplate(kind));
    assert SettingsKey(kind) != "type";
  }

  /** The template `setDeviceTemplate` installs is already repaired: its
      repair leaves it exactly as installed. */
  lemma FreshSettled(dev: Value, kind: string)
    requires IsObjectLike(dev) && kind in TemplateTypes
    ensures var d := Put(dev, "template", FreshTemplate(kind));
            HasTemplate(d, kind) && SettingsIn(d, kind) == DefaultSettings(kind) && EnsureFor(kind, d) == Done(d)
  {
    FreshInstalled(dev, kind);
    match kind
    case "uid_validator" => FreshUidSettled(dev);
    case "signal_hold" => FreshSignalSettled(dev);
    case "on_mqtt_event" => FreshMqttSettled(dev);
    case "on_flag" => FreshFlagSettled(dev);
    case "if_condition" => FreshConditionSettled(dev);
    case "interval_task" => FreshIntervalSettled(dev);
    case "sequence_lock" => FreshSequenceSettled(dev);
  }

  lemma FreshUidSettled(dev: Value)
    requires IsObjectLike(dev)
    ensures var d := Put(dev, "template", FreshTemplate("uid_validator")); EnsureFor("uid_validator", d) == Done(d)
  {
    var t := FreshTemplate("uid_validator");
    var d := Put(dev, "template", t);
    FreshInstalled(dev, "uid_validator");
    DefaultUidSettled();
    RepairKeepsSettled(d, "uid_validator", "slots", FixUidSlot, UidFields);
  }

  lemma FreshSignalSettled(dev: Value)
    requires IsObjectLike(dev)
    ensures var d := Put(dev, "template", FreshTemplate("signal_hold")); EnsureFor("signal_hold", d) == Done(d)
  {
    var t := FreshTemplate("signal_hold");
    var d := Put(dev, "template", t);
    FreshInstalled(dev, "signal_hold");
    DefaultSignalSettled();
    PutOfGet(t, "signal");
    PutOfGet(d, "template");
  }

  lemma FreshMqttSettled(dev: Value)
    requires IsObjectLike(dev)
    ensures var d := Put(dev, "template", FreshTemplate("on_mqtt_event")); EnsureFor("on_mqtt_event", d) == Done(d)
  {
    var t := FreshTemplate("on_mqtt_event");
    var d := Put(dev, "template", t);
    FreshInstalled(dev, "on_mqtt_event");
    RepairKeepsSettled(d, "on_mqtt_event", "rules", FixMqttRule, Same);
  }

  lemma FreshFlagSettled(dev: Value)
    requires IsObjectLike(dev)
    ensures var d := Put(dev, "template", FreshTemplate("on_flag")); EnsureFor("on_flag", d) == Done(d)
  {
    var t := FreshTemplate("on_flag");
    var d := Put(dev, "template", t);
    FreshInstalled(dev, "on_flag");
    RepairKeepsSettled(d, "on_flag", "rules", FixFlagRule, Same);
  }

  lemma FreshConditionSettled(dev: Value)
    requires IsObjectLike(dev)
    ensures var d := Put(dev, "template", FreshTemplate("if_condition")); EnsureFor("if_condition", d) == Done(d)
  {
    var t := FreshTemplate("if_condition");
    var d := Put(dev, "template", t);
    FreshInstalled(dev, "if_condition");
    DefaultConditionSettled();
    RepairKeepsSettled(d, "if_condition", "rules", FixConditionRule, ConditionFields);
  }

  lemma FreshIntervalSettled(dev: Value)
    requires IsObjectLike(dev)
    ensures var d := Put(dev, "template", FreshTemplate("interval_task")); EnsureFor("interval_task", d) == Done(d)
  {
    var t := FreshTemplate("interval_task");
    var d := Put(dev, "template", t);
    FreshInstalled(dev, "interval_task");
    DefaultIntervalSettled();
    PutOfGet(t, "interval");
    PutOfGet(d, "template");
  }

  lemma FreshSequenceSettled(dev: Value)
    requires IsObjectLike(dev)
    ensures var d := Put(dev, "template", FreshTemplate("sequence_lock")); EnsureFor("sequence_lock", d) == Done(d)
  {
    var d := Put(dev, "template", FreshTemplate("sequence_lock"));
    FreshInstalled(dev, "sequence_lock");
    SequenceDefaultsKept(d);
    EnsureForSequence(d);
  }

  /** A sequence template holding exactly the default settings needs no repair. */
  lemma SequenceDefaultsKept(d: Value)
    requires HasTemplate(d, "sequence_lock") && SettingsIn(d, "sequence_lock") == DefaultSequence
    ensures Repair(d, "sequence_lock", "steps", FixSequenceStep, SequenceFields) == Done(d)
  {
    DefaultSequenceSettled();
    DefaultSequenceSteps();
    RepairKeepsSettled(d, "sequence_lock", "steps", FixSequenceStep, SequenceFields);
  }

  lemma DefaultSequenceSteps()
    ensures IsObjectLike(DefaultSequence) && Get(DefaultSequence, "steps") == List([])
  {
  }

  lemma EnsureForSequence(d: Value)
    ensures EnsureFor("sequence_lock", d) == EnsureSequence(d)
  {
  }



  /** Every repair settles after one call. */
  lemma EnsureForIdempotent(kind: string, dev: Value)
    requires EnsureFor(kind, dev).Done?
    ensures EnsureFor(kind, EnsureFor(kind, dev).value) == EnsureFor(kind, dev)
  {
    match kind
    case "uid_validator" => EnsureUidIdempotent(dev);
    case "signal_hold" => EnsureSignalIdempotent(dev);
    case "on_mqtt_event" => EnsureMqttIdempotent(dev);
    case "on_flag" => EnsureFlagIdempotent(dev);
    case "if_condition" => EnsureConditionIdempotent(dev);
    case "interval_task" => EnsureIntervalIdempotent(dev);
    case "sequence_lock" => EnsureSequenceIdempotent(dev);
    case _ =>
  }

  lemma RepairKeepsOthers(dev: Value, kind: string, listKey: string, fix: Value -> Completion<Value>,
                          fields: Value -> Value)
    requires kind in TemplateTypes && SettingsKey(kind) != "type"
    requires forall x :: fix(x).Threw? <==> Nullish(x)
    requires forall x :: FieldsRepair(fields, listKey, x)
    requires HasTemplate(dev, kind) && Repair(dev, kind, listKey, fix, fields).Done?
    ensures HasTemplate(Repair(dev, kind, listKey, fix, fields).value, kind)
    ensures forall k :: k != "template" ==> Get(Repair(dev, kind, listKey, fix, fields).value, k) == Get(dev, k)
  {
    RepairSettled(dev, kind, listKey, fix, fields);
    var s := SettingsOf(dev, kind);
    var s1 := if Get(s, listKey).Arr? then s else Put(s, listKey, List([]));
    var list := Get(s1, listKey);
    var f := fields(Put(s1, listKey, Arr(MapAll(list.items, fix).value, list.named)));
    WithSettingsFacts(dev, kind, f);
  }

  /** A repair of a device that has the template keeps the template's type
      and every other property of the device. */
  lemma EnsureForKeeps(kind: string, dev: Value)
    requires kind in TemplateTypes && HasTemplate(dev, kind) && EnsureFor(kind, dev).Done?
    ensures HasTemplate(EnsureFor(kind, dev).value, kind)
    ensures forall k :: k != "template" ==> Get(EnsureFor(kind, dev).value, k) == Get(dev, k)
  {
    match kind
    case "uid_validator" =>
      forall x ensures FieldsRepair(UidFields, "slots", x) { UidFieldsRepair(x); }
      RepairKeepsOthers(dev, kind, "slots", FixUidSlot, UidFields);
    case "signal_hold" =>
      WithSettingsFacts(dev, kind, SignalFix(SettingsOf(dev, kind)));
    case "on_mqtt_event" =>
      RepairKeepsOthers(dev, kind, "rules", FixMqttRule, Same);
    case "on_flag" =>
      RepairKeepsOthers(dev, kind, "rules", FixFlagRule, Same);
    case "if_condition" =>
      forall x ensures FieldsRepair(ConditionFields, "rules", x) { ConditionFieldsRepair(x); }
      RepairKeepsOthers(dev, kind, "rules", FixConditionRule, ConditionFields);
    case "interval_task" =>
      var s0 := SettingsOf(dev, kind);
      var s1 := if Get(s0, "interval_ms").Num? then s0 else Put(s0, "interval_ms", Num(1000));
      WithSettingsFacts(dev, kind, Put(s1, "scenario", TextOr(Get(s1, "scenario"))));
    case "sequence_lock" =>
      forall x ensures FieldsRepair(SequenceFields, "steps", x) { SequenceFieldsRepair(x); }
      RepairKeepsOthers(dev, kind, "steps", FixSequenceStep, SequenceFields);
  }

  /** `setDeviceTemplate` on a device object: a type outside the seven sets
      the template to `null`; the type the device already has keeps its
      template and only repairs it; any other type installs exactly that
      type's default. No other property of the device changes. */
  lemma SetDeviceTemplateCases(dev: Value, kind: string)
    requires IsObjectLike(dev)
    ensures kind !in TemplateTypes ==> SetDeviceTemplate(dev, kind) == Done(Put(dev, "template", Null))
    ensures kind in TemplateTypes && HasTemplate(dev, kind) ==> SetDeviceTemplate(dev, kind) == EnsureFor(kind, dev)
    ensures kind in TemplateTypes && !HasTemplate(dev, kind) ==>
              SetDeviceTemplate(dev, kind) == Done(Put(dev, "template", FreshTemplate(kind)))
              && Get(Put(dev, "template", FreshTemplate(kind)), "template") == FreshTemplate(kind)
    ensures SetDeviceTemplate(dev, kind).Done? ==>
              forall k :: k != "template" ==> Get(SetDeviceTemplate(dev, kind).value, k) == Get(dev, k)
  {
    if kind !in TemplateTypes {
      GetPut(dev, "template", Null);
    } else if HasTemplate(dev, kind) {
      if EnsureFor(kind, dev).Done? { EnsureForKeeps(kind, dev); }
    } else {
      FreshSettled(dev, kind);
      FreshInstalled(dev, kind);
      GetPut(dev, "template", FreshTemplate(kind));
    }
  }

  /** Choosing the same type again changes nothing: the template a first
      choice leaves is kept as it is. */
  lemma SetDeviceTemplateSettles(dev: Value, kind: string)
    requires IsObjectLike(dev) && SetDeviceTemplate(dev, kind).Done?
    ensures SetDeviceTemplate(SetDeviceTemplate(dev, kind).value, kind) == SetDeviceTemplate(dev, kind)
  {
    var r := SetDeviceTemplate(dev, kind).value;
    SetDeviceTemplateCases(dev, kind);
    if kind !in TemplateTypes {
      GetPut(dev, "template", Null);
      PutOver(dev, "template", Null, Null);
      SetDeviceTemplateCases(r, kind);
    } else {
      var d1 := if HasTemplate(dev, kind) then dev else Put(dev, "template", FreshTemplate(kind));
      if !HasTemplate(dev, kind) { FreshInstalled(dev, kind); }
      assert HasTemplate(d1, kind) && EnsureFor(kind, d1) == Done(r);
      EnsureForKeeps(kind, d1);
      EnsureForIdempotent(kind, d1);
      GetPut(dev, "template", FreshTemplate(kind));
      SetDeviceTemplateCases(r, kind);
    }
  }
}
