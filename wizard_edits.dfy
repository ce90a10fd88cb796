/** The template form of the configuration wizard (`devices_wizard.js`):
    the buttons that add and remove uid slots, rules and sequence steps,
    `updateTemplateField`, and the device and scenario field edits. Every
    template handler first runs the type's repair, as the source does, and
    then works on the device the repair left. */
module WizardEdits {
  import opened Common
  import opened JsValue
  import opened WizardTemplates
  import opened EditorOps

  /** `MQTT_RULE_LIMIT`. */
  const MqttRuleLimit: nat := 8
  /** `FLAG_RULE_LIMIT`, which also bounds the condition rules. */
  const FlagRuleLimit: nat := 8
  /** `SEQUENCE_STEP_LIMIT`. */
  const SequenceStepLimit: nat := 8

  /** The template types whose settings own a list. */
  predicate HasList(kind: string) {
    kind in {"uid_validator", "on_mqtt_event", "on_flag", "if_condition", "sequence_lock"}
  }

  /** The key of that list inside the settings. */
  function ListKey(kind: string): string {
    match kind
    case "uid_validator" => "slots"
    case "sequence_lock" => "steps"
    case _ => "rules"
  }

  /** The element each "add" button appends. */
  function NewItem(kind: string): Value {
    match kind
    case "uid_validator" =>
      Obj(map["source_id" := EmptyString, "label" := EmptyString, "values" := List([])])
    case "on_mqtt_event" =>
      Obj(map["name" := EmptyString, "topic" := EmptyString, "payload" := EmptyString,
              "payload_required" := Bool(true), "scenario" := EmptyString])
    case "on_flag" =>
      Obj(map["name" := EmptyString, "flag" := EmptyString, "scenario" := EmptyString, "required_state" := Bool(true)])
    case "if_condition" =>
      Obj(map["flag" := EmptyString, "required_state" := Bool(true)])
    case _ =>
      Obj(map["topic" := EmptyString, "payload" := EmptyString, "payload_required" := Bool(false),
              "hint_topic" := EmptyString, "hint_payload" := EmptyString, "hint_audio_track" := EmptyString])
  }

  /** How many elements a list may hold; the uid slots have no limit. */
  function ListLimit(kind: string): Option<nat> {
    match kind
    case "uid_validator" => None
    case "on_mqtt_event" => Some(MqttRuleLimit)
    case "sequence_lock" => Some(SequenceStepLimit)
    case _ => Some(FlagRuleLimit)
  }

  /** `list.length >= LIMIT`. */
  predicate Full(list: Value, limit: Option<nat>) {
    limit.Some? && LengthOf(list).Num? && LengthOf(list).n >= limit.value
  }

  // ----- adding and removing list elements -----

  /** `addTemplateSlot`, `addMqttRule`, `addFlagRule`, `addConditionRule`
      and `addSequenceStep`: nothing unless the device has a template of
      the type; then the repair runs and, below the limit, the new element
      is pushed. */
  function AddListItem(dev: Value, kind: string): Completion<Edited> {
    if !HasTemplate(dev, kind) then Kept(dev)
    else
      match EnsureFor(kind, dev)
      case Threw => Threw
      case Done(d) => AppendItem(d, kind)
  }

  /** The part of an "add" handler after the repair. */
  function AppendItem(d: Value, kind: string): Completion<Edited> {
    var s := SettingsIn(d, kind);
    var list := Get(s, ListKey(kind));
    if Full(list, ListLimit(kind)) then Kept(d)
    else
      match Push(list, NewItem(kind))
      case Threw => Threw
      case Done(l1) => Marked(WithSettings(d, kind, Put(s, ListKey(kind), l1)))
  }

  /** `removeTemplateSlot`, `removeMqttRule`, `removeFlagRule`,
      `removeConditionRule` and `removeSequenceStep`: nothing unless the
      device has a template of the type; after the repair a `NaN` index
      (and, for uid slots only, a negative one) changes nothing more;
      otherwise the element at the index is spliced out. */
  function RemoveListItem(dev: Value, kind: string, idx: Option<int>): Completion<Edited> {
    if !HasTemplate(dev, kind) then Kept(dev)
    else
      match EnsureFor(kind, dev)
      case Threw => Threw
      case Done(d) => RemoveItem(d, kind, idx)
  }

  /** The part of a "remove" handler after the repair. */
  function RemoveItem(d: Value, kind: string, idx: Option<int>): Completion<Edited> {
    if idx.None? || (kind == "uid_validator" && idx.value < 0) then Kept(d)
    else
      var s := SettingsIn(d, kind);
      var list := Get(s, ListKey(kind));
      if !list.Arr? then Threw
      else Marked(WithSettings(d, kind, Put(s, ListKey(kind), Arr(SpliceOut(list.items, idx), list.named))))
  }

  // ----- updateTemplateField -----

  /** The values of `data-template-field` the form uses, and any other. */
  datatype Field =
    | TypeField | UidSlot | UidValues | UidAction | UidActivation | Signal | MqttRule | FlagRule
    | ConditionMode | ConditionScenario | ConditionRule | IntervalField | SequenceStep | SequenceField
    | OtherField

  /** The field an attribute value names. */
  function FieldNamed(name: string): Field {
    match name
    case "type" => TypeField
    case "uid-slot" => UidSlot
    case "uid-values" => UidValues
    case "uid-action" => UidAction
    case "uid-activation" => UidActivation
    case "signal" => Signal
    case "mqtt-rule" => MqttRule
    case "flag-rule" => FlagRule
    case "condition-mode" => ConditionMode
    case "condition-scenario" => ConditionScenario
    case "condition-rule" => ConditionRule
    case "interval" => IntervalField
    case "sequence-step" => SequenceStep
    case "sequence" => SequenceField
    case _ => OtherField
  }

  /** What an input of the template form carries: the field its
      `data-template-field` names, `data-subfield`, the parsed `data-index`,
      the value, and whether it is a checkbox and checked. */
  datatype Input = Input(field: Field, sub: string, index: Option<int>, text: string, checkbox: bool, checked: bool)

  /** `el.type === 'checkbox' ? el.checked : el.value === 'true'`. */
  function CheckedValue(input: Input): Value {
    Bool(if input.checkbox then input.checked else input.text == "true")
  }

  /** Edits the settings of a type: nothing when they are falsy. */
  function EditSettings(d: Value, kind: string, edit: Value -> Value): Completion<Edited> {
    var s := SettingsIn(d, kind);
    if !Truthy(s) then Kept(d) else Marked(WithSettings(d, kind, edit(s)))
  }

  /** Edits the element at an index of the settings' list: nothing when the
      settings are falsy, the index is `NaN` or the element is falsy;
      indexing a missing list throws. */
  function EditListItem(d: Value, kind: string, idx: Option<int>, edit: Value -> Value): Completion<Edited> {
    var s := SettingsIn(d, kind);
    if !Truthy(s) || idx.None? then Kept(d)
    else
      var list := Get(s, ListKey(kind));
      if Nullish(list) then Threw
      else
        var item := Element(list, idx.value);
        if !Truthy(item) then Kept(d)
        else Marked(WithSettings(d, kind, Put(s, ListKey(kind), SetElement(list, idx.value, edit(item)))))
  }

  /** The allowed values of a uid slot as typed:
      `text.split(',').map(v => v.trim()).filter(Boolean)`. Every value is
      a non-empty string without a comma or white space at either end. */
  function SlotValues(text: string): (r: seq<Value>)
    ensures forall i :: 0 <= i < |r| ==> r[i].Str? && CleanValue(r[i].s)
  {
    TrimmedParts(Split(text, ','))
  }

  /** A value the uid values field keeps as typed. */
  predicate CleanValue(s: string) {
    s != [] && ',' !in s && !IsJsSpace(s[0]) && !IsJsSpace(s[|s| - 1])
  }

  /** The non-empty trimmed parts, in order. */
  function TrimmedParts(parts: seq<string>): (r: seq<Value>)
    requires forall i :: 0 <= i < |parts| ==> ',' !in parts[i]
    ensures forall i :: 0 <= i < |r| ==> r[i].Str? && CleanValue(r[i].s)
  {
    if parts == [] then []
    else
      var t := Trim(parts[0]);
      (if t == [] then [] else [Str(t)]) + TrimmedParts(parts[1..])
  }

  /** The period an interval input stores: 1000 for `NaN`, otherwise the
      number, but at least 1. */
  function IntervalInput(text: string): (r: int)
    ensures r >= 1
    ensures ParseInt(text).None? ==> r == 1000
    ensures ParseInt(text).Some? ==> r == Max(ParseInt(text).value, 1)
  {
    match ParseInt(text)
    case None => 1000
    case Some(v) => Max(v, 1)
  }

  /** The timeout a sequence input stores: 0 for `NaN`, otherwise the
      number, but at least 0. */
  function TimeoutInput(text: string): (r: int)
    ensures r >= 0
    ensures ParseInt(text).None? ==> r == 0
    ensures ParseInt(text).Some? ==> r == Max(ParseInt(text).value, 0)
  {
    match ParseInt(text)
    case None => 0
    case Some(v) => Max(v, 0)
  }

  /** The value a signal-hold input stores: the two periods as integers
      (`parseInt(value) || 0`), the loop flag as whether the text is
      "true", anything else as the text. */
  function SignalValue(sub: string, text: string): (r: Value)
    ensures sub in {"required_hold_ms", "heartbeat_timeout_ms"} ==> r.Num? && r.n == ToInt(Str(text))
    ensures sub == "hold_track_loop" ==> r == Bool(text == "true")
    ensures sub !in {"required_hold_ms", "heartbeat_timeout_ms", "hold_track_loop"} ==> r == Str(text)
  {
    if sub == "required_hold_ms" || sub == "heartbeat_timeout_ms" then Num(ToInt(Str(text)))
    else if sub == "hold_track_loop" then Bool(text == "true")
    else Str(text)
  }

  /** A rule of `on_flag` or `if_condition`: `state` stores whether the text
      is "true" as `required_state`, any other field the text. */
  function RuleEdit(input: Input): Value -> Value {
    rule => if input.sub == "state" then Put(rule, "required_state", Bool(input.text == "true"))
            else Put(rule, input.sub, Str(input.text))
  }

  /** An MQTT rule or a sequence step: `payload_required` stores the
      checkbox, any other field the text. */
  function PayloadEdit(input: Input): Value -> Value {
    item => if input.sub == "payload_required" then Put(item, "payload_required", CheckedValue(input))
            else Put(item, input.sub, Str(input.text))
  }

  /** The interval settings: `interval_ms` stores the clamped period,
      `scenario` the text; another field changes nothing. */
  function IntervalEdit(input: Input): Value -> Value {
    s => if input.sub == "interval_ms" then Put(s, "interval_ms", Num(IntervalInput(input.text)))
         else if input.sub == "scenario" then Put(s, "scenario", Str(input.text))
         else s
  }

  /** The sequence settings: `timeout_ms` stores the clamped timeout,
      `reset_on_error` the checkbox, any other field the text. */
  function SequenceEdit(input: Input): Value -> Value {
    s => if input.sub == "timeout_ms" then Put(s, "timeout_ms", Num(TimeoutInput(input.text)))
         else if input.sub == "reset_on_error" then Put(s, "reset_on_error", CheckedValue(input))
         else Put(s, input.sub, Str(input.text))
  }

  /** The condition settings' scenario fields: `true` and `false` pick
      `true_scenario` and `false_scenario`. */
  function ScenarioEdit(input: Input): Value -> Value {
    s => if input.sub == "true" then Put(s, "true_scenario", Str(input.text))
         else if input.sub == "false" then Put(s, "false_scenario", Str(input.text))
         else s
  }

  /** The template type whose repair a field of the form runs first; ""
      for `type` and for a field the form does not have. */
  function FieldKind(field: Field): (kind: string)
    ensures kind != "" ==> kind in TemplateTypes
  {
    match field
    case UidSlot => "uid_validator"
    case UidValues => "uid_validator"
    case UidAction => "uid_validator"
    case UidActivation => "uid_validator"
    case Signal => "signal_hold"
    case MqttRule => "on_mqtt_event"
    case FlagRule => "on_flag"
    case ConditionMode => "if_condition"
    case ConditionScenario => "if_condition"
    case ConditionRule => "if_condition"
    case IntervalField => "interval_task"
    case SequenceStep => "sequence_lock"
    case SequenceField => "sequence_lock"
    case _ => ""
  }

  /** The fields that edit one element of the type's list. */
  predicate IsItemField(field: Field) {
    field.UidSlot? || field.UidValues? || field.MqttRule? || field.FlagRule? || field.ConditionRule? || field.SequenceStep?
  }

  /** What a field that edits a list element does to the element. */
  function ItemEdit(input: Input): Value -> Value {
    match input.field
    case UidSlot => slot => Put(slot, input.sub, Str(input.text))
    case UidValues => slot => Put(slot, "values", List(SlotValues(input.text)))
    case FlagRule => RuleEdit(input)
    case ConditionRule => RuleEdit(input)
    case _ => PayloadEdit(input)
  }

  /** What a field that edits the settings does to them. */
  function SettingsEdit(input: Input): Value -> Value {
    match input.field
    case Signal => s => Put(s, input.sub, SignalValue(input.sub, input.text))
    case ConditionMode => s => Put(s, "mode", Str(if input.text == "any" then "any" else "all"))
    case ConditionScenario => ScenarioEdit(input)
    case IntervalField => IntervalEdit(input)
    case SequenceField => SequenceEdit(input)
    case _ => s => Put(s, input.sub, Str(input.text))
  }

  /** `updateTemplateField(el)` on the current device. `type` goes through
      `setDeviceTemplate`; every other field of the form runs its type's
      repair first and then edits that type's settings or one element of
      their list, whatever the template's type is; an unknown field does
      nothing. */
  function UpdateTemplateField(dev: Value, input: Input): Completion<Edited> {
    var kind := FieldKind(input.field);
    if !Truthy(dev) then Kept(dev)
    else if input.field == TypeField then
      match SetDeviceTemplate(dev, input.text)
      case Threw => Threw
      case Done(d) => Marked(d)
    else if kind == "" then Kept(dev)
    else
      match EnsureFor(kind, dev)
      case Threw => Threw
      case Done(d) => FieldEdit(d, input)
  }

  /** The part of `updateTemplateField` after the repair. */
  function FieldEdit(d: Value, input: Input): Completion<Edited> {
    var kind := FieldKind(input.field);
    if IsItemField(input.field) then EditListItem(d, kind, input.index, ItemEdit(input))
    else EditSettings(d, kind, SettingsEdit(input))
  }

  // ----- device and scenario fields -----

  /** `updateDeviceField(field, value)`: a display name is mirrored into
      `name`; a name fills the display name only when that is empty. */
  function EditDeviceField(dev: Value, field: string, value: Value): Edited {
    if !Truthy(dev) then Edited(dev, false)
    else
      var d1 := Put(dev, field, value);
      if field == "display_name" then Edited(Put(d1, "name", value), true)
      else if field == "name" && !Truthy(Get(d1, "display_name")) then Edited(Put(d1, "display_name", value), true)
      else Edited(d1, true)
  }

  /** `updateScenarioField(field, el)`: turning the button off clears its
      label; any other field stores the text. */
  function EditScenarioField(scen: Value, field: string, input: Input): Edited {
    if !Truthy(scen) then Edited(scen, false)
    else if field == "button_enabled" then
      var s1 := Put(scen, "button_enabled", CheckedValue(input));
      Edited(if Truthy(Get(s1, "button_enabled")) then s1 else Put(s1, "button_label", EmptyString), true)
    else Edited(Put(scen, field, Str(input.text)), true)
  }

  // ----- properties -----

  /** The list a repair of a list-owning type settles: the template stays,
      its settings are an object holding an array under the list key. */
  lemma ListSettled(dev: Value, kind: string, listKey: string, fix: Value -> Completion<Value>,
                    fields: Value -> Value)
    requires kind in TemplateTypes && SettingsKey(kind) != "type"
    requires forall x :: fix(x).Threw? <==> Nullish(x)
    requires forall x :: FieldsRepair(fields, listKey, x)
    requires HasTemplate(dev, kind) && Repair(dev, kind, listKey, fix, fields).Done?
    ensures var s := SettingsIn(Repair(dev, kind, listKey, fix, fields).value, kind);
            IsObjectLike(s) && Get(s, listKey).Arr?
  {
    RepairSettled(dev, kind, listKey, fix, fields);
    var s := SettingsOf(dev, kind);
    var s1 := if Get(s, listKey).Arr? then s else Put(s, listKey, List([]));
    var list := Get(s1, listKey);
    RepairStores(dev, kind, fields(Put(s1, listKey, Arr(MapAll(list.items, fix).value, list.named))));
  }

  /** Every handler of a list-owning type starts from a device whose
      settings hold an array under the list key; the repair keeps the
      template's type and every other property of the device. */
  lemma EnsureForList(kind: string, dev: Value)
    requires HasList(kind) && HasTemplate(dev, kind) && EnsureFor(kind, dev).Done?
    ensures var d := EnsureFor(kind, dev).value;
            HasTemplate(d, kind) && IsObjectLike(SettingsIn(d, kind)) && Get(SettingsIn(d, kind), ListKey(kind)).Arr?
            && forall k :: k != "template" ==> Get(d, k) == Get(dev, k)
  {
    EnsureForKeeps(kind, dev);
    match kind
    case "uid_validator" =>
      forall x ensures FieldsRepair(UidFields, "slots", x) { UidFieldsRepair(x); }
      ListSettled(dev, kind, "slots", FixUidSlot, UidFields);
    case "on_mqtt_event" =>
      ListSettled(dev, kind, "rules", FixMqttRule, Same);
    case "on_flag" =>
      ListSettled(dev, kind, "rules", FixFlagRule, Same);
    case "if_condition" =>
      forall x ensures FieldsRepair(ConditionFields, "rules", x) { ConditionFieldsRepair(x); }
      ListSettled(dev, kind, "rules", FixConditionRule, ConditionFields);
    case "sequence_lock" =>
      forall x ensures FieldsRepair(SequenceFields, "steps", x) { SequenceFieldsRepair(x); }
      ListSettled(dev, kind, "steps", FixSequenceStep, SequenceFields);
  }

  /** Writing settings into an object template changes them and nothing
      else: the template's other entries (its type among them) and the
      device's other properties stay. */
  lemma WithSettingsKeeps(d: Value, kind: string, f: Value)
    requires IsObjectLike(Get(d, "template")) && SettingsKey(kind) != "type"
    ensures SettingsIn(WithSettings(d, kind, f), kind) == f
    ensures forall k :: k != SettingsKey(kind) ==> Get(Get(WithSettings(d, kind, f), "template"), k) == Get(Get(d, "template"), k)
    ensures forall k :: k != "template" ==> Get(WithSettings(d, kind, f), k) == Get(d, k)
  {
    var t := Get(d, "template");
    GetPut(t, SettingsKey(kind), f);
    GetPut(d, "template", Put(t, SettingsKey(kind), f));
  }

  /** Adding an element after the repair: at the limit the device is
      kept; below it exactly the new element is appended to the list, which
      then holds at most the limit, and nothing else changes. */
  lemma AppendItemFacts(d: Value, kind: string)
    requires HasList(kind) && HasTemplate(d, kind)
    requires IsObjectLike(SettingsIn(d, kind)) && Get(SettingsIn(d, kind), ListKey(kind)).Arr?
    ensures var s := SettingsIn(d, kind);
            var list := Get(s, ListKey(kind));
            var limit := ListLimit(kind);
            var r := AppendItem(d, kind);
            r.Done?
            && (r.value.changed <==> limit.None? || |list.items| < limit.value)
            && (!r.value.changed ==> r.value.value == d)
            && (r.value.changed ==>
                  var after := r.value.value;
                  HasTemplate(after, kind)
                  && Get(SettingsIn(after, kind), ListKey(kind)) == Arr(list.items + [NewItem(kind)], list.named)
                  && (limit.Some? ==> |list.items| + 1 <= limit.value)
                  && (forall k :: k != ListKey(kind) ==> Get(SettingsIn(after, kind), k) == Get(s, k))
                  && (forall k :: k != "template" ==> Get(after, k) == Get(d, k)))
  {
    var s := SettingsIn(d, kind);
    var list := Get(s, ListKey(kind));
    var l1 := Arr(list.items + [NewItem(kind)], list.named);
    GetPut(s, ListKey(kind), l1);
    WithSettingsFacts(d, kind, Put(s, ListKey(kind), l1));
  }

  /** An "add" handler does nothing without a template of the type, throws
      exactly when the repair throws, and otherwise appends after the
      repair, keeping the template's type and the device's other
      properties. */
  lemma AddListItemFacts(dev: Value, kind: string)
    requires HasList(kind)
    ensures var r := AddListItem(dev, kind);
            (!HasTemplate(dev, kind) ==> r == Kept(dev))
            && (HasTemplate(dev, kind) ==>
                  (r.Threw? <==> EnsureFor(kind, dev).Threw?)
                  && (r.Done? ==>
                        var d := EnsureFor(kind, dev).value;
                        r == AppendItem(d, kind)
                        && HasTemplate(r.value.value, kind)
                        && forall k :: k != "template" ==> Get(r.value.value, k) == Get(dev, k)))
  {
    if HasTemplate(dev, kind) && EnsureFor(kind, dev).Done? {
      var d := EnsureFor(kind, dev).value;
      EnsureForList(kind, dev);
      AppendItemFacts(d, kind);
    }
  }

  /** Removing an element after the repair: a negative uid slot index keeps
      the device; otherwise exactly the element `splice` picks is removed
      (the one at `i` when `i` is inside the list) and nothing else
      changes. */
  lemma RemoveItemFacts(d: Value, kind: string, i: int)
    requires HasList(kind) && HasTemplate(d, kind)
    requires IsObjectLike(SettingsIn(d, kind)) && Get(SettingsIn(d, kind), ListKey(kind)).Arr?
    ensures var s := SettingsIn(d, kind);
            var list := Get(s, ListKey(kind));
            var r := RemoveItem(d, kind, Some(i));
            r.Done?
            && (r.value.changed <==> kind != "uid_validator" || i >= 0)
            && (!r.value.changed ==> r.value.value == d)
            && (r.value.changed ==>
                  var after := r.value.value;
                  var ys := Get(SettingsIn(after, kind), ListKey(kind));
                  HasTemplate(after, kind)
                  && ys == Arr(SpliceOut(list.items, Some(i)), list.named)
                  && (0 <= i < |list.items| ==> ys.items == list.items[..i] + list.items[i + 1..])
                  && (forall k :: k != ListKey(kind) ==> Get(SettingsIn(after, kind), k) == Get(s, k))
                  && (forall k :: k != "template" ==> Get(after, k) == Get(d, k)))
  {
    var s := SettingsIn(d, kind);
    var list := Get(s, ListKey(kind));
    var l1 := Arr(SpliceOut(list.items, Some(i)), list.named);
    GetPut(s, ListKey(kind), l1);
    WithSettingsFacts(d, kind, Put(s, ListKey(kind), l1));
    if 0 <= i < |list.items| { SpliceOutAt(list.items, i); }
  }

  /** A "remove" handler does nothing without a template of the type,
      throws exactly when the repair throws, and otherwise removes after the
      repair, keeping the template's type and the device's other
      properties. */
  lemma RemoveListItemFacts(dev: Value, kind: string, i: int)
    requires HasList(kind)
    ensures var r := RemoveListItem(dev, kind, Some(i));
            (!HasTemplate(dev, kind) ==> r == Kept(dev))
            && (HasTemplate(dev, kind) ==>
                  (r.Threw? <==> EnsureFor(kind, dev).Threw?)
                  && (r.Done? ==>
                        var d := EnsureFor(kind, dev).value;
                        r == RemoveItem(d, kind, Some(i))
                        && HasTemplate(r.value.value, kind)
                        && forall k :: k != "template" ==> Get(r.value.value, k) == Get(dev, k)))
  {
    if HasTemplate(dev, kind) && EnsureFor(kind, dev).Done? {
      var d := EnsureFor(kind, dev).value;
      EnsureForList(kind, dev);
      RemoveItemFacts(d, kind, i);
    }
  }

  /** A settings edit runs exactly when the settings are truthy; the
      settings are then the edited ones and nothing else changes. */
  lemma EditSettingsFacts(d: Value, kind: string, edit: Value -> Value)
    requires kind in TemplateTypes
    ensures var s := SettingsIn(d, kind);
            var r := EditSettings(d, kind, edit);
            r.Done? && (r.value.changed <==> Truthy(s))
            && (!r.value.changed ==> r.value.value == d)
            && (r.value.changed ==>
                  var after := r.value.value;
                  SettingsIn(after, kind) == edit(s)
                  && (forall k :: k != SettingsKey(kind) ==> Get(Get(after, "template"), k) == Get(Get(d, "template"), k))
                  && (forall k :: k != "template" ==> Get(after, k) == Get(d, k)))
  {
    if Truthy(SettingsIn(d, kind)) {
      WithSettingsKeeps(d, kind, edit(SettingsIn(d, kind)));
    }
  }

  /** An element edit on an array list runs exactly when the element at the
      index is truthy; that element is then replaced by its edit and nothing
      else changes. */
  lemma EditListItemFacts(d: Value, kind: string, i: int, edit: Value -> Value)
    requires kind in TemplateTypes
    requires IsObjectLike(SettingsIn(d, kind)) && Get(SettingsIn(d, kind), ListKey(kind)).Arr?
    ensures var s := SettingsIn(d, kind);
            var list := Get(s, ListKey(kind));
            var r := EditListItem(d, kind, Some(i), edit);
            r.Done? && (r.value.changed <==> 0 <= i < |list.items| && Truthy(list.items[i]))
            && (!r.value.changed ==> r.value.value == d)
            && (r.value.changed ==>
                  var after := r.value.value;
                  Get(SettingsIn(after, kind), ListKey(kind)) == Arr(list.items[i := edit(list.items[i])], list.named)
                  && (forall k :: k != ListKey(kind) ==> Get(SettingsIn(after, kind), k) == Get(s, k))
                  && (forall k :: k != SettingsKey(kind) ==> Get(Get(after, "template"), k) == Get(Get(d, "template"), k))
                  && (forall k :: k != "template" ==> Get(after, k) == Get(d, k)))
  {
    var s := SettingsIn(d, kind);
    var list := Get(s, ListKey(kind));
    if 0 <= i < |list.items| && Truthy(list.items[i]) {
      var l1 := SetElement(list, i, edit(list.items[i]));
      GetPut(s, ListKey(kind), l1);
      WithSettingsKeeps(d, kind, Put(s, ListKey(kind), l1));
    }
  }

  /** The template's type and every property of the device outside the
      template are the same. */
  ghost predicate SameDevice(before: Value, after: Value) {
    Get(Get(after, "template"), "type") == Get(Get(before, "template"), "type")
    && forall k :: k != "template" ==> Get(after, k) == Get(before, k)
  }

  /** Every repair keeps the template's type and the device's other
      properties, whether or not the device has a template of the type. */
  lemma RepairKeepsDevice(kind: string, dev: Value)
    requires kind in TemplateTypes && EnsureFor(kind, dev).Done?
    ensures SameDevice(dev, EnsureFor(kind, dev).value)
  {
    if HasTemplate(dev, kind) {
      EnsureForKeeps(kind, dev);
    }
  }

  /** A settings or element edit keeps the template's type and the device's
      other properties. */
  lemma EditKeepsDevice(d: Value, kind: string, idx: Option<int>, edit: Value -> Value)
    requires kind in TemplateTypes
    ensures EditSettings(d, kind, edit).Done? ==> SameDevice(d, EditSettings(d, kind, edit).value.value)
    ensures EditListItem(d, kind, idx, edit).Done? ==> SameDevice(d, EditListItem(d, kind, idx, edit).value.value)
  {
    var s := SettingsIn(d, kind);
    if Truthy(s) {
      WithSettingsKeeps(d, kind, edit(s));
      if idx.Some? {
        var list := Get(s, ListKey(kind));
        var item := Element(list, idx.value);
        WithSettingsKeeps(d, kind, Put(s, ListKey(kind), SetElement(list, idx.value, edit(item))));
      }
    }
  }

  /** Only the `type` field can change a template's type; no field of the
      template form changes a property of the device outside its
      template. */
  lemma UpdateTemplateFieldKeeps(dev: Value, input: Input)
    ensures var r := UpdateTemplateField(dev, input);
            r.Done? ==>
              (forall k :: k != "template" ==> Get(r.value.value, k) == Get(dev, k))
              && (input.field != TypeField ==> Get(Get(r.value.value, "template"), "type") == Get(Get(dev, "template"), "type"))
  {
    var kind := FieldKind(input.field);
    var r := UpdateTemplateField(dev, input);
    if Truthy(dev) && r.Done? {
      if input.field == TypeField {
        if IsObjectLike(dev) {
          SetDeviceTemplateCases(dev, input.text);
        }
      } else if kind != "" {
        RepairKeepsDevice(kind, dev);
        EditKeepsDevice(EnsureFor(kind, dev).value, kind, input.index, ItemEdit(input));
        EditKeepsDevice(EnsureFor(kind, dev).value, kind, input.index, SettingsEdit(input));
      }
    }
  }

  /** A field of the form edits what the repair left. */
  lemma FieldRuns(dev: Value, input: Input)
    requires Truthy(dev) && input.field != TypeField && FieldKind(input.field) != ""
    requires EnsureFor(FieldKind(input.field), dev).Done?
    ensures UpdateTemplateField(dev, input) == FieldEdit(EnsureFor(FieldKind(input.field), dev).value, input)
  {
  }

  lemma IntervalSet(d: Value, input: Input)
    requires input.field == IntervalField && input.sub == "interval_ms"
    requires IsObjectLike(SettingsIn(d, "interval_task"))
    ensures var r := FieldEdit(d, input);
            var s := SettingsIn(d, "interval_task");
            r.Done? && r.value.changed
            && Get(SettingsIn(r.value.value, "interval_task"), "interval_ms") == Num(IntervalInput(input.text))
            && Get(SettingsIn(r.value.value, "interval_task"), "scenario") == Get(s, "scenario")
  {
    var s := SettingsIn(d, "interval_task");
    var v := Num(IntervalInput(input.text));
    assert FieldEdit(d, input) == EditSettings(d, "interval_task", SettingsEdit(input));
    assert SettingsEdit(input)(s) == Put(s, "interval_ms", v);
    EditSettingsFacts(d, "interval_task", SettingsEdit(input));
    GetPut(s, "interval_ms", v);
  }

  /** Typing a period into an interval template stores the clamped
      number (1000 for text that is not a number, never below 1) and keeps
      the scenario the repair left. */
  lemma IntervalReadBack(dev: Value, input: Input)
    requires input.field == IntervalField && input.sub == "interval_ms"
    requires HasTemplate(dev, "interval_task") && IsObjectLike(SettingsOf(dev, "interval_task"))
    ensures var r := UpdateTemplateField(dev, input);
            var s := SettingsIn(r.value.value, "interval_task");
            r.Done? && r.value.changed
            && Get(s, "interval_ms") == Num(IntervalInput(input.text))
            && Get(s, "scenario") == TextOr(Get(SettingsOf(dev, "interval_task"), "scenario"))
  {
    var d := EnsureInterval(dev);
    assert IsObjectLike(SettingsIn(d, "interval_task")) by {
      var s0 := SettingsOf(dev, "interval_task");
      var s1 := if Get(s0, "interval_ms").Num? then s0 else Put(s0, "interval_ms", Num(1000));
      RepairStores(dev, "interval_task", Put(s1, "scenario", TextOr(Get(s1, "scenario"))));
    }
    EnsureIntervalFields(dev);
    FieldRuns(dev, input);
    IntervalSet(d, input);
  }

  lemma TimeoutSet(d: Value, input: Input)
    requires input.field == SequenceField && input.sub == "timeout_ms"
    requires IsObjectLike(SettingsIn(d, "sequence_lock"))
    ensures var r := FieldEdit(d, input);
            r.Done? && r.value.changed
            && Get(SettingsIn(r.value.value, "sequence_lock"), "timeout_ms") == Num(TimeoutInput(input.text))
  {
    var s := SettingsIn(d, "sequence_lock");
    var v := Num(TimeoutInput(input.text));
    assert FieldEdit(d, input) == EditSettings(d, "sequence_lock", SettingsEdit(input));
    assert SettingsEdit(input)(s) == Put(s, "timeout_ms", v);
    EditSettingsFacts(d, "sequence_lock", SettingsEdit(input));
    GetPut(s, "timeout_ms", v);
  }

  /** Typing a timeout into a sequence template stores the clamped number
      (0 for text that is not a number, never negative). */
  lemma TimeoutReadBack(dev: Value, input: Input)
    requires input.field == SequenceField && input.sub == "timeout_ms"
    requires HasTemplate(dev, "sequence_lock") && EnsureSequence(dev).Done?
    ensures var r := UpdateTemplateField(dev, input);
            r.Done? && r.value.changed
            && Get(SettingsIn(r.value.value, "sequence_lock"), "timeout_ms") == Num(TimeoutInput(input.text))
  {
    var d := EnsureSequence(dev).value;
    assert IsObjectLike(SettingsIn(d, "sequence_lock")) by { EnsureForList("sequence_lock", dev); }
    assert UpdateTemplateField(dev, input) == FieldEdit(d, input) by { FieldRuns(dev, input); }
    TimeoutSet(d, input);
  }

  lemma ModeSet(d: Value, input: Input)
    requires input.field == ConditionMode
    requires IsObjectLike(SettingsIn(d, "if_condition"))
    ensures var r := FieldEdit(d, input);
            r.Done? && r.value.changed
            && Get(SettingsIn(r.value.value, "if_condition"), "mode") == Str(if input.text == "any" then "any" else "all")
  {
    var s := SettingsIn(d, "if_condition");
    var v := Str(if input.text == "any" then "any" else "all");
    assert FieldEdit(d, input) == EditSettings(d, "if_condition", SettingsEdit(input));
    assert SettingsEdit(input)(s) == Put(s, "mode", v);
    EditSettingsFacts(d, "if_condition", SettingsEdit(input));
    GetPut(s, "mode", v);
  }

  /** The condition mode reads back as "any" exactly when "any" was chosen,
      and as "all" for anything else. */
  lemma ConditionModeReadBack(dev: Value, input: Input)
    requires input.field == ConditionMode
    requires HasTemplate(dev, "if_condition") && EnsureCondition(dev).Done?
    ensures var r := UpdateTemplateField(dev, input);
            r.Done? && r.value.changed
            && Get(SettingsIn(r.value.value, "if_condition"), "mode") == Str(if input.text == "any" then "any" else "all")
  {
    var d := EnsureCondition(dev).value;
    assert IsObjectLike(SettingsIn(d, "if_condition")) by { EnsureForList("if_condition", dev); }
    assert UpdateTemplateField(dev, input) == FieldEdit(d, input) by { FieldRuns(dev, input); }
    ModeSet(d, input);
  }

  lemma SignalSet(d: Value, input: Input)
    requires input.field == Signal
    requires IsObjectLike(SettingsIn(d, "signal_hold"))
    ensures var r := FieldEdit(d, input);
            r.Done? && r.value.changed
            && Get(SettingsIn(r.value.value, "signal_hold"), input.sub) == SignalValue(input.sub, input.text)
  {
    var s := SettingsIn(d, "signal_hold");
    var v := SignalValue(input.sub, input.text);
    assert FieldEdit(d, input) == EditSettings(d, "signal_hold", SettingsEdit(input));
    assert SettingsEdit(input)(s) == Put(s, input.sub, v);
    EditSettingsFacts(d, "signal_hold", SettingsEdit(input));
    GetPut(s, input.sub, v);
  }

  /** A signal-hold input stores its value under its own key: the periods
      as integers, the loop flag as a boolean, any other setting as text. */
  lemma SignalReadBack(dev: Value, input: Input)
    requires input.field == Signal
    requires HasTemplate(dev, "signal_hold") && IsObjectLike(SettingsOf(dev, "signal_hold"))
    ensures var r := UpdateTemplateField(dev, input);
            r.Done? && r.value.changed
            && Get(SettingsIn(r.value.value, "signal_hold"), input.sub) == SignalValue(input.sub, input.text)
  {
    EnsureSignalStores(dev);
    SignalFixFields(SettingsOf(dev, "signal_hold"));
    FieldRuns(dev, input);
    SignalSet(EnsureSignal(dev), input);
  }

  lemma ValuesSet(d: Value, input: Input, i: int)
    requires input.field == UidValues && input.index == Some(i)
    requires IsObjectLike(SettingsIn(d, "uid_validator")) && Get(SettingsIn(d, "uid_validator"), "slots").Arr?
    ensures var slots := Get(SettingsIn(d, "uid_validator"), "slots");
            var r := FieldEdit(d, input);
            r.Done?
            && (r.value.changed <==> 0 <= i < |slots.items| && Truthy(slots.items[i]))
            && (r.value.changed && IsObjectLike(slots.items[i]) ==>
                  Get(Element(Get(SettingsIn(r.value.value, "uid_validator"), "slots"), i), "values")
                    == List(SlotValues(input.text)))
  {
    var slots := Get(SettingsIn(d, "uid_validator"), "slots");
    assert FieldEdit(d, input) == EditListItem(d, "uid_validator", input.index, ItemEdit(input));
    EditListItemFacts(d, "uid_validator", i, ItemEdit(input));
    if 0 <= i < |slots.items| {
      assert ItemEdit(input)(slots.items[i]) == Put(slots.items[i], "values", List(SlotValues(input.text)));
      GetPut(slots.items[i], "values", List(SlotValues(input.text)));
    }
  }

  /** Typing the allowed values of a repaired uid slot stores exactly the
      trimmed, non-empty, comma-separated values; a missing slot changes
      nothing. */
  lemma UidValuesReadBack(dev: Value, input: Input, i: int)
    requires input.field == UidValues && input.index == Some(i)
    requires HasTemplate(dev, "uid_validator") && EnsureUid(dev).Done?
    ensures var d := EnsureUid(dev).value;
            var slots := Get(SettingsIn(d, "uid_validator"), "slots");
            var r := UpdateTemplateField(dev, input);
            slots.Arr? && r.Done?
            && (r.value.changed <==> 0 <= i < |slots.items| && Truthy(slots.items[i]))
            && (r.value.changed && IsObjectLike(slots.items[i]) ==>
                  Get(Element(Get(SettingsIn(r.value.value, "uid_validator"), "slots"), i), "values")
                    == List(SlotValues(input.text)))
  {
    EnsureForList("uid_validator", dev);
    FieldRuns(dev, input);
    ValuesSet(EnsureUid(dev).value, input, i);
  }

  /** Editing a device name: the value is stored under the field; the
      display name is mirrored into `name`, and a name fills an empty
      display name; every other property stays. */
  lemma EditDeviceFieldFacts(dev: Value, field: string, value: Value)
    requires IsObjectLike(dev)
    ensures var r := EditDeviceField(dev, field, value);
            r.changed
            && (field != "name" || Truthy(Get(dev, "display_name")) ==> Get(r.value, field) == value)
            && (field == "display_name" ==> Get(r.value, "name") == value)
            && (field == "name" ==>
                  Get(r.value, "name") == value
                  && Get(r.value, "display_name") == Or(Get(dev, "display_name"), value))
            && (forall k :: k !in {field, "name", "display_name"} ==> Get(r.value, k) == Get(dev, k))
  {
    var d1 := Put(dev, field, value);
    GetPut(dev, field, value);
    GetPut(d1, "name", value);
    GetPut(d1, "display_name", value);
  }

  /** Turning a scenario's button off clears its label; turning it on keeps
      the label; any other field stores the text. No other property of the
      scenario changes. */
  lemma EditScenarioFieldFacts(scen: Value, field: string, input: Input)
    requires IsObjectLike(scen)
    ensures var r := EditScenarioField(scen, field, input);
            r.changed
            && (field == "button_enabled" ==>
                  Get(r.value, "button_enabled") == CheckedValue(input)
                  && Get(r.value, "button_label")
                       == if CheckedValue(input).b then Get(scen, "button_label") else EmptyString)
            && (field != "button_enabled" ==> Get(r.value, field) == Str(input.text))
            && (forall k :: k !in {field, "button_label"} ==> Get(r.value, k) == Get(scen, k))
  {
    var s1 := Put(scen, "button_enabled", CheckedValue(input));
    GetPut(scen, "button_enabled", CheckedValue(input));
    GetPut(s1, "button_label", EmptyString);
    GetPut(scen, field, Str(input.text));
  }

  /** `value.split(',').map(trim).filter(Boolean)` reads back the values the
      form shows as `values.join(', ')`. */
  lemma {:induction false} SlotValuesRoundTrip(xs: seq<string>)
    requires forall i :: 0 <= i < |xs| ==> CleanValue(xs[i])
    ensures SlotValues(Join(xs, ", ")) == Strings(xs)
  {
    PaddedRoundTrip(xs, "");
    assert "" + Join(xs, ", ") == Join(xs, ", ");
  }

  /** The strings as values. */
  function Strings(xs: seq<string>): seq<Value> {
    if xs == [] then [] else [Str(xs[0])] + Strings(xs[1..])
  }

  lemma {:induction false} PaddedRoundTrip(xs: seq<string>, pad: string)
    requires pad == "" || pad == " "
    requires forall i :: 0 <= i < |xs| ==> CleanValue(xs[i])
    ensures TrimmedParts(Split(pad + Join(xs, ", "), ',')) == Strings(xs)
    decreases |xs|
  {
    if xs == [] {
      PaddedNothing(pad);
    } else if |xs| == 1 {
      PaddedLast(xs[0], pad);
    } else {
      PaddedStep(xs, pad);
      PaddedRoundTrip(xs[1..], " ");
    }
  }

  lemma PaddedNothing(pad: string)
    requires pad == "" || pad == " "
    ensures TrimmedParts(Split(pad + Join([], ", "), ',')) == []
  {
    assert pad + "" == pad;
    SplitWithout(pad, ',');
    TrimFacts("");
    assert Trim(pad) == "";
  }

  lemma PaddedLast(x: string, pad: string)
    requires pad == "" || pad == " "
    requires CleanValue(x)
    ensures TrimmedParts(Split(pad + Join([x], ", "), ',')) == [Str(x)]
  {
    var t := pad + x;
    assert ',' !in t by {
      if pad == "" { assert t == x; } else { assert t == [' '] + x; }
    }
    SplitWithout(t, ',');
    assert Trim(t) == x by {
      TrimFacts(x);
      if pad == "" { assert t == x; }
    }
    assert TrimmedParts([t]) == [Str(x)] + TrimmedParts([]);
  }

  /** Splitting at the first separator of a joined list. */
  lemma PaddedSplit(xs: seq<string>, pad: string)
    requires pad == "" || pad == " "
    requires |xs| >= 2 && CleanValue(xs[0])
    ensures Split(pad + Join(xs, ", "), ',') == [pad + xs[0]] + Split(" " + Join(xs[1..], ", "), ',')
  {
    var x := xs[0];
    var rest := Join(xs[1..], ", ");
    assert pad + Join(xs, ", ") == (pad + x) + [','] + (" " + rest);
    assert ',' !in pad + x;
    SplitPrefix(pad + x, ',', " " + rest);
  }

  lemma PaddedStep(xs: seq<string>, pad: string)
    requires pad == "" || pad == " "
    requires |xs| >= 2 && CleanValue(xs[0])
    ensures TrimmedParts(Split(pad + Join(xs, ", "), ','))
              == [Str(xs[0])] + TrimmedParts(Split(" " + Join(xs[1..], ", "), ','))
  {
    var x := xs[0];
    PaddedSplit(xs, pad);
    var parts := Split(pad + Join(xs, ", "), ',');
    TrimFacts(x);
    assert Trim(pad + x) == x by {
      if pad == "" { assert pad + x == x; }
    }
    assert parts[0] == pad + x && parts[1..] == Split(" " + Join(xs[1..], ", "), ',');
    assert TrimmedParts(parts) == [Str(x)] + TrimmedParts(parts[1..]);
  }
}
