/** The device editor of the web UI (`devices_editor.js`): its limits, the
    template `assignTemplate` installs, the buttons that add and remove
    devices, uid slots, rules and sequence steps, the interval and timeout
    inputs, and `prepareModelForSave`. The editor keeps the device list, the
    selected index and the dirty flag in one state object, the class
    `Editor`; the handlers that edit the selected device are functions from
    that device to the edited one, which the class writes back. */
module DevicesEditor {
  import opened Common
  import opened JsValue
  import opened EditorOps
  import opened WizardTemplates
  import WizardEdits
  import WizardConfig

  // ----- LIMITS -----

  const DeviceLimit: nat := 12
  const UidSlotLimit: nat := 8
  const SequenceStepLimit: nat := 8
  const MqttRuleLimit: nat := 8
  /** Bounds the flag rules and the condition rules. */
  const FlagRuleLimit: nat := 8

  // ----- assignTemplate -----

  /** The signal-hold text settings the editor installs. */
  const EditorSignalKeys: set<string> := {"signal_topic", "signal_payload_on", "signal_payload_off", "heartbeat_topic"}

  /** The settings `assignTemplate` installs for a type. */
  function EditorSettings(kind: string): Value {
    match kind
    case "uid_validator" => Obj(Blank(UidResultKeys)["slots" := List([])])
    case "signal_hold" =>
      Obj(Blank(EditorSignalKeys)["required_hold_ms" := Num(0)]["heartbeat_timeout_ms" := Num(0)])
    case _ => DefaultSettings(kind)
  }

  /** The template `assignTemplate(dev, type)` stores: a fresh one for a
      known type, `null` for an empty or unknown one. */
  function AssignedTemplate(kind: string): Value {
    if kind in TemplateTypes then Obj(map["type" := Str(kind), SettingsKey(kind) := EditorSettings(kind)]) else Null
  }

  /** `assignTemplate(dev, type)`. */
  function AssignTemplate(dev: Value, kind: string): Value {
    Put(dev, "template", AssignedTemplate(kind))
  }

  /** A known type installs a template of that type holding the editor's
      settings and nothing else; any other type clears the template; the
      device keeps its other properties. */
  lemma AssignTemplateFacts(dev: Value, kind: string)
    requires IsObjectLike(dev)
    ensures var r := AssignTemplate(dev, kind);
            (kind !in TemplateTypes ==> Get(r, "template") == Null)
            && (kind in TemplateTypes ==>
                  HasTemplate(r, kind) && SettingsIn(r, kind) == EditorSettings(kind)
                  && Get(r, "template").Obj? && Get(r, "template").props.Keys == {"type", SettingsKey(kind)})
            && forall k :: k != "template" ==> Get(r, k) == Get(dev, k)
  {
    GetPut(dev, "template", AssignedTemplate(kind));
  }

  /** The old template plays no part: choosing a type again, even the one
      the device already has, discards its settings. */
  lemma AssignTemplateForgets(dev: Value, prev: Value, kind: string)
    ensures AssignTemplate(Put(dev, "template", prev), kind) == AssignTemplate(dev, kind)
  {
    PutOver(dev, "template", prev, AssignedTemplate(kind));
  }

  /** Every setting the editor installs has the wizard's default value. */
  lemma EditorSettingsWithinDefaults(kind: string, k: string)
    requires kind in TemplateTypes && !Get(EditorSettings(kind), k).Undefined?
    ensures Get(EditorSettings(kind), k) == Get(DefaultSettings(kind), k)
  {
    if kind == "signal_hold" {
      assert EditorSignalKeys <= SignalTextKeys;
    } else if kind == "uid_validator" {
      assert k in UidResultKeys ==> k in UidActivationKeys + UidResultKeys;
    }
  }

  /** What the editor leaves out of the wizard's defaults: the uid
      activation fields, and the signal tracks, loop flag, signal period and
      reset topic. */
  lemma EditorSettingsOmit()
    ensures forall k :: k in UidActivationKeys ==> Get(EditorSettings("uid_validator"), k).Undefined?
    ensures forall k :: k in UidActivationKeys ==> Get(DefaultSettings("uid_validator"), k) == EmptyString
    ensures forall k :: k in SignalTextKeys - EditorSignalKeys ==> Get(EditorSettings("signal_hold"), k).Undefined?
    ensures Get(EditorSettings("signal_hold"), "signal_on_ms").Undefined?
    ensures Get(EditorSettings("signal_hold"), "hold_track_loop").Undefined?
  {
    assert forall k :: k in UidActivationKeys ==> k !in UidResultKeys && k != "slots";
  }

  // ----- the lists of the selected device -----

  /** The list of a template type inside a device. */
  function ListIn(dev: Value, kind: string): Value {
    Get(SettingsIn(dev, kind), WizardEdits.ListKey(kind))
  }

  /** `after` is `before` with the list of `kind` replaced by `list`: the
      template keeps its type, and every other property of the device, of
      the template and of the settings is kept. */
  ghost predicate ListReplaced(before: Value, after: Value, kind: string, list: Value) {
    HasTemplate(after, kind) && ListIn(after, kind) == list
    && (forall k :: k != "template" ==> Get(after, k) == Get(before, k))
    && (forall k :: k != SettingsKey(kind) ==> Get(Get(after, "template"), k) == Get(Get(before, "template"), k))
    && (forall k :: k != WizardEdits.ListKey(kind) ==> Get(SettingsIn(after, kind), k) == Get(SettingsIn(before, kind), k))
  }

  lemma ListReplacedTrans(a: Value, b: Value, c: Value, kind: string, l1: Value, l2: Value)
    requires ListReplaced(a, b, kind, l1) && ListReplaced(b, c, kind, l2)
    ensures ListReplaced(a, c, kind, l2)
  {
  }

  /** Writing settings `f` into a device that has the template. */
  lemma WithSettingsReplaces(d: Value, kind: string, f: Value)
    requires kind in TemplateTypes && HasTemplate(d, kind)
    requires forall k :: k != WizardEdits.ListKey(kind) ==> Get(f, k) == Get(SettingsIn(d, kind), k)
    ensures ListReplaced(d, WithSettings(d, kind, f), kind, Get(f, WizardEdits.ListKey(kind)))
  {
    var t := Get(d, "template");
    assert IsObjectLike(t);
    WithSettingsFacts(d, kind, f);
    GetPut(t, SettingsKey(kind), f);
    GetPut(d, "template", Put(t, SettingsKey(kind), f));
  }

  /** The part of an "add" handler after the guard and the repairs: the
      limit check on `list.length`, then `list.push(item)`. */
  function Append(d: Value, kind: string, s: Value, limit: nat): Completion<Edited> {
    var list := Get(s, WizardEdits.ListKey(kind));
    if WizardEdits.Full(list, Some(limit)) then Kept(d)
    else
      match Push(list, WizardEdits.NewItem(kind))
      case Threw => Threw
      case Done(l) => Marked(WithSettings(d, kind, Put(s, WizardEdits.ListKey(kind), l)))
  }

  /** What an "add" handler leaves, relative to the device it started from
      and the list it checked: at the limit nothing changes; below it the
      new element is appended and the list is still within the limit; only
      a list that is neither full nor an array throws. */
  ghost predicate AppendedTo(before: Value, r: Completion<Edited>, kind: string, list: Value, limit: nat) {
    (r.Threw? <==> !WizardEdits.Full(list, Some(limit)) && !list.Arr?)
    && (r.Done? && !r.value.changed <==> WizardEdits.Full(list, Some(limit)))
    && (r.Done? && !r.value.changed ==> ListReplaced(before, r.value.value, kind, list))
    && (r.Done? && r.value.changed ==>
          list.Arr? && |list.items| < limit
          && ListReplaced(before, r.value.value, kind, Arr(list.items + [WizardEdits.NewItem(kind)], list.named)))
  }

  lemma AppendFacts(before: Value, d: Value, kind: string, limit: nat)
    requires kind in TemplateTypes && ListReplaced(before, d, kind, ListIn(d, kind))
    ensures AppendedTo(before, Append(d, kind, SettingsIn(d, kind), limit), kind, ListIn(d, kind), limit)
  {
    var s := SettingsIn(d, kind);
    var key := WizardEdits.ListKey(kind);
    var list := Get(s, key);
    if !WizardEdits.Full(list, Some(limit)) && list.Arr? {
      var l := Arr(list.items + [WizardEdits.NewItem(kind)], list.named);
      GetPut(s, key, l);
      WithSettingsReplaces(d, kind, Put(s, key, l));
      ListReplacedTrans(before, d, WithSettings(d, kind, Put(s, key, l)), kind, list, l);
    }
  }

  /** The part of a "remove" handler after the guard and the repairs:
      `list.splice(idx, 1)`, where only arrays have `splice`. */
  function RemoveAt(d: Value, kind: string, s: Value, idx: Option<int>): Completion<Edited> {
    var list := Get(s, WizardEdits.ListKey(kind));
    if !list.Arr? then Threw
    else Marked(WithSettings(d, kind, Put(s, WizardEdits.ListKey(kind), Arr(SpliceOut(list.items, idx), list.named))))
  }

  /** What a "remove" handler leaves: a list that is not an array throws;
      otherwise the element at the normalised start (index 0 for `NaN`) is
      spliced out and nothing else changes. */
  ghost predicate RemovedFrom(before: Value, r: Completion<Edited>, kind: string, list: Value, idx: Option<int>) {
    (r.Threw? <==> !list.Arr?)
    && (r.Done? ==> r.value.changed && ListReplaced(before, r.value.value, kind, Arr(SpliceOut(list.items, idx), list.named)))
  }

  lemma RemoveAtFacts(before: Value, d: Value, kind: string, idx: Option<int>)
    requires kind in TemplateTypes && ListReplaced(before, d, kind, ListIn(d, kind))
    ensures RemovedFrom(before, RemoveAt(d, kind, SettingsIn(d, kind), idx), kind, ListIn(d, kind), idx)
  {
    var s := SettingsIn(d, kind);
    var key := WizardEdits.ListKey(kind);
    var list := Get(s, key);
    if list.Arr? {
      var l := Arr(SpliceOut(list.items, idx), list.named);
      GetPut(s, key, l);
      WithSettingsReplaces(d, kind, Put(s, key, l));
      ListReplacedTrans(before, d, WithSettings(d, kind, Put(s, key, l)), kind, list, l);
    }
  }

  /** A device reads as itself with its list replaced by that same list. */
  lemma ListReplacedSelf(dev: Value, kind: string)
    requires HasTemplate(dev, kind)
    ensures ListReplaced(dev, dev, kind, ListIn(dev, kind))
  {
  }

  /** Removing the element just appended gives the device back. */
  lemma AppendThenRemove(dev: Value, kind: string, limit: nat)
    requires kind in TemplateTypes && HasTemplate(dev, kind) && ListIn(dev, kind).Arr?
    requires var r := Append(dev, kind, SettingsIn(dev, kind), limit); r.Done? && r.value.changed
    ensures var d2 := Append(dev, kind, SettingsIn(dev, kind), limit).value.value;
            RemoveAt(d2, kind, SettingsIn(d2, kind), Some(|ListIn(dev, kind).items|)) == Marked(dev)
  {
    var key := WizardEdits.ListKey(kind);
    var t := Get(dev, "template");
    var s := SettingsIn(dev, kind);
    var list := Get(s, key);
    var l := Arr(list.items + [WizardEdits.NewItem(kind)], list.named);
    var s2 := Put(s, key, l);
    var d2 := WithSettings(dev, kind, s2);
    assert IsObjectLike(t);
    WithSettingsFacts(dev, kind, s2);
    GetPut(s, key, l);
    var n := |list.items|;
    assert SpliceOut(l.items, Some(n)) == list.items by {
      assert l.items[..n] == list.items;
    }
    PutOver(s, key, l, list);
    PutOfGet(s, key);
    PutOver(t, SettingsKey(kind), s2, s);
    PutOfGet(t, SettingsKey(kind));
    GetPut(t, SettingsKey(kind), s2);
    PutOver(dev, "template", Put(t, SettingsKey(kind), s2), t);
    PutOfGet(dev, "template");
  }

  // ----- the add and remove buttons -----

  /** `addSlot`. */
  function AddSlot(dev: Value): Completion<Edited> {
    if !HasTemplate(dev, "uid_validator") then Kept(dev)
    else Append(dev, "uid_validator", SettingsIn(dev, "uid_validator"), UidSlotLimit)
  }

  /** `removeSlot(idx)`: the index is not checked, so `NaN` removes the
      first slot. */
  function RemoveSlot(dev: Value, idx: Option<int>): Completion<Edited> {
    if !HasTemplate(dev, "uid_validator") then Kept(dev)
    else RemoveAt(dev, "uid_validator", SettingsIn(dev, "uid_validator"), idx)
  }

  /** `addMqttRule` and `addFlagRule`: `rules = rules || []` before the
      limit check; reading `rules` of missing settings throws. */
  function AddRule(dev: Value, kind: string, limit: nat): Completion<Edited> {
    if !HasTemplate(dev, kind) then Kept(dev)
    else
      var s := SettingsIn(dev, kind);
      if Nullish(s) then Threw
      else
        var s1 := Put(s, "rules", Or(Get(s, "rules"), List([])));
        Append(WithSettings(dev, kind, s1), kind, s1, limit)
  }

  /** `removeMqttRule(idx)` and `removeFlagRule(idx)`. */
  function RemoveRule(dev: Value, kind: string, idx: Option<int>): Completion<Edited> {
    if !HasTemplate(dev, kind) then Kept(dev)
    else RemoveAt(dev, kind, SettingsIn(dev, kind), idx)
  }

  /** `steps = Array.isArray(steps) ? steps : []`. */
  function StepsArray(s: Value): Value {
    if Get(s, "steps").Arr? then s else Put(s, "steps", List([]))
  }

  /** `addSequenceStep`: needs truthy settings, and repairs `steps` first. */
  function AddSequenceStep(dev: Value): Completion<Edited> {
    if !HasTemplate(dev, "sequence_lock") || !Truthy(SettingsIn(dev, "sequence_lock")) then Kept(dev)
    else
      var s1 := StepsArray(SettingsIn(dev, "sequence_lock"));
      Append(WithSettings(dev, "sequence_lock", s1), "sequence_lock", s1, SequenceStepLimit)
  }

  /** `removeSequenceStep(idx)`: after the same repair, a `NaN`, negative
      or too large index changes nothing more; `steps.length` of settings
      that are a primitive throws. */
  function RemoveSequenceStep(dev: Value, idx: Option<int>): Completion<Edited> {
    if !HasTemplate(dev, "sequence_lock") || !Truthy(SettingsIn(dev, "sequence_lock")) then Kept(dev)
    else
      var s1 := StepsArray(SettingsIn(dev, "sequence_lock"));
      var d1 := WithSettings(dev, "sequence_lock", s1);
      var steps := Get(s1, "steps");
      if idx.None? || idx.value < 0 then Kept(d1)
      else if !steps.Arr? then Threw
      else if idx.value >= |steps.items| then Kept(d1)
      else RemoveAt(d1, "sequence_lock", s1, idx)
  }

  /** The fields of the editor's `ensureConditionTemplate`: unlike the
      wizard's, any truthy mode is kept. */
  function EditorConditionFields(s: Value): Value {
    FillText(Put(s, "mode", Or(Get(s, "mode"), Str("all"))), {"true_scenario", "false_scenario"})
  }

  /** The editor's `ensureConditionTemplate`. */
  function EnsureEditorCondition(dev: Value): Completion<Value> {
    Repair(dev, "if_condition", "rules", FixConditionRule, EditorConditionFields)
  }

  /** `addConditionRule`: the repair, then the flag-rule limit. */
  function AddConditionRule(dev: Value): Completion<Edited> {
    if !HasTemplate(dev, "if_condition") then Kept(dev)
    else
      match EnsureEditorCondition(dev)
      case Threw => Threw
      case Done(d) => Append(d, "if_condition", SettingsIn(d, "if_condition"), FlagRuleLimit)
  }

  /** `removeConditionRule(idx)`: the repair, then the splice. */
  function RemoveConditionRule(dev: Value, idx: Option<int>): Completion<Edited> {
    if !HasTemplate(dev, "if_condition") then Kept(dev)
    else
      match EnsureEditorCondition(dev)
      case Threw => Threw
      case Done(d) => RemoveAt(d, "if_condition", SettingsIn(d, "if_condition"), idx)
  }

  // ----- what the buttons do -----

  /** `addSlot` does nothing without a uid template; otherwise the slots are
      held to 8 and a blank slot is appended. */
  lemma AddSlotFacts(dev: Value)
    ensures !HasTemplate(dev, "uid_validator") ==> AddSlot(dev) == Kept(dev)
    ensures HasTemplate(dev, "uid_validator") ==>
              AppendedTo(dev, AddSlot(dev), "uid_validator", ListIn(dev, "uid_validator"), UidSlotLimit)
  {
    if HasTemplate(dev, "uid_validator") {
      ListReplacedSelf(dev, "uid_validator");
      AppendFacts(dev, dev, "uid_validator", UidSlotLimit);
    }
  }

  /** `removeSlot` splices the slot list of a uid template. */
  lemma RemoveSlotFacts(dev: Value, idx: Option<int>)
    ensures !HasTemplate(dev, "uid_validator") ==> RemoveSlot(dev, idx) == Kept(dev)
    ensures HasTemplate(dev, "uid_validator") ==>
              RemovedFrom(dev, RemoveSlot(dev, idx), "uid_validator", ListIn(dev, "uid_validator"), idx)
  {
    if HasTemplate(dev, "uid_validator") {
      ListReplacedSelf(dev, "uid_validator");
      RemoveAtFacts(dev, dev, "uid_validator", idx);
    }
  }

  /** A repair that replaces only the list of a device's settings. */
  lemma RepairList(dev: Value, kind: string, s1: Value)
    requires kind in TemplateTypes && HasTemplate(dev, kind)
    requires forall k :: k != WizardEdits.ListKey(kind) ==> Get(s1, k) == Get(SettingsIn(dev, kind), k)
    ensures var d1 := WithSettings(dev, kind, s1);
            ListReplaced(dev, d1, kind, ListIn(d1, kind)) && SettingsIn(d1, kind) == s1
  {
    assert IsObjectLike(Get(dev, "template"));
    WithSettingsFacts(dev, kind, s1);
    WithSettingsReplaces(dev, kind, s1);
  }

  /** `addMqttRule` and `addFlagRule`: a missing rule list starts empty, the
      rules are held to the limit and a blank rule is appended. */
  lemma AddRuleFacts(dev: Value, kind: string, limit: nat)
    requires kind in {"on_mqtt_event", "on_flag"}
    ensures !HasTemplate(dev, kind) ==> AddRule(dev, kind, limit) == Kept(dev)
    ensures HasTemplate(dev, kind) && Nullish(SettingsIn(dev, kind)) ==> AddRule(dev, kind, limit) == Threw
    ensures HasTemplate(dev, kind) && IsObjectLike(SettingsIn(dev, kind)) ==>
              AppendedTo(dev, AddRule(dev, kind, limit), kind, Or(ListIn(dev, kind), List([])), limit)
  {
    var s := SettingsIn(dev, kind);
    if HasTemplate(dev, kind) && IsObjectLike(s) {
      var s1 := Put(s, "rules", Or(Get(s, "rules"), List([])));
      GetPut(s, "rules", Or(Get(s, "rules"), List([])));
      RepairList(dev, kind, s1);
      AppendFacts(dev, WithSettings(dev, kind, s1), kind, limit);
    }
  }

  /** `removeMqttRule` and `removeFlagRule` splice the rule list. */
  lemma RemoveRuleFacts(dev: Value, kind: string, idx: Option<int>)
    requires kind in {"on_mqtt_event", "on_flag"}
    ensures !HasTemplate(dev, kind) ==> RemoveRule(dev, kind, idx) == Kept(dev)
    ensures HasTemplate(dev, kind) ==> RemovedFrom(dev, RemoveRule(dev, kind, idx), kind, ListIn(dev, kind), idx)
  {
    if HasTemplate(dev, kind) {
      ListReplacedSelf(dev, kind);
      RemoveAtFacts(dev, dev, kind, idx);
    }
  }

  /** The step list the sequence handlers work on. */
  function StepsOf(dev: Value): Value {
    var steps := ListIn(dev, "sequence_lock");
    if steps.Arr? then steps else List([])
  }

  /** `addSequenceStep`: nothing without truthy sequence settings; a
      missing step list starts empty, the steps are held to 8 and a blank
      step is appended. */
  lemma AddSequenceStepFacts(dev: Value)
    ensures var s := SettingsIn(dev, "sequence_lock");
            (!HasTemplate(dev, "sequence_lock") || !Truthy(s) ==> AddSequenceStep(dev) == Kept(dev))
            && (HasTemplate(dev, "sequence_lock") && Truthy(s) && !IsObjectLike(s) ==> AddSequenceStep(dev) == Threw)
            && (HasTemplate(dev, "sequence_lock") && IsObjectLike(s) ==>
                  AppendedTo(dev, AddSequenceStep(dev), "sequence_lock", StepsOf(dev), SequenceStepLimit))
  {
    var s := SettingsIn(dev, "sequence_lock");
    if HasTemplate(dev, "sequence_lock") && IsObjectLike(s) {
      var s1 := StepsArray(s);
      GetPut(s, "steps", List([]));
      RepairList(dev, "sequence_lock", s1);
      AppendFacts(dev, WithSettings(dev, "sequence_lock", s1), "sequence_lock", SequenceStepLimit);
    }
  }

  /** The repair both sequence handlers start with replaces only the step
      list, by the array it works on. */
  lemma StepsRepair(dev: Value)
    requires HasTemplate(dev, "sequence_lock") && IsObjectLike(SettingsIn(dev, "sequence_lock"))
    ensures var d1 := WithSettings(dev, "sequence_lock", StepsArray(SettingsIn(dev, "sequence_lock")));
            ListReplaced(dev, d1, "sequence_lock", StepsOf(dev))
            && SettingsIn(d1, "sequence_lock") == StepsArray(SettingsIn(dev, "sequence_lock"))
  {
    var s := SettingsIn(dev, "sequence_lock");
    GetPut(s, "steps", List([]));
    RepairList(dev, "sequence_lock", StepsArray(s));
  }

  /** `removeSequenceStep(idx)` with a `NaN` or out-of-range index leaves
      the steps as they were (after the repair). */
  lemma RemoveSequenceStepIgnores(dev: Value, idx: Option<int>)
    requires HasTemplate(dev, "sequence_lock") && IsObjectLike(SettingsIn(dev, "sequence_lock"))
    requires idx.None? || idx.value < 0 || idx.value >= |StepsOf(dev).items|
    ensures var r := RemoveSequenceStep(dev, idx);
            r.Done? && !r.value.changed && ListReplaced(dev, r.value.value, "sequence_lock", StepsOf(dev))
  {
    StepsRepair(dev);
  }

  /** `removeSequenceStep(idx)` with an index inside the list removes exactly
      that step and changes nothing else. */
  lemma RemoveSequenceStepRemoves(dev: Value, i: int)
    requires HasTemplate(dev, "sequence_lock") && IsObjectLike(SettingsIn(dev, "sequence_lock"))
    requires 0 <= i < |StepsOf(dev).items|
    ensures var steps := StepsOf(dev);
            var r := RemoveSequenceStep(dev, Some(i));
            r.Done? && r.value.changed
            && ListReplaced(dev, r.value.value, "sequence_lock", Arr(steps.items[..i] + steps.items[i + 1..], steps.named))
  {
    var d1 := WithSettings(dev, "sequence_lock", StepsArray(SettingsIn(dev, "sequence_lock")));
    StepsRepair(dev);
    RemoveAtFacts(dev, d1, "sequence_lock", Some(i));
  }

  /** `removeSequenceStep(idx)` does nothing without truthy sequence
      settings. */
  lemma RemoveSequenceStepGuard(dev: Value, idx: Option<int>)
    requires !HasTemplate(dev, "sequence_lock") || !Truthy(SettingsIn(dev, "sequence_lock"))
    ensures RemoveSequenceStep(dev, idx) == Kept(dev)
  {
  }

  lemma EditorConditionFieldsRepair(x: Value)
    ensures FieldsRepair(EditorConditionFields, "rules", x)
  {
    if IsObjectLike(x) {
      var keys := {"true_scenario", "false_scenario"};
      var y := Put(x, "mode", Or(Get(x, "mode"), Str("all")));
      GetPut(x, "mode", Or(Get(x, "mode"), Str("all")));
      var z := FillText(y, keys);
      GetFillText(y, keys);
      assert "rules" !in keys && "mode" !in keys;
      PutOfGet(z, "mode");
      FillTextKeeps(z, keys);
    }
  }

  /** After the editor's repair the template is still a condition whose
      rules are an array, the device keeps its other properties, and a
      second repair changes nothing. */
  lemma EnsureEditorConditionSettles(dev: Value)
    requires HasTemplate(dev, "if_condition") && EnsureEditorCondition(dev).Done?
    ensures var d := EnsureEditorCondition(dev).value;
            HasTemplate(d, "if_condition") && ListIn(d, "if_condition").Arr?
            && (forall k :: k != "template" ==> Get(d, k) == Get(dev, k))
            && EnsureEditorCondition(d) == Done(d)
  {
    forall x ensures FieldsRepair(EditorConditionFields, "rules", x) { EditorConditionFieldsRepair(x); }
    forall x ensures FixConditionRule(x).Done? ==> FixConditionRule(FixConditionRule(x).value) == FixConditionRule(x) {
      if FixConditionRule(x).Done? { FixConditionRuleIdempotent(x); }
    }
    RepairSettled(dev, "if_condition", "rules", FixConditionRule, EditorConditionFields);
    RepairIdempotent(dev, "if_condition", "rules", FixConditionRule, EditorConditionFields);
    var s := SettingsOf(dev, "if_condition");
    var s1 := if Get(s, "rules").Arr? then s else Put(s, "rules", List([]));
    var list := Get(s1, "rules");
    var f := EditorConditionFields(Put(s1, "rules", Arr(MapAll(list.items, FixConditionRule).value, list.named)));
    assert IsObjectLike(Get(dev, "template"));
    WithSettingsFacts(dev, "if_condition", f);
  }

  /** The mode after the editor's repair is the old one when it was truthy,
      "all" otherwise; the wizard's repair keeps only "any". */
  lemma EnsureEditorConditionMode(dev: Value)
    requires HasTemplate(dev, "if_condition") && EnsureEditorCondition(dev).Done?
    ensures Get(SettingsIn(EnsureEditorCondition(dev).value, "if_condition"), "mode")
              == Or(Get(SettingsOf(dev, "if_condition"), "mode"), Str("all"))
  {
    forall x ensures FieldsRepair(EditorConditionFields, "rules", x) { EditorConditionFieldsRepair(x); }
    RepairSettled(dev, "if_condition", "rules", FixConditionRule, EditorConditionFields);
    var s := SettingsOf(dev, "if_condition");
    var s1 := if Get(s, "rules").Arr? then s else Put(s, "rules", List([]));
    var list := Get(s1, "rules");
    var s2 := Put(s1, "rules", Arr(MapAll(list.items, FixConditionRule).value, list.named));
    GetPut(s, "rules", List([]));
    GetPut(s1, "rules", Arr(MapAll(list.items, FixConditionRule).value, list.named));
    EditorConditionFieldsMode(s2);
    RepairStores(dev, "if_condition", EditorConditionFields(s2));
  }

  lemma EditorConditionFieldsMode(x: Value)
    requires IsObjectLike(x)
    ensures Get(EditorConditionFields(x), "mode") == Or(Get(x, "mode"), Str("all"))
  {
    var keys := {"true_scenario", "false_scenario"};
    GetPut(x, "mode", Or(Get(x, "mode"), Str("all")));
    GetFillText(Put(x, "mode", Or(Get(x, "mode"), Str("all"))), keys);
    assert "mode" !in keys;
  }


  /** `addConditionRule`: throws only where the repair throws; after it the
      rules are held to 8 and a blank rule is appended. */
  lemma AddConditionRuleFacts(dev: Value)
    ensures !HasTemplate(dev, "if_condition") ==> AddConditionRule(dev) == Kept(dev)
    ensures HasTemplate(dev, "if_condition") ==> (AddConditionRule(dev).Threw? <==> EnsureEditorCondition(dev).Threw?)
    ensures HasTemplate(dev, "if_condition") && EnsureEditorCondition(dev).Done? ==>
              var d := EnsureEditorCondition(dev).value;
              AppendedTo(d, AddConditionRule(dev), "if_condition", ListIn(d, "if_condition"), FlagRuleLimit)
  {
    if HasTemplate(dev, "if_condition") && EnsureEditorCondition(dev).Done? {
      var d := EnsureEditorCondition(dev).value;
      EnsureEditorConditionSettles(dev);
      ListReplacedSelf(d, "if_condition");
      AppendFacts(d, d, "if_condition", FlagRuleLimit);
    }
  }

  /** `removeConditionRule`: throws only where the repair throws; after it
      the rule at the normalised index is spliced out. */
  lemma RemoveConditionRuleFacts(dev: Value, idx: Option<int>)
    ensures !HasTemplate(dev, "if_condition") ==> RemoveConditionRule(dev, idx) == Kept(dev)
    ensures HasTemplate(dev, "if_condition") ==>
              (RemoveConditionRule(dev, idx).Threw? <==> EnsureEditorCondition(dev).Threw?)
    ensures HasTemplate(dev, "if_condition") && EnsureEditorCondition(dev).Done? ==>
              var d := EnsureEditorCondition(dev).value;
              RemovedFrom(d, RemoveConditionRule(dev, idx), "if_condition", ListIn(d, "if_condition"), idx)
  {
    if HasTemplate(dev, "if_condition") && EnsureEditorCondition(dev).Done? {
      var d := EnsureEditorCondition(dev).value;
      EnsureEditorConditionSettles(dev);
      ListReplacedSelf(d, "if_condition");
      RemoveAtFacts(d, d, "if_condition", idx);
    }
  }

  // ----- removing what was just added -----

  /** Removing the slot `addSlot` just appended gives the device back. */
  lemma AddSlotThenRemove(dev: Value)
    requires HasTemplate(dev, "uid_validator") && ListIn(dev, "uid_validator").Arr?
    requires AddSlot(dev).Done? && AddSlot(dev).value.changed
    ensures RemoveSlot(AddSlot(dev).value.value, Some(|ListIn(dev, "uid_validator").items|)) == Marked(dev)
  {
    AddSlotFacts(dev);
    AppendThenRemove(dev, "uid_validator", UidSlotLimit);
  }

  /** Where the rules are already an array, `rules = rules || []` changes
      nothing. */
  lemma RulesPresent(dev: Value, kind: string)
    requires kind in {"on_mqtt_event", "on_flag"} && HasTemplate(dev, kind) && ListIn(dev, kind).Arr?
    ensures var s := SettingsIn(dev, kind);
            WithSettings(dev, kind, Put(s, "rules", Or(Get(s, "rules"), List([])))) == dev
  {
    var t := Get(dev, "template");
    var s := SettingsIn(dev, kind);
    PutOfGet(s, "rules");
    PutOfGet(t, SettingsKey(kind));
    PutOfGet(dev, "template");
  }

  /** Removing the rule `addMqttRule` or `addFlagRule` just appended gives
      the device back. */
  lemma AddRuleThenRemove(dev: Value, kind: string, limit: nat)
    requires kind in {"on_mqtt_event", "on_flag"} && HasTemplate(dev, kind) && ListIn(dev, kind).Arr?
    requires AddRule(dev, kind, limit).Done? && AddRule(dev, kind, limit).value.changed
    ensures RemoveRule(AddRule(dev, kind, limit).value.value, kind, Some(|ListIn(dev, kind).items|)) == Marked(dev)
  {
    RulesPresent(dev, kind);
    assert AddRule(dev, kind, limit) == Append(dev, kind, SettingsIn(dev, kind), limit);
    ListReplacedSelf(dev, kind);
    AppendFacts(dev, dev, kind, limit);
    AppendThenRemove(dev, kind, limit);
  }

  // ----- the interval and timeout inputs -----

  /** The interval `handleInput` stores: the typed number or the default
      1000, never below 1. */
  function EditorIntervalInput(text: string): (r: int)
    ensures r >= 1 && (ParseInt(text) == Some(r) || r == 1000)
  {
    match ParseInt(text)
    case Some(v) => if v > 0 then v else 1000
    case None => 1000
  }

  /** The timeout `handleInput` stores: the typed number or 0, never
      negative. */
  function EditorTimeoutInput(text: string): (r: int)
    ensures r >= 0 && (ParseInt(text) == Some(r) || r == 0)
  {
    match ParseInt(text)
    case Some(v) => if v >= 0 then v else 0
    case None => 0
  }

  /** The editor and the wizard store the same interval except for a typed
      number below 1, which the editor replaces by 1000 and the wizard by 1. */
  lemma IntervalInputsCompared(text: string)
    ensures ParseInt(text).Some? && ParseInt(text).value > 0 ==>
              EditorIntervalInput(text) == WizardEdits.IntervalInput(text) == ParseInt(text).value
    ensures ParseInt(text).None? ==> EditorIntervalInput(text) == WizardEdits.IntervalInput(text) == 1000
    ensures ParseInt(text).Some? && ParseInt(text).value <= 0 ==>
              EditorIntervalInput(text) == 1000 && WizardEdits.IntervalInput(text) == 1
  {
  }

  /** The editor and the wizard store the same timeout for every text. */
  lemma TimeoutInputsAgree(text: string)
    ensures EditorTimeoutInput(text) == WizardEdits.TimeoutInput(text)
    ensures ParseInt(text).Some? && ParseInt(text).value >= 0 ==> EditorTimeoutInput(text) == ParseInt(text).value
  {
  }

  /** An input of the form that stores `x` under `key` in the settings of
      `kind`, guarded by `dev.template.type === kind` and truthy settings. */
  function SetSetting(dev: Value, kind: string, key: string, x: Value): Edited {
    if !HasTemplate(dev, kind) || !Truthy(SettingsIn(dev, kind)) then Edited(dev, false)
    else Edited(WithSettings(dev, kind, Put(SettingsIn(dev, kind), key, x)), true)
  }

  /** The `interval_ms` input of an interval task. */
  function SetIntervalMs(dev: Value, text: string): Edited {
    SetSetting(dev, "interval_task", "interval_ms", Num(EditorIntervalInput(text)))
  }

  /** The `timeout_ms` input of a sequence lock. */
  function SetTimeoutMs(dev: Value, text: string): Edited {
    SetSetting(dev, "sequence_lock", "timeout_ms", Num(EditorTimeoutInput(text)))
  }

  /** Only a device with the template and truthy settings is edited; the
      value reads back, and no other setting or device property changes. */
  lemma SetSettingFacts(dev: Value, kind: string, key: string, x: Value)
    requires kind in TemplateTypes
    ensures var r := SetSetting(dev, kind, key, x);
            (r.changed <==> HasTemplate(dev, kind) && Truthy(SettingsIn(dev, kind)))
            && (!r.changed ==> r.value == dev)
            && (r.changed ==>
                  HasTemplate(r.value, kind)
                  && (forall k :: k != "template" ==> Get(r.value, k) == Get(dev, k))
                  && (forall k :: k != key ==> Get(SettingsIn(r.value, kind), k) == Get(SettingsIn(dev, kind), k))
                  && (IsObjectLike(SettingsIn(dev, kind)) ==> Get(SettingsIn(r.value, kind), key) == x))
  {
    if HasTemplate(dev, kind) && Truthy(SettingsIn(dev, kind)) {
      var s := SettingsIn(dev, kind);
      assert IsObjectLike(Get(dev, "template"));
      GetPut(s, key, x);
      WithSettingsFacts(dev, kind, Put(s, key, x));
    }
  }

  /** The interval of an interval task is stored as at least 1. */
  lemma SetIntervalMsFacts(dev: Value, text: string)
    requires HasTemplate(dev, "interval_task") && IsObjectLike(SettingsIn(dev, "interval_task"))
    ensures var r := SetIntervalMs(dev, text);
            r.changed && HasTemplate(r.value, "interval_task")
            && Get(SettingsIn(r.value, "interval_task"), "interval_ms") == Num(EditorIntervalInput(text))
            && Get(SettingsIn(r.value, "interval_task"), "interval_ms").n >= 1
            && forall k :: k != "interval_ms" ==>
                 Get(SettingsIn(r.value, "interval_task"), k) == Get(SettingsIn(dev, "interval_task"), k)
  {
    SetSettingFacts(dev, "interval_task", "interval_ms", Num(EditorIntervalInput(text)));
  }

  /** The timeout of a sequence lock is stored as at least 0. */
  lemma SetTimeoutMsFacts(dev: Value, text: string)
    requires HasTemplate(dev, "sequence_lock") && IsObjectLike(SettingsIn(dev, "sequence_lock"))
    ensures var r := SetTimeoutMs(dev, text);
            r.changed && HasTemplate(r.value, "sequence_lock")
            && Get(SettingsIn(r.value, "sequence_lock"), "timeout_ms") == Num(EditorTimeoutInput(text))
            && Get(SettingsIn(r.value, "sequence_lock"), "timeout_ms").n >= 0
            && forall k :: k != "timeout_ms" ==>
                 Get(SettingsIn(r.value, "sequence_lock"), k) == Get(SettingsIn(dev, "sequence_lock"), k)
  {
    SetSettingFacts(dev, "sequence_lock", "timeout_ms", Num(EditorTimeoutInput(text)));
  }

  // ----- prepareModelForSave -----

  /** `prepareModelForSave(model)`: a JSON copy of the model (of `{}` when
      it is falsy) whose devices, when they are an array, each lose the
      uid slots' `last_value`. */
  function PrepareModelForSave(model: Value): Value {
    var clone := JsonClone(Or(model, EmptyObject));
    var ds := Get(clone, "devices");
    if ds.Arr? then
      Put(clone, "devices",
          Arr(seq(|ds.items|, i requires 0 <= i < |ds.items| => WizardConfig.StripTemplateRuntimeFields(ds.items[i])), ds.named))
    else clone
  }

  /** No uid slot of a device holds a `last_value`. */
  ghost predicate NoLastValue(dev: Value) {
    var slots := Get(Get(Get(dev, "template"), "uid"), "slots");
    slots.Arr? ==> forall j :: 0 <= j < |slots.items| && IsObjectLike(slots.items[j]) ==>
                     Get(slots.items[j], "last_value").Undefined?
  }

  lemma StrippedHasNoLastValue(dev: Value)
    ensures NoLastValue(WizardConfig.StripTemplateRuntimeFields(dev))
  {
    WizardConfig.StripTemplateRuntimeFieldsFacts(dev);
    var t := Get(dev, "template");
    var uid := Get(t, "uid");
    var slots := Get(uid, "slots");
    var out := Get(Get(Get(WizardConfig.StripTemplateRuntimeFields(dev), "template"), "uid"), "slots");
    if Truthy(dev) && Truthy(t) && Truthy(uid) && slots.Arr? {
      forall j | 0 <= j < |out.items| && IsObjectLike(out.items[j])
        ensures Get(out.items[j], "last_value").Undefined?
      {
        WizardConfig.StripSlotFacts(slots.items[j]);
      }
    } else {
      assert !out.Arr?;
    }
  }

  /** The saved model is the copy with only its devices replaced, each by
      its stripped form, in order; no uid slot in it holds a `last_value`. */
  lemma PrepareModelForSaveFacts(model: Value)
    ensures var clone := JsonClone(Or(model, EmptyObject));
            var ds := Get(clone, "devices");
            var r := PrepareModelForSave(model);
            (forall k :: k != "devices" ==> Get(r, k) == Get(clone, k))
            && (!ds.Arr? ==> r == clone)
            && (ds.Arr? ==>
                  var out := Get(r, "devices");
                  out.Arr? && |out.items| == |ds.items|
                  && forall i :: 0 <= i < |ds.items| ==>
                       out.items[i] == WizardConfig.StripTemplateRuntimeFields(ds.items[i]) && NoLastValue(out.items[i]))
  {
    var clone := JsonClone(Or(model, EmptyObject));
    var ds := Get(clone, "devices");
    if ds.Arr? {
      var stripped := seq(|ds.items|, i requires 0 <= i < |ds.items| => WizardConfig.StripTemplateRuntimeFields(ds.items[i]));
      GetPut(clone, "devices", Arr(stripped, ds.named));
      forall i | 0 <= i < |ds.items| ensures NoLastValue(stripped[i]) {
        StrippedHasNoLastValue(ds.items[i]);
      }
    }
  }

  // ----- the editor state -----

  /** The buttons of the template form, by `data-action`, with the index
      `parseInt` reads from the button (`None` for `NaN`). */
  datatype Action =
    | SlotAdd | SlotRemove(index: Option<int>)
    | SequenceStepAdd | SequenceStepRemove(index: Option<int>)
    | MqttRuleAdd | MqttRuleRemove(index: Option<int>)
    | FlagRuleAdd | FlagRuleRemove(index: Option<int>)
    | ConditionRuleAdd | ConditionRuleRemove(index: Option<int>)

  /** The handler a button runs on the selected device. */
  function Handle(action: Action, dev: Value): Completion<Edited> {
    match action
    case SlotAdd => AddSlot(dev)
    case SlotRemove(i) => RemoveSlot(dev, i)
    case SequenceStepAdd => AddSequenceStep(dev)
    case SequenceStepRemove(i) => RemoveSequenceStep(dev, i)
    case MqttRuleAdd => AddRule(dev, "on_mqtt_event", MqttRuleLimit)
    case MqttRuleRemove(i) => RemoveRule(dev, "on_mqtt_event", i)
    case FlagRuleAdd => AddRule(dev, "on_flag", FlagRuleLimit)
    case FlagRuleRemove(i) => RemoveRule(dev, "on_flag", i)
    case ConditionRuleAdd => AddConditionRule(dev)
    case ConditionRuleRemove(i) => RemoveConditionRule(dev, i)
  }

  /** The device `addDevice` creates; `stamp` stands for the clock reading
      `Date.now().toString(16)`. */
  function NewDevice(stamp: string): Value {
    Obj(map["id" := Str("device_" + stamp), "display_name" := Str("Device"), "template" := Null,
            "tabs" := List([]), "topics" := List([]), "scenarios" := List([])])
  }

  /** The editor's device list, selection and dirty flag. */
  class Editor {
    var devices: seq<Value>
    var selected: int
    var dirty: bool

    /** The selection is the index of a device, or -1. */
    ghost predicate Valid() reads this {
      -1 <= selected < |devices|
    }

    /** The state `loadProfiles` leaves: the loaded devices with the first
        one selected, and nothing to save. */
    constructor (loaded: seq<Value>)
      ensures Valid()
      ensures devices == loaded && selected == (if loaded == [] then -1 else 0) && !dirty
    {
      devices := loaded;
      selected := if loaded == [] then -1 else 0;
      dirty := false;
    }

    /** `state.devices[state.selectedDevice]`. */
    function Selected(): Value
      reads this
    {
      if 0 <= selected < |devices| then devices[selected] else Undefined
    }

    /** `selectDevice(idx)`: an index outside the list is ignored. */
    method SelectDevice(idx: int)
      requires Valid()
      modifies this
      ensures Valid()
      ensures devices == old(devices) && dirty == old(dirty)
      ensures selected == if 0 <= idx < |devices| then idx else old(selected)
    {
      if idx < 0 || idx >= |devices| {
        return;
      }
      selected := idx;
    }

    /** `addDevice`: at 12 devices nothing changes; otherwise the new
        device is appended and selected. The list never grows past 12. */
    method AddDevice(stamp: string)
      requires Valid()
      modifies this
      ensures Valid()
      ensures |old(devices)| >= DeviceLimit ==>
                devices == old(devices) && selected == old(selected) && dirty == old(dirty)
      ensures |old(devices)| < DeviceLimit ==>
                devices == old(devices) + [NewDevice(stamp)] && selected == |devices| - 1 && dirty
      ensures |devices| <= Max(|old(devices)|, DeviceLimit)
    {
      if |devices| >= DeviceLimit {
        return;
      }
      devices := devices + [NewDevice(stamp)];
      selected := |devices| - 1;
      dirty := true;
    }

    /** `removeDevice`: without a selection nothing changes; otherwise the
        selected device is removed, the others keep their order, and the
        selection stays at its index unless that is now past the end. */
    method RemoveDevice()
      requires Valid()
      modifies this
      ensures Valid()
      ensures old(selected) < 0 ==> devices == old(devices) && selected == old(selected) && dirty == old(dirty)
      ensures old(selected) >= 0 ==>
                devices == old(devices)[..old(selected)] + old(devices)[old(selected) + 1..]
                && selected == Min(old(selected), |devices| - 1) && dirty
      ensures selected == -1 <==> old(selected) == -1 || devices == []
    {
      if selected < 0 {
        return;
      }
      devices := SpliceOut(devices, Some(selected));
      selected := Min(selected, |devices| - 1);
      dirty := true;
    }

    /** The template selector: `assignTemplate` on the selected device. */
    method ChooseTemplate(kind: string)
      requires Valid()
      modifies this
      ensures Valid()
      ensures selected == old(selected)
      ensures !Truthy(old(Selected())) ==> devices == old(devices) && dirty == old(dirty)
      ensures Truthy(old(Selected())) ==>
                devices == old(devices)[selected := AssignTemplate(old(Selected()), kind)] && dirty
    {
      var dev := Selected();
      if !Truthy(dev) {
        return;
      }
      devices := devices[selected := AssignTemplate(dev, kind)];
      dirty := true;
    }

    /** A button of the template form: its handler runs on the selected
        device, whose edited form is stored back; a handler that throws
        leaves the state as it was. */
    method Click(action: Action)
      requires Valid()
      modifies this
      ensures Valid()
      ensures var r := Handle(action, old(Selected()));
              selected == old(selected)
              && (r.Threw? || !(0 <= selected < |old(devices)|) ==> devices == old(devices))
              && (r.Done? && 0 <= selected < |old(devices)| ==> devices == old(devices)[selected := r.value.value])
              && dirty == (old(dirty) || (r.Done? && r.value.changed))
    {
      var r := Handle(action, Selected());
      if r.Done? {
        if 0 <= selected < |devices| {
          devices := devices[selected := r.value.value];
        }
        if r.value.changed {
          dirty := true;
        }
      }
    }
  }
}
