/** Loading and saving a whole configuration in the wizard
    (`devices_wizard.js`): `normalizeLoadedConfig` with `normalizeDevice`
    and `normalizeScenario`, and `prepareConfigForSave` with
    `serializeScenarioForSave` and `stripTemplateRuntimeFields`. */
module WizardConfig {
  import opened Common
  import opened JsValue
  import opened WizardTemplates
  import opened WizardSteps

  // ----- loading -----

  /** `if (!Array.isArray(o[k])) o[k] = []`. */
  function ArrayField(o: Value, k: string): Value {
    if Get(o, k).Arr? then o else Put(o, k, List([]))
  }

  /** `arr.forEach(f)` where `f` repairs each element in place: the array
      keeps its named properties and holds the repaired elements. */
  function ForEachIn(o: Value, k: string, f: Value -> Completion<Value>): Completion<Value> {
    var list := Get(o, k);
    match MapAll(ItemsOf(list), f)
    case Threw => Threw
    case Done(xs) => Done(Put(o, k, Arr(xs, if list.Arr? then list.named else map[])))
  }

  /** `normalizeScenario(scen)`: anything but an object is left alone; the
      button flag becomes a boolean, the label a string, the steps an array
      of loaded steps. */
  function NormalizeScenario(scen: Value): Completion<Value> {
    if !IsObjectLike(scen) then Done(scen)
    else
      var s1 := Put(scen, "button_enabled", AsBool(Get(scen, "button_enabled")));
      var s2 := if Get(s1, "button_label").Str? then s1 else Put(s1, "button_label", EmptyString);
      ForEachIn(ArrayField(s2, "steps"), "steps", NormalizeStep)
  }

  /** `normalizeDevice(dev)`: anything but an object is left alone; an empty
      display name is taken from `name || id || ''`, an empty `name` from the
      display name, the scenarios become an array of loaded scenarios, and a
      `signal_hold` template is repaired. */
  function NormalizeDevice(dev: Value): Completion<Value> {
    if !IsObjectLike(dev) then Done(dev)
    else
      match ForEachIn(ArrayField(NamedDevice(dev), "scenarios"), "scenarios", NormalizeScenario)
      case Threw => Threw
      case Done(d3) => Done(if HasTemplate(d3, "signal_hold") then EnsureSignal(d3) else d3)
  }

  /** `normalizeLoadedConfig(cfg)`: a configuration that is not an object is
      replaced by `{devices: []}`, a `devices` that is not an array by `[]`,
      and every device is loaded. */
  function NormalizeLoadedConfig(cfg: Value): Completion<Value> {
    var model := if IsObjectLike(cfg) then cfg else Obj(map["devices" := List([])]);
    ForEachIn(ArrayField(model, "devices"), "devices", NormalizeDevice)
  }

  // ----- saving -----

  /** `stripTemplateRuntimeFields(dev)`: deletes `last_value` from every uid
      slot and touches nothing else. */
  function StripTemplateRuntimeFields(dev: Value): Value {
    var t := Get(dev, "template");
    var uid := Get(t, "uid");
    if !Truthy(dev) || !Truthy(t) || !Truthy(uid) || !Get(uid, "slots").Arr? then dev
    else
      var slots := Get(uid, "slots");
      var stripped := seq(|slots.items|, i requires 0 <= i < |slots.items| => StripSlot(slots.items[i]));
      Put(dev, "template", Put(t, "uid", Put(uid, "slots", Arr(stripped, slots.named))))
  }

  /** `if (slot && hasOwnProperty(slot, 'last_value')) delete slot.last_value`. */
  function StripSlot(slot: Value): Value {
    if Truthy(slot) && IsObjectLike(slot) && !Get(slot, "last_value").Undefined? then Delete(slot, "last_value") else slot
  }

  /** `Object.assign({}, scen)`: the own properties of an object; an array
      gives its named properties only, a primitive none. */
  function ShallowCopy(v: Value): Value {
    match v
    case Obj(props) => Obj(props)
    case Arr(_, named) => Obj(named)
    case _ => EmptyObject
  }

  /** `serializeScenarioForSave(scen)`: a copy whose steps are saved; steps
      that are not an array become `[]`. A `null` scenario throws. */
  function SerializeScenario(scen: Value): Completion<Value> {
    if Nullish(scen) then Threw
    else
      var next := ShallowCopy(scen);
      var steps := Get(scen, "steps");
      if !steps.Arr? then Done(Put(next, "steps", List([])))
      else
        match MapAll(steps.items, SerializeStep)
        case Threw => Threw
        case Done(xs) => Done(Put(next, "steps", List(xs)))
  }

  /** The two properties the saver writes the device's name into. */
  const NameKeys: set<string> := {"display_name", "name"}

  /** The display name a device is saved with. */
  function SavedName(dev: Value): Value {
    Str(ToSafeString(Or(Or(Or(Get(dev, "display_name"), Get(dev, "name")), Get(dev, "id")), Str("Device"))))
  }

  /** The body of the `snapshot.devices.forEach` of `prepareConfigForSave`. */
  function PrepareDevice(dev: Value): Completion<Value> {
    if !IsObjectLike(dev) then Done(dev)
    else if !Get(dev, "scenarios").Arr? then Done(Put(dev, "scenarios", List([])))
    else
      match MapAll(Get(dev, "scenarios").items, SerializeScenario)
      case Threw => Threw
      case Done(scens) => Done(SavedDevice(Put(dev, "scenarios", List(scens))))
  }

  /** The rest of that body once the scenarios are saved: both names set,
      runtime values stripped, truthy `tabs` deleted. */
  function SavedDevice(dev: Value): Value {
    var name := SavedName(dev);
    var d := StripTemplateRuntimeFields(Put(Put(dev, "display_name", name), "name", name));
    if Truthy(Get(d, "tabs")) then Delete(d, "tabs") else d
  }

  /** The snapshot `prepareConfigForSave` starts from: a JSON copy of the
      model (of `{}` when it is falsy) whose `devices` is an array. Reading
      `devices` of a copy that is a primitive throws. */
  function Snapshot(model: Value): Completion<Value> {
    var snap := JsonClone(Or(model, EmptyObject));
    if !IsObjectLike(snap) then Threw else Done(ArrayField(snap, "devices"))
  }

  /** `prepareConfigForSave(model)`. */
  function PrepareConfig(model: Value): Completion<Value> {
    match Snapshot(model)
    case Threw => Threw
    case Done(snap) => SaveDevices(snap)
  }

  /** The rest of `prepareConfigForSave` once the snapshot is taken: every
      device saved, then `tab_limit` deleted. */
  function SaveDevices(snap: Value): Completion<Value> {
    match ForEachIn(snap, "devices", PrepareDevice)
    case Threw => Threw
    case Done(s1) => Done(if Get(s1, "tab_limit").Undefined? then s1 else Delete(s1, "tab_limit"))
  }

  // ----- properties of the loader -----

  /** What `ForEachIn` leaves: the other properties unchanged and, under
      `k`, an array of the repaired elements in order. */
  lemma ForEachInFacts(o: Value, k: string, f: Value -> Completion<Value>)
    requires IsObjectLike(o) && Get(o, k).Arr?
    ensures var xs := Get(o, k).items;
            var r := ForEachIn(o, k, f);
            (r.Done? <==> forall i :: 0 <= i < |xs| ==> f(xs[i]).Done?)
            && (r.Done? ==>
                  IsObjectLike(r.value)
                  && (forall j :: j != k ==> Get(r.value, j) == Get(o, j))
                  && Get(r.value, k).Arr? && Get(r.value, k).named == Get(o, k).named
                  && |Get(r.value, k).items| == |xs|
                  && forall i :: 0 <= i < |xs| ==> Get(r.value, k).items[i] == f(xs[i]).value)
  {
    var list := Get(o, k);
    var m := MapAll(list.items, f);
    if m.Done? {
      GetPut(o, k, Arr(m.value, list.named));
    }
  }

  lemma ArrayFieldFacts(o: Value, k: string)
    requires IsObjectLike(o)
    ensures IsObjectLike(ArrayField(o, k)) && Get(ArrayField(o, k), k).Arr?
    ensures Get(o, k).Arr? ==> ArrayField(o, k) == o
    ensures !Get(o, k).Arr? ==> Get(ArrayField(o, k), k) == List([])
    ensures forall j :: j != k ==> Get(ArrayField(o, k), j) == Get(o, j)
  {
    GetPut(o, k, List([]));
  }

  /** A loaded scenario has a boolean button flag, a string label and an
      array of loaded steps. */
  lemma NormalizeScenarioShape(scen: Value)
    requires IsObjectLike(scen) && NormalizeScenario(scen).Done?
    ensures var r := NormalizeScenario(scen).value;
            var xs := ItemsOf(Get(scen, "steps"));
            Get(r, "button_enabled") == Bool(Truthy(Get(scen, "button_enabled")))
            && Get(r, "button_label") == (if Get(scen, "button_label").Str? then Get(scen, "button_label") else EmptyString)
            && Get(r, "steps").Arr? && |Get(r, "steps").items| == |xs|
            && forall i :: 0 <= i < |xs| ==> Get(r, "steps").items[i] == NormalizeStep(xs[i]).value
  {
    var s1 := Put(scen, "button_enabled", AsBool(Get(scen, "button_enabled")));
    GetPut(scen, "button_enabled", AsBool(Get(scen, "button_enabled")));
    var s2 := if Get(s1, "button_label").Str? then s1 else Put(s1, "button_label", EmptyString);
    GetPut(s1, "button_label", EmptyString);
    ArrayFieldFacts(s2, "steps");
    ForEachInFacts(ArrayField(s2, "steps"), "steps", NormalizeStep);
  }

  /** The signal repair of the loader touches nothing but the template. */
  lemma EnsureSignalKeeps(dev: Value)
    ensures forall k :: k != "template" ==> Get(EnsureSignal(dev), k) == Get(dev, k)
    ensures IsObjectLike(EnsureSignal(dev)) == IsObjectLike(dev)
  {
    if HasTemplate(dev, "signal_hold") {
      WithSettingsFacts(dev, "signal_hold", SignalFix(SettingsOf(dev, "signal_hold")));
      GetPut(dev, "template", Put(Get(dev, "template"), "signal", SignalFix(SettingsOf(dev, "signal_hold"))));
    }
  }

  /** The two name steps of `normalizeDevice`. */
  function NamedDevice(dev: Value): Value {
    var d1 := if Truthy(Get(dev, "display_name")) then dev
              else Put(dev, "display_name", Or(Or(Get(dev, "name"), Get(dev, "id")), EmptyString));
    if !Truthy(Get(d1, "name")) && Truthy(Get(d1, "display_name")) then Put(d1, "name", Get(d1, "display_name")) else d1
  }

  lemma NamedDeviceFacts(dev: Value)
    requires IsObjectLike(dev)
    ensures var dn := Or(Get(dev, "display_name"), Or(Or(Get(dev, "name"), Get(dev, "id")), EmptyString));
            var r := NamedDevice(dev);
            IsObjectLike(r)
            && Get(r, "display_name") == dn
            && Get(r, "name") == (if !Truthy(Get(dev, "name")) && Truthy(dn) then dn else Get(dev, "name"))
            && forall k :: k != "display_name" && k != "name" ==> Get(r, k) == Get(dev, k)
  {
    var d1 := if Truthy(Get(dev, "display_name")) then dev
              else Put(dev, "display_name", Or(Or(Get(dev, "name"), Get(dev, "id")), EmptyString));
    GetPut(dev, "display_name", Or(Or(Get(dev, "name"), Get(dev, "id")), EmptyString));
    GetPut(d1, "name", Get(d1, "display_name"));
  }

  /** A loaded device: an empty display name is filled from `name || id`,
      an empty name mirrors the display name, the scenarios are an array of
      loaded scenarios, only a `signal_hold` template is repaired, and no
      other property changes. */
  lemma NormalizeDeviceFacts(dev: Value)
    requires IsObjectLike(dev) && NormalizeDevice(dev).Done?
    ensures var r := NormalizeDevice(dev).value;
            var dn := Or(Get(dev, "display_name"), Or(Or(Get(dev, "name"), Get(dev, "id")), EmptyString));
            var xs := ItemsOf(Get(dev, "scenarios"));
            IsObjectLike(r)
            && Get(r, "display_name") == dn
            && Get(r, "name") == (if !Truthy(Get(dev, "name")) && Truthy(dn) then dn else Get(dev, "name"))
            && Get(r, "scenarios").Arr? && |Get(r, "scenarios").items| == |xs|
            && (forall i :: 0 <= i < |xs| ==> Get(r, "scenarios").items[i] == NormalizeScenario(xs[i]).value)
            && (!HasTemplate(dev, "signal_hold") ==> Get(r, "template") == Get(dev, "template"))
            && forall k :: k != "display_name" && k != "name" && k != "scenarios" && k != "template" ==> Get(r, k) == Get(dev, k)
  {
    var d2 := NamedDevice(dev);
    NamedDeviceFacts(dev);
    ArrayFieldFacts(d2, "scenarios");
    ForEachInFacts(ArrayField(d2, "scenarios"), "scenarios", NormalizeScenario);
    var d3 := ForEachIn(ArrayField(d2, "scenarios"), "scenarios", NormalizeScenario).value;
    EnsureSignalKeeps(d3);
  }

  /** A loaded configuration is an object whose `devices` is an array of
      loaded devices; anything but an object loads as `{devices: []}`. */
  lemma NormalizeLoadedConfigFacts(cfg: Value)
    ensures !IsObjectLike(cfg) ==> NormalizeLoadedConfig(cfg) == Done(Obj(map["devices" := List([])]))
    ensures var r := NormalizeLoadedConfig(cfg);
            var xs := ItemsOf(Get(cfg, "devices"));
            IsObjectLike(cfg) && r.Done? ==>
              IsObjectLike(r.value)
              && Get(r.value, "devices").Arr? && |Get(r.value, "devices").items| == |xs|
              && (forall i :: 0 <= i < |xs| ==> Get(r.value, "devices").items[i] == NormalizeDevice(xs[i]).value)
              && forall k :: k != "devices" ==> Get(r.value, k) == Get(cfg, k)
  {
    var model := if IsObjectLike(cfg) then cfg else Obj(map["devices" := List([])]);
    ArrayFieldFacts(model, "devices");
    ForEachInFacts(ArrayField(model, "devices"), "devices", NormalizeDevice);
    if !IsObjectLike(cfg) {
      var l := List([]);
      assert MapAll([], NormalizeDevice) == Done([]);
      assert Put(model, "devices", Arr([], map[])) == model by {
        assert model.props["devices" := l] == model.props;
      }
    }
  }

  /** `forEach` over elements that are already repaired changes nothing. */
  lemma ForEachInSettled(o: Value, k: string, f: Value -> Completion<Value>)
    requires IsObjectLike(o) && Get(o, k).Arr?
    requires forall i :: 0 <= i < |Get(o, k).items| ==> f(Get(o, k).items[i]) == Done(Get(o, k).items[i])
    ensures ForEachIn(o, k, f) == Done(o)
  {
    MapAllKeeps(Get(o, k).items, f);
    PutOfGet(o, k);
  }

  /** Loading a loaded scenario changes nothing. */
  lemma NormalizeScenarioIdempotent(scen: Value)
    requires NormalizeScenario(scen).Done?
    ensures NormalizeScenario(NormalizeScenario(scen).value) == NormalizeScenario(scen)
  {
    if IsObjectLike(scen) {
      var r := NormalizeScenario(scen).value;
      NormalizeScenarioShape(scen);
      var steps := Get(r, "steps").items;
      forall i | 0 <= i < |steps| ensures NormalizeStep(steps[i]) == Done(steps[i]) {
        NormalizeStepIdempotent(ItemsOf(Get(scen, "steps"))[i]);
      }
      PutOfGet(r, "button_enabled");
      assert AsBool(Get(r, "button_enabled")) == Get(r, "button_enabled");
      ForEachInSettled(r, "steps", NormalizeStep);
    }
  }

  /** Names `normalizeDevice` leaves as they are: a display name that is
      set, or empty together with the name and the id; a name that is set
      unless the display name is empty. */
  predicate NamesSettled(dev: Value) {
    (Truthy(Get(dev, "display_name"))
     || (Get(dev, "display_name") == EmptyString && !Truthy(Get(dev, "name")) && !Truthy(Get(dev, "id"))))
    && (Truthy(Get(dev, "name")) || !Truthy(Get(dev, "display_name")))
  }

  lemma NamedDeviceSettled(dev: Value)
    requires IsObjectLike(dev) && NamesSettled(dev)
    ensures NamedDevice(dev) == dev
  {
    if !Truthy(Get(dev, "display_name")) {
      PutOfGet(dev, "display_name");
    }
  }

  /** Loading a loaded device changes nothing. */
  lemma NormalizeDeviceIdempotent(dev: Value)
    requires NormalizeDevice(dev).Done?
    ensures NormalizeDevice(NormalizeDevice(dev).value) == NormalizeDevice(dev)
  {
    if IsObjectLike(dev) {
      var d2 := NamedDevice(dev);
      NamedDeviceFacts(dev);
      ArrayFieldFacts(d2, "scenarios");
      var d3 := ForEachIn(ArrayField(d2, "scenarios"), "scenarios", NormalizeScenario).value;
      ForEachInFacts(ArrayField(d2, "scenarios"), "scenarios", NormalizeScenario);
      var r := NormalizeDevice(dev).value;
      EnsureSignalKeeps(d3);
      NormalizeDeviceFacts(dev);
      // the names of `r` are settled
      NamedDeviceSettled(r);
      // its scenarios are settled
      var xs := Get(r, "scenarios").items;
      forall i | 0 <= i < |xs| ensures NormalizeScenario(xs[i]) == Done(xs[i]) {
        NormalizeScenarioIdempotent(ItemsOf(Get(dev, "scenarios"))[i]);
      }
      ArrayFieldFacts(r, "scenarios");
      ForEachInSettled(r, "scenarios", NormalizeScenario);
      // and so is its template
      EnsureSignalIdempotent(d3);
    }
  }

  /** Loading a loaded configuration changes nothing: what the wizard
      shows after a reload is what it showed before. */
  lemma NormalizeLoadedConfigIdempotent(cfg: Value)
    requires NormalizeLoadedConfig(cfg).Done?
    ensures NormalizeLoadedConfig(NormalizeLoadedConfig(cfg).value) == NormalizeLoadedConfig(cfg)
  {
    var r := NormalizeLoadedConfig(cfg).value;
    NormalizeLoadedConfigFacts(cfg);
    if IsObjectLike(cfg) {
      var xs := Get(r, "devices").items;
      forall i | 0 <= i < |xs| ensures NormalizeDevice(xs[i]) == Done(xs[i]) {
        NormalizeDeviceIdempotent(ItemsOf(Get(cfg, "devices"))[i]);
      }
      ArrayFieldFacts(r, "devices");
      ForEachInSettled(r, "devices", NormalizeDevice);
    } else {
      MapAllKeeps([], NormalizeDevice);
    }
  }

  // ----- properties of the saver -----

  /** A slot loses its `last_value` and nothing else. */
  lemma StripSlotFacts(slot: Value)
    ensures IsObjectLike(StripSlot(slot)) == IsObjectLike(slot)
    ensures IsObjectLike(slot) ==> Get(StripSlot(slot), "last_value").Undefined?
    ensures forall k :: k != "last_value" ==> Get(StripSlot(slot), k) == Get(slot, k)
  {
  }

  /** Stripping a device removes the uid slots' `last_value` and changes
      nothing outside the uid slots. */
  lemma StripTemplateRuntimeFieldsFacts(dev: Value)
    ensures var r := StripTemplateRuntimeFields(dev);
            IsObjectLike(r) == IsObjectLike(dev)
            && (forall k :: k != "template" ==> Get(r, k) == Get(dev, k))
            && (forall k :: k != "uid" ==> Get(Get(r, "template"), k) == Get(Get(dev, "template"), k))
            && (forall k :: k != "slots" ==> Get(Get(Get(r, "template"), "uid"), k) == Get(Get(Get(dev, "template"), "uid"), k))
    ensures var slots := Get(Get(Get(dev, "template"), "uid"), "slots");
            var r := StripTemplateRuntimeFields(dev);
            Truthy(dev) && Truthy(Get(dev, "template")) && Truthy(Get(Get(dev, "template"), "uid")) && slots.Arr? ==>
              var out := Get(Get(Get(r, "template"), "uid"), "slots");
              out.Arr? && |out.items| == |slots.items|
              && forall i :: 0 <= i < |slots.items| ==> out.items[i] == StripSlot(slots.items[i])
  {
    var t := Get(dev, "template");
    var uid := Get(t, "uid");
    var slots := Get(uid, "slots");
    if Truthy(dev) && Truthy(t) && Truthy(uid) && slots.Arr? {
      var stripped := seq(|slots.items|, i requires 0 <= i < |slots.items| => StripSlot(slots.items[i]));
      GetPut(uid, "slots", Arr(stripped, slots.named));
      GetPut(t, "uid", Put(uid, "slots", Arr(stripped, slots.named)));
      GetPut(dev, "template", Put(t, "uid", Put(uid, "slots", Arr(stripped, slots.named))));
    }
  }

  /** `Object.assign({}, v)` reads like `v` for every named key. */
  lemma ShallowCopyFacts(v: Value)
    ensures ShallowCopy(v).Obj?
    ensures forall k :: Get(ShallowCopy(v), k) == Get(v, k)
  {
  }

  /** A saved scenario: a nullish scenario throws; otherwise its steps are
      the saved steps (`[]` when they were not an array), saving throws iff
      one of the steps does, and every other property is copied. */
  lemma SerializeScenarioFacts(scen: Value)
    ensures var r := SerializeScenario(scen);
            var steps := Get(scen, "steps");
            (r.Threw? <==> Nullish(scen) || (steps.Arr? && exists i :: 0 <= i < |steps.items| && SerializeStep(steps.items[i]).Threw?))
            && (r.Done? ==>
                  r.value.Obj?
                  && Get(r.value, "steps").Arr? && |Get(r.value, "steps").items| == |ItemsOf(steps)|
                  && (forall i :: 0 <= i < |ItemsOf(steps)| ==> Get(r.value, "steps").items[i] == SerializeStep(steps.items[i]).value)
                  && forall k :: k != "steps" ==> Get(r.value, k) == Get(scen, k))
  {
    ShallowCopyFacts(scen);
    var steps := Get(scen, "steps");
    if !Nullish(scen) {
      if !steps.Arr? {
        GetPut(ShallowCopy(scen), "steps", List([]));
      } else {
        var m := MapAll(steps.items, SerializeStep);
        if m.Done? {
          GetPut(ShallowCopy(scen), "steps", List(m.value));
        }
      }
    }
  }

  /** The name a device is saved with depends only on its names. */
  lemma SavedNameOf(a: Value, b: Value)
    requires Get(a, "display_name") == Get(b, "display_name") && Get(a, "name") == Get(b, "name")
    requires Get(a, "id") == Get(b, "id")
    ensures SavedName(a) == SavedName(b)
  {
  }

  lemma SavedDeviceFacts(dev: Value)
    requires IsObjectLike(dev)
    ensures var r := SavedDevice(dev);
            IsObjectLike(r)
            && Get(r, "display_name") == SavedName(dev) && Get(r, "name") == SavedName(dev)
            && !Truthy(Get(r, "tabs"))
            && forall k :: k !in NameKeys && k != "tabs" && k != "template" ==> Get(r, k) == Get(dev, k)
  {
    var name := SavedName(dev);
    var n1 := Put(dev, "display_name", name);
    GetPut(dev, "display_name", name);
    GetPut(n1, "name", name);
    StripTemplateRuntimeFieldsFacts(Put(n1, "name", name));
  }

  /** A device whose scenarios are not an array only gets `scenarios: []`. */
  lemma PrepareDeviceNoScenarios(dev: Value)
    requires IsObjectLike(dev) && !Get(dev, "scenarios").Arr?
    ensures PrepareDevice(dev).Done?
    ensures Get(PrepareDevice(dev).value, "scenarios") == List([])
    ensures forall k :: k != "scenarios" ==> Get(PrepareDevice(dev).value, k) == Get(dev, k)
  {
    GetPut(dev, "scenarios", List([]));
  }

  /** A saved device: its display name and its name are both the safe text
      of `display_name || name || id || 'Device'`, its scenarios are the
      saved scenarios, truthy `tabs` are gone, and every other property
      apart from the uid slots' runtime values is kept. */
  lemma PrepareDeviceFacts(dev: Value)
    requires IsObjectLike(dev) && Get(dev, "scenarios").Arr?
    ensures var xs := Get(dev, "scenarios").items;
            var r := PrepareDevice(dev);
            (r.Done? <==> forall i :: 0 <= i < |xs| ==> SerializeScenario(xs[i]).Done?)
            && (r.Done? ==>
                  IsObjectLike(r.value)
                  && Get(r.value, "display_name") == SavedName(dev) && Get(r.value, "name") == SavedName(dev)
                  && !Truthy(Get(r.value, "tabs"))
                  && Get(r.value, "scenarios").Arr? && |Get(r.value, "scenarios").items| == |xs|
                  && (forall i :: 0 <= i < |xs| ==> Get(r.value, "scenarios").items[i] == SerializeScenario(xs[i]).value)
                  && forall k :: k !in NameKeys && k != "scenarios" && k != "tabs" && k != "template" ==> Get(r.value, k) == Get(dev, k))
  {
    var m := MapAll(Get(dev, "scenarios").items, SerializeScenario);
    if m.Done? {
      var d1 := Put(dev, "scenarios", List(m.value));
      GetPut(dev, "scenarios", List(m.value));
      SavedNameOf(d1, dev);
      SavedDeviceFacts(d1);
    }
  }

  lemma SaveDevicesFacts(snap: Value)
    requires IsObjectLike(snap) && Get(snap, "devices").Arr?
    ensures var xs := Get(snap, "devices").items;
            var r := SaveDevices(snap);
            (r.Done? <==> forall i :: 0 <= i < |xs| ==> PrepareDevice(xs[i]).Done?)
            && (r.Done? ==>
                  IsObjectLike(r.value)
                  && Get(r.value, "tab_limit").Undefined?
                  && Get(r.value, "devices").Arr? && |Get(r.value, "devices").items| == |xs|
                  && (forall i :: 0 <= i < |xs| ==> Get(r.value, "devices").items[i] == PrepareDevice(xs[i]).value)
                  && forall k :: k != "devices" && k != "tab_limit" ==> Get(r.value, k) == Get(snap, k))
  {
    ForEachInFacts(snap, "devices", PrepareDevice);
    var m := ForEachIn(snap, "devices", PrepareDevice);
    if m.Done? && !Get(m.value, "tab_limit").Undefined? {
      assert Get(Delete(m.value, "tab_limit"), "tab_limit") == Undefined;
    }
  }

  /** A falsy model saves as `{devices: []}`. */
  lemma PrepareConfigOfNothing(model: Value)
    requires !Truthy(model)
    ensures PrepareConfig(model) == Done(Obj(map["devices" := List([])]))
  {
    JsonCloneKeepsJson(EmptyObject);
    var snap := ArrayField(EmptyObject, "devices");
    assert snap == Obj(map["devices" := List([])]);
    MapAllKeeps([], PrepareDevice);
    PutOfGet(snap, "devices");
  }

  /** A truthy primitive model throws (`snapshot.devices.forEach` on a
      copy that is not an object). */
  lemma PrepareConfigOfPrimitive(model: Value)
    requires Truthy(model) && !IsObjectLike(model)
    ensures PrepareConfig(model).Threw?
  {
  }

  /** An object model saves as its JSON copy with every device saved, in
      order, and no `tab_limit`; saving throws iff saving a device does. */
  lemma PrepareConfigFacts(model: Value)
    requires IsObjectLike(model)
    ensures var snap := JsonClone(model);
            var xs := ItemsOf(Get(snap, "devices"));
            var r := PrepareConfig(model);
            (r.Done? <==> forall i :: 0 <= i < |xs| ==> PrepareDevice(xs[i]).Done?)
            && (r.Done? ==>
                  IsObjectLike(r.value)
                  && Get(r.value, "tab_limit").Undefined?
                  && Get(r.value, "devices").Arr? && |Get(r.value, "devices").items| == |xs|
                  && (forall i :: 0 <= i < |xs| ==> Get(r.value, "devices").items[i] == PrepareDevice(xs[i]).value)
                  && forall k :: k != "devices" && k != "tab_limit" ==> Get(r.value, k) == Get(snap, k))
  {
    var snap := JsonClone(model);
    assert IsObjectLike(snap) && Snapshot(model) == Done(ArrayField(snap, "devices"));
    ArrayFieldFacts(snap, "devices");
    SaveDevicesFacts(ArrayField(snap, "devices"));
  }

  /** The `forEach` loop itself, element by element; the first element
      whose repair throws ends it. */
  method ForEachLoop(o: Value, k: string, f: Value -> Completion<Value>) returns (r: Completion<Value>)
    ensures r == ForEachIn(o, k, f)
  {
    var list := Get(o, k);
    var xs := ItemsOf(list);
    var out: seq<Value> := [];
    var i := 0;
    while i < |xs|
      invariant 0 <= i <= |xs| && |out| == i
      invariant forall j :: 0 <= j < i ==> f(xs[j]).Done? && out[j] == f(xs[j]).value
    {
      var x := f(xs[i]);
      if x.Threw? {
        return Threw;
      }
      out := out + [x.value];
      i := i + 1;
    }
    var all := MapAll(xs, f);
    assert all.Done? && all.value == out;
    r := Done(Put(o, k, Arr(out, if list.Arr? then list.named else map[])));
  }
}
