/** The scenario steps of the configuration wizard (`devices_wizard.js`):
    `normalizeStepForEditing`, which moves the older flat step fields into
    `data.<kind>` when a configuration is loaded, and
    `serializeStepForSave`, which flattens them again for the firmware. */
module WizardSteps {
  import opened Common
  import opened JsValue
  import opened WizardTemplates

  // ----- loading: normalizeStepForEditing -----

  /** `if (o[k] === undefined) o[k] = x`. */
  function Default(o: Value, k: string, x: Value): Value {
    if Get(o, k).Undefined? then Put(o, k, x) else o
  }

  /** `step.data || {}`, the object the nested settings live in. */
  function DataOf(step: Value): Value { Or(Get(step, "data"), EmptyObject) }

  /** `step.data[key] || {}`: the part a repair fills. When `data` is a
      primitive the part is a fresh object nobody keeps. */
  function PartOf(step: Value, key: string): Value { Or(Get(DataOf(step), key), EmptyObject) }

  /** The step once `data` and then `data[key]` hold `part`. */
  function Nest(step: Value, key: string, part: Value): Value {
    Put(step, "data", Put(DataOf(step), key, part))
  }

  function MqttPart(step: Value, m: Value): Value {
    var m1 := Default(m, "topic", TextOr(Get(step, "topic")));
    var m2 := Default(m1, "payload", TextOr(Get(step, "payload")));
    var m3 := Default(m2, "qos", if Get(step, "qos").Num? then Get(step, "qos") else Num(0));
    Default(m3, "retain", AsBool(Get(step, "retain")))
  }

  function AudioPart(step: Value, a: Value): Value {
    Default(Default(a, "track", TextOr(Get(step, "track"))), "blocking", AsBool(Get(step, "blocking")))
  }

  function FlagPart(step: Value, f: Value): Value {
    var value := if Get(step, "value").Undefined? then Bool(false) else AsBool(Get(step, "value"));
    Default(Default(f, "flag", TextOr(Get(step, "flag"))), "value", value)
  }

  /** `(step.loop && typeof step.loop[k] === 'number') ? step.loop[k] : 0`. */
  function LoopNumber(legacy: Value, k: string): Value {
    if Truthy(legacy) && Get(legacy, k).Num? then Get(legacy, k) else Num(0)
  }

  function LoopPart(step: Value, l: Value): Value {
    var legacy := Get(step, "loop");
    Default(Default(l, "target_step", LoopNumber(legacy, "target_step")), "max_iterations", LoopNumber(legacy, "max_iterations"))
  }

  function EventPart(step: Value, e: Value): Value {
    var e1 := Default(e, "event", TextOr(Get(step, "event")));
    var e2 := Default(e1, "topic", TextOr(Get(step, "topic")));
    Default(e2, "payload", TextOr(Get(step, "payload")))
  }

  /** `(step.wait && step.wait.mode) || 'all'`. */
  function WaitMode(w: Value): Value {
    if Truthy(w) then Or(Get(w, "mode"), Str("all")) else Str("all")
  }

  /** `(step.wait && step.wait.timeout_ms) ? step.wait.timeout_ms : 0`. */
  function WaitTimeout(w: Value): Value {
    if Truthy(w) && Truthy(Get(w, "timeout_ms")) then Get(w, "timeout_ms") else Num(0)
  }

  /** `req.required_state !== undefined ? !!req.required_state : !!req.state`. */
  function RequiredState(req: Value): Value {
    if Get(req, "required_state").Undefined? then AsBool(Get(req, "state")) else AsBool(Get(req, "required_state"))
  }

  /** The `requirements.map` callback of the loader; reading a field of
      `null` or `undefined` throws. */
  function EditRequirement(req: Value): (r: Completion<Value>)
    ensures r.Threw? <==> Nullish(req)
    ensures r.Done? ==> r.value == Obj(map["flag" := TextOr(Get(req, "flag")), "required_state" := RequiredState(req)])
  {
    if Nullish(req) then Threw
    else Done(Obj(map["flag" := TextOr(Get(req, "flag")), "required_state" := RequiredState(req)]))
  }

  /** The requirement list the loader maps: the nested one when it is an
      array, else the legacy `step.wait.requirements` when that is one, else
      none. */
  function LoadedRequirements(step: Value, wf: Value): seq<Value> {
    var w := Get(step, "wait");
    if Get(wf, "requirements").Arr? then Get(wf, "requirements").items
    else if Truthy(w) && Get(w, "requirements").Arr? then Get(w, "requirements").items
    else []
  }

  function WaitPart(step: Value, wf: Value): Completion<Value> {
    var w := Get(step, "wait");
    var wf2 := Default(Default(wf, "mode", WaitMode(w)), "timeout_ms", WaitTimeout(w));
    match MapAll(LoadedRequirements(step, wf), EditRequirement)
    case Threw => Threw
    case Done(rs) => Done(Put(wf2, "requirements", List(rs)))
  }

  /** `normalizeStepForEditing(step)`: anything but an object is left alone;
      otherwise `data` is created when falsy and, for the six step types
      with settings, `data.<kind>` is created when falsy and each of its
      fields that is `undefined` is filled from the legacy flat field. The
      wait requirements are always rewritten; one that is `null` or
      `undefined` throws. */
  function NormalizeStep(step: Value): Completion<Value> {
    if !IsObjectLike(step) then Done(step)
    else
      var kind := Get(step, "type");
      if kind == Str("mqtt_publish") then Done(Nest(step, "mqtt", MqttPart(step, PartOf(step, "mqtt"))))
      else if kind == Str("audio_play") then Done(Nest(step, "audio", AudioPart(step, PartOf(step, "audio"))))
      else if kind == Str("set_flag") then Done(Nest(step, "flag", FlagPart(step, PartOf(step, "flag"))))
      else if kind == Str("wait_flags") then
        match WaitPart(step, PartOf(step, "wait_flags"))
        case Threw => Threw
        case Done(wf) => Done(Nest(step, "wait_flags", wf))
      else if kind == Str("loop") then Done(Nest(step, "loop", LoopPart(step, PartOf(step, "loop"))))
      else if kind == Str("event") then Done(Nest(step, "event", EventPart(step, PartOf(step, "event"))))
      else Done(Put(step, "data", DataOf(step)))
  }

  // ----- saving: serializeStepForSave -----

  /** `(safe.data && safe.data[key]) || {}`. */
  function SavedPart(data: Value, key: string): Value {
    if Truthy(data) then Or(Get(data, key), EmptyObject) else EmptyObject
  }

  /** The object pushed for one requirement: the state key becomes `state`. */
  function WireRequirement(req: Value): Value {
    Obj(map["flag" := TextOr(Get(req, "flag")), "state" := RequiredState(req)])
  }

  /** `(wf.requirements || []).forEach(req => { if (!req) return; wait.requirements.push(…) })`:
      falsy requirements are skipped, every other one is pushed in order. */
  function SaveRequirements(xs: seq<Value>): (r: seq<Value>)
    ensures |r| <= |xs|
    ensures forall j :: 0 <= j < |r| ==> r[j].Obj? && Get(r[j], "state").Bool? && IsText(Get(r[j], "flag"))
  {
    if xs == [] then []
    else
      var last := xs[|xs| - 1];
      SaveRequirements(xs[..|xs| - 1]) + (if Truthy(last) then [WireRequirement(last)] else [])
  }

  /** The fields every saved step has: a truthy type (`'nop'` when the step
      has none) and `delay_ms` as an integer. */
  function SavedBase(safe: Value): map<string, Value> {
    map["type" := Or(Get(safe, "type"), Str("nop")), "delay_ms" := Num(ToInt(Get(safe, "delay_ms")))]
  }

  function MqttFields(m: Value): map<string, Value> {
    map["topic" := TextOr(Get(m, "topic")), "payload" := TextOr(Get(m, "payload")),
        "qos" := Num(Clamp(IntOrDefault(Get(m, "qos"), Undefined), 0, 2)), "retain" := AsBool(Get(m, "retain"))]
  }

  function AudioFields(a: Value): map<string, Value> {
    map["track" := TextOr(Get(a, "track")), "blocking" := AsBool(Get(a, "blocking"))]
  }

  function FlagFields(f: Value): map<string, Value> {
    map["flag" := TextOr(Get(f, "flag")), "value" := AsBool(Get(f, "value"))]
  }

  /** The saved `wait` object; `(wf.requirements || []).forEach` throws when
      the requirements are truthy but not an array. */
  function WaitFields(wf: Value): Completion<map<string, Value>> {
    var reqs := Or(Get(wf, "requirements"), List([]));
    if !reqs.Arr? then Threw
    else
      Done(map["wait" := Obj(map["mode" := ModeOf(Get(wf, "mode")),
                                 "timeout_ms" := Num(ToInt(Get(wf, "timeout_ms"))),
                                 "requirements" := List(SaveRequirements(reqs.items))])])
  }

  function LoopFields(l: Value): map<string, Value> {
    map["loop" := Obj(map["target_step" := Num(ToInt(Get(l, "target_step"))),
                          "max_iterations" := Num(ToInt(Get(l, "max_iterations")))])]
  }

  function EventFields(e: Value): map<string, Value> {
    map["event" := TextOr(Get(e, "event")), "topic" := TextOr(Get(e, "topic")), "payload" := TextOr(Get(e, "payload"))]
  }

  /** The fields a step type saves besides `type` and `delay_ms`. */
  function SavedFields(kind: Value, data: Value): Completion<map<string, Value>> {
    if kind == Str("mqtt_publish") then Done(MqttFields(SavedPart(data, "mqtt")))
    else if kind == Str("audio_play") then Done(AudioFields(SavedPart(data, "audio")))
    else if kind == Str("set_flag") then Done(FlagFields(SavedPart(data, "flag")))
    else if kind == Str("wait_flags") then WaitFields(SavedPart(data, "wait_flags"))
    else if kind == Str("loop") then Done(LoopFields(SavedPart(data, "loop")))
    else if kind == Str("event") then Done(EventFields(SavedPart(data, "event")))
    else Done(map[])
  }

  /** `serializeStepForSave(step)`: the flat shape the firmware reads. */
  function SerializeStep(step: Value): Completion<Value> {
    var safe := Or(step, EmptyObject);
    var base := SavedBase(safe);
    match SavedFields(base["type"], Get(safe, "data"))
    case Threw => Threw
    case Done(extra) => Done(Obj(base + extra))
  }

  /** The `forEach` loop of the wait serialisation, pushing one requirement
      at a time. */
  method SaveRequirementsLoop(reqs: seq<Value>) returns (out: seq<Value>)
    ensures out == SaveRequirements(reqs)
  {
    out := [];
    var i := 0;
    while i < |reqs|
      invariant 0 <= i <= |reqs|
      invariant out == SaveRequirements(reqs[..i])
    {
      assert reqs[..i + 1][..i] == reqs[..i];
      if Truthy(reqs[i]) {
        out := out + [WireRequirement(reqs[i])];
      }
      i := i + 1;
    }
    assert reqs[..|reqs|] == reqs;
  }

  // ----- properties of the loader -----

  /** Where a step type keeps its settings under `data`; "" for the types
      without settings. */
  function NestedKey(kind: Value): string {
    if kind == Str("mqtt_publish") then "mqtt"
    else if kind == Str("audio_play") then "audio"
    else if kind == Str("set_flag") then "flag"
    else if kind == Str("wait_flags") then "wait_flags"
    else if kind == Str("loop") then "loop"
    else if kind == Str("event") then "event"
    else ""
  }

  lemma GetDefault(o: Value, k: string, x: Value)
    ensures forall j :: Get(Default(o, k, x), j) == if j == k && IsObjectLike(o) && Get(o, k).Undefined? then x else Get(o, j)
    ensures IsObjectLike(Default(o, k, x)) == IsObjectLike(o)
    ensures !IsObjectLike(o) ==> Default(o, k, x) == o
    ensures Truthy(Default(o, k, x)) == Truthy(o)
  {
    GetPut(o, k, x);
  }

  /** `GetDefault` at one key, without a quantifier to instantiate. */
  lemma GetDefaultAt(o: Value, k: string, x: Value, j: string)
    ensures Get(Default(o, k, x), j) == if j == k && IsObjectLike(o) && Get(o, k).Undefined? then x else Get(o, j)
    ensures IsObjectLike(Default(o, k, x)) == IsObjectLike(o)
    ensures Truthy(Default(o, k, x)) == Truthy(o)
  {
    GetPut(o, k, x);
  }

  /** Storing a part twice under `data` is storing the second. */
  lemma NestTwice(step: Value, key: string, p: Value, q: Value)
    requires IsObjectLike(step)
    ensures DataOf(Nest(step, key, p)) == Put(DataOf(step), key, p)
    ensures Nest(Nest(step, key, p), key, q) == Nest(step, key, q)
    ensures forall j :: j != "data" ==> Get(Nest(step, key, p), j) == Get(step, j)
    ensures IsObjectLike(Nest(step, key, p))
    ensures PartOf(Nest(step, key, p), key) == if IsObjectLike(DataOf(step)) then Or(p, EmptyObject) else EmptyObject
  {
    var d := DataOf(step);
    GetPut(d, key, p);
    GetPut(step, "data", Put(d, key, p));
    assert Truthy(d);
    assert Truthy(Put(d, key, p));
    PutOver(d, key, p, q);
    PutOver(step, "data", Put(d, key, p), Put(Put(d, key, p), key, q));
  }

  /** A default never changes a field that is defined. */
  lemma DefaultKeepsDefined(o: Value, k: string, x: Value)
    ensures forall j :: !Get(o, j).Undefined? ==> Get(Default(o, k, x), j) == Get(o, j)
  {
    GetDefault(o, k, x);
  }

  /** The loader never overwrites a nested field that is already defined
      (the wait requirements aside, which it always rewrites). */
  lemma MqttPartKeeps(s1: Value, m: Value)
    ensures forall j :: !Get(m, j).Undefined? ==> Get(MqttPart(s1, m), j) == Get(m, j)
  {
    var m1 := Default(m, "topic", TextOr(Get(s1, "topic")));
    var m2 := Default(m1, "payload", TextOr(Get(s1, "payload")));
    var m3 := Default(m2, "qos", if Get(s1, "qos").Num? then Get(s1, "qos") else Num(0));
    DefaultKeepsDefined(m, "topic", TextOr(Get(s1, "topic")));
    DefaultKeepsDefined(m1, "payload", TextOr(Get(s1, "payload")));
    DefaultKeepsDefined(m2, "qos", if Get(s1, "qos").Num? then Get(s1, "qos") else Num(0));
    DefaultKeepsDefined(m3, "retain", AsBool(Get(s1, "retain")));
  }

  lemma AudioPartKeeps(s1: Value, a: Value)
    ensures forall j :: !Get(a, j).Undefined? ==> Get(AudioPart(s1, a), j) == Get(a, j)
  {
    var a1 := Default(a, "track", TextOr(Get(s1, "track")));
    DefaultKeepsDefined(a, "track", TextOr(Get(s1, "track")));
    DefaultKeepsDefined(a1, "blocking", AsBool(Get(s1, "blocking")));
  }

  lemma FlagPartKeeps(s1: Value, f: Value)
    ensures forall j :: !Get(f, j).Undefined? ==> Get(FlagPart(s1, f), j) == Get(f, j)
  {
    var value := if Get(s1, "value").Undefined? then Bool(false) else AsBool(Get(s1, "value"));
    var f1 := Default(f, "flag", TextOr(Get(s1, "flag")));
    DefaultKeepsDefined(f, "flag", TextOr(Get(s1, "flag")));
    DefaultKeepsDefined(f1, "value", value);
  }

  lemma LoopPartKeeps(s1: Value, l: Value)
    ensures forall j :: !Get(l, j).Undefined? ==> Get(LoopPart(s1, l), j) == Get(l, j)
  {
    var legacy := Get(s1, "loop");
    var l1 := Default(l, "target_step", LoopNumber(legacy, "target_step"));
    DefaultKeepsDefined(l, "target_step", LoopNumber(legacy, "target_step"));
    DefaultKeepsDefined(l1, "max_iterations", LoopNumber(legacy, "max_iterations"));
  }

  lemma EventPartKeeps(s1: Value, e: Value)
    ensures forall j :: !Get(e, j).Undefined? ==> Get(EventPart(s1, e), j) == Get(e, j)
  {
    var e1 := Default(e, "event", TextOr(Get(s1, "event")));
    var e2 := Default(e1, "topic", TextOr(Get(s1, "topic")));
    DefaultKeepsDefined(e, "event", TextOr(Get(s1, "event")));
    DefaultKeepsDefined(e1, "topic", TextOr(Get(s1, "topic")));
    DefaultKeepsDefined(e2, "payload", TextOr(Get(s1, "payload")));
  }

  lemma WaitPartKeeps(s1: Value, wf: Value)
    requires WaitPart(s1, wf).Done?
    ensures forall j :: j != "requirements" && !Get(wf, j).Undefined? ==> Get(WaitPart(s1, wf).value, j) == Get(wf, j)
  {
    var w := Get(s1, "wait");
    var wf1 := Default(wf, "mode", WaitMode(w));
    var wf2 := Default(wf1, "timeout_ms", WaitTimeout(w));
    DefaultKeepsDefined(wf, "mode", WaitMode(w));
    DefaultKeepsDefined(wf1, "timeout_ms", WaitTimeout(w));
    GetPut(wf2, "requirements", List(MapAll(LoadedRequirements(s1, wf), EditRequirement).value));
  }

  lemma MqttPartSettled(s1: Value, s2: Value, m: Value)
    ensures MqttPart(s2, MqttPart(s1, m)) == MqttPart(s1, m)
    ensures Truthy(MqttPart(s1, m)) == Truthy(m)
  {
    var m1 := Default(m, "topic", TextOr(Get(s1, "topic")));
    var m2 := Default(m1, "payload", TextOr(Get(s1, "payload")));
    var m3 := Default(m2, "qos", if Get(s1, "qos").Num? then Get(s1, "qos") else Num(0));
    var m4 := Default(m3, "retain", AsBool(Get(s1, "retain")));
    assert MqttPart(s1, m) == m4;
    GetDefaultAt(m, "topic", TextOr(Get(s1, "topic")), "topic");
    GetDefaultAt(m1, "payload", TextOr(Get(s1, "payload")), "payload");
    GetDefaultAt(m2, "qos", if Get(s1, "qos").Num? then Get(s1, "qos") else Num(0), "qos");
    GetDefaultAt(m3, "retain", AsBool(Get(s1, "retain")), "retain");
    if IsObjectLike(m) {
      MqttPartFills(s1, m);
    } else {
      assert m4 == m;
    }
  }

  /** The legacy flat fields of a publish step fill exactly the nested
      fields that are missing. */
  lemma MqttPartFills(s1: Value, m: Value)
    requires IsObjectLike(m)
    ensures IsObjectLike(m) ==>
              Get(MqttPart(s1, m), "topic") == (if Get(m, "topic").Undefined? then TextOr(Get(s1, "topic")) else Get(m, "topic"))
              && Get(MqttPart(s1, m), "payload") == (if Get(m, "payload").Undefined? then TextOr(Get(s1, "payload")) else Get(m, "payload"))
              && Get(MqttPart(s1, m), "qos") == (if !Get(m, "qos").Undefined? then Get(m, "qos") else if Get(s1, "qos").Num? then Get(s1, "qos") else Num(0))
              && Get(MqttPart(s1, m), "retain") == (if Get(m, "retain").Undefined? then Bool(Truthy(Get(s1, "retain"))) else Get(m, "retain"))
  {
    var t := TextOr(Get(s1, "topic"));
    var p := TextOr(Get(s1, "payload"));
    var q := if Get(s1, "qos").Num? then Get(s1, "qos") else Num(0);
    var r := AsBool(Get(s1, "retain"));
    var m1 := Default(m, "topic", t);
    var m2 := Default(m1, "payload", p);
    var m3 := Default(m2, "qos", q);
    GetDefaultAt(m, "topic", t, "topic");
    GetDefaultAt(m1, "payload", p, "topic");
    GetDefaultAt(m2, "qos", q, "topic");
    GetDefaultAt(m3, "retain", r, "topic");
    GetDefaultAt(m, "topic", t, "payload");
    GetDefaultAt(m1, "payload", p, "payload");
    GetDefaultAt(m2, "qos", q, "payload");
    GetDefaultAt(m3, "retain", r, "payload");
    GetDefaultAt(m, "topic", t, "qos");
    GetDefaultAt(m1, "payload", p, "qos");
    GetDefaultAt(m2, "qos", q, "qos");
    GetDefaultAt(m3, "retain", r, "qos");
    GetDefaultAt(m, "topic", t, "retain");
    GetDefaultAt(m1, "payload", p, "retain");
    GetDefaultAt(m2, "qos", q, "retain");
    GetDefaultAt(m3, "retain", r, "retain");
  }

  lemma AudioPartSettled(s1: Value, s2: Value, a: Value)
    ensures AudioPart(s2, AudioPart(s1, a)) == AudioPart(s1, a)
    ensures Truthy(AudioPart(s1, a)) == Truthy(a)
  {
    var a1 := Default(a, "track", TextOr(Get(s1, "track")));
    GetDefault(a, "track", TextOr(Get(s1, "track")));
    GetDefault(a1, "blocking", AsBool(Get(s1, "blocking")));
  }

  lemma FlagPartSettled(s1: Value, s2: Value, f: Value)
    ensures FlagPart(s2, FlagPart(s1, f)) == FlagPart(s1, f)
    ensures Truthy(FlagPart(s1, f)) == Truthy(f)
  {
    var value := if Get(s1, "value").Undefined? then Bool(false) else AsBool(Get(s1, "value"));
    var f1 := Default(f, "flag", TextOr(Get(s1, "flag")));
    GetDefault(f, "flag", TextOr(Get(s1, "flag")));
    GetDefault(f1, "value", value);
  }

  lemma LoopPartSettled(s1: Value, s2: Value, l: Value)
    ensures LoopPart(s2, LoopPart(s1, l)) == LoopPart(s1, l)
    ensures Truthy(LoopPart(s1, l)) == Truthy(l)
  {
    var legacy := Get(s1, "loop");
    var l1 := Default(l, "target_step", LoopNumber(legacy, "target_step"));
    GetDefault(l, "target_step", LoopNumber(legacy, "target_step"));
    GetDefault(l1, "max_iterations", LoopNumber(legacy, "max_iterations"));
  }

  lemma EventPartSettled(s1: Value, s2: Value, e: Value)
    ensures EventPart(s2, EventPart(s1, e)) == EventPart(s1, e)
    ensures Truthy(EventPart(s1, e)) == Truthy(e)
  {
    var e1 := Default(e, "event", TextOr(Get(s1, "event")));
    var e2 := Default(e1, "topic", TextOr(Get(s1, "topic")));
    GetDefault(e, "event", TextOr(Get(s1, "event")));
    GetDefault(e1, "topic", TextOr(Get(s1, "topic")));
    GetDefault(e2, "payload", TextOr(Get(s1, "payload")));
  }

  lemma EditRequirementSettled(x: Value)
    requires EditRequirement(x).Done?
    ensures EditRequirement(EditRequirement(x).value) == EditRequirement(x)
  {
    var y := EditRequirement(x).value;
    assert Get(y, "flag") == TextOr(Get(x, "flag"));
    assert Get(y, "required_state") == RequiredState(x);
  }

  /** The wait part reads nothing of the step but `wait`. */
  lemma WaitPartReadsWait(s1: Value, s2: Value, wf: Value)
    requires Get(s2, "wait") == Get(s1, "wait")
    ensures WaitPart(s2, wf) == WaitPart(s1, wf)
  {
    assert LoadedRequirements(s2, wf) == LoadedRequirements(s1, wf);
  }

  /** What the wait part holds after the loader: `mode` and `timeout_ms` are
      defined and `requirements` is the mapped list. */
  lemma WaitPartShape(s1: Value, wf: Value)
    requires WaitPart(s1, wf).Done? && IsObjectLike(wf)
    ensures var p := WaitPart(s1, wf).value;
            IsObjectLike(p) && !Get(p, "mode").Undefined? && !Get(p, "timeout_ms").Undefined?
            && Get(p, "requirements") == List(MapAll(LoadedRequirements(s1, wf), EditRequirement).value)
  {
    var w := Get(s1, "wait");
    var wf1 := Default(wf, "mode", WaitMode(w));
    var wf2 := Default(wf1, "timeout_ms", WaitTimeout(w));
    GetDefault(wf, "mode", WaitMode(w));
    GetDefault(wf1, "timeout_ms", WaitTimeout(w));
    var rs := MapAll(LoadedRequirements(s1, wf), EditRequirement).value;
    GetPut(wf2, "requirements", List(rs));
  }

  /** The wait part settles. */
  lemma WaitPartSettled(s1: Value, s2: Value, wf: Value)
    requires WaitPart(s1, wf).Done? && Get(s2, "wait") == Get(s1, "wait")
    ensures WaitPart(s2, WaitPart(s1, wf).value) == WaitPart(s1, wf)
    ensures Truthy(WaitPart(s1, wf).value) == Truthy(wf)
  {
    var p := WaitPart(s1, wf).value;
    var rs := MapAll(LoadedRequirements(s1, wf), EditRequirement).value;
    WaitPartReadsWait(s1, s2, p);
    if IsObjectLike(wf) {
      WaitPartShape(s1, wf);
      assert LoadedRequirements(s1, p) == rs;
      forall i | 0 <= i < |rs| ensures EditRequirement(rs[i]) == Done(rs[i]) {
        EditRequirementSettled(LoadedRequirements(s1, wf)[i]);
      }
      MapAllKeeps(rs, EditRequirement);
      var w := Get(s1, "wait");
      GetDefault(p, "mode", WaitMode(w));
      GetDefault(p, "timeout_ms", WaitTimeout(w));
      PutOfGet(p, "requirements");
    } else {
      var w := Get(s1, "wait");
      GetDefault(wf, "mode", WaitMode(w));
      GetDefault(wf, "timeout_ms", WaitTimeout(w));
      assert p == wf;
    }
  }

  /** The second pass finds the part the first one stored (or, when `data`
      is a primitive, a fresh part it again cannot keep), so storing its
      repair changes nothing. */
  lemma NestSettled(step: Value, key: string, p: Value, q: Value)
    requires IsObjectLike(step)
    requires IsObjectLike(DataOf(step)) ==> q == p
    ensures Nest(Nest(step, key, p), key, q) == Nest(step, key, p)
  {
    NestTwice(step, key, p, q);
    if !IsObjectLike(DataOf(step)) {
      assert Put(DataOf(step), key, q) == DataOf(step) == Put(DataOf(step), key, p);
    }
  }

  /** `normalizeStepForEditing` fills only what is missing, so a second call
      changes nothing. */
  lemma NormalizeStepIdempotent(step: Value)
    requires NormalizeStep(step).Done?
    ensures NormalizeStep(NormalizeStep(step).value) == NormalizeStep(step)
  {
    if IsObjectLike(step) {
      var kind := Get(step, "type");
      var key := NestedKey(kind);
      var r := NormalizeStep(step).value;
      var q := PartOf(step, key);
      if kind == Str("mqtt_publish") {
        var p := MqttPart(step, q);
        NestTwice(step, key, p, p);
        MqttPartSettled(step, r, q);
        NestSettled(step, key, p, MqttPart(r, PartOf(r, key)));
      } else if kind == Str("audio_play") {
        var p := AudioPart(step, q);
        NestTwice(step, key, p, p);
        AudioPartSettled(step, r, q);
        NestSettled(step, key, p, AudioPart(r, PartOf(r, key)));
      } else if kind == Str("set_flag") {
        var p := FlagPart(step, q);
        NestTwice(step, key, p, p);
        FlagPartSettled(step, r, q);
        NestSettled(step, key, p, FlagPart(r, PartOf(r, key)));
      } else if kind == Str("wait_flags") {
        var p := WaitPart(step, q).value;
        NestTwice(step, key, p, p);
        WaitPartSettled(step, r, q);
        if IsObjectLike(DataOf(step)) {
          assert PartOf(r, key) == p;
        } else {
          WaitPartReadsWait(step, r, q);
          assert PartOf(r, key) == q;
        }
        NestSettled(step, key, p, WaitPart(r, PartOf(r, key)).value);
      } else if kind == Str("loop") {
        var p := LoopPart(step, q);
        NestTwice(step, key, p, p);
        LoopPartSettled(step, r, q);
        NestSettled(step, key, p, LoopPart(r, PartOf(r, key)));
      } else if kind == Str("event") {
        var p := EventPart(step, q);
        NestTwice(step, key, p, p);
        EventPartSettled(step, r, q);
        NestSettled(step, key, p, EventPart(r, PartOf(r, key)));
      } else {
        GetPut(step, "data", DataOf(step));
        PutOver(step, "data", DataOf(step), DataOf(step));
      }
    }
  }

  /** The nested part a step holds after loading is the repaired part. */
  lemma NormalizedPart(step: Value, key: string, p: Value)
    requires IsObjectLike(step) && IsObjectLike(DataOf(step))
    ensures Get(DataOf(Nest(step, key, p)), key) == p
  {
    NestTwice(step, key, p, p);
    GetPut(DataOf(step), key, p);
  }

  /** Loading a step never overwrites a nested field that is already
      defined; only the wait requirements are rewritten. */
  lemma NormalizeStepKeepsNested(step: Value)
    requires IsObjectLike(step) && IsObjectLike(DataOf(step)) && NestedKey(Get(step, "type")) != ""
    requires NormalizeStep(step).Done?
    ensures var key := NestedKey(Get(step, "type"));
            var before := PartOf(step, key);
            var after := Get(DataOf(NormalizeStep(step).value), key);
            forall j :: j != "requirements" && !Get(before, j).Undefined? ==> Get(after, j) == Get(before, j)
  {
    var kind := Get(step, "type");
    var key := NestedKey(kind);
    var q := PartOf(step, key);
    if kind == Str("mqtt_publish") {
      NormalizedPart(step, key, MqttPart(step, q));
      MqttPartKeeps(step, q);
    } else if kind == Str("audio_play") {
      NormalizedPart(step, key, AudioPart(step, q));
      AudioPartKeeps(step, q);
    } else if kind == Str("set_flag") {
      NormalizedPart(step, key, FlagPart(step, q));
      FlagPartKeeps(step, q);
    } else if kind == Str("wait_flags") {
      NormalizedPart(step, key, WaitPart(step, q).value);
      WaitPartKeeps(step, q);
    } else if kind == Str("loop") {
      NormalizedPart(step, key, LoopPart(step, q));
      LoopPartKeeps(step, q);
    } else {
      NormalizedPart(step, key, EventPart(step, q));
      EventPartKeeps(step, q);
    }
  }

  /** Loading a wait step throws exactly when a requirement it maps is
      `null` or `undefined`; otherwise requirement `i` keeps its flag as text
      and takes `required_state` when defined, else `!!state`. */
  lemma NormalizeWaitRequirements(step: Value)
    requires IsObjectLike(step) && Get(step, "type") == Str("wait_flags")
    ensures var xs := LoadedRequirements(step, PartOf(step, "wait_flags"));
            NormalizeStep(step).Threw? <==> exists i :: 0 <= i < |xs| && Nullish(xs[i])
    ensures var xs := LoadedRequirements(step, PartOf(step, "wait_flags"));
            NormalizeStep(step).Done? && IsObjectLike(DataOf(step)) && IsObjectLike(PartOf(step, "wait_flags")) ==>
              var ys := Get(Get(DataOf(NormalizeStep(step).value), "wait_flags"), "requirements");
              ys.Arr? && |ys.items| == |xs|
              && forall i :: 0 <= i < |xs| ==>
                   Get(ys.items[i], "flag") == TextOr(Get(xs[i], "flag")) && Get(ys.items[i], "required_state") == RequiredState(xs[i])
  {
    NormalizeWaitThrows(step);
    var q := PartOf(step, "wait_flags");
    if WaitPart(step, q).Done? && IsObjectLike(DataOf(step)) && IsObjectLike(q) {
      NormalizeWaitShape(step);
    }
  }

  lemma NormalizeWaitThrows(step: Value)
    requires IsObjectLike(step) && Get(step, "type") == Str("wait_flags")
    ensures var xs := LoadedRequirements(step, PartOf(step, "wait_flags"));
            NormalizeStep(step).Threw? <==> exists i :: 0 <= i < |xs| && Nullish(xs[i])
  {
  }

  lemma NormalizeWaitShape(step: Value)
    requires IsObjectLike(step) && Get(step, "type") == Str("wait_flags")
    requires WaitPart(step, PartOf(step, "wait_flags")).Done?
    requires IsObjectLike(DataOf(step)) && IsObjectLike(PartOf(step, "wait_flags"))
    ensures var xs := LoadedRequirements(step, PartOf(step, "wait_flags"));
            var ys := Get(Get(DataOf(NormalizeStep(step).value), "wait_flags"), "requirements");
            NormalizeStep(step).Done? && ys.Arr? && |ys.items| == |xs|
            && forall i :: 0 <= i < |xs| ==>
                 Get(ys.items[i], "flag") == TextOr(Get(xs[i], "flag")) && Get(ys.items[i], "required_state") == RequiredState(xs[i])
  {
    var q := PartOf(step, "wait_flags");
    NormalizedPart(step, "wait_flags", WaitPart(step, q).value);
    WaitPartShape(step, q);
  }

  // ----- properties of the serialiser -----

  /** The step types with settings under `data`. */
  predicate HasSettings(kind: Value) { NestedKey(kind) != "" }

  /** No step type saves its own `type` or `delay_ms`. */
  lemma SavedFieldsApart(kind: Value, data: Value)
    requires SavedFields(kind, data).Done?
    ensures "type" !in SavedFields(kind, data).value && "delay_ms" !in SavedFields(kind, data).value
  {
    if kind == Str("mqtt_publish") {
      MqttFieldsApart(SavedPart(data, "mqtt"));
    } else if kind == Str("audio_play") {
      OtherFieldsApart(SavedPart(data, "audio"), SavedPart(data, "flag"));
    } else if kind == Str("set_flag") {
      OtherFieldsApart(SavedPart(data, "audio"), SavedPart(data, "flag"));
    } else if kind == Str("wait_flags") {
      WaitFieldsApart(SavedPart(data, "wait_flags"));
    } else if kind == Str("loop") {
      NestedFieldsApart(SavedPart(data, "loop"), SavedPart(data, "event"));
    } else if kind == Str("event") {
      NestedFieldsApart(SavedPart(data, "loop"), SavedPart(data, "event"));
    }
  }

  lemma MqttFieldsApart(m: Value)
    ensures "type" !in MqttFields(m) && "delay_ms" !in MqttFields(m)
  {
  }

  lemma OtherFieldsApart(a: Value, f: Value)
    ensures "type" !in AudioFields(a) && "delay_ms" !in AudioFields(a)
    ensures "type" !in FlagFields(f) && "delay_ms" !in FlagFields(f)
  {
  }

  lemma WaitFieldsApart(wf: Value)
    requires WaitFields(wf).Done?
    ensures "type" !in WaitFields(wf).value && "delay_ms" !in WaitFields(wf).value
  {
  }

  lemma NestedFieldsApart(l: Value, e: Value)
    ensures "type" !in LoopFields(l) && "delay_ms" !in LoopFields(l)
    ensures "type" !in EventFields(e) && "delay_ms" !in EventFields(e)
  {
  }

  /** Every saved step is an object with a truthy `type` (the step's own, or
      `'nop'`) and `delay_ms` parsed as an integer (0 when unparsable).
      Saving throws only for a wait step whose requirements are truthy but
      not an array. */
  lemma SerializeStepBase(step: Value)
    ensures var safe := Or(step, EmptyObject);
            var reqs := Or(Get(SavedPart(Get(safe, "data"), "wait_flags"), "requirements"), List([]));
            SerializeStep(step).Threw? <==> Get(safe, "type") == Str("wait_flags") && !reqs.Arr?
    ensures var safe := Or(step, EmptyObject);
            var r := SerializeStep(step);
            r.Done? ==>
              r.value.Obj? && Truthy(Get(r.value, "type"))
              && Get(r.value, "type") == (if Truthy(Get(safe, "type")) then Get(safe, "type") else Str("nop"))
              && Get(r.value, "delay_ms") == Num(ToInt(Get(safe, "delay_ms")))
              && (ParseInt(ToJsString(Get(safe, "delay_ms"))).None? ==> Get(r.value, "delay_ms") == Num(0))
  {
    SerializeStepThrows(step);
    if SerializeStep(step).Done? {
      SerializeStepHead(step);
    }
  }

  lemma SerializeStepThrows(step: Value)
    ensures var safe := Or(step, EmptyObject);
            var reqs := Or(Get(SavedPart(Get(safe, "data"), "wait_flags"), "requirements"), List([]));
            SerializeStep(step).Threw? <==> Get(safe, "type") == Str("wait_flags") && !reqs.Arr?
  {
    var safe := Or(step, EmptyObject);
    var kind := SavedBase(safe)["type"];
    assert kind == Str("wait_flags") <==> Get(safe, "type") == Str("wait_flags");
    SavedFieldsThrow(kind, Get(safe, "data"));
  }

  lemma SavedFieldsThrow(kind: Value, data: Value)
    ensures SavedFields(kind, data).Threw? <==>
            kind == Str("wait_flags") && !Or(Get(SavedPart(data, "wait_flags"), "requirements"), List([])).Arr?
  {
  }

  lemma SerializeStepHead(step: Value)
    requires SerializeStep(step).Done?
    ensures var safe := Or(step, EmptyObject);
            var r := SerializeStep(step).value;
            r.Obj? && Truthy(Get(r, "type"))
            && Get(r, "type") == (if Truthy(Get(safe, "type")) then Get(safe, "type") else Str("nop"))
            && Get(r, "delay_ms") == Num(ToInt(Get(safe, "delay_ms")))
            && (ParseInt(ToJsString(Get(safe, "delay_ms"))).None? ==> Get(r, "delay_ms") == Num(0))
  {
    var safe := Or(step, EmptyObject);
    var base := SavedBase(safe);
    var f := SavedFields(base["type"], Get(safe, "data"));
    SavedFieldsApart(base["type"], Get(safe, "data"));
    assert SerializeStep(step).value == Obj(base + f.value);
  }

  /** The object a step saves, when saving does not throw. */
  lemma SerializeStepIs(step: Value)
    requires SerializeStep(step).Done?
    ensures var safe := Or(step, EmptyObject);
            SerializeStep(step).value == Obj(SavedBase(safe) + SavedFields(SavedBase(safe)["type"], Get(safe, "data")).value)
  {
  }

  /** A publish step saves `qos` clamped to 0..2 and `retain` as a boolean,
      next to its text topic and payload, and nothing else. */
  lemma SerializeMqtt(step: Value)
    requires Get(Or(step, EmptyObject), "type") == Str("mqtt_publish")
    ensures var r := SerializeStep(step);
            r.Done? && r.value.Obj?
            && r.value.props.Keys == {"type", "delay_ms", "topic", "payload", "qos", "retain"}
            && Get(r.value, "qos").Num? && 0 <= Get(r.value, "qos").n <= 2
            && Get(r.value, "retain").Bool?
            && IsText(Get(r.value, "topic")) && IsText(Get(r.value, "payload"))
  {
    var safe := Or(step, EmptyObject);
    var base := SavedBase(safe);
    var m := SavedPart(Get(safe, "data"), "mqtt");
    var f := MqttFields(m);
    assert base["type"] == Str("mqtt_publish");
    assert SavedFields(base["type"], Get(safe, "data")) == Done(f);
    assert SerializeStep(step) == Done(Obj(base + f));
    MqttFieldsFacts(m);
    MqttSavedKeys(base, f);
  }

  /** The keys of a saved publish step: the base pair and the four
      publish fields, the latter with their own values. */
  lemma MqttSavedKeys(base: map<string, Value>, f: map<string, Value>)
    requires base.Keys == {"type", "delay_ms"} && f.Keys == {"topic", "payload", "qos", "retain"}
    ensures (base + f).Keys == {"type", "delay_ms", "topic", "payload", "qos", "retain"}
    ensures (base + f)["qos"] == f["qos"] && (base + f)["retain"] == f["retain"]
    ensures (base + f)["topic"] == f["topic"] && (base + f)["payload"] == f["payload"]
  {
  }

  lemma MqttFieldsFacts(m: Value)
    ensures var f := MqttFields(m);
            f.Keys == {"topic", "payload", "qos", "retain"}
            && f["qos"].Num? && 0 <= f["qos"].n <= 2 && f["retain"].Bool?
            && IsText(f["topic"]) && IsText(f["payload"])
  {
  }

  /** A wait step saves mode `'any'` exactly when its mode is the string
      `'any'` (else `'all'`), and the requirements with the falsy ones
      dropped, each as `{flag, state}`. */
  lemma SerializeWait(step: Value)
    requires Get(Or(step, EmptyObject), "type") == Str("wait_flags") && SerializeStep(step).Done?
    ensures var wf := SavedPart(Get(Or(step, EmptyObject), "data"), "wait_flags");
            var wait := Get(SerializeStep(step).value, "wait");
            (Get(wait, "mode") == Str("any") <==> Get(wf, "mode") == Str("any"))
            && (Get(wait, "mode") == Str("any") || Get(wait, "mode") == Str("all"))
            && Get(wait, "timeout_ms") == Num(ToInt(Get(wf, "timeout_ms")))
            && Get(wait, "requirements") == List(SaveRequirements(ItemsOf(Get(wf, "requirements"))))
  {
    var safe := Or(step, EmptyObject);
    var wf := SavedPart(Get(safe, "data"), "wait_flags");
    assert SavedBase(safe)["type"] == Str("wait_flags");
    SerializeStepIs(step);
    WaitFieldsFacts(wf);
    var m := SavedBase(safe) + WaitFields(wf).value;
    assert SerializeStep(step).value == Obj(m);
    assert m["wait"] == WaitFields(wf).value["wait"];
  }

  lemma WaitFieldsFacts(wf: Value)
    requires WaitFields(wf).Done?
    ensures "wait" in WaitFields(wf).value
    ensures var wait := WaitFields(wf).value["wait"];
            (Get(wait, "mode") == Str("any") <==> Get(wf, "mode") == Str("any"))
            && (Get(wait, "mode") == Str("any") || Get(wait, "mode") == Str("all"))
            && Get(wait, "timeout_ms") == Num(ToInt(Get(wf, "timeout_ms")))
            && Get(wait, "requirements") == List(SaveRequirements(ItemsOf(Get(wf, "requirements"))))
  {
  }

  /** `audio_stop`, `delay`, `nop` and any type without settings save only
      `{type, delay_ms}`. */
  lemma SerializeBare(step: Value)
    requires !HasSettings(Or(Get(Or(step, EmptyObject), "type"), Str("nop")))
    ensures SerializeStep(step).Done?
    ensures SerializeStep(step).value.Obj? && SerializeStep(step).value.props.Keys == {"type", "delay_ms"}
  {
    var safe := Or(step, EmptyObject);
    SavedFieldsBare(SavedBase(safe)["type"], Get(safe, "data"));
    assert SavedBase(safe) + map[] == SavedBase(safe);
  }

  lemma SavedFieldsBare(kind: Value, data: Value)
    requires !HasSettings(kind)
    ensures SavedFields(kind, data) == Done(map[])
  {
  }

  /** When no requirement is falsy, every one is saved, in order. */
  lemma {:induction false} SaveRequirementsAllTruthy(xs: seq<Value>)
    requires forall i :: 0 <= i < |xs| ==> Truthy(xs[i])
    ensures |SaveRequirements(xs)| == |xs|
    ensures forall i :: 0 <= i < |xs| ==> SaveRequirements(xs)[i] == WireRequirement(xs[i])
  {
    if xs != [] {
      SaveRequirementsAllTruthy(xs[..|xs| - 1]);
    }
  }

  // ----- load then save -----

  /** A requirement as the firmware writes it: `{flag: string, state: bool}`. */
  predicate IsWireRequirement(x: Value) {
    x.Obj? && x.props.Keys == {"flag", "state"} && x.props["flag"].Str? && x.props["state"].Bool?
  }

  /** A wait block as the firmware writes it. */
  predicate IsWireWait(w: Value) {
    w.Obj? && w.props.Keys == {"mode", "timeout_ms", "requirements"}
    && (w.props["mode"] == Str("any") || w.props["mode"] == Str("all"))
    && w.props["timeout_ms"].Num?
    && w.props["requirements"].Arr? && w.props["requirements"].named == map[]
    && forall i :: 0 <= i < |w.props["requirements"].items| ==> IsWireRequirement(w.props["requirements"].items[i])
  }

  /** A firmware requirement survives loading and saving. */
  lemma RequirementRoundTrip(x: Value)
    requires IsWireRequirement(x)
    ensures EditRequirement(x).Done? && Truthy(EditRequirement(x).value)
    ensures WireRequirement(EditRequirement(x).value) == x
  {
    var y := EditRequirement(x).value;
    assert Get(y, "flag") == TextOr(x.props["flag"]);
    assert Get(y, "required_state") == x.props["state"];
    var z := WireRequirement(y);
    assert z.props.Keys == x.props.Keys;
  }

  /** What loading a legacy wait step (no `data` yet) stores under
      `data.wait_flags`. */
  lemma LoadLegacyWait(step: Value)
    requires IsObjectLike(step) && Get(step, "type") == Str("wait_flags") && Get(step, "data").Undefined?
    requires IsWireWait(Get(step, "wait"))
    ensures var w := Get(step, "wait");
            var xs := w.props["requirements"].items;
            var rs := seq(|xs|, i requires 0 <= i < |xs| => EditRequirement(xs[i]).value);
            NormalizeStep(step)
              == Done(Put(step, "data", Obj(map["wait_flags" := Obj(map["mode" := WaitMode(w), "timeout_ms" := WaitTimeout(w),
                                                                          "requirements" := List(rs)])])))
  {
    var w := Get(step, "wait");
    var xs := w.props["requirements"].items;
    assert DataOf(step) == EmptyObject;
    assert PartOf(step, "wait_flags") == EmptyObject;
    assert LoadedRequirements(step, EmptyObject) == xs;
    forall i | 0 <= i < |xs| ensures EditRequirement(xs[i]).Done? { RequirementRoundTrip(xs[i]); }
    var rs := MapAll(xs, EditRequirement).value;
    assert rs == seq(|xs|, i requires 0 <= i < |xs| => EditRequirement(xs[i]).value);
    var wf1 := Default(EmptyObject, "mode", WaitMode(w));
    assert wf1 == Obj(map["mode" := WaitMode(w)]);
    var wf2 := Default(wf1, "timeout_ms", WaitTimeout(w));
    assert wf2 == Obj(map["mode" := WaitMode(w), "timeout_ms" := WaitTimeout(w)]);
  }

  lemma NestedWaitPart(step: Value, p: Value)
    requires IsObjectLike(step) && Get(step, "type") == Str("wait_flags")
    ensures var r := Put(step, "data", Obj(map["wait_flags" := p]));
            r.Obj? || r.Arr?
    ensures var r := Put(step, "data", Obj(map["wait_flags" := p]));
            SavedBase(r) == SavedBase(step) && SavedBase(r)["type"] == Str("wait_flags")
    ensures p.Obj? ==> SavedPart(Get(Put(step, "data", Obj(map["wait_flags" := p])), "data"), "wait_flags") == p
  {
    GetPut(step, "data", Obj(map["wait_flags" := p]));
  }

  lemma SaveWaitPart(r: Value, p: Value)
    requires IsObjectLike(r) && SavedBase(r)["type"] == Str("wait_flags") && SavedPart(Get(r, "data"), "wait_flags") == p
    requires p.Obj? && Get(p, "requirements").Arr?
    ensures SerializeStep(r) == Done(Obj(SavedBase(r) + WaitFields(p).value))
  {
  }

  lemma SavedWaitBlock(base: map<string, Value>, p: Value)
    requires "type" in base && "delay_ms" in base
    requires p.Obj? && Get(p, "requirements").Arr?
    ensures var out := Obj(base + WaitFields(p).value);
            Get(out, "wait") == Obj(map["mode" := ModeOf(Get(p, "mode")), "timeout_ms" := Num(ToInt(Get(p, "timeout_ms"))),
                                        "requirements" := List(SaveRequirements(Get(p, "requirements").items))])
            && Get(out, "type") == base["type"] && Get(out, "delay_ms") == base["delay_ms"]
  {
  }

  /** Saving a wait step whose `data.wait_flags` is `p`. */
  lemma SaveNestedWait(step: Value, p: Value)
    requires IsObjectLike(step) && Get(step, "type") == Str("wait_flags")
    requires p.Obj? && Get(p, "requirements").Arr?
    ensures var r := Put(step, "data", Obj(map["wait_flags" := p]));
            SerializeStep(r).Done?
            && Get(SerializeStep(r).value, "type") == Str("wait_flags")
            && Get(SerializeStep(r).value, "delay_ms") == Num(ToInt(Get(step, "delay_ms")))
            && Get(SerializeStep(r).value, "wait")
                 == Obj(map["mode" := ModeOf(Get(p, "mode")), "timeout_ms" := Num(ToInt(Get(p, "timeout_ms"))),
                            "requirements" := List(SaveRequirements(Get(p, "requirements").items))])
  {
    var r := Put(step, "data", Obj(map["wait_flags" := p]));
    NestedWaitPart(step, p);
    SaveWaitPart(r, p);
    assert Or(step, EmptyObject) == step;
    SavedWaitBlock(SavedBase(step), p);
  }

  /** The loaded wait fields of a firmware wait block save back to it. */
  lemma WaitFieldsRoundTrip(w: Value)
    requires IsWireWait(w)
    ensures var xs := w.props["requirements"].items;
            var rs := seq(|xs|, i requires 0 <= i < |xs| => EditRequirement(xs[i]).value);
            Obj(map["mode" := ModeOf(WaitMode(w)), "timeout_ms" := Num(ToInt(WaitTimeout(w))),
                    "requirements" := List(SaveRequirements(rs))]) == w
  {
    var xs := w.props["requirements"].items;
    var rs := seq(|xs|, i requires 0 <= i < |xs| => EditRequirement(xs[i]).value);
    forall i | 0 <= i < |rs| ensures Truthy(rs[i]) && WireRequirement(rs[i]) == xs[i] {
      RequirementRoundTrip(xs[i]);
    }
    SavedRequirementsRoundTrip(xs, rs);
    WaitHeadRoundTrip(w);
    assert w.props["requirements"] == List(xs);
    WaitKeys(w.props);
  }

  lemma WaitKeys(m: map<string, Value>)
    requires m.Keys == {"mode", "timeout_ms", "requirements"}
    ensures m == map["mode" := m["mode"], "timeout_ms" := m["timeout_ms"], "requirements" := m["requirements"]]
  {
  }

  lemma SavedRequirementsRoundTrip(xs: seq<Value>, rs: seq<Value>)
    requires |rs| == |xs| && forall i :: 0 <= i < |rs| ==> Truthy(rs[i]) && WireRequirement(rs[i]) == xs[i]
    ensures SaveRequirements(rs) == xs
  {
    SaveRequirementsAllTruthy(rs);
  }

  lemma WaitHeadRoundTrip(w: Value)
    requires IsWireWait(w)
    ensures ModeOf(WaitMode(w)) == w.props["mode"] && Num(ToInt(WaitTimeout(w))) == w.props["timeout_ms"]
  {
    var n := w.props["timeout_ms"].n;
    assert WaitTimeout(w) == Num(n);
    ToIntOfNumber(n);
  }

  /** Loading and then saving a wait step as the firmware writes it gives
      back the same wait block, requirement flags and states included (the
      loader's `required_state` becomes `state` again). */
  lemma WaitRoundTrip(step: Value)
    requires IsObjectLike(step) && Get(step, "type") == Str("wait_flags") && Get(step, "data").Undefined?
    requires IsWireWait(Get(step, "wait"))
    ensures NormalizeStep(step).Done? && SerializeStep(NormalizeStep(step).value).Done?
    ensures var saved := SerializeStep(NormalizeStep(step).value).value;
            Get(saved, "wait") == Get(step, "wait")
            && Get(saved, "type") == Str("wait_flags") && Get(saved, "delay_ms") == Num(ToInt(Get(step, "delay_ms")))
  {
    var w := Get(step, "wait");
    var xs := w.props["requirements"].items;
    var rs := seq(|xs|, i requires 0 <= i < |xs| => EditRequirement(xs[i]).value);
    var p := Obj(map["mode" := WaitMode(w), "timeout_ms" := WaitTimeout(w), "requirements" := List(rs)]);
    LoadLegacyWait(step);
    SaveNestedWait(step, p);
    WaitFieldsRoundTrip(w);
  }
}
