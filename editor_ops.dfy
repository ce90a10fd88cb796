/** The list editing the configuration wizard (wizard/wizard_04_helpers.js,
    wizard/wizard_05_mutations.js) and the remote editor (devices_remote.js)
    share, written once: topics, scenarios, steps, wait requirements and the
    device list. A handler is a function from the object it edits to the new
    object and whether it reached `markDirty`; the editors store the result
    back into their model. The remote editor's `tab_limit` input is here
    too. */
module EditorOps {
  import opened Common
  import opened JsValue
  import opened JsPath

  /** What a handler leaves: the edited value and whether it marked the
      model dirty. */
  datatype Edited = Edited(value: Value, changed: bool)

  /** A handler that returned early (after whatever repairs it made). */
  function Kept(v: Value): Completion<Edited> { Done(Edited(v, false)) }

  /** A handler that reached `markDirty`. */
  function Marked(v: Value): Completion<Edited> { Done(Edited(v, true)) }

  // ----- indexing -----

  /** `v[i]` for an integer `i`: an array element, a one-character string,
      or the property of an object named by the digits of `i`. */
  function Element(v: Value, i: int): Value {
    match v
    case Arr(items, _) => if 0 <= i < |items| then items[i] else Undefined
    case Str(s) => if 0 <= i < |s| then Str([s[i]]) else Undefined
    case Obj(_) => Get(v, DecimalString(i))
    case _ => Undefined
  }

  /** `v[i] = x` where `v[i]` was just read as truthy; a write to a
      primitive is dropped. */
  function SetElement(v: Value, i: int, x: Value): Value {
    match v
    case Arr(items, named) => if 0 <= i < |items| then Arr(items[i := x], named) else v
    case Obj(_) => Put(v, DecimalString(i), x)
    case _ => v
  }

  /** `v.length`. */
  function LengthOf(v: Value): Value {
    match v
    case Arr(items, _) => Num(|items|)
    case Str(s) => Num(|s|)
    case Obj(_) => Get(v, "length")
    case _ => Undefined
  }

  // ----- the list idioms -----

  /** `owner[key] = owner[key] || []; owner[key].push(item)`: only arrays
      have `push`. */
  function AppendTo(owner: Value, key: string, item: Value): Completion<Value> {
    match Push(Or(Get(owner, key), List([])), item)
    case Threw => Threw
    case Done(list) => Done(Put(owner, key, list))
  }

  /** `if (isNaN(idx) || !owner[key]) return; owner[key].splice(idx, 1)`:
      only arrays have `splice`. */
  function RemoveFrom(owner: Value, key: string, idx: Option<int>): Completion<Edited> {
    var list := Get(owner, key);
    if idx.None? || !Truthy(list) then Kept(owner)
    else if !list.Arr? then Threw
    else Marked(Put(owner, key, Arr(SpliceOut(list.items, idx), list.named)))
  }

  /** `updateTopicField`: `if (isNaN(idx) || !owner[key] || !owner[key][idx])
      return; owner[key][idx][field] = x`. */
  function UpdateItemField(owner: Value, key: string, idx: Option<int>, field: string, x: Value): Edited {
    var list := Get(owner, key);
    if idx.None? || !Truthy(list) || !Truthy(Element(list, idx.value)) then Edited(owner, false)
    else Edited(Put(owner, key, SetElement(list, idx.value, Put(Element(list, idx.value), field, x))), true)
  }

  /** `{name: 'topic', topic: ''}`. */
  const NewTopic: Value := Obj(map["name" := Str("topic"), "topic" := EmptyString])

  /** `addTopic` on the current device. */
  function AddTopic(dev: Value): Completion<Value> {
    AppendTo(dev, "topics", NewTopic)
  }

  /** `removeTopic` on the current device. */
  function RemoveTopic(dev: Value, idx: Option<int>): Completion<Edited> {
    RemoveFrom(dev, "topics", idx)
  }

  // ----- scenarios -----

  /** `{id, name: 'Scenario', steps: []}`; the id is made from the clock. */
  function NewScenario(id: string): Value {
    Obj(map["id" := Str(id), "name" := Str("Scenario"), "steps" := List([])])
  }

  /** `addScenario` on the current device. */
  function AddScenario(dev: Value, id: string): Completion<Value> {
    AppendTo(dev, "scenarios", NewScenario(id))
  }

  /** `addScenario` on an object device: it throws exactly when
      `scenarios` is truthy but not an array; otherwise the earlier
      scenarios are kept in order and the new one, with the given id, the
      name "Scenario" and no steps, is the last, at the index
      `scenarios.length - 1` that the handler then selects. */
  lemma AddScenarioAppends(dev: Value, id: string)
    requires IsObjectLike(dev)
    ensures var prev := Get(dev, "scenarios");
            var r := AddScenario(dev, id);
            (r.Threw? <==> Truthy(prev) && !prev.Arr?)
            && (r.Done? ==>
                  var l := Get(r.value, "scenarios");
                  l.Arr? && |l.items| >= 1
                  && l.items[..|l.items| - 1] == (if prev.Arr? then prev.items else [])
                  && Get(l.items[|l.items| - 1], "id") == Str(id)
                  && Get(l.items[|l.items| - 1], "name") == Str("Scenario")
                  && Get(l.items[|l.items| - 1], "steps") == List([]))
  {
    AppendToFacts(dev, "scenarios", NewScenario(id));
  }

  /** The scenario `removeScenario` targets: the parsed index, or the
      selection when the index is `NaN`. */
  function RemoveTarget(idx: Option<int>, selected: int): int {
    match idx
    case Some(i) => i
    case None => selected
  }

  /** `removeScenario` on the current device: nothing without a non-empty
      `scenarios` or with a negative target; otherwise the target is spliced
      out. */
  function RemoveScenario(dev: Value, idx: Option<int>, selected: int): Completion<Edited> {
    var list := Get(dev, "scenarios");
    var target := RemoveTarget(idx, selected);
    if !Truthy(list) || !Truthy(LengthOf(list)) || target < 0 then Kept(dev)
    else if !list.Arr? then Threw
    else Marked(Put(dev, "scenarios", Arr(SpliceOut(list.items, Some(target)), list.named)))
  }

  /** The selection `removeScenario` leaves:
      `Math.min(target, scenarios.length - 1)` after the splice. */
  function RemoveScenarioSelection(dev: Value, idx: Option<int>, selected: int): int {
    var list := Get(dev, "scenarios");
    var target := RemoveTarget(idx, selected);
    if !list.Arr? || |list.items| == 0 || target < 0 then selected
    else Min(target, |SpliceOut(list.items, Some(target))| - 1)
  }

  // ----- steps -----

  /** The step `addStep` appends: an MQTT publish with empty topic and
      payload. */
  const NewStep: Value :=
    Obj(map["type" := Str("mqtt_publish"), "delay_ms" := Num(0),
            "data" := Obj(map["mqtt" := Obj(map["topic" := EmptyString, "payload" := EmptyString,
                                                "qos" := Num(0), "retain" := Bool(false)])])])

  /** `addStep` on the current scenario. */
  function AddStep(scen: Value): Completion<Value> {
    AppendTo(scen, "steps", NewStep)
  }

  /** `removeStep` on the current scenario. */
  function RemoveStep(scen: Value, idx: Option<int>): Completion<Edited> {
    RemoveFrom(scen, "steps", idx)
  }

  /** `target >= steps.length`; a comparison with a length that is not a
      number is false. */
  predicate AtOrBeyond(target: int, length: Value) {
    length.Num? && target >= length.n
  }

  /** The two splices of `moveStep`: the element at `i` taken out and put
      back at `t`. The list keeps its length and its elements, the element
      lands at `t`, and the others keep their order. */
  function Moved(xs: seq<Value>, i: nat, t: nat): (ys: seq<Value>)
    requires i < |xs| && t < |xs|
    ensures |ys| == |xs| && ys[t] == xs[i]
    ensures multiset(ys) == multiset(xs)
    ensures SpliceOut(ys, Some(t)) == SpliceOut(xs, Some(i))
  {
    SpliceOutAt(xs, i);
    SpliceOutInsertAt(SpliceOut(xs, Some(i)), t, xs[i]);
    InsertAt(SpliceOut(xs, Some(i)), t, xs[i])
  }

  /** Moving an element back from `t` to `i` undoes the move. */
  lemma MovedBack(xs: seq<Value>, i: nat, t: nat)
    requires i < |xs| && t < |xs|
    ensures Moved(Moved(xs, i, t), t, i) == xs
  {
    var ys := Moved(xs, i, t);
    InsertAtSpliceOut(xs, i);
  }

  /** `moveStep(idx, delta)`: nothing for a `NaN` index, a missing step or
      a target outside the list; otherwise the step is taken out and put
      back at `idx + delta`. */
  function MoveStep(scen: Value, idx: Option<int>, delta: int): Completion<Edited> {
    var steps := Get(scen, "steps");
    if idx.None? || !Truthy(steps) || !Truthy(Element(steps, idx.value)) then Kept(scen)
    else
      var target := idx.value + delta;
      if target < 0 || AtOrBeyond(target, LengthOf(steps)) then Kept(scen)
      else if !steps.Arr? then Threw
      else
        Marked(Put(scen, "steps", Arr(Moved(steps.items, idx.value, target), steps.named)))
  }

  /** The current step after an edit, written back into its scenario. */
  function WithStep(scen: Value, i: int, step: Value): Value {
    Put(scen, "steps", SetElement(Get(scen, "steps"), i, step))
  }

  /** `updateStepField(idx, field, el)`: `type` stores the text; a dotted
      field walks the path, creating `{}` where a key is `undefined`, and
      stores the normalised value at its end; any other field is stored
      on the step. */
  function UpdateStepField(scen: Value, idx: Option<int>, field: string, text: string, kind: string): Completion<Edited> {
    var steps := Get(scen, "steps");
    if idx.None? || !Truthy(steps) || !Truthy(Element(steps, idx.value)) then Kept(scen)
    else
      var i := idx.value;
      var step := Element(steps, i);
      if field == "type" then Marked(WithStep(scen, i, Put(step, "type", Str(text))))
      else if '.' in field then
        match SetPath(step, Split(field, '.'), NormalizeValue(text, kind))
        case Threw => Threw
        case Done(s) => Marked(WithStep(scen, i, s))
      else Marked(WithStep(scen, i, Put(step, field, NormalizeValue(text, kind))))
  }

  /** The path `ensure` creates for the wait handlers. */
  const RequirementsPath: seq<string> := ["data", "wait_flags", "requirements"]

  /** `scen.steps?.[i]`. */
  function StepAt(scen: Value, i: int): Value {
    Element(Get(scen, "steps"), i)
  }

  /** `updateWaitField`: `ensure` the requirements path, then store the
      flag name or the required state in the requirement, if there is one. */
  function UpdateWaitField(scen: Value, stepIdx: Option<int>, reqIdx: Option<int>, field: string, text: string)
    : Completion<Edited>
  {
    if stepIdx.None? || reqIdx.None? || !Truthy(StepAt(scen, stepIdx.value)) then Kept(scen)
    else
      var i := stepIdx.value;
      match EnsurePath(StepAt(scen, i), RequirementsPath)
      case Threw => Threw
      case Done(step) =>
        var reqs := GetPath(step, RequirementsPath);
        var req := Element(reqs, reqIdx.value);
        if !Truthy(req) then Kept(WithStep(scen, i, step))
        else
          Marked(WithStep(scen, i, SetRequirements(step, SetElement(reqs, reqIdx.value, EditRequirement(req, field, text)))))
  }

  /** The requirement after `updateWaitField`: `flag` stores the text,
      `state` stores whether the text is `"true"`; the other properties are
      kept. */
  function EditRequirement(req: Value, field: string, text: string): (r: Value)
    ensures IsObjectLike(req) && field == "flag" ==> Get(r, "flag") == Str(text)
    ensures IsObjectLike(req) && field == "state" ==> Get(r, "required_state") == Bool(text == "true")
    ensures forall k :: (k != "flag" || field != "flag") && (k != "required_state" || field != "state") ==>
              Get(r, k) == Get(req, k)
  {
    var req1 := if field == "flag" then Put(req, "flag", Str(text)) else req;
    GetPut(req, "flag", Str(text));
    GetPut(req1, "required_state", Bool(text == "true"));
    if field == "state" then Put(req1, "required_state", Bool(text == "true")) else req1
  }

  /** Stores a requirements list back along `data.wait_flags`. */
  function SetRequirements(step: Value, reqs: Value): Value {
    var data := Get(step, "data");
    var wf := Get(data, "wait_flags");
    Put(step, "data", Put(data, "wait_flags", Put(wf, "requirements", reqs)))
  }

  /** `{flag: '', required_state: true}`. */
  const NewRequirement: Value := Obj(map["flag" := EmptyString, "required_state" := Bool(true)])

  /** `addWaitRule` as written: `ensure` creates a missing `requirements`
      as `{}`, which has no `push`. */
  function AddWaitRule(scen: Value, stepIdx: Option<int>): Completion<Edited> {
    if stepIdx.None? || !Truthy(StepAt(scen, stepIdx.value)) then Kept(scen)
    else
      var i := stepIdx.value;
      match EnsurePath(StepAt(scen, i), RequirementsPath)
      case Threw => Threw
      case Done(step) =>
        match Push(GetPath(step, RequirementsPath), NewRequirement)
        case Threw => Threw
        case Done(reqs) => Marked(WithStep(scen, i, SetRequirements(step, reqs)))
  }

  /** `addWaitRule` as intended: a requirements value that is not an array
      is replaced by `[]` before the push. */
  function AddWaitRuleFixed(scen: Value, stepIdx: Option<int>): Completion<Edited> {
    if stepIdx.None? || !Truthy(StepAt(scen, stepIdx.value)) then Kept(scen)
    else
      var i := stepIdx.value;
      match EnsurePath(StepAt(scen, i), RequirementsPath[..2])
      case Threw => Threw
      case Done(step) =>
        var reqs := GetPath(step, RequirementsPath);
        var list := if reqs.Arr? then reqs.items else [];
        Marked(WithStep(scen, i, SetRequirements(step, Arr(list + [NewRequirement], if reqs.Arr? then reqs.named else map[]))))
  }

  /** `removeWaitRule`: `ensure` the path, then splice the requirement out. */
  function RemoveWaitRule(scen: Value, stepIdx: Option<int>, reqIdx: Option<int>): Completion<Edited> {
    if stepIdx.None? || reqIdx.None? || !Truthy(StepAt(scen, stepIdx.value)) then Kept(scen)
    else
      var i := stepIdx.value;
      match EnsurePath(StepAt(scen, i), RequirementsPath)
      case Threw => Threw
      case Done(step) =>
        var reqs := GetPath(step, RequirementsPath);
        if !reqs.Arr? then Threw
        else Marked(WithStep(scen, i, SetRequirements(step, Arr(SpliceOut(reqs.items, reqIdx), reqs.named))))
  }

  // ----- the device list -----

  /** The copy `cloneDevice` inserts: a JSON copy with `_copy` added to the
      id and ` copy` to the display name. */
  function CloneOf(dev: Value): Value {
    var copy := JsonClone(dev);
    var id := ToJsString(Or(Get(dev, "id"), Str("device"))) + "_copy";
    var name := ToJsString(Or(Or(Or(Get(dev, "display_name"), Get(dev, "name")), Get(dev, "id")), Str("Device"))) + " copy";
    Put(Put(copy, "id", Str(id)), "display_name", Str(name))
  }

  /** `cloneDevice`: the copy goes right after the selected device. */
  function CloneDevice(devices: seq<Value>, selected: int): (r: seq<Value>)
    requires 0 <= selected < |devices|
    ensures |r| == |devices| + 1 && r[selected + 1] == CloneOf(devices[selected])
    ensures r[..selected + 1] == devices[..selected + 1] && r[selected + 2..] == devices[selected + 1..]
  {
    InsertAt(devices, selected + 1, CloneOf(devices[selected]))
  }

  /** `deleteDevice`: nothing with no selection or no devices; otherwise the
      selected device is spliced out. */
  function DeleteDevice(devices: seq<Value>, selected: int): seq<Value> {
    if selected < 0 || |devices| == 0 then devices else SpliceOut(devices, Some(selected))
  }

  /** The selection `deleteDevice` leaves. */
  function DeleteDeviceSelection(devices: seq<Value>, selected: int): int {
    if selected < 0 || |devices| == 0 then selected
    else
      var rest := SpliceOut(devices, Some(selected));
      if |rest| == 0 then -1 else Min(selected, |rest| - 1)
  }

  // ----- properties -----

  /** Splicing out what was just spliced in gives the list back. */
  lemma SpliceOutInsertAt(xs: seq<Value>, k: nat, x: Value)
    requires k <= |xs|
    ensures SpliceOut(InsertAt(xs, k, x), Some(k)) == xs
  {
    var r := InsertAt(xs, k, x);
    SpliceOutAt(r, k);
    assert xs == xs[..k] + xs[k..];
  }

  /** Putting an element back where it was spliced out restores the list. */
  lemma InsertAtSpliceOut(xs: seq<Value>, k: nat)
    requires k < |xs|
    ensures InsertAt(SpliceOut(xs, Some(k)), k, xs[k]) == xs
  {
    SpliceOutAt(xs, k);
    var rest := xs[..k] + xs[k + 1..];
    var r := InsertAt(rest, k, xs[k]);
    assert r[..k] == rest[..k] == xs[..k];
    assert r[k + 1..] == rest[k..] == xs[k + 1..];
    assert r == r[..k] + [r[k]] + r[k + 1..];
    assert xs == xs[..k] + [xs[k]] + xs[k + 1..];
  }

  /** A splice at a normalised start is the splice at that index. */
  lemma SpliceOutNormal(xs: seq<Value>, idx: Option<int>)
    ensures SpliceOut(xs, idx) == SpliceOut(xs, Some(SpliceStart(|xs|, idx)))
  {
  }

  /** `owner[key] = owner[key] || []; owner[key].push(item)` throws exactly
      when the old value is truthy but not an array; otherwise the list is
      the old array (or a new `[]`) with the item at the end, and no other
      property changes. A primitive owner is left as it was. */
  lemma AppendToFacts(owner: Value, key: string, item: Value)
    ensures var prev := Get(owner, key);
            var r := AppendTo(owner, key, item);
            (r.Threw? <==> Truthy(prev) && !prev.Arr?)
            && (r.Done? ==> forall k :: k != key ==> Get(r.value, k) == Get(owner, k))
            && (r.Done? && IsObjectLike(owner) ==>
                  Get(r.value, key).Arr? && Get(r.value, key).items == (if prev.Arr? then prev.items else []) + [item])
            && (r.Done? && !IsObjectLike(owner) ==> r.value == owner)
  {
    var r := AppendTo(owner, key, item);
    if r.Done? {
      var list := Push(Or(Get(owner, key), List([])), item).value;
      GetPut(owner, key, list);
    }
  }

  /** `owner[key].splice(idx, 1)`: a `NaN` index or a falsy list changes
      nothing; a truthy list that is not an array throws; an array loses
      exactly the element at the normalised start (none when the start is
      past the end), every other element keeping its order, and no other
      property changes. */
  lemma RemoveFromFacts(owner: Value, key: string, idx: Option<int>)
    ensures var list := Get(owner, key);
            var r := RemoveFrom(owner, key, idx);
            (r.Threw? <==> idx.Some? && Truthy(list) && !list.Arr?)
            && (r.Done? && !r.value.changed ==> r.value.value == owner && (idx.None? || !Truthy(list)))
            && (r.Done? && r.value.changed ==>
                  idx.Some? && list.Arr?
                  && (forall k :: k != key ==> Get(r.value.value, k) == Get(owner, k))
                  && var ys := Get(r.value.value, key);
                     var n := SpliceStart(|list.items|, idx);
                     ys.Arr? && ys.named == list.named
                     && (n < |list.items| ==>
                           ys.items == list.items[..n] + list.items[n + 1..]
                           && multiset(ys.items) + multiset{list.items[n]} == multiset(list.items))
                     && (n == |list.items| ==> ys.items == list.items))
  {
    var list := Get(owner, key);
    var r := RemoveFrom(owner, key, idx);
    if r.Done? && r.value.changed {
      var n := SpliceStart(|list.items|, idx);
      SpliceOutNormal(list.items, idx);
      if n < |list.items| {
        SpliceOutAt(list.items, n);
      }
      GetPut(owner, key, Arr(SpliceOut(list.items, idx), list.named));
    }
  }

  /** `owner[key][idx][field] = x` on an array: only a truthy element in
      range is edited; it reads `x` back under `field` (when it is an
      object) and keeps its other properties, and no other element or
      property of the owner changes. */
  lemma UpdateItemFieldFacts(owner: Value, key: string, i: int, field: string, x: Value)
    requires Get(owner, key).Arr?
    ensures var xs := Get(owner, key).items;
            var r := UpdateItemField(owner, key, Some(i), field, x);
            (r.changed <==> 0 <= i < |xs| && Truthy(xs[i]))
            && (!r.changed ==> r.value == owner)
            && (r.changed ==>
                  (forall k :: k != key ==> Get(r.value, k) == Get(owner, k))
                  && var ys := Get(r.value, key);
                     ys.Arr? && |ys.items| == |xs|
                     && (forall j :: 0 <= j < |xs| && j != i ==> ys.items[j] == xs[j])
                     && forall f :: Get(ys.items[i], f) == if IsObjectLike(xs[i]) && f == field then x else Get(xs[i], f))
  {
    var list := Get(owner, key);
    var r := UpdateItemField(owner, key, Some(i), field, x);
    if r.changed {
      var item := Put(list.items[i], field, x);
      GetPut(list.items[i], field, x);
      GetPut(owner, key, SetElement(list, i, item));
    }
  }

  /** `moveStep(idx, delta)` moves a step exactly when the list is an array,
      the step at `idx` is truthy and `idx + delta` is inside the list;
      otherwise it leaves the scenario as it was (or throws, on a list that
      is not an array). */
  lemma MoveStepGuard(scen: Value, i: int, delta: int)
    ensures var steps := Get(scen, "steps");
            var r := MoveStep(scen, Some(i), delta);
            (r.Done? && r.value.changed <==>
               steps.Arr? && 0 <= i < |steps.items| && Truthy(steps.items[i]) && 0 <= i + delta < |steps.items|)
            && (r.Done? && !r.value.changed ==> r.value.value == scen)
  {
    var steps := Get(scen, "steps");
    if steps.Arr? {
      if 0 <= i < |steps.items| {
        assert Element(steps, i) == steps.items[i];
        assert LengthOf(steps) == Num(|steps.items|);
      }
    } else {
      MoveStepNotArray(scen, i, delta);
    }
  }

  lemma MoveStepNotArray(scen: Value, i: int, delta: int)
    requires !Get(scen, "steps").Arr?
    ensures MoveStep(scen, Some(i), delta) == Kept(scen) || MoveStep(scen, Some(i), delta).Threw?
  {
  }

  /** A moved step lands at `idx + delta`, the other steps keep their
      order, the list keeps its elements and the scenario keeps its other
      properties. */
  lemma MoveStepFacts(scen: Value, i: int, delta: int)
    requires Get(scen, "steps").Arr? && 0 <= i < |Get(scen, "steps").items|
    requires Truthy(Get(scen, "steps").items[i]) && 0 <= i + delta < |Get(scen, "steps").items|
    ensures var steps := Get(scen, "steps");
            var t := i + delta;
            MoveStep(scen, Some(i), delta) == Marked(Put(scen, "steps", Arr(Moved(steps.items, i, t), steps.named)))
            && var after := MoveStep(scen, Some(i), delta).value.value;
               (forall k :: k != "steps" ==> Get(after, k) == Get(scen, k))
               && var ys := Get(after, "steps");
                  ys.Arr? && ys.named == steps.named && |ys.items| == |steps.items|
                  && ys.items[t] == steps.items[i]
                  && SpliceOut(ys.items, Some(t)) == SpliceOut(steps.items, Some(i))
                  && multiset(ys.items) == multiset(steps.items)
  {
    var steps := Get(scen, "steps");
    assert Element(steps, i) == steps.items[i];
    GetPut(scen, "steps", Arr(Moved(steps.items, i, i + delta), steps.named));
  }

  /** Moving a step back by the opposite offset undoes a move. */
  lemma MoveStepBack(scen: Value, i: int, delta: int)
    requires MoveStep(scen, Some(i), delta).Done? && MoveStep(scen, Some(i), delta).value.changed
    ensures MoveStep(MoveStep(scen, Some(i), delta).value.value, Some(i + delta), -delta) == Marked(scen)
  {
    MoveStepGuard(scen, i, delta);
    MoveStepFacts(scen, i, delta);
    var steps := Get(scen, "steps");
    var xs := steps.items;
    var t := i + delta;
    var ys := Moved(xs, i, t);
    var s1 := Put(scen, "steps", Arr(ys, steps.named));
    GetPut(scen, "steps", Arr(ys, steps.named));
    MoveStepFacts(s1, t, -delta);
    MovedBack(xs, i, t);
    PutOver(scen, "steps", Arr(ys, steps.named), steps);
    PutOfGet(scen, "steps");
  }

  /** `after` is `scen` with at most step `i` of its `steps` array changed. */
  ghost predicate OnlyStepChanged(scen: Value, after: Value, i: int) {
    var xs := Get(scen, "steps");
    var ys := Get(after, "steps");
    (forall k :: k != "steps" ==> Get(after, k) == Get(scen, k))
    && xs.Arr? && ys.Arr? && ys.named == xs.named && |ys.items| == |xs.items|
    && forall j :: 0 <= j < |xs.items| && j != i ==> ys.items[j] == xs.items[j]
  }

  /** Writing step `i` back: the step reads back and nothing else changes. */
  lemma WithStepFacts(scen: Value, i: int, step: Value)
    requires Get(scen, "steps").Arr? && 0 <= i < |Get(scen, "steps").items|
    ensures OnlyStepChanged(scen, WithStep(scen, i, step), i)
    ensures StepAt(WithStep(scen, i, step), i) == step
  {
    GetPut(scen, "steps", SetElement(Get(scen, "steps"), i, step));
  }

  /** `updateStepField` on a truthy step: only that step changes. `type`
      stores the text; a field without a dot stores the normalised value;
      a dotted field whose parents are objects or missing stores it at the
      end of the path, and every sibling along the path keeps its value. */
  lemma UpdateStepFieldFacts(scen: Value, i: int, field: string, text: string, kind: string)
    requires Get(scen, "steps").Arr? && 0 <= i < |Get(scen, "steps").items|
    requires Truthy(Get(scen, "steps").items[i])
    ensures var step := StepAt(scen, i);
            var x := NormalizeValue(text, kind);
            var r := UpdateStepField(scen, Some(i), field, text, kind);
            var parts := Split(field, '.');
            (r.Done? ==> r.value.changed && OnlyStepChanged(scen, r.value.value, i))
            && (field == "type" ==>
                  r.Done? && forall k :: Get(StepAt(r.value.value, i), k) ==
                                         if IsObjectLike(step) && k == "type" then Str(text) else Get(step, k))
            && ('.' !in field && field != "type" ==>
                  r.Done? && forall k :: Get(StepAt(r.value.value, i), k) ==
                                         if IsObjectLike(step) && k == field then x else Get(step, k))
            && ('.' in field && Paved(step, parts[..|parts| - 1]) ==>
                  r.Done? && GetPath(StepAt(r.value.value, i), parts) == x
                  && forall j, k :: 0 <= j < |parts| && k != parts[j] ==>
                       Get(GetPath(StepAt(r.value.value, i), parts[..j]), k) == Get(GetPath(step, parts[..j]), k))
  {
    if field == "type" {
      UpdateStepTypeFacts(scen, i, text, kind);
    } else if '.' in field {
      UpdateStepPathFacts(scen, i, field, text, kind);
    } else {
      UpdateStepPlainFacts(scen, i, field, text, kind);
    }
  }

  lemma UpdateStepTypeFacts(scen: Value, i: int, text: string, kind: string)
    requires Get(scen, "steps").Arr? && 0 <= i < |Get(scen, "steps").items|
    requires Truthy(Get(scen, "steps").items[i])
    ensures var step := StepAt(scen, i);
            var r := UpdateStepField(scen, Some(i), "type", text, kind);
            r.Done? && r.value.changed && OnlyStepChanged(scen, r.value.value, i)
            && forall k :: Get(StepAt(r.value.value, i), k) ==
                           if IsObjectLike(step) && k == "type" then Str(text) else Get(step, k)
  {
    var step := Get(scen, "steps").items[i];
    WithStepFacts(scen, i, Put(step, "type", Str(text)));
    GetPut(step, "type", Str(text));
  }

  lemma UpdateStepPlainFacts(scen: Value, i: int, field: string, text: string, kind: string)
    requires Get(scen, "steps").Arr? && 0 <= i < |Get(scen, "steps").items|
    requires Truthy(Get(scen, "steps").items[i])
    requires '.' !in field && field != "type"
    ensures var step := StepAt(scen, i);
            var x := NormalizeValue(text, kind);
            var r := UpdateStepField(scen, Some(i), field, text, kind);
            r.Done? && r.value.changed && OnlyStepChanged(scen, r.value.value, i)
            && forall k :: Get(StepAt(r.value.value, i), k) ==
                           if IsObjectLike(step) && k == field then x else Get(step, k)
  {
    var step := Get(scen, "steps").items[i];
    var x := NormalizeValue(text, kind);
    WithStepFacts(scen, i, Put(step, field, x));
    GetPut(step, field, x);
  }

  lemma UpdateStepPathFacts(scen: Value, i: int, field: string, text: string, kind: string)
    requires Get(scen, "steps").Arr? && 0 <= i < |Get(scen, "steps").items|
    requires Truthy(Get(scen, "steps").items[i])
    requires '.' in field
    ensures var step := StepAt(scen, i);
            var x := NormalizeValue(text, kind);
            var r := UpdateStepField(scen, Some(i), field, text, kind);
            var parts := Split(field, '.');
            (r.Done? ==> r.value.changed && OnlyStepChanged(scen, r.value.value, i))
            && (Paved(step, parts[..|parts| - 1]) ==>
                  r.Done? && GetPath(StepAt(r.value.value, i), parts) == x
                  && forall j, k :: 0 <= j < |parts| && k != parts[j] ==>
                       Get(GetPath(StepAt(r.value.value, i), parts[..j]), k) == Get(GetPath(step, parts[..j]), k))
  {
    var step := Get(scen, "steps").items[i];
    var x := NormalizeValue(text, kind);
    var parts := Split(field, '.');
    if Paved(step, parts[..|parts| - 1]) {
      SetPathReadBack(step, parts, x);
    }
    var c := SetPath(step, parts, x);
    if c.Done? {
      SetPathSiblings(step, parts, x);
      WithStepFacts(scen, i, c.value);
    }
  }


  /** The step's `data.wait_flags` exists as an object or array. */
  predicate WaitFlagsReady(step: Value) {
    IsObjectLike(step) && IsObjectLike(Get(step, "data")) && IsObjectLike(Get(Get(step, "data"), "wait_flags"))
  }

  /** The requirements path read one key at a time. */
  lemma RequirementsOf(v: Value)
    ensures GetPath(v, RequirementsPath[..2]) == Get(Get(v, "data"), "wait_flags")
    ensures GetPath(v, RequirementsPath) == Get(Get(Get(v, "data"), "wait_flags"), "requirements")
    ensures Paved(v, RequirementsPath[..2]) <==>
              IsObjectLike(v) && (Get(v, "data").Undefined?
                || (IsObjectLike(Get(v, "data")) && (Get(Get(v, "data"), "wait_flags").Undefined? || WaitFlagsReady(v))))
  {
    var rp := RequirementsPath;
    assert rp[1..] == ["wait_flags", "requirements"] && rp[2..] == ["requirements"] && rp[3..] == [];
    assert rp[..2] == ["data", "wait_flags"] && rp[..2][1..] == ["wait_flags"] && rp[..2][2..] == [];
    assert GetPath(v, rp[..2]) == GetPath(Get(v, "data"), ["wait_flags"]);
    assert GetPath(Get(v, "data"), ["wait_flags"]) == GetPath(Get(Get(v, "data"), "wait_flags"), []);
    assert GetPath(v, rp) == GetPath(Get(v, "data"), rp[1..]);
    assert GetPath(Get(v, "data"), rp[1..]) == GetPath(Get(Get(v, "data"), "wait_flags"), rp[2..]);
  }

  /** Storing a requirements list where `data.wait_flags` exists: it reads
      back and the step keeps its other properties. */
  lemma SetRequirementsFacts(step: Value, reqs: Value)
    requires WaitFlagsReady(step)
    ensures WaitFlagsReady(SetRequirements(step, reqs))
    ensures GetPath(SetRequirements(step, reqs), RequirementsPath) == reqs
    ensures forall k :: k != "data" ==> Get(SetRequirements(step, reqs), k) == Get(step, k)
  {
    var data := Get(step, "data");
    var wf := Get(data, "wait_flags");
    GetPut(wf, "requirements", reqs);
    GetPut(data, "wait_flags", Put(wf, "requirements", reqs));
    GetPut(step, "data", Put(data, "wait_flags", Put(wf, "requirements", reqs)));
    RequirementsOf(SetRequirements(step, reqs));
  }

  /** `addWaitRule` as written, on a step whose `data` and `wait_flags` are
      objects or missing: it throws exactly when `requirements` is not an
      array, because `ensure` turns a missing one into `{}`, which has no
      `push`. */
  lemma AddWaitRuleThrows(scen: Value, i: int)
    requires Truthy(StepAt(scen, i)) && Paved(StepAt(scen, i), RequirementsPath[..2])
    ensures AddWaitRule(scen, Some(i)).Threw? <==> !GetPath(StepAt(scen, i), RequirementsPath).Arr?
  {
    var step := StepAt(scen, i);
    assert RequirementsPath[..|RequirementsPath| - 1] == RequirementsPath[..2];
    EnsureLeaf(step, RequirementsPath);
  }

  /** The smallest wait step the editor meets: a step whose type was just
      switched to `wait_flags`. */
  const FreshWaitScenario: Value := Obj(map["steps" := List([Obj(map["type" := Str("wait_flags")])])])

  /** The first "add requirement" on a fresh wait step throws as written;
      the intended handler adds the one requirement. */
  lemma AddWaitRuleOnFreshStep()
    ensures AddWaitRule(FreshWaitScenario, Some(0)) == Threw
    ensures var r := AddWaitRuleFixed(FreshWaitScenario, Some(0));
            r.Done? && r.value.changed
            && GetPath(StepAt(r.value.value, 0), RequirementsPath) == List([NewRequirement])
  {
    var step := Obj(map["type" := Str("wait_flags")]);
    assert StepAt(FreshWaitScenario, 0) == step;
    RequirementsOf(step);
    AddWaitRuleThrows(FreshWaitScenario, 0);
    AddWaitRuleFixedFacts(FreshWaitScenario, 0);
  }

  /** Where `requirements` is already an array, the written and the
      intended `addWaitRule` agree. */
  lemma AddWaitRuleAgrees(scen: Value, i: int)
    requires Truthy(StepAt(scen, i)) && GetPath(StepAt(scen, i), RequirementsPath).Arr?
    ensures AddWaitRule(scen, Some(i)) == AddWaitRuleFixed(scen, Some(i))
  {
    var step := StepAt(scen, i);
    RequirementsOf(step);
    assert WaitFlagsReady(step);
    var rp := RequirementsPath;
    assert rp[..1] == ["data"] && rp[..3] == rp && rp[..2][..1] == ["data"] && rp[..2][..2] == rp[..2];
    assert GetPath(step, rp[..1]) == Get(step, "data");
    assert GetPath(step, rp[..2][..1]) == Get(step, "data");
    EnsureKeepsExisting(step, rp);
    EnsureKeepsExisting(step, rp[..2]);
  }

  /** The intended `addWaitRule` on a truthy step whose `data` and
      `wait_flags` are objects or missing: it always succeeds, only that
      step changes, and its requirements become the old array (or none)
      with one new requirement at the end. */
  lemma AddWaitRuleFixedFacts(scen: Value, i: int)
    requires Get(scen, "steps").Arr? && 0 <= i < |Get(scen, "steps").items|
    requires Truthy(StepAt(scen, i)) && Paved(StepAt(scen, i), RequirementsPath[..2])
    ensures var step := StepAt(scen, i);
            var reqs := GetPath(step, RequirementsPath);
            var r := AddWaitRuleFixed(scen, Some(i));
            r.Done? && r.value.changed && OnlyStepChanged(scen, r.value.value, i)
            && GetPath(StepAt(r.value.value, i), RequirementsPath)
                 == if reqs.Arr? then Arr(reqs.items + [NewRequirement], reqs.named) else List([NewRequirement])
  {
    var step := StepAt(scen, i);
    var rp := RequirementsPath;
    assert rp[..2][..|rp[..2]| - 1] == rp[..1];
    assert rp[..2][..1] == rp[..1] == ["data"];
    assert GetPath(step, rp[..1]) == Get(step, "data");
    assert Paved(step, rp[..1]);
    EnsureLeaf(step, rp[..2]);
    EnsureReaches(step, rp[..2]);
    var e := EnsurePath(step, rp[..2]).value;
    assert 1 <= |rp[..2]|;
    assert GetPath(e, rp[..2][..1]) == Get(e, "data");
    assert GetPath(e, rp[..2][..0]) == e;
    RequirementsOf(step);
    RequirementsOf(e);
    assert WaitFlagsReady(e);
    assert GetPath(e, rp).Arr? == GetPath(step, rp).Arr?;
    assert GetPath(step, rp).Arr? ==> GetPath(e, rp) == GetPath(step, rp);
    var reqs := GetPath(e, rp);
    var list := if reqs.Arr? then reqs.items else [];
    var ys := Arr(list + [NewRequirement], if reqs.Arr? then reqs.named else map[]);
    SetRequirementsFacts(e, ys);
    WithStepFacts(scen, i, SetRequirements(e, ys));
  }

  /** `removeWaitRule` on a step whose `requirements` is an array: only
      that step changes, and its requirements lose exactly the element at
      the normalised index. */
  lemma RemoveWaitRuleFacts(scen: Value, i: int, j: int)
    requires Get(scen, "steps").Arr? && 0 <= i < |Get(scen, "steps").items|
    requires Truthy(StepAt(scen, i)) && GetPath(StepAt(scen, i), RequirementsPath).Arr?
    ensures var reqs := GetPath(StepAt(scen, i), RequirementsPath);
            var r := RemoveWaitRule(scen, Some(i), Some(j));
            r.Done? && r.value.changed && OnlyStepChanged(scen, r.value.value, i)
            && GetPath(StepAt(r.value.value, i), RequirementsPath) == Arr(SpliceOut(reqs.items, Some(j)), reqs.named)
  {
    var step := StepAt(scen, i);
    RequirementsOf(step);
    var rp := RequirementsPath;
    assert rp[..1] == ["data"] && rp[..3] == rp;
    assert GetPath(step, rp[..1]) == Get(step, "data");
    EnsureKeepsExisting(step, rp);
    var reqs := GetPath(step, rp);
    SetRequirementsFacts(step, Arr(SpliceOut(reqs.items, Some(j)), reqs.named));
    WithStepFacts(scen, i, SetRequirements(step, Arr(SpliceOut(reqs.items, Some(j)), reqs.named)));
  }

  /** `updateWaitField` on an existing requirement: only that step and,
      in it, only that requirement change, and the requirement becomes
      its edited form. */
  lemma UpdateWaitFieldFacts(scen: Value, i: int, j: int, field: string, text: string)
    requires Get(scen, "steps").Arr? && 0 <= i < |Get(scen, "steps").items|
    requires Truthy(StepAt(scen, i))
    requires var reqs := GetPath(StepAt(scen, i), RequirementsPath);
             reqs.Arr? && 0 <= j < |reqs.items| && Truthy(reqs.items[j])
    ensures var reqs := GetPath(StepAt(scen, i), RequirementsPath);
            var r := UpdateWaitField(scen, Some(i), Some(j), field, text);
            r.Done? && r.value.changed && OnlyStepChanged(scen, r.value.value, i)
            && GetPath(StepAt(r.value.value, i), RequirementsPath)
                 == Arr(reqs.items[j := EditRequirement(reqs.items[j], field, text)], reqs.named)
  {
    var step := StepAt(scen, i);
    RequirementsOf(step);
    var rp := RequirementsPath;
    assert rp[..1] == ["data"] && rp[..3] == rp;
    assert GetPath(step, rp[..1]) == Get(step, "data");
    EnsureKeepsExisting(step, rp);
    var reqs := GetPath(step, rp);
    assert Element(reqs, j) == reqs.items[j];
    var edited := SetElement(reqs, j, EditRequirement(reqs.items[j], field, text));
    SetRequirementsFacts(step, edited);
    WithStepFacts(scen, i, SetRequirements(step, edited));
  }

  /** The copy of a JSON device object differs from it in `id` and
      `display_name` only, and those take the suffixed names. */
  lemma CloneOfFacts(dev: Value)
    requires dev.Obj? && IsJson(dev)
    ensures Get(CloneOf(dev), "id") == Str(ToJsString(Or(Get(dev, "id"), Str("device"))) + "_copy")
    ensures Get(CloneOf(dev), "display_name") ==
              Str(ToJsString(Or(Or(Or(Get(dev, "display_name"), Get(dev, "name")), Get(dev, "id")), Str("Device"))) + " copy")
    ensures forall k :: k != "id" && k != "display_name" ==> Get(CloneOf(dev), k) == Get(dev, k)
  {
    JsonCloneKeepsJson(dev);
  }

  /** Deleting the copy right after cloning gives the list back. */
  lemma DeleteDeviceUndoesClone(devices: seq<Value>, selected: int)
    requires 0 <= selected < |devices|
    ensures DeleteDevice(CloneDevice(devices, selected), selected + 1) == devices
  {
    SpliceOutInsertAt(devices, selected + 1, CloneOf(devices[selected]));
  }

  /** `deleteDevice` removes the selected device (none when the selection
      is past the end) and leaves a selection inside the remaining list,
      or `-1` exactly when the list became empty. */
  lemma DeleteDeviceFacts(devices: seq<Value>, selected: int)
    requires 0 <= selected && |devices| > 0
    ensures var r := DeleteDevice(devices, selected);
            var s := DeleteDeviceSelection(devices, selected);
            (selected < |devices| ==> r == devices[..selected] + devices[selected + 1..])
            && (selected >= |devices| ==> r == devices)
            && (s == -1 <==> |r| == 0)
            && (|r| > 0 ==> 0 <= s < |r|)
  {
    if selected < |devices| {
      SpliceOutAt(devices, selected);
    }
  }

  /** `removeScenario` on a non-empty array with a target that is not
      negative: the target is spliced out and the new selection is inside
      the remaining list, or `-1` exactly when it became empty. */
  lemma RemoveScenarioFacts(dev: Value, idx: Option<int>, selected: int)
    requires Get(dev, "scenarios").Arr? && |Get(dev, "scenarios").items| > 0
    requires RemoveTarget(idx, selected) >= 0
    ensures var xs := Get(dev, "scenarios").items;
            var target := RemoveTarget(idx, selected);
            var r := RemoveScenario(dev, idx, selected);
            var s := RemoveScenarioSelection(dev, idx, selected);
            r.Done? && r.value.changed
            && (forall k :: k != "scenarios" ==> Get(r.value.value, k) == Get(dev, k))
            && var ys := Get(r.value.value, "scenarios").items;
               (target < |xs| ==> ys == xs[..target] + xs[target + 1..])
               && (target >= |xs| ==> ys == xs)
               && (s == -1 <==> |ys| == 0)
               && (|ys| > 0 ==> 0 <= s < |ys|)
  {
    var list := Get(dev, "scenarios");
    var target := RemoveTarget(idx, selected);
    var ys := SpliceOut(list.items, Some(target));
    var d := Put(dev, "scenarios", Arr(ys, list.named));
    assert Truthy(LengthOf(list));
    assert RemoveScenario(dev, idx, selected) == Marked(d);
    GetPut(dev, "scenarios", Arr(ys, list.named));
    assert Get(d, "scenarios").items == ys;
    if target < |list.items| {
      SpliceOutAt(list.items, target);
      assert |ys| == |list.items| - 1;
    } else {
      assert ys == list.items;
    }
  }

  // ----- the remote editor's tab limit -----

  /** The `tab_limit` input of the remote editor: with a model loaded, text
      that `parseInt` reads as a number is stored clamped to 1..12 and marks
      the model dirty; any other text changes nothing. */
  function SetTabLimit(model: Value, text: string): Edited {
    if !Truthy(model) then Edited(model, false)
    else
      match ParseInt(text)
      case None => Edited(model, false)
      case Some(v) => Edited(Put(model, "tab_limit", Num(Max(1, Min(12, v)))), true)
  }

  /** The stored limit is always between 1 and 12 and is the typed number
      whenever that is in range; nothing but `tab_limit` changes. */
  lemma SetTabLimitFacts(model: Value, text: string)
    ensures var r := SetTabLimit(model, text);
            (r.changed <==> Truthy(model) && ParseInt(text).Some?)
            && (!r.changed ==> r.value == model)
            && (r.changed && IsObjectLike(model) ==>
                  var n := Get(r.value, "tab_limit");
                  n.Num? && 1 <= n.n <= 12 && (1 <= ParseInt(text).value <= 12 ==> n.n == ParseInt(text).value))
            && forall k :: k != "tab_limit" ==> Get(r.value, k) == Get(model, k)
  {
    if Truthy(model) && ParseInt(text).Some? {
      GetPut(model, "tab_limit", Num(Max(1, Min(12, ParseInt(text).value))));
    }
  }
}
