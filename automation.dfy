/** The automation engine (`automation_engine.c`): the table of named
    boolean flags that scenarios set and wait on, the lookups of devices and
    scenarios, the MQTT triggers built from the topic bindings, and the
    control flow of a running scenario. Queues, tasks, delays and the
    effects of the steps (publishing, audio, event posts) are not part of
    this model. */
module Automation {
  import opened Common
  import opened DmTypes

  // ------------------------------------------------------------- flags

  /** `AUTOMATION_FLAG_CAPACITY`. */
  const FLAG_CAPACITY: nat := MAX_DEVICES * MAX_SCENARIOS

  /** `automation_flag_t`. */
  datatype FlagSlot = FlagSlot(name: string, inUse: bool, value: bool)

  const FreeSlot: FlagSlot := FlagSlot("", false, false)

  /** Slot `i` holds the flag `name`, ignoring case. */
  predicate Holds(flags: seq<FlagSlot>, i: nat, name: string)
    requires i < |flags|
  {
    flags[i].inUse && EqualsIgnoreCase(flags[i].name, name)
  }

  /** The first slot at or after `i` in use whose name equals `name`
      ignoring case. */
  function FindFlag(flags: seq<FlagSlot>, name: string, i: nat := 0): (r: Option<nat>)
    requires i <= |flags|
    ensures r.Some? ==> (i <= r.value < |flags| && Holds(flags, r.value, name)
      && forall j :: i <= j < r.value ==> !Holds(flags, j, name))
    ensures r.None? ==> forall j :: i <= j < |flags| ==> !Holds(flags, j, name)
    decreases |flags| - i
  {
    if i == |flags| then None
    else if Holds(flags, i, name) then Some(i)
    else FindFlag(flags, name, i + 1)
  }

  /** The first slot at or after `i` not in use. */
  function FirstFree(flags: seq<FlagSlot>, i: nat := 0): (r: Option<nat>)
    requires i <= |flags|
    ensures r.Some? ==> (i <= r.value < |flags| && !flags[r.value].inUse
      && forall j :: i <= j < r.value ==> flags[j].inUse)
    ensures r.None? ==> forall j :: i <= j < |flags| ==> flags[j].inUse
    decreases |flags| - i
  {
    if i == |flags| then None
    else if !flags[i].inUse then Some(i)
    else FirstFree(flags, i + 1)
  }

  /** `automation_set_flag`: an existing flag of that name is updated;
      otherwise the first free slot takes the flag; a full table, or an
      empty name, changes nothing. */
  function WithFlag(flags: seq<FlagSlot>, name: string, value: bool): (r: seq<FlagSlot>)
    ensures |r| == |flags|
  {
    if name == "" then flags
    else match FindFlag(flags, name)
      case Some(i) => flags[i := flags[i].(value := value)]
      case None =>
        match FirstFree(flags)
        case Some(f) => flags[f := FlagSlot(name, true, value)]
        case None => flags
  }

  /** `automation_get_flag`: the value of the flag, false for an unknown
      or empty name. */
  function GetFlag(flags: seq<FlagSlot>, name: string): (r: bool)
    ensures r ==> name != "" && FindFlag(flags, name).Some?
  {
    if name == "" then false
    else match FindFlag(flags, name)
      case Some(i) => flags[i].value
      case None => false
  }

  /** A flag that was set reads back as the value it was set to, unless
      the table was full and did not hold it. */
  lemma SetThenGet(flags: seq<FlagSlot>, name: string, value: bool)
    requires name != ""
    requires FindFlag(flags, name).Some? || FirstFree(flags).Some?
    ensures GetFlag(WithFlag(flags, name, value), name) == value
  {
    var r := WithFlag(flags, name, value);
    EqualsIgnoreCaseFacts(name, name, name);
    match FindFlag(flags, name)
    case Some(k) =>
      assert r == flags[k := flags[k].(value := value)];
      forall j | 0 <= j < k ensures !Holds(r, j, name) {
        assert r[j] == flags[j];
        assert !Holds(flags, j, name);
      }
      FindIs(r, name, k);
    case None =>
      var k := FirstFree(flags).value;
      assert r == flags[k := FlagSlot(name, true, value)];
      forall j | 0 <= j < k ensures !Holds(r, j, name) {
        assert r[j] == flags[j];
        assert !Holds(flags, j, name);
      }
      assert Holds(r, k, name);
      FindIs(r, name, k);
  }

  /** The slot found for a name is the first one holding it. */
  lemma FindIs(flags: seq<FlagSlot>, name: string, k: nat)
    requires k < |flags| && Holds(flags, k, name)
    requires forall j :: 0 <= j < k ==> !Holds(flags, j, name)
    ensures FindFlag(flags, name) == Some(k)
  {
  }

  /** The free slot found is the first one not in use. */
  lemma FreeIs(flags: seq<FlagSlot>, k: nat)
    requires k < |flags| && !flags[k].inUse
    requires forall j :: 0 <= j < k ==> flags[j].inUse
    ensures FirstFree(flags) == Some(k)
  {
  }

  /** Setting a flag does not change how any other name reads. */
  lemma SetKeepsOthers(flags: seq<FlagSlot>, name: string, value: bool, other: string)
    requires !EqualsIgnoreCase(name, other)
    ensures GetFlag(WithFlag(flags, name, value), other) == GetFlag(flags, other)
  {
    var r := WithFlag(flags, name, value);
    if name != "" && other != "" {
      forall j | 0 <= j < |r| ensures Holds(r, j, other) <==> Holds(flags, j, other) {
        if Holds(flags, j, name) {
          EqualsIgnoreCaseFacts(flags[j].name, name, other);
          EqualsIgnoreCaseFacts(name, flags[j].name, other);
        }
      }
      SameHolders(flags, r, other);
      var f := FindFlag(flags, other);
      if f.Some? {
        EqualsIgnoreCaseFacts(flags[f.value].name, name, other);
        EqualsIgnoreCaseFacts(name, flags[f.value].name, other);
        assert r[f.value].value == flags[f.value].value;
      }
    }
  }

  /** Two tables with the same holders of a name find it in the same slot. */
  lemma SameHolders(a: seq<FlagSlot>, b: seq<FlagSlot>, name: string)
    requires |a| == |b| && forall j :: 0 <= j < |a| ==> (Holds(a, j, name) <==> Holds(b, j, name))
    ensures FindFlag(a, name) == FindFlag(b, name)
  {
    var fa, fb := FindFlag(a, name), FindFlag(b, name);
    if fa.Some? {
      FindIs(b, name, fa.value);
    }
  }

  /** With no free slot and no slot holding the name, setting it changes
      nothing. */
  lemma FullTableUnchanged(flags: seq<FlagSlot>, name: string, value: bool)
    requires forall j :: 0 <= j < |flags| ==> flags[j].inUse && !EqualsIgnoreCase(flags[j].name, name)
    ensures WithFlag(flags, name, value) == flags
  {
  }

  /** The flag table (`s_flags`), updated in place. */
  class FlagTable {
    var flags: seq<FlagSlot>

    ghost predicate Valid() reads this { |flags| == FLAG_CAPACITY }

    /** The table the engine starts with: every slot free. */
    constructor ()
      ensures Valid() && flags == seq(FLAG_CAPACITY, _ => FreeSlot)
    {
      flags := seq(FLAG_CAPACITY, _ => FreeSlot);
    }

    /** `automation_set_flag`: one pass over the slots remembers the first
        free slot and stops at a slot holding the name. */
    method Set(name: string, value: bool)
      requires Valid()
      modifies this
      ensures Valid() && flags == WithFlag(old(flags), name, value)
    {
      if name == "" {
        return;
      }
      var slot: Option<nat> := None;
      var i := 0;
      while i < |flags|
        invariant 0 <= i <= |flags|
        invariant forall j :: 0 <= j < i ==> !Holds(flags, j, name)
        invariant slot.Some? ==> (slot.value < i && !flags[slot.value].inUse
          && forall j :: 0 <= j < slot.value ==> flags[j].inUse)
        invariant slot.None? ==> forall j :: 0 <= j < i ==> flags[j].inUse
      {
        if flags[i].inUse && EqualsIgnoreCase(flags[i].name, name) {
          // The slot holding the name: only its value changes.
          FindIs(flags, name, i);
          flags := flags[i := flags[i].(value := value)];
          return;
        }
        if !flags[i].inUse && slot.None? {
          slot := Some(i);
        }
        i := i + 1;
      }
      if slot.Some? {
        var k := slot.value;
        FreeIs(flags, k);
        flags := flags[k := FlagSlot(name, true, value)];
      }
    }

    /** `automation_get_flag`: the loop over the slots. */
    method Get(name: string) returns (value: bool)
      ensures value == GetFlag(flags, name)
    {
      if name == "" {
        return false;
      }
      value := false;
      var i := 0;
      while i < |flags|
        invariant 0 <= i <= |flags|
        invariant forall j :: 0 <= j < i ==> !Holds(flags, j, name)
      {
        if flags[i].inUse && EqualsIgnoreCase(flags[i].name, name) {
          FindIs(flags, name, i);
          return flags[i].value;
        }
        i := i + 1;
      }
    }

    /** `automation_requirements_met`: the loop with its early returns. */
    method RequirementsMet(mode: ConditionMode, reqs: seq<FlagRequirement>) returns (met: bool)
      ensures met == Met(flags, mode, reqs)
    {
      if |reqs| == 0 {
        return true;
      }
      var anyMet := false;
      var i := 0;
      while i < |reqs|
        invariant 0 <= i <= |reqs|
        invariant mode == All ==> forall j :: 0 <= j < i ==> ReqHolds(flags, reqs[j])
        invariant mode == Any ==> forall j :: 0 <= j < i ==> !ReqHolds(flags, reqs[j])
        invariant anyMet <==> exists j :: 0 <= j < i && ReqHolds(flags, reqs[j])
      {
        var state := Get(reqs[i].flag);
        if reqs[i].requiredState {
          if !state && mode == All {
            return false;
          }
          if state && mode == Any {
            return true;
          }
          if state {
            anyMet := true;
          }
        } else {
          if state && mode == All {
            return false;
          }
          if !state && mode == Any {
            return true;
          }
          if !state {
            anyMet := true;
          }
        }
        i := i + 1;
      }
      met := if mode == All then true else anyMet;
    }

    /** `automation_execute_job`, run for at most `fuel` steps: the indices
        of the steps executed and whether the scenario finished. SET_FLAG
        steps write this table; a wait that would poll for ever ends the
        run unfinished. */
    method ExecuteJob(steps: seq<Step>, fuel: nat) returns (trace: seq<nat>, finished: bool)
      requires Valid() && |steps| <= MAX_STEPS
      modifies this
      ensures Valid()
      ensures var r := Run(steps, RunStart(old(flags)), fuel);
        trace == r.trace && finished == r.finished && flags == r.flags
    {
      ghost var start := RunStart(flags);
      trace := [];
      if |steps| == 0 {
        return [], true;
      }
      var counters: seq<nat> := seq(MAX_STEPS, _ => 0);
      var idx: nat := 0;
      var left: nat := fuel;
      assert RunState(idx, counters, flags) == start;
      while idx < |steps| && left > 0
        invariant Valid() && |counters| == MAX_STEPS && left <= fuel
        invariant Run(steps, start, fuel) == After(trace, Run(steps, RunState(idx, counters, flags), left))
        decreases left
      {
        ghost var s := RunState(idx, counters, flags);
        ghost var before := trace;
        var a := steps[idx].action;
        trace := trace + [idx];
        if a.Loop? && a.targetStep < |steps| && (a.maxIterations == 0 || counters[idx] < a.maxIterations) {
          counters := counters[idx := counters[idx] + 1];
          idx := a.targetStep;
        } else if a.SetFlag? {
          Set(a.flag, a.value);
          idx := idx + 1;
        } else if a.WaitFlags? {
          var met := RequirementsMet(a.mode, a.requirements);
          if !met && a.timeoutMs == 0 {
            // The wait polls for ever: the job never finishes.
            assert Hangs(steps, s);
            assert Run(steps, s, left) == RunResult([s.idx], false, s.flags);
            return trace, false;
          }
          idx := idx + 1;
        } else {
          idx := idx + 1;
        }
        assert RunState(idx, counters, flags) == Next(steps, s);
        ghost var rest := Run(steps, Next(steps, s), left - 1);
        assert Run(steps, s, left) == After([s.idx], rest);
        assert trace + rest.trace == before + ([s.idx] + rest.trace);
        left := left - 1;
      }
      finished := idx >= |steps|;
      assert Run(steps, RunState(idx, counters, flags), left) == RunResult([], finished, flags);
      assert trace + [] == trace;
    }
  }

  /** A requirement holds when its flag reads as the required state. */
  predicate ReqHolds(flags: seq<FlagSlot>, r: FlagRequirement) {
    GetFlag(flags, r.flag) == r.requiredState
  }

  /** What `automation_requirements_met` decides: no requirement is always
      met; ALL needs every requirement to hold, ANY at least one. */
  predicate Met(flags: seq<FlagSlot>, mode: ConditionMode, reqs: seq<FlagRequirement>) {
    |reqs| == 0
    || (mode == All && forall j :: 0 <= j < |reqs| ==> ReqHolds(flags, reqs[j]))
    || (mode == Any && exists j :: 0 <= j < |reqs| && ReqHolds(flags, reqs[j]))
  }

  /** A requirement on a flag that was never set holds only when it asks
      for false. */
  lemma UnsetFlagReadsFalse(flags: seq<FlagSlot>, r: FlagRequirement)
    requires forall j :: 0 <= j < |flags| ==> !flags[j].inUse
    ensures ReqHolds(flags, r) <==> !r.requiredState
  {
    if r.flag != "" {
      assert FindFlag(flags, r.flag).None?;
    }
  }

  // ------------------------------------------------------------ events

  /** `event_bus_type_t` values the event map names. */
  datatype EventType =
    | EventNone | CardOk | CardBad | LaserTrigger | RelayCmd | AudioPlayEvent
    | VolumeSet | WebCommand | SystemStatus | DeviceConfigChanged

  /** `s_event_map`. */
  const EventMap: seq<(string, EventType)> := [
    ("card_ok", CardOk), ("card_bad", CardBad), ("laser_trigger", LaserTrigger),
    ("relay_cmd", RelayCmd), ("audio_play", AudioPlayEvent), ("volume_set", VolumeSet),
    ("web_command", WebCommand), ("system_status", SystemStatus),
    ("device_config_changed", DeviceConfigChanged)]

  /** `event_name_to_type`: the first map entry whose name equals `name`
      ignoring case; EVENT_NONE for an empty or unknown name. */
  function EventNameToType(name: string): (r: EventType)
    ensures r != EventNone <==> name != "" && exists k :: 0 <= k < |EventMap| && EqualsIgnoreCase(EventMap[k].0, name)
  {
    if name == "" then EventNone else EventFrom(name, 0)
  }

  function EventFrom(name: string, i: nat): (r: EventType)
    requires i <= |EventMap|
    ensures r != EventNone <==> exists k :: i <= k < |EventMap| && EqualsIgnoreCase(EventMap[k].0, name)
    ensures r != EventNone ==> exists k :: i <= k < |EventMap| && EqualsIgnoreCase(EventMap[k].0, name) && r == EventMap[k].1
    decreases |EventMap| - i
  {
    if i == |EventMap| then EventNone
    else if EqualsIgnoreCase(EventMap[i].0, name) then EventMap[i].1
    else EventFrom(name, i + 1)
  }

  /** Every name of the map, in any letter case, maps to its own event. */
  lemma EventNamesRoundTrip(k: nat, spelled: string)
    requires k < |EventMap| && EqualsIgnoreCase(spelled, EventMap[k].0)
    ensures EventNameToType(spelled) == EventMap[k].1
  {
    EqualsIgnoreCaseFacts(spelled, EventMap[k].0, spelled);
    var r := EventNameToType(spelled);
    var k' :| 0 <= k' < |EventMap| && EqualsIgnoreCase(EventMap[k'].0, spelled) && r == EventMap[k'].1;
    EqualsIgnoreCaseFacts(EventMap[k'].0, spelled, EventMap[k].0);
    if k' != k {
      EventNamesDistinct(k', k);
    }
  }

  /** No two names of the map are equal ignoring case. */
  lemma EventNamesDistinct(a: nat, b: nat)
    requires a < |EventMap| && b < |EventMap| && a != b
    ensures !EqualsIgnoreCase(EventMap[a].0, EventMap[b].0)
  {
    EqualsIgnoreCaseFacts(EventMap[a].0, EventMap[b].0, EventMap[a].0);
    if |EventMap[a].0| == |EventMap[b].0| {
      DiffersAt(EventMap[a].0, EventMap[b].0, 0);
    }
  }

  // ------------------------------------------------------------ lookups

  /** Device `i` has `key` as its id or its display name, ignoring case. */
  predicate DeviceNamed(devices: seq<Device>, i: nat, key: string)
    requires i < |devices|
  {
    (devices[i].id != "" && EqualsIgnoreCase(devices[i].id, key))
    || (devices[i].displayName != "" && EqualsIgnoreCase(devices[i].displayName, key))
  }

  /** `find_device_by_id`: the first device named `key`; none for an empty
      key. */
  function FindDevice(devices: seq<Device>, key: string): (r: Option<nat>)
    ensures r.Some? ==> (key != "" && r.value < |devices| && DeviceNamed(devices, r.value, key)
      && forall j :: 0 <= j < r.value ==> !DeviceNamed(devices, j, key))
    ensures r.None? && key != "" ==> forall j :: 0 <= j < |devices| ==> !DeviceNamed(devices, j, key)
  {
    if key == "" then None else DeviceFrom(devices, key, 0)
  }

  function DeviceFrom(devices: seq<Device>, key: string, i: nat): (r: Option<nat>)
    requires i <= |devices|
    ensures r.Some? ==> (i <= r.value < |devices| && DeviceNamed(devices, r.value, key)
      && forall j :: i <= j < r.value ==> !DeviceNamed(devices, j, key))
    ensures r.None? ==> forall j :: i <= j < |devices| ==> !DeviceNamed(devices, j, key)
    decreases |devices| - i
  {
    if i == |devices| then None
    else if DeviceNamed(devices, i, key) then Some(i)
    else DeviceFrom(devices, key, i + 1)
  }

  /** Scenario `i` has `key` as its id or its name, ignoring case. */
  predicate ScenarioNamed(scenarios: seq<Scenario>, i: nat, key: string)
    requires i < |scenarios|
  {
    (scenarios[i].id != "" && EqualsIgnoreCase(scenarios[i].id, key))
    || (scenarios[i].name != "" && EqualsIgnoreCase(scenarios[i].name, key))
  }

  /** `find_scenario_by_id` and `find_scenario_for_binding`: the first
      scenario named `key`; none for an empty key. */
  function FindScenario(scenarios: seq<Scenario>, key: string): (r: Option<nat>)
    ensures r.Some? ==> (key != "" && r.value < |scenarios| && ScenarioNamed(scenarios, r.value, key)
      && forall j :: 0 <= j < r.value ==> !ScenarioNamed(scenarios, j, key))
    ensures r.None? && key != "" ==> forall j :: 0 <= j < |scenarios| ==> !ScenarioNamed(scenarios, j, key)
  {
    if key == "" then None else ScenarioFrom(scenarios, key, 0)
  }

  function ScenarioFrom(scenarios: seq<Scenario>, key: string, i: nat): (r: Option<nat>)
    requires i <= |scenarios|
    ensures r.Some? ==> (i <= r.value < |scenarios| && ScenarioNamed(scenarios, r.value, key)
      && forall j :: i <= j < r.value ==> !ScenarioNamed(scenarios, j, key))
    ensures r.None? ==> forall j :: i <= j < |scenarios| ==> !ScenarioNamed(scenarios, j, key)
    decreases |scenarios| - i
  {
    if i == |scenarios| then None
    else if ScenarioNamed(scenarios, i, key) then Some(i)
    else ScenarioFrom(scenarios, key, i + 1)
  }

  /** `automation_engine_trigger`: the device and scenario a manual trigger
      queues, or NOT_FOUND. */
  function ManualTrigger(devices: seq<Device>, deviceKey: string, scenarioKey: string): (r: Outcome<(nat, nat)>)
    ensures r.Fail? ==> r.err == ErrNotFound
    ensures r.Ok? <==> (FindDevice(devices, deviceKey).Some?
      && FindScenario(devices[FindDevice(devices, deviceKey).value].scenarios, scenarioKey).Some?)
    ensures r.Ok? ==> (r.value.0 < |devices| && r.value.1 < |devices[r.value.0].scenarios|
      && DeviceNamed(devices, r.value.0, deviceKey)
      && ScenarioNamed(devices[r.value.0].scenarios, r.value.1, scenarioKey))
  {
    match FindDevice(devices, deviceKey)
    case None => Fail(ErrNotFound)
    case Some(d) =>
      match FindScenario(devices[d].scenarios, scenarioKey)
      case None => Fail(ErrNotFound)
      case Some(s) => Ok((d, s))
  }

  // ----------------------------------------------------------- triggers

  /** `AUTOMATION_TRIGGER_CAPACITY`. */
  const TRIGGER_CAPACITY: nat := MAX_DEVICES * MAX_TOPICS

  /** `automation_trigger_t`: the topic and the indices of the device and
      scenario it starts. */
  datatype Trigger = Trigger(topic: string, device: nat, scenario: nat)

  /** The triggers of bindings `t..` of device `d`: a binding yields one
      when its name finds a scenario and its topic is not empty. */
  function BindingTriggers(dev: Device, d: nat, t: nat): (r: seq<Trigger>)
    requires t <= MAX_TOPICS
    ensures |r| <= MAX_TOPICS - t
    ensures forall k :: 0 <= k < |r| ==> (r[k].device == d && r[k].topic != ""
      && r[k].scenario < |dev.scenarios|)
    decreases MAX_TOPICS - t
  {
    if t >= |dev.topics| || t >= MAX_TOPICS then []
    else
      var b := dev.topics[t];
      var rest := BindingTriggers(dev, d, t + 1);
      match FindScenario(dev.scenarios, b.name)
      case None => rest
      case Some(s) => if b.topic == "" then rest else [Trigger(b.topic, d, s)] + rest
  }

  /** The triggers of devices `d..`. */
  function DeviceTriggers(devices: seq<Device>, d: nat): (r: seq<Trigger>)
    requires d <= MAX_DEVICES
    ensures |r| <= (MAX_DEVICES - d) * MAX_TOPICS
    ensures forall k :: 0 <= k < |r| ==> (d <= r[k].device < |devices| && r[k].device < MAX_DEVICES
      && r[k].topic != "" && r[k].scenario < |devices[r[k].device].scenarios|)
    decreases MAX_DEVICES - d
  {
    if d >= |devices| || d >= MAX_DEVICES then []
    else BindingTriggers(devices[d], d, 0) + DeviceTriggers(devices, d + 1)
  }

  /** Binding `b` of the device, among the first MAX_TOPICS, has the
      trigger's topic and names its scenario. */
  predicate BindsTo(dev: Device, b: nat, tr: Trigger) {
    b < |dev.topics| && b < MAX_TOPICS
    && dev.topics[b].topic == tr.topic
    && FindScenario(dev.scenarios, dev.topics[b].name) == Some(tr.scenario)
  }

  /** A trigger starts the scenario its binding names. */
  lemma {:induction false} TriggersNameTheirScenario(dev: Device, d: nat, t: nat, k: nat)
    requires t <= MAX_TOPICS && k < |BindingTriggers(dev, d, t)|
    ensures exists b :: t <= b && BindsTo(dev, b, BindingTriggers(dev, d, t)[k])
    decreases MAX_TOPICS - t
  {
    var all := BindingTriggers(dev, d, t);
    assert t < |dev.topics| && t < MAX_TOPICS;
    var rest := BindingTriggers(dev, d, t + 1);
    var s := FindScenario(dev.scenarios, dev.topics[t].name);
    if s.Some? && dev.topics[t].topic != "" {
      assert all == [Trigger(dev.topics[t].topic, d, s.value)] + rest;
      if k == 0 {
        assert BindsTo(dev, t, all[0]);
      } else {
        TriggersNameTheirScenario(dev, d, t + 1, k - 1);
        var b :| t + 1 <= b && BindsTo(dev, b, rest[k - 1]);
        assert all[k] == rest[k - 1];
        assert BindsTo(dev, b, all[k]);
      }
    } else {
      assert all == rest;
      TriggersNameTheirScenario(dev, d, t + 1, k);
      var b :| t + 1 <= b && BindsTo(dev, b, rest[k]);
      assert BindsTo(dev, b, all[k]);
    }
  }

  /** `automation_engine_reload`: the inner loop, over the bindings of
      device `d`. */
  method CollectBindings(dev: Device, d: nat) returns (fromDevice: seq<Trigger>)
    ensures fromDevice == BindingTriggers(dev, d, 0)
  {
    fromDevice := [];
    var t := 0;
    while t < |dev.topics| && t < MAX_TOPICS
      invariant 0 <= t <= MAX_TOPICS
      invariant fromDevice + BindingTriggers(dev, d, t) == BindingTriggers(dev, d, 0)
      decreases MAX_TOPICS - t
    {
      var b := dev.topics[t];
      var s := FindScenario(dev.scenarios, b.name);
      var rest := BindingTriggers(dev, d, t + 1);
      if s.Some? && b.topic != "" {
        assert BindingTriggers(dev, d, t) == [Trigger(b.topic, d, s.value)] + rest;
        assert fromDevice + [Trigger(b.topic, d, s.value)] + rest == fromDevice + ([Trigger(b.topic, d, s.value)] + rest);
        fromDevice := fromDevice + [Trigger(b.topic, d, s.value)];
      } else {
        assert BindingTriggers(dev, d, t) == rest;
      }
      t := t + 1;
    }
    assert fromDevice + [] == fromDevice;
  }

  /** `automation_engine_reload`: the loop over the devices building the
      trigger table. The table never reaches its capacity, so the
      capacity check in the source never stops it. */
  method Reload(devices: seq<Device>) returns (triggers: seq<Trigger>)
    ensures triggers == DeviceTriggers(devices, 0)
    ensures |triggers| <= TRIGGER_CAPACITY
  {
    triggers := [];
    var d := 0;
    while d < |devices| && d < MAX_DEVICES
      invariant d <= |devices| && d <= MAX_DEVICES
      invariant triggers + DeviceTriggers(devices, d) == DeviceTriggers(devices, 0)
      decreases MAX_DEVICES - d
    {
      var fromDevice := CollectBindings(devices[d], d);
      ghost var later := DeviceTriggers(devices, d + 1);
      assert DeviceTriggers(devices, d) == fromDevice + later;
      assert triggers + (fromDevice + later) == (triggers + fromDevice) + later;
      triggers := triggers + fromDevice;
      d := d + 1;
    }
    assert triggers + [] == triggers;
  }

  /** `automation_engine_handle_mqtt`: the jobs queued for a message are
      those of the triggers whose topic is exactly the message topic, in
      table order. */
  function MatchingJobs(triggers: seq<Trigger>, topic: string): (r: seq<(nat, nat)>)
    ensures |r| <= |triggers|
    ensures (|r| > 0) <==> exists k :: 0 <= k < |triggers| && triggers[k].topic == topic
  {
    if triggers == [] then []
    else
      var rest := MatchingJobs(triggers[1..], topic);
      if triggers[0].topic == topic then [(triggers[0].device, triggers[0].scenario)] + rest
      else (assert forall k :: 1 <= k < |triggers| ==> triggers[k] == triggers[1..][k - 1]; rest)
  }

  // ------------------------------------------------------ running a job

  /** Where a running scenario is: the next step, the per-step loop
      counters (`loop_counters`) and the flag table (`s_flags`), which the
      job's SET_FLAG steps write and its WAIT_FLAGS steps read. */
  datatype RunState = RunState(idx: nat, counters: seq<nat>, flags: seq<FlagSlot>)

  /** The state a job starts in, over the flag table as earlier jobs left it. */
  function RunStart(flags: seq<FlagSlot>): (s: RunState)
    ensures s.idx == 0 && |s.counters| == MAX_STEPS && s.flags == flags
    ensures forall k :: 0 <= k < MAX_STEPS ==> s.counters[k] == 0
  {
    RunState(0, seq(MAX_STEPS, _ => 0), flags)
  }

  /** A loop step at `idx` jumps: its target is a step of the scenario and
      it is unbounded or has jumped fewer times than its maximum. */
  predicate Jumps(steps: seq<Step>, s: RunState)
    requires s.idx < |steps| <= MAX_STEPS && |s.counters| == MAX_STEPS
  {
    var a := steps[s.idx].action;
    a.Loop? && a.targetStep < |steps|
    && (a.maxIterations == 0 || s.counters[s.idx] < a.maxIterations)
  }

  /** The step at `idx` waits for requirements that do not hold and has no
      timeout: `automation_wait_for_flags` then polls for ever, because the
      flags are written only by SET_FLAG steps, which run on the same worker. */
  predicate Hangs(steps: seq<Step>, s: RunState)
    requires s.idx < |steps|
  {
    var a := steps[s.idx].action;
    a.WaitFlags? && a.timeoutMs == 0 && !Met(s.flags, a.mode, a.requirements)
  }

  /** One iteration of the loop of `automation_execute_job`: a jumping
      loop step counts the jump and moves to its target; a SET_FLAG step
      writes its flag; a WAIT_FLAGS step that hangs stays where it is; every
      step that does not jump or hang moves on to the next, a wait whose
      timeout ran out included. */
  function Next(steps: seq<Step>, s: RunState): (r: RunState)
    requires s.idx < |steps| <= MAX_STEPS && |s.counters| == MAX_STEPS
    ensures |r.counters| == MAX_STEPS && |r.flags| == |s.flags|
    ensures Hangs(steps, s) <==> r == s
    ensures !Jumps(steps, s) && !Hangs(steps, s) ==> r.idx == s.idx + 1 && r.counters == s.counters
  {
    var a := steps[s.idx].action;
    if Jumps(steps, s) then RunState(a.targetStep, s.counters[s.idx := s.counters[s.idx] + 1], s.flags)
    else if Hangs(steps, s) then s
    else if a.SetFlag? then RunState(s.idx + 1, s.counters, WithFlag(s.flags, a.flag, a.value))
    else RunState(s.idx + 1, s.counters, s.flags)
  }

  /** What a run gives: the indices of the steps run, whether the scenario
      finished, and the flag table afterwards. */
  datatype RunResult = RunResult(trace: seq<nat>, finished: bool, flags: seq<FlagSlot>)

  /** The run from `s`, at most `fuel` steps of it. A run that reaches a
      hanging wait ends there, unfinished. */
  function Run(steps: seq<Step>, s: RunState, fuel: nat): (r: RunResult)
    requires |steps| <= MAX_STEPS && |s.counters| == MAX_STEPS
    ensures |r.trace| <= fuel && |r.flags| == |s.flags|
    ensures forall k :: 0 <= k < |r.trace| ==> r.trace[k] < |steps|
    ensures s.idx < |steps| && Hangs(steps, s) ==> !r.finished
    decreases fuel
  {
    if s.idx >= |steps| then RunResult([], true, s.flags)
    else if fuel == 0 then RunResult([], false, s.flags)
    else if Hangs(steps, s) then RunResult([s.idx], false, s.flags)
    else
      var r := Run(steps, Next(steps, s), fuel - 1);
      RunResult([s.idx] + r.trace, r.finished, r.flags)
  }

  /** The run `r` with the steps `before` run ahead of it. */
  function After(before: seq<nat>, r: RunResult): RunResult {
    RunResult(before + r.trace, r.finished, r.flags)
  }

  /** The job [WAIT_FLAGS ALL door=true, no timeout] started over a table
      where no flag is set never finishes: the worker blocks in the wait. */
  lemma UnmetWaitBlocks(flags: seq<FlagSlot>, fuel: nat)
    requires forall j :: 0 <= j < |flags| ==> !flags[j].inUse
    ensures Run([Step(WaitFlags(All, [FlagRequirement("door", true)], 0), 0)], RunStart(flags), fuel)
      == RunResult(if fuel == 0 then [] else [0], false, flags)
  {
    var req := FlagRequirement("door", true);
    var steps := [Step(WaitFlags(All, [req], 0), 0)];
    UnsetFlagReadsFalse(flags, req);
    assert [req][0] == req;
    assert !Met(flags, All, [req]);
    assert fuel > 0 ==> Hangs(steps, RunStart(flags));
  }

  /** Setting the flag first lets the same wait pass: the job
      [SET_FLAG door=true; WAIT_FLAGS ALL door=true] finishes in two steps
      and leaves the flag set. */
  lemma SetThenWaitFinishes(flags: seq<FlagSlot>, fuel: nat)
    requires FindFlag(flags, "door").Some? || FirstFree(flags).Some?
    requires fuel >= 2
    ensures var r := Run([Step(SetFlag("door", true), 0), Step(WaitFlags(All, [FlagRequirement("door", true)], 0), 0)],
                         RunStart(flags), fuel);
      r.trace == [0, 1] && r.finished && GetFlag(r.flags, "door")
  {
    var steps := [Step(SetFlag("door", true), 0), Step(WaitFlags(All, [FlagRequirement("door", true)], 0), 0)];
    var s0 := RunStart(flags);
    var f1 := WithFlag(flags, "door", true);
    SetThenGet(flags, "door", true);
    assert Met(f1, All, [FlagRequirement("door", true)]);
    var s1 := Next(steps, s0);
    assert s1 == RunState(1, s0.counters, f1);
    var s2 := Next(steps, s1);
    assert s2.idx == 2 && s2.flags == f1;
    assert Run(steps, s2, fuel - 2) == RunResult([], true, f1);
  }

  /** The flag table after the SET_FLAG steps from `i` on, in order. */
  function FlagsAfter(steps: seq<Step>, i: nat, flags: seq<FlagSlot>): seq<FlagSlot>
    requires i <= |steps|
    decreases |steps| - i
  {
    if i == |steps| then flags
    else
      var a := steps[i].action;
      FlagsAfter(steps, i + 1, if a.SetFlag? then WithFlag(flags, a.flag, a.value) else flags)
  }

  /** Every WAIT_FLAGS step from `i` on passes when it is reached: it has a
      timeout, or the flags as the SET_FLAG steps before it leave them meet
      its requirements. */
  predicate WaitsPass(steps: seq<Step>, i: nat, flags: seq<FlagSlot>)
    requires i <= |steps|
    decreases |steps| - i
  {
    i == |steps|
    || (var a := steps[i].action;
        (a.WaitFlags? ==> a.timeoutMs > 0 || Met(flags, a.mode, a.requirements))
        && WaitsPass(steps, i + 1, if a.SetFlag? then WithFlag(flags, a.flag, a.value) else flags))
  }

  /** A scenario without loop steps finishes exactly when every wait it
      reaches passes; it then runs every step once, in order, and leaves
      the flags its SET_FLAG steps write. */
  lemma {:induction false} StraightRun(steps: seq<Step>, s: RunState, fuel: nat)
    requires |steps| <= MAX_STEPS && |s.counters| == MAX_STEPS && s.idx <= |steps|
    requires forall k :: 0 <= k < |steps| ==> !steps[k].action.Loop?
    requires fuel >= |steps| - s.idx
    ensures Run(steps, s, fuel).finished <==> WaitsPass(steps, s.idx, s.flags)
    ensures WaitsPass(steps, s.idx, s.flags) ==>
      Run(steps, s, fuel) == RunResult(seq(|steps| - s.idx, k => s.idx + k), true, FlagsAfter(steps, s.idx, s.flags))
    decreases |steps| - s.idx
  {
    if s.idx < |steps| {
      var a := steps[s.idx].action;
      if !Hangs(steps, s) {
        var n := Next(steps, s);
        assert n == RunState(s.idx + 1, s.counters, if a.SetFlag? then WithFlag(s.flags, a.flag, a.value) else s.flags);
        StraightRun(steps, n, fuel - 1);
        var rest := seq(|steps| - s.idx - 1, k => s.idx + 1 + k);
        assert [s.idx] + rest == seq(|steps| - s.idx, k => s.idx + k);
      }
    } else {
      assert seq(|steps| - s.idx, k => s.idx + k) == [];
    }
  }

  /** Every loop step has a maximum. */
  predicate AllLoopsBounded(steps: seq<Step>) {
    forall k :: 0 <= k < |steps| && steps[k].action.Loop? ==> steps[k].action.maxIterations > 0
  }

  /** Every WAIT_FLAGS step has a timeout, so none can hang. */
  predicate AllWaitsTimed(steps: seq<Step>) {
    forall k :: 0 <= k < |steps| && steps[k].action.WaitFlags? ==> steps[k].action.timeoutMs > 0
  }

  /** The jumps left to the bounded loop steps `k..`. */
  function Budget(steps: seq<Step>, counters: seq<nat>, k: nat): nat
    requires |steps| <= |counters| && k <= |steps|
    decreases |steps| - k
  {
    if k == |steps| then 0
    else
      var a := steps[k].action;
      var left := if a.Loop? && counters[k] < a.maxIterations then a.maxIterations - counters[k] else 0;
      left + Budget(steps, counters, k + 1)
  }

  /** Counting one more jump of a bounded loop step below its maximum
      uses up exactly one jump of the budget. */
  lemma {:induction false} BudgetDrops(steps: seq<Step>, counters: seq<nat>, k: nat, i: nat)
    requires |steps| <= |counters| && k <= |steps| && i < |steps|
    requires steps[i].action.Loop? && counters[i] < steps[i].action.maxIterations
    ensures Budget(steps, counters[i := counters[i] + 1], k)
      == Budget(steps, counters, k) - (if k <= i then 1 else 0)
    ensures k <= i ==> Budget(steps, counters, k) > 0
    decreases |steps| - k
  {
    if k < |steps| {
      BudgetDrops(steps, counters, k + 1, i);
    }
  }

  /** The measure that every step of a scenario with bounded loops
      decreases: each jump spends budget, every other step moves forward. */
  function Rank(steps: seq<Step>, s: RunState): nat
    requires |steps| <= MAX_STEPS && |s.counters| == MAX_STEPS
  {
    Budget(steps, s.counters, 0) * (|steps| + 1) + (|steps| - Min(s.idx, |steps|))
  }

  lemma RankDrops(steps: seq<Step>, s: RunState)
    requires s.idx < |steps| <= MAX_STEPS && |s.counters| == MAX_STEPS && AllLoopsBounded(steps)
    requires !Hangs(steps, s)
    ensures Rank(steps, Next(steps, s)) < Rank(steps, s)
  {
    if Jumps(steps, s) {
      BudgetDrops(steps, s.counters, 0, s.idx);
      var b := Budget(steps, s.counters, 0);
      var n := |steps| + 1;
      assert Budget(steps, Next(steps, s).counters, 0) == b - 1;
      assert (b - 1) * n + n - 1 < b * n;
    }
  }

  /** A scenario whose loop steps all have a maximum and whose waits all
      have a timeout always finishes, in fewer steps than its rank. */
  lemma {:induction false} BoundedLoopsFinish(steps: seq<Step>, s: RunState, fuel: nat)
    requires |steps| <= MAX_STEPS && |s.counters| == MAX_STEPS
    requires AllLoopsBounded(steps) && AllWaitsTimed(steps)
    requires fuel >= Rank(steps, s)
    ensures Run(steps, s, fuel).finished
    decreases Rank(steps, s)
  {
    if s.idx < |steps| {
      RankDrops(steps, s);
      BoundedLoopsFinish(steps, Next(steps, s), fuel - 1);
    }
  }

  /** A bounded loop step never jumps more often than its maximum. */
  lemma CountersStayBounded(steps: seq<Step>, s: RunState)
    requires s.idx < |steps| <= MAX_STEPS && |s.counters| == MAX_STEPS
    requires forall k :: (0 <= k < |steps| && steps[k].action.Loop? && steps[k].action.maxIterations > 0
      ==> s.counters[k] <= steps[k].action.maxIterations)
    ensures var r := Next(steps, s);
      forall k :: (0 <= k < |steps| && steps[k].action.Loop? && steps[k].action.maxIterations > 0
        ==> r.counters[k] <= steps[k].action.maxIterations)
  {
  }
}
