/** The template applier (`template_applier.c`): turns a UID or signal-hold
    template into a device of the configuration, with the scenarios that
    carry out the template's actions. */
module TemplateApplier {
  import opened Common
  import opened DmTypes

  // ---------------------------------------------------------- devices

  /** The number of device entries the configuration may use: its capacity,
      or MAX_DEVICES when no capacity is set. */
  function DeviceLimit(cfg: DmConfig): (n: nat)
    ensures n > 0
  {
    if cfg.deviceCapacity != 0 then cfg.deviceCapacity else MAX_DEVICES
  }

  /** Device `i` has the id `id`, ignoring case. */
  predicate IdMatches(cfg: DmConfig, i: nat, id: string)
    requires i < |cfg.devices|
  {
    cfg.devices[i].id != "" && EqualsIgnoreCase(cfg.devices[i].id, id)
  }

  /** `find_device`: the first of the used device entries whose non-empty
      id equals `id` ignoring case; never found for an empty id. */
  function FindDevice(cfg: DmConfig, id: string): (r: Option<nat>)
    ensures r.Some? ==> (r.value < |cfg.devices| && r.value < DeviceLimit(cfg) && id != ""
      && IdMatches(cfg, r.value, id)
      && forall j :: 0 <= j < r.value ==> !IdMatches(cfg, j, id))
    ensures r.None? && id != "" ==>
      forall j :: 0 <= j < |cfg.devices| && j < DeviceLimit(cfg) ==> !IdMatches(cfg, j, id)
  {
    if id == "" then None else FindFrom(cfg, id, 0)
  }

  function FindFrom(cfg: DmConfig, id: string, i: nat): (r: Option<nat>)
    requires i <= |cfg.devices|
    ensures r.Some? ==> (i <= r.value < |cfg.devices| && r.value < DeviceLimit(cfg)
      && IdMatches(cfg, r.value, id)
      && forall j :: i <= j < r.value ==> !IdMatches(cfg, j, id))
    ensures r.None? ==> forall j :: i <= j < |cfg.devices| && j < DeviceLimit(cfg) ==> !IdMatches(cfg, j, id)
    decreases |cfg.devices| - i
  {
    if i >= |cfg.devices| || i >= DeviceLimit(cfg) then None
    else if IdMatches(cfg, i, id) then Some(i)
    else FindFrom(cfg, id, i + 1)
  }

  /** A device cleared and given an id and a display name. */
  function FreshDevice(id: string, name: string): Device {
    EmptyDevice.(id := id, displayName := name)
  }

  /** `ensure_device`: a device with the same id (ignoring case) is cleared
      and reused; otherwise a new device is appended while the
      configuration is below its limit. The index of the device, or None
      when the configuration is full. */
  function EnsureDevice(cfg: DmConfig, id: string, name: string): (r: (DmConfig, Option<nat>))
    ensures r.1.None? <==> FindDevice(cfg, id).None? && |cfg.devices| >= DeviceLimit(cfg)
    ensures r.1.None? ==> r.0 == cfg
    ensures r.1.Some? ==>
      var i := r.1.value;
      i < |r.0.devices| && |r.0.devices| >= |cfg.devices| && r.0.devices[i] == FreshDevice(id, name)
      && r.0 == cfg.(devices := r.0.devices)
      && (forall j :: 0 <= j < |cfg.devices| && j != i ==> r.0.devices[j] == cfg.devices[j])
      && (FindDevice(cfg, id).Some? ==> i == FindDevice(cfg, id).value && |r.0.devices| == |cfg.devices|)
      && (FindDevice(cfg, id).None? ==> i == |cfg.devices| && |r.0.devices| == |cfg.devices| + 1)
  {
    match FindDevice(cfg, id)
    case Some(i) => (cfg.(devices := cfg.devices[i := FreshDevice(id, name)]), Some(i))
    case None =>
      if |cfg.devices| >= DeviceLimit(cfg) then (cfg, None)
      else (cfg.(devices := cfg.devices + [FreshDevice(id, name)]), Some(|cfg.devices|))
  }

  /** After `ensure_device` with a non-empty id, looking the id up finds
      exactly the device it returned. */
  lemma EnsureThenFind(cfg: DmConfig, id: string, name: string)
    requires id != "" && EnsureDevice(cfg, id, name).1.Some?
    ensures var (c, i) := EnsureDevice(cfg, id, name);
      FindDevice(c, id) == i
  {
    var (c, i) := EnsureDevice(cfg, id, name);
    var k := i.value;
    EqualsIgnoreCaseFacts(id, id, id);
    assert IdMatches(c, k, id);
    assert k < DeviceLimit(c);
    forall j | 0 <= j < k
      ensures !IdMatches(c, j, id)
    {
      assert c.devices[j] == cfg.devices[j];
      assert !IdMatches(cfg, j, id);
    }
  }

  // -------------------------------------------------------- scenarios

  /** `scenario_add_step`: the step is appended unless the scenario already
      holds MAX_STEPS steps. */
  function AddStep(sc: Scenario, step: Step): (r: Scenario)
    ensures |sc.steps| < MAX_STEPS ==> r == sc.(steps := sc.steps + [step])
    ensures |sc.steps| >= MAX_STEPS ==> r == sc
  {
    if |sc.steps| >= MAX_STEPS then sc else sc.(steps := sc.steps + [step])
  }

  /** The publish step `add_mqtt_step` fills in: QoS 0, not retained. */
  function PublishStep(topic: string, payload: string): Step {
    Step(MqttPublish(topic, payload, 0, false), 0)
  }

  /** `add_mqtt_step`: nothing for an empty topic. */
  function AddMqttStep(sc: Scenario, topic: string, payload: string): Scenario {
    if topic == "" then sc else AddStep(sc, PublishStep(topic, payload))
  }

  /** `add_audio_step`: nothing for an empty track. */
  function AddAudioStep(sc: Scenario, track: string, blocking: bool): Scenario {
    if track == "" then sc else AddStep(sc, Step(AudioPlay(track, blocking), 0))
  }

  /** `add_delay_step`: nothing for a zero delay. */
  function AddDelayStep(sc: Scenario, delayMs: nat): Scenario {
    if delayMs == 0 then sc else AddStep(sc, Step(Delay, delayMs))
  }

  /** The steps of a list of candidate steps whose condition holds, in
      order: the reference the scenario builders are compared with. */
  function Present(candidates: seq<(bool, Step)>): (r: seq<Step>)
    ensures |r| <= |candidates|
  {
    if candidates == [] then []
    else (if candidates[0].0 then [candidates[0].1] else []) + Present(candidates[1..])
  }

  /** Steps added to a scenario with room for all of them land in order,
      each only when its condition holds. */
  lemma {:induction false} AddedInOrder(sc: Scenario, candidates: seq<(bool, Step)>)
    requires |sc.steps| + |candidates| <= MAX_STEPS
    ensures Apply(sc, candidates) == sc.(steps := sc.steps + Present(candidates))
    decreases |candidates|
  {
    if candidates == [] {
      assert sc.steps + [] == sc.steps;
    } else {
      var head := if candidates[0].0 then [candidates[0].1] else [];
      var next := if candidates[0].0 then AddStep(sc, candidates[0].1) else sc;
      assert next.steps == sc.steps + head;
      AddedInOrder(next, candidates[1..]);
      assert Present(candidates) == head + Present(candidates[1..]);
      assert sc.steps + head + Present(candidates[1..]) == sc.steps + Present(candidates);
    }
  }

  /** Adding the candidates that hold one after the other. */
  function Apply(sc: Scenario, candidates: seq<(bool, Step)>): Scenario
    decreases |candidates|
  {
    if candidates == [] then sc
    else Apply(if candidates[0].0 then AddStep(sc, candidates[0].1) else sc, candidates[1..])
  }

  // -------------------------------------------------------- UID apply

  /** `has_uid_success_actions`. */
  predicate HasSuccessActions(t: UidTemplate) {
    t.successTopic != "" || t.successAudioTrack != "" || t.successSignalTopic != ""
  }

  /** `has_uid_fail_actions`. */
  predicate HasFailActions(t: UidTemplate) {
    t.failTopic != "" || t.failAudioTrack != "" || t.failSignalTopic != ""
  }

  /** `build_uid_scenario` for a fresh scenario: publish, non-blocking
      track, signal publish. */
  function UidScenario(id: string, name: string, topic: string, payload: string,
                       track: string, signalTopic: string, signalPayload: string): Scenario
  {
    var s0 := Scenario(id, name, []);
    AddMqttStep(AddAudioStep(AddMqttStep(s0, topic, payload), track, false), signalTopic, signalPayload)
  }

  /** The UID scenario holds, in order, the publish, the track and the
      signal publish that are configured, and nothing else. */
  lemma UidScenarioSteps(id: string, name: string, topic: string, payload: string,
                         track: string, signalTopic: string, signalPayload: string)
    ensures var sc := UidScenario(id, name, topic, payload, track, signalTopic, signalPayload);
      sc.id == id && sc.name == name
      && sc.steps == Present([(topic != "", PublishStep(topic, payload)),
                              (track != "", Step(AudioPlay(track, false), 0)),
                              (signalTopic != "", PublishStep(signalTopic, signalPayload))])
  {
    var candidates := [(topic != "", PublishStep(topic, payload)),
                       (track != "", Step(AudioPlay(track, false), 0)),
                       (signalTopic != "", PublishStep(signalTopic, signalPayload))];
    var s0 := Scenario(id, name, []);
    AddedInOrder(s0, candidates);
    var s1 := AddMqttStep(s0, topic, payload);
    var s2 := AddAudioStep(s1, track, false);
    assert Apply(s0, candidates) == Apply(s1, candidates[1..]);
    assert Apply(s1, candidates[1..]) == Apply(s2, candidates[2..]);
    assert Apply(s2, candidates[2..]) == Apply(AddMqttStep(s2, signalTopic, signalPayload), candidates[3..]);
    assert candidates[3..] == [];
  }

  /** `apply_uid_template` on a device: its topics and scenarios are
      replaced by a `uid_success` scenario when the template has success
      actions, then a `uid_fail` one when it has fail actions; OK iff a
      scenario was built, INVALID_STATE otherwise. */
  function ApplyUid(dev: Device, t: UidTemplate): (Device, EspErr) {
    var success := if HasSuccessActions(t)
      then [UidScenario("uid_success", "UID Success", t.successTopic, t.successPayload,
                        t.successAudioTrack, t.successSignalTopic, t.successSignalPayload)]
      else [];
    var fail := if HasFailActions(t)
      then [UidScenario("uid_fail", "UID Fail", t.failTopic, t.failPayload,
                        t.failAudioTrack, t.failSignalTopic, t.failSignalPayload)]
      else [];
    var scenarios := success + fail;
    (dev.(topics := [], scenarios := scenarios), if |scenarios| > 0 then EspOk else ErrInvalidState)
  }

  /** The UID apply succeeds iff the template has success or fail actions;
      every scenario it builds has between one and three steps. */
  lemma ApplyUidOutcome(dev: Device, t: UidTemplate)
    ensures var (d, res) := ApplyUid(dev, t);
      (res == EspOk <==> HasSuccessActions(t) || HasFailActions(t))
      && (res != EspOk ==> res == ErrInvalidState && d.scenarios == [])
      && d.topics == [] && d.id == dev.id && d.displayName == dev.displayName
      && |d.scenarios| <= 2
      && (forall k :: 0 <= k < |d.scenarios| ==> 1 <= |d.scenarios[k].steps| <= 3)
      && (HasSuccessActions(t) <==> |d.scenarios| > 0 && d.scenarios[0].id == "uid_success")
  {
    UidScenarioSteps("uid_success", "UID Success", t.successTopic, t.successPayload,
                     t.successAudioTrack, t.successSignalTopic, t.successSignalPayload);
    UidScenarioSteps("uid_fail", "UID Fail", t.failTopic, t.failPayload,
                     t.failAudioTrack, t.failSignalTopic, t.failSignalPayload);
  }

  // ------------------------------------------------------ signal apply

  /** `apply_signal_template` on a device: topics are dropped and the one
      `signal_complete` scenario is built step by step. */
  function ApplySignal(dev: Device, t: SignalTemplate): (Device, EspErr) {
    var s0 := Scenario("signal_complete", "Signal Hold Complete", []);
    var s1 := AddMqttStep(s0, t.signalTopic, t.signalPayloadOn);
    var s2 := AddAudioStep(s1, t.completeTrack, false);
    var s3 := if t.signalOnMs > 0 then AddDelayStep(s2, t.signalOnMs) else s2;
    var s4 := AddMqttStep(s3, t.signalTopic, t.signalPayloadOff);
    (dev.(topics := [], scenarios := [s4]), EspOk)
  }

  /** The signal scenario holds, in this order, the ON publish, the
      completion track, the delay and the OFF publish, each only when it
      is configured. */
  lemma SignalScenarioOrder(dev: Device, t: SignalTemplate)
    ensures var (d, res) := ApplySignal(dev, t);
      res == EspOk && d.topics == [] && |d.scenarios| == 1
      && d.scenarios[0].id == "signal_complete"
      && d.scenarios[0].steps == Present([
           (t.signalTopic != "", PublishStep(t.signalTopic, t.signalPayloadOn)),
           (t.completeTrack != "", Step(AudioPlay(t.completeTrack, false), 0)),
           (t.signalOnMs > 0, Step(Delay, t.signalOnMs)),
           (t.signalTopic != "", PublishStep(t.signalTopic, t.signalPayloadOff))])
  {
    var candidates := [
      (t.signalTopic != "", PublishStep(t.signalTopic, t.signalPayloadOn)),
      (t.completeTrack != "", Step(AudioPlay(t.completeTrack, false), 0)),
      (t.signalOnMs > 0, Step(Delay, t.signalOnMs)),
      (t.signalTopic != "", PublishStep(t.signalTopic, t.signalPayloadOff))];
    var s0 := Scenario("signal_complete", "Signal Hold Complete", []);
    AddedInOrder(s0, candidates);
    var s1 := AddMqttStep(s0, t.signalTopic, t.signalPayloadOn);
    var s2 := AddAudioStep(s1, t.completeTrack, false);
    var s3 := if t.signalOnMs > 0 then AddDelayStep(s2, t.signalOnMs) else s2;
    assert Apply(s0, candidates) == Apply(s1, candidates[1..]);
    assert Apply(s1, candidates[1..]) == Apply(s2, candidates[2..]);
    assert Apply(s2, candidates[2..]) == Apply(s3, candidates[3..]);
    assert Apply(s3, candidates[3..]) == Apply(AddMqttStep(s3, t.signalTopic, t.signalPayloadOff), candidates[4..]);
    assert candidates[4..] == [];
  }

  // ------------------------------------------------------- apply to config

  /** `dm_template_apply_to_config` on the configuration value; the
      runtime registration it performs on success is modelled by the
      template runtime. */
  function ApplyToConfig(cfg: DmConfig, tpl: TemplateConfig, deviceId: string, displayName: Option<string>): (DmConfig, EspErr)
  {
    if deviceId == "" then (cfg, ErrInvalidArg)
    else
      var name := if displayName.Some? then displayName.value else deviceId;
      var (c, slot) := EnsureDevice(cfg, deviceId, name);
      if slot.None? then (cfg, ErrNoMem)
      else
        var i := slot.value;
        var (d, res) := match tpl
          case UidConfig(u) => ApplyUid(c.devices[i], u)
          case SignalConfig(s) => ApplySignal(c.devices[i], s)
          case _ => (c.devices[i], ErrNotSupported);
        (c.(devices := c.devices[i := d]), res)
  }

  /** An empty device id changes nothing; only UID and signal-hold
      templates can be applied, but the device is created or cleared
      before the type is looked at; a full configuration without the
      device is left as it was. */
  lemma ApplyToConfigOutcome(cfg: DmConfig, tpl: TemplateConfig, deviceId: string, displayName: Option<string>)
    ensures deviceId == "" ==> ApplyToConfig(cfg, tpl, deviceId, displayName) == (cfg, ErrInvalidArg)
    ensures var (c, res) := ApplyToConfig(cfg, tpl, deviceId, displayName);
      (res == ErrNoMem <==> deviceId != "" && FindDevice(cfg, deviceId).None? && |cfg.devices| >= DeviceLimit(cfg))
      && (res == ErrNoMem ==> c == cfg)
      && (deviceId != "" && res != ErrNoMem ==>
            (tpl.UidConfig? || tpl.SignalConfig? || res == ErrNotSupported)
            && (exists i :: 0 <= i < |c.devices| && c.devices[i].id == deviceId && FindDevice(c, deviceId) == Some(i)))
      && (deviceId != "" && res == ErrNotSupported ==> |c.devices| >= 1)
  {
    if deviceId != "" {
      var name := if displayName.Some? then displayName.value else deviceId;
      var (c, slot) := EnsureDevice(cfg, deviceId, name);
      if slot.Some? {
        EnsureThenFind(cfg, deviceId, name);
        var i := slot.value;
        var (c2, res) := ApplyToConfig(cfg, tpl, deviceId, displayName);
        assert c2.devices[i].id == deviceId;
        assert forall j :: 0 <= j < |c.devices| && j != i ==> c2.devices[j] == c.devices[j];
        FindSameIds(c, c2, deviceId);
        assert FindDevice(c2, deviceId) == Some(i);
      }
    }
  }

  /** Lookups depend only on the ids and the limit. */
  lemma FindSameIds(a: DmConfig, b: DmConfig, id: string)
    requires |a.devices| == |b.devices| && DeviceLimit(a) == DeviceLimit(b)
    requires forall j :: 0 <= j < |a.devices| ==> a.devices[j].id == b.devices[j].id
    ensures FindDevice(a, id) == FindDevice(b, id)
  {
    if id != "" {
      FindFromSame(a, b, id, 0);
    }
  }

  lemma {:induction false} FindFromSame(a: DmConfig, b: DmConfig, id: string, i: nat)
    requires i <= |a.devices| == |b.devices| && DeviceLimit(a) == DeviceLimit(b)
    requires forall j :: 0 <= j < |a.devices| ==> a.devices[j].id == b.devices[j].id
    ensures FindFrom(a, id, i) == FindFrom(b, id, i)
    decreases |a.devices| - i
  {
    if i < |a.devices| && i < DeviceLimit(a) {
      assert IdMatches(a, i, id) <==> IdMatches(b, i, id);
      FindFromSame(a, b, id, i + 1);
    }
  }

  // ------------------------------------------------------- the editor

  /** The configuration a caller hands to `dm_template_apply_to_config`,
      updated in place. */
  class ConfigEditor {
    var config: DmConfig

    constructor (cfg: DmConfig)
      ensures config == cfg
    {
      config := cfg;
    }

    /** `find_device`: the loop over the used device entries. */
    method Find(id: string) returns (r: Option<nat>)
      ensures r == FindDevice(config, id)
    {
      if id == "" {
        return None;
      }
      var limit := if config.deviceCapacity != 0 then config.deviceCapacity else MAX_DEVICES;
      var i := 0;
      while i < |config.devices| && i < limit
        invariant i <= |config.devices| && limit == DeviceLimit(config)
        invariant FindFrom(config, id, i) == FindFrom(config, id, 0)
        decreases |config.devices| - i
      {
        if config.devices[i].id != "" && EqualsIgnoreCase(config.devices[i].id, id) {
          return Some(i);
        }
        i := i + 1;
      }
      return None;
    }

    /** `dm_template_apply_to_config`. */
    method ApplyTemplate(tpl: TemplateConfig, deviceId: string, displayName: Option<string>) returns (res: EspErr)
      modifies this
      ensures (config, res) == ApplyToConfig(old(config), tpl, deviceId, displayName)
    {
      if deviceId == "" {
        return ErrInvalidArg;
      }
      var name := if displayName.Some? then displayName.value else deviceId;
      var found := Find(deviceId);
      var i: nat;
      if found.Some? {
        i := found.value;
        config := config.(devices := config.devices[i := FreshDevice(deviceId, name)]);
      } else {
        var limit := if config.deviceCapacity != 0 then config.deviceCapacity else MAX_DEVICES;
        if |config.devices| >= limit {
          return ErrNoMem;
        }
        i := |config.devices|;
        config := config.(devices := config.devices + [FreshDevice(deviceId, name)]);
      }
      var d: Device;
      match tpl {
        case UidConfig(u) =>
          d, res := ApplyUid(config.devices[i], u).0, ApplyUid(config.devices[i], u).1;
        case SignalConfig(s) =>
          d, res := ApplySignal(config.devices[i], s).0, EspOk;
        case _ =>
          d, res := config.devices[i], ErrNotSupported;
      }
      config := config.(devices := config.devices[i := d]);
    }
  }
}
