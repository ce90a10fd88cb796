/** The device table and the whole document of `device_manager_export.c`
    (`dm_storage_internal_export`): the scalars, the active profile, the
    profiles, and every device with its topics, scenarios and template.
    Allocation failures are not modelled; the one failure left is a device
    whose template kind `template_to_json` has no case for. The lemmas show
    what is dropped and that reading an exported document back gives the
    same devices and scalars. */
module DmExportConfig {
  import opened Common
  import opened Json
  import opened DmTypes
  import opened DmProfiles
  import opened DmParse
  import opened DmExportTemplates
  import DmExport
  import TemplateRuntime

  // ------------------------------------------------------------ topics

  const TopicKeys: seq<string> := ["name", "topic"]

  function TopicToJson(b: TopicBinding): Json {
    JObject(Fields(TopicKeys, [Some(JString(b.name)), Some(JString(b.topic))]))
  }

  lemma TopicRoundTrip(b: TopicBinding)
    ensures TopicFromJson(TopicToJson(b)) == Some(b)
  {
    var v := [Some(JString(b.name)), Some(JString(b.topic))];
    assert Distinct(TopicKeys);
    GetFields(TopicKeys, v, 0);
    GetFields(TopicKeys, v, 1);
  }

  // --------------------------------------------------------- scenarios

  const ScenarioKeys: seq<string> := ["id", "name", "steps"]

  /** A scenario: id, name, and its first MAX_STEPS steps. */
  function ScenarioToJson(sc: Scenario): Json {
    JObject(Fields(ScenarioKeys, [Some(JString(sc.id)), Some(JString(sc.name)),
      Some(JArray(Emit(sc.steps, MAX_STEPS, Always, DmExport.StepToJson)))]))
  }

  /** A step of a scenario array reads back as itself. */
  lemma StepNodeRoundTrip(s: Step)
    requires StepFits(s)
    ensures StepNodeFromJson(DmExport.StepToJson(s)) == Some(s)
  {
    DmExport.StepRoundTrip(s);
  }

  /** A scenario within the caps of a device reads back unchanged. */
  lemma ScenarioRoundTrip(sc: Scenario)
    requires ScenarioFits(sc)
    ensures ScenarioFromJson(ScenarioToJson(sc)) == Some(sc)
  {
    var items := Emit(sc.steps, MAX_STEPS, Always, DmExport.StepToJson);
    var v := [Some(JString(sc.id)), Some(JString(sc.name)), Some(JArray(items))];
    assert Distinct(ScenarioKeys);
    GetFields(ScenarioKeys, v, 0);
    GetFields(ScenarioKeys, v, 1);
    GetFields(ScenarioKeys, v, 2);
    forall i | 0 <= i < |sc.steps| ensures StepNodeFromJson(DmExport.StepToJson(sc.steps[i])) == Some(sc.steps[i]) {
      StepNodeRoundTrip(sc.steps[i]);
    }
    EmitCollect(sc.steps, MAX_STEPS, DmExport.StepToJson, StepNodeFromJson);
  }

  // ----------------------------------------------------------- devices

  const DeviceKeys: seq<string> := ["id", "name", "tabs", "topics", "scenarios", "template"]

  /** The members of a device object, the template member given. Tabs are
      not modelled and are written as an empty array. */
  function DeviceVals(d: Device, template: Option<Json>): seq<Option<Json>> {
    [Some(JString(d.id)), Some(JString(d.displayName)), Some(JArray([])),
     Some(JArray(Emit(d.topics, MAX_TOPICS, Always, TopicToJson))),
     Some(JArray(Emit(d.scenarios, MAX_SCENARIOS, Always, ScenarioToJson))),
     template]
  }

  /** The `template` member of a device: absent without a template, None
      inside when `template_to_json` gives NULL. */
  function TemplateMember(d: Device, last: seq<Option<string>>): (r: Option<Json>)
    ensures r.None? <==> d.template.None? || d.template == Some(SensorConfig)
  {
    match d.template
    case None => None
    case Some(t) => TemplateToJson(t, last)
  }

  /** One device of the export loop, with the runtime's UID snapshot of
      its last values; None where `template_to_json` gives NULL. */
  function DeviceToJson(d: Device, last: seq<Option<string>>): (r: Option<Json>)
    ensures r.None? <==> d.template == Some(SensorConfig)
  {
    if d.template == Some(SensorConfig) then None
    else Some(JObject(Fields(DeviceKeys, DeviceVals(d, TemplateMember(d, last)))))
  }

  /** The members of an exported device object. */
  lemma DeviceFields(d: Device, template: Option<Json>)
    ensures var obj := JObject(Fields(DeviceKeys, DeviceVals(d, template)));
      Text(obj, "id") == d.id && Text(obj, "name") == d.displayName
      && Get(obj, "topics") == Some(JArray(Emit(d.topics, MAX_TOPICS, Always, TopicToJson)))
      && Get(obj, "scenarios") == Some(JArray(Emit(d.scenarios, MAX_SCENARIOS, Always, ScenarioToJson)))
      && Get(obj, "template") == template
  {
    var v := DeviceVals(d, template);
    assert Distinct(DeviceKeys);
    GetFields(DeviceKeys, v, 0);
    GetFields(DeviceKeys, v, 1);
    GetFields(DeviceKeys, v, 3);
    GetFields(DeviceKeys, v, 4);
    GetFields(DeviceKeys, v, 5);
  }

  /** Any object carrying a device's id, name, lists and template reads
      back as that device. */
  lemma DeviceReadBack(obj: Json, d: Device, topics: seq<Json>, scenarios: seq<Json>)
    requires obj.JObject? && DeviceFits(d)
    requires Text(obj, "id") == d.id && Text(obj, "name") == d.displayName
    requires Get(obj, "topics") == Some(JArray(topics)) && Collect(topics, MAX_TOPICS, TopicFromJson) == d.topics
    requires Get(obj, "scenarios") == Some(JArray(scenarios))
             && Collect(scenarios, MAX_SCENARIOS, ScenarioFromJson) == d.scenarios
    requires d.template.None? ==> Get(obj, "template").None?
    requires d.template.Some? ==> Get(obj, "template").Some? && Get(obj, "template").value.JObject?
                                  && TemplateFromJson(Get(obj, "template").value) == d.template
    ensures DeviceFromJson(obj) == Some(d)
  {
  }

  /** The topic and scenario arrays of a device read back as its lists. */
  lemma DeviceListsRoundTrip(d: Device)
    requires DeviceFits(d)
    ensures Collect(Emit(d.topics, MAX_TOPICS, Always, TopicToJson), MAX_TOPICS, TopicFromJson) == d.topics
    ensures Collect(Emit(d.scenarios, MAX_SCENARIOS, Always, ScenarioToJson), MAX_SCENARIOS, ScenarioFromJson)
      == d.scenarios
  {
    forall i | 0 <= i < |d.topics| ensures TopicFromJson(TopicToJson(d.topics[i])) == Some(d.topics[i]) {
      TopicRoundTrip(d.topics[i]);
    }
    EmitCollect(d.topics, MAX_TOPICS, TopicToJson, TopicFromJson);
    forall i | 0 <= i < |d.scenarios| ensures ScenarioFromJson(ScenarioToJson(d.scenarios[i])) == Some(d.scenarios[i]) {
      ScenarioRoundTrip(d.scenarios[i]);
    }
    EmitCollect(d.scenarios, MAX_SCENARIOS, ScenarioToJson, ScenarioFromJson);
  }

  /** The template member of a device the parser could have built reads
      back as its template. */
  lemma TemplateMemberRoundTrip(d: Device, last: seq<Option<string>>)
    requires DeviceFits(d)
    ensures d.template.None? ==> TemplateMember(d, last).None?
    ensures d.template.Some? ==>
      TemplateMember(d, last).Some? && TemplateMember(d, last).value.JObject?
      && TemplateFromJson(TemplateMember(d, last).value) == d.template
  {
    if d.template.Some? {
      TemplateRoundTrip(d.template.value, last);
    }
  }

  /** A device the parser could have built is read back unchanged, with
      its template, whatever the runtime snapshot held. */
  lemma DeviceRoundTrip(d: Device, last: seq<Option<string>>)
    requires DeviceFits(d)
    ensures DeviceToJson(d, last).Some?
    ensures DeviceFromJson(DeviceToJson(d, last).value) == Some(d)
  {
    var obj := DeviceToJson(d, last).value;
    DeviceFields(d, TemplateMember(d, last));
    DeviceListsRoundTrip(d);
    TemplateMemberRoundTrip(d, last);
    DeviceReadBack(obj, d, Emit(d.topics, MAX_TOPICS, Always, TopicToJson),
                   Emit(d.scenarios, MAX_SCENARIOS, Always, ScenarioToJson));
  }

  /** The last values of a UID snapshot; none without one. */
  function LastValues(r: TemplateRuntime.Result): (last: seq<Option<string>>)
    ensures r.NotFound? ==> last == []
    ensures r.Found? ==> |last| == |r.data.slots| && forall k :: 0 <= k < |last| ==>
      last[k] == (if r.data.slots[k].hasValue then Some(r.data.slots[k].lastValue) else None)
  {
    match r
    case NotFound => []
    case Found(data) =>
      seq(|data.slots|, k requires 0 <= k < |data.slots| =>
        if data.slots[k].hasValue then Some(data.slots[k].lastValue) else None)
  }

  /** The device cap of the export loop: the capacity, or MAX_DEVICES
      without one. */
  function DeviceCap(capacity: nat): (r: nat)
    ensures 0 < r && (capacity != 0 ==> r == capacity)
  {
    if capacity != 0 then capacity else MAX_DEVICES
  }

  /** Each device paired with the last values the runtime holds for its
      id. */
  function WithSnapshots(ds: seq<Device>, snapshots: string -> TemplateRuntime.Result): (r: seq<(Device, seq<Option<string>>)>)
    ensures |r| == |ds|
    ensures forall i :: 0 <= i < |ds| ==> r[i] == (ds[i], LastValues(snapshots(ds[i].id)))
  {
    seq(|ds|, i requires 0 <= i < |ds| => (ds[i], LastValues(snapshots(ds[i].id))))
  }

  /** One device as the loop writes it. */
  function DeviceItem(e: (Device, seq<Option<string>>)): Option<Json> {
    DeviceToJson(e.0, e.1)
  }

  /** The device loop: at most `cap` devices, None as soon as one fails. */
  function DevicesToJson(ds: seq<Device>, cap: nat, snapshots: string -> TemplateRuntime.Result): Option<seq<Json>> {
    Traverse(WithSnapshots(ds, snapshots), cap, DeviceItem)
  }

  /** The device loop fails exactly when one of the devices it reaches has
      a template without a case. */
  lemma DevicesFail(ds: seq<Device>, cap: nat, snapshots: string -> TemplateRuntime.Result)
    ensures DevicesToJson(ds, cap, snapshots).None?
      <==> exists i :: 0 <= i < |ds| && i < cap && ds[i].template == Some(SensorConfig)
  {
    var es := WithSnapshots(ds, snapshots);
    TraverseFails(es, cap, DeviceItem);
    if exists i :: 0 <= i < |es| && i < cap && DeviceItem(es[i]).None? {
      var i :| 0 <= i < |es| && i < cap && DeviceItem(es[i]).None?;
      assert ds[i].template == Some(SensorConfig);
    }
    if exists i :: 0 <= i < |ds| && i < cap && ds[i].template == Some(SensorConfig) {
      var i :| 0 <= i < |ds| && i < cap && ds[i].template == Some(SensorConfig);
      assert DeviceItem(es[i]).None?;
    }
  }

  /** Devices within their caps, as many as the loop takes, are exported
      one object each, and each object reads back as its device. */
  lemma DevicesRoundTrip(ds: seq<Device>, cap: nat, snapshots: string -> TemplateRuntime.Result)
    requires |ds| <= cap && AllDevicesFit(ds)
    ensures DevicesToJson(ds, cap, snapshots).Some?
    ensures var items := DevicesToJson(ds, cap, snapshots).value;
      |items| == |ds| && forall i :: 0 <= i < |ds| ==> DeviceFromJson(items[i]) == Some(ds[i])
  {
    var es := WithSnapshots(ds, snapshots);
    forall i | 0 <= i < |es| ensures DeviceItem(es[i]).Some? && DeviceFromJson(DeviceItem(es[i]).value) == Some(ds[i]) {
      DeviceRoundTrip(ds[i], LastValues(snapshots(ds[i].id)));
    }
    TraverseAll(es, cap, DeviceItem);
  }

  // ---------------------------------------------------------- profiles

  /** The active profile written: the configured one, or DEFAULT_PROFILE_ID
      when none is set. */
  function ActiveProfileId(cfg: DmConfig): (r: string)
    ensures r != ""
    ensures cfg.activeProfile != "" ==> r == cfg.activeProfile
    ensures cfg.activeProfile == "" ==> r == DEFAULT_PROFILE_ID
  {
    if cfg.activeProfile != "" then cfg.activeProfile else DEFAULT_PROFILE_ID
  }

  const ProfileKeys: seq<string> := ["id", "name", "device_count", "active"]

  predicate HasId(p: Profile) { p.id != "" }

  function ProfileVals(p: Profile, active: string): seq<Option<Json>> {
    [Some(JString(p.id)), Some(JString(if p.name != "" then p.name else p.id)),
     Some(Num(p.deviceCount)), When(EqualsIgnoreCase(p.id, active), JBool(true))]
  }

  /** One profile: its id, its name or else its id, its device count, and
      an `active` flag only on the active one. */
  function ProfileToJson(p: Profile, active: string): Json {
    JObject(Fields(ProfileKeys, ProfileVals(p, active)))
  }

  /** What an exported profile says: its id, its name falling back to the
      id, and `active: true` exactly when its id equals the active one,
      ignoring case. */
  lemma ProfileFields(p: Profile, active: string)
    ensures var obj := ProfileToJson(p, active);
      Text(obj, "id") == p.id
      && Text(obj, "name") == (if p.name != "" then p.name else p.id)
      && NumberToU32(Get(obj, "device_count"), 0) == Min(p.deviceCount, UINT32_MAX)
      && (Get(obj, "active").Some? <==> EqualsIgnoreCase(p.id, active))
      && (Get(obj, "active").Some? ==> Get(obj, "active") == Some(JBool(true)))
  {
    var v := ProfileVals(p, active);
    assert Distinct(ProfileKeys);
    GetFields(ProfileKeys, v, 0);
    GetFields(ProfileKeys, v, 1);
    GetFields(ProfileKeys, v, 2);
    GetFields(ProfileKeys, v, 3);
    NumberRoundTrip(p.deviceCount, 0, 0);
  }

  // ---------------------------------------------------------- document

  const RootKeys: seq<string> := ["schema", "generation", "tab_limit", "active_profile", "profiles", "devices"]

  function ProfilesToJson(cfg: DmConfig): seq<Json> {
    var active := ActiveProfileId(cfg);
    Emit(cfg.profiles, MAX_PROFILES, HasId, p => ProfileToJson(p, active))
  }

  function RootVals(cfg: DmConfig, devices: seq<Json>): seq<Option<Json>> {
    [Some(Num(cfg.schemaVersion)), Some(Num(cfg.generation)), Some(Num(cfg.tabLimit)),
     Some(JString(ActiveProfileId(cfg))), Some(JArray(ProfilesToJson(cfg))), Some(JArray(devices))]
  }

  /** `dm_storage_internal_export` up to the printing of the tree; the
      UID snapshots of the template runtime are a parameter. It fails with
      ESP_ERR_NO_MEM exactly when a device the loop reaches has a template
      without a case. */
  function ExportConfig(cfg: DmConfig, snapshots: string -> TemplateRuntime.Result): (r: Outcome<Json>)
    ensures r.Fail? ==> r.err == ErrNoMem
    ensures r.Ok? ==> r.value.JObject?
  {
    match DevicesToJson(cfg.devices, DeviceCap(cfg.deviceCapacity), snapshots)
    case None => Fail(ErrNoMem)
    case Some(ds) => Ok(JObject(Fields(RootKeys, RootVals(cfg, ds))))
  }

  lemma ExportFails(cfg: DmConfig, snapshots: string -> TemplateRuntime.Result)
    ensures ExportConfig(cfg, snapshots).Fail? <==>
      exists i :: 0 <= i < |cfg.devices| && i < DeviceCap(cfg.deviceCapacity)
               && cfg.devices[i].template == Some(SensorConfig)
  {
    DevicesFail(cfg.devices, DeviceCap(cfg.deviceCapacity), snapshots);
  }

  /** The members of an exported document, read back. */
  lemma RootFields(cfg: DmConfig, devices: seq<Json>)
    ensures var root := JObject(Fields(RootKeys, RootVals(cfg, devices)));
      Get(root, "schema") == Some(Num(cfg.schemaVersion))
      && Get(root, "generation") == Some(Num(cfg.generation))
      && Get(root, "tab_limit") == Some(Num(cfg.tabLimit))
      && Text(root, "active_profile") == ActiveProfileId(cfg)
      && ArrayOf(Get(root, "profiles")) == Some(ProfilesToJson(cfg))
      && ArrayOf(Get(root, "devices")) == Some(devices)
  {
    var v := RootVals(cfg, devices);
    assert Distinct(RootKeys);
    GetFields(RootKeys, v, 0);
    GetFields(RootKeys, v, 1);
    GetFields(RootKeys, v, 2);
    GetFields(RootKeys, v, 3);
    GetFields(RootKeys, v, 4);
    GetFields(RootKeys, v, 5);
  }

  /** The exported document names the active profile, or the default one,
      and every exported profile comes from one of the first MAX_PROFILES
      profiles with a non-empty id. */
  lemma ExportProfiles(cfg: DmConfig, snapshots: string -> TemplateRuntime.Result, y: Json)
    requires ExportConfig(cfg, snapshots).Ok?
    ensures var root := ExportConfig(cfg, snapshots).value;
      Text(root, "active_profile") == ActiveProfileId(cfg)
      && ArrayOf(Get(root, "profiles")) == Some(ProfilesToJson(cfg))
    ensures y in ProfilesToJson(cfg) ==>
      exists i :: 0 <= i < |cfg.profiles| && i < MAX_PROFILES && cfg.profiles[i].id != ""
               && y == ProfileToJson(cfg.profiles[i], ActiveProfileId(cfg))
  {
    RootFields(cfg, DevicesToJson(cfg.devices, DeviceCap(cfg.deviceCapacity), snapshots).value);
    var active := ActiveProfileId(cfg);
    if y in ProfilesToJson(cfg) {
      EmitKept(cfg.profiles, MAX_PROFILES, HasId, p => ProfileToJson(p, active), y);
    }
  }

  /** Scalars survive population: profiles, the active profile and the
      device table are all that the later phases change. */
  lemma PopulateScalars(root: Json, capacity: nat)
    ensures var c := Populate(root, capacity);
      var s := Scalars(root, capacity);
      c.schemaVersion == s.schemaVersion && c.generation == s.generation && c.tabLimit == s.tabLimit
  {
    var base := Scalars(root, capacity);
    var read := match ArrayOf(Get(root, "profiles"))
      case Some(items) => ProfilesFrom(base, items)
      case None => base;
    var active := match NonEmptyString(Get(root, "active_profile"))
      case Some(a) => read.(activeProfile := a)
      case None => read;
    EnsureActiveSpec(active);
    var p := WithProfiles(root, capacity);
    if ArrayOf(Get(root, "devices")).Some? {
      var items := ArrayOf(Get(root, "devices")).value;
      var q := p.(devices := Collect(items, DeviceLoopCap(capacity, items), DeviceFromJson));
      EnsureActiveSpec(q);
    }
  }

  /** Saving and loading again: when every device is within its caps and
      both the export loop and the loader take all of them, the reloaded
      configuration has the same devices, in order, and the same schema,
      generation and tab limit. */
  lemma SaveReload(cfg: DmConfig, snapshots: string -> TemplateRuntime.Result, capacity: nat)
    requires AllDevicesFit(cfg.devices)
    requires |cfg.devices| <= DeviceCap(cfg.deviceCapacity)
    requires capacity != 0 ==> |cfg.devices| <= capacity
    requires cfg.schemaVersion <= UINT32_MAX && cfg.generation <= UINT32_MAX && cfg.tabLimit <= MAX_TABS
    ensures ExportConfig(cfg, snapshots).Ok?
    ensures var c := Populate(ExportConfig(cfg, snapshots).value, capacity);
      c.devices == cfg.devices && c.schemaVersion == cfg.schemaVersion
      && c.generation == cfg.generation && c.tabLimit == cfg.tabLimit
  {
    var cap := DeviceCap(cfg.deviceCapacity);
    DevicesRoundTrip(cfg.devices, cap, snapshots);
    var items := DevicesToJson(cfg.devices, cap, snapshots).value;
    var root := ExportConfig(cfg, snapshots).value;
    RootFields(cfg, items);
    DevicesRead(root, capacity);
    CollectAll(items, DeviceLoopCap(capacity, items), DeviceFromJson, cfg.devices);
    PopulateScalars(root, capacity);
    NumberRoundTrip(cfg.schemaVersion, CONFIG_VERSION, 0);
    NumberRoundTrip(cfg.generation, 1, 0);
    NumberRoundTrip(cfg.tabLimit, MAX_TABS, 0);
  }
}
