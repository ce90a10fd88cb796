/** The device-manager configuration as the firmware holds it
    (`device_manager.h`, `dm_templates.h`): devices with MQTT topic bindings,
    scenarios made of action steps, an optional template, and named profiles.
    Fixed C arrays with a count become sequences whose length is the count;
    character arrays become strings without their terminator. */
module DmTypes {
  import opened Common
  import opened TemplateRegistry

  /** Capacities of the configuration arrays. The values of the limits that
      live in `dm_limits.h` are those the browser editor enforces. */
  const MAX_DEVICES: nat := 12
  const MAX_TABS: nat := 12
  const MAX_TOPICS: nat := 8
  const MAX_SCENARIOS: nat := 8
  const MAX_STEPS: nat := 16
  const MAX_PROFILES: nat := 4
  const MAX_FLAG_RULES: nat := 8

  /** Capacities from `dm_templates.h`. */
  const UID_MAX_SLOTS: nat := 8
  const UID_MAX_VALUES: nat := 8
  const UID_VALUE_MAX_LEN: nat := 32
  const MQTT_MAX_RULES: nat := 8
  const FLAG_MAX_RULES: nat := 8
  const CONDITION_MAX_RULES: nat := 8
  const SEQUENCE_MAX_STEPS: nat := 8

  /** `DM_DEVICE_CONFIG_VERSION`, `DM_DEFAULT_PROFILE_ID`, `DM_DEFAULT_PROFILE_NAME`. */
  const CONFIG_VERSION: nat := 1
  const DEFAULT_PROFILE_ID: string := "default"
  const DEFAULT_PROFILE_NAME: string := "Default"

  /** `device_condition_type_t`. */
  datatype ConditionMode = All | Any

  /** `device_action_type_t`. */
  datatype ActionType =
    | TNop | TMqttPublish | TAudioPlay | TAudioStop | TSetFlag
    | TWaitFlags | TLoop | TDelay | TEventBus

  /** `device_flag_requirement_t`. */
  datatype FlagRequirement = FlagRequirement(flag: string, requiredState: bool)

  /** The `data` union of `device_action_step_t`, tagged by its type. */
  datatype Action =
    | Nop
    | MqttPublish(topic: string, payload: string, qos: nat, retain: bool)
    | AudioPlay(track: string, blocking: bool)
    | AudioStop
    | SetFlag(flag: string, value: bool)
    | WaitFlags(mode: ConditionMode, requirements: seq<FlagRequirement>, timeoutMs: nat)
    | Loop(targetStep: nat, maxIterations: nat)
    | Delay
    | EventBus(event: string, topic: string, payload: string)

  /** The `type` field of a step. */
  function TypeOf(a: Action): (t: ActionType)
    ensures t == TNop <==> a.Nop?
    ensures t == TMqttPublish <==> a.MqttPublish?
    ensures t == TWaitFlags <==> a.WaitFlags?
    ensures t == TLoop <==> a.Loop?
    ensures t == TEventBus <==> a.EventBus?
  {
    match a
    case Nop => TNop
    case MqttPublish(_, _, _, _) => TMqttPublish
    case AudioPlay(_, _) => TAudioPlay
    case AudioStop => TAudioStop
    case SetFlag(_, _) => TSetFlag
    case WaitFlags(_, _, _) => TWaitFlags
    case Loop(_, _) => TLoop
    case Delay => TDelay
    case EventBus(_, _, _) => TEventBus
  }

  /** `device_action_step_t`. */
  datatype Step = Step(action: Action, delayMs: nat)

  datatype Scenario = Scenario(id: string, name: string, steps: seq<Step>)
  datatype TopicBinding = TopicBinding(name: string, topic: string)

  /** `dm_uid_slot_t`: `values` holds `value_count` strings. */
  datatype UidSlot = UidSlot(sourceId: string, title: string, values: seq<string>)

  /** `dm_uid_template_t`: `slots` holds `slot_count` slots. */
  datatype UidTemplate = UidTemplate(
    slots: seq<UidSlot>,
    startTopic: string, startPayload: string,
    broadcastTopic: string, broadcastPayload: string,
    successTopic: string, successPayload: string,
    failTopic: string, failPayload: string,
    successAudioTrack: string, failAudioTrack: string,
    successSignalTopic: string, successSignalPayload: string,
    failSignalTopic: string, failSignalPayload: string)

  datatype SignalTemplate = SignalTemplate(
    signalTopic: string, signalPayloadOn: string, signalPayloadOff: string,
    signalOnMs: nat, heartbeatTopic: string, requiredHoldMs: nat,
    heartbeatTimeoutMs: nat, holdTrack: string, holdTrackLoop: bool,
    completeTrack: string)

  datatype MqttRule = MqttRule(name: string, topic: string, payload: string, scenario: string, payloadRequired: bool)
  datatype MqttTemplate = MqttTemplate(rules: seq<MqttRule>)

  datatype FlagRule = FlagRule(name: string, flag: string, requiredState: bool, scenario: string)
  datatype FlagTemplate = FlagTemplate(rules: seq<FlagRule>)

  datatype ConditionRule = ConditionRule(flag: string, requiredState: bool)
  datatype ConditionTemplate = ConditionTemplate(
    mode: ConditionMode, rules: seq<ConditionRule>, trueScenario: string, falseScenario: string)

  datatype IntervalTemplate = IntervalTemplate(intervalMs: nat, scenario: string)

  datatype SequenceStep = SequenceStep(
    topic: string, payload: string, payloadRequired: bool,
    hintTopic: string, hintPayload: string, hintAudioTrack: string)
  datatype SequenceTemplate = SequenceTemplate(
    steps: seq<SequenceStep>, timeoutMs: nat, resetOnError: bool,
    successTopic: string, successPayload: string, successAudioTrack: string, successScenario: string,
    failTopic: string, failPayload: string, failAudioTrack: string, failScenario: string)

  /** `dm_template_config_t`: the type tag and its union member. The sensor
      monitor carries no data in this model. */
  datatype TemplateConfig =
    | UidConfig(uid: UidTemplate)
    | SignalConfig(signal: SignalTemplate)
    | MqttConfig(mqtt: MqttTemplate)
    | FlagConfig(flagTpl: FlagTemplate)
    | ConditionConfig(condition: ConditionTemplate)
    | IntervalConfig(interval: IntervalTemplate)
    | SequenceConfig(sequence: SequenceTemplate)
    | SensorConfig

  function KindOf(t: TemplateConfig): (k: TemplateType)
    ensures k == SensorMonitor <==> t.SensorConfig?
    ensures k == Uid <==> t.UidConfig?
  {
    match t
    case UidConfig(_) => Uid
    case SignalConfig(_) => SignalHold
    case MqttConfig(_) => MqttTrigger
    case FlagConfig(_) => FlagTrigger
    case ConditionConfig(_) => IfCondition
    case IntervalConfig(_) => IntervalTask
    case SequenceConfig(_) => SequenceLock
    case SensorConfig => SensorMonitor
  }

  /** `device_descriptor_t`; `template` is None when `template_assigned` is
      false. */
  datatype Device = Device(
    id: string, displayName: string,
    topics: seq<TopicBinding>, scenarios: seq<Scenario>,
    template: Option<TemplateConfig>)

  /** `device_manager_profile_t`. */
  datatype Profile = Profile(id: string, name: string, deviceCount: nat)

  /** `device_manager_config_t`: `devices` holds `device_count` devices. */
  datatype DmConfig = DmConfig(
    schemaVersion: nat, generation: nat, tabLimit: nat,
    profiles: seq<Profile>, activeProfile: string,
    deviceCapacity: nat, devices: seq<Device>)

  /** An empty device: the state `memset` leaves behind. */
  const EmptyDevice: Device := Device("", "", [], [], None)
}
