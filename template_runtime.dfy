/** The template runtime registry (`template_runtime.c`): fixed tables of
    per-device runtimes, one table per template type, filled when devices
    are registered and consulted when MQTT messages and flag changes arrive.
    Side effects (publishes, audio, scenario triggers) are returned as a
    list of effects instead of being performed. */
module TemplateRuntime {
  import opened Common
  import opened DmTypes
  import opened DmTemplates
  import opened RuntimeUid
  import opened RuntimeCondition

  /** Table capacities. */
  const UID_RUNTIME_MAX: nat := 4
  const SIGNAL_RUNTIME_MAX: nat := 4
  const MQTT_RUNTIME_MAX: nat := 6
  const FLAG_RUNTIME_MAX: nat := 6
  const CONDITION_RUNTIME_MAX: nat := 6
  const INTERVAL_RUNTIME_MAX: nat := 6

  /** What the runtime asks the rest of the firmware to do. */
  datatype Effect =
    | Publish(topic: string, payload: string)
    | PlayTrack(track: string)
    | PauseAudio
    | ResumeAudio
    | StopAudio
    | Trigger(deviceId: string, scenario: string)

  /** `payload_to_bool`: "true", "on" and "yes" in any case, or exactly "1". */
  function PayloadToBool(payload: string): (r: bool)
    ensures r ==> |payload| <= 4
    ensures r <==> (EqualsIgnoreCase(payload, "true") || EqualsIgnoreCase(payload, "on")
      || EqualsIgnoreCase(payload, "yes") || payload == "1")
  {
    EqualsIgnoreCase(payload, "true") || EqualsIgnoreCase(payload, "on")
    || EqualsIgnoreCase(payload, "yes") || payload == "1"
  }

  /** The usual spellings of "off" read as false, and the upper-case ones of
      "on" as true. */
  lemma PayloadToBoolExamples()
    ensures !PayloadToBool("") && !PayloadToBool("0") && !PayloadToBool("off")
    ensures !PayloadToBool("false") && !PayloadToBool("no")
    ensures PayloadToBool("TRUE") && PayloadToBool("On") && PayloadToBool("1")
  {
    assert !EqualsIgnoreCase("off", "on") by { assert |Lower("off")| != |Lower("on")|; }
    assert !EqualsIgnoreCase("no", "on") by { DiffersAt("no", "on", 0); }
    assert !EqualsIgnoreCase("off", "yes") by { DiffersAt("off", "yes", 0); }
    assert Lower("TRUE") == "true";
    assert Lower("On") == "on";
  }

  // ---------------------------------------------------------- entry tables

  /** The index of the first unused entry, as `allocate_*_entry` finds it. */
  function FirstFree<T>(table: seq<Option<T>>): (r: Option<nat>)
    ensures r.Some? ==> (r.value < |table| && table[r.value].None?
      && forall j :: 0 <= j < r.value ==> table[j].Some?)
    ensures r.None? <==> forall j :: 0 <= j < |table| ==> table[j].Some?
  {
    if |table| == 0 then None
    else if table[0].None? then Some(0)
    else match FirstFree(table[1..])
      case None => None
      case Some(k) => Some(k + 1)
  }

  /** The loop of `allocate_*_entry`. */
  method Allocate<T>(table: seq<Option<T>>) returns (r: Option<nat>)
    ensures r == FirstFree(table)
  {
    var i := 0;
    while i < |table|
      invariant 0 <= i <= |table|
      invariant forall j :: 0 <= j < i ==> table[j].Some?
    {
      if table[i].None? {
        FirstFreeIs(table, i);
        return Some(i);
      }
      i := i + 1;
    }
    return None;
  }

  lemma {:induction false} FirstFreeIs<T>(table: seq<Option<T>>, i: nat)
    requires i < |table| && table[i].None? && forall j :: 0 <= j < i ==> table[j].Some?
    ensures FirstFree(table) == Some(i)
  {
    if i > 0 {
      FirstFreeIs(table[1..], i - 1);
    }
  }

  /** The table with `e` placed in its first unused entry; None when full. */
  function Install<T>(table: seq<Option<T>>, e: T): (r: Option<seq<Option<T>>>)
    ensures r.None? <==> FirstFree(table).None?
    ensures r.Some? ==> (|r.value| == |table| && r.value[FirstFree(table).value] == Some(e)
      && forall j :: 0 <= j < |table| && j != FirstFree(table).value ==> r.value[j] == table[j])
  {
    match FirstFree(table)
    case None => None
    case Some(i) => Some(table[i := Some(e)])
  }

  /** The state kept for a signal-hold device's hold track. */
  datatype HoldAudio = HoldAudio(started: bool, paused: bool, active: bool)

  const HoldIdle: HoldAudio := HoldAudio(false, false, false)

  datatype UidEntry = UidEntry(deviceId: string, config: UidTemplate, state: UidRuntimeState, topics: seq<string>)
  datatype SignalEntry = SignalEntry(deviceId: string, config: SignalTemplate, progress: SignalProgress, heartbeatTopic: string, hold: HoldAudio)
  datatype MqttEntry = MqttEntry(deviceId: string, config: MqttTemplate)
  datatype FlagEntry = FlagEntry(deviceId: string, config: FlagTemplate)
  datatype ConditionEntry = ConditionEntry(deviceId: string, config: ConditionTemplate, progress: CondProgress)
  datatype IntervalEntry = IntervalEntry(deviceId: string, config: IntervalTemplate)

  /** The guard each `register_*` applies before it takes an entry. */
  function RegisterGuard(tpl: TemplateConfig): (r: EspErr)
    ensures r == ErrNotSupported <==> tpl.SequenceConfig? || tpl.SensorConfig?
    ensures tpl.UidConfig? ==> (r == EspOk <==> |tpl.uid.slots| > 0)
    ensures tpl.SignalConfig? ==> (r == EspOk <==> tpl.signal.heartbeatTopic != "")
    ensures tpl.MqttConfig? ==> (r == EspOk <==> |tpl.mqtt.rules| > 0)
    ensures tpl.FlagConfig? ==> (r == EspOk <==> |tpl.flagTpl.rules| > 0)
    ensures tpl.ConditionConfig? ==> (r == EspOk <==> |tpl.condition.rules| > 0)
    ensures tpl.IntervalConfig? ==> (r == EspOk <==> tpl.interval.intervalMs > 0 && tpl.interval.scenario != "")
    ensures r == EspOk || r == ErrInvalidArg || r == ErrNotSupported
  {
    match tpl
    case UidConfig(u) => if |u.slots| == 0 then ErrInvalidArg else EspOk
    case SignalConfig(s) => if s.heartbeatTopic == "" then ErrInvalidArg else EspOk
    case MqttConfig(m) => if |m.rules| == 0 then ErrInvalidArg else EspOk
    case FlagConfig(f) => if |f.rules| == 0 then ErrInvalidArg else EspOk
    case ConditionConfig(c) => if |c.rules| == 0 then ErrInvalidArg else EspOk
    case IntervalConfig(i) => if i.intervalMs == 0 || i.scenario == "" then ErrInvalidArg else EspOk
    case SequenceConfig(_) => ErrNotSupported
    case SensorConfig => ErrNotSupported
  }

  /** The source ids a UID entry listens on. */
  function SlotTopics(tpl: UidTemplate): (r: seq<string>)
    ensures |r| == Min(|tpl.slots|, UID_MAX_SLOTS)
    ensures forall i :: 0 <= i < |r| ==> r[i] == tpl.slots[i].sourceId
  {
    seq(Min(|tpl.slots|, UID_MAX_SLOTS), i requires 0 <= i < Min(|tpl.slots|, UID_MAX_SLOTS) => tpl.slots[i].sourceId)
  }

  // ---------------------------------------------------------- signal audio

  /** `handle_signal_audio`: the hold track starts once, pauses while the
      heartbeat is lost and resumes when it returns; completion stops it and
      plays the completion track. Without a hold track nothing happens. */
  function SignalAudio(h: HoldAudio, ev: SignalEventType, holdTrack: string, completeTrack: string): (HoldAudio, seq<Effect>)
  {
    if holdTrack == "" then (h, [])
    else match ev
      case Start =>
        if !h.started then (HoldAudio(true, false, true), [PlayTrack(holdTrack)])
        else if h.paused then (h.(paused := false, active := true), [ResumeAudio])
        else (h, [])
      case Stop =>
        if h.active then (h.(paused := true, active := false), [PauseAudio]) else (h, [])
      case Completed =>
        var stop := if h.active || h.paused then [StopAudio] else [];
        var play := if completeTrack != "" then [PlayTrack(completeTrack)] else [];
        (HoldIdle, stop + play)
      case _ => (h, [])
  }

  /** A started hold track is either playing or paused, never both, and an
      idle one is neither. */
  predicate HoldWellFormed(h: HoldAudio) {
    !(h.paused && h.active) && (h.started <==> h.paused || h.active)
  }

  /** Each event keeps the hold flags well formed; a second STOP or START in
      a row does nothing; COMPLETED always returns to idle when a hold track
      is set. */
  lemma SignalAudioFacts(h: HoldAudio, ev: SignalEventType, holdTrack: string, completeTrack: string)
    requires HoldWellFormed(h)
    ensures var (h1, _) := SignalAudio(h, ev, holdTrack, completeTrack);
      HoldWellFormed(h1)
      && (ev == Stop || ev == Start ==> SignalAudio(h1, ev, holdTrack, completeTrack) == (h1, []))
      && (ev == Completed && holdTrack != "" ==> h1 == HoldIdle)
      && (ev == Start && holdTrack != "" ==> h1.active && !h1.paused)
      && (ev == Stop && holdTrack != "" ==> !h1.active && (h.active ==> h1.paused))
  {
  }

  /** The audio commands of each event: START plays the hold track the first
      time and resumes it after a pause; STOP pauses only an active track;
      COMPLETED stops a started track before the completion track. */
  lemma SignalAudioEffects(h: HoldAudio, ev: SignalEventType, holdTrack: string, completeTrack: string)
    requires holdTrack != ""
    ensures var (_, fx) := SignalAudio(h, ev, holdTrack, completeTrack);
      (ev == Start && !h.started ==> fx == [PlayTrack(holdTrack)])
      && (ev == Start && h.started && h.paused ==> fx == [ResumeAudio])
      && (ev == Stop ==> fx == (if h.active then [PauseAudio] else []))
      && (ev == Completed ==> ((StopAudio in fx <==> h.active || h.paused)
            && (PlayTrack(completeTrack) in fx <==> completeTrack != "")))
      && (ev == SignalNone || ev == Continue ==> fx == [])
  {
  }

  // ---------------------------------------------------------- message handling

  /** `publish_mqtt_payload`: nothing for an empty topic. */
  function PublishEffect(topic: string, payload: string): (fx: seq<Effect>)
    ensures fx == (if topic == "" then [] else [Publish(topic, payload)])
  {
    if topic == "" then [] else [Publish(topic, payload)]
  }

  /** `apply_uid_action` followed by the scenario trigger of a finished
      round. */
  function UidEffects(deviceId: string, a: UidAction): (fx: seq<Effect>)
    ensures Trigger(deviceId, "uid_success") in fx <==> a.event == Success
    ensures Trigger(deviceId, "uid_fail") in fx <==> a.event == Invalid
  {
    (if a.publishChannel then PublishEffect(a.channelTopic, a.channelPayload) else [])
    + (if a.publishSignal then PublishEffect(a.signalTopic, a.signalPayload) else [])
    + (if a.audioPlay && a.audioTrack != "" then [PlayTrack(a.audioTrack)] else [])
    + (if a.event == Success then [Trigger(deviceId, "uid_success")]
       else if a.event == Invalid then [Trigger(deviceId, "uid_fail")] else [])
  }

  /** The inner loop of `handle_uid_message` over the first `t` topics of
      one entry: the value is handed to the runtime once for every topic
      equal to the message topic. */
  function UidOnMessage(e: UidEntry, topic: string, payload: string, t: nat): (r: (UidEntry, bool, seq<Effect>))
    requires t <= |e.topics| && |e.state.slots| == UID_MAX_SLOTS
    ensures |r.0.state.slots| == UID_MAX_SLOTS
    ensures r.0.deviceId == e.deviceId && r.0.config == e.config && r.0.topics == e.topics
  {
    if t == 0 then (e, false, [])
    else
      var r := UidOnMessage(e, topic, payload, t - 1);
      if e.topics[t - 1] != "" && e.topics[t - 1] == topic then
        var step := HandleStep(r.0.config, r.0.state, topic, payload);
        (r.0.(state := step.0), true, r.2 + UidEffects(e.deviceId, step.1))
      else r
  }

  /** One more slot topic of an entry. */
  lemma UidOnMessageNext(e0: UidEntry, topic: string, payload: string, t: nat)
    requires t < |e0.topics| && |e0.state.slots| == UID_MAX_SLOTS
    ensures var r := UidOnMessage(e0, topic, payload, t);
            var step := HandleStep(r.0.config, r.0.state, topic, payload);
            UidOnMessage(e0, topic, payload, t + 1) ==
              if e0.topics[t] != "" && e0.topics[t] == topic
              then (r.0.(state := step.0), true, r.2 + UidEffects(e0.deviceId, step.1))
              else r
  {
  }

  /** An entry handles the message exactly when one of its first `t`
      slot topics is the (non-empty) message topic; otherwise it is left
      as it was and has no effect. */
  lemma {:induction false} UidOnMessageHandled(e: UidEntry, topic: string, payload: string, t: nat)
    requires t <= |e.topics| && |e.state.slots| == UID_MAX_SLOTS
    ensures var r := UidOnMessage(e, topic, payload, t);
            (r.1 <==> exists j :: 0 <= j < t && e.topics[j] != "" && e.topics[j] == topic)
            && (!r.1 ==> r.0 == e && r.2 == [])
  {
    if t > 0 {
      UidOnMessageHandled(e, topic, payload, t - 1);
      if e.topics[t - 1] != "" && e.topics[t - 1] == topic {
        assert 0 <= t - 1 < t && e.topics[t - 1] != "" && e.topics[t - 1] == topic;
      } else {
        assert forall j :: 0 <= j < t && e.topics[j] != "" && e.topics[j] == topic ==> j < t - 1;
      }
    }
  }

  /** The inner loop of `handle_uid_message`: every slot topic of one
      entry that matches hands the value to the validator. */
  method UidEntryOnMessage(e0: UidEntry, topic: string, payload: string) returns (e: UidEntry, h: bool, efx: seq<Effect>)
    requires |e0.state.slots| == UID_MAX_SLOTS
    ensures (e, h, efx) == UidOnMessage(e0, topic, payload, |e0.topics|)
  {
    e, h, efx := e0, false, [];
    var t := 0;
    while t < |e0.topics|
      invariant 0 <= t <= |e0.topics|
      invariant (e, h, efx) == UidOnMessage(e0, topic, payload, t)
    {
      e, h, efx := UidTopicStep(e0, topic, payload, t, e, h, efx);
      t := t + 1;
    }
  }

  /** One turn of that loop: slot topic `t` is compared with the message
      topic and, when equal, the value goes to the validator. */
  method UidTopicStep(e0: UidEntry, topic: string, payload: string, t: nat, e: UidEntry, h: bool, efx: seq<Effect>)
    returns (e1: UidEntry, h1: bool, efx1: seq<Effect>)
    requires t < |e0.topics| && |e0.state.slots| == UID_MAX_SLOTS
    requires (e, h, efx) == UidOnMessage(e0, topic, payload, t)
    ensures (e1, h1, efx1) == UidOnMessage(e0, topic, payload, t + 1)
  {
    UidOnMessageNext(e0, topic, payload, t);
    e1, h1, efx1 := e, h, efx;
    if e0.topics[t] != "" && e0.topics[t] == topic {
      var step := HandleStep(e.config, e.state, topic, payload);
      e1, h1, efx1 := e.(state := step.0), true, efx + UidEffects(e0.deviceId, step.1);
    }
  }

  /** Every UID entry keeps one stored value per slot. */
  predicate UidTableOk(table: seq<Option<UidEntry>>) {
    forall i :: 0 <= i < |table| && table[i].Some? ==> |table[i].value.state.slots| == UID_MAX_SLOTS
  }

  /** `handle_uid_message` over the first `n` entries of the table. */
  function UidTableOnMessage(table: seq<Option<UidEntry>>, topic: string, payload: string, n: nat): (r: (seq<Option<UidEntry>>, bool, seq<Effect>))
    requires n <= |table| && UidTableOk(table)
    ensures |r.0| == |table| && UidTableOk(r.0)
    ensures forall i :: n <= i < |table| ==> r.0[i] == table[i]
    ensures forall i :: 0 <= i < |table| ==> (r.0[i].Some? <==> table[i].Some?)
    ensures r.1 <==> exists i, j :: (0 <= i < n && table[i].Some? && 0 <= j < |table[i].value.topics|
      && table[i].value.topics[j] != "" && table[i].value.topics[j] == topic)
  {
    if n == 0 then (table, false, [])
    else
      var (t1, handled, fx) := UidTableOnMessage(table, topic, payload, n - 1);
      match table[n - 1]
      case None => (t1, handled, fx)
      case Some(e) =>
        UidOnMessageHandled(e, topic, payload, |e.topics|);
        var (e2, h2, fx2) := UidOnMessage(e, topic, payload, |e.topics|);
        (t1[n - 1 := Some(e2)], handled || h2, fx + fx2)
  }

  /** A topic no UID entry listens on changes no entry and has no effect. */
  lemma UidTableIgnores(table: seq<Option<UidEntry>>, topic: string, payload: string)
    requires UidTableOk(table)
    requires forall i, j :: 0 <= i < |table| && table[i].Some? && 0 <= j < |table[i].value.topics| ==> table[i].value.topics[j] != topic
    ensures UidTableOnMessage(table, topic, payload, |table|) == (table, false, [])
  {
    UidTableIgnoresFrom(table, topic, payload, |table|);
  }

  lemma {:induction false} UidTableIgnoresFrom(table: seq<Option<UidEntry>>, topic: string, payload: string, n: nat)
    requires n <= |table| && UidTableOk(table)
    requires forall i, j :: 0 <= i < |table| && table[i].Some? && 0 <= j < |table[i].value.topics| ==> table[i].value.topics[j] != topic
    ensures UidTableOnMessage(table, topic, payload, n) == (table, false, [])
  {
    if n > 0 {
      UidTableIgnoresFrom(table, topic, payload, n - 1);
      if table[n - 1].Some? {
        var e := table[n - 1].value;
        var r := UidOnMessage(e, topic, payload, |e.topics|);
        UidOnMessageHandled(e, topic, payload, |e.topics|);
        assert !r.1 && r.0 == e && r.2 == [];
        assert table[n - 1 := Some(e)] == table;
        var prev := UidTableOnMessage(table, topic, payload, n - 1);
        assert prev == (table, false, []);
        assert UidTableOnMessage(table, topic, payload, n) == (prev.0[n - 1 := Some(r.0)], prev.1 || r.1, prev.2 + r.2);
        assert prev.0[n - 1 := Some(r.0)] == table;
        assert prev.2 + r.2 == [];
        assert UidTableOnMessage(table, topic, payload, n) == (table, false, []);
      }
    }
  }

  /** What one condition entry does on a flag change: whether it handled
      the flag, and the scenario to trigger when its result changed. */
  function ConditionOnFlag(e: ConditionEntry, flag: string, state: bool): (r: (ConditionEntry, bool, seq<Effect>))
    requires WellFormed(e.progress)
    ensures WellFormed(r.0.progress) && r.0.config == e.config && r.0.deviceId == e.deviceId
    ensures !r.1 ==> r.0 == e && r.2 == []
    ensures |r.2| <= 1
  {
    var (p, out) := FlagStep(e.config, e.progress, flag, state);
    match out
    case None => (e, false, [])
    case Some(o) =>
      var scenario := if o.result then e.config.trueScenario else e.config.falseScenario;
      (e.(progress := p), true, if o.changed && scenario != "" then [Trigger(e.deviceId, scenario)] else [])
  }

  /** A condition entry triggers the scenario of its new result exactly when
      the result changed and that scenario is set. */
  lemma ConditionTriggers(e: ConditionEntry, flag: string, state: bool)
    requires WellFormed(e.progress)
    ensures var (e1, handled, fx) := ConditionOnFlag(e, flag, state);
      var (p, out) := FlagStep(e.config, e.progress, flag, state);
      (handled <==> out.Some?)
      && (out.Some? ==> var scenario := if out.value.result then e.config.trueScenario else e.config.falseScenario;
            fx == (if out.value.changed && scenario != "" then [Trigger(e.deviceId, scenario)] else []))
  {
  }

  /** Every condition entry keeps one state per rule slot. */
  predicate CondTableOk(table: seq<Option<ConditionEntry>>) {
    forall i :: 0 <= i < |table| && table[i].Some? ==> WellFormed(table[i].value.progress)
  }

  /** The condition loop of `dm_template_runtime_handle_flag` over the first
      `n` entries. */
  function ConditionTableOnFlag(table: seq<Option<ConditionEntry>>, flag: string, state: bool, n: nat): (r: (seq<Option<ConditionEntry>>, bool, seq<Effect>))
    requires n <= |table| && CondTableOk(table)
    ensures |r.0| == |table| && CondTableOk(r.0)
    ensures forall i :: n <= i < |table| ==> r.0[i] == table[i]
    ensures |r.2| <= n
  {
    if n == 0 then (table, false, [])
    else
      var (t1, handled, fx) := ConditionTableOnFlag(table, flag, state, n - 1);
      match table[n - 1]
      case None => (t1, handled, fx)
      case Some(e) =>
        var (e2, h2, fx2) := ConditionOnFlag(e, flag, state);
        (t1[n - 1 := Some(e2)], handled || h2, fx + fx2)
  }

  /** The registry of template runtimes: the six static tables. */
  class TemplateRuntime {
    var uids: seq<Option<UidEntry>>
    var signals: seq<Option<SignalEntry>>
    var mqtts: seq<Option<MqttEntry>>
    var flags: seq<Option<FlagEntry>>
    var conditions: seq<Option<ConditionEntry>>
    var intervals: seq<Option<IntervalEntry>>

    ghost predicate Valid() reads this {
      |uids| == UID_RUNTIME_MAX && |signals| == SIGNAL_RUNTIME_MAX && |mqtts| == MQTT_RUNTIME_MAX
      && |flags| == FLAG_RUNTIME_MAX && |conditions| == CONDITION_RUNTIME_MAX
      && |intervals| == INTERVAL_RUNTIME_MAX
      && UidTableOk(uids) && CondTableOk(conditions)
    }

    /** `dm_template_runtime_init`: every table empty. */
    constructor ()
      ensures Valid()
      ensures uids == seq(UID_RUNTIME_MAX, _ => None) && signals == seq(SIGNAL_RUNTIME_MAX, _ => None)
      ensures mqtts == seq(MQTT_RUNTIME_MAX, _ => None) && flags == seq(FLAG_RUNTIME_MAX, _ => None)
      ensures conditions == seq(CONDITION_RUNTIME_MAX, _ => None) && intervals == seq(INTERVAL_RUNTIME_MAX, _ => None)
    {
      uids := seq(UID_RUNTIME_MAX, _ => None);
      signals := seq(SIGNAL_RUNTIME_MAX, _ => None);
      mqtts := seq(MQTT_RUNTIME_MAX, _ => None);
      flags := seq(FLAG_RUNTIME_MAX, _ => None);
      conditions := seq(CONDITION_RUNTIME_MAX, _ => None);
      intervals := seq(INTERVAL_RUNTIME_MAX, _ => None);
    }

    /** `dm_template_runtime_register`: after the type's guard, the runtime
        takes the first free entry of its table, or the call fails with
        ErrNoMem when the table is full. Only that one entry changes. */
    method Register(tpl: TemplateConfig, deviceId: string) returns (err: EspErr)
      requires Valid()
      modifies this
      ensures Valid()
      ensures RegisterGuard(tpl) != EspOk ==> err == RegisterGuard(tpl)
      ensures err != EspOk ==> (uids == old(uids) && signals == old(signals) && mqtts == old(mqtts)
        && flags == old(flags) && conditions == old(conditions) && intervals == old(intervals))
      ensures err == EspOk || err == ErrInvalidArg || err == ErrNotSupported || err == ErrNoMem
      ensures tpl.UidConfig? && err == EspOk ==>
        Install(old(uids), UidEntry(deviceId, tpl.uid, UidRuntimeState(UidStart, NoValues), SlotTopics(tpl.uid))) == Some(uids)
      ensures tpl.UidConfig? && RegisterGuard(tpl) == EspOk ==> (err == ErrNoMem <==> FirstFree(old(uids)).None?)
      ensures tpl.SignalConfig? && err == EspOk ==>
        Install(old(signals), SignalEntry(deviceId, tpl.signal, SignalStart, tpl.signal.heartbeatTopic, HoldIdle)) == Some(signals)
      ensures tpl.SignalConfig? && RegisterGuard(tpl) == EspOk ==> (err == ErrNoMem <==> FirstFree(old(signals)).None?)
      ensures tpl.MqttConfig? && err == EspOk ==> Install(old(mqtts), MqttEntry(deviceId, tpl.mqtt)) == Some(mqtts)
      ensures tpl.MqttConfig? && RegisterGuard(tpl) == EspOk ==> (err == ErrNoMem <==> FirstFree(old(mqtts)).None?)
      ensures tpl.FlagConfig? && err == EspOk ==> Install(old(flags), FlagEntry(deviceId, tpl.flagTpl)) == Some(flags)
      ensures tpl.FlagConfig? && RegisterGuard(tpl) == EspOk ==> (err == ErrNoMem <==> FirstFree(old(flags)).None?)
      ensures tpl.ConditionConfig? && err == EspOk ==>
        Install(old(conditions), ConditionEntry(deviceId, tpl.condition, CondProgress(seq(CONDITION_MAX_RULES, _ => Unset), false, false))) == Some(conditions)
      ensures tpl.ConditionConfig? && RegisterGuard(tpl) == EspOk ==> (err == ErrNoMem <==> FirstFree(old(conditions)).None?)
      ensures tpl.IntervalConfig? && err == EspOk ==> Install(old(intervals), IntervalEntry(deviceId, tpl.interval)) == Some(intervals)
      ensures tpl.IntervalConfig? && RegisterGuard(tpl) == EspOk ==> (err == ErrNoMem <==> FirstFree(old(intervals)).None?)
      ensures tpl.UidConfig? ==> signals == old(signals) && mqtts == old(mqtts) && flags == old(flags) && conditions == old(conditions) && intervals == old(intervals)
      ensures tpl.SignalConfig? ==> uids == old(uids) && mqtts == old(mqtts) && flags == old(flags) && conditions == old(conditions) && intervals == old(intervals)
      ensures tpl.MqttConfig? ==> uids == old(uids) && signals == old(signals) && flags == old(flags) && conditions == old(conditions) && intervals == old(intervals)
      ensures tpl.FlagConfig? ==> uids == old(uids) && signals == old(signals) && mqtts == old(mqtts) && conditions == old(conditions) && intervals == old(intervals)
      ensures tpl.ConditionConfig? ==> uids == old(uids) && signals == old(signals) && mqtts == old(mqtts) && flags == old(flags) && intervals == old(intervals)
      ensures tpl.IntervalConfig? ==> uids == old(uids) && signals == old(signals) && mqtts == old(mqtts) && flags == old(flags) && conditions == old(conditions)
    {
      err := RegisterGuard(tpl);
      if err != EspOk {
        return;
      }
      match tpl
      case UidConfig(u) =>
        var slot := Allocate(uids);
        if slot.None? { return ErrNoMem; }
        uids := uids[slot.value := Some(UidEntry(deviceId, u, UidRuntimeState(UidStart, NoValues), SlotTopics(u)))];
      case SignalConfig(s) =>
        var slot := Allocate(signals);
        if slot.None? { return ErrNoMem; }
        signals := signals[slot.value := Some(SignalEntry(deviceId, s, SignalStart, s.heartbeatTopic, HoldIdle))];
      case MqttConfig(m) =>
        var slot := Allocate(mqtts);
        if slot.None? { return ErrNoMem; }
        mqtts := mqtts[slot.value := Some(MqttEntry(deviceId, m))];
      case FlagConfig(f) =>
        var slot := Allocate(flags);
        if slot.None? { return ErrNoMem; }
        flags := flags[slot.value := Some(FlagEntry(deviceId, f))];
      case ConditionConfig(c) =>
        var slot := Allocate(conditions);
        if slot.None? { return ErrNoMem; }
        conditions := conditions[slot.value := Some(ConditionEntry(deviceId, c, CondProgress(seq(CONDITION_MAX_RULES, _ => Unset), false, false)))];
      case IntervalConfig(i) =>
        var slot := Allocate(intervals);
        if slot.None? { return ErrNoMem; }
        intervals := intervals[slot.value := Some(IntervalEntry(deviceId, i))];
    }

    /** `handle_uid_message`: every UID entry that listens on the topic
        handles the value; returns whether any did, and the effects. */
    method HandleUidMessage(topic: string, payload: string) returns (handled: bool, fx: seq<Effect>)
      requires Valid()
      modifies this
      ensures Valid() && signals == old(signals) && mqtts == old(mqtts) && flags == old(flags)
        && conditions == old(conditions) && intervals == old(intervals)
      ensures (uids, handled, fx) == UidTableOnMessage(old(uids), topic, payload, |old(uids)|)
    {
      var table := uids;
      handled, fx := false, [];
      var i := 0;
      while i < |table|
        invariant unchanged(this)
        invariant 0 <= i <= |table| == |uids|
        invariant (table, handled, fx) == UidTableOnMessage(uids, topic, payload, i)
        invariant UidTableOk(table)
      {
        if table[i].Some? {
          assert table[i] == uids[i];
          var e, h, efx := UidEntryOnMessage(table[i].value, topic, payload);
          table := table[i := Some(e)];
          handled := handled || h;
          fx := fx + efx;
        }
        i := i + 1;
      }
      uids := table;
    }

    /** The condition part of `dm_template_runtime_handle_flag`. */
    method HandleConditionFlag(flag: string, state: bool) returns (handled: bool, fx: seq<Effect>)
      requires Valid()
      modifies this
      ensures Valid() && uids == old(uids) && signals == old(signals) && mqtts == old(mqtts)
        && flags == old(flags) && intervals == old(intervals)
      ensures (conditions, handled, fx) == ConditionTableOnFlag(old(conditions), flag, state, |old(conditions)|)
    {
      var table := conditions;
      handled, fx := false, [];
      var i := 0;
      while i < |table|
        invariant 0 <= i <= |table| == |conditions|
        invariant (table, handled, fx) == ConditionTableOnFlag(conditions, flag, state, i)
        invariant CondTableOk(table)
      {
        if table[i].Some? {
          var (e2, h2, fx2) := ConditionOnFlag(table[i].value, flag, state);
          table := table[i := Some(e2)];
          handled := handled || h2;
          fx := fx + fx2;
        }
        i := i + 1;
      }
      conditions := table;
    }

    /** `dm_template_runtime_get_uid_snapshot`. */
    method GetUidSnapshot(deviceId: string) returns (r: Result)
      requires Valid()
      ensures r == UidSnapshot(uids, deviceId)
    {
      var i := 0;
      while i < |uids|
        invariant 0 <= i <= |uids|
        invariant UidSnapshotFrom(uids, deviceId, i) == UidSnapshot(uids, deviceId)
      {
        if uids[i].Some? && uids[i].value.deviceId == deviceId {
          return Found(SnapshotOf(uids[i].value));
        }
        i := i + 1;
      }
      return NotFound;
    }
  }

  /** One slot of `dm_uid_runtime_snapshot_t`. */
  datatype SlotSnapshot = SlotSnapshot(sourceId: string, title: string, hasValue: bool, lastValue: string)

  datatype UidSnapshotData = UidSnapshotData(deviceId: string, slots: seq<SlotSnapshot>)

  /** The outcome of a snapshot request: the data, or ESP_ERR_NOT_FOUND. */
  datatype Result = Found(data: UidSnapshotData) | NotFound

  /** The snapshot of one entry: at most UID_MAX_SLOTS slots, each with its
      last value when it has one. */
  function SnapshotOf(e: UidEntry): (s: UidSnapshotData)
    requires |e.state.slots| == UID_MAX_SLOTS
    ensures s.deviceId == e.deviceId && |s.slots| == Min(|e.config.slots|, UID_MAX_SLOTS)
    ensures forall k :: 0 <= k < |s.slots| ==>
      s.slots[k].sourceId == e.config.slots[k].sourceId && s.slots[k].title == e.config.slots[k].title
      && s.slots[k].hasValue == e.state.slots[k].hasValue
      && s.slots[k].lastValue == (if e.state.slots[k].hasValue then e.state.slots[k].value else "")
  {
    var n := Min(|e.config.slots|, UID_MAX_SLOTS);
    UidSnapshotData(e.deviceId, seq(n, k requires 0 <= k < n =>
      var v := e.state.slots[k];
      SlotSnapshot(e.config.slots[k].sourceId, e.config.slots[k].title, v.hasValue, if v.hasValue then v.value else "")))
  }

  /** The first entry at or after `i` registered for `deviceId` (exact match). */
  function UidSnapshotFrom(table: seq<Option<UidEntry>>, deviceId: string, i: nat): (r: Result)
    requires i <= |table| && UidTableOk(table)
    ensures r.NotFound? <==> forall k :: i <= k < |table| ==> !(table[k].Some? && table[k].value.deviceId == deviceId)
    ensures r.Found? ==> exists k :: (i <= k < |table| && table[k].Some? && table[k].value.deviceId == deviceId
      && r.data == SnapshotOf(table[k].value))
    decreases |table| - i
  {
    if i == |table| then NotFound
    else if table[i].Some? && table[i].value.deviceId == deviceId then Found(SnapshotOf(table[i].value))
    else UidSnapshotFrom(table, deviceId, i + 1)
  }

  function UidSnapshot(table: seq<Option<UidEntry>>, deviceId: string): (r: Result)
    requires UidTableOk(table)
  {
    UidSnapshotFrom(table, deviceId, 0)
  }
}
