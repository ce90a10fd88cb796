/** The ordered sequence lock (`dm_runtime_sequence.c`): MQTT messages must
    arrive in the order of the template's steps, optionally within a timeout
    between steps. */
module RuntimeSequence {
  import opened Common
  import opened DmTypes

  /** `payload_matches`: a step without a payload accepts any payload unless
      it requires one; otherwise the payloads must be equal. */
  function PayloadMatches(step: SequenceStep, payload: string): (r: bool)
    ensures step.payload == "" ==> r == !step.payloadRequired
    ensures step.payload != "" ==> (r <==> step.payload == payload)
  {
    if step.payload == "" then !step.payloadRequired else step.payload == payload
  }

  /** `step_matches`: a non-empty topic equal to the step's, and a matching
      payload. */
  function StepMatches(step: SequenceStep, topic: string, payload: string): (r: bool)
    ensures r <==> topic != "" && step.topic == topic && PayloadMatches(step, payload)
  {
    if topic == "" || step.topic == "" || step.topic != topic then false
    else PayloadMatches(step, payload)
  }

  /** The index of the first of at most SEQUENCE_MAX_STEPS steps that
      matches, at or after `i`. */
  function FirstMatch(steps: seq<SequenceStep>, topic: string, payload: string, i: nat): (r: Option<nat>)
    requires i <= SEQUENCE_MAX_STEPS
    ensures r.Some? ==> (i <= r.value < |steps| && r.value < SEQUENCE_MAX_STEPS
      && StepMatches(steps[r.value], topic, payload))
    ensures r.Some? ==> forall j :: i <= j < r.value ==> !StepMatches(steps[j], topic, payload)
    ensures r.None? ==> forall j :: i <= j < |steps| && j < SEQUENCE_MAX_STEPS ==> !StepMatches(steps[j], topic, payload)
    decreases SEQUENCE_MAX_STEPS - i
  {
    if i >= |steps| || i >= SEQUENCE_MAX_STEPS then None
    else if StepMatches(steps[i], topic, payload) then Some(i)
    else FirstMatch(steps, topic, payload, i + 1)
  }

  datatype SequenceEventType = SeqNone | StepOk | SeqCompleted | SeqFailed

  /** `dm_sequence_action_t`; `step` is the index of the matched step. */
  datatype SequenceAction = SequenceAction(kind: SequenceEventType, step: Option<nat>, timeout: bool)

  /** `current_index` and `last_step_ms`. */
  datatype SeqProgress = SeqProgress(index: nat, lastStepMs: nat)

  const SeqStart: SeqProgress := SeqProgress(0, 0)

  /** `expired`: a timeout is set, some progress was made at a known time,
      and more than the timeout has passed since. */
  predicate Expired(cfg: SequenceTemplate, p: SeqProgress, now: nat) {
    cfg.timeoutMs > 0 && p.index > 0 && p.lastStepMs > 0 && now > p.lastStepMs
    && now - p.lastStepMs > cfg.timeoutMs
  }

  /** `dm_sequence_runtime_handle` on the progress value. */
  function Handle(cfg: SequenceTemplate, p: SeqProgress, topic: string, payload: string, now: nat): (SeqProgress, SequenceAction)
  {
    var none := SequenceAction(SeqNone, None, false);
    if topic == "" || |cfg.steps| == 0 then (p, none)
    else if Expired(cfg, p, now) then (SeqStart, SequenceAction(SeqFailed, None, true))
    else match FirstMatch(cfg.steps, topic, payload, 0)
      case None => (p, none)
      case Some(m) =>
        if m != p.index then
          (if cfg.resetOnError then (SeqStart, SequenceAction(SeqFailed, Some(m), false))
           else (p, SequenceAction(SeqNone, Some(m), false)))
        else if p.index + 1 >= |cfg.steps| then (SeqStart, SequenceAction(SeqCompleted, Some(m), false))
        else (SeqProgress(p.index + 1, now), SequenceAction(StepOk, Some(m), false))
  }

  /** The position stays inside the step list. */
  predicate InRange(cfg: SequenceTemplate, p: SeqProgress) {
    p.index == 0 || p.index < |cfg.steps|
  }

  /** Handling a message keeps the position in range. */
  lemma HandleInRange(cfg: SequenceTemplate, p: SeqProgress, topic: string, payload: string, now: nat)
    requires InRange(cfg, p)
    ensures InRange(cfg, Handle(cfg, p, topic, payload, now).0)
  {
  }

  /** An empty topic or a template without steps changes nothing. */
  lemma IgnoredMessages(cfg: SequenceTemplate, p: SeqProgress, topic: string, payload: string, now: nat)
    requires topic == "" || |cfg.steps| == 0
    ensures Handle(cfg, p, topic, payload, now) == (p, SequenceAction(SeqNone, None, false))
  {
  }

  /** After a step, a message that comes later than the timeout fails the
      sequence by timeout and restarts it, whatever the message is. */
  lemma TimeoutFails(cfg: SequenceTemplate, p: SeqProgress, topic: string, payload: string, now: nat)
    requires topic != "" && |cfg.steps| > 0 && Expired(cfg, p, now)
    ensures Handle(cfg, p, topic, payload, now) == (SeqStart, SequenceAction(SeqFailed, None, true))
  {
  }

  /** The outcome of a message that matches step `m` (the first matching
      one): the expected step advances the position, or completes and
      restarts the sequence when it is the last; any other step fails and
      restarts it when `reset_on_error` is set and is ignored otherwise. */
  lemma MatchOutcome(cfg: SequenceTemplate, p: SeqProgress, topic: string, payload: string, now: nat, m: nat)
    requires topic != "" && |cfg.steps| > 0 && !Expired(cfg, p, now)
    requires FirstMatch(cfg.steps, topic, payload, 0) == Some(m)
    ensures var (q, a) := Handle(cfg, p, topic, payload, now);
      a.step == Some(m) && !a.timeout
      && (m == p.index && m + 1 < |cfg.steps| ==> a.kind == StepOk && q == SeqProgress(m + 1, now))
      && (m == p.index && m + 1 >= |cfg.steps| ==> a.kind == SeqCompleted && q == SeqStart)
      && (m != p.index && cfg.resetOnError ==> a.kind == SeqFailed && q == SeqStart)
      && (m != p.index && !cfg.resetOnError ==> a.kind == SeqNone && q == p)
  {
  }

  /** A message that matches no step changes nothing. */
  lemma NoMatchIgnored(cfg: SequenceTemplate, p: SeqProgress, topic: string, payload: string, now: nat)
    requires !Expired(cfg, p, now) && FirstMatch(cfg.steps, topic, payload, 0).None?
    ensures Handle(cfg, p, topic, payload, now).0 == p
    ensures Handle(cfg, p, topic, payload, now).1.kind == SeqNone
  {
  }

  /** With distinct step topics and no timeout, the message that is exactly
      the expected step's topic and payload advances the sequence, and the
      last one completes it. */
  lemma ExpectedStepAdvances(cfg: SequenceTemplate, k: nat, now: nat)
    requires 0 < |cfg.steps| <= SEQUENCE_MAX_STEPS && cfg.timeoutMs == 0 && k < |cfg.steps|
    requires forall i :: 0 <= i < |cfg.steps| ==> cfg.steps[i].topic != ""
    requires !(cfg.steps[k].payload == "" && cfg.steps[k].payloadRequired)
    requires forall i, j :: 0 <= i < j < |cfg.steps| ==> cfg.steps[i].topic != cfg.steps[j].topic
    ensures var s := cfg.steps[k];
      var (q, a) := Handle(cfg, SeqProgress(k, now), s.topic, s.payload, now + 1);
      (k + 1 < |cfg.steps| ==> a.kind == StepOk && q == SeqProgress(k + 1, now + 1))
      && (k + 1 == |cfg.steps| ==> a.kind == SeqCompleted && q == SeqStart)
  {
    var s := cfg.steps[k];
    FirstMatchIs(cfg.steps, s.topic, s.payload, k);
  }

  /** The first matching step is `k` when no earlier step has the topic. */
  lemma FirstMatchIs(steps: seq<SequenceStep>, topic: string, payload: string, k: nat)
    requires k < |steps| <= SEQUENCE_MAX_STEPS && StepMatches(steps[k], topic, payload)
    requires forall j :: 0 <= j < k ==> steps[j].topic != topic
    ensures FirstMatch(steps, topic, payload, 0) == Some(k)
  {
  }

  /** The runtime of one sequence-lock device (`dm_sequence_runtime_t`). */
  class SequenceRuntime {
    var config: SequenceTemplate
    var currentIndex: nat
    var lastStepMs: nat

    function Progress(): SeqProgress reads this { SeqProgress(currentIndex, lastStepMs) }

    ghost predicate Valid() reads this { InRange(config, Progress()) }

    /** `dm_sequence_runtime_init`. */
    constructor (tpl: SequenceTemplate)
      ensures Valid() && config == tpl && Progress() == SeqStart
    {
      config := tpl;
      currentIndex, lastStepMs := 0, 0;
    }

    /** `dm_sequence_runtime_reset`. */
    method Reset()
      modifies this
      ensures config == old(config) && Progress() == SeqStart && Valid()
    {
      currentIndex, lastStepMs := 0, 0;
    }

    /** `dm_sequence_runtime_handle`. */
    method HandleMessage(topic: string, payload: string, now: nat) returns (action: SequenceAction)
      requires Valid()
      modifies this
      ensures Valid() && config == old(config)
      ensures (Progress(), action) == Handle(config, old(Progress()), topic, payload, now)
    {
      action := SequenceAction(SeqNone, None, false);
      if topic == "" || |config.steps| == 0 {
        return;
      }
      if config.timeoutMs > 0 && currentIndex > 0 && lastStepMs > 0 && now > lastStepMs
         && now - lastStepMs > config.timeoutMs {
        Reset();
        action := SequenceAction(SeqFailed, None, true);
        return;
      }
      var matchIndex := -1;
      var i := 0;
      while i < |config.steps| && i < SEQUENCE_MAX_STEPS
        invariant 0 <= i <= SEQUENCE_MAX_STEPS
        invariant matchIndex == -1
        invariant FirstMatch(config.steps, topic, payload, i) == FirstMatch(config.steps, topic, payload, 0)
        decreases SEQUENCE_MAX_STEPS - i
      {
        if StepMatches(config.steps[i], topic, payload) {
          matchIndex := i;
          break;
        }
        i := i + 1;
      }
      if matchIndex < 0 {
        return;
      }
      action := action.(step := Some(matchIndex));
      if matchIndex != currentIndex {
        if !config.resetOnError {
          return;
        }
        Reset();
        action := action.(kind := SeqFailed);
        return;
      }
      currentIndex := currentIndex + 1;
      lastStepMs := now;
      if currentIndex >= |config.steps| {
        Reset();
        action := action.(kind := SeqCompleted);
      } else {
        action := action.(kind := StepOk);
      }
    }
  }
}
