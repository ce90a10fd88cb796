/** The flag condition evaluator (`dm_runtime_condition.c`): each rule of an
    if-condition template watches one automation flag; the condition is
    re-evaluated whenever one of its flags changes. */
module RuntimeCondition {
  import opened Common
  import opened DmTypes

  /** The observed state of one rule; a rule never reported is not `valid`. */
  datatype RuleState = RuleState(valid: bool, state: bool)

  const Unset: RuleState := RuleState(false, false)

  /** The number of rules the loops visit. */
  function RuleCount(cfg: ConditionTemplate): (n: nat)
    ensures n <= CONDITION_MAX_RULES && n <= |cfg.rules|
    ensures n == |cfg.rules| || n == CONDITION_MAX_RULES
  {
    Min(|cfg.rules|, CONDITION_MAX_RULES)
  }

  /** A rule holds when its flag, reading an unset flag as false, has the
      required state. */
  predicate RuleHolds(rule: ConditionRule, s: RuleState) {
    (s.valid && s.state) == rule.requiredState
  }

  /** The fold of `evaluate_condition` over rules `i..n`: (some rule holds,
      every rule holds, every rule is set). */
  function Fold(rules: seq<ConditionRule>, states: seq<RuleState>, i: nat, n: nat): (r: (bool, bool, bool))
    requires i <= n <= |rules| && n <= |states|
    ensures r.0 <==> exists j :: i <= j < n && RuleHolds(rules[j], states[j])
    ensures r.1 <==> forall j :: i <= j < n ==> RuleHolds(rules[j], states[j])
    ensures r.2 <==> forall j :: i <= j < n ==> states[j].valid
    decreases n - i
  {
    if i == n then (false, true, true)
    else
      var (anyT, allT, ready) := Fold(rules, states, i + 1, n);
      var m := RuleHolds(rules[i], states[i]);
      (anyT || m, allT && m, ready && states[i].valid)
  }

  /** `evaluate_condition`: (result, ready). With no rules the condition is
      false and not ready. */
  function Evaluate(cfg: ConditionTemplate, states: seq<RuleState>): (r: (bool, bool))
    requires |states| == CONDITION_MAX_RULES
  {
    var n := RuleCount(cfg);
    if n == 0 then (false, false)
    else
      var (anyT, allT, ready) := Fold(cfg.rules, states, 0, n);
      (if cfg.mode == All then allT else anyT, ready)
  }

  /** ALL holds iff every rule holds, ANY iff some rule does; a template
      without rules is false; ready iff every rule has been reported. */
  lemma EvaluateMeaning(cfg: ConditionTemplate, states: seq<RuleState>)
    requires |states| == CONDITION_MAX_RULES
    ensures var n := RuleCount(cfg);
      var (result, ready) := Evaluate(cfg, states);
      (n == 0 ==> !result && !ready)
      && (n > 0 && cfg.mode == All ==> (result <==> forall j :: 0 <= j < n ==> RuleHolds(cfg.rules[j], states[j])))
      && (n > 0 && cfg.mode == Any ==> (result <==> exists j :: 0 <= j < n && RuleHolds(cfg.rules[j], states[j])))
      && (ready <==> n > 0 && forall j :: 0 <= j < n ==> states[j].valid)
  {
  }

  /** Rule `i` watches `flag`. */
  predicate Watches(cfg: ConditionTemplate, i: nat, flag: string) {
    i < RuleCount(cfg) && cfg.rules[i].flag != "" && EqualsIgnoreCase(cfg.rules[i].flag, flag)
  }

  /** The rule states after `flag` was reported as `newState`. */
  function Report(cfg: ConditionTemplate, states: seq<RuleState>, flag: string, newState: bool): (r: seq<RuleState>)
    requires |states| == CONDITION_MAX_RULES
    ensures |r| == CONDITION_MAX_RULES
    ensures forall i :: 0 <= i < |r| ==> r[i] == (if Watches(cfg, i, flag) then RuleState(true, newState) else states[i])
  {
    seq(CONDITION_MAX_RULES, i requires 0 <= i < CONDITION_MAX_RULES =>
      if Watches(cfg, i, flag) then RuleState(true, newState) else states[i])
  }

  /** The runtime state: rule states and the last result, if any. */
  datatype CondProgress = CondProgress(states: seq<RuleState>, lastResult: bool, hasLastResult: bool)

  /** What `dm_condition_runtime_handle_flag` reports when it returns true. */
  datatype CondOutcome = CondOutcome(changed: bool, result: bool)

  predicate WellFormed(p: CondProgress) { |p.states| == CONDITION_MAX_RULES }

  /** `dm_condition_runtime_handle_flag` on the state value: None when the
      flag name is empty or no rule watches it. */
  function FlagStep(cfg: ConditionTemplate, p: CondProgress, flag: string, newState: bool): (CondProgress, Option<CondOutcome>)
    requires WellFormed(p)
  {
    if flag == "" || !exists i :: 0 <= i < CONDITION_MAX_RULES && Watches(cfg, i, flag) then (p, None)
    else
      var states := Report(cfg, p.states, flag, newState);
      var result := Evaluate(cfg, states).0;
      var changed := !p.hasLastResult || result != p.lastResult;
      (CondProgress(states, result, true), Some(CondOutcome(changed, result)))
  }

  /** A flag no rule watches changes nothing and reports nothing. */
  lemma UnwatchedFlagIgnored(cfg: ConditionTemplate, p: CondProgress, flag: string, newState: bool)
    requires WellFormed(p)
    requires forall i :: 0 <= i < CONDITION_MAX_RULES ==> !Watches(cfg, i, flag)
    ensures FlagStep(cfg, p, flag, newState) == (p, None)
  {
  }

  /** After a report, every rule watching the flag is set to the new state,
      every other rule keeps its state, and the result is the evaluation of
      the new states; `changed` is set on the first evaluation or when the
      result flips. */
  lemma ReportOutcome(cfg: ConditionTemplate, p: CondProgress, flag: string, newState: bool, i: nat)
    requires WellFormed(p) && flag != "" && i < CONDITION_MAX_RULES && Watches(cfg, i, flag)
    ensures var (q, out) := FlagStep(cfg, p, flag, newState);
      out.Some? && q.hasLastResult && q.lastResult == out.value.result
      && q.states[i] == RuleState(true, newState)
      && (forall j :: 0 <= j < CONDITION_MAX_RULES && !Watches(cfg, j, flag) ==> q.states[j] == p.states[j])
      && out.value.result == Evaluate(cfg, q.states).0
      && (out.value.changed <==> !p.hasLastResult || out.value.result != p.lastResult)
  {
  }

  /** Reporting the same flag state twice in a row never reports a change
      the second time. */
  lemma RepeatUnchanged(cfg: ConditionTemplate, p: CondProgress, flag: string, newState: bool)
    requires WellFormed(p)
    ensures var (q, _) := FlagStep(cfg, p, flag, newState);
      WellFormed(q) && (FlagStep(cfg, q, flag, newState).1.Some? ==> !FlagStep(cfg, q, flag, newState).1.value.changed)
  {
    var (q, out) := FlagStep(cfg, p, flag, newState);
    if out.Some? {
      var states2 := Report(cfg, q.states, flag, newState);
      assert states2 == q.states;
    }
  }

  /** The runtime of one if-condition device (`dm_condition_runtime_t`). The
      per-rule copy of the flag names that init makes is not kept: the
      handler only reads the configured names. */
  class ConditionRuntime {
    var config: ConditionTemplate
    var states: seq<RuleState>
    var lastResult: bool
    var hasLastResult: bool

    function Progress(): CondProgress reads this { CondProgress(states, lastResult, hasLastResult) }

    ghost predicate Valid() reads this { WellFormed(Progress()) }

    /** `dm_condition_runtime_init`: every rule unset, no last result. */
    constructor (tpl: ConditionTemplate)
      ensures Valid() && config == tpl
      ensures Progress() == CondProgress(seq(CONDITION_MAX_RULES, _ => Unset), false, false)
    {
      config := tpl;
      states := seq(CONDITION_MAX_RULES, _ => Unset);
      lastResult, hasLastResult := false, false;
    }

    /** `dm_condition_runtime_handle_flag`: returns None where the source
        returns false. */
    method HandleFlag(flag: string, newState: bool) returns (out: Option<CondOutcome>)
      requires Valid()
      modifies this
      ensures Valid() && config == old(config)
      ensures (Progress(), out) == FlagStep(config, old(Progress()), flag, newState)
    {
      if flag == "" {
        return None;
      }
      var n := Min(|config.rules|, CONDITION_MAX_RULES);
      var matched := false;
      var i := 0;
      var s := states;
      while i < n
        invariant 0 <= i <= n && n == RuleCount(config) && |s| == CONDITION_MAX_RULES
        invariant forall j :: 0 <= j < i ==> s[j] == (if Watches(config, j, flag) then RuleState(true, newState) else states[j])
        invariant forall j :: i <= j < CONDITION_MAX_RULES ==> s[j] == states[j]
        invariant matched <==> exists j :: 0 <= j < i && Watches(config, j, flag)
      {
        assert Watches(config, i, flag) <==> config.rules[i].flag != "" && EqualsIgnoreCase(config.rules[i].flag, flag);
        if config.rules[i].flag != "" && EqualsIgnoreCase(config.rules[i].flag, flag) {
          s := s[i := RuleState(true, newState)];
          matched := true;
        }
        i := i + 1;
      }
      if !matched {
        assert forall j :: 0 <= j < CONDITION_MAX_RULES ==> !Watches(config, j, flag);
        return None;
      }
      assert s == Report(config, states, flag, newState);
      states := s;
      var result := EvaluateLoop(config, states);
      var changed := !hasLastResult || result != lastResult;
      lastResult, hasLastResult := result, true;
      out := Some(CondOutcome(changed, result));
    }
  }

  /** The loop of `evaluate_condition`, computing the result. */
  method EvaluateLoop(cfg: ConditionTemplate, states: seq<RuleState>) returns (result: bool)
    requires |states| == CONDITION_MAX_RULES
    ensures result == Evaluate(cfg, states).0
  {
    var n := Min(|cfg.rules|, CONDITION_MAX_RULES);
    if n == 0 {
      return false;
    }
    var anyTrue, allTrue := false, true;
    var i := 0;
    while i < n
      invariant 0 <= i <= n == RuleCount(cfg)
      invariant anyTrue <==> exists j :: 0 <= j < i && RuleHolds(cfg.rules[j], states[j])
      invariant allTrue <==> forall j :: 0 <= j < i ==> RuleHolds(cfg.rules[j], states[j])
    {
      var state := states[i].valid && states[i].state;
      var matches := state == cfg.rules[i].requiredState;
      anyTrue := anyTrue || matches;
      allTrue := allTrue && matches;
      i := i + 1;
    }
    result := if cfg.mode == All then allTrue else anyTrue;
  }
}
