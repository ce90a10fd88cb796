/** Template data helpers and the two template state machines of
    `dm_templates.c`: the UID validator (which sources reported which
    identifier) and the signal-hold accumulator (how long a heartbeat has
    been held). */
module DmTemplates {
  import opened Common
  import opened DmTypes

  // ---------------------------------------------------------------- clears

  /** `dm_uid_template_clear`: no slots, every string empty. */
  function UidClear(): (t: UidTemplate)
    ensures t.slots == [] && t.successTopic == "" && t.failTopic == ""
  {
    UidTemplate([], "", "", "", "", "", "", "", "", "", "", "", "", "", "")
  }

  /** `dm_signal_template_clear`: everything zero except a 1000 ms
      heartbeat timeout. */
  function SignalClear(): (t: SignalTemplate)
    ensures t.heartbeatTimeoutMs == 1000 && t.requiredHoldMs == 0 && t.signalOnMs == 0
    ensures t.signalTopic == "" && t.heartbeatTopic == "" && !t.holdTrackLoop
  {
    SignalTemplate("", "", "", 0, "", 0, 1000, "", false, "")
  }

  /** `dm_condition_template_clear`: mode ALL, no rules. */
  function ConditionClear(): (t: ConditionTemplate)
    ensures t.mode == All && t.rules == [] && t.trueScenario == "" && t.falseScenario == ""
  {
    ConditionTemplate(All, [], "", "")
  }

  /** `dm_interval_task_template_clear`: 1000 ms, no scenario. */
  function IntervalClear(): (t: IntervalTemplate)
    ensures t.intervalMs == 1000 && t.scenario == ""
  {
    IntervalTemplate(1000, "")
  }

  /** `dm_sequence_template_clear`: no steps, no timeout, reset on error. */
  function SequenceClear(): (t: SequenceTemplate)
    ensures t.steps == [] && t.timeoutMs == 0 && t.resetOnError
  {
    SequenceTemplate([], 0, true, "", "", "", "", "", "", "", "")
  }

  // ------------------------------------------------------------ UID slots

  const EmptySlot: UidSlot := UidSlot("", "", [])

  /** Whether one of the first `n` values of `values` equals `value`. */
  predicate HasValue(values: seq<string>, n: nat, value: string)
  {
    exists i :: 0 <= i < n && i < |values| && values[i] != "" && EqualsIgnoreCase(values[i], value)
  }

  /** `uid_matches`: is `value` one of the slot's values, ignoring case? An
      empty value never matches; at most UID_MAX_VALUES values are read. */
  function UidMatches(slot: UidSlot, value: string): (r: bool)
    ensures r <==> value != "" && HasValue(slot.values, UID_MAX_VALUES, value)
  {
    value != "" && MatchFrom(slot.values, 0, value)
  }

  function MatchFrom(values: seq<string>, i: nat, value: string): (r: bool)
    requires i <= UID_MAX_VALUES
    ensures r <==> exists k :: i <= k < UID_MAX_VALUES && k < |values| && values[k] != "" && EqualsIgnoreCase(values[k], value)
    decreases UID_MAX_VALUES - i
  {
    if i >= UID_MAX_VALUES || i >= |values| then false
    else if values[i] != "" && EqualsIgnoreCase(values[i], value) then true
    else MatchFrom(values, i + 1, value)
  }

  /** `find_slot_index`: the first slot (of at most UID_MAX_SLOTS) whose
      non-empty source equals `source` ignoring case. */
  function FindSlotIndex(tpl: UidTemplate, source: string): (r: Option<nat>)
    ensures r.Some? ==> (r.value < |tpl.slots| && r.value < UID_MAX_SLOTS && source != ""
      && tpl.slots[r.value].sourceId != "" && EqualsIgnoreCase(tpl.slots[r.value].sourceId, source))
    ensures r.Some? ==> forall j :: 0 <= j < r.value ==>
      !(tpl.slots[j].sourceId != "" && EqualsIgnoreCase(tpl.slots[j].sourceId, source))
    ensures r.None? && source != "" ==> forall j :: 0 <= j < |tpl.slots| && j < UID_MAX_SLOTS ==>
      !(tpl.slots[j].sourceId != "" && EqualsIgnoreCase(tpl.slots[j].sourceId, source))
  {
    if source == "" then None else SlotFrom(tpl.slots, 0, source)
  }

  function SlotFrom(slots: seq<UidSlot>, i: nat, source: string): (r: Option<nat>)
    requires i <= UID_MAX_SLOTS
    ensures r.Some? ==> (i <= r.value < |slots| && r.value < UID_MAX_SLOTS
      && slots[r.value].sourceId != "" && EqualsIgnoreCase(slots[r.value].sourceId, source))
    ensures r.Some? ==> forall j :: i <= j < r.value ==> !(slots[j].sourceId != "" && EqualsIgnoreCase(slots[j].sourceId, source))
    ensures r.None? ==> forall j :: i <= j < |slots| && j < UID_MAX_SLOTS ==>
      !(slots[j].sourceId != "" && EqualsIgnoreCase(slots[j].sourceId, source))
    decreases UID_MAX_SLOTS - i
  {
    if i >= UID_MAX_SLOTS || i >= |slots| then None
    else if slots[i].sourceId != "" && EqualsIgnoreCase(slots[i].sourceId, source) then Some(i)
    else SlotFrom(slots, i + 1, source)
  }

  /** `dm_uid_template_set_slot`: refused (None) for an index past the table
      or an empty source; otherwise that slot is replaced by a fresh slot
      and `slot_count` becomes max(count, index + 1). The slots skipped over
      stay empty. */
  function SetSlot(tpl: UidTemplate, index: nat, source: string, title: string): (r: Option<UidTemplate>)
    ensures r.None? <==> index >= UID_MAX_SLOTS || source == ""
    ensures r.Some? ==>
      |r.value.slots| == Max(|tpl.slots|, index + 1)
      && r.value.slots[index] == UidSlot(source, title, [])
      && (forall j :: 0 <= j < |r.value.slots| && j != index ==>
            r.value.slots[j] == (if j < |tpl.slots| then tpl.slots[j] else EmptySlot))
      && r.value == tpl.(slots := r.value.slots)
  {
    if index >= UID_MAX_SLOTS || source == "" then None
    else
      var padded := if index < |tpl.slots| then tpl.slots
                    else tpl.slots + seq(index + 1 - |tpl.slots|, _ => EmptySlot);
      Some(tpl.(slots := padded[index := UidSlot(source, title, [])]))
  }

  /** `dm_uid_template_add_value`: refused (None) for an index past the
      table, an empty value, a slot without a source or a slot already
      holding UID_MAX_VALUES values; otherwise the value is appended and
      nothing else changes. */
  function AddValue(tpl: UidTemplate, index: nat, value: string): (r: Option<UidTemplate>)
    ensures r.None? <==> (index >= UID_MAX_SLOTS || value == "" || index >= |tpl.slots|
      || tpl.slots[index].sourceId == "" || |tpl.slots[index].values| >= UID_MAX_VALUES)
    ensures r.Some? ==> r.value == tpl.(slots := tpl.slots[index := tpl.slots[index].(values := tpl.slots[index].values + [value])])
  {
    if index >= UID_MAX_SLOTS || value == "" || index >= |tpl.slots| then None
    else
      var slot := tpl.slots[index];
      if slot.sourceId == "" || |slot.values| >= UID_MAX_VALUES then None
      else Some(tpl.(slots := tpl.slots[index := slot.(values := slot.values + [value])]))
  }

  /** A value added to a slot is then matched by that slot. */
  lemma AddedValueMatches(tpl: UidTemplate, index: nat, value: string, spelled: string)
    requires AddValue(tpl, index, value).Some? && EqualsIgnoreCase(spelled, value) && spelled != ""
    ensures UidMatches(AddValue(tpl, index, value).value.slots[index], spelled)
  {
    var s := AddValue(tpl, index, value).value.slots[index];
    var k := |tpl.slots[index].values|;
    EqualsIgnoreCaseFacts(spelled, value, spelled);
    assert s.values[k] == value;
  }

  // ----------------------------------------------------------- bitmaps

  /** Bit `i` of a one-byte slot bitmap (`slot_marked_ok`/`slot_marked_seen`). */
  predicate Bit(b: bv8, i: nat)
    requires i < 8
  {
    (b >> i) & 1 == 1
  }

  /** `slot_set_ok`/`slot_set_seen`: sets bit `i` and no other. */
  function SetBit(b: bv8, i: nat): (r: bv8)
    requires i < 8
    ensures Bit(r, i)
    ensures forall j :: 0 <= j < 8 && j != i ==> Bit(r, j) == Bit(b, j)
  {
    b | (1 << i)
  }

  /** The number of set bits among bits 0..n-1. */
  function Count(b: bv8, n: nat): (c: nat)
    requires n <= 8
    ensures c <= n
  {
    if n == 0 then 0 else Count(b, n - 1) + (if Bit(b, n - 1) then 1 else 0)
  }

  lemma {:induction false} CountSetBit(b: bv8, i: nat, n: nat)
    requires i < 8 && n <= 8 && !Bit(b, i)
    ensures Count(SetBit(b, i), n) == Count(b, n) + (if i < n then 1 else 0)
  {
    if n > 0 {
      CountSetBit(b, i, n - 1);
    }
  }

  lemma {:induction false} CountZero(n: nat)
    requires n <= 8
    ensures Count(0, n) == 0
  {
    if n > 0 {
      CountZero(n - 1);
    }
  }

  /** Bits set in `a` are set in `b`. */
  predicate Subset(a: bv8, b: bv8) {
    forall j :: 0 <= j < 8 ==> Bit(a, j) ==> Bit(b, j)
  }

  // ------------------------------------------------------ UID validation

  datatype UidEventType = UidNone | Accepted | Duplicate | Invalid | Success

  /** `dm_uid_event_t`; `slot` is the index of the reporting slot. */
  datatype UidEvent = UidEvent(kind: UidEventType, slot: Option<nat>)

  /** The fields of `dm_uid_state_t` that `dm_templates.c` uses. */
  datatype UidProgress = UidProgress(seen: bv8, ok: bv8, seenCount: nat, okCount: nat, invalidSeen: bool)

  const UidStart: UidProgress := UidProgress(0, 0, 0, 0, false)

  /** The counters count the bits, and a slot is accepted only once seen. */
  ghost predicate Consistent(p: UidProgress) {
    p.seenCount == Count(p.seen, 8) && p.okCount == Count(p.ok, 8) && Subset(p.ok, p.seen)
  }

  /** `dm_uid_handle_value` on the state value `p`: the new state and the event. */
  function UidStep(p: UidProgress, tpl: UidTemplate, source: string, value: string): (UidProgress, UidEvent)
  {
    if |tpl.slots| == 0 || |tpl.slots| > UID_MAX_SLOTS then (p, UidEvent(UidNone, None))
    else match FindSlotIndex(tpl, source)
      case None => (p, UidEvent(UidNone, None))
      case Some(i) =>
        var p1 := MarkSeen(p, i);
        var (p2, kind) :=
          if !UidMatches(tpl.slots[i], value) then (p1.(invalidSeen := true), UidNone)
          else if Bit(p1.ok, i) then (p1, Duplicate)
          else (MarkOk(p1, i), Accepted);
        (p2, UidEvent(Verdict(p2, |tpl.slots|, kind), Some(i)))
  }

  /** Slot `i` marked seen, counted the first time only. */
  function MarkSeen(p: UidProgress, i: nat): UidProgress
    requires i < 8
  {
    if Bit(p.seen, i) then p else p.(seen := SetBit(p.seen, i), seenCount := p.seenCount + 1)
  }

  /** Slot `i` marked accepted, counted the first time only. */
  function MarkOk(p: UidProgress, i: nat): UidProgress
    requires i < 8
  {
    if Bit(p.ok, i) then p else p.(ok := SetBit(p.ok, i), okCount := p.okCount + 1)
  }

  /** The event once `slotCount` slots have reported, else `kind`. */
  function Verdict(p: UidProgress, slotCount: nat, kind: UidEventType): UidEventType {
    if p.seenCount < slotCount then kind
    else if p.invalidSeen || p.okCount < slotCount then Invalid
    else Success
  }

  lemma MarkSeenConsistent(p: UidProgress, i: nat)
    requires i < 8 && Consistent(p)
    ensures Consistent(MarkSeen(p, i)) && Bit(MarkSeen(p, i).seen, i)
  {
    if !Bit(p.seen, i) {
      CountSetBit(p.seen, i, 8);
    }
  }

  lemma MarkOkConsistent(p: UidProgress, i: nat)
    requires i < 8 && Consistent(p) && Bit(p.seen, i)
    ensures Consistent(MarkOk(p, i))
  {
    if !Bit(p.ok, i) {
      CountSetBit(p.ok, i, 8);
    }
  }

  /** `dm_uid_state_is_complete`. */
  function IsComplete(p: UidProgress, tpl: UidTemplate): (r: bool)
    ensures r <==> |tpl.slots| > 0 && !p.invalidSeen && p.okCount >= |tpl.slots|
  {
    if |tpl.slots| == 0 then false else !p.invalidSeen && p.okCount >= |tpl.slots|
  }

  /** A value from a source no slot names is ignored entirely. */
  lemma UnknownSourceIgnored(p: UidProgress, tpl: UidTemplate, source: string, value: string)
    requires FindSlotIndex(tpl, source).None?
    ensures UidStep(p, tpl, source, value) == (p, UidEvent(UidNone, None))
  {
  }

  /** Handling a value keeps the counters equal to the number of slots seen
      and accepted, so each counter rises at most once per slot, by at most
      one per call, and `invalidSeen` is never cleared. */
  lemma HandleValueConsistent(p: UidProgress, tpl: UidTemplate, source: string, value: string)
    requires Consistent(p)
    ensures var q := UidStep(p, tpl, source, value).0;
      Consistent(q)
      && p.seenCount <= q.seenCount <= p.seenCount + 1
      && p.okCount <= q.okCount <= p.okCount + 1
      && (p.invalidSeen ==> q.invalidSeen)
  {
    if 0 < |tpl.slots| <= UID_MAX_SLOTS && FindSlotIndex(tpl, source).Some? {
      var i := FindSlotIndex(tpl, source).value;
      MarkSeenConsistent(p, i);
      var p1 := MarkSeen(p, i);
      if UidMatches(tpl.slots[i], value) {
        MarkOkConsistent(p1, i);
      }
      assert Consistent(p1.(invalidSeen := true));
    }
  }

  /** The verdict once every slot has reported: INVALID if a bad value was
      seen or fewer slots were accepted than exist, SUCCESS otherwise; and a
      SUCCESS leaves the state complete. */
  lemma HandleValueVerdict(p: UidProgress, tpl: UidTemplate, source: string, value: string)
    requires 0 < |tpl.slots| <= UID_MAX_SLOTS && FindSlotIndex(tpl, source).Some?
    ensures var (q, ev) := UidStep(p, tpl, source, value);
      ev.slot == FindSlotIndex(tpl, source)
      && (q.seenCount >= |tpl.slots| ==>
            (ev.kind == Invalid <==> q.invalidSeen || q.okCount < |tpl.slots|)
            && (ev.kind == Success <==> !q.invalidSeen && q.okCount >= |tpl.slots|))
      && (ev.kind == Success ==> IsComplete(q, tpl))
      && (q.seenCount < |tpl.slots| ==> ev.kind != Invalid && ev.kind != Success)
  {
  }

  /** A value that does not match its slot marks the round as failed. */
  lemma MismatchMarksInvalid(p: UidProgress, tpl: UidTemplate, source: string, value: string)
    requires 0 < |tpl.slots| <= UID_MAX_SLOTS && FindSlotIndex(tpl, source).Some?
    requires !UidMatches(tpl.slots[FindSlotIndex(tpl, source).value], value)
    ensures var (q, ev) := UidStep(p, tpl, source, value);
      q.invalidSeen && !IsComplete(q, tpl) && ev.kind != Accepted && ev.kind != Success
  {
  }

  /** The validator state of one UID device (`dm_uid_state_t`). */
  class UidState {
    var seenBitmap: bv8
    var okBitmap: bv8
    var seenCount: nat
    var okCount: nat
    var invalidSeen: bool

    function Progress(): UidProgress reads this {
      UidProgress(seenBitmap, okBitmap, seenCount, okCount, invalidSeen)
    }

    ghost predicate Valid() reads this { Consistent(Progress()) }

    constructor ()
      ensures Valid() && Progress() == UidStart
    {
      seenBitmap, okBitmap, seenCount, okCount, invalidSeen := 0, 0, 0, 0, false;
      CountZero(8);
    }

    /** `dm_uid_state_reset`. */
    method Reset()
      modifies this
      ensures Valid() && Progress() == UidStart
    {
      seenBitmap, okBitmap, seenCount, okCount, invalidSeen := 0, 0, 0, 0, false;
      CountZero(8);
    }

    /** `dm_uid_handle_value`: marks the reporting slot seen, and accepted
        when the value matches, then judges the round once every slot has
        reported. */
    method HandleValue(tpl: UidTemplate, source: string, value: string) returns (ev: UidEvent)
      requires Valid()
      modifies this
      ensures Valid()
      ensures (Progress(), ev) == UidStep(old(Progress()), tpl, source, value)
    {
      ev := UidEvent(UidNone, None);
      if |tpl.slots| == 0 || |tpl.slots| > UID_MAX_SLOTS {
        return;
      }
      var found := FindSlotIndex(tpl, source);
      if found.None? {
        return;
      }
      var i := found.value;
      MarkSlotSeen(i);
      var kind := UidNone;
      if !UidMatches(tpl.slots[i], value) {
        invalidSeen := true;
      } else if Bit(okBitmap, i) {
        kind := Duplicate;
      } else {
        MarkSlotOk(i);
        kind := Accepted;
      }
      if seenCount >= |tpl.slots| {
        if invalidSeen || okCount < |tpl.slots| {
          kind := Invalid;
        } else {
          kind := Success;
        }
      }
      ev := UidEvent(kind, Some(i));
    }

    /** `slot_set_seen` and the `seen_count` increment. */
    method MarkSlotSeen(i: nat)
      requires i < 8 && Valid()
      modifies this
      ensures Valid() && Bit(seenBitmap, i)
      ensures Progress() == MarkSeen(old(Progress()), i)
    {
      MarkSeenConsistent(Progress(), i);
      if !Bit(seenBitmap, i) {
        seenBitmap := SetBit(seenBitmap, i);
        seenCount := seenCount + 1;
      }
    }

    /** `slot_set_ok` and the `ok_count` increment. */
    method MarkSlotOk(i: nat)
      requires i < 8 && Valid() && Bit(seenBitmap, i) && !Bit(okBitmap, i)
      modifies this
      ensures Valid()
      ensures Progress() == MarkOk(old(Progress()), i)
    {
      MarkOkConsistent(Progress(), i);
      okBitmap := SetBit(okBitmap, i);
      okCount := okCount + 1;
    }
  }

  // ------------------------------------------------------- signal hold

  datatype SignalEventType = SignalNone | Start | Continue | Stop | Completed

  /** `dm_signal_event_t`. */
  datatype SignalEvent = SignalEvent(kind: SignalEventType, accumulatedMs: nat)

  /** `dm_signal_state_t`. */
  datatype SignalProgress = SignalProgress(active: bool, finished: bool, lastTickMs: nat, accumulatedMs: nat, signalSent: bool)

  const SignalStart: SignalProgress := SignalProgress(false, false, 0, 0, false)

  /** The timeout in force: the template's, or 1000 ms when it is zero. */
  function EffectiveTimeout(tpl: SignalTemplate): (t: nat)
    ensures t > 0
    ensures tpl.heartbeatTimeoutMs > 0 ==> t == tpl.heartbeatTimeoutMs
  {
    if tpl.heartbeatTimeoutMs > 0 then tpl.heartbeatTimeoutMs else 1000
  }

  /** The time since the previous tick; zero if the clock did not advance. */
  function Gap(last: nat, now: nat): nat {
    if now > last then now - last else 0
  }

  /** `dm_signal_handle_tick` as written: the gap is added to the 32-bit
      accumulator, which wraps modulo 2^32. */
  function TickAsWritten(p: SignalProgress, tpl: SignalTemplate, now: nat): (SignalProgress, SignalEvent)
    requires p.accumulatedMs <= UINT32_MAX
  {
    var ev := SignalEvent(SignalNone, p.accumulatedMs);
    if tpl.requiredHoldMs == 0 || p.finished then (p, ev)
    else if !p.active then (p.(active := true, lastTickMs := now), ev.(kind := Start))
    else
      var delta := Gap(p.lastTickMs, now);
      var p1 := p.(lastTickMs := now);
      if delta > EffectiveTimeout(tpl) then (p1.(active := false), ev.(kind := Stop))
      else
        var acc := if delta > 0 then (p.accumulatedMs + delta % 0x1_0000_0000) % 0x1_0000_0000 else p.accumulatedMs;
        var p2 := p1.(accumulatedMs := acc);
        var ev2 := ev.(accumulatedMs := acc);
        if acc >= tpl.requiredHoldMs then (p2.(finished := true, active := false), ev2.(kind := Completed))
        else (p2, ev2.(kind := Continue))
  }

  /** With a hold and a timeout near the 32-bit limit, one more in-time
      heartbeat makes the accumulated time fall from 0xFFFFFFF0 to 0x10. */
  lemma AccumulatorWraps()
    ensures var tpl := SignalClear().(requiredHoldMs := UINT32_MAX, heartbeatTimeoutMs := UINT32_MAX);
      var p := SignalProgress(true, false, 0, 0xFFFF_FFF0, false);
      var (q, ev) := TickAsWritten(p, tpl, 0x20);
      q.accumulatedMs == 0x10 < p.accumulatedMs && ev.kind == Continue
  {
  }

  /** `dm_signal_handle_tick` with a saturating accumulator: the gap is
      added, stopping at UINT32_MAX. */
  function Tick(p: SignalProgress, tpl: SignalTemplate, now: nat): (SignalProgress, SignalEvent)
  {
    var ev := SignalEvent(SignalNone, p.accumulatedMs);
    if tpl.requiredHoldMs == 0 || p.finished then (p, ev)
    else if !p.active then (p.(active := true, lastTickMs := now), ev.(kind := Start))
    else
      var delta := Gap(p.lastTickMs, now);
      var p1 := p.(lastTickMs := now);
      if delta > EffectiveTimeout(tpl) then (p1.(active := false), ev.(kind := Stop))
      else
        var acc := if delta > 0 then Min(p.accumulatedMs + delta, UINT32_MAX) else p.accumulatedMs;
        var p2 := p1.(accumulatedMs := acc);
        var ev2 := ev.(accumulatedMs := acc);
        if acc >= tpl.requiredHoldMs then (p2.(finished := true, active := false), ev2.(kind := Completed))
        else (p2, ev2.(kind := Continue))
  }

  /** The tick rules: the first tick starts the hold; a gap over the timeout
      stops it; otherwise the gap is added, never lowering the total, and
      reaching the required hold completes it. */
  lemma TickSteps(p: SignalProgress, tpl: SignalTemplate, now: nat)
    requires tpl.requiredHoldMs > 0 && !p.finished && p.accumulatedMs <= UINT32_MAX
    ensures var (q, ev) := Tick(p, tpl, now);
      q.accumulatedMs <= UINT32_MAX
      && (!p.active ==> ev.kind == Start && q == p.(active := true, lastTickMs := now))
      && (p.active && Gap(p.lastTickMs, now) > EffectiveTimeout(tpl) ==>
            ev.kind == Stop && !q.active && q.accumulatedMs == p.accumulatedMs)
      && (p.active && Gap(p.lastTickMs, now) <= EffectiveTimeout(tpl) ==>
            q.accumulatedMs == Min(p.accumulatedMs + Gap(p.lastTickMs, now), UINT32_MAX)
            && (ev.kind == Completed <==> q.accumulatedMs >= tpl.requiredHoldMs)
            && (ev.kind == Continue <==> q.accumulatedMs < tpl.requiredHoldMs))
      && p.accumulatedMs <= q.accumulatedMs
  {
  }

  /** A completed hold stays completed: every later tick returns NONE and
      changes nothing. */
  lemma CompletedIsFinal(p: SignalProgress, tpl: SignalTemplate, now: nat)
    requires tpl.requiredHoldMs > 0 && p.accumulatedMs <= UINT32_MAX
    ensures var (q, ev) := Tick(p, tpl, now);
      ev.kind == Completed ==> q.finished && !q.active && Tick(q, tpl, now + 1).1.kind == SignalNone
  {
  }

  /** Fed in-time heartbeats, a hold of `required` ms completes: a hold that
      has been active and accumulating reaches COMPLETED as soon as the
      total reaches the required time, even near the 32-bit limit. */
  lemma SaturationStillCompletes(p: SignalProgress, tpl: SignalTemplate, now: nat)
    requires tpl.requiredHoldMs > 0 && tpl.requiredHoldMs <= UINT32_MAX && p.active && !p.finished
    requires 0 < Gap(p.lastTickMs, now) <= EffectiveTimeout(tpl)
    requires p.accumulatedMs + Gap(p.lastTickMs, now) >= tpl.requiredHoldMs
    ensures Tick(p, tpl, now).1.kind == Completed
  {
  }

  /** `dm_signal_handle_timeout` on the state value. */
  function Timeout(p: SignalProgress, tpl: SignalTemplate): (r: (SignalProgress, SignalEvent))
    ensures r.1.accumulatedMs == p.accumulatedMs
    ensures r.1.kind == Stop <==> tpl.requiredHoldMs > 0 && p.active && !p.finished
    ensures r.1.kind == Stop ==> r.0 == p.(active := false)
    ensures r.1.kind != Stop ==> r.0 == p && r.1.kind == SignalNone
  {
    var ev := SignalEvent(SignalNone, p.accumulatedMs);
    if tpl.requiredHoldMs == 0 || !p.active || p.finished then (p, ev)
    else (p.(active := false), ev.(kind := Stop))
  }

  /** The hold state of one signal device (`dm_signal_state_t`). */
  class SignalState {
    var active: bool
    var finished: bool
    var lastTickMs: nat
    var accumulatedMs: nat
    var signalSent: bool

    function Progress(): SignalProgress reads this {
      SignalProgress(active, finished, lastTickMs, accumulatedMs, signalSent)
    }

    /** The accumulator is a 32-bit counter. */
    ghost predicate Valid() reads this { accumulatedMs <= UINT32_MAX }

    constructor ()
      ensures Valid() && Progress() == SignalStart
    {
      active, finished, lastTickMs, accumulatedMs, signalSent := false, false, 0, 0, false;
    }

    /** `dm_signal_state_reset`. */
    method Reset()
      modifies this
      ensures Valid() && Progress() == SignalStart
    {
      active, finished, lastTickMs, accumulatedMs, signalSent := false, false, 0, 0, false;
    }

    /** `dm_signal_handle_tick`, with the accumulator saturating. */
    method HandleTick(tpl: SignalTemplate, now: nat) returns (ev: SignalEvent)
      requires Valid()
      modifies this
      ensures Valid()
      ensures (Progress(), ev) == Tick(old(Progress()), tpl, now)
    {
      ev := SignalEvent(SignalNone, accumulatedMs);
      if tpl.requiredHoldMs == 0 || finished {
        return;
      }
      var timeout := EffectiveTimeout(tpl);
      if !active {
        active := true;
        lastTickMs := now;
        ev := ev.(kind := Start);
        return;
      }
      var delta := 0;
      if now > lastTickMs {
        delta := now - lastTickMs;
      }
      lastTickMs := now;
      if delta > timeout {
        active := false;
        ev := ev.(kind := Stop);
        return;
      }
      if delta > 0 {
        accumulatedMs := Min(accumulatedMs + delta, UINT32_MAX);
        ev := ev.(accumulatedMs := accumulatedMs);
      }
      if accumulatedMs >= tpl.requiredHoldMs {
        finished := true;
        active := false;
        ev := ev.(kind := Completed);
        return;
      }
      ev := ev.(kind := Continue);
    }

    /** `dm_signal_handle_timeout`. */
    method HandleTimeout(tpl: SignalTemplate) returns (ev: SignalEvent)
      requires Valid()
      modifies this
      ensures Valid()
      ensures (Progress(), ev) == Timeout(old(Progress()), tpl)
    {
      ev := SignalEvent(SignalNone, accumulatedMs);
      if tpl.requiredHoldMs == 0 || !active || finished {
        return;
      }
      active := false;
      ev := ev.(kind := Stop);
    }
  }
}
