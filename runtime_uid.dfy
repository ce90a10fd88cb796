/** The UID validator runtime (`dm_runtime_uid.c`): readers report values
    for their slot; values are cleaned, fed to the template's validator, the
    last value per slot is kept for display, and a finished round yields the
    success or fail actions. */
module RuntimeUid {
  import opened Common
  import opened DmTypes
  import opened DmTemplates

  // ---------------------------------------------------------------- cleaning

  /** `s` without its leading white space. */
  function DropLeadingSpace(s: string): (r: string)
    ensures |r| <= |s| && r == s[|s| - |r|..]
    ensures r == [] || !IsSpace(r[0])
    ensures forall i :: 0 <= i < |s| - |r| ==> IsSpace(s[i])
  {
    if |s| > 0 && IsSpace(s[0]) then DropLeadingSpace(s[1..]) else s
  }

  /** `s` without its trailing white space. */
  function DropTrailingSpace(s: string): (r: string)
    ensures |r| <= |s| && r == s[..|r|]
    ensures r == [] || !IsSpace(r[|r| - 1])
    ensures forall i :: |r| <= i < |s| ==> IsSpace(s[i])
  {
    if |s| > 0 && IsSpace(s[|s| - 1]) then DropTrailingSpace(s[..|s| - 1]) else s
  }

  /** `sanitize_uid_value` into a buffer of `outLen` bytes: leading white
      space skipped, at most `outLen - 1` characters kept, trailing white
      space trimmed. */
  function Sanitize(s: string, outLen: nat): (r: string)
    requires outLen > 0
    ensures |r| < outLen
    ensures r == [] || (!IsSpace(r[0]) && !IsSpace(r[|r| - 1]))
  {
    var d := DropLeadingSpace(s);
    var t := if |d| <= outLen - 1 then d else d[..outLen - 1];
    DropTrailingSpace(t)
  }

  /** Cleaning a cleaned value changes nothing. */
  lemma SanitizeIdempotent(s: string, outLen: nat)
    requires outLen > 0
    ensures Sanitize(Sanitize(s, outLen), outLen) == Sanitize(s, outLen)
  {
  }

  /** A value without surrounding white space that fits is unchanged. */
  lemma SanitizeClean(s: string, outLen: nat)
    requires outLen > 0 && |s| < outLen
    requires s == [] || (!IsSpace(s[0]) && !IsSpace(s[|s| - 1]))
    ensures Sanitize(s, outLen) == s
  {
  }

  /** The loop form of `sanitize_uid_value`, writing into `output`; returns
      the length of the cleaned value, which is NUL-terminated. A zero-length
      buffer is left alone. */
  method SanitizeInto(input: string, output: array<char>) returns (len: nat)
    modifies output
    ensures output.Length == 0 ==> len == 0 && output[..] == old(output[..])
    ensures output.Length > 0 ==>
      len < output.Length && output[..len] == Sanitize(input, output.Length) && output[len] == '\0'
  {
    if output.Length == 0 {
      return 0;
    }
    var start := SkipSpace(input);
    var pos := CopyBounded(input[start..], output);
    len := TrimTrailing(output, pos);
    output[len] := '\0';
  }

  /** The first loop: the index of the first character that is not white
      space. */
  method SkipSpace(input: string) returns (start: nat)
    ensures start <= |input| && input[start..] == DropLeadingSpace(input)
  {
    start := 0;
    while start < |input| && IsSpace(input[start])
      invariant 0 <= start <= |input|
      invariant DropLeadingSpace(input[start..]) == DropLeadingSpace(input)
    {
      assert input[start..][1..] == input[start + 1..];
      start := start + 1;
    }
  }

  /** The second loop: copies at most `output.Length - 1` characters. */
  method CopyBounded(d: string, output: array<char>) returns (pos: nat)
    requires output.Length > 0
    modifies output
    ensures pos < output.Length
    ensures output[..pos] == (if |d| <= output.Length - 1 then d else d[..output.Length - 1])
  {
    pos := 0;
    while pos < |d| && pos < output.Length - 1
      invariant 0 <= pos <= output.Length - 1 && pos <= |d|
      invariant output[..pos] == d[..pos]
    {
      output[pos] := d[pos];
      pos := pos + 1;
    }
  }

  /** The third loop: backs over trailing white space. */
  method TrimTrailing(output: array<char>, n: nat) returns (pos: nat)
    requires n < output.Length
    ensures pos <= n && output[..pos] == DropTrailingSpace(output[..n])
  {
    pos := n;
    while pos > 0 && IsSpace(output[pos - 1])
      invariant 0 <= pos <= n
      invariant DropTrailingSpace(output[..pos]) == DropTrailingSpace(output[..n])
    {
      assert output[..pos][..pos - 1] == output[..pos - 1];
      pos := pos - 1;
    }
  }

  // ------------------------------------------------------------- actions

  /** `dm_uid_action_t`: strings left empty unless their flag is set. */
  datatype UidAction = UidAction(
    event: UidEventType,
    publishChannel: bool, channelTopic: string, channelPayload: string,
    publishSignal: bool, signalTopic: string, signalPayload: string,
    audioPlay: bool, audioTrack: string)

  function NoAction(event: UidEventType): UidAction {
    UidAction(event, false, "", "", false, "", "", false, "")
  }

  /** `fill_action`: the success or fail outputs of the template, each
      enabled only when its topic or track is non-empty. */
  function FillAction(tpl: UidTemplate, success: bool, event: UidEventType): (a: UidAction)
    ensures a.event == event
    ensures a.publishChannel <==> (if success then tpl.successTopic else tpl.failTopic) != ""
    ensures a.publishChannel ==> (a.channelTopic == (if success then tpl.successTopic else tpl.failTopic)
      && a.channelPayload == (if success then tpl.successPayload else tpl.failPayload))
    ensures a.publishSignal <==> (if success then tpl.successSignalTopic else tpl.failSignalTopic) != ""
    ensures a.publishSignal ==> (a.signalTopic == (if success then tpl.successSignalTopic else tpl.failSignalTopic)
      && a.signalPayload == (if success then tpl.successSignalPayload else tpl.failSignalPayload))
    ensures a.audioPlay <==> (if success then tpl.successAudioTrack else tpl.failAudioTrack) != ""
    ensures a.audioPlay ==> a.audioTrack == (if success then tpl.successAudioTrack else tpl.failAudioTrack)
    ensures !a.publishChannel ==> a.channelTopic == "" && a.channelPayload == ""
    ensures !a.publishSignal ==> a.signalTopic == "" && a.signalPayload == ""
    ensures !a.audioPlay ==> a.audioTrack == ""
  {
    var channelTopic := if success then tpl.successTopic else tpl.failTopic;
    var channelPayload := if success then tpl.successPayload else tpl.failPayload;
    var signalTopic := if success then tpl.successSignalTopic else tpl.failSignalTopic;
    var signalPayload := if success then tpl.successSignalPayload else tpl.failSignalPayload;
    var track := if success then tpl.successAudioTrack else tpl.failAudioTrack;
    var a := NoAction(event);
    var a := if channelTopic != "" then a.(publishChannel := true, channelTopic := channelTopic, channelPayload := channelPayload) else a;
    var a := if signalTopic != "" then a.(publishSignal := true, signalTopic := signalTopic, signalPayload := signalPayload) else a;
    if track != "" then a.(audioPlay := true, audioTrack := track) else a
  }

  // ------------------------------------------------------------- runtime

  /** The last value a slot reported, kept for the web snapshot. */
  datatype SlotValue = SlotValue(hasValue: bool, value: string)

  const NoValues: seq<SlotValue> := seq(UID_MAX_SLOTS, _ => SlotValue(false, ""))

  /** The runtime state outside the template: validator progress and the
      last values. */
  datatype UidRuntimeState = UidRuntimeState(progress: UidProgress, slots: seq<SlotValue>)

  /** `dm_uid_runtime_handle_value` on the state value. */
  function HandleStep(tpl: UidTemplate, s: UidRuntimeState, source: string, value: string): (r: (UidRuntimeState, UidAction))
    requires |s.slots| == UID_MAX_SLOTS
    ensures |r.0.slots| == UID_MAX_SLOTS
  {
    var cleaned := Sanitize(value, UID_VALUE_MAX_LEN);
    var (q, ev) := UidStep(s.progress, tpl, source, cleaned);
    var slots :=
      if ev.slot.Some? && ev.slot.value < UID_MAX_SLOTS then
        s.slots[ev.slot.value := if cleaned != "" then SlotValue(true, cleaned) else SlotValue(false, "")]
      else s.slots;
    if ev.kind == Invalid then (UidRuntimeState(UidStart, slots), FillAction(tpl, false, Invalid))
    else if ev.kind == Success then (UidRuntimeState(UidStart, slots), FillAction(tpl, true, Success))
    else (UidRuntimeState(q, slots), NoAction(ev.kind))
  }

  /** The reporting slot keeps the cleaned value, or nothing when it is
      empty; no other slot changes; only a finished round acts, with the
      fail outputs for INVALID and the success outputs for SUCCESS, and a
      finished round starts the validator afresh. */
  lemma HandleStepOutcome(tpl: UidTemplate, s: UidRuntimeState, source: string, value: string)
    requires |s.slots| == UID_MAX_SLOTS
    ensures var cleaned := Sanitize(value, UID_VALUE_MAX_LEN);
      var (q, ev) := UidStep(s.progress, tpl, source, cleaned);
      var (t, a) := HandleStep(tpl, s, source, value);
      |t.slots| == UID_MAX_SLOTS && a.event == ev.kind
      && (forall j :: 0 <= j < UID_MAX_SLOTS && ev.slot != Some(j) ==> t.slots[j] == s.slots[j])
      && (ev.slot.Some? && ev.slot.value < UID_MAX_SLOTS ==>
            t.slots[ev.slot.value].hasValue == (cleaned != "")
            && t.slots[ev.slot.value].value == cleaned)
      && (ev.kind == Invalid ==> t.progress == UidStart && a == FillAction(tpl, false, Invalid))
      && (ev.kind == Success ==> t.progress == UidStart && a == FillAction(tpl, true, Success))
      && (ev.kind != Invalid && ev.kind != Success ==> t.progress == q && a == NoAction(ev.kind))
  {
    var cleaned := Sanitize(value, UID_VALUE_MAX_LEN);
    var step := UidStep(s.progress, tpl, source, cleaned);
    var ev := step.1;
    var out := HandleStep(tpl, s, source, value);
    if ev.slot.Some? && ev.slot.value < UID_MAX_SLOTS {
      var k := ev.slot.value;
      assert out.0.slots == s.slots[k := if cleaned != "" then SlotValue(true, cleaned) else SlotValue(false, "")];
    } else {
      assert out.0.slots == s.slots;
    }
  }

  /** A reading with leading white space acts exactly as the bare value. */
  lemma SurroundingSpaceIgnored(tpl: UidTemplate, s: UidRuntimeState, source: string, value: string, pad: string)
    requires |s.slots| == UID_MAX_SLOTS && |value| < UID_VALUE_MAX_LEN
    requires value == [] || (!IsSpace(value[0]) && !IsSpace(value[|value| - 1]))
    requires forall i :: 0 <= i < |pad| ==> IsSpace(pad[i])
    ensures HandleStep(tpl, s, source, pad + value) == HandleStep(tpl, s, source, value)
  {
    PadDropped(pad, value);
    assert DropLeadingSpace(value) == value;
    assert Sanitize(pad + value, UID_VALUE_MAX_LEN) == Sanitize(value, UID_VALUE_MAX_LEN);
    SameCleanSameStep(tpl, s, source, pad + value, value);
  }

  lemma SameCleanSameStep(tpl: UidTemplate, s: UidRuntimeState, source: string, v1: string, v2: string)
    requires |s.slots| == UID_MAX_SLOTS
    requires Sanitize(v1, UID_VALUE_MAX_LEN) == Sanitize(v2, UID_VALUE_MAX_LEN)
    ensures HandleStep(tpl, s, source, v1) == HandleStep(tpl, s, source, v2)
  {
  }

  lemma {:induction false} PadDropped(pad: string, value: string)
    requires value == [] || !IsSpace(value[0])
    requires forall i :: 0 <= i < |pad| ==> IsSpace(pad[i])
    ensures DropLeadingSpace(pad + value) == value
  {
    if |pad| > 0 {
      assert (pad + value)[1..] == pad[1..] + value;
      PadDropped(pad[1..], value);
    } else {
      assert pad + value == value;
    }
  }

  /** The runtime of one UID device (`dm_uid_runtime_t`). */
  class UidRuntime {
    var config: UidTemplate
    const state: UidState
    var slots: seq<SlotValue>

    function Snapshot(): UidRuntimeState reads this, state {
      UidRuntimeState(state.Progress(), slots)
    }

    ghost predicate Valid() reads this, state {
      state.Valid() && |slots| == UID_MAX_SLOTS
    }

    /** `dm_uid_runtime_init`. */
    constructor (tpl: UidTemplate)
      ensures Valid() && fresh(state) && config == tpl
      ensures Snapshot() == UidRuntimeState(UidStart, NoValues)
    {
      config := tpl;
      state := new UidState();
      slots := NoValues;
    }

    /** `dm_uid_runtime_reset`: the validator and the kept values cleared. */
    method Reset()
      requires Valid()
      modifies this, state
      ensures Valid() && config == old(config)
      ensures Snapshot() == UidRuntimeState(UidStart, NoValues)
    {
      state.Reset();
      slots := NoValues;
    }

    /** `dm_uid_runtime_set_template`: a new template and a fresh round. */
    method SetTemplate(tpl: UidTemplate)
      requires Valid()
      modifies this, state
      ensures Valid() && config == tpl
      ensures Snapshot() == UidRuntimeState(UidStart, NoValues)
    {
      config := tpl;
      Reset();
    }

    /** `dm_uid_runtime_handle_value`. */
    method HandleValue(source: string, value: string) returns (action: UidAction)
      requires Valid()
      modifies this, state
      ensures Valid() && config == old(config)
      ensures (Snapshot(), action) == HandleStep(config, old(Snapshot()), source, value)
    {
      var buffer := new char[UID_VALUE_MAX_LEN];
      var len := SanitizeInto(value, buffer);
      var cleaned := buffer[..len];
      var ev := state.HandleValue(config, source, cleaned);
      if ev.slot.Some? && ev.slot.value < UID_MAX_SLOTS {
        if cleaned != "" {
          slots := slots[ev.slot.value := SlotValue(true, cleaned)];
        } else {
          slots := slots[ev.slot.value := SlotValue(false, "")];
        }
      }
      action := NoAction(ev.kind);
      if ev.kind == Invalid {
        action := FillAction(config, false, Invalid);
        state.Reset();
      } else if ev.kind == Success {
        action := FillAction(config, true, Success);
        state.Reset();
      }
    }
  }
}
