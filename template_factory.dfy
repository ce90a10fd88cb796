/** The template factory (`template_factory.c`): builds a UID validator or a
    signal-hold template from plain parameters, rejecting incomplete ones.
    A NULL string parameter is modelled as the empty string, which every
    check of the factory treats the same way. */
module TemplateFactory {
  import opened Common
  import opened DmTypes
  import opened DmTemplates

  /** `dm_uid_slot_param_t`: `values` holds `value_count` strings. */
  datatype UidSlotParam = UidSlotParam(sourceId: string, title: string, values: seq<string>)

  /** A topic and the payload published on it. */
  datatype TopicPayload = TopicPayload(topic: string, payload: string)

  /** `dm_uid_template_params_t`. */
  datatype UidParams = UidParams(
    slots: seq<UidSlotParam>,
    start: TopicPayload, broadcast: TopicPayload,
    success: TopicPayload, fail: TopicPayload,
    successAudioTrack: string, failAudioTrack: string,
    successSignal: TopicPayload, failSignal: TopicPayload)

  /** `dm_signal_hold_params_t`. */
  datatype SignalHoldParams = SignalHoldParams(
    signalTopic: string, signalPayloadOn: string, signalPayloadOff: string, signalOnMs: nat,
    heartbeatTopic: string, requiredHoldMs: nat, heartbeatTimeoutMs: nat,
    holdTrack: string, holdTrackLoop: bool, completeTrack: string)

  /** `copy_topic_payload`: a topic and its payload are kept together, and
      both are cleared when there is no topic. */
  function CopyTopicPayload(src: TopicPayload): (r: TopicPayload)
    ensures src.topic == "" ==> r.topic == "" && r.payload == ""
    ensures src.topic != "" ==> r == src
    ensures r.payload != "" ==> r.topic != ""
  {
    if src.topic != "" then src else TopicPayload("", "")
  }

  // ------------------------------------------------------ reference rules

  /** A slot parameter the factory accepts. */
  predicate SlotParamValid(s: UidSlotParam) {
    s.sourceId != "" && 0 < |s.values| <= UID_MAX_VALUES
    && forall k :: 0 <= k < |s.values| ==> s.values[k] != ""
  }

  /** The code a rejected slot parameter yields: a missing source or no
      values, or an empty value, is an invalid argument; too many values is
      an invalid size. */
  function SlotError(s: UidSlotParam): EspErr {
    if s.sourceId == "" || |s.values| == 0 then ErrInvalidArg
    else if |s.values| > UID_MAX_VALUES then ErrInvalidSize
    else ErrInvalidArg
  }

  /** The slot a parameter becomes. */
  function SlotOf(s: UidSlotParam): UidSlot { UidSlot(s.sourceId, s.title, s.values) }

  function SlotsOf(ps: seq<UidSlotParam>): (r: seq<UidSlot>)
    ensures |r| == |ps| && forall j :: 0 <= j < |ps| ==> r[j] == SlotOf(ps[j])
  {
    if ps == [] then [] else SlotsOf(ps[..|ps| - 1]) + [SlotOf(ps[|ps| - 1])]
  }

  // ------------------------------------------------------ the build steps

  /** The inner loop of `dm_template_factory_build_uid`: values `v..` are
      added to slot `index`. */
  function AddValues(t: UidTemplate, index: nat, values: seq<string>, v: nat): Outcome<UidTemplate>
    requires v <= |values|
    decreases |values| - v
  {
    if v == |values| then Ok(t)
    else if values[v] == "" then Fail(ErrInvalidArg)
    else match AddValue(t, index, values[v])
      case None => Fail(ErrInvalidState)
      case Some(t1) => AddValues(t1, index, values, v + 1)
  }

  /** One pass of the outer loop of `dm_template_factory_build_uid`: slot
      `i` is set from its parameter and its values are added, in the order
      the source checks them. */
  function FillSlot(t: UidTemplate, i: nat, s: UidSlotParam): Outcome<UidTemplate> {
    if s.sourceId == "" || |s.values| == 0 then Fail(ErrInvalidArg)
    else match SetSlot(t, i, s.sourceId, s.title)
      case None => Fail(ErrInvalidState)
      case Some(t1) =>
        if |s.values| > UID_MAX_VALUES then Fail(ErrInvalidSize)
        else AddValues(t1, i, s.values, 0)
  }

  /** The outer loop of `dm_template_factory_build_uid` over slots `i..`. */
  function FillSlots(t: UidTemplate, slots: seq<UidSlotParam>, i: nat): Outcome<UidTemplate>
    requires i <= |slots|
    decreases |slots| - i
  {
    if i == |slots| then Ok(t)
    else match FillSlot(t, i, slots[i])
      case Fail(e) => Fail(e)
      case Ok(t2) => FillSlots(t2, slots, i + 1)
  }

  /** The topic, payload and track fields copied after the slots. */
  function WithMessages(t: UidTemplate, p: UidParams): UidTemplate {
    var start := CopyTopicPayload(p.start);
    var broadcast := CopyTopicPayload(p.broadcast);
    var success := CopyTopicPayload(p.success);
    var fail := CopyTopicPayload(p.fail);
    var successSignal := CopyTopicPayload(p.successSignal);
    var failSignal := CopyTopicPayload(p.failSignal);
    t.(startTopic := start.topic, startPayload := start.payload,
       broadcastTopic := broadcast.topic, broadcastPayload := broadcast.payload,
       successTopic := success.topic, successPayload := success.payload,
       failTopic := fail.topic, failPayload := fail.payload,
       successSignalTopic := successSignal.topic, successSignalPayload := successSignal.payload,
       failSignalTopic := failSignal.topic, failSignalPayload := failSignal.payload,
       successAudioTrack := p.successAudioTrack, failAudioTrack := p.failAudioTrack)
  }

  /** `dm_template_factory_build_uid` on values. */
  function BuildUid(p: UidParams): Outcome<UidTemplate> {
    if |p.slots| == 0 then Fail(ErrInvalidArg)
    else if |p.slots| > UID_MAX_SLOTS then Fail(ErrInvalidSize)
    else match FillSlots(UidClear(), p.slots, 0)
      case Fail(e) => Fail(e)
      case Ok(t) => Ok(WithMessages(t, p))
  }

  // ------------------------------------------------------------ lemmas

  /** Adding the remaining values of a slot that already holds the first
      `v` succeeds iff none of them is empty, and then the slot holds all
      of them. */
  lemma {:induction false} AddValuesSpec(t: UidTemplate, index: nat, values: seq<string>, v: nat)
    requires v <= |values| <= UID_MAX_VALUES && index < |t.slots| && index < UID_MAX_SLOTS
    requires t.slots[index].sourceId != "" && t.slots[index].values == values[..v]
    ensures var r := AddValues(t, index, values, v);
      (r.Ok? <==> forall k :: v <= k < |values| ==> values[k] != "")
      && (r.Ok? ==> r.value == t.(slots := t.slots[index := t.slots[index].(values := values)]))
      && (r.Fail? ==> r.err == ErrInvalidArg)
    decreases |values| - v
  {
    if v == |values| {
      assert values[..v] == values;
      assert t.slots[index := t.slots[index].(values := values)] == t.slots;
    } else if values[v] != "" {
      var t1 := AddValue(t, index, values[v]).value;
      assert values[..v] + [values[v]] == values[..v + 1];
      AddValuesSpec(t1, index, values, v + 1);
      assert t1.slots[index := t1.slots[index].(values := values)]
        == t.slots[index := t.slots[index].(values := values)];
    }
  }

  /** One valid slot parameter is set and filled: the fill goes on with
      that slot appended. */
  lemma ValidSlotStep(t: UidTemplate, slots: seq<UidSlotParam>, i: nat)
    requires i < |slots| <= UID_MAX_SLOTS && SlotParamValid(slots[i])
    requires t.slots == SlotsOf(slots[..i])
    ensures FillSlot(t, i, slots[i]) == Ok(t.(slots := SlotsOf(slots[..i + 1])))
  {
    var s := slots[i];
    var t1 := SetSlot(t, i, s.sourceId, s.title).value;
    assert t1.slots == SlotsOf(slots[..i]) + [UidSlot(s.sourceId, s.title, [])];
    assert s.values[..0] == [];
    AddValuesSpec(t1, i, s.values, 0);
    assert slots[..i + 1] == slots[..i] + [s];
    assert t1.slots[i := t1.slots[i].(values := s.values)] == SlotsOf(slots[..i + 1]);
  }

  /** An invalid slot parameter stops the fill with its code. */
  lemma InvalidSlotStops(t: UidTemplate, slots: seq<UidSlotParam>, i: nat)
    requires i < |slots| <= UID_MAX_SLOTS && !SlotParamValid(slots[i])
    requires t.slots == SlotsOf(slots[..i])
    ensures FillSlot(t, i, slots[i]) == Fail(SlotError(slots[i]))
  {
    var s := slots[i];
    if s.sourceId != "" && 0 < |s.values| <= UID_MAX_VALUES {
      var t1 := SetSlot(t, i, s.sourceId, s.title).value;
      assert s.values[..0] == [];
      AddValuesSpec(t1, i, s.values, 0);
    }
  }

  /** The first invalid slot parameter at or after `i` is `j`. */
  predicate FirstInvalid(slots: seq<UidSlotParam>, i: nat, j: nat) {
    i <= j < |slots| && !SlotParamValid(slots[j])
    && forall k :: i <= k < j ==> SlotParamValid(slots[k])
  }

  /** Filling the slots from `i` on, after the first `i` were filled from
      their parameters, succeeds iff every remaining slot parameter is
      valid; success yields exactly one slot per parameter, and a failure
      carries the code of the first invalid slot parameter. */
  lemma {:induction false} FillSlotsSpec(t: UidTemplate, slots: seq<UidSlotParam>, i: nat)
    requires i <= |slots| <= UID_MAX_SLOTS
    requires t.slots == SlotsOf(slots[..i])
    ensures var r := FillSlots(t, slots, i);
      (r.Ok? <==> forall j :: i <= j < |slots| ==> SlotParamValid(slots[j]))
      && (r.Ok? ==> r.value == t.(slots := SlotsOf(slots)))
      && (r.Fail? ==> exists j: nat :: FirstInvalid(slots, i, j) && r.err == SlotError(slots[j]))
    decreases |slots| - i
  {
    if i == |slots| {
      assert slots[..i] == slots;
    } else if SlotParamValid(slots[i]) {
      ValidSlotStep(t, slots, i);
      var t2 := t.(slots := SlotsOf(slots[..i + 1]));
      FillSlotsSpec(t2, slots, i + 1);
      var r := FillSlots(t, slots, i);
      assert r == FillSlots(t2, slots, i + 1);
      assert t2.(slots := SlotsOf(slots)) == t.(slots := SlotsOf(slots));
      if r.Ok? {
        forall j | i <= j < |slots| ensures SlotParamValid(slots[j]) {
          if j > i {
            assert i + 1 <= j;
          }
        }
      } else {
        var j: nat :| FirstInvalid(slots, i + 1, j) && r.err == SlotError(slots[j]);
        forall k | i <= k < j ensures SlotParamValid(slots[k]) {
          if k > i {
            assert i + 1 <= k < j;
          }
        }
        assert FirstInvalid(slots, i, j);
      }
    } else {
      InvalidSlotStops(t, slots, i);
      assert FirstInvalid(slots, i, i);
    }
  }

  /** What `dm_template_factory_build_uid` promises: no slots is an invalid
      argument and more than UID_MAX_SLOTS an invalid size; otherwise it
      succeeds iff every slot parameter has a source and between one and
      UID_MAX_VALUES non-empty values, and fails with the first bad slot's
      code otherwise (the INVALID_STATE returns cannot happen). A success
      holds exactly the slots and values given, and the messages. */
  lemma BuildUidSpec(p: UidParams)
    ensures |p.slots| == 0 ==> BuildUid(p) == Fail(ErrInvalidArg)
    ensures |p.slots| > UID_MAX_SLOTS ==> BuildUid(p) == Fail(ErrInvalidSize)
    ensures 0 < |p.slots| <= UID_MAX_SLOTS ==>
      (BuildUid(p).Ok? <==> forall j :: 0 <= j < |p.slots| ==> SlotParamValid(p.slots[j]))
    ensures 0 < |p.slots| <= UID_MAX_SLOTS && BuildUid(p).Fail? ==>
      exists j: nat :: FirstInvalid(p.slots, 0, j) && BuildUid(p).err == SlotError(p.slots[j])
    ensures BuildUid(p).Fail? ==> BuildUid(p).err != ErrInvalidState
    ensures BuildUid(p).Ok? ==> BuildUid(p).value == WithMessages(UidClear().(slots := SlotsOf(p.slots)), p)
  {
    if 0 < |p.slots| <= UID_MAX_SLOTS {
      assert p.slots[..0] == [];
      FillSlotsSpec(UidClear(), p.slots, 0);
    }
  }

  /** A successful build has one slot per parameter with as many values. */
  lemma BuildUidCounts(p: UidParams)
    requires BuildUid(p).Ok?
    ensures |BuildUid(p).value.slots| == |p.slots|
    ensures forall j :: 0 <= j < |p.slots| ==>
      |BuildUid(p).value.slots[j].values| == |p.slots[j].values|
  {
    BuildUidSpec(p);
  }

  /** `dm_template_factory_build_uid`: the loops over slots and values,
      filling `out` field by field. `out` is meaningful only on `EspOk`. */
  method BuildUidInto(p: UidParams) returns (err: EspErr, out: UidTemplate)
    ensures err == EspOk ==> BuildUid(p) == Ok(out)
    ensures err != EspOk ==> BuildUid(p) == Fail(err)
  {
    out := UidClear();
    if |p.slots| == 0 {
      return ErrInvalidArg, out;
    }
    if |p.slots| > UID_MAX_SLOTS {
      return ErrInvalidSize, out;
    }
    var i := 0;
    while i < |p.slots|
      invariant 0 <= i <= |p.slots|
      invariant FillSlots(out, p.slots, i) == FillSlots(UidClear(), p.slots, 0)
    {
      var s := p.slots[i];
      if s.sourceId == "" || |s.values| == 0 {
        return ErrInvalidArg, out;
      }
      var setResult := SetSlot(out, i, s.sourceId, s.title);
      if setResult.None? {
        return ErrInvalidState, out;
      }
      var t1 := setResult.value;
      if |s.values| > UID_MAX_VALUES {
        return ErrInvalidSize, out;
      }
      out := t1;
      var v := 0;
      while v < |s.values|
        invariant 0 <= v <= |s.values|
        invariant AddValues(out, i, s.values, v) == AddValues(t1, i, s.values, 0)
      {
        if s.values[v] == "" {
          return ErrInvalidArg, out;
        }
        var added := AddValue(out, i, s.values[v]);
        if added.None? {
          return ErrInvalidState, out;
        }
        out := added.value;
        v := v + 1;
      }
      i := i + 1;
    }
    out := WithMessages(out, p);
    err := EspOk;
  }

  /** `dm_template_factory_build_signal_hold`: a signal topic, a heartbeat
      topic and a positive hold time are required; the fields are then
      copied verbatim. */
  function BuildSignalHold(p: SignalHoldParams): (r: Outcome<SignalTemplate>)
    ensures r.Ok? <==> p.signalTopic != "" && p.heartbeatTopic != "" && p.requiredHoldMs > 0
    ensures r.Fail? ==> r.err == ErrInvalidArg
    ensures r.Ok? ==> r.value == SignalTemplate(
      p.signalTopic, p.signalPayloadOn, p.signalPayloadOff, p.signalOnMs,
      p.heartbeatTopic, p.requiredHoldMs, p.heartbeatTimeoutMs,
      p.holdTrack, p.holdTrackLoop, p.completeTrack)
  {
    if p.signalTopic == "" || p.heartbeatTopic == "" || p.requiredHoldMs == 0 then Fail(ErrInvalidArg)
    else
      var t := SignalClear();
      Ok(t.(signalTopic := p.signalTopic, signalPayloadOn := p.signalPayloadOn,
            signalPayloadOff := p.signalPayloadOff, signalOnMs := p.signalOnMs,
            heartbeatTopic := p.heartbeatTopic, requiredHoldMs := p.requiredHoldMs,
            heartbeatTimeoutMs := p.heartbeatTimeoutMs, holdTrack := p.holdTrack,
            holdTrackLoop := p.holdTrackLoop, completeTrack := p.completeTrack))
  }

  /** A built signal-hold template passes the template runtime's
      registration check: it has a signal topic, a heartbeat topic and a
      hold time. */
  lemma SignalHoldComplete(p: SignalHoldParams)
    requires BuildSignalHold(p).Ok?
    ensures var t := BuildSignalHold(p).value;
      t.signalTopic != "" && t.heartbeatTopic != "" && t.requiredHoldMs > 0
  {
  }
}
