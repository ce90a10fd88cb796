/** The pictures game of the web UI (`web_ui_pictures.c`): five RFID
    readers each sit under a picture; every reader has a list of allowed
    card UIDs, and the game is won when every configured reader has last
    seen one of its allowed cards. Strings are the characters before the
    C terminator; NVS, timers and the MQTT result messages are left to the
    caller. */
module Pictures {
  import opened Common
  import opened UrlDecode

  const PIC_DEVICES: nat := 5
  const PIC_UIDS: nat := 10
  /** A UID buffer holds 16 bytes with its terminator. */
  const UID_LEN: nat := 15

  /** Characters `parse_uids_csv` skips before each token. */
  predicate Sep(c: char) { c == ',' || c == ' ' }

  /** The first position at or after `p` that is not a separator. */
  function SkipSeps(s: string, p: nat): (q: nat)
    requires p <= |s|
    ensures p <= q <= |s|
    decreases |s| - p
  {
    if p < |s| && Sep(s[p]) then SkipSeps(s, p + 1) else p
  }

  /** `SkipSeps` passes separators only and stops at a non-separator. */
  lemma {:induction false} SkipSepsSpec(s: string, p: nat)
    requires p <= |s|
    ensures forall k :: p <= k < SkipSeps(s, p) ==> Sep(s[k])
    ensures SkipSeps(s, p) < |s| ==> !Sep(s[SkipSeps(s, p)])
    decreases |s| - p
  {
    if p < |s| && Sep(s[p]) {
      SkipSepsSpec(s, p + 1);
    }
  }

  /** The end of the token starting at `q`: the next ',' or the end of the
      text, but at most 15 characters on. */
  function TokenEnd(s: string, q: nat): (e: nat)
    requires q <= |s|
    ensures q <= e <= |s| && e - q <= UID_LEN
  {
    TokenEndFrom(s, q, q)
  }

  function TokenEndFrom(s: string, q: nat, i: nat): (e: nat)
    requires q <= i <= |s| && i - q <= UID_LEN
    ensures i <= e <= |s| && e - q <= UID_LEN
    decreases |s| - i
  {
    if i < |s| && s[i] != ',' && i - q < UID_LEN then TokenEndFrom(s, q, i + 1) else i
  }

  /** A token holds no comma and ends at a comma, at the end of the text,
      or after fifteen characters. */
  lemma {:induction false} TokenEndFromSpec(s: string, q: nat, i: nat)
    requires q <= i <= |s| && i - q <= UID_LEN
    ensures forall k :: i <= k < TokenEndFrom(s, q, i) ==> s[k] != ','
    ensures TokenEndFrom(s, q, i) < |s| && TokenEndFrom(s, q, i) - q < UID_LEN ==> s[TokenEndFrom(s, q, i)] == ','
    decreases |s| - i
  {
    if i < |s| && s[i] != ',' && i - q < UID_LEN {
      TokenEndFromSpec(s, q, i + 1);
    }
  }

  /** A token that starts at `q`, holds no comma and ends at `e`, where a
      comma or the end of the text is, or after fifteen characters, ends at
      `e`. */
  lemma {:induction false} TokenEndFromIs(s: string, q: nat, i: nat, e: nat)
    requires q <= i <= e <= |s| && e - q <= UID_LEN
    requires forall k :: i <= k < e ==> s[k] != ','
    requires e == |s| || s[e] == ',' || e - q == UID_LEN
    ensures TokenEndFrom(s, q, i) == e
    decreases e - i
  {
    if i < e {
      TokenEndFromIs(s, q, i + 1, e);
    }
  }

  /** A UID as `parse_uids_csv` yields it: one to fifteen characters, no
      comma, and not starting with a separator. */
  predicate UidToken(t: string) {
    0 < |t| <= UID_LEN && !Sep(t[0]) && forall k :: 0 <= k < |t| ==> t[k] != ','
  }

  /** The tokens of `s` from position `p`, at most `room` of them. */
  function ParseFrom(s: string, p: nat, room: nat): (toks: seq<string>)
    requires p <= |s|
    ensures |toks| <= room
    decreases |s| - p
  {
    if room == 0 then []
    else
      var q := SkipSeps(s, p);
      if q == |s| then []
      else
        var e := TokenEnd(s, q);
        var next := if e < |s| && s[e] == ',' then e + 1 else e;
        [s[q..e]] + ParseFrom(s, next, room - 1)
  }

  /** One step of `ParseFrom`: the token after the separators, then the
      rest after its comma. */
  lemma ParseStep(s: string, p: nat, room: nat)
    requires p <= |s| && room > 0 && SkipSeps(s, p) < |s|
    ensures var q := SkipSeps(s, p);
      var e := TokenEnd(s, q);
      ParseFrom(s, p, room)
      == [s[q..e]] + ParseFrom(s, if e < |s| && s[e] == ',' then e + 1 else e, room - 1)
  {
  }

  /** `ParseStep` for a token that starts at `p` and ends at `e`. */
  lemma ParseStepAt(s: string, p: nat, room: nat, e: nat)
    requires p <= |s| && room > 0 && SkipSeps(s, p) == p < |s| && TokenEnd(s, p) == e
    ensures e < |s| && s[e] == ',' ==> ParseFrom(s, p, room) == [s[p..e]] + ParseFrom(s, e + 1, room - 1)
    ensures e == |s| ==> ParseFrom(s, p, room) == [s[p..e]] + ParseFrom(s, e, room - 1)
  {
  }

  /** `parse_uids_csv`: the UIDs of a comma separated list. */
  function ParseCsv(s: string): (toks: seq<string>)
    ensures |toks| <= PIC_UIDS
    ensures forall i :: 0 <= i < |toks| ==> UidToken(toks[i])
  {
    ParseFromTokens(s, 0, PIC_UIDS);
    ParseFrom(s, 0, PIC_UIDS)
  }

  /** Every token `ParseFrom` yields is a well-formed UID. */
  lemma {:induction false} ParseFromTokens(s: string, p: nat, room: nat)
    requires p <= |s|
    ensures forall i :: 0 <= i < |ParseFrom(s, p, room)| ==> UidToken(ParseFrom(s, p, room)[i])
    decreases |s| - p
  {
    if room > 0 && SkipSeps(s, p) < |s| {
      var q := SkipSeps(s, p);
      var e := TokenEnd(s, q);
      var next := if e < |s| && s[e] == ',' then e + 1 else e;
      ParseFromTokens(s, next, room - 1);
      ParseStep(s, p, room);
      SkipSepsSpec(s, p);
      TokenEndFromSpec(s, q, q);
      assert UidToken(s[q..e]);
    }
  }

  /** The list the web page sends: the UIDs joined by commas. */
  function JoinCsv(toks: seq<string>): string {
    if |toks| == 0 then ""
    else if |toks| == 1 then toks[0]
    else toks[0] + "," + JoinCsv(toks[1..])
  }

  /** `s` holds the UIDs `toks` joined by commas from position `p` on. */
  predicate JoinedAt(s: string, p: nat, toks: seq<string>)
    decreases |toks|
  {
    p <= |s|
    && if |toks| == 0 then p == |s|
       else
         var e := p + |toks[0]|;
         e <= |s| && s[p..e] == toks[0]
         && if |toks| == 1 then e == |s| else e < |s| && s[e] == ',' && JoinedAt(s, e + 1, toks[1..])
  }

  /** The first UID of a joined list and what follows it. */
  lemma JoinHead(s: string, p: nat, toks: seq<string>)
    requires p <= |s| && s[p..] == JoinCsv(toks) && |toks| > 0
    ensures p + |toks[0]| <= |s| && s[p..p + |toks[0]|] == toks[0]
    ensures |toks| == 1 ==> p + |toks[0]| == |s|
    ensures |toks| > 1 ==>
      (p + |toks[0]| < |s| && s[p + |toks[0]|] == ','
       && s[p + |toks[0]| + 1..] == JoinCsv(toks[1..]))
  {
    var t := toks[0];
    var e := p + |t|;
    var rest := if |toks| == 1 then "" else "," + JoinCsv(toks[1..]);
    assert s[p..] == t + rest;
    assert s[p..e] == s[p..][..|t|];
    if |toks| > 1 {
      assert s[e] == s[p..][|t|];
      assert s[e + 1..] == s[p..][|t| + 1..];
    }
  }

  lemma {:induction false} JoinedAtJoin(s: string, p: nat, toks: seq<string>)
    requires p <= |s| && s[p..] == JoinCsv(toks)
    ensures JoinedAt(s, p, toks)
    decreases |toks|
  {
    if |toks| > 0 {
      JoinHead(s, p, toks);
      if |toks| > 1 {
        JoinedAtJoin(s, p + |toks[0]| + 1, toks[1..]);
      }
    }
  }

  /** `ParseFrom` on joined UIDs reads the first of them and goes on after
      its comma. */
  lemma ParseJoinedStep(s: string, p: nat, toks: seq<string>, room: nat)
    requires JoinedAt(s, p, toks)
    requires |toks| > 0 && UidToken(toks[0]) && room > 0
    ensures |toks| == 1 ==> ParseFrom(s, p, room) == [toks[0]]
    ensures |toks| > 1 ==> ParseFrom(s, p, room) == [toks[0]] + ParseFrom(s, p + |toks[0]| + 1, room - 1)
  {
    var t := toks[0];
    var e := p + |t|;
    forall k | p <= k < e
      ensures s[k] == t[k - p]
    {
      assert s[k] == s[p..e][k - p];
    }
    assert s[p] == t[0];
    assert SkipSeps(s, p) == p;
    TokenEndFromIs(s, p, p, e);
    ParseStepAt(s, p, room, e);
    if |toks| == 1 {
      ParseAtEnd(s, room - 1);
    }
  }

  /** Nothing is left to parse at the end of the text. */
  lemma ParseAtEnd(s: string, room: nat)
    ensures ParseFrom(s, |s|, room) == []
  {
    assert SkipSeps(s, |s|) == |s|;
  }

  /** Every UID of the list is well formed. */
  predicate AllUids(toks: seq<string>) {
    |toks| == 0 || (UidToken(toks[0]) && AllUids(toks[1..]))
  }

  lemma {:induction false} AllUidsEach(toks: seq<string>)
    requires forall i :: 0 <= i < |toks| ==> UidToken(toks[i])
    ensures AllUids(toks)
  {
    if |toks| > 0 {
      AllUidsEach(toks[1..]);
    }
  }

  lemma {:induction false} ParseJoinedAt(s: string, p: nat, toks: seq<string>, room: nat)
    requires JoinedAt(s, p, toks)
    requires |toks| <= room && AllUids(toks)
    ensures ParseFrom(s, p, room) == toks
    decreases |toks|
  {
    if |toks| == 0 {
      ParseAtEnd(s, room);
    } else {
      ParseJoinedStep(s, p, toks, room);
      if |toks| > 1 {
        var e := p + |toks[0]| + 1;
        ParseJoinedAt(s, e, toks[1..], room - 1);
        assert toks == [toks[0]] + toks[1..];
      }
    }
  }

  /** A list of at most ten well-formed UIDs, joined by commas, parses back
      to the same UIDs. */
  lemma ParseJoinRoundTrip(toks: seq<string>)
    requires |toks| <= PIC_UIDS
    requires forall i :: 0 <= i < |toks| ==> UidToken(toks[i])
    ensures ParseCsv(JoinCsv(toks)) == toks
  {
    AllUidsEach(toks);
    JoinedAtJoin(JoinCsv(toks), 0, toks);
    ParseJoinedAt(JoinCsv(toks), 0, toks, PIC_UIDS);
  }

  /** A token longer than fifteen characters is cut, and the rest of it is
      read as the next UID. */
  lemma LongUidSplits()
    ensures ParseCsv("0123456789abcdefg") == ["0123456789abcde", "fg"]
  {
    var s := "0123456789abcdefg";
    assert forall k :: 0 <= k < |s| ==> s[k] != ',';
    assert SkipSeps(s, 0) == 0;
    TokenEndFromIs(s, 0, 0, 15);
    ParseStepAt(s, 0, PIC_UIDS, 15);
    assert SkipSeps(s, 15) == 15;
    TokenEndFromIs(s, 15, 15, 17);
    ParseStepAt(s, 15, PIC_UIDS - 1, 17);
    ParseAtEnd(s, PIC_UIDS - 2);
    assert s[0..15] == "0123456789abcde";
    assert s[15..17] == "fg";
  }

  /** `parse_uids_csv`: the scanning loop. */
  method ParseUidsCsv(csv: string) returns (out: seq<string>)
    ensures out == ParseCsv(csv)
  {
    out := [];
    var p := 0;
    ghost var all := ParseFrom(csv, 0, PIC_UIDS);
    while p < |csv| && |out| < PIC_UIDS
      invariant p <= |csv| && |out| <= PIC_UIDS
      invariant out + ParseFrom(csv, p, PIC_UIDS - |out|) == all
      decreases |csv| - p
    {
      ghost var p0 := p;
      ghost var room := PIC_UIDS - |out|;
      p := SkipSeparators(csv, p);
      if p == |csv| {
        ParseAtEnd(csv, room);
        break;
      }
      var q := p;
      var buf := ReadToken(csv, q);
      p := q + |buf|;
      if p < |csv| && csv[p] == ',' {
        p := p + 1;
      }
      ParseLoopStep(csv, p0, room, q, p, out);
      out := out + [buf];
    }
    if p == |csv| {
      ParseAtEnd(csv, PIC_UIDS - |out|);
    }
    assert out == all;
  }

  /** One round of the scanning loop: the token after the separators, read
      up to its end, and the position after its comma. */
  lemma ParseLoopStep(s: string, p0: nat, room: nat, q: nat, p: nat, out: seq<string>)
    requires p0 <= |s| && room > 0 && q == SkipSeps(s, p0) < |s|
    requires p == (if TokenEnd(s, q) < |s| && s[TokenEnd(s, q)] == ',' then TokenEnd(s, q) + 1 else TokenEnd(s, q))
    ensures p0 < p <= |s|
    ensures out + ParseFrom(s, p0, room) == (out + [s[q..TokenEnd(s, q)]]) + ParseFrom(s, p, room - 1)
  {
    SkipSepsSpec(s, p0);
    assert TokenEnd(s, q) > q;
    var tok := s[q..TokenEnd(s, q)];
    var rest := ParseFrom(s, p, room - 1);
    assert ParseFrom(s, p0, room) == [tok] + rest;
    assert out + ([tok] + rest) == (out + [tok]) + rest;
  }

  /** The loop that skips commas and spaces. */
  method SkipSeparators(s: string, p0: nat) returns (p: nat)
    requires p0 <= |s|
    ensures p == SkipSeps(s, p0)
  {
    p := p0;
    while p < |s| && Sep(s[p])
      invariant p0 <= p <= |s| && SkipSeps(s, p) == SkipSeps(s, p0)
      decreases |s| - p
    {
      p := p + 1;
    }
  }

  /** The loop that copies one token into the 16-byte buffer. */
  method ReadToken(s: string, q: nat) returns (buf: string)
    requires q <= |s|
    ensures q + |buf| == TokenEnd(s, q) && buf == s[q..TokenEnd(s, q)]
  {
    buf := [];
    var i := 0;
    while q + i < |s| && s[q + i] != ',' && i < UID_LEN
      invariant q + i <= |s| && i <= UID_LEN
      invariant forall k :: q <= k < q + i ==> s[k] != ','
      invariant TokenEndFrom(s, q, q + i) == TokenEnd(s, q)
      invariant buf == s[q..q + i]
      decreases |s| - i
    {
      buf := buf + [s[q + i]];
      i := i + 1;
    }
  }

  /** `pic_device_cfg_t`: the allowed UIDs (its `count` is their number)
      and the UID the reader last reported. */
  datatype PicDevice = PicDevice(uids: seq<string>, lastUid: string)

  const EmptyDevice: PicDevice := PicDevice([], "")

  /** `pic_uid_allowed` for a device: a non-empty UID equal to one of its
      allowed UIDs. */
  predicate UidAllowed(d: PicDevice, uid: string) {
    uid != "" && exists i :: 0 <= i < |d.uids| && d.uids[i] == uid
  }

  /** `pic_uid_allowed`: the range guard and the loop over the UIDs. */
  method CheckUidAllowed(devs: seq<PicDevice>, idx: int, uid: string) returns (ok: bool)
    ensures ok <==> 0 <= idx < PIC_DEVICES && idx < |devs| && UidAllowed(devs[idx], uid)
  {
    if idx < 0 || idx >= PIC_DEVICES || idx >= |devs| || uid == "" {
      return false;
    }
    var d := devs[idx];
    var i := 0;
    while i < |d.uids|
      invariant i <= |d.uids|
      invariant forall k :: 0 <= k < i ==> d.uids[k] != uid
    {
      if d.uids[i] == uid {
        return true;
      }
      i := i + 1;
    }
    return false;
  }

  /** A device takes part when it has at least one allowed UID. */
  predicate Configured(d: PicDevice) { |d.uids| > 0 }

  /** A configured device is satisfied when it was seen with an allowed
      last UID. */
  predicate Satisfied(d: PicDevice, seen: bool) {
    seen && d.lastUid != "" && UidAllowed(d, d.lastUid)
  }

  /** `pic_all_match_locked`: false with no configured device; otherwise
      every configured device is satisfied. */
  predicate AllMatch(devs: seq<PicDevice>, seen: seq<bool>)
    requires |devs| == |seen|
  {
    (exists i :: 0 <= i < |devs| && Configured(devs[i]))
    && forall i :: 0 <= i < |devs| && Configured(devs[i]) ==> Satisfied(devs[i], seen[i])
  }

  /** `pic_all_match_locked`: the loop that counts configured devices and
      failures. */
  method AllMatchLocked(devs: seq<PicDevice>, seen: seq<bool>) returns (ok: bool)
    requires |devs| == PIC_DEVICES && |seen| == PIC_DEVICES
    ensures ok == AllMatch(devs, seen)
  {
    ok := true;
    var configured := 0;
    var i := 0;
    while i < |devs|
      invariant i <= |devs|
      invariant (configured > 0) <==> exists k :: 0 <= k < i && Configured(devs[k])
      invariant ok <==> forall k :: 0 <= k < i && Configured(devs[k]) ==> Satisfied(devs[k], seen[k])
    {
      var d := devs[i];
      if |d.uids| == 0 {
        i := i + 1;
        continue;
      }
      configured := configured + 1;
      if !seen[i] || d.lastUid == "" {
        ok := false;
      } else {
        var allowed := CheckUidAllowed(devs, i, d.lastUid);
        if !allowed {
          ok := false;
        }
        assert allowed == Satisfied(devs[i], seen[i]);
      }
      i := i + 1;
    }
    if configured == 0 {
      return false;
    }
  }

  /** Without a configured device the game is never won. */
  lemma NoConfiguredNeverMatches(devs: seq<PicDevice>, seen: seq<bool>)
    requires |devs| == |seen|
    requires forall i :: 0 <= i < |devs| ==> devs[i].uids == []
    ensures !AllMatch(devs, seen)
  {
  }

  /** The query buffer `uids_enc` and its decoded copy hold 256 bytes. */
  const UIDS_BUF: nat := 256
  /** The query buffers `ok` and `fail` and their decoded copies hold 96
      bytes. */
  const TRACK_BUF: nat := 96

  /** The pictures state: the five readers' configuration, which of them
      reported since the last forced cycle, and the result tracks. */
  class PictureBoard {
    var devs: seq<PicDevice>
    var seen: seq<bool>
    var trackOk: string
    var trackFail: string

    ghost predicate Valid()
      reads this
    {
      |devs| == PIC_DEVICES && |seen| == PIC_DEVICES
      && (forall i :: 0 <= i < |devs| ==>
           |devs[i].uids| <= PIC_UIDS && |devs[i].lastUid| <= UID_LEN)
      && |trackOk| < TRACK_BUF && |trackFail| < TRACK_BUF
    }

    /** `pic_load_defaults` followed by clearing the seen flags. */
    constructor ()
      ensures Valid() && devs == seq(PIC_DEVICES, _ => EmptyDevice)
      ensures seen == seq(PIC_DEVICES, _ => false) && trackOk == "" && trackFail == ""
    {
      devs := seq(PIC_DEVICES, _ => EmptyDevice);
      seen := seq(PIC_DEVICES, _ => false);
      trackOk, trackFail := "", "";
    }

    /** `pic_handle_scan`: a reader outside [0, 5) is ignored; otherwise
        its last UID becomes the (truncated) reported one and it counts as
        seen. Returns the game state after the scan. */
    method HandleScan(idx: int, uid: string) returns (ok: bool)
      requires Valid()
      modifies this
      ensures Valid() && trackOk == old(trackOk) && trackFail == old(trackFail)
      ensures !(0 <= idx < PIC_DEVICES) ==> devs == old(devs) && seen == old(seen)
      ensures 0 <= idx < PIC_DEVICES ==>
        devs == old(devs)[idx := old(devs)[idx].(lastUid := Prefix(uid, UID_LEN))]
        && seen == old(seen)[idx := true]
      ensures ok == AllMatch(devs, seen)
    {
      if idx < 0 || idx >= PIC_DEVICES {
        ok := AllMatchLocked(devs, seen);
        return;
      }
      devs := devs[idx := devs[idx].(lastUid := Prefix(uid, UID_LEN))];
      seen := seen[idx := true];
      ok := AllMatchLocked(devs, seen);
    }

    /** `pic_start_force_cycle`: every reader must report again. */
    method StartForceCycle()
      requires Valid()
      modifies this
      ensures Valid() && devs == old(devs) && trackOk == old(trackOk) && trackFail == old(trackFail)
      ensures forall i :: 0 <= i < |seen| ==> !seen[i]
    {
      seen := seq(PIC_DEVICES, _ => false);
    }

    /** `pictures_device_save_handler` without the flash write: the index
        parameter is 1-based; a bad index is refused; otherwise the device
        gets the UIDs parsed from the `uids` parameter, which is cut to 255
        characters and then URL-decoded, forgets its last UID and is
        unseen. */
    method DeviceSave(idxParam: int, uids: string) returns (err: EspErr)
      requires Valid()
      modifies this
      ensures Valid() && trackOk == old(trackOk) && trackFail == old(trackFail)
      ensures err == ErrInvalidArg <==> !(1 <= idxParam <= PIC_DEVICES)
      ensures err == ErrInvalidArg ==> devs == old(devs) && seen == old(seen)
      ensures err != ErrInvalidArg ==>
        (err == EspOk
         && devs == old(devs)[idxParam - 1 := PicDevice(ParseCsv(QueryValue(uids, UIDS_BUF)), "")]
         && seen == old(seen)[idxParam - 1 := false])
    {
      var idx := idxParam - 1;
      if idx < 0 || idx >= PIC_DEVICES {
        return ErrInvalidArg;
      }
      var parsed := ParseUidsCsv(QueryValue(uids, UIDS_BUF));
      devs := devs[idx := PicDevice(parsed, "")];
      seen := seen[idx := false];
      return EspOk;
    }

    /** `pictures_tracks_save_handler` without the flash write: each
        parameter is cut to 95 characters, then URL-decoded, and replaces
        the stored track when the result is not empty. A stored track fits
        its 96-byte field. */
    method TracksSave(ok: string, fail: string)
      requires Valid()
      modifies this
      ensures Valid() && devs == old(devs) && seen == old(seen)
      ensures var t := QueryValue(ok, TRACK_BUF);
        trackOk == (if t != "" then t else old(trackOk))
      ensures var t := QueryValue(fail, TRACK_BUF);
        trackFail == (if t != "" then t else old(trackFail))
    {
      var okDec := QueryValue(ok, TRACK_BUF);
      var failDec := QueryValue(fail, TRACK_BUF);
      if okDec != "" {
        trackOk := okDec;
      }
      if failDec != "" {
        trackFail := failDec;
      }
    }
  }

  /** After a forced cycle the game cannot be won until every configured
      reader has reported again. */
  lemma ForcedCycleFailsUntilScanned(devs: seq<PicDevice>, seen: seq<bool>, i: nat)
    requires |devs| == |seen| && i < |devs| && Configured(devs[i]) && !seen[i]
    ensures !AllMatch(devs, seen)
  {
  }

  /** A saved device with UIDs keeps the game from being won until it is
      scanned with one of its new UIDs. */
  lemma SavedDeviceMustRescan(devs: seq<PicDevice>, seen: seq<bool>, i: nat, csv: string)
    requires |devs| == |seen| && i < |devs| && ParseCsv(csv) != []
    ensures !AllMatch(devs[i := PicDevice(ParseCsv(csv), "")], seen[i := false])
  {
    ForcedCycleFailsUntilScanned(devs[i := PicDevice(ParseCsv(csv), "")], seen[i := false], i);
  }

  /** A scan of an allowed UID on the only configured device wins. */
  lemma ScanAllowedWins(devs: seq<PicDevice>, seen: seq<bool>, i: nat, j: nat)
    requires |devs| == |seen| && i < |devs| && j < |devs[i].uids| && devs[i].uids[j] != ""
    requires forall k :: 0 <= k < |devs| && k != i ==> devs[k].uids == []
    ensures AllMatch(devs[i := devs[i].(lastUid := devs[i].uids[j])], seen[i := true])
  {
    var d := devs[i := devs[i].(lastUid := devs[i].uids[j])];
    assert Configured(d[i]);
    assert UidAllowed(d[i], d[i].lastUid);
  }

  /** Encoded '+' blanks decode to blanks. */
  lemma {:induction false} DecodePluses(k: nat)
    ensures Decode(seq(k, _ => '+')) == seq(k, _ => ' ')
  {
    if k > 0 {
      var p := seq(k, _ => '+');
      assert !EscapeAt(p) && p[1..] == seq(k - 1, _ => '+');
      DecodePluses(k - 1);
      assert seq(k, _ => ' ') == [' '] + seq(k - 1, _ => ' ');
    }
  }

  /** From a position inside a run of separators that reaches the end,
      `SkipSeps` goes to the end. */
  lemma {:induction false} SkipSepsToEnd(s: string, p: nat)
    requires p <= |s| && forall k :: p <= k < |s| ==> Sep(s[k])
    ensures SkipSeps(s, p) == |s|
    decreases |s| - p
  {
    if p < |s| {
      SkipSepsToEnd(s, p + 1);
    }
  }

  /** Encoded blanks count against the 255 characters `uids_enc` keeps:
      260 '+' followed by "ABCD" are cut to 255 '+', which decode to
      blanks, so the reader is saved with no UID at all. */
  lemma BlanksFillUidBuffer()
    ensures ParseCsv(QueryValue(seq(260, _ => '+') + "ABCD", UIDS_BUF)) == []
  {
    var raw := seq(260, _ => '+') + "ABCD";
    assert Prefix(raw, UIDS_BUF - 1) == seq(255, _ => '+');
    DecodePluses(255);
    var blanks := seq(255, _ => ' ');
    assert '\0' !in blanks by {
      assert forall i :: 0 <= i < |blanks| ==> blanks[i] != '\0';
    }
    CStringOfClean(blanks);
    SkipSepsToEnd(blanks, 0);
  }
}
