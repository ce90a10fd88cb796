/** The robot voice settings of the web UI (`web_ui_robot.c`): three track
    directories and eight named voice presets. Playing a preset publishes
    the path of its MP3 file on the `audio/play` topic; the publish and the
    flash writes are left to the caller. */
module Robot {
  import opened Common
  import opened UrlDecode

  const ROBOT_PRESET_COUNT: nat := 8
  /** A preset name buffer holds 48 bytes with its terminator. */
  const ROBOT_NAME_LEN: nat := 48

  /** A character `sanitize_name` keeps. */
  predicate NameChar(c: char) { IsAlnum(c) || c == '_' || c == '-' }

  /** The characters of `src` that `sanitize_name` keeps, in order. */
  function Kept(src: string): (r: string)
    ensures |r| <= |src|
    ensures forall i :: 0 <= i < |r| ==> NameChar(r[i])
  {
    if |src| == 0 then ""
    else if NameChar(src[0]) then [src[0]] + Kept(src[1..])
    else Kept(src[1..])
  }

  /** `sanitize_name` into a buffer of `dstSz` bytes: the kept characters,
      as many as fit before the terminator. A zero-sized buffer is left
      untouched (None). */
  function Sanitize(src: string, dstSz: nat): (r: Option<string>)
    ensures r.None? <==> dstSz == 0
    ensures r.Some? ==> |r.value| < dstSz && forall i :: 0 <= i < |r.value| ==> NameChar(r.value[i])
  {
    if dstSz == 0 then None
    else
      var k := Kept(src);
      Some(if |k| <= dstSz - 1 then k else k[..dstSz - 1])
  }

  /** Keeping the allowed characters of an already clean name changes
      nothing. */
  lemma {:induction false} KeptClean(s: string)
    requires forall i :: 0 <= i < |s| ==> NameChar(s[i])
    ensures Kept(s) == s
  {
    if |s| > 0 {
      KeptClean(s[1..]);
      assert [s[0]] + s[1..] == s;
    }
  }

  /** Keeping distributes over concatenation. */
  lemma {:induction false} KeptAppend(a: string, b: string)
    ensures Kept(a + b) == Kept(a) + Kept(b)
  {
    if |a| > 0 {
      assert (a + b)[1..] == a[1..] + b;
      KeptAppend(a[1..], b);
    } else {
      assert a + b == b;
    }
  }

  /** `sanitize_name` is idempotent: sanitising its own output into the
      same buffer yields the same name. */
  lemma SanitizeIdempotent(src: string, dstSz: nat)
    requires dstSz > 0
    ensures Sanitize(Sanitize(src, dstSz).value, dstSz) == Sanitize(src, dstSz)
  {
    KeptClean(Sanitize(src, dstSz).value);
  }

  /** A character outside the allowed set never survives: appending one
      does not change the result. */
  lemma SanitizeKeepsOrder(a: string, c: char, dstSz: nat)
    requires dstSz > 0 && !NameChar(c)
    ensures Sanitize(a + [c], dstSz) == Sanitize(a, dstSz)
  {
    KeptAppend(a, [c]);
    assert Kept([c]) == [];
    assert Kept(a) + [] == Kept(a);
  }

  /** A clean name that fits the buffer is kept whole. */
  lemma SanitizeCleanFits(s: string, dstSz: nat)
    requires |s| < dstSz && forall i :: 0 <= i < |s| ==> NameChar(s[i])
    ensures Sanitize(s, dstSz) == Some(s)
  {
    KeptClean(s);
  }

  /** One character of the copying loop: kept or skipped. */
  lemma KeptStep(src: string, i: nat)
    requires i < |src|
    ensures Kept(src[i..]) == (if NameChar(src[i]) then [src[i]] else []) + Kept(src[i + 1..])
  {
    assert src[i..][1..] == src[i + 1..];
  }

  /** `sanitize_name`: the copying loop. */
  method SanitizeName(src: string, dstSz: nat) returns (dst: Option<string>)
    ensures dst == Sanitize(src, dstSz)
  {
    if dstSz == 0 {
      return None;
    }
    var w: seq<char> := [];
    var i := 0;
    while i < |src| && |w| + 1 < dstSz
      invariant i <= |src| && |w| < dstSz
      invariant w + Kept(src[i..]) == Kept(src)
    {
      var c := src[i];
      KeptStep(src, i);
      if IsAlnum(c) || c == '_' || c == '-' {
        assert (w + [c]) + Kept(src[i + 1..]) == w + ([c] + Kept(src[i + 1..]));
        w := w + [c];
      }
      i := i + 1;
    }
    var k := Kept(src);
    if i == |src| {
      assert src[i..] == [];
      assert w + [] == w;
    } else {
      assert |w| == dstSz - 1;
      assert k[..|w|] == w;
      assert |k| == |w| ==> k == k[..|w|];
    }
    dst := Some(w);
  }

  /** `robot_cfg_t`: the track directories. */
  datatype RobotConfig = RobotConfig(laserDir: string, sarcasticDir: string, brokenDir: string)

  /** `robot_load_defaults`. */
  const DefaultRobotConfig: RobotConfig := RobotConfig("/sdcard/laser", "", "")

  /** The query buffers `laser_enc`, `sarcasm_enc` and `broken_enc` hold
      96 bytes, as do the decoded copies. */
  const DIR_BUF: nat := 96

  /** A directory parameter is decoded: "a%20b" is stored as "a b". */
  lemma DirDecoded()
    ensures QueryValue("a%20b", DIR_BUF) == "a b"
  {
    QueryValueFits("a%20b", DIR_BUF);
    var e := "a%20b";
    assert !EscapeAt(e) && e[1..] == "%20b";
    assert EscapeAt("%20b") && "%20b"[3..] == "b";
    assert HexByte('2', '0') == ' ';
    assert Decode("b") == "b" by { assert "b"[1..] == ""; }
    CStringOfClean("a b");
  }

  /** The name is cut before it is cleaned: `httpd_query_key_value` keeps
      ROBOT_NAME_LEN - 1 = 47 characters of the `name` parameter in
      `name_raw`, so "!!" followed by 47 letters keeps only 45 of the
      letters, the two dropped characters having taken the room of two
      letters. */
  lemma NameCutBeforeSanitising()
    ensures Sanitize(Prefix("!!" + seq(47, _ => 'a'), ROBOT_NAME_LEN - 1), ROBOT_NAME_LEN) == Some(seq(45, _ => 'a'))
    ensures |Kept("!!" + seq(47, _ => 'a'))| == 47
  {
    var letters := seq(47, _ => 'a');
    var raw := Prefix("!!" + letters, ROBOT_NAME_LEN - 1);
    assert raw == "!!" + seq(45, _ => 'a');
    assert Kept("!!") == "" by {
      assert "!!"[1..] == "!";
      assert "!"[1..] == "";
    }
    KeptAppend("!!", seq(45, _ => 'a'));
    KeptClean(seq(45, _ => 'a'));
    KeptAppend("!!", letters);
    KeptClean(letters);
  }

  /** What playing a preset does. */
  datatype PlayResult = Play(topic: string, path: string) | BadIndex | EmptySlot

  /** The robot settings and presets, updated in place. */
  class RobotSettings {
    var cfg: RobotConfig
    var presets: seq<string>

    ghost predicate Valid()
      reads this
    {
      |presets| == ROBOT_PRESET_COUNT
      && (forall i :: 0 <= i < |presets| ==> |presets[i]| < ROBOT_NAME_LEN)
      && |cfg.laserDir| < DIR_BUF && |cfg.sarcasticDir| < DIR_BUF && |cfg.brokenDir| < DIR_BUF
    }

    /** The defaults: the laser directory and eight empty presets. */
    constructor ()
      ensures Valid() && cfg == DefaultRobotConfig && presets == seq(ROBOT_PRESET_COUNT, _ => "")
    {
      cfg := DefaultRobotConfig;
      presets := seq(ROBOT_PRESET_COUNT, _ => "");
    }

    /** `robot_save_handler` without the flash write. The parameters are
        the URL-encoded query values; each is cut to 95 characters, then
        decoded, and replaces the stored directory when the result is not
        empty. */
    method SaveConfig(laser: string, sarcastic: string, broken: string)
      requires Valid()
      modifies this
      ensures Valid() && presets == old(presets)
      ensures var d := QueryValue(laser, DIR_BUF);
        cfg.laserDir == (if d != "" then d else old(cfg.laserDir))
      ensures var d := QueryValue(sarcastic, DIR_BUF);
        cfg.sarcasticDir == (if d != "" then d else old(cfg.sarcasticDir))
      ensures var d := QueryValue(broken, DIR_BUF);
        cfg.brokenDir == (if d != "" then d else old(cfg.brokenDir))
    {
      var l := QueryValue(laser, DIR_BUF);
      var sa := QueryValue(sarcastic, DIR_BUF);
      var b := QueryValue(broken, DIR_BUF);
      if l != "" {
        cfg := cfg.(laserDir := l);
      }
      if sa != "" {
        cfg := cfg.(sarcasticDir := sa);
      }
      if b != "" {
        cfg := cfg.(brokenDir := b);
      }
    }

    /** `robot_presets_set_handler` without the flash write: an index
        outside [0, 8) is refused; otherwise the slot gets the sanitised
        name, as far as the query buffer `name_raw` held it. */
    method SetPreset(idx: int, name: string) returns (err: EspErr)
      requires Valid()
      modifies this
      ensures Valid() && cfg == old(cfg)
      ensures err == ErrInvalidArg <==> !(0 <= idx < ROBOT_PRESET_COUNT)
      ensures err == ErrInvalidArg ==> presets == old(presets)
      ensures err != ErrInvalidArg ==>
        (err == EspOk && presets == old(presets)[idx := Sanitize(Prefix(name, ROBOT_NAME_LEN - 1), ROBOT_NAME_LEN).value])
    {
      if idx < 0 || idx >= ROBOT_PRESET_COUNT {
        return ErrInvalidArg;
      }
      var clean := SanitizeName(Prefix(name, ROBOT_NAME_LEN - 1), ROBOT_NAME_LEN);
      presets := presets[idx := clean.value];
      return EspOk;
    }

    /** `robot_presets_play_handler`: an index outside [0, 8) or an empty
        slot is refused; otherwise the preset's MP3 file is published. */
    method PlayPreset(idx: int) returns (r: PlayResult)
      requires Valid()
      ensures !(0 <= idx < ROBOT_PRESET_COUNT) <==> r == BadIndex
      ensures 0 <= idx < ROBOT_PRESET_COUNT ==> (presets[idx] == "" <==> r == EmptySlot)
      ensures r.Play? ==> r.topic == "audio/play" && r.path == "/sdcard/audio/" + presets[idx] + ".mp3"
    {
      if idx < 0 || idx >= ROBOT_PRESET_COUNT {
        return BadIndex;
      }
      var name := presets[idx];
      if |name| == 0 {
        return EmptySlot;
      }
      return Play("audio/play", "/sdcard/audio/" + name + ".mp3");
    }
  }

  /** A preset set through `SetPreset` plays a file whose name holds only
      letters, digits, '_' and '-', so the path stays inside the audio
      directory. */
  lemma PresetPathIsPlain(name: string)
    ensures var n := Sanitize(name, ROBOT_NAME_LEN).value;
      |n| < ROBOT_NAME_LEN && forall i :: 0 <= i < |n| ==> n[i] != '/' && n[i] != '.'
  {
  }
}
