/** The audio player's control state (`audio_player.c`): format sniffing of
    a file header, the volume setting with its deferred flash save, the
    pause and resume guards and the status record the web UI polls. I2S,
    the SD card, the decoder task and seeking are left out; the result of
    enabling the I2S channel is a parameter. */
module AudioPlayer {
  import opened Common

  /** `audio_format_t`. */
  datatype AudioFormat = FmtUnknown | FmtWav | FmtMp3 | FmtOgg

  /** The magic numbers, as ASCII codes. */
  const RIFF: seq<byte> := [0x52, 0x49, 0x46, 0x46]
  const WAVE: seq<byte> := [0x57, 0x41, 0x56, 0x45]
  const ID3: seq<byte> := [0x49, 0x44, 0x33]
  const OGGS: seq<byte> := [0x4F, 0x67, 0x67, 0x53]

  /** A RIFF container of WAVE data. */
  predicate IsWavHeader(h: seq<byte>) { |h| >= 12 && h[..4] == RIFF && h[8..12] == WAVE }
  /** An ID3 tag in front of MP3 frames. */
  predicate IsId3Header(h: seq<byte>) { |h| >= 3 && h[..3] == ID3 }
  /** An MPEG frame sync: eleven set bits, i.e. 0xFF and a second byte
      whose top three bits are set (`(h[1] & 0xE0) == 0xE0`). */
  predicate IsFrameSync(h: seq<byte>) { |h| >= 2 && h[0] == 0xFF && h[1] >= 0xE0 }
  /** An Ogg page. */
  predicate IsOggHeader(h: seq<byte>) { |h| >= 4 && h[..4] == OGGS }

  /** `detect_format`: the checks in the source's order, each guarded by
      the header length. */
  function DetectFormat(h: seq<byte>): AudioFormat {
    if IsWavHeader(h) then FmtWav
    else if IsId3Header(h) then FmtMp3
    else if IsFrameSync(h) then FmtMp3
    else if IsOggHeader(h) then FmtOgg
    else FmtUnknown
  }

  /** The magics are told apart by their first byte, so the order of the
      checks does not matter: every header with a magic is recognised as
      its own format, whatever follows. */
  lemma DetectFormatRecognises(h: seq<byte>)
    ensures IsWavHeader(h) ==> DetectFormat(h) == FmtWav
    ensures IsId3Header(h) ==> DetectFormat(h) == FmtMp3
    ensures IsFrameSync(h) ==> DetectFormat(h) == FmtMp3
    ensures IsOggHeader(h) ==> DetectFormat(h) == FmtOgg
    ensures DetectFormat(h) == FmtUnknown <==>
      !IsWavHeader(h) && !IsId3Header(h) && !IsFrameSync(h) && !IsOggHeader(h)
  {
    if IsOggHeader(h) {
      assert h[0] == 0x4F;
    }
    if IsId3Header(h) {
      assert h[0] == 0x49;
    }
    if IsFrameSync(h) && |h| >= 4 {
      assert h[..4][0] == 0xFF;
    }
  }

  /** Headers too short for any magic are unknown; the magic alone, with
      nothing after it, is enough for every format but WAV, which needs the
      WAVE tag at offset 8. */
  lemma ShortHeaders()
    ensures DetectFormat([]) == FmtUnknown && DetectFormat([0xFF]) == FmtUnknown
    ensures DetectFormat(ID3) == FmtMp3 && DetectFormat(OGGS) == FmtOgg
    ensures DetectFormat([0xFF, 0xFB]) == FmtMp3
    ensures DetectFormat(RIFF) == FmtUnknown
  {
    assert ID3[..3] == ID3;
    assert OGGS[..4] == OGGS;
    assert OGGS[..3][0] != ID3[0];
    assert RIFF[..3][0] != ID3[0];
  }

  /** `size_t` on the ESP32 is 32 bits wide. */
  const SIZE_MOD: int := 0x1_0000_0000

  /** The conversion of a `size_t` value to `int`: values above INT_MAX
      come out negative on the target. */
  function ToInt32(v: int): (r: int)
    requires 0 <= v < SIZE_MOD
    ensures -0x8000_0000 <= r < 0x8000_0000
    ensures v < 0x8000_0000 ==> r == v
  {
    if v < 0x8000_0000 then v else v - SIZE_MOD
  }

  /** `status_update_progress` as written: `bytes_read * 100U` is computed
      in 32-bit `size_t` and wraps before the division. */
  function ProgressAsWritten(bytesRead: nat, totalBytes: nat): (r: int)
    requires bytesRead < SIZE_MOD && 0 < totalBytes < SIZE_MOD
    ensures r <= 100
  {
    var p := ToInt32(((bytesRead * 100) % SIZE_MOD) / totalBytes);
    if p > 100 then 100 else p
  }

  /** The percentage the status promises: bytes read over total, capped at
      100. */
  function Progress(bytesRead: nat, totalBytes: nat): (r: int)
    requires 0 < totalBytes
    ensures 0 <= r <= 100
    ensures bytesRead == 0 ==> r == 0
  {
    var p := (bytesRead * 100) / totalBytes;
    if p > 100 then 100 else p
  }

  /** More bytes read never lowers the progress. */
  lemma ProgressMonotone(a: nat, b: nat, total: nat)
    requires 0 < total && a <= b
    ensures Progress(a, total) <= Progress(b, total)
  {
    MulDivMonotone(a * 100, b * 100, total);
  }

  /** Multiplying by the same natural keeps the order. */
  lemma {:induction false} MulLe(a: int, b: int, c: nat)
    ensures a <= b ==> a * c <= b * c
  {
    if c > 0 {
      MulLe(a, b, c - 1);
      assert a * c == a * (c - 1) + a;
      assert b * c == b * (c - 1) + b;
    }
  }

  /** Whole division by a positive divisor keeps the order. */
  lemma MulDivMonotone(x: nat, y: nat, d: nat)
    requires 0 < d && x <= y
    ensures x / d <= y / d
  {
    var qx, qy := x / d, y / d;
    assert qx * d <= x;
    assert y < qy * d + d;
    MulLe(qy + 1, qx, d);
    assert (qy + 1) * d == qy * d + d;
  }

  /** Once every byte is read the progress is 100. */
  lemma ProgressFull(bytesRead: nat, totalBytes: nat)
    requires 0 < totalBytes <= bytesRead
    ensures Progress(bytesRead, totalBytes) == 100
  {
    MulLe(totalBytes, bytesRead, 100);
    MulDivMonotone(totalBytes * 100, bytesRead * 100, totalBytes);
    DivSelf(100, totalBytes);
  }

  /** `(k * d) / d == k` for a positive divisor. */
  lemma DivSelf(k: nat, d: nat)
    requires 0 < d
    ensures (d * k) / d == k
  {
    var q := (d * k) / d;
    MulLe(q + 1, k, d);
    MulLe(k + 1, q, d);
    assert (q + 1) * d == q * d + d && (k + 1) * d == k * d + d;
  }

  /** Below the cap the progress is the whole percentage of the bytes read:
      it is the largest `r` with `r * total <= bytes * 100`. */
  lemma ProgressIsPercentage(bytesRead: nat, totalBytes: nat)
    requires 0 < totalBytes && bytesRead <= totalBytes
    ensures var r := Progress(bytesRead, totalBytes);
      r * totalBytes <= bytesRead * 100 < (r + 1) * totalBytes
  {
    var q := (bytesRead * 100) / totalBytes;
    MulDivMonotone(bytesRead * 100, totalBytes * 100, totalBytes);
    assert (totalBytes * 100) / totalBytes == 100;
    assert q <= 100;
    assert q * totalBytes <= bytesRead * 100 < (q + 1) * totalBytes;
  }

  /** Up to 42,949,672 bytes the 32-bit product does not wrap and the code
      computes the promised percentage. */
  lemma ProgressAsWrittenSmallFiles(bytesRead: nat, totalBytes: nat)
    requires bytesRead <= 42949672 && 0 < totalBytes < SIZE_MOD && bytesRead <= totalBytes
    ensures ProgressAsWritten(bytesRead, totalBytes) == Progress(bytesRead, totalBytes)
  {
    var x := bytesRead * 100;
    assert x <= 4294967200 < SIZE_MOD;
    assert x % SIZE_MOD == x;
    MulDivMonotone(x, totalBytes * 100, totalBytes);
    assert (totalBytes * 100) / totalBytes == 100;
    assert x / totalBytes <= 100;
  }

  /** Fifty of sixty million bytes read: the product wraps and the status
      shows 11 % where 83 % is meant. */
  lemma ProgressWrapsOnLargeFiles()
    ensures ProgressAsWritten(50000000, 60000000) == 11
    ensures Progress(50000000, 60000000) == 83
  {
    assert (50000000 * 100) % SIZE_MOD == 705032704;
  }

  /** The status record of `audio_player_status_t` the web UI polls
      (path, message and format are left out). */
  datatype Status = Status(playing: bool, paused: bool, volume: int, progress: int,
                           posMs: int, durMs: int, bitrateKbps: int)

  /** `status_set_playing`: stopping clears pause, progress, position,
      duration and bitrate. */
  function SetPlaying(s: Status, playing: bool): (r: Status)
    ensures r.playing == playing && r.volume == s.volume
    ensures playing ==> r == s.(playing := true)
    ensures !playing ==> !r.paused && r.progress == 0 && r.posMs == 0 && r.durMs == 0 && r.bitrateKbps == 0
  {
    if playing then s.(playing := true)
    else s.(playing := false, paused := false, progress := 0, posMs := 0, durMs := 0, bitrateKbps := 0)
  }

  /** `status_update_progress` (with the corrected percentage): each of
      the three values changes only when its input is known (positive). */
  function UpdateProgress(s: Status, bytesRead: nat, totalBytes: nat, posMs: nat, estTotalMs: nat): (r: Status)
    ensures r == s.(progress := r.progress, posMs := r.posMs, durMs := r.durMs)
    ensures totalBytes > 0 ==> r.progress == Progress(bytesRead, totalBytes)
    ensures totalBytes == 0 ==> r.progress == s.progress
    ensures r.posMs == (if posMs > 0 then posMs else s.posMs)
    ensures r.durMs == (if estTotalMs > 0 then estTotalMs else s.durMs)
  {
    var s1 := if totalBytes > 0 then s.(progress := Progress(bytesRead, totalBytes)) else s;
    var s2 := if posMs > 0 then s1.(posMs := posMs) else s1;
    if estTotalMs > 0 then s2.(durMs := estTotalMs) else s2
  }

  /** The volume the setter stores: the request clamped to [0, 100]. */
  function ClampVolume(percent: int): (r: int)
    ensures 0 <= r <= 100
    ensures 0 <= percent <= 100 ==> r == percent
    ensures percent < 0 ==> r == 0
    ensures percent > 100 ==> r == 100
  {
    if percent < 0 then 0 else if percent > 100 then 100 else percent
  }

  /** The player's control state. `pendingVolume` is -1 when no flash save
      is queued; `hasTxChan` says whether the I2S channel exists. */
  class Player {
    var volume: int
    var currentVolume: int
    var volumeLoaded: bool
    var pendingVolume: int
    var paused: bool
    var hasTxChan: bool
    var txEnabled: bool
    var lastBitrateKbps: int
    var status: Status

    /** The state the player keeps between calls: the status shows the
        volume, and a queued save is the current volume. */
    ghost predicate Valid()
      reads this
    {
      status.volume == volume && currentVolume == volume
      && (pendingVolume == -1 || 0 <= pendingVolume <= 100)
      && (pendingVolume != -1 ==> volumeLoaded)
    }

    /** The static initialisers: volume 70, nothing loaded or queued. */
    constructor (txChan: bool)
      ensures Valid() && volume == 70 && !volumeLoaded && pendingVolume == -1
      ensures !paused && hasTxChan == txChan && !txEnabled
      ensures status == Status(false, false, 70, 0, 0, 0, 0)
    {
      volume, currentVolume := 70, 70;
      volumeLoaded := false;
      pendingVolume := -1;
      paused := false;
      hasTxChan := txChan;
      txEnabled := false;
      lastBitrateKbps := 0;
      status := Status(false, false, 70, 0, 0, 0, 0);
    }

    /** The volume part of `audio_player_init`: a stored volume (any byte,
        not clamped) replaces the current one, and saving is allowed from
        now on. */
    method LoadVolume(stored: Option<byte>)
      requires Valid()
      modifies this
      ensures Valid() && volumeLoaded
      ensures volume == (if stored.Some? then stored.value as int else old(volume))
      ensures pendingVolume == old(pendingVolume) && paused == old(paused) && txEnabled == old(txEnabled)
      ensures status == old(status).(volume := volume)
    {
      if stored.Some? {
        volume := stored.value as int;
        currentVolume := stored.value as int;
      }
      volumeLoaded := true;
      status := status.(volume := volume);
    }

    /** `audio_player_set_volume`: clamps to [0, 100]; the same volume
        changes nothing; otherwise the volume and the status change, and a
        flash save is queued once the stored volume has been loaded. */
    method SetVolume(percent: int)
      requires Valid()
      modifies this
      ensures Valid() && volume == ClampVolume(percent)
      ensures volume == old(volume) ==> pendingVolume == old(pendingVolume) && status == old(status)
      ensures volume != old(volume) ==>
        (status == old(status).(volume := volume)
         && pendingVolume == (if volumeLoaded then volume else old(pendingVolume)))
      ensures volumeLoaded == old(volumeLoaded) && paused == old(paused) && txEnabled == old(txEnabled)
    {
      var p := percent;
      if p < 0 {
        p := 0;
      } else if p > 100 {
        p := 100;
      }
      if p == volume {
        return;
      }
      volume := p;
      currentVolume := p;
      status := status.(volume := volume);
      if volumeLoaded {
        pendingVolume := volume;
      }
    }

    /** One round of `save_task`: a queued volume is taken (the queue
        becomes empty) and handed to the flash write, which therefore only
        ever stores a volume in [0, 100]. */
    method SaveTaskStep() returns (saved: Option<byte>)
      requires Valid()
      modifies this
      ensures Valid() && pendingVolume == -1
      ensures saved == (if old(pendingVolume) >= 0 then Some(old(pendingVolume) as byte) else None)
      ensures saved.Some? ==> saved.value <= 100
      ensures volume == old(volume) && status == old(status) && volumeLoaded == old(volumeLoaded)
    {
      var v := pendingVolume;
      saved := None;
      if v >= 0 {
        pendingVolume := -1;
        saved := Some(v as byte);
      }
    }

    /** `audio_player_pause`: a second pause does nothing; otherwise the
        channel is disabled and the status shows the pause. */
    method Pause()
      requires Valid()
      modifies this
      ensures Valid() && paused && volume == old(volume) && pendingVolume == old(pendingVolume)
      ensures old(paused) ==> status == old(status) && txEnabled == old(txEnabled)
      ensures !old(paused) ==>
        (status == old(status).(paused := true) && lastBitrateKbps == 0
         && txEnabled == (old(txEnabled) && !hasTxChan))
    {
      if paused {
        return;
      }
      paused := true;
      if hasTxChan {
        txEnabled := false;
      }
      status := status.(paused := true);
      lastBitrateKbps := 0;
    }

    /** `audio_player_resume`: resuming a running player does nothing;
        otherwise the channel is enabled unless it is already (an enable
        result of OK or INVALID_STATE counts as enabled) and the status
        shows playing again. */
    method Resume(enableResult: EspErr)
      requires Valid()
      modifies this
      ensures Valid() && !paused && volume == old(volume) && pendingVolume == old(pendingVolume)
      ensures !old(paused) ==> status == old(status) && txEnabled == old(txEnabled)
      ensures old(paused) ==>
        (status == old(status).(paused := false)
         && txEnabled == (old(txEnabled)
                          || (hasTxChan && (enableResult == EspOk || enableResult == ErrInvalidState))))
    {
      if !paused {
        return;
      }
      paused := false;
      if hasTxChan {
        if !txEnabled {
          var err := enableResult;
          if err == EspOk || err == ErrInvalidState {
            txEnabled := true;
          }
        }
      }
      status := status.(paused := false);
    }

    /** `status_set_playing`. */
    method StatusSetPlaying(playing: bool)
      requires Valid()
      modifies this
      ensures Valid() && status == SetPlaying(old(status), playing)
      ensures volume == old(volume) && paused == old(paused) && pendingVolume == old(pendingVolume)
    {
      status := status.(playing := playing);
      if !playing {
        status := status.(paused := false, progress := 0, posMs := 0, durMs := 0, bitrateKbps := 0);
      }
    }

    /** `status_update_progress`, with the percentage computed without the
        32-bit wrap. */
    method StatusUpdateProgress(bytesRead: nat, totalBytes: nat, posMs: nat, estTotalMs: nat)
      requires Valid()
      modifies this
      ensures Valid() && status == UpdateProgress(old(status), bytesRead, totalBytes, posMs, estTotalMs)
      ensures volume == old(volume) && paused == old(paused) && pendingVolume == old(pendingVolume)
    {
      if totalBytes > 0 {
        var p := (bytesRead * 100) / totalBytes;
        if p > 100 {
          p := 100;
        }
        status := status.(progress := p);
      }
      if posMs > 0 {
        status := status.(posMs := posMs);
      }
      if estTotalMs > 0 {
        status := status.(durMs := estTotalMs);
      }
    }
  }

  /** Setting the volume twice to the same request is the same as once. */
  lemma SetVolumeIdempotent(percent: int)
    ensures ClampVolume(ClampVolume(percent)) == ClampVolume(percent)
  {
  }
}
