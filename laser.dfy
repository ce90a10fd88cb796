/** The laser hold game of the web UI (`web_ui_laser.c`): heartbeats from
    the laser receiver accumulate holding time; when the time reaches the
    configured number of seconds the relay fires once. The time source is
    the `now` parameter of each heartbeat; the 2-second timeout timer is
    the caller of `HandleTimeout`. Audio and MQTT calls are recorded only
    through the `playing` flag and the result of `HandleHeartbeat`. */
module Laser {
  import opened Common
  import opened UrlDecode

  /** The largest gap between two heartbeats that counts as holding. */
  const MAX_GAP_MS: int := 2000

  /** `laser_cfg_t`. */
  datatype LaserConfig = LaserConfig(trackHold: string, trackRelay: string, holdSeconds: int,
                                     cumulative: bool, enabled: bool)

  /** `laser_load_defaults`: 20 seconds, cumulative, enabled. */
  const DefaultConfig: LaserConfig := LaserConfig("", "", 20, true, true)

  /** The static state of the game. */
  datatype HoldState = HoldState(present: bool, playing: bool, relayTriggered: bool, holdCompleted: bool,
                                 lastHeartbeatMs: int, totalMs: int, streakMs: int)

  const Idle: HoldState := HoldState(false, false, false, false, 0, 0, 0)

  /** What the state keeps true between calls: the streak is part of the
      total, the relay never fires without completing the hold, and a
      disabled game holds nothing. */
  predicate Consistent(cfg: LaserConfig, s: HoldState) {
    0 <= s.streakMs <= s.totalMs
    && (s.relayTriggered ==> s.holdCompleted)
    && (!cfg.enabled ==> (!s.present && s.totalMs == 0 && !s.relayTriggered && !s.holdCompleted))
  }

  /** The gap between two heartbeats clamped to [0, 2000] ms. */
  function Gap(last: int, now: int): (d: int)
    ensures 0 <= d <= MAX_GAP_MS
    ensures 0 <= now - last <= MAX_GAP_MS ==> d == now - last
  {
    if now - last < 0 then 0 else if now - last > MAX_GAP_MS then MAX_GAP_MS else now - last
  }

  /** `laser_maybe_trigger_relay`: fires when not yet fired, the hold time
      is positive and the total (cumulative mode) or the streak
      (continuous mode) has reached it. */
  predicate ShouldFire(cfg: LaserConfig, s: HoldState) {
    !s.relayTriggered && cfg.holdSeconds > 0
    && (if cfg.cumulative then s.totalMs else s.streakMs) >= cfg.holdSeconds * 1000
  }

  /** `web_ui_laser_handle_heartbeat` on the state: the new state and
      whether the relay fired. */
  function Heartbeat(cfg: LaserConfig, s: HoldState, now: int): (HoldState, bool) {
    if !cfg.enabled || s.holdCompleted then (s, false)
    else
      var s1 := if s.present && s.lastHeartbeatMs > 0
        then var d := Gap(s.lastHeartbeatMs, now); s.(totalMs := s.totalMs + d, streakMs := s.streakMs + d)
        else s.(streakMs := 0);
      var s2 := s1.(present := true, lastHeartbeatMs := now,
                    playing := s1.playing || cfg.trackHold != "");
      if ShouldFire(cfg, s2) then (s2.(relayTriggered := true, holdCompleted := true, playing := false), true)
      else (s2, false)
  }

  lemma HeartbeatConsistent(cfg: LaserConfig, s: HoldState, now: int)
    requires Consistent(cfg, s)
    ensures Consistent(cfg, Heartbeat(cfg, s, now).0)
  {
  }

  /** A heartbeat is ignored while the game is disabled or the hold is
      complete; otherwise a present receiver adds the clamped gap to both
      total and streak, a new arrival restarts the streak, and the relay
      fires exactly when the hold time is reached for the first time. */
  lemma HeartbeatSpec(cfg: LaserConfig, s: HoldState, now: int)
    requires Consistent(cfg, s)
    ensures var (r, fired) := Heartbeat(cfg, s, now);
      Consistent(cfg, r)
      && ((!cfg.enabled || s.holdCompleted) ==> r == s && !fired)
      && (cfg.enabled && !s.holdCompleted ==>
            r.present && r.lastHeartbeatMs == now
            && (s.present && s.lastHeartbeatMs > 0 ==>
                  r.totalMs == s.totalMs + Gap(s.lastHeartbeatMs, now)
                  && r.streakMs == s.streakMs + Gap(s.lastHeartbeatMs, now))
            && (!(s.present && s.lastHeartbeatMs > 0) ==> r.totalMs == s.totalMs && r.streakMs == 0)
            && (fired <==> ShouldFire(cfg, r.(relayTriggered := s.relayTriggered)))
            && (fired ==> r.relayTriggered && r.holdCompleted && !r.playing))
  {
  }

  /** Once fired, the relay does not fire again until something resets
      the game: every later heartbeat reports no firing. */
  lemma RelayFiresOnce(cfg: LaserConfig, s: HoldState, now: int, later: int)
    requires Consistent(cfg, s) && Heartbeat(cfg, s, now).1
    ensures var r := Heartbeat(cfg, s, now).0;
      Heartbeat(cfg, r, later) == (r, false)
  {
  }

  /** In cumulative mode the total never decreases through heartbeats. */
  lemma CumulativeTotalGrows(cfg: LaserConfig, s: HoldState, now: int)
    requires Consistent(cfg, s)
    ensures Heartbeat(cfg, s, now).0.totalMs >= s.totalMs
  {
  }

  /** `laser_handle_timeout`: the receiver is gone and the streak ends;
      continuous mode also forgets the total and re-arms the relay. */
  function Timeout(cfg: LaserConfig, s: HoldState): (r: HoldState)
    requires Consistent(cfg, s)
    ensures Consistent(cfg, r)
    ensures !r.present && r.streakMs == 0 && r.lastHeartbeatMs == 0 && r.playing == s.playing
    ensures cfg.cumulative ==> (r.totalMs, r.relayTriggered, r.holdCompleted) == (s.totalMs, s.relayTriggered, s.holdCompleted)
    ensures !cfg.cumulative ==> r.totalMs == 0 && !r.relayTriggered && !r.holdCompleted
  {
    var r := s.(present := false, lastHeartbeatMs := 0, streakMs := 0);
    if cfg.cumulative then r else r.(totalMs := 0, relayTriggered := false, holdCompleted := false)
  }

  /** `laser_set_enabled_locked`: an unchanged setting does nothing;
      disabling resets every counter and flag. */
  function SetEnabled(cfg: LaserConfig, s: HoldState, en: bool): (r: (LaserConfig, HoldState))
    requires Consistent(cfg, s)
    ensures Consistent(r.0, r.1) && r.0 == cfg.(enabled := en)
    ensures cfg.enabled == en ==> r.1 == s
    ensures cfg.enabled != en && !en ==> r.1 == Idle.(playing := s.playing)
  {
    if cfg.enabled == en then (cfg, s)
    else if !en then (cfg.(enabled := false), Idle.(playing := s.playing))
    else (cfg.(enabled := true), s)
  }

  /** The "enabled" query value is true for "true", "1" or "on", ignoring
      case except for "1". */
  predicate EnabledValue(v: string) {
    EqualsIgnoreCase(v, "true") || v == "1" || EqualsIgnoreCase(v, "on")
  }

  /** The query buffers `hold_enc` and `relay_enc` hold 96 bytes. */
  const TRACK_BUF: nat := 96

  /** The parameters of a save request as the query string carries them:
      the tracks still URL-encoded, an absent parameter empty. `seconds` is
      the value `atoi` reads from the first seven characters of its
      parameter. The mode and enable parameters are compared whole, which
      their 16- and 8-byte buffers do not change. */
  datatype SaveRequest = SaveRequest(hold: string, relay: string, mode: string,
                                     seconds: Option<int>, enabled: string)

  /** `laser_save_handler` on the configuration and state: each track
      parameter is cut to 95 characters, then decoded, and replaces the
      stored track when the result is not empty; the hold time
      is taken only inside (0, 3600), a mode selects cumulative exactly
      for "cumulative" (any case), the enable flag goes through
      `SetEnabled`, and the relay and both counters are reset. */
  function Save(cfg: LaserConfig, s: HoldState, req: SaveRequest): (r: (LaserConfig, HoldState))
    requires Consistent(cfg, s)
    ensures Consistent(r.0, r.1)
  {
    var c1 := SaveFields(cfg, req);
    var (c2, s2) := if req.enabled != "" then SetEnabled(c1, s, EnabledValue(req.enabled)) else (c1, s);
    (c2, s2.(relayTriggered := false, totalMs := 0, streakMs := 0))
  }

  /** The fields of a save request that overwrite the configuration. */
  function SaveFields(cfg: LaserConfig, req: SaveRequest): LaserConfig {
    var hold, relay := QueryValue(req.hold, TRACK_BUF), QueryValue(req.relay, TRACK_BUF);
    cfg.(
      trackHold := if hold != "" then hold else cfg.trackHold,
      trackRelay := if relay != "" then relay else cfg.trackRelay,
      holdSeconds := if req.seconds.Some? && 0 < req.seconds.value < 3600 then req.seconds.value else cfg.holdSeconds,
      cumulative := if req.mode != "" then EqualsIgnoreCase(req.mode, "cumulative") else cfg.cumulative)
  }

  /** A save stores each track as the handler reads it (cut, then
      decoded) when that is not empty and keeps the old one otherwise, so a
      stored track always fits its 96-byte field; the hold time changes
      only to a value inside (0, 3600); a given mode selects cumulative
      exactly for "cumulative"; a given enable parameter sets the enable
      flag; the relay and both counters are reset and the state stays
      consistent. */
  lemma SaveSpec(cfg: LaserConfig, s: HoldState, req: SaveRequest)
    requires Consistent(cfg, s)
    ensures var (c, r) := Save(cfg, s, req);
      var hold, relay := QueryValue(req.hold, TRACK_BUF), QueryValue(req.relay, TRACK_BUF);
      Consistent(c, r) && r.totalMs == 0 && r.streakMs == 0 && !r.relayTriggered
      && (hold != "" ==> c.trackHold == hold) && (hold == "" ==> c.trackHold == cfg.trackHold)
      && (relay != "" ==> c.trackRelay == relay) && (relay == "" ==> c.trackRelay == cfg.trackRelay)
      && (|cfg.trackHold| < TRACK_BUF ==> |c.trackHold| < TRACK_BUF)
      && (|cfg.trackRelay| < TRACK_BUF ==> |c.trackRelay| < TRACK_BUF)
      && (0 < cfg.holdSeconds < 3600 ==> 0 < c.holdSeconds < 3600)
      && (req.seconds.Some? && 0 < req.seconds.value < 3600 ==> c.holdSeconds == req.seconds.value)
      && (req.seconds.None? || !(0 < req.seconds.value < 3600) ==> c.holdSeconds == cfg.holdSeconds)
      && (req.mode != "" ==> (c.cumulative <==> EqualsIgnoreCase(req.mode, "cumulative")))
      && (req.mode == "" ==> c.cumulative == cfg.cumulative)
      && (req.enabled != "" ==> c.enabled == EnabledValue(req.enabled))
      && (req.enabled == "" ==> c.enabled == cfg.enabled)
  {
  }

  /** The hold track is cut before it is decoded: forty '/' sent as "%2f"
      escapes are stored as 31 '/' followed by "%2". */
  lemma HoldCutBeforeDecoding(cfg: LaserConfig, s: HoldState)
    requires Consistent(cfg, s)
    ensures Save(cfg, s, SaveRequest(Encode(seq(40, _ => '/')), "", "", None, "")).0.trackHold
      == seq(31, _ => '/') + "%2"
  {
    CutBeforeDecode();
  }

  /** The laser game: its configuration and state, updated in place. */
  class LaserGame {
    var cfg: LaserConfig
    var present: bool
    var playing: bool
    var relayTriggered: bool
    var holdCompleted: bool
    var lastHeartbeatMs: int
    var totalMs: int
    var streakMs: int

    function State(): HoldState
      reads this
    {
      HoldState(present, playing, relayTriggered, holdCompleted, lastHeartbeatMs, totalMs, streakMs)
    }

    ghost predicate Valid() reads this { Consistent(cfg, State()) }

    /** The game at start-up with a configuration loaded (or defaulted). */
    constructor (loaded: LaserConfig)
      ensures Valid() && cfg == loaded && State() == Idle
    {
      cfg := loaded;
      present, playing, relayTriggered, holdCompleted := false, false, false, false;
      lastHeartbeatMs, totalMs, streakMs := 0, 0, 0;
    }

    /** `web_ui_laser_handle_heartbeat`: returns whether the relay fired. */
    method HandleHeartbeat(now: int) returns (fired: bool)
      requires Valid()
      modifies this
      ensures Valid() && cfg == old(cfg)
      ensures (State(), fired) == Heartbeat(cfg, old(State()), now)
    {
      HeartbeatConsistent(cfg, State(), now);
      if !cfg.enabled || holdCompleted {
        return false;
      }
      if present && lastHeartbeatMs > 0 {
        var delta := now - lastHeartbeatMs;
        if delta < 0 {
          delta := 0;
        }
        if delta > MAX_GAP_MS {
          delta := MAX_GAP_MS;
        }
        totalMs := totalMs + delta;
        streakMs := streakMs + delta;
      } else {
        streakMs := 0;
      }
      present := true;
      lastHeartbeatMs := now;
      StartAudio();
      fired := MaybeTriggerRelay();
    }

    /** `laser_start_audio`: resume when playing, otherwise start the hold
        track when there is one; nothing while disabled or after the hold. */
    method StartAudio()
      modifies this
      ensures cfg == old(cfg)
      ensures State() == old(State()).(playing := old(playing) || (cfg.enabled && !holdCompleted && cfg.trackHold != ""))
    {
      if !cfg.enabled || holdCompleted || playing {
        return;
      }
      if cfg.trackHold != "" {
        playing := true;
      }
    }

    /** `laser_maybe_trigger_relay` with `laser_trigger_relay`: fires once
        the hold time is reached, completing the hold and stopping the
        hold track. */
    method MaybeTriggerRelay() returns (fired: bool)
      modifies this
      ensures cfg == old(cfg) && fired == ShouldFire(cfg, old(State()))
      ensures State() == if fired then old(State()).(relayTriggered := true, holdCompleted := true, playing := false)
                         else old(State())
    {
      fired := false;
      if relayTriggered {
        return;
      }
      var base := if cfg.cumulative then totalMs else streakMs;
      if cfg.holdSeconds > 0 && base >= cfg.holdSeconds * 1000 {
        relayTriggered := true;
        holdCompleted := true;
        playing := false;
        fired := true;
      }
    }

    /** `laser_handle_timeout`. */
    method HandleTimeout()
      requires Valid()
      modifies this
      ensures Valid() && cfg == old(cfg) && State() == Timeout(cfg, old(State()))
    {
      present := false;
      lastHeartbeatMs := 0;
      streakMs := 0;
      if !cfg.cumulative {
        totalMs := 0;
        relayTriggered := false;
        holdCompleted := false;
      }
    }

    /** `laser_set_enabled_locked`. */
    method SetEnabledLocked(en: bool)
      requires Valid()
      modifies this
      ensures Valid() && (cfg, State()) == SetEnabled(old(cfg), old(State()), en)
    {
      if cfg.enabled == en {
        return;
      }
      cfg := cfg.(enabled := en);
      if !en {
        present, relayTriggered, holdCompleted := false, false, false;
        totalMs, streakMs, lastHeartbeatMs := 0, 0, 0;
      }
    }

    /** The part of `laser_save_handler` that copies the request's fields. */
    method ApplySaveFields(req: SaveRequest)
      modifies this
      ensures cfg == SaveFields(old(cfg), req) && State() == old(State())
    {
      var c := cfg;
      var hold := QueryValue(req.hold, TRACK_BUF);
      var relay := QueryValue(req.relay, TRACK_BUF);
      if hold != "" {
        c := c.(trackHold := hold);
      }
      if relay != "" {
        c := c.(trackRelay := relay);
      }
      if req.seconds.Some? {
        var v := req.seconds.value;
        if v > 0 && v < 3600 {
          c := c.(holdSeconds := v);
        }
      }
      if req.mode != "" {
        c := c.(cumulative := EqualsIgnoreCase(req.mode, "cumulative"));
      }
      cfg := c;
    }

    /** `laser_save_handler`, without the flash write. */
    method SaveSettings(req: SaveRequest)
      requires Valid()
      modifies this
      ensures Valid() && (cfg, State()) == Save(old(cfg), old(State()), req)
    {
      ApplySaveFields(req);
      if req.enabled != "" {
        SetEnabledLocked(EnabledValue(req.enabled));
      }
      relayTriggered := false;
      totalMs := 0;
      streakMs := 0;
    }
  }
}
