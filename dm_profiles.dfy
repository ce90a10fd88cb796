/** Device profiles (`dm_profiles.c`): named sets of devices, one of which
    is active. The files that hold each profile's devices are not part of
    this model; the functions here keep the profile table and the active
    profile consistent. */
module DmProfiles {
  import opened Common
  import opened DmTypes

  /** Profile `i` has the id `id`, ignoring case. */
  predicate ProfileMatches(cfg: DmConfig, i: nat, id: string)
    requires i < |cfg.profiles|
  {
    cfg.profiles[i].id != "" && EqualsIgnoreCase(cfg.profiles[i].id, id)
  }

  /** `dm_profiles_find_by_id`: the first of at most MAX_PROFILES profiles
      whose non-empty id equals `id` ignoring case; None for an empty id. */
  function FindById(cfg: DmConfig, id: string): (r: Option<nat>)
    ensures r.Some? ==> (id != "" && r.value < |cfg.profiles| && r.value < MAX_PROFILES
      && ProfileMatches(cfg, r.value, id)
      && forall j :: 0 <= j < r.value ==> !ProfileMatches(cfg, j, id))
    ensures r.None? && id != "" ==>
      forall j :: 0 <= j < |cfg.profiles| && j < MAX_PROFILES ==> !ProfileMatches(cfg, j, id)
  {
    if id == "" then None else FindFrom(cfg, id, 0)
  }

  function FindFrom(cfg: DmConfig, id: string, i: nat): (r: Option<nat>)
    requires i <= |cfg.profiles|
    ensures r.Some? ==> (i <= r.value < |cfg.profiles| && r.value < MAX_PROFILES
      && ProfileMatches(cfg, r.value, id)
      && forall j :: i <= j < r.value ==> !ProfileMatches(cfg, j, id))
    ensures r.None? ==> forall j :: i <= j < |cfg.profiles| && j < MAX_PROFILES ==> !ProfileMatches(cfg, j, id)
    decreases |cfg.profiles| - i
  {
    if i >= |cfg.profiles| || i >= MAX_PROFILES then None
    else if ProfileMatches(cfg, i, id) then Some(i)
    else FindFrom(cfg, id, i + 1)
  }

  /** The profile `ensure_active` creates when there is none. */
  function DefaultProfile(cfg: DmConfig): Profile {
    Profile(DEFAULT_PROFILE_ID, DEFAULT_PROFILE_NAME, |cfg.devices|)
  }

  /** `dm_profiles_ensure_active` on the configuration value: a default
      profile is created when there is none; an empty or unknown active
      profile falls back to the first profile. The index of the active
      profile. */
  function EnsureActive(cfg: DmConfig): (DmConfig, Option<nat>) {
    var c1 := if |cfg.profiles| == 0
      then cfg.(profiles := [DefaultProfile(cfg)], activeProfile := DEFAULT_PROFILE_ID)
      else cfg;
    var c2 := if c1.activeProfile == "" && |c1.profiles| > 0
      then c1.(activeProfile := c1.profiles[0].id)
      else c1;
    match FindById(c2, c2.activeProfile)
    case Some(i) => (c2, Some(i))
    case None =>
      if |c2.profiles| > 0 then (c2.(activeProfile := c2.profiles[0].id), Some(0))
      else (c2, None)
  }

  /** After `ensure_active` there is always an active profile. It is the
      profile the active id names, or the first profile, whose id becomes
      the active id; only the profile table (when it was empty) and the
      active id change; existing profiles are kept. */
  lemma EnsureActiveSpec(cfg: DmConfig)
    ensures var (c, r) := EnsureActive(cfg);
      r.Some? && r.value < |c.profiles|
      && c == cfg.(profiles := c.profiles, activeProfile := c.activeProfile)
      && (|cfg.profiles| == 0 ==> c.profiles == [DefaultProfile(cfg)] && c.activeProfile == DEFAULT_PROFILE_ID)
      && (|cfg.profiles| > 0 ==> c.profiles == cfg.profiles)
      && (FindById(c, c.activeProfile) == r || (r == Some(0) && c.activeProfile == c.profiles[0].id))
  {
  }

  /** When every profile has a non-empty id, `ensure_active` leaves an
      active id that names one of them, and applying it again changes
      nothing. */
  lemma EnsureActiveNamesProfile(cfg: DmConfig)
    requires forall j :: 0 <= j < |cfg.profiles| ==> cfg.profiles[j].id != ""
    ensures var (c, r) := EnsureActive(cfg);
      FindById(c, c.activeProfile) == r && EnsureActive(c) == (c, r)
  {
    var (c, r) := EnsureActive(cfg);
    EqualsIgnoreCaseFacts(c.profiles[0].id, c.profiles[0].id, c.profiles[0].id);
    if FindById(c, c.activeProfile) != r {
      assert r == Some(0) && c.activeProfile == c.profiles[0].id;
      assert ProfileMatches(c, 0, c.activeProfile);
      assert false;
    }
  }

  /** `dm_profiles_sync_to_active`: the active profile records the number
      of devices, capped by the capacity when one is set. */
  function SyncToActive(cfg: DmConfig): (r: DmConfig) {
    var (c, p) := EnsureActive(cfg);
    if p.None? then c
    else
      var count := if c.deviceCapacity != 0 && |c.devices| > c.deviceCapacity then c.deviceCapacity else |c.devices|;
      c.(profiles := c.profiles[p.value := c.profiles[p.value].(deviceCount := count)])
  }

  /** After syncing, the active profile's device count is the number of
      devices, capped by a non-zero capacity; no other profile changes. */
  lemma SyncToActiveSpec(cfg: DmConfig)
    ensures var (c, p) := EnsureActive(cfg);
      var r := SyncToActive(cfg);
      p.Some? && |r.profiles| == |c.profiles|
      && r.profiles[p.value].deviceCount
         == (if cfg.deviceCapacity != 0 then Min(|cfg.devices|, cfg.deviceCapacity) else |cfg.devices|)
      && r.profiles[p.value].id == c.profiles[p.value].id
      && (forall j :: 0 <= j < |r.profiles| && j != p.value ==> r.profiles[j] == c.profiles[j])
      && r.devices == cfg.devices && r.activeProfile == c.activeProfile
  {
    EnsureActiveSpec(cfg);
  }

  /** `DEVICE_MANAGER_ID_MAX_LEN` comes from a header that is not part of
      this model, so the id checks take it as a parameter. A character
      allowed in a profile id. */
  predicate IdChar(c: char) { IsAlnum(c) || c == '-' || c == '_' }

  /** `dm_profiles_id_valid`: non-empty, shorter than `maxLen`, and made of
      letters, digits, '-' and '_'. */
  predicate IdValid(id: string, maxLen: nat) {
    id != "" && |id| < maxLen && forall i :: 0 <= i < |id| ==> IdChar(id[i])
  }

  /** `dm_profiles_id_valid`: the loop over the characters. */
  method CheckId(id: string, maxLen: nat) returns (ok: bool)
    ensures ok == IdValid(id, maxLen)
  {
    if id == "" || |id| >= maxLen {
      return false;
    }
    var i := 0;
    while i < |id|
      invariant 0 <= i <= |id|
      invariant forall k :: 0 <= k < i ==> IdChar(id[k])
    {
      var c := id[i];
      if !(IsAlnum(c) || c == '-' || c == '_') {
        return false;
      }
      i := i + 1;
    }
    return true;
  }

  /** A valid id can never contain a path separator or a dot, so it can
      name a profile file safely. */
  lemma ValidIdIsPlain(id: string, maxLen: nat)
    requires IdValid(id, maxLen)
    ensures forall i :: 0 <= i < |id| ==> id[i] != '/' && id[i] != '.' && id[i] != ' '
  {
  }

  /** `dm_profiles_store_active`: refused for an empty active profile;
      otherwise the active profile id and the devices written to its file,
      at most the capacity of them (a zero capacity writes none). */
  function StoreActive(cfg: DmConfig): (r: Outcome<(string, seq<Device>)>)
    ensures r.Fail? <==> cfg.activeProfile == ""
    ensures r.Fail? ==> r.err == ErrInvalidArg
    ensures r.Ok? ==> (r.value.0 == cfg.activeProfile
      && |r.value.1| == Min(|cfg.devices|, cfg.deviceCapacity)
      && r.value.1 == cfg.devices[..|r.value.1|])
  {
    if cfg.activeProfile == "" then Fail(ErrInvalidArg)
    else
      var count := if |cfg.devices| > cfg.deviceCapacity then cfg.deviceCapacity else |cfg.devices|;
      Ok((cfg.activeProfile, cfg.devices[..count]))
  }

  /** The configuration whose profiles `ensure_active` and
      `sync_to_active` update in place. */
  class ProfileTable {
    var config: DmConfig

    constructor (cfg: DmConfig)
      ensures config == cfg
    {
      config := cfg;
    }

    /** `dm_profiles_find_by_id`: the loop over the profiles. */
    method Find(id: string) returns (r: Option<nat>)
      ensures r == FindById(config, id)
    {
      if id == "" {
        return None;
      }
      var i := 0;
      while i < |config.profiles| && i < MAX_PROFILES
        invariant i <= |config.profiles|
        invariant FindFrom(config, id, i) == FindFrom(config, id, 0)
        decreases |config.profiles| - i
      {
        if config.profiles[i].id != "" && EqualsIgnoreCase(config.profiles[i].id, id) {
          return Some(i);
        }
        i := i + 1;
      }
      return None;
    }

    /** `dm_profiles_ensure_active`. */
    method EnsureActiveProfile() returns (r: Option<nat>)
      modifies this
      ensures (config, r) == EnsureActive(old(config))
    {
      if |config.profiles| == 0 {
        config := config.(profiles := [DefaultProfile(config)], activeProfile := DEFAULT_PROFILE_ID);
      }
      if config.activeProfile == "" && |config.profiles| > 0 {
        config := config.(activeProfile := config.profiles[0].id);
      }
      r := Find(config.activeProfile);
      if r.None? && |config.profiles| > 0 {
        r := Some(0);
        config := config.(activeProfile := config.profiles[0].id);
      }
    }

    /** `dm_profiles_sync_to_active`. */
    method SyncToActiveProfile()
      modifies this
      ensures config == SyncToActive(old(config))
    {
      var p := EnsureActiveProfile();
      if p.None? {
        return;
      }
      var count := |config.devices|;
      if config.deviceCapacity != 0 && count > config.deviceCapacity {
        count := config.deviceCapacity;
      }
      var i := p.value;
      config := config.(profiles := config.profiles[i := config.profiles[i].(deviceCount := count)]);
    }
  }
}
