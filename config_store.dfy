/** The persistent broker settings (`config_store`): Wi-Fi, MQTT listener and
    time settings kept in one record, validated before every update and
    written to NVS. The flash is a parameter: `loaded` is what NVS holds,
    `saveOk` whether a write succeeds. */
module ConfigStore {
  import opened Common

  datatype WifiConfig = WifiConfig(ssid: string, password: string, hostname: string)
  datatype MqttConfig = MqttConfig(brokerId: string, port: int, keepaliveSeconds: int)
  datatype TimeConfig = TimeConfig(ntpServer: string, timezoneOffsetMin: int)
  datatype AppConfig = AppConfig(wifi: WifiConfig, mqtt: MqttConfig, time: TimeConfig)

  /** Sizes of the character arrays of `app_config_t`. */
  const HOSTNAME_SIZE: nat := 32
  const BROKER_ID_SIZE: nat := 16
  const NTP_SERVER_SIZE: nat := 64

  /** `strnlen(s, maxLen)`. */
  function StrnLen(s: string, maxLen: nat): (n: nat)
    ensures n <= maxLen && n <= |s|
    ensures n == |s| || n == maxLen
  {
    Min(|s|, maxLen)
  }

  /** `validate_string`: a non-empty string that leaves room for its NUL. */
  function ValidateString(s: string, maxLen: nat): (ok: bool)
    ensures ok <==> 0 < |s| < maxLen
  {
    var len := StrnLen(s, maxLen);
    len > 0 && len < maxLen
  }

  /** `validate_config`. */
  function ValidateConfig(c: AppConfig): (ok: bool)
    ensures ok ==> |c.wifi.hostname| < HOSTNAME_SIZE && 0 < |c.mqtt.brokerId| < BROKER_ID_SIZE
    ensures ok ==> 1 <= c.mqtt.port <= 65535 && 1 <= c.mqtt.keepaliveSeconds <= 600
    ensures ok ==> 0 < |c.time.ntpServer| < NTP_SERVER_SIZE
    ensures ok <== (|c.wifi.hostname| == 0 || ValidateString(c.wifi.hostname, HOSTNAME_SIZE))
      && ValidateString(c.mqtt.brokerId, BROKER_ID_SIZE)
      && 0 < c.mqtt.port <= 65535 && 0 < c.mqtt.keepaliveSeconds <= 600
      && ValidateString(c.time.ntpServer, NTP_SERVER_SIZE)
  {
    if |c.wifi.hostname| != 0 && !ValidateString(c.wifi.hostname, HOSTNAME_SIZE) then false
    else if !ValidateString(c.mqtt.brokerId, BROKER_ID_SIZE) then false
    else if c.mqtt.port <= 0 || c.mqtt.port > 65535 then false
    else if c.mqtt.keepaliveSeconds <= 0 || c.mqtt.keepaliveSeconds > 600 then false
    else ValidateString(c.time.ntpServer, NTP_SERVER_SIZE)
  }

  /** `load_defaults`: open access point (empty SSID), host and broker name
      "brocker", port 1883, keep-alive 30 s, pool.ntp.org, UTC+3. */
  function Defaults(): (c: AppConfig)
    ensures ValidateConfig(c)
    ensures c.wifi.ssid == [] && c.mqtt.port == 1883 && c.mqtt.keepaliveSeconds == 30
  {
    AppConfig(WifiConfig("", "", "brocker"), MqttConfig("brocker", 1883, 30), TimeConfig("pool.ntp.org", 180))
  }

  /** The store: `g_config` and the last configuration written to NVS. */
  class Store {
    var config: AppConfig
    var flash: Option<AppConfig>

    /** Every configuration the store holds passed `validate_config`. */
    ghost predicate Valid() reads this { ValidateConfig(config) }

    /** Boot state before `config_store_init`: the defaults. */
    constructor (flashContents: Option<AppConfig>)
      ensures Valid() && config == Defaults() && flash == flashContents
    {
      config := Defaults();
      flash := flashContents;
    }

    /** `config_store_init`: the NVS copy if it loads and validates, else the
        defaults, which are then written back. */
    method Init(saveOk: bool) returns (err: EspErr)
      modifies this
      ensures Valid()
      ensures old(flash).Some? && ValidateConfig(old(flash).value) ==>
        err == EspOk && config == old(flash).value && flash == old(flash)
      ensures !(old(flash).Some? && ValidateConfig(old(flash).value)) ==>
        config == Defaults() && err == (if saveOk then EspOk else ErrStorage)
        && flash == (if saveOk then Some(Defaults()) else old(flash))
    {
      config := Defaults();
      if flash.Some? && ValidateConfig(flash.value) {
        config := flash.value;
        return EspOk;
      }
      err := Save(saveOk);
    }

    /** `save_to_nvs(&g_config)`. */
    method Save(saveOk: bool) returns (err: EspErr)
      modifies this`flash
      ensures err == (if saveOk then EspOk else ErrStorage)
      ensures flash == (if saveOk then Some(config) else old(flash))
    {
      if saveOk {
        flash := Some(config);
        err := EspOk;
      } else {
        err := ErrStorage;
      }
    }

    /** `config_store_set`: an invalid configuration is refused with
        INVALID_ARG and nothing changes; a valid one replaces `g_config`
        and is saved. */
    method Set(next: AppConfig, saveOk: bool) returns (err: EspErr)
      requires Valid()
      modifies this
      ensures Valid()
      ensures !ValidateConfig(next) ==> err == ErrInvalidArg && config == old(config) && flash == old(flash)
      ensures ValidateConfig(next) ==>
        config == next && err == (if saveOk then EspOk else ErrStorage)
        && flash == (if saveOk then Some(next) else old(flash))
    {
      if !ValidateConfig(next) {
        return ErrInvalidArg;
      }
      config := next;
      err := Save(saveOk);
    }

    /** `config_store_reset_defaults`. */
    method ResetDefaults(saveOk: bool) returns (err: EspErr)
      modifies this
      ensures Valid() && config == Defaults()
      ensures err == (if saveOk then EspOk else ErrStorage)
      ensures flash == (if saveOk then Some(Defaults()) else old(flash))
    {
      config := Defaults();
      err := Save(saveOk);
    }
  }
}
