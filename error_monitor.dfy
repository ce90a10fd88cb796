/** The status LED supervisor (`error_monitor`): three health flags and the
    LED pattern derived from them, SD-card problems first, then Wi-Fi. */
module ErrorMonitor {
  import opened Common

  /** `Unset` stands for a LED driver that has not been told any pattern. */
  datatype LedPattern = Unset | Off | SolidRed | BlinkRed

  /** `update_led_locked`: the pattern for the three flags. */
  function PatternFor(wifiOk: bool, sdPresent: bool, sdFault: bool): (p: LedPattern)
    ensures p == BlinkRed <==> !sdPresent || sdFault
    ensures p == SolidRed <==> sdPresent && !sdFault && !wifiOk
    ensures p == Off <==> sdPresent && !sdFault && wifiOk
    ensures p != Unset
  {
    if !sdPresent || sdFault then BlinkRed
    else if !wifiOk then SolidRed
    else Off
  }

  /** The monitor's static state. `ready` is `s_lock != NULL`; `led` is the
      pattern last handed to the LED driver. */
  class Monitor {
    var ready: bool
    var wifiOk: bool
    var sdPresent: bool
    var sdFault: bool
    var led: LedPattern

    /** Once the LED has been set, it shows the pattern of the flags. */
    ghost predicate Valid() reads this {
      led == Unset || led == PatternFor(wifiOk, sdPresent, sdFault)
    }

    /** Power-on state: no mutex yet, all flags false, LED never set. */
    constructor ()
      ensures Valid() && !ready && !wifiOk && !sdPresent && !sdFault && led == Unset
    {
      ready, wifiOk, sdPresent, sdFault, led := false, false, false, false, Unset;
    }

    /** `error_monitor_init`: creates the mutex (`mutexOk` says whether that
        succeeds), initialises the LED driver (`ledErr` is its result), then
        clears every flag, which shows BLINK_RED. */
    method Init(mutexOk: bool, ledErr: EspErr) returns (err: EspErr)
      requires Valid()
      modifies this
      ensures Valid()
      ensures !old(ready) && !mutexOk ==>
        (err == ErrNoMem && !ready
         && wifiOk == old(wifiOk) && sdPresent == old(sdPresent) && sdFault == old(sdFault) && led == old(led))
      ensures (old(ready) || mutexOk) && ledErr != EspOk ==>
        (err == ledErr && ready
         && wifiOk == old(wifiOk) && sdPresent == old(sdPresent) && sdFault == old(sdFault) && led == old(led))
      ensures (old(ready) || mutexOk) && ledErr == EspOk ==>
        (err == EspOk && ready && !wifiOk && !sdPresent && !sdFault && led == BlinkRed)
    {
      if !ready {
        if !mutexOk {
          return ErrNoMem;
        }
        ready := true;
      }
      if ledErr != EspOk {
        return ledErr;
      }
      wifiOk, sdPresent, sdFault := false, false, false;
      led := PatternFor(wifiOk, sdPresent, sdFault);
      err := EspOk;
    }

    /** `error_monitor_set_wifi_connected`; ignored before init. */
    method SetWifiConnected(connected: bool)
      requires Valid()
      modifies this
      ensures Valid() && ready == old(ready) && sdPresent == old(sdPresent) && sdFault == old(sdFault)
      ensures ready ==> wifiOk == connected && led == PatternFor(wifiOk, sdPresent, sdFault)
      ensures !ready ==> wifiOk == old(wifiOk) && led == old(led)
    {
      if !ready {
        return;
      }
      wifiOk := connected;
      led := PatternFor(wifiOk, sdPresent, sdFault);
    }

    /** `error_monitor_set_sd_state`: mounting also clears a reported fault. */
    method SetSdState(mounted: bool)
      requires Valid()
      modifies this
      ensures Valid() && ready == old(ready) && wifiOk == old(wifiOk)
      ensures ready ==>
        (sdPresent == mounted && sdFault == (old(sdFault) && !mounted)
         && led == PatternFor(wifiOk, sdPresent, sdFault))
      ensures !ready ==> sdPresent == old(sdPresent) && sdFault == old(sdFault) && led == old(led)
    {
      if !ready {
        return;
      }
      sdPresent := mounted;
      if mounted {
        sdFault := false;
      }
      led := PatternFor(wifiOk, sdPresent, sdFault);
    }

    /** `error_monitor_report_sd_fault`: the LED blinks red until a remount. */
    method ReportSdFault()
      requires Valid()
      modifies this
      ensures Valid() && ready == old(ready) && wifiOk == old(wifiOk) && sdPresent == old(sdPresent)
      ensures ready ==> sdFault && led == BlinkRed
      ensures !ready ==> sdFault == old(sdFault) && led == old(led)
    {
      if !ready {
        return;
      }
      sdFault := true;
      led := PatternFor(wifiOk, sdPresent, sdFault);
    }
  }
}
