/**
 * The application of samples/iotc-basic: the globals of main.c as fields of one object, and
 * one method per event that changes them — the download callback, the button callback, the
 * OTA request handler, the phases of sdk_run and the two tests of main's loop.
 */
module IotcApp {
  import opened Wrappers
  import opened CStrings
  import opened Versions
  import opened OtaUrl
  import opened Flags
  import opened Telemetry

  /** The messages on_ota puts in its acknowledgements. */
  const MsgVersionMatching: string := "Version is matching"
  const MsgStartFailed: string := "Failed to start OTA"
  const MsgDeviceNewer: string := "Device firmware version is newer"
  const MsgLegacyBackEnd: string := "Back end version 1.0 not supported by the app"

  /** The acknowledgement on_ota asks the cloud library to build and send. */
  datatype Ack = Ack(success: bool, message: Option<string>)

  /** on_ota's reply to a request that carries a download URL, given the version verdict and
      what start_ota returned: no acknowledgement exactly when an update was needed and
      started; otherwise an acknowledgement that reports success only for the same version. */
  function OtaAck(v: Verdict, startResult: int): (r: Option<Ack>)
    ensures r.None? <==> v == NeedsUpdate && startResult == 0
    ensures r.Some? ==> (r.value.success <==> v == SameVersion) && r.value.message.Some?
  {
    match v
    case SameVersion => Some(Ack(true, Some(MsgVersionMatching)))
    case NeedsUpdate =>
      if startResult != 0 then Some(Ack(false, Some(MsgStartFailed))) else None
    case DeviceNewer => Some(Ack(false, Some(MsgDeviceNewer)))
  }

  /** on_ota's reply to a request without a download URL (an older back end): a failure,
      with a message only when the request carried a command. */
  function LegacyAck(hasCommand: bool): (a: Ack)
    ensures !a.success && (a.message.Some? <==> hasCommand)
  {
    Ack(false, if hasCommand then Some(MsgLegacyBackEnd) else None)
  }

  /** OTA is started only for a strictly newer version, and it is started (and the request
      left unanswered) exactly when start_ota returns 0. */
  lemma OtaStartedOnlyForNewerVersion(version: string, startResult: int)
    requires '\0' !in version
    ensures OtaAck(Classify(version), startResult).None? <==>
            LexLess(AppVersion, version) && startResult == 0
    ensures OtaAck(Classify(version), startResult).Some? ==>
            (OtaAck(Classify(version), startResult).value.success <==> version == AppVersion)
  {
  }

  class App {
    var sdkRunning: bool
    var sdkDoRun: bool
    var sdkDoShutdown: bool
    var doReboot: bool
    var fotaInProgress: bool
    var timeButtonDown: int
    // sdk_run's locals, kept here between passes of its loop
    var lastSendTime: int
    var stopSendTime: int

    const fotaConfig: FotaConfig
    const cpid: string
    const env: string
    const settings: Settings

    function State(): Globals
      reads this
    {
      Globals(sdkRunning, sdkDoRun, sdkDoShutdown, doReboot, fotaInProgress, timeButtonDown)
    }

    function Times(): LoopTimes
      reads this
    {
      LoopTimes(lastSendTime, stopSendTime)
    }

    /** The statics as the program starts: the SDK is to be started, nothing else pending,
        and fota_config zeroed. */
    constructor (cpid: string, env: string, settings: Settings)
      ensures State() == Initial
      ensures fresh(fotaConfig) && fotaConfig.Value() == ConfigValue(Null, Null, false, Null)
      ensures this.cpid == cpid && this.env == env && this.settings == settings
    {
      sdkRunning, sdkDoRun, sdkDoShutdown, doReboot, fotaInProgress := false, true, false, false, false;
      timeButtonDown := 0;
      lastSendTime, stopSendTime := 0, 0;
      fotaConfig := new FotaConfig();
      this.cpid, this.env, this.settings := cpid, env, settings;
    }

    /** nrf_fota_cb. */
    method NrfFotaCb(e: FotaEvent)
      modifies this
      ensures State() == AfterFotaEvent(old(State()), e)
      ensures Times() == old(Times())
    {
      match e
      case DownloadFinished =>
        fotaInProgress := false;
        if sdkRunning {
          sdkDoShutdown := true;
        }
        doReboot := true;
      case DownloadError =>
        fotaInProgress := false;
        if !sdkRunning {
          sdkDoRun := true;
        }
      case OtherEvent =>
    }

    /** button_handler; `uptime` is what k_uptime_get returns at the call. */
    method ButtonHandler(buttonState: bv32, hasChanged: bv32, uptime: int)
      modifies this
      ensures State() == AfterButton(old(State()), buttonState, hasChanged, uptime)
      ensures Times() == old(Times())
    {
      if hasChanged != 0 && buttonState & 1 == 1 {
        timeButtonDown := uptime;
      } else if hasChanged != 0 && timeButtonDown > 0 && buttonState & 1 == 0 {
        if sdkRunning {
          sdkDoShutdown := true;
        } else {
          sdkDoRun := true;
        }
      }
    }

    /** on_ota. `url` is the cloned download URL (null when the request has none), `version`
        the offered version, `hasCommand` whether a legacy request carried a command, and
        `fotaStartResult` what nrf_fota_start would return. The result is the
        acknowledgement sent, if any. The URL is split and the download started only for a
        strictly newer version; a started download sets fota_in_progress and sends nothing. */
    method OnOta(url: array?<char>, version: string, hasCommand: bool, fotaStartResult: int)
      returns (ack: Option<Ack>)
      requires url != null ==> '\0' in url[..] && '\0' !in version
      modifies this, fotaConfig, url
      ensures url == null ==>
        && ack == Some(LegacyAck(hasCommand))
        && State() == old(State())
        && fotaConfig.Value() == old(fotaConfig.Value())
      ensures url != null ==>
        var v, u := Classify(version), SplitUrl(Content(old(url[..])));
        && ack == OtaAck(v, StartResult(u, fotaStartResult))
        && url[..] == (if v == NeedsUpdate then SplitBuffer(old(url[..])) else old(url[..]))
        && fotaConfig.Value() ==
             (if v == NeedsUpdate then ConfigAfterSplit(old(fotaConfig.Value()), url, u)
              else old(fotaConfig.Value()))
        && State() == old(State()).(fotaInProgress := old(fotaInProgress) || ack.None?)
      ensures Times() == old(Times())
    {
      if url != null {
        if IsSameVersion(version) {
          ack := Some(Ack(true, Some(MsgVersionMatching)));
        } else if NeedsOtaUpdate(version) {
          var err := StartOta(url, fotaConfig, fotaStartResult);
          if err != 0 {
            ack := Some(Ack(false, Some(MsgStartFailed)));
          } else {
            fotaInProgress := true;
            ack := None;
          }
        } else {
          ack := Some(Ack(false, Some(MsgDeviceNewer)));
        }
      } else {
        ack := Some(LegacyAck(hasCommand));
      }
    }

    /** The start of sdk_run up to its loop, given the results of the LTE connection,
        time_init and the SDK's initialisation, and the time at which the loop starts. */
    method SdkRunBegin(lteErr: int, timeErr: int, initResult: int, now: int) returns (outcome: RunOutcome)
      modifies this
      ensures var b := BeginRun(old(State()), lteErr, timeErr, |cpid| > 0 && |env| > 0, initResult);
        State() == b.globals && outcome == b.outcome
      ensures outcome.Connected? ==> Times() == StartLoop(now, settings)
      ensures outcome.Failed? ==> Times() == old(Times())
    {
      sdkRunning := true;
      if lteErr != 0 {
        sdkRunning := false;
        return Failed(lteErr);
      }
      if timeErr != 0 {
        return Failed(timeErr);
      }
      if |cpid| == 0 || |env| == 0 {
        sdkRunning := false;
        return Failed(-Errno.EINVAL);
      }
      if initResult != 0 {
        sdkRunning := false;
        return Failed(initResult);
      }
      lastSendTime := now - settings.sendIntervalSecs;
      stopSendTime := now + 60 * settings.durationMinutes;
      outcome := Connected;
    }

    /** One pass of sdk_run's loop, after iotconnect_sdk_loop has delivered its callbacks:
        returns whether telemetry is published and whether the loop goes round again; a
        pending shutdown request is cleared. */
    method SdkRunLoopStep(now: int, connected: bool, nowAfterSleep: int) returns (publish: bool, again: bool)
      modifies this
      ensures var r := Step(old(Times()), settings, old(sdkDoShutdown), old(fotaInProgress), now, connected, nowAfterSleep);
        && Times() == r.times && publish == r.publish && again == r.again
        && State() == old(State()).(sdkDoShutdown := old(sdkDoShutdown) && !r.shutdownTaken)
    {
      if sdkDoShutdown {
        sdkDoShutdown := false;
        return false, false;
      }
      publish := false;
      if connected && now - lastSendTime >= settings.sendIntervalSecs {
        lastSendTime := now;
        if !fotaInProgress {
          publish := true;
        }
      }
      if fotaInProgress {
        stopSendTime := now + 60 * settings.durationMinutes;
      }
      again := settings.durationMinutes >= 0 && nowAfterSleep < stopSendTime;
    }

    /** The end of sdk_run after its loop: the SDK is marked stopped; the LTE link is taken
        offline unless a download is in progress. */
    method SdkRunEnd() returns (goOffline: bool)
      modifies this
      ensures State() == old(State()).(sdkRunning := false)
      ensures goOffline <==> !fotaInProgress
      ensures Times() == old(Times())
    {
      goOffline := !fotaInProgress;
      sdkRunning := false;
    }

    /** The first test of main's loop; true when sdk_run is to be entered. */
    method PollRunTrigger() returns (start: bool)
      modifies this
      ensures var t := TakeRunTrigger(old(State()));
        State() == t.globals && start == t.fired
      ensures Times() == old(Times())
    {
      start := false;
      if sdkDoRun && !sdkRunning {
        sdkDoRun := false;
        start := true;
      }
    }

    /** The second test of main's loop; true when the board is to reboot. */
    method PollRebootTrigger() returns (reboot: bool)
      modifies this
      ensures var t := TakeRebootTrigger(old(State()));
        State() == t.globals && reboot == t.fired
      ensures Times() == old(Times())
    {
      reboot := false;
      if doReboot {
        doReboot := false;
        reboot := true;
      }
    }
  }
}
