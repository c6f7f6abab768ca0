/**
 * The global flags that drive main's loop (main.c:46-50) together with button_handler's
 * static time_button_down (main.c:348), and how each event changes them, as values.
 */
module Flags {
  import opened Errno

  datatype Globals = Globals(
    sdkRunning: bool,       // sdk_run is executing
    sdkDoRun: bool,         // request to start sdk_run
    sdkDoShutdown: bool,    // request to leave sdk_run's loop
    doReboot: bool,         // request to reboot the board
    fotaInProgress: bool,   // a firmware download has been started
    timeButtonDown: int)    // uptime of the last press of button 1 (0: none recorded)

  /** The static initialisers: the SDK is to be started at once. */
  const Initial: Globals := Globals(false, true, false, false, false, 0)

  /** The firmware-download events nrf_fota_cb distinguishes. */
  datatype FotaEvent = DownloadFinished | DownloadError | OtherEvent

  /** nrf_fota_cb. A finished download ends FOTA, schedules a reboot and asks a running SDK
      loop to stop; an error ends FOTA and asks for the SDK to be started if it is not
      running (the reboot request is left alone); any other event changes nothing. */
  function AfterFotaEvent(g: Globals, e: FotaEvent): (h: Globals)
    ensures e.DownloadFinished? ==>
      && !h.fotaInProgress && h.doReboot
      && (g.sdkRunning ==> h.sdkDoShutdown)
      && (!g.sdkRunning ==> h.sdkDoShutdown == g.sdkDoShutdown)
      && h.(fotaInProgress := g.fotaInProgress, doReboot := g.doReboot, sdkDoShutdown := g.sdkDoShutdown) == g
    ensures e.DownloadError? ==>
      && !h.fotaInProgress
      && (!g.sdkRunning ==> h.sdkDoRun)
      && (g.sdkRunning ==> h.sdkDoRun == g.sdkDoRun)
      && h.(fotaInProgress := g.fotaInProgress, sdkDoRun := g.sdkDoRun) == g
    ensures e.OtherEvent? ==> h == g
  {
    match e
    case DownloadFinished =>
      g.(fotaInProgress := false,
         sdkDoShutdown := if g.sdkRunning then true else g.sdkDoShutdown,
         doReboot := true)
    case DownloadError =>
      g.(fotaInProgress := false,
         sdkDoRun := if !g.sdkRunning then true else g.sdkDoRun)
    case OtherEvent => g
  }

  /** Some button has changed and button 1 is down. */
  predicate IsPress(buttonState: bv32, hasChanged: bv32)
  {
    hasChanged != 0 && buttonState & 1 == 1
  }

  /** Some button has changed and button 1 is up. */
  predicate IsRelease(buttonState: bv32, hasChanged: bv32)
  {
    hasChanged != 0 && buttonState & 1 == 0
  }

  /** button_handler. A press records the uptime and changes no flag; a release after a
      recorded press (time_button_down > 0) asks a running SDK to stop, or a stopped one to
      start, and never both; anything else changes nothing. */
  function AfterButton(g: Globals, buttonState: bv32, hasChanged: bv32, uptime: int): (h: Globals)
    ensures IsPress(buttonState, hasChanged) ==> h == g.(timeButtonDown := uptime)
    ensures IsRelease(buttonState, hasChanged) && g.timeButtonDown > 0 ==>
      && (g.sdkRunning ==> h == g.(sdkDoShutdown := true))
      && (!g.sdkRunning ==> h == g.(sdkDoRun := true))
    ensures !IsPress(buttonState, hasChanged) && !(IsRelease(buttonState, hasChanged) && g.timeButtonDown > 0) ==>
      h == g
  {
    if hasChanged != 0 && buttonState & 1 == 1 then
      g.(timeButtonDown := uptime)
    else if hasChanged != 0 && g.timeButtonDown > 0 && buttonState & 1 == 0 then
      if g.sdkRunning then g.(sdkDoShutdown := true) else g.(sdkDoRun := true)
    else
      g
  }

  /** The globals after one of main's triggers, and whether it fired. */
  datatype Trigger = Trigger(globals: Globals, fired: bool)

  /** The first test of main's loop: a start request is taken, and sdk_run entered, only
      when the SDK is not already running. */
  function TakeRunTrigger(g: Globals): (t: Trigger)
    ensures t.fired <==> g.sdkDoRun && !g.sdkRunning
    ensures t.fired ==> t.globals == g.(sdkDoRun := false)
    ensures !t.fired ==> t.globals == g
  {
    if g.sdkDoRun && !g.sdkRunning then Trigger(g.(sdkDoRun := false), true)
    else Trigger(g, false)
  }

  /** The second test of main's loop: a reboot request is cleared and the board reboots. */
  function TakeRebootTrigger(g: Globals): (t: Trigger)
    ensures t.fired <==> g.doReboot
    ensures !t.globals.doReboot && t.globals.(doReboot := g.doReboot) == g
  {
    if g.doReboot then Trigger(g.(doReboot := false), true) else Trigger(g, false)
  }

  /** How the start of sdk_run ended. */
  datatype RunOutcome = Connected | Failed(code: int)

  datatype Begin = Begin(globals: Globals, outcome: RunOutcome)

  /** The start of sdk_run, given the results of the LTE connection, time_init and the SDK's
      initialisation, and whether CPID and ENV are both configured (non-empty). It reaches
      the loop only when all four succeed; each failure returns the failing step's own
      code (-EINVAL for a missing CPID or ENV); every
      failure clears sdk_running again except a failure of time_init, which leaves it set. */
  function BeginRun(g: Globals, lteErr: int, timeErr: int, configured: bool, initResult: int): (b: Begin)
    ensures b.outcome.Connected? <==> lteErr == 0 && timeErr == 0 && configured && initResult == 0
    ensures b.outcome.Failed? ==> b.outcome.code != 0
    ensures lteErr != 0 ==> b.outcome == Failed(lteErr)
    ensures lteErr == 0 && timeErr != 0 ==> b.outcome == Failed(timeErr)
    ensures lteErr == 0 && timeErr == 0 && configured && initResult != 0 ==> b.outcome == Failed(initResult)
    ensures !configured && lteErr == 0 && timeErr == 0 ==> b.outcome == Failed(-EINVAL)
    ensures b.globals.sdkRunning <==> b.outcome.Connected? || (lteErr == 0 && timeErr != 0)
    ensures b.globals.(sdkRunning := g.sdkRunning) == g
  {
    var running := g.(sdkRunning := true);
    if lteErr != 0 then Begin(running.(sdkRunning := false), Failed(lteErr))
    else if timeErr != 0 then Begin(running, Failed(timeErr))
    else if !configured then Begin(running.(sdkRunning := false), Failed(-EINVAL))
    else if initResult != 0 then Begin(running.(sdkRunning := false), Failed(initResult))
    else Begin(running, Connected)
  }

  /** What can happen while sdk_run is not executing: a download callback, a button
      callback, or a pass of main's loop. */
  datatype IdleEvent =
    | Fota(event: FotaEvent)
    | Button(buttonState: bv32, hasChanged: bv32, uptime: int)
    | MainPass

  /** Where a stretch of idle events leads: still waiting, sdk_run entered, or a reboot. */
  datatype IdleEnd = Waiting(globals: Globals) | SdkStarted(globals: Globals) | Rebooted

  /** Plays idle events from `g`, stopping when main's loop enters sdk_run or reboots. */
  function Replay(g: Globals, evs: seq<IdleEvent>): IdleEnd
    decreases |evs|
  {
    if evs == [] then Waiting(g)
    else match evs[0]
      case Fota(e) => Replay(AfterFotaEvent(g, e), evs[1..])
      case Button(s, c, t) => Replay(AfterButton(g, s, c, t), evs[1..])
      case MainPass =>
        var run := TakeRunTrigger(g);
        if run.fired then SdkStarted(run.globals)
        else if TakeRebootTrigger(g).fired then Rebooted
        else Replay(g, evs[1..])
  }

  /** While sdk_running is set outside sdk_run, no callback clears it and main's loop never
      enters sdk_run again: only a reboot ends the wait. */
  lemma {:induction false} RunningFlagIsSticky(g: Globals, evs: seq<IdleEvent>)
    requires g.sdkRunning
    ensures !Replay(g, evs).SdkStarted?
    ensures Replay(g, evs).Waiting? ==> Replay(g, evs).globals.sdkRunning
    decreases |evs|
  {
    if evs != [] {
      match evs[0]
      case Fota(e) => RunningFlagIsSticky(AfterFotaEvent(g, e), evs[1..]);
      case Button(s, c, t) => RunningFlagIsSticky(AfterButton(g, s, c, t), evs[1..]);
      case MainPass =>
        if !TakeRebootTrigger(g).fired {
          RunningFlagIsSticky(g, evs[1..]);
        }
    }
  }

  /** A failing time_init leaves sdk_running set, so from then on neither the button nor a
      download error can get the SDK started again; the board stays offline until a reboot. */
  lemma TimeInitFailureBlocksRestart(g: Globals, timeErr: int, configured: bool, initResult: int, evs: seq<IdleEvent>)
    requires timeErr != 0
    ensures var b := BeginRun(g, 0, timeErr, configured, initResult);
      && b.outcome == Failed(timeErr)
      && !Replay(b.globals, evs).SdkStarted?
  {
    RunningFlagIsSticky(BeginRun(g, 0, timeErr, configured, initResult).globals, evs);
  }

  /** By contrast, after any other failure a press and release of button 1 (at a non-zero
      uptime) gets sdk_run entered on main's next pass. */
  lemma ButtonRestartsAfterFailure(g: Globals, lteErr: int, configured: bool, initResult: int, down: int, up: int)
    requires lteErr != 0 || !configured || initResult != 0
    requires down > 0
    ensures var b := BeginRun(g, lteErr, 0, configured, initResult);
      && b.outcome.Failed?
      && Replay(b.globals, [Button(1, 1, down), Button(0, 1, up), MainPass]).SdkStarted?
  {
    var b := BeginRun(g, lteErr, 0, configured, initResult);
    var evs := [Button(1, 1, down), Button(0, 1, up), MainPass];
    var g1 := AfterButton(b.globals, 1, 1, down);
    var g2 := AfterButton(g1, 0, 1, up);
    assert IsPress(1, 1) && IsRelease(0, 1);
    assert !g2.sdkRunning && g2.sdkDoRun;
    assert Replay(g2, evs[2..]) == SdkStarted(g2.(sdkDoRun := false));
    assert Replay(g1, evs[1..]) == Replay(g2, evs[2..]);
    assert Replay(b.globals, evs) == Replay(g1, evs[1..]);
  }
}
