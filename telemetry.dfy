/**
 * The telemetry schedule of sdk_run's loop (main.c:303-329): when a telemetry message is
 * published, when last_send_time and stop_send_time move, when a shutdown request is taken
 * and when the loop goes round again. Times are seconds as read from time(); the two
 * Kconfig settings are parameters.
 */
module Telemetry {

  /** CONFIG_TELEMETRY_SEND_INTERVAL_SECS and CONFIG_TELEMETRY_DURATION_MINUTES. */
  datatype Settings = Settings(sendIntervalSecs: int, durationMinutes: int)

  /** sdk_run's two time locals. */
  datatype LoopTimes = LoopTimes(lastSendTime: int, stopSendTime: int)

  /** The loop's starting point at time `now`: the interval counts as already elapsed, so
      the first connected check publishes, and sending stops after the configured duration. */
  function StartLoop(now: int, cfg: Settings): (t: LoopTimes)
    ensures now - t.lastSendTime == cfg.sendIntervalSecs
    ensures t.stopSendTime - now == 60 * cfg.durationMinutes
  {
    LoopTimes(now - cfg.sendIntervalSecs, now + 60 * cfg.durationMinutes)
  }

  /** What one pass of the loop did. */
  datatype StepResult = StepResult(times: LoopTimes, publish: bool, shutdownTaken: bool, again: bool)

  /** One pass of the do-while loop: `doShutdown` and `fotaInProgress` are the flags as the
      pass finds them after the SDK's own processing, `now` the time read before the
      telemetry test, `connected` the SDK's connection state and `nowAfterSleep` the time
      read after the sleep, which the loop condition uses.
      A pending shutdown is taken and ends the loop with nothing else changed. Otherwise the
      pass publishes exactly when connected, the interval has elapsed and no download is in
      progress; last_send_time moves to `now` whenever connected and the interval has elapsed,
      during a download too; a download in progress pushes stop_send_time to a full duration
      past `now`; and the loop goes on while the duration setting is non-negative and
      stop_send_time has not been reached. */
  function Step(t: LoopTimes, cfg: Settings, doShutdown: bool, fotaInProgress: bool,
                now: int, connected: bool, nowAfterSleep: int): (r: StepResult)
    ensures doShutdown ==> r == StepResult(t, false, true, false)
    ensures !doShutdown ==> !r.shutdownTaken
    ensures !doShutdown ==>
      (r.publish <==> connected && now - t.lastSendTime >= cfg.sendIntervalSecs && !fotaInProgress)
    ensures !doShutdown ==>
      r.times.lastSendTime == (if connected && now - t.lastSendTime >= cfg.sendIntervalSecs then now else t.lastSendTime)
    ensures !doShutdown ==>
      r.times.stopSendTime == (if fotaInProgress then now + 60 * cfg.durationMinutes else t.stopSendTime)
    ensures !doShutdown ==>
      (r.again <==> cfg.durationMinutes >= 0 && nowAfterSleep < r.times.stopSendTime)
  {
    if doShutdown then StepResult(t, false, true, false)
    else
      var due := connected && now - t.lastSendTime >= cfg.sendIntervalSecs;
      var last := if due then now else t.lastSendTime;
      var stop := if fotaInProgress then now + 60 * cfg.durationMinutes else t.stopSendTime;
      StepResult(LoopTimes(last, stop), due && !fotaInProgress,
                 false, cfg.durationMinutes >= 0 && nowAfterSleep < stop)
  }

  /** The first pass that finds the connection up publishes, provided no download is in
      progress and the clock has not gone back since the loop started. */
  lemma FirstCheckIsDue(start: int, cfg: Settings, now: int, nowAfterSleep: int)
    requires now >= start
    ensures Step(StartLoop(start, cfg), cfg, false, false, now, true, nowAfterSleep).publish
  {
  }

  /** While a download is in progress the loop does not run out of time: a pass that ends
      less than the configured duration after its time check goes round again. */
  lemma DownloadKeepsLoopAlive(t: LoopTimes, cfg: Settings, now: int, connected: bool, nowAfterSleep: int)
    requires cfg.durationMinutes >= 0 && nowAfterSleep - now < 60 * cfg.durationMinutes
    ensures Step(t, cfg, false, true, now, connected, nowAfterSleep).again
  {
  }

  /** The state the loop sees at one pass when no shutdown is pending. */
  datatype Tick = Tick(now: int, connected: bool, fotaInProgress: bool)

  /** The times at which successive passes publish telemetry. */
  function PublishTimes(t: LoopTimes, cfg: Settings, ticks: seq<Tick>): seq<int>
    decreases |ticks|
  {
    if ticks == [] then []
    else
      var k := ticks[0];
      var r := Step(t, cfg, false, k.fotaInProgress, k.now, k.connected, k.now);
      (if r.publish then [k.now] else []) + PublishTimes(r.times, cfg, ticks[1..])
  }

  /** Publications are rate-limited: the first comes at least one interval after
      last_send_time, and any two successive ones at least one interval apart, whatever
      the clock does and however the connection and download state change. */
  lemma {:induction false} PublishesAreSpaced(t: LoopTimes, cfg: Settings, ticks: seq<Tick>)
    requires cfg.sendIntervalSecs >= 0
    ensures var p := PublishTimes(t, cfg, ticks);
      && (|p| > 0 ==> p[0] - t.lastSendTime >= cfg.sendIntervalSecs)
      && (forall i :: 0 < i < |p| ==> p[i] - p[i - 1] >= cfg.sendIntervalSecs)
    decreases |ticks|
  {
    if ticks != [] {
      var k := ticks[0];
      var r := Step(t, cfg, false, k.fotaInProgress, k.now, k.connected, k.now);
      PublishesAreSpaced(r.times, cfg, ticks[1..]);
    }
  }
}
