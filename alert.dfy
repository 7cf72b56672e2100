/**
 * The alert monitor (src/alert.rs): a loop that reads the battery, raises a
 * low-battery alert and a fully-charged alert once per crossing, and sleeps
 * in short steps so that it can be stopped. Reading the battery, printing
 * and notifying are outside the model: readings are given, alerts returned,
 * and the shared `running` flag is the sequence of values its loads see.
 */
module Alert {
  import opened Wrappers
  import opened MachineInts
  import opened Battery

  datatype AlertConfig = AlertConfig(levelThreshold: Option<U8>, onFull: bool, checkIntervalMs: nat)

  /** `AlertConfig::default()`: no threshold, no full alert, a check every 60 s. */
  function DefaultConfig(): (config: AlertConfig)
    ensures config.levelThreshold.None? && !config.onFull && config.checkIntervalMs == 60000
  {
    AlertConfig(None, false, 60000)
  }

  datatype Alert = LowBattery(level: U8, threshold: U8) | FullyCharged

  /** The two latches: an alert already given for the current crossing. */
  datatype Latches = Latches(levelAlerted: bool, fullAlerted: bool)

  /** The reading is low: at or below the threshold and not on the charger. */
  predicate IsLow(info: BatteryInfo, threshold: U8) {
    info.level <= threshold && !(info.state == Charging || info.state == Full)
  }

  /** The reading is full: reported Full, or at 100 % or more. */
  predicate IsFull(info: BatteryInfo) {
    info.state == Full || info.level >= 100
  }

  /** The low-battery check on one reading: the new latch and the alert, if any. */
  function LowCheck(config: AlertConfig, levelAlerted: bool, info: BatteryInfo): (bool, seq<Alert>) {
    match config.levelThreshold
    case None => (levelAlerted, [])
    case Some(threshold) =>
      if IsLow(info, threshold) then
        (true, if levelAlerted then [] else [LowBattery(info.level, threshold)])
      else (false, [])
  }

  /** The fully-charged check on one reading: the new latch and the alert, if any. */
  function FullCheck(config: AlertConfig, fullAlerted: bool, info: BatteryInfo): (bool, seq<Alert>) {
    if !config.onFull then (fullAlerted, [])
    else if IsFull(info) then (true, if fullAlerted then [] else [FullyCharged])
    else (false, [])
  }

  /** One check: the new latches and the alerts it gives, the low one first. */
  function Tick(config: AlertConfig, latches: Latches, reading: Result<BatteryInfo, string>): (Latches, seq<Alert>) {
    match reading
    case Err(_) => (latches, [])
    case Ok(info) =>
      (Latches(LowCheck(config, latches.levelAlerted, info).0, FullCheck(config, latches.fullAlerted, info).0),
       LowCheck(config, latches.levelAlerted, info).1 + FullCheck(config, latches.fullAlerted, info).1)
  }

  /** The latches and alerts after the given readings, in order. */
  function RunTicks(config: AlertConfig, latches: Latches, readings: seq<Result<BatteryInfo, string>>): (Latches, seq<Alert>) {
    if readings == [] then (latches, [])
    else
      var (before, alerts) := RunTicks(config, latches, readings[..|readings| - 1]);
      var (after, more) := Tick(config, before, readings[|readings| - 1]);
      (after, alerts + more)
  }

  function CountLow(alerts: seq<Alert>): nat {
    if alerts == [] then 0
    else CountLow(alerts[..|alerts| - 1]) + (if alerts[|alerts| - 1].LowBattery? then 1 else 0)
  }

  function CountFull(alerts: seq<Alert>): nat {
    if alerts == [] then 0
    else CountFull(alerts[..|alerts| - 1]) + (if alerts[|alerts| - 1].FullyCharged? then 1 else 0)
  }

  lemma {:induction false} CountsAppend(a: seq<Alert>, b: seq<Alert>)
    ensures CountLow(a + b) == CountLow(a) + CountLow(b)
    ensures CountFull(a + b) == CountFull(a) + CountFull(b)
  {
    if b != [] {
      assert (a + b)[..|a + b| - 1] == a + b[..|b| - 1];
      CountsAppend(a, b[..|b| - 1]);
    } else {
      assert a + b == a;
    }
  }

  /**
   * The low alert fires exactly when a threshold is set, the reading is low
   * and the latch is open; the latch then closes. It opens again on any
   * reading that is not low, and is left alone without a threshold.
   */
  lemma LowLatch(config: AlertConfig, latches: Latches, info: BatteryInfo)
    ensures var (after, alerts) := Tick(config, latches, Ok(info));
            (CountLow(alerts) == 1 <==>
               config.levelThreshold.Some? && IsLow(info, config.levelThreshold.value) && !latches.levelAlerted) &&
            CountLow(alerts) <= 1 &&
            (config.levelThreshold.None? ==> after.levelAlerted == latches.levelAlerted) &&
            (config.levelThreshold.Some? ==> (after.levelAlerted <==> IsLow(info, config.levelThreshold.value)))
  {
    var (after, alerts) := Tick(config, latches, Ok(info));
    var low := if config.levelThreshold.Some? && IsLow(info, config.levelThreshold.value) && !latches.levelAlerted
               then [LowBattery(info.level, config.levelThreshold.value)] else [];
    var full := if config.onFull && IsFull(info) && !latches.fullAlerted then [FullyCharged] else [];
    assert alerts == low + full;
    CountsAppend(low, full);
    assert CountLow(full) == 0 by { assert full == [] || full[..0] == []; }
  }

  /**
   * The full alert fires exactly when it is enabled, the reading is full and
   * the latch is open; the latch opens again on a reading that is not full.
   */
  lemma FullLatch(config: AlertConfig, latches: Latches, info: BatteryInfo)
    ensures var (after, alerts) := Tick(config, latches, Ok(info));
            (CountFull(alerts) == 1 <==> config.onFull && IsFull(info) && !latches.fullAlerted) &&
            CountFull(alerts) <= 1 &&
            (!config.onFull ==> after.fullAlerted == latches.fullAlerted) &&
            (config.onFull ==> (after.fullAlerted <==> IsFull(info)))
  {
    var (after, alerts) := Tick(config, latches, Ok(info));
    var low := if config.levelThreshold.Some? && IsLow(info, config.levelThreshold.value) && !latches.levelAlerted
               then [LowBattery(info.level, config.levelThreshold.value)] else [];
    var full := if config.onFull && IsFull(info) && !latches.fullAlerted then [FullyCharged] else [];
    assert alerts == low + full;
    CountsAppend(low, full);
    assert CountFull(low) == 0 by { assert low == [] || low[..0] == []; }
  }

  /** A failed read changes nothing and alerts nobody. */
  lemma FailedReadKeepsLatches(config: AlertConfig, latches: Latches, error: string)
    ensures Tick(config, latches, Err(error)) == (latches, [])
  {
  }

  /** Under the default configuration no check ever alerts or moves a latch. */
  lemma {:induction false} DefaultNeverAlerts(latches: Latches, readings: seq<Result<BatteryInfo, string>>)
    ensures RunTicks(DefaultConfig(), latches, readings) == (latches, [])
  {
    if readings != [] {
      DefaultNeverAlerts(latches, readings[..|readings| - 1]);
      var (before, alerts) := RunTicks(DefaultConfig(), latches, readings[..|readings| - 1]);
      assert Tick(DefaultConfig(), before, readings[|readings| - 1]).0 == latches;
      assert Tick(DefaultConfig(), before, readings[|readings| - 1]).1 == [];
    }
  }

  /** Low readings in a row alert once, on the first of them, unless already alerted. */
  lemma {:induction false} LowAlertOncePerCrossing(config: AlertConfig, latches: Latches, readings: seq<Result<BatteryInfo, string>>)
    requires config.levelThreshold.Some?
    requires forall i :: 0 <= i < |readings| ==> readings[i].Ok? && IsLow(readings[i].value, config.levelThreshold.value)
    ensures var (after, alerts) := RunTicks(config, latches, readings);
            CountLow(alerts) == (if readings != [] && !latches.levelAlerted then 1 else 0) &&
            (readings != [] ==> after.levelAlerted)
  {
    if readings != [] {
      var init := readings[..|readings| - 1];
      LowAlertOncePerCrossing(config, latches, init);
      var (before, alerts) := RunTicks(config, latches, init);
      var (after, more) := Tick(config, before, readings[|readings| - 1]);
      LowLatch(config, before, readings[|readings| - 1].value);
      CountsAppend(alerts, more);
    }
  }

  /** Full readings in a row alert once, on the first of them, unless already alerted. */
  lemma {:induction false} FullAlertOncePerCrossing(config: AlertConfig, latches: Latches, readings: seq<Result<BatteryInfo, string>>)
    requires config.onFull
    requires forall i :: 0 <= i < |readings| ==> readings[i].Ok? && IsFull(readings[i].value)
    ensures var (after, alerts) := RunTicks(config, latches, readings);
            CountFull(alerts) == (if readings != [] && !latches.fullAlerted then 1 else 0) &&
            (readings != [] ==> after.fullAlerted)
  {
    if readings != [] {
      var init := readings[..|readings| - 1];
      FullAlertOncePerCrossing(config, latches, init);
      var (before, alerts) := RunTicks(config, latches, init);
      var (after, more) := Tick(config, before, readings[|readings| - 1]);
      FullLatch(config, before, readings[|readings| - 1].value);
      CountsAppend(alerts, more);
    }
  }

  // ---------------------------------------------------------------- the loop

  const STEP_MS: nat := 500

  /** The `running` flag as seen by the load with index `at`; loads past the end see `false`. */
  function Observe(running: seq<bool>, at: nat): bool {
    at < |running| && running[at]
  }

  function Sum(xs: seq<nat>): nat {
    if xs == [] then 0 else Sum(xs[..|xs| - 1]) + xs[|xs| - 1]
  }

  function Min(a: nat, b: nat): nat {
    if a < b then a else b
  }

  /**
   * The index of the first load after a sleep of `intervalMs` that has
   * already slept `elapsed` ms and makes its next load at `at`: the sleep
   * ends without a further load once the interval is used up, and just
   * after the first load that sees `false`.
   */
  function SleepEnd(intervalMs: nat, running: seq<bool>, at: nat, elapsed: nat): (r: nat)
    ensures r >= at
    ensures elapsed < intervalMs ==> r > at
    decreases intervalMs - elapsed
  {
    if elapsed >= intervalMs then at
    else if Observe(running, at) then SleepEnd(intervalMs, running, at + 1, elapsed + STEP_MS)
    else at + 1
  }

  /**
   * How many checks the loop makes when its next load of the flag is the one
   * with index `at`: none once a load sees `false`, else one and then as many
   * as follow the sleep after it.
   */
  function TicksAllowed(intervalMs: nat, running: seq<bool>, at: nat): (n: nat)
    ensures n <= |running| - at || (n == 0 && at > |running|)
    ensures n > 0 <==> Observe(running, at)
    decreases |running| - at
  {
    if !Observe(running, at) then 0
    else 1 + TicksAllowed(intervalMs, running, SleepEnd(intervalMs, running, at + 1, 0))
  }

  /** Without an interval the loop checks once for every load that sees `true`, up to the first `false`. */
  lemma {:induction false} TicksWithoutInterval(running: seq<bool>, at: nat)
    requires at <= |running|
    requires forall k :: at <= k < |running| ==> running[k]
    ensures TicksAllowed(0, running, at) == |running| - at
    decreases |running| - at
  {
    if at < |running| {
      assert SleepEnd(0, running, at + 1, 0) == at + 1;
      TicksWithoutInterval(running, at + 1);
    }
  }

  /**
   * The interruptible sleep: steps of at most 500 ms, none past the
   * interval, the flag loaded before each. It sleeps the whole interval
   * unless a load sees `false`. `at` is the index of its first load, `next`
   * that of the first load after it.
   */
  method SleepInSteps(intervalMs: nat, running: seq<bool>, at: nat) returns (steps: seq<nat>, next: nat)
    ensures forall i :: 0 <= i < |steps| ==> 0 < steps[i] <= STEP_MS
    ensures Sum(steps) == Min(intervalMs, STEP_MS * |steps|)
    ensures |steps| > 0 ==> STEP_MS * (|steps| - 1) < intervalMs
    ensures forall k :: at <= k < at + |steps| ==> Observe(running, k)
    ensures STEP_MS * |steps| < intervalMs ==> next == at + |steps| + 1 && !Observe(running, at + |steps|)
    ensures STEP_MS * |steps| >= intervalMs ==> next == at + |steps|
    ensures next == SleepEnd(intervalMs, running, at, 0)
  {
    steps := [];
    next := at;
    var elapsed := 0;
    while elapsed < intervalMs && Observe(running, next)
      invariant elapsed == STEP_MS * |steps| && next == at + |steps|
      invariant |steps| > 0 ==> STEP_MS * (|steps| - 1) < intervalMs
      invariant forall i :: 0 <= i < |steps| ==> 0 < steps[i] <= STEP_MS
      invariant Sum(steps) == Min(intervalMs, elapsed)
      invariant forall k :: at <= k < next ==> Observe(running, k)
      invariant SleepEnd(intervalMs, running, next, elapsed) == SleepEnd(intervalMs, running, at, 0)
      decreases intervalMs - elapsed
    {
      var step := Min(STEP_MS, intervalMs - elapsed);
      assert (steps + [step])[..|steps|] == steps;
      steps := steps + [step];
      next := next + 1;
      elapsed := elapsed + STEP_MS;
    }
    if elapsed < intervalMs {
      next := next + 1;
    }
  }

  /** One pass of the loop body before the sleep: the two alert checks on one reading. */
  method CheckReading(config: AlertConfig, levelAlerted: bool, fullAlerted: bool, reading: Result<BatteryInfo, string>)
    returns (levelAfter: bool, fullAfter: bool, given: seq<Alert>)
    ensures Latches(levelAfter, fullAfter) == Tick(config, Latches(levelAlerted, fullAlerted), reading).0
    ensures given == Tick(config, Latches(levelAlerted, fullAlerted), reading).1
  {
    levelAfter, fullAfter := levelAlerted, fullAlerted;
    var low: seq<Alert> := [];
    var full: seq<Alert> := [];
    match reading {
      case Ok(info) =>
        if config.levelThreshold.Some? {
          var threshold := config.levelThreshold.value;
          if info.level <= threshold && !(info.state == Charging || info.state == Full) {
            if !levelAfter {
              low := [LowBattery(info.level, threshold)];
              levelAfter := true;
            }
          } else {
            levelAfter := false;
          }
        }
        if config.onFull {
          if info.state == Full || info.level >= 100 {
            if !fullAfter {
              full := [FullyCharged];
              fullAfter := true;
            }
          } else {
            fullAfter := false;
          }
        }
      case Err(_) =>
    }
    given := low + full;
  }

  /**
   * `run_alert_loop`: while the flag is set, one check on the next reading,
   * then the interruptible sleep. It returns the alerts given, in order, and
   * how many checks it made.
   */
  method RunAlertLoop(config: AlertConfig, running: seq<bool>, readings: seq<Result<BatteryInfo, string>>)
    returns (alerts: seq<Alert>, ticks: nat)
    requires |readings| >= |running|
    ensures ticks <= |running|
    ensures ticks == TicksAllowed(config.checkIntervalMs, running, 0)
    ensures alerts == RunTicks(config, Latches(false, false), readings[..ticks]).1
  {
    var levelAlerted := false;
    var fullAlerted := false;
    alerts := [];
    ticks := 0;
    var at := 0;
    while Observe(running, at)
      invariant ticks <= at <= |running|
      invariant Latches(levelAlerted, fullAlerted) == RunTicks(config, Latches(false, false), readings[..ticks]).0
      invariant alerts == RunTicks(config, Latches(false, false), readings[..ticks]).1
      invariant ticks + TicksAllowed(config.checkIntervalMs, running, at) == TicksAllowed(config.checkIntervalMs, running, 0)
      decreases |running| - at
    {
      at := at + 1;
      var reading := readings[ticks];
      var given;
      levelAlerted, fullAlerted, given := CheckReading(config, levelAlerted, fullAlerted, reading);
      assert readings[..ticks + 1][..ticks] == readings[..ticks];
      alerts := alerts + given;
      ticks := ticks + 1;
      var steps, next := SleepInSteps(config.checkIntervalMs, running, at);
      at := if next <= |running| then next else |running|;
    }
  }
}
