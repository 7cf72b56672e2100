/**
 * The optimisation advisor (src/optimize.rs): a list of suggestions built
 * from the battery reading, the busiest applications and the number of
 * running processes, sorted by priority, with an estimate of the minutes
 * they save. The process count and the application list are inputs.
 */
module Optimize {
  import opened Wrappers
  import opened Text
  import opened Battery
  import opened Health

  datatype Priority = High | Medium | Low
  {
    /** The derived order: High before Medium before Low. */
    function Rank(): (r: nat)
      ensures r <= 2
    {
      match this
      case High => 0
      case Medium => 1
      case Low => 2
    }

    function Name(): string {
      match this
      case High => "High Impact"
      case Medium => "Medium Impact"
      case Low => "Low Impact"
    }
  }

  /** One entry of the power report: an application and what it draws. */
  datatype App = App(name: string, cpuPercent: real, estimatedPowerWatts: real)

  /** Which advice a suggestion gives, with the values its text shows. */
  datatype Advice =
    | CloseApp(app: App)
    | DimDisplay
    | CloseProcesses(count: nat)
    | UnplugCharger
    | ChargeSoon
    | CoolDown(temp: real)
    | DisableBluetooth
    | DisableWiFi
    | KeyboardBacklight
    | UseLowPowerMode
    | UpdateSystem

  /**
   * A suggestion: its priority and its advice. The title, description and
   * estimated saving are the texts of the advice.
   */
  datatype Suggestion = Suggestion(priority: Priority, advice: Advice)
  {
    function Title(): string {
      match advice
      case CloseApp(app) => app.name + " is using " + SignedNoDecimals(app.cpuPercent) + "% CPU"
      case DimDisplay => "Reduce display brightness"
      case CloseProcesses(count) => NatToString(count) + " processes running"
      case UnplugCharger => "Unplug charger to preserve battery health"
      case ChargeSoon => "Battery critically low"
      case CoolDown(temp) => "Battery temperature high (" + SignedNoDecimals(temp) + "C)"
      case DisableBluetooth => "Disable Bluetooth if not in use"
      case DisableWiFi => "Disable Wi-Fi if not needed"
      case KeyboardBacklight => "Turn off keyboard backlight"
      case UseLowPowerMode => "Enable Low Power Mode when below 20%"
      case UpdateSystem => "Keep system updated"
    }

    function Description(): string {
      match advice
      case CloseApp(_) => "Close unused instances or switch to a lighter alternative"
      case DimDisplay => "Lower brightness to 50-60% for significant power savings"
      case CloseProcesses(_) => "Close unused applications to reduce background power drain"
      case UnplugCharger => "Keeping battery between 20-80% extends its lifespan"
      case ChargeSoon => "Connect to power source soon to avoid unexpected shutdown"
      case CoolDown(_) => "Move to a cooler environment or reduce workload. High temperature degrades battery health."
      case DisableBluetooth => "Bluetooth radio consumes power even when idle"
      case DisableWiFi => "Use airplane mode for offline work to save power"
      case KeyboardBacklight => "Every bit helps when maximizing battery life"
      case UseLowPowerMode => "System-level power optimizations extend remaining time"
      case UpdateSystem => "OS updates often include power management improvements"
    }

    function EstimatedSavings(): Option<string> {
      match advice
      case CloseApp(app) => Some("saves ~" + SignedOneDecimal(app.estimatedPowerWatts * 0.7) + "W")
      case DimDisplay => Some("saves ~2W")
      case CloseProcesses(_) => Some("saves ~0.5-1W")
      case DisableBluetooth => Some("saves ~0.3W")
      case DisableWiFi => Some("saves ~0.5W")
      case KeyboardBacklight => Some("saves ~0.1W")
      case UseLowPowerMode => Some("saves ~10-15%")
      case _ => None
    }
  }

  // ---------------------------------------------------------------- selecting by priority

  /** The suggestions of one priority, in their order. */
  function OfPriority(s: seq<Suggestion>, p: Priority): (r: seq<Suggestion>)
    ensures |r| <= |s|
  {
    if s == [] then []
    else OfPriority(s[..|s| - 1], p) + (if s[|s| - 1].priority == p then [s[|s| - 1]] else [])
  }

  datatype OptimizationReport = OptimizationReport(suggestions: seq<Suggestion>, estimatedTotalSavingsMinutes: Option<int>)
  {
    function HighImpact(): (r: seq<Suggestion>)
      ensures forall i :: 0 <= i < |r| ==> r[i].priority == High && r[i] in suggestions
    {
      OfPriorityIn(suggestions, High);
      OfPriority(suggestions, High)
    }

    function MediumImpact(): (r: seq<Suggestion>)
      ensures forall i :: 0 <= i < |r| ==> r[i].priority == Medium && r[i] in suggestions
    {
      OfPriorityIn(suggestions, Medium);
      OfPriority(suggestions, Medium)
    }

    function LowImpact(): (r: seq<Suggestion>)
      ensures forall i :: 0 <= i < |r| ==> r[i].priority == Low && r[i] in suggestions
    {
      OfPriorityIn(suggestions, Low);
      OfPriority(suggestions, Low)
    }
  }

  lemma {:induction false} OfPriorityAppend(a: seq<Suggestion>, b: seq<Suggestion>, p: Priority)
    ensures OfPriority(a + b, p) == OfPriority(a, p) + OfPriority(b, p)
  {
    if b == [] {
      assert a + b == a;
    } else {
      assert (a + b)[..|a + b| - 1] == a + b[..|b| - 1];
      OfPriorityAppend(a, b[..|b| - 1], p);
    }
  }

  lemma OfPrioritySnoc(init: seq<Suggestion>, last: Suggestion, p: Priority)
    ensures last.priority == p ==> OfPriority(init + [last], p) == OfPriority(init, p) + [last]
    ensures last.priority != p ==> OfPriority(init + [last], p) == OfPriority(init, p)
  {
    assert (init + [last])[..|init|] == init;
  }

  /** How often a suggestion occurs in a selection. */
  lemma {:induction false} OfPriorityCount(s: seq<Suggestion>, p: Priority, x: Suggestion)
    ensures multiset(OfPriority(s, p))[x] == if x.priority == p then multiset(s)[x] else 0
  {
    if s != [] {
      var init, last := s[..|s| - 1], s[|s| - 1];
      OfPriorityCount(init, p, x);
      OfPrioritySnoc(init, last, p);
      assert s == init + [last];
      assert multiset(s) == multiset(init) + multiset{last};
      if last.priority == p {
        assert multiset(OfPriority(s, p)) == multiset(OfPriority(init, p)) + multiset{last};
      } else {
        assert multiset(OfPriority(s, p)) == multiset(OfPriority(init, p));
      }
    }
  }

  /** The three selections together hold every suggestion exactly once. */
  lemma ImpactPartition(s: seq<Suggestion>)
    ensures multiset(OfPriority(s, High)) + multiset(OfPriority(s, Medium)) + multiset(OfPriority(s, Low)) == multiset(s)
  {
    var sum := multiset(OfPriority(s, High)) + multiset(OfPriority(s, Medium)) + multiset(OfPriority(s, Low));
    forall x
      ensures sum[x] == multiset(s)[x]
    {
      OfPriorityCount(s, High, x);
      OfPriorityCount(s, Medium, x);
      OfPriorityCount(s, Low, x);
    }
  }

  /** A selection holds suggestions of the list with the selected priority only. */
  lemma {:induction false} OfPriorityIn(s: seq<Suggestion>, p: Priority)
    ensures forall i :: 0 <= i < |OfPriority(s, p)| ==> OfPriority(s, p)[i] in s && OfPriority(s, p)[i].priority == p
  {
    if s != [] {
      OfPriorityIn(s[..|s| - 1], p);
      assert forall x :: x in s[..|s| - 1] ==> x in s;
    }
  }

  /** A suggestion is selected for a priority exactly when it is in the list with that priority. */
  lemma OfPriorityMembers(s: seq<Suggestion>, p: Priority, x: Suggestion)
    ensures x in OfPriority(s, p) <==> x in s && x.priority == p
  {
    if s != [] {
      var init := s[..|s| - 1];
      OfPriorityMembers(init, p, x);
      assert s == init + [s[|s| - 1]];
    }
  }

  /** Selecting a priority from a selection of one priority. */
  lemma {:induction false} OfPrioritySelect(s: seq<Suggestion>, p: Priority, q: Priority)
    ensures OfPriority(OfPriority(s, p), q) == if p == q then OfPriority(s, p) else []
  {
    if s != [] {
      var init := s[..|s| - 1];
      OfPrioritySelect(init, p, q);
      OfPriorityAppend(OfPriority(init, p), if s[|s| - 1].priority == p then [s[|s| - 1]] else [], q);
    }
  }

  // ---------------------------------------------------------------- sorting

  /**
   * `sort_by_key(|s| s.priority)`: a stable sort on three keys, which is the
   * High suggestions, then the Medium ones, then the Low ones, each in order.
   */
  function SortByPriority(s: seq<Suggestion>): seq<Suggestion> {
    OfPriority(s, High) + OfPriority(s, Medium) + OfPriority(s, Low)
  }

  predicate SortedByPriority(s: seq<Suggestion>) {
    forall i, j :: 0 <= i < j < |s| ==> s[i].priority.Rank() <= s[j].priority.Rank()
  }

  /** The sort orders by priority, loses and adds nothing, and keeps the order within a priority. */
  lemma SortIsStable(s: seq<Suggestion>)
    ensures SortedByPriority(SortByPriority(s))
    ensures multiset(SortByPriority(s)) == multiset(s)
    ensures forall p :: OfPriority(SortByPriority(s), p) == OfPriority(s, p)
  {
    SortIsSorted(s);
    ImpactPartition(s);
    forall p
      ensures OfPriority(SortByPriority(s), p) == OfPriority(s, p)
    {
      SortKeepsPriority(s, p);
    }
  }

  lemma SortIsSorted(s: seq<Suggestion>)
    ensures SortedByPriority(SortByPriority(s))
  {
    var h, m, l := OfPriority(s, High), OfPriority(s, Medium), OfPriority(s, Low);
    OfPriorityIn(s, High);
    OfPriorityIn(s, Medium);
    OfPriorityIn(s, Low);
    var r := h + m + l;
    forall i | 0 <= i < |r|
      ensures r[i].priority.Rank() == if i < |h| then 0 else if i < |h| + |m| then 1 else 2
    {
      if i < |h| {
        assert r[i] == h[i];
      } else if i < |h| + |m| {
        assert r[i] == m[i - |h|];
      } else {
        assert r[i] == l[i - |h| - |m|];
      }
    }
  }

  lemma SortKeepsPriority(s: seq<Suggestion>, p: Priority)
    ensures OfPriority(SortByPriority(s), p) == OfPriority(s, p)
  {
    var h, m, l := OfPriority(s, High), OfPriority(s, Medium), OfPriority(s, Low);
    assert SortByPriority(s) == h + m + l;
    OfPriorityAppend(h + m, l, p);
    OfPriorityAppend(h, m, p);
    var hp, mp, lp := OfPriority(h, p), OfPriority(m, p), OfPriority(l, p);
    assert OfPriority(h + m + l, p) == hp + mp + lp;
    OfPrioritySelect(s, High, p);
    OfPrioritySelect(s, Medium, p);
    OfPrioritySelect(s, Low, p);
    if p == High {
      assert hp == h && mp == [] && lp == [];
      assert hp + mp + lp == h;
    } else if p == Medium {
      assert hp == [] && mp == m && lp == [];
      assert hp + mp + lp == m;
    } else {
      assert hp == [] && mp == [] && lp == l;
      assert hp + mp + lp == l;
    }
  }

  /** In a list sorted by priority the three selections are its three consecutive parts. */
  lemma ImpactSplitsSorted(report: OptimizationReport)
    requires report.suggestions == SortByPriority(report.suggestions)
    ensures report.HighImpact() + report.MediumImpact() + report.LowImpact() == report.suggestions
  {
  }

  // ---------------------------------------------------------------- the suggestions

  /** `format!("{:.0}", x)`, with the sign of a negative value in front. */
  function SignedNoDecimals(x: real): string {
    if x < 0.0 then "-" + NatToString((-x + 0.5).Floor) else NatToString((x + 0.5).Floor)
  }

  /** `format!("{:.1}", x)`, with the sign of a negative value in front. */
  function SignedOneDecimal(x: real): string {
    if x < 0.0 then "-" + OneDecimal(-x) else OneDecimal(x)
  }

  /** The suggestion for an application above 20 % CPU. */
  function AppSuggestion(app: App): Suggestion {
    Suggestion(High, CloseApp(app))
  }

  /** The suggestions for the given applications above 20 % CPU, in their order. */
  function AppSuggestions(apps: seq<App>): seq<Suggestion> {
    if apps == [] then []
    else
      var app := apps[|apps| - 1];
      AppSuggestions(apps[..|apps| - 1]) + (if app.cpuPercent > 20.0 then [AppSuggestion(app)] else [])
  }

  /** How many of the given applications are above 20 % CPU. */
  function CountBusy(apps: seq<App>): (n: nat)
    ensures n <= |apps|
  {
    if apps == [] then 0
    else CountBusy(apps[..|apps| - 1]) + (if apps[|apps| - 1].cpuPercent > 20.0 then 1 else 0)
  }

  /** Each busy application gives one High "close it" suggestion with a saving, and nothing else does. */
  lemma {:induction false} AppSuggestionsOfBusy(apps: seq<App>)
    ensures |AppSuggestions(apps)| == CountBusy(apps)
    ensures forall s :: s in AppSuggestions(apps) ==> s.priority == High && s.advice.CloseApp? && s.EstimatedSavings().Some?
    ensures forall s :: s in AppSuggestions(apps) ==> exists a :: a in apps && a.cpuPercent > 20.0 && s == AppSuggestion(a)
    ensures forall a :: a in apps && a.cpuPercent > 20.0 ==> AppSuggestion(a) in AppSuggestions(apps)
  {
    if apps != [] {
      AppSuggestionsOfBusy(apps[..|apps| - 1]);
    }
    forall s | s in AppSuggestions(apps)
      ensures exists a :: a in apps && a.cpuPercent > 20.0 && s == AppSuggestion(a)
    {
      SuggestionNamesBusyApp(apps, s);
    }
    forall a | a in apps && a.cpuPercent > 20.0
      ensures AppSuggestion(a) in AppSuggestions(apps)
    {
      BusyAppSuggested(apps, a);
    }
  }

  lemma {:induction false} SuggestionNamesBusyApp(apps: seq<App>, s: Suggestion)
    requires s in AppSuggestions(apps)
    ensures exists a :: a in apps && a.cpuPercent > 20.0 && s == AppSuggestion(a)
  {
    var init, last := apps[..|apps| - 1], apps[|apps| - 1];
    if s in AppSuggestions(init) {
      SuggestionNamesBusyApp(init, s);
      var a :| a in init && a.cpuPercent > 20.0 && s == AppSuggestion(a);
      assert a in apps;
    } else {
      assert s == AppSuggestion(last) && last.cpuPercent > 20.0;
    }
  }

  lemma {:induction false} BusyAppSuggested(apps: seq<App>, a: App)
    requires a in apps && a.cpuPercent > 20.0
    ensures AppSuggestion(a) in AppSuggestions(apps)
  {
    var init, last := apps[..|apps| - 1], apps[|apps| - 1];
    assert apps == init + [last];
    if a != last {
      BusyAppSuggested(init, a);
    }
  }

  /** `report.apps.iter().take(3)`; no power report, no applications. */
  function FirstThree(power: Option<seq<App>>): (apps: seq<App>)
    ensures |apps| <= 3
  {
    match power
    case None => []
    case Some(apps) => if |apps| <= 3 then apps else apps[..3]
  }

  const Brightness := Suggestion(High, DimDisplay)

  function Processes(count: nat): Suggestion {
    Suggestion(Medium, CloseProcesses(count))
  }

  const Unplug := Suggestion(Medium, UnplugCharger)

  const CriticallyLow := Suggestion(High, ChargeSoon)

  function HotBattery(temp: real): Suggestion {
    Suggestion(Medium, CoolDown(temp))
  }

  const Bluetooth := Suggestion(Medium, DisableBluetooth)

  const WiFi := Suggestion(Medium, DisableWiFi)

  const Backlight := Suggestion(Low, KeyboardBacklight)

  const LowPowerMode := Suggestion(Low, UseLowPowerMode)

  const KeepUpdated := Suggestion(Low, UpdateSystem)

  predicate ShouldUnplug(battery: BatteryInfo) {
    battery.level > 80 && battery.state == Charging
  }

  predicate IsCriticallyLow(battery: BatteryInfo) {
    battery.level < 20 && battery.state != Charging
  }

  function TemperatureSuggestions(battery: BatteryInfo): seq<Suggestion> {
    match battery.temperatureCelsius
    case Some(temp) => if temp > 40.0 then [HotBattery(temp)] else []
    case None => []
  }

  /** The battery-state advice, in the order it is added. */
  function StateAdvice(battery: BatteryInfo): seq<Suggestion> {
    (if ShouldUnplug(battery) then [Unplug] else []) +
    (if IsCriticallyLow(battery) then [CriticallyLow] else []) +
    TemperatureSuggestions(battery)
  }

  /** The suggestions in the order they are added, before sorting. */
  function Collected(battery: BatteryInfo, power: Option<seq<App>>, processCount: nat, aggressive: bool): seq<Suggestion> {
    AppSuggestions(FirstThree(power)) + [Brightness] +
    (if processCount > 100 then [Processes(processCount)] else []) +
    StateAdvice(battery) +
    (if aggressive then [Bluetooth, WiFi, Backlight] else []) +
    [LowPowerMode, KeepUpdated]
  }

  /** The estimated saving: 15 minutes per busy application, 30 for brightness, 15 for processes, 30 for the aggressive extras. */
  function SavingsMinutes(power: Option<seq<App>>, processCount: nat, aggressive: bool): int {
    30 + 15 * CountBusy(FirstThree(power)) + (if processCount > 100 then 15 else 0) + (if aggressive then 30 else 0)
  }

  function Report(battery: BatteryInfo, power: Option<seq<App>>, processCount: nat, aggressive: bool): OptimizationReport {
    OptimizationReport(SortByPriority(Collected(battery, power, processCount, aggressive)),
      Some(SavingsMinutes(power, processCount, aggressive)))
  }

  /** The loop over the busiest applications: a suggestion and 15 minutes for each above 20 % CPU. */
  method BusyAppSuggestions(apps: seq<App>) returns (suggestions: seq<Suggestion>, minutes: int)
    ensures suggestions == AppSuggestions(apps)
    ensures minutes == 15 * CountBusy(apps) && |suggestions| == CountBusy(apps)
  {
    suggestions := [];
    minutes := 0;
    for i := 0 to |apps|
      invariant suggestions == AppSuggestions(apps[..i])
      invariant minutes == 15 * CountBusy(apps[..i])
    {
      assert apps[..i + 1][..i] == apps[..i];
      var app := apps[i];
      if app.cpuPercent > 20.0 {
        suggestions := suggestions + [AppSuggestion(app)];
        minutes := minutes + 15;
      }
    }
    assert apps[..|apps|] == apps;
    AppSuggestionsOfBusy(apps);
  }

  /** The battery-level and temperature advice, in the order it is added. */
  method BatteryAdvice(battery: BatteryInfo) returns (advice: seq<Suggestion>)
    ensures advice == StateAdvice(battery)
  {
    advice := [];
    if battery.level > 80 && battery.state == Charging {
      advice := advice + [Unplug];
    }
    if battery.level < 20 && battery.state != Charging {
      advice := advice + [CriticallyLow];
    }
    if battery.temperatureCelsius.Some? && battery.temperatureCelsius.value > 40.0 {
      advice := advice + [HotBattery(battery.temperatureCelsius.value)];
    }
  }

  /**
   * `generate_suggestions`, the process count given: the suggestions added
   * one by one with their savings, then sorted by priority.
   */
  method GenerateSuggestions(battery: BatteryInfo, power: Option<seq<App>>, processCount: nat, aggressive: bool)
    returns (report: OptimizationReport)
    ensures report == Report(battery, power, processCount, aggressive)
    ensures report.estimatedTotalSavingsMinutes.Some?
    ensures 30 <= report.estimatedTotalSavingsMinutes.value <= 120
  {
    var suggestions, totalSavingsMins := BusyAppSuggestions(FirstThree(power));
    suggestions := suggestions + [Brightness];
    totalSavingsMins := totalSavingsMins + 30;
    if processCount > 100 {
      suggestions := suggestions + [Processes(processCount)];
      totalSavingsMins := totalSavingsMins + 15;
    } else {
      assert suggestions + [] == suggestions;
    }
    var advice := BatteryAdvice(battery);
    suggestions := suggestions + advice;
    if aggressive {
      suggestions := suggestions + [Bluetooth, WiFi, Backlight];
      totalSavingsMins := totalSavingsMins + 10 + 15 + 5;
    } else {
      assert suggestions + [] == suggestions;
    }
    suggestions := suggestions + [LowPowerMode, KeepUpdated];
    assert suggestions == Collected(battery, power, processCount, aggressive);
    assert totalSavingsMins == SavingsMinutes(power, processCount, aggressive);
    SavingsBounds(power, processCount, aggressive);
    report := OptimizationReport(SortByPriority(suggestions), Some(totalSavingsMins));
  }

  // ---------------------------------------------------------------- properties

  /** Brightness and the two general tips are always there, so the list is never empty. */
  lemma AlwaysSuggested(battery: BatteryInfo, power: Option<seq<App>>, processCount: nat, aggressive: bool)
    ensures var r := Report(battery, power, processCount, aggressive).suggestions;
            Brightness in r && LowPowerMode in r && KeepUpdated in r && |r| >= 3
  {
    var c := Collected(battery, power, processCount, aggressive);
    SortIsStable(c);
    var r := SortByPriority(c);
    assert Brightness in c && LowPowerMode in c && KeepUpdated in c;
    assert multiset(r)[Brightness] > 0 && multiset(r)[LowPowerMode] > 0 && multiset(r)[KeepUpdated] > 0;
    assert |multiset(r)| == |multiset(c)|;
    assert |multiset(c)| >= 3 by { assert |c| >= 3; }
  }

  /** The result is sorted by priority, a permutation of what was added, stable within a priority. */
  lemma ReportIsSortedCollection(battery: BatteryInfo, power: Option<seq<App>>, processCount: nat, aggressive: bool)
    ensures var c := Collected(battery, power, processCount, aggressive);
            var r := Report(battery, power, processCount, aggressive);
            SortedByPriority(r.suggestions) && multiset(r.suggestions) == multiset(c) &&
            r.HighImpact() == OfPriority(c, High) && r.MediumImpact() == OfPriority(c, Medium) &&
            r.LowImpact() == OfPriority(c, Low) &&
            r.HighImpact() + r.MediumImpact() + r.LowImpact() == r.suggestions
  {
    SortIsStable(Collected(battery, power, processCount, aggressive));
  }

  /** Sorting neither adds nor loses a suggestion. */
  lemma SortKeepsMembers(s: seq<Suggestion>, x: Suggestion)
    ensures x in SortByPriority(s) <==> x in s
  {
    OfPriorityMembers(s, High, x);
    OfPriorityMembers(s, Medium, x);
    OfPriorityMembers(s, Low, x);
  }

  /** A suggestion other than the busy-application ones is in the report exactly when it is added. */
  lemma InReport(battery: BatteryInfo, power: Option<seq<App>>, processCount: nat, aggressive: bool, x: Suggestion)
    requires !x.advice.CloseApp?
    ensures x in Report(battery, power, processCount, aggressive).suggestions <==>
            x == Brightness || (processCount > 100 && x == Processes(processCount)) || x in StateAdvice(battery) ||
            (aggressive && x in [Bluetooth, WiFi, Backlight]) || x == LowPowerMode || x == KeepUpdated
  {
    var apps := AppSuggestions(FirstThree(power));
    AppSuggestionsOfBusy(FirstThree(power));
    SortKeepsMembers(Collected(battery, power, processCount, aggressive), x);
    assert x !in apps;
  }

  /** "Unplug" exactly when above 80 % and charging; "critically low" exactly when below 20 % and not charging. */
  lemma StateAdviceIff(battery: BatteryInfo, power: Option<seq<App>>, processCount: nat, aggressive: bool)
    ensures var r := Report(battery, power, processCount, aggressive).suggestions;
            (Unplug in r <==> ShouldUnplug(battery)) && (CriticallyLow in r <==> IsCriticallyLow(battery))
  {
    InReport(battery, power, processCount, aggressive, Unplug);
    InReport(battery, power, processCount, aggressive, CriticallyLow);
  }

  /** The saving is the sum of the parts that fired: between 30 and 120 minutes. */
  lemma SavingsBounds(power: Option<seq<App>>, processCount: nat, aggressive: bool)
    ensures 30 <= SavingsMinutes(power, processCount, aggressive) <= 120
    ensures SavingsMinutes(power, processCount, true) == SavingsMinutes(power, processCount, false) + 30
  {
  }

  lemma {:induction false} SelectAround(head: seq<Suggestion>, extra: seq<Suggestion>, tail: seq<Suggestion>, p: Priority)
    ensures |OfPriority(head + extra + tail, p)| == |OfPriority(head + tail, p)| + |OfPriority(extra, p)|
  {
    OfPriorityAppend(head + extra, tail, p);
    OfPriorityAppend(head, extra, p);
    OfPriorityAppend(head, tail, p);
  }

  lemma ExtrasByPriority()
    ensures |OfPriority([Bluetooth, WiFi, Backlight], High)| == 0
    ensures |OfPriority([Bluetooth, WiFi, Backlight], Medium)| == 2
    ensures |OfPriority([Bluetooth, WiFi, Backlight], Low)| == 1
  {
    forall p: Priority
      ensures |OfPriority([Bluetooth, WiFi, Backlight], p)| ==
              (if p == Medium then 2 else 0) + (if p == Low then 1 else 0)
    {
      assert [] + [Bluetooth] == [Bluetooth];
      OfPrioritySnoc([], Bluetooth, p);
      assert [Bluetooth] + [WiFi] == [Bluetooth, WiFi];
      OfPrioritySnoc([Bluetooth], WiFi, p);
      assert [Bluetooth, WiFi] + [Backlight] == [Bluetooth, WiFi, Backlight];
      OfPrioritySnoc([Bluetooth, WiFi], Backlight, p);
    }
  }

  /** Aggressive mode adds exactly two Medium and one Low suggestion, so it always gives more. */
  lemma AggressiveAddsThree(battery: BatteryInfo, power: Option<seq<App>>, processCount: nat)
    ensures var normal := Report(battery, power, processCount, false);
            var aggressive := Report(battery, power, processCount, true);
            |aggressive.HighImpact()| == |normal.HighImpact()| &&
            |aggressive.MediumImpact()| == |normal.MediumImpact()| + 2 &&
            |aggressive.LowImpact()| == |normal.LowImpact()| + 1 &&
            |aggressive.suggestions| == |normal.suggestions| + 3
  {
    var head := AppSuggestions(FirstThree(power)) + [Brightness] +
      (if processCount > 100 then [Processes(processCount)] else []) + StateAdvice(battery);
    var tail: seq<Suggestion> := [LowPowerMode, KeepUpdated];
    var extra: seq<Suggestion> := [Bluetooth, WiFi, Backlight];
    var normal, aggressive := Collected(battery, power, processCount, false), Collected(battery, power, processCount, true);
    assert normal == head + tail by { assert head + [] == head; }
    assert aggressive == head + extra + tail;
    ExtrasByPriority();
    SelectAround(head, extra, tail, High);
    SelectAround(head, extra, tail, Medium);
    SelectAround(head, extra, tail, Low);
    SortKeepsPriority(normal, High);
    SortKeepsPriority(normal, Medium);
    SortKeepsPriority(normal, Low);
    SortKeepsPriority(aggressive, High);
    SortKeepsPriority(aggressive, Medium);
    SortKeepsPriority(aggressive, Low);
  }
}
