/**
 * The health report (src/health.rs): the capacity trend built from the
 * snapshot history, the report assembled from a reading, the comparison
 * with a new battery, and the battery's age in words.
 */
module Health {
  import opened Wrappers
  import opened MachineInts
  import opened Text
  import opened Battery
  import opened History

  const SECONDS_PER_DAY: int := 86400

  /** The trend covers the snapshots of the last 180 days. */
  const TREND_WINDOW_SECONDS: int := 180 * SECONDS_PER_DAY

  /** The UTC calendar day of a timestamp (days since 1970-01-01, rounding down). */
  function Day(timestamp: int): int {
    timestamp / SECONDS_PER_DAY
  }

  // ---------------------------------------------------------------- the daily table

  /** The capacities kept for one day. */
  datatype DayEntry = DayEntry(day: int, maxCap: U32, designCap: U32)

  /** Days strictly increasing: one entry per day, in date order (the `BTreeMap` order). */
  predicate StrictlyAscending(daily: seq<DayEntry>) {
    forall i, j :: 0 <= i < j < |daily| ==> daily[i].day < daily[j].day
  }

  /** The entry for `day`, if any. */
  function Lookup(daily: seq<DayEntry>, day: int): Option<DayEntry> {
    if daily == [] then None
    else if daily[0].day == day then Some(daily[0])
    else Lookup(daily[1..], day)
  }

  /** `entry(day).or_insert(e)`: `e` added unless its day already has an entry. */
  function OrInsert(daily: seq<DayEntry>, e: DayEntry): seq<DayEntry> {
    if daily == [] then [e]
    else if e.day < daily[0].day then [e] + daily
    else if e.day == daily[0].day then daily
    else [daily[0]] + OrInsert(daily[1..], e)
  }

  /** Inserting keeps one entry per day in date order. */
  lemma {:induction false} OrInsertAscending(daily: seq<DayEntry>, e: DayEntry)
    requires StrictlyAscending(daily)
    ensures StrictlyAscending(OrInsert(daily, e))
    ensures forall i :: 0 <= i < |OrInsert(daily, e)| ==>
              OrInsert(daily, e)[i].day == e.day || OrInsert(daily, e)[i] in daily
  {
    if daily != [] && e.day > daily[0].day {
      var rest := OrInsert(daily[1..], e);
      OrInsertAscending(daily[1..], e);
      var r := [daily[0]] + rest;
      forall i | 0 <= i < |rest| ensures daily[0].day < rest[i].day {
        if rest[i].day != e.day {
          var k :| 0 <= k < |daily| - 1 && daily[1..][k] == rest[i];
          assert daily[k + 1] == rest[i];
        }
      }
      forall i, j | 0 <= i < j < |r| ensures r[i].day < r[j].day {
        assert r[j] == rest[j - 1];
        if i > 0 {
          assert r[i] == rest[i - 1];
        }
      }
      forall i | 0 <= i < |r| ensures r[i].day == e.day || r[i] in daily {
        if i > 0 {
          assert r[i] == rest[i - 1];
          if rest[i - 1].day != e.day {
            assert rest[i - 1] in daily[1..];
          }
        }
      }
    }
  }

  /** An insertion answers for its own day only when the day was new, and leaves other days alone. */
  lemma {:induction false} LookupOrInsert(daily: seq<DayEntry>, e: DayEntry, day: int)
    requires StrictlyAscending(daily)
    ensures Lookup(OrInsert(daily, e), day) ==
              if day == e.day && Lookup(daily, day).None? then Some(e) else Lookup(daily, day)
  {
    if daily != [] && e.day > daily[0].day {
      LookupOrInsert(daily[1..], e, day);
      assert OrInsert(daily, e)[1..] == OrInsert(daily[1..], e);
    } else if daily != [] && e.day < daily[0].day {
      assert ([e] + daily)[1..] == daily;
      if day == e.day {
        LookupBelowFirst(daily, day);
      }
    }
  }

  /** A day before the first entry's has no entry. */
  lemma {:induction false} LookupBelowFirst(daily: seq<DayEntry>, day: int)
    requires StrictlyAscending(daily) && daily != [] && day < daily[0].day
    ensures Lookup(daily, day).None?
  {
    if |daily| > 1 {
      assert daily[0].day < daily[1].day;
      LookupBelowFirst(daily[1..], day);
    }
  }

  /** The entry a snapshot contributes: only one with a full-charge capacity does. */
  function EntryOf(s: BatterySnapshot): Option<DayEntry> {
    match s.maxCapacity
    case Some(maxCap) => Some(DayEntry(Day(s.timestamp), maxCap, s.designCapacity.GetOr(maxCap)))
    case None => None
  }

  /** The daily table after the first `k` snapshots. */
  function DailyUpTo(snapshots: seq<BatterySnapshot>, k: nat): seq<DayEntry>
    requires k <= |snapshots|
  {
    if k == 0 then []
    else
      var daily := DailyUpTo(snapshots, k - 1);
      match EntryOf(snapshots[k - 1])
      case Some(e) => OrInsert(daily, e)
      case None => daily
  }

  /** The reference: the entry of the first of the first `k` snapshots that has a capacity on `day`. */
  function FirstOfDay(snapshots: seq<BatterySnapshot>, k: nat, day: int): Option<DayEntry>
    requires k <= |snapshots|
  {
    if k == 0 then None
    else
      var earlier := FirstOfDay(snapshots, k - 1, day);
      var e := EntryOf(snapshots[k - 1]);
      if earlier.None? && e.Some? && e.value.day == day then e else earlier
  }

  /** The table is in date order, one entry per day. */
  lemma {:induction false} DailyAscending(snapshots: seq<BatterySnapshot>, k: nat)
    requires k <= |snapshots|
    ensures StrictlyAscending(DailyUpTo(snapshots, k))
  {
    if k > 0 {
      DailyAscending(snapshots, k - 1);
      var e := EntryOf(snapshots[k - 1]);
      if e.Some? {
        OrInsertAscending(DailyUpTo(snapshots, k - 1), e.value);
      }
    }
  }

  /** Each day's entry is the one from the first snapshot of that day with a capacity; days without one have none. */
  lemma {:induction false} DailyIsFirstOfDay(snapshots: seq<BatterySnapshot>, k: nat, day: int)
    requires k <= |snapshots|
    ensures Lookup(DailyUpTo(snapshots, k), day) == FirstOfDay(snapshots, k, day)
  {
    if k > 0 {
      DailyIsFirstOfDay(snapshots, k - 1, day);
      DailyAscending(snapshots, k - 1);
      var e := EntryOf(snapshots[k - 1]);
      if e.Some? {
        LookupOrInsert(DailyUpTo(snapshots, k - 1), e.value, day);
      }
    }
  }

  /** The first snapshot of a day with a capacity supplies that day's entry. */
  lemma {:induction false} FirstOfDayIsFirst(snapshots: seq<BatterySnapshot>, k: nat, day: int, i: nat)
    requires i < k <= |snapshots|
    requires EntryOf(snapshots[i]).Some? && EntryOf(snapshots[i]).value.day == day
    requires forall j :: 0 <= j < i ==> EntryOf(snapshots[j]).None? || EntryOf(snapshots[j]).value.day != day
    ensures FirstOfDay(snapshots, k, day) == EntryOf(snapshots[i])
  {
    if k - 1 > i {
      FirstOfDayIsFirst(snapshots, k - 1, day, i);
    } else {
      FirstOfDayNone(snapshots, i, day);
    }
  }

  lemma {:induction false} FirstOfDayNone(snapshots: seq<BatterySnapshot>, k: nat, day: int)
    requires k <= |snapshots|
    requires forall j :: 0 <= j < k ==> EntryOf(snapshots[j]).None? || EntryOf(snapshots[j]).value.day != day
    ensures FirstOfDay(snapshots, k, day).None?
  {
    if k > 0 {
      FirstOfDayNone(snapshots, k - 1, day);
    }
  }

  // ---------------------------------------------------------------- the trend

  datatype CapacityDataPoint = CapacityDataPoint(date: int, maxCapacityMah: U32, healthPercent: real)

  /** A day's point: midnight UTC, the capacity, and the health against the design (100 without one). */
  function PointOf(e: DayEntry): CapacityDataPoint {
    CapacityDataPoint(e.day * SECONDS_PER_DAY, e.maxCap,
                      if e.designCap > 0 then e.maxCap as real / e.designCap as real * 100.0 else 100.0)
  }

  /** The capacity trend of a snapshot range: one point per day, in date order. */
  function TrendOf(snapshots: seq<BatterySnapshot>): seq<CapacityDataPoint> {
    var daily := DailyUpTo(snapshots, |snapshots|);
    seq(|daily|, i requires 0 <= i < |daily| => PointOf(daily[i]))
  }

  /**
   * `build_capacity_trend` over the snapshots of its range: a pass that
   * fills the daily table, then one point per entry.
   */
  method BuildCapacityTrend(snapshots: seq<BatterySnapshot>) returns (trend: seq<CapacityDataPoint>)
    ensures trend == TrendOf(snapshots)
  {
    if |snapshots| == 0 {
      return [];
    }
    var daily: seq<DayEntry> := [];
    for k := 0 to |snapshots|
      invariant daily == DailyUpTo(snapshots, k)
    {
      var snap := snapshots[k];
      if snap.maxCapacity.Some? {
        var maxCap := snap.maxCapacity.value;
        var design := snap.designCapacity.GetOr(maxCap);
        daily := OrInsert(daily, DayEntry(Day(snap.timestamp), maxCap, design));
      }
    }
    trend := seq(|daily|, i requires 0 <= i < |daily| => PointOf(daily[i]));
  }

  /** The trend of the store: its last 180 days, read through the range query. */
  method StoreCapacityTrend(history: HistoryManager, now: int) returns (trend: seq<CapacityDataPoint>)
    ensures trend == TrendOf(RangeOf(history.rows, now - TREND_WINDOW_SECONDS))
  {
    var snapshots := history.GetSnapshotsRange(TREND_WINDOW_SECONDS, now);
    trend := BuildCapacityTrend(snapshots);
  }

  /** Trend dates strictly increase: at most one point per day. */
  lemma TrendAscending(snapshots: seq<BatterySnapshot>)
    ensures var trend := TrendOf(snapshots);
            forall i, j :: 0 <= i < j < |trend| ==> trend[i].date + SECONDS_PER_DAY <= trend[j].date
  {
    DailyAscending(snapshots, |snapshots|);
    var daily := DailyUpTo(snapshots, |snapshots|);
    forall i, j | 0 <= i < j < |daily| ensures daily[i].day * SECONDS_PER_DAY + SECONDS_PER_DAY <= daily[j].day * SECONDS_PER_DAY {
      MulMonotone(daily[i].day + 1, daily[j].day);
    }
  }

  lemma MulMonotone(a: int, b: int)
    requires a <= b
    ensures a * SECONDS_PER_DAY <= b * SECONDS_PER_DAY
  {
  }

  /** A point per day that has a capacity reading, taken from the first such snapshot of that day. */
  lemma TrendPointOfDay(snapshots: seq<BatterySnapshot>, i: nat)
    requires i < |snapshots| && snapshots[i].maxCapacity.Some?
    requires forall j :: 0 <= j < i ==> snapshots[j].maxCapacity.None? || Day(snapshots[j].timestamp) != Day(snapshots[i].timestamp)
    ensures Lookup(DailyUpTo(snapshots, |snapshots|), Day(snapshots[i].timestamp)) == EntryOf(snapshots[i])
  {
    DailyIsFirstOfDay(snapshots, |snapshots|, Day(snapshots[i].timestamp));
    FirstOfDayIsFirst(snapshots, |snapshots|, Day(snapshots[i].timestamp), i);
  }

  /** A point whose design capacity was missing reports exactly 100 % health. */
  lemma HealthWithoutDesign(s: BatterySnapshot)
    requires s.maxCapacity.Some? && s.designCapacity.None?
    ensures PointOf(EntryOf(s).value).healthPercent == 100.0
  {
    var m := s.maxCapacity.value as real;
    if m > 0.0 {
      assert m / m == 1.0;
    }
  }

  /** No snapshots, no trend. */
  lemma EmptyTrend()
    ensures TrendOf([]) == []
  {
  }

  // ---------------------------------------------------------------- the report

  datatype HealthReport = HealthReport(
    designCapacityMah: Option<U32>,
    maxCapacityMah: Option<U32>,
    capacityLossMah: Option<int>,
    capacityLossPercent: Option<real>,
    cycleCount: Option<U32>,
    estimatedRemainingCycles: Option<U32>,
    condition: string,
    healthPercent: Option<real>,
    manufactureDate: Option<string>,
    ageDescription: Option<string>,
    capacityTrend: seq<CapacityDataPoint>)

  /** The capacity lost, as a percentage of the design capacity. */
  function CapacityLossPercent(info: BatteryInfo): (r: Option<real>)
    ensures r.Some? <==> info.HealthPercent().Some?
    ensures r.Some? ==> r.value == 100.0 - info.HealthPercent().value
  {
    match (info.maxCapacityMah, info.designCapacityMah)
    case (Some(max), Some(design)) =>
      if design > 0 then
        var ratio := max as real / design as real;
        assert (1.0 - ratio) * 100.0 == 100.0 - ratio * 100.0;
        Some((1.0 - ratio) * 100.0)
      else None
    case _ => None
  }

  /**
   * `generate_health_report`. `ageDays` is the whole number of days from the
   * manufacture date to now, when that date could be read; `trendSource` is
   * the outcome of the 180-day range query, `None` without a store.
   */
  function GenerateHealthReport(info: BatteryInfo, ageDays: Option<int>,
                                trendSource: Option<Result<seq<BatterySnapshot>, string>>): (report: HealthReport)
    ensures report.designCapacityMah == info.designCapacityMah && report.maxCapacityMah == info.maxCapacityMah
    ensures report.cycleCount == info.cycleCount && report.manufactureDate == info.manufactureDate
    ensures report.capacityLossMah == info.CapacityLossMah()
    ensures report.estimatedRemainingCycles == info.EstimatedRemainingCycles()
    ensures report.healthPercent == info.HealthPercent()
    ensures report.condition == info.condition.Name()
    ensures report.capacityLossPercent == CapacityLossPercent(info)
    ensures trendSource.None? || trendSource.value.Err? ==> report.capacityTrend == []
    ensures trendSource.Some? && trendSource.value.Ok? ==> report.capacityTrend == TrendOf(trendSource.value.value)
    ensures info.manufactureDate.None? || ageDays.None? ==> report.ageDescription.None?
    ensures info.manufactureDate.Some? && ageDays.Some? ==> report.ageDescription == AgeDescription(ageDays.value)
  {
    var age := if info.manufactureDate.Some? && ageDays.Some? then AgeDescription(ageDays.value) else None;
    var trend := match trendSource
                 case Some(Ok(snapshots)) => TrendOf(snapshots)
                 case _ => [];
    HealthReport(
      info.designCapacityMah, info.maxCapacityMah, info.CapacityLossMah(), CapacityLossPercent(info),
      info.cycleCount, info.EstimatedRemainingCycles(), info.condition.Name(), info.HealthPercent(),
      info.manufactureDate, age, trend)
  }

  /** The unit-test report: 4500, 4215, 285 lost, 47 cycles, 953 left, "Normal". */
  lemma SampleReport()
    ensures var report := GenerateHealthReport(SampleInfo(), None, None);
            report.designCapacityMah == Some(4500) && report.maxCapacityMah == Some(4215) &&
            report.capacityLossMah == Some(285) && report.cycleCount == Some(47) &&
            report.estimatedRemainingCycles == Some(953) && report.condition == "Normal"
  {
    SampleDerivedValues();
  }

  // ---------------------------------------------------------------- comparison with a new battery

  datatype Comparison = Comparison(metric: string, newValue: string, currentValue: string)

  /** `format!("{:.1}", x)` for a non-negative value, rounding half up. */
  function OneDecimal(x: real): string
    requires x >= 0.0
  {
    var tenths := Tenths(x);
    NatToString(tenths / 10) + "." + [DigitChar(tenths % 10)]
  }

  /** `x` in tenths, rounded to the nearest. */
  function Tenths(x: real): (t: nat)
    requires x >= 0.0
    ensures x * 10.0 - 0.5 < t as real <= x * 10.0 + 0.5
  {
    (x * 10.0 + 0.5).Floor
  }

  /** The printed value is within half a tenth of the value printed. */
  lemma OneDecimalIsClose(x: real)
    requires x >= 0.0
    ensures x - 0.05 < Tenths(x) as real / 10.0 <= x + 0.05
    ensures OneDecimal(x) == NatToString(Tenths(x) / 10) + "." + [DigitChar(Tenths(x) % 10)]
  {
  }

  /** The metrics in order. */
  function Metrics(rows: seq<Comparison>): seq<string> {
    seq(|rows|, i requires 0 <= i < |rows| => rows[i].metric)
  }

  /**
   * `compare_with_new`: "Max Capacity" when both capacities are known,
   * "Health" when it is known, "Cycle Count" when known, and "Condition"
   * always, last.
   */
  method CompareWithNew(info: BatteryInfo) returns (comparisons: seq<Comparison>)
    ensures Metrics(comparisons) ==
            (if info.maxCapacityMah.Some? && info.designCapacityMah.Some? then ["Max Capacity"] else []) +
            (if info.HealthPercent().Some? then ["Health"] else []) +
            (if info.cycleCount.Some? then ["Cycle Count"] else []) +
            ["Condition"]
    ensures comparisons[|comparisons| - 1] == Comparison("Condition", "Normal", info.condition.Name())
    ensures info.maxCapacityMah.Some? && info.designCapacityMah.Some? ==>
              comparisons[0] == Comparison("Max Capacity", NatToString(info.designCapacityMah.value) + " mAh",
                                           NatToString(info.maxCapacityMah.value) + " mAh")
  {
    comparisons := [];
    ghost var metrics: seq<string> := [];
    if info.maxCapacityMah.Some? && info.designCapacityMah.Some? {
      var max, design := info.maxCapacityMah.value, info.designCapacityMah.value;
      comparisons := comparisons + [Comparison("Max Capacity", NatToString(design) + " mAh", NatToString(max) + " mAh")];
      metrics := metrics + ["Max Capacity"];
    }
    assert Metrics(comparisons) == metrics;
    var health := info.HealthPercent();
    if health.Some? {
      comparisons := comparisons + [Comparison("Health", "100.0%", OneDecimal(health.value) + "%")];
      metrics := metrics + ["Health"];
    }
    assert Metrics(comparisons) == metrics;
    if info.cycleCount.Some? {
      comparisons := comparisons + [Comparison("Cycle Count", "0", NatToString(info.cycleCount.value))];
      metrics := metrics + ["Cycle Count"];
    }
    assert Metrics(comparisons) == metrics;
    comparisons := comparisons + [Comparison("Condition", "Normal", info.condition.Name())];
    metrics := metrics + ["Condition"];
    assert Metrics(comparisons) == metrics;
  }

  // ---------------------------------------------------------------- age

  /** Whole years of 365 days, then whole months of 30 of the days left. */
  function AgeParts(days: nat): (parts: (nat, nat))
    ensures parts.1 <= 12
  {
    (days / 365, (days % 365) / 30)
  }

  function PluralIf(many: bool): string {
    if many then "s" else ""
  }

  /**
   * The day arithmetic of `calculate_age_description`: none for a date in
   * the future; else years (and months), months, or days.
   */
  function AgeDescription(days: int): (r: Option<string>)
    ensures r.None? <==> days < 0
    ensures 0 <= days < 30 ==> r == Some(NatToString(days) + " day" + PluralIf(days != 1))
    ensures 30 <= days < 365 ==> r == Some(NatToString(AgeParts(days).1) + " month" + PluralIf(AgeParts(days).1 > 1))
    ensures days >= 365 ==> NatToString(days / 365) + " year" + PluralIf(days / 365 > 1) <= r.value
  {
    if days < 0 then None
    else
      var (years, months) := AgeParts(days);
      Some(
        if years > 0 then
          if months > 0 then
            NatToString(years) + " year" + PluralIf(years > 1) + ", " + NatToString(months) + " month" + PluralIf(months > 1)
          else NatToString(years) + " year" + PluralIf(years > 1)
        else if months > 0 then NatToString(months) + " month" + PluralIf(months > 1)
        else NatToString(days) + " day" + PluralIf(days != 1))
  }

  /**
   * The years and months shown account for the days up to less than a month,
   * except that the last five days of a year show as a twelfth month.
   */
  lemma AgePartsApproximate(days: nat)
    ensures var (years, months) := AgeParts(days);
            365 * years + 30 * months <= days &&
            days < 365 * years + 30 * months + (if months == 12 then 5 else 30)
  {
  }

  /** 360 to 364 days read as "12 months". */
  lemma TwelveMonthsQuirk(days: nat)
    requires 360 <= days < 365
    ensures AgeDescription(days) == Some("12 months")
  {
    assert AgeParts(days) == (0, 12);
    assert NatToString(12) == "12";
    assert "12" + " month" + "s" == "12 months";
  }

  /** A single day is "1 day", without a plural. */
  lemma OneDayAge()
    ensures AgeDescription(1) == Some("1 day")
  {
    assert AgeParts(1) == (0, 0);
    assert NatToString(1) == "1";
    assert "1" + " day" + "" == "1 day";
  }

  /** 400 days are a year and a month, both singular. */
  lemma YearAndMonthAge()
    ensures AgeDescription(400) == Some("1 year, 1 month")
  {
    assert AgeParts(400) == (1, 1);
    assert NatToString(1) == "1";
    assert "1" + " year" + "" + ", " + "1" + " month" + "" == "1 year, 1 month";
  }
}
