/**
 * The snapshot history (src/history.rs): a table of rows that readings are
 * appended to, queried by time range, pruned, and summarised; plus the
 * duration syntax of the command line. The table lives in memory here and
 * the current time is a parameter.
 */
module History {
  import opened Wrappers
  import opened MachineInts
  import opened Text
  import opened Battery

  /** A reading as read back from the table. Timestamps are Unix seconds. */
  datatype BatterySnapshot = BatterySnapshot(
    timestamp: int,
    level: U8,
    isCharging: bool,
    powerDraw: Option<real>,
    cycleCount: Option<U32>,
    maxCapacity: Option<U32>,
    designCapacity: Option<U32>)

  /** A row of the `snapshots` table; its integer columns hold signed 32-bit values. */
  datatype StoredRow = StoredRow(
    timestamp: int,
    level: I32,
    isCharging: bool,
    powerDraw: Option<real>,
    cycleCount: Option<I32>,
    maxCapacity: Option<I32>,
    designCapacity: Option<I32>)

  /** A `u32` stored in a signed column (`c as i32`). */
  function ToColumn(v: Option<U32>): Option<I32> {
    match v
    case Some(x) => Some(U32AsI32(x))
    case None => None
  }

  /** A signed column read back as a `u32` (`c as u32`). */
  function FromColumn(v: Option<I32>): Option<U32> {
    match v
    case Some(x) => Some(I32AsU32(x))
    case None => None
  }

  /** The row `record_snapshot` inserts for `info` at time `now`. */
  function RowOf(info: BatteryInfo, now: int): StoredRow {
    StoredRow(now, info.level, info.state == Charging || info.state == Full, info.powerDrawWatts,
              ToColumn(info.cycleCount), ToColumn(info.maxCapacityMah), ToColumn(info.designCapacityMah))
  }

  /** A row as `get_snapshots_range` reads it: the level clamped to [0, 100]. */
  function ReadRow(row: StoredRow): (s: BatterySnapshot)
    ensures s.level <= 100
    ensures 0 <= row.level <= 100 ==> s.level == row.level
    ensures row.level < 0 ==> s.level == 0
    ensures row.level > 100 ==> s.level == 100
  {
    var level := if row.level < 0 then 0 else if row.level > 100 then 100 else row.level;
    BatterySnapshot(row.timestamp, level, row.isCharging, row.powerDraw,
                    FromColumn(row.cycleCount), FromColumn(row.maxCapacity), FromColumn(row.designCapacity))
  }

  /**
   * A recorded reading reads back with the store's timestamp, "charging"
   * meaning Charging or Full, the level capped at 100, and every other field
   * as it was.
   */
  lemma RecordReadRoundTrip(info: BatteryInfo, now: int)
    ensures ReadRow(RowOf(info, now)) ==
            BatterySnapshot(now, if info.level <= 100 then info.level else 100,
                            info.state == Charging || info.state == Full, info.powerDrawWatts,
                            info.cycleCount, info.maxCapacityMah, info.designCapacityMah)
  {
    ColumnRoundTrip(info.cycleCount);
    ColumnRoundTrip(info.maxCapacityMah);
    ColumnRoundTrip(info.designCapacityMah);
  }

  lemma ColumnRoundTrip(v: Option<U32>)
    ensures FromColumn(ToColumn(v)) == v
  {
    if v.Some? {
      U32RoundTrip(v.value);
    }
  }

  // ---------------------------------------------------------------- range queries

  /** The rows at or after `since` (`WHERE timestamp >= since`), in table order. */
  function Since(rows: seq<StoredRow>, since: int): (r: seq<StoredRow>)
    ensures forall x :: x in r <==> x in rows && x.timestamp >= since
  {
    if rows == [] then []
    else if rows[0].timestamp >= since then [rows[0]] + Since(rows[1..], since)
    else Since(rows[1..], since)
  }

  /** The rows before `cutoff` (`WHERE timestamp < cutoff`), in table order. */
  function Before(rows: seq<StoredRow>, cutoff: int): (r: seq<StoredRow>)
    ensures forall x :: x in r <==> x in rows && x.timestamp < cutoff
  {
    if rows == [] then []
    else if rows[0].timestamp < cutoff then [rows[0]] + Before(rows[1..], cutoff)
    else Before(rows[1..], cutoff)
  }

  /** Every row is on exactly one side of a cutoff. */
  lemma {:induction false} SinceBeforePartition(rows: seq<StoredRow>, cutoff: int)
    ensures multiset(Since(rows, cutoff)) + multiset(Before(rows, cutoff)) == multiset(rows)
    ensures |Since(rows, cutoff)| + |Before(rows, cutoff)| == |rows|
  {
    if rows != [] {
      SinceBeforePartition(rows[1..], cutoff);
      assert rows == [rows[0]] + rows[1..];
    }
  }

  /** Keeping the rows since a cutoff, then since a later one, keeps the rows since the later one. */
  lemma {:induction false} SinceSince(rows: seq<StoredRow>, earlier: int, later: int)
    requires earlier <= later
    ensures Since(Since(rows, earlier), later) == Since(rows, later)
  {
    if rows != [] {
      SinceSince(rows[1..], earlier, later);
    }
  }

  predicate SortedByTime(rows: seq<StoredRow>) {
    forall i, j :: 0 <= i < j < |rows| ==> rows[i].timestamp <= rows[j].timestamp
  }

  /** `row` placed after every row whose timestamp is not later than its own. */
  function InsertByTime(sorted: seq<StoredRow>, row: StoredRow): (r: seq<StoredRow>)
    ensures multiset(r) == multiset(sorted) + multiset{row}
  {
    if sorted == [] || row.timestamp < sorted[0].timestamp then
      [row] + sorted
    else
      assert sorted == [sorted[0]] + sorted[1..];
      [sorted[0]] + InsertByTime(sorted[1..], row)
  }

  /** Inserting into a sorted sequence keeps it sorted. */
  lemma {:induction false} InsertKeepsSorted(sorted: seq<StoredRow>, row: StoredRow)
    requires SortedByTime(sorted)
    ensures SortedByTime(InsertByTime(sorted, row))
  {
    if sorted != [] && row.timestamp >= sorted[0].timestamp {
      var tail := sorted[1..];
      var rest := InsertByTime(tail, row);
      InsertKeepsSorted(tail, row);
      InsertAbove(tail, row, sorted[0].timestamp);
      var r := [sorted[0]] + rest;
      forall i, j | 0 <= i < j < |r| ensures r[i].timestamp <= r[j].timestamp {
        assert r[j] == rest[j - 1];
        if i > 0 {
          assert r[i] == rest[i - 1];
        }
      }
    }
  }

  /** A lower bound on the timestamps survives insertion. */
  lemma {:induction false} InsertAbove(sorted: seq<StoredRow>, row: StoredRow, bound: int)
    requires forall i :: 0 <= i < |sorted| ==> bound <= sorted[i].timestamp
    requires bound <= row.timestamp
    ensures forall i :: 0 <= i < |InsertByTime(sorted, row)| ==> bound <= InsertByTime(sorted, row)[i].timestamp
  {
    if sorted != [] && row.timestamp >= sorted[0].timestamp {
      InsertAbove(sorted[1..], row, bound);
    }
  }

  /**
   * `ORDER BY timestamp ASC`: ascending timestamps, the same rows. Rows
   * with equal timestamps keep their table order.
   */
  function SortByTime(rows: seq<StoredRow>): (r: seq<StoredRow>)
    ensures multiset(r) == multiset(rows)
    ensures SortedByTime(r)
  {
    if rows == [] then []
    else
      var init := SortByTime(rows[..|rows| - 1]);
      InsertKeepsSorted(init, rows[|rows| - 1]);
      assert rows == rows[..|rows| - 1] + [rows[|rows| - 1]];
      InsertByTime(init, rows[|rows| - 1])
  }

  /** Each row read back in its place, as `query_map` does. */
  function ReadRows(rows: seq<StoredRow>): (snapshots: seq<BatterySnapshot>)
    ensures |snapshots| == |rows|
    ensures forall i :: 0 <= i < |rows| ==> snapshots[i] == ReadRow(rows[i])
  {
    seq(|rows|, i requires 0 <= i < |rows| => ReadRow(rows[i]))
  }

  /** The result of `get_snapshots_range`: the rows since `since`, ascending, read back. */
  function RangeOf(rows: seq<StoredRow>, since: int): seq<BatterySnapshot> {
    ReadRows(SortByTime(Since(rows, since)))
  }

  /**
   * A range holds exactly the rows at or after its start (with their
   * multiplicities), in ascending time, each with a level of at most 100.
   */
  lemma RangeIsSelectedAndOrdered(rows: seq<StoredRow>, since: int)
    ensures var picked := SortByTime(Since(rows, since));
            multiset(picked) == multiset(Since(rows, since)) &&
            (forall x :: x in picked <==> x in rows && x.timestamp >= since) &&
            RangeOf(rows, since) == ReadRows(picked)
    ensures var snapshots := RangeOf(rows, since);
            (forall i, j :: 0 <= i < j < |snapshots| ==> snapshots[i].timestamp <= snapshots[j].timestamp) &&
            (forall i :: 0 <= i < |snapshots| ==> since <= snapshots[i].timestamp && snapshots[i].level <= 100)
  {
    var picked := SortByTime(Since(rows, since));
    forall x ensures x in picked <==> x in rows && x.timestamp >= since {
      assert x in picked <==> x in multiset(picked);
      assert x in Since(rows, since) <==> x in multiset(Since(rows, since));
    }
    forall i | 0 <= i < |picked| ensures since <= picked[i].timestamp {
      assert picked[i] in picked;
    }
    ReadRowsOrdered(picked, since);
  }

  lemma ReadRowsOrdered(picked: seq<StoredRow>, since: int)
    requires SortedByTime(picked)
    requires forall i :: 0 <= i < |picked| ==> since <= picked[i].timestamp
    ensures var snapshots := ReadRows(picked);
            (forall i, j :: 0 <= i < j < |snapshots| ==> snapshots[i].timestamp <= snapshots[j].timestamp) &&
            (forall i :: 0 <= i < |snapshots| ==> since <= snapshots[i].timestamp && snapshots[i].level <= 100)
  {
  }

  /** Pruning with a retention period does not change a range that lies within it. */
  lemma PruneKeepsRecentRanges(rows: seq<StoredRow>, now: int, keep: int, d: int)
    requires d <= keep
    ensures RangeOf(Since(rows, now - keep), now - d) == RangeOf(rows, now - d)
  {
    SinceSince(rows, now - keep, now - d);
    assert Since(Since(rows, now - keep), now - d) == Since(rows, now - d);
  }

  // ---------------------------------------------------------------- the store

  /** The `snapshots` table behind a connection. */
  class HistoryManager {
    var rows: seq<StoredRow>

    /** `open_at`: the schema is created only if missing, so existing rows are kept. */
    constructor OpenAt(existing: seq<StoredRow>)
      ensures rows == existing
    {
      rows := existing;
    }

    /** `record_snapshot`: one row appended, stamped with `now`. */
    method RecordSnapshot(info: BatteryInfo, now: int)
      modifies this
      ensures rows == old(rows) + [RowOf(info, now)]
    {
      rows := rows + [RowOf(info, now)];
    }

    /** `snapshot_count`: `SELECT COUNT(*)`. */
    method SnapshotCount() returns (count: nat)
      ensures count == |rows|
    {
      count := |rows|;
    }

    /** `get_snapshots_range`: the rows of the last `duration` seconds before `now`. */
    method GetSnapshotsRange(duration: int, now: int) returns (snapshots: seq<BatterySnapshot>)
      ensures snapshots == RangeOf(rows, now - duration)
    {
      snapshots := RangeOf(rows, now - duration);
    }

    /** `prune`: the rows older than `keepDuration` deleted, and how many they were. */
    method Prune(keepDuration: int, now: int) returns (deleted: nat)
      modifies this
      ensures rows == Since(old(rows), now - keepDuration)
      ensures deleted == |Before(old(rows), now - keepDuration)|
      ensures |rows| + deleted == |old(rows)|
      ensures forall x :: x in old(rows) && x.timestamp >= now - keepDuration ==> x in rows
    {
      var cutoff := now - keepDuration;
      SinceBeforePartition(rows, cutoff);
      deleted := |Before(rows, cutoff)|;
      rows := Since(rows, cutoff);
    }

    /** `get_summary`: the summary of the last `duration` seconds before `now`. */
    method GetSummary(duration: int, now: int) returns (summary: HistorySummary)
      ensures summary == SummaryOf(RangeOf(rows, now - duration), FormatDuration(duration))
    {
      var snapshots := GetSnapshotsRange(duration, now);
      summary := Summarize(snapshots, FormatDuration(duration));
    }
  }

  /** Two readings recorded within an hour are both in the last hour's range, level kept. */
  lemma RecordTwiceRange(info: BatteryInfo, first: int, second: int)
    requires info.level <= 100 && first <= second && second - first <= 3600
    ensures var snapshots := RangeOf([RowOf(info, first), RowOf(info, second)], second - 3600);
            |snapshots| == 2 && snapshots[0].level == info.level && snapshots[1].level == info.level
  {
    var r1, r2 := RowOf(info, first), RowOf(info, second);
    TwoRowsInRange(r1, r2, second - 3600);
    var snapshots := ReadRows([r1, r2]);
    assert snapshots[0] == ReadRow(r1) && snapshots[1] == ReadRow(r2);
  }

  lemma TwoRowsInRange(r1: StoredRow, r2: StoredRow, since: int)
    requires since <= r1.timestamp <= r2.timestamp
    ensures SortByTime(Since([r1, r2], since)) == [r1, r2]
  {
    assert Since([r1, r2], since) == [r1, r2] by {
      assert [r2][1..] == [];
      assert Since([r2], since) == [r2] + Since([], since);
      assert [r1, r2][1..] == [r2];
      assert Since([r1, r2], since) == [r1] + Since([r2], since);
    }
    assert [r1, r2][..1] == [r1];
    assert [r1][..0] == [];
    assert SortByTime([r1]) == InsertByTime([], r1) == [r1];
    assert InsertByTime([r1], r2) == [r1] + InsertByTime([], r2);
  }

  /** The recorded-twice scenario on a fresh store: a count of two, and both rows in the last hour. */
  method RecordTwiceScenario(info: BatteryInfo, first: int, second: int) returns (count: nat, snapshots: seq<BatterySnapshot>)
    requires info.level <= 100 && first <= second && second - first <= 3600
    ensures count == 2 && |snapshots| == 2
    ensures snapshots[0].level == info.level && snapshots[1].level == info.level
  {
    var history := new HistoryManager.OpenAt([]);
    history.RecordSnapshot(info, first);
    history.RecordSnapshot(info, second);
    count := history.SnapshotCount();
    snapshots := history.GetSnapshotsRange(3600, second);
    RecordTwiceRange(info, first, second);
  }

  // ---------------------------------------------------------------- the summary

  datatype HistorySummary = HistorySummary(
    periodDescription: string,
    snapshotsCount: nat,
    avgLevel: real,
    minLevel: nat,
    maxLevel: nat,
    chargingPeriods: nat,
    totalChargingMinutes: int,
    totalDischargingMinutes: int,
    avgDischargeRateWatts: Option<real>,
    estimatedCycles: real)

  function LevelSum(s: seq<BatterySnapshot>): nat {
    if s == [] then 0 else LevelSum(s[..|s| - 1]) + s[|s| - 1].level
  }

  /** The lowest level of a non-empty sequence. */
  function MinLevel(s: seq<BatterySnapshot>): (m: nat)
    requires s != []
    ensures forall i :: 0 <= i < |s| ==> m <= s[i].level
    ensures exists i :: 0 <= i < |s| && m == s[i].level
  {
    if |s| == 1 then s[0].level
    else
      var m := MinLevel(s[..|s| - 1]);
      assert forall i :: 0 <= i < |s| - 1 ==> s[..|s| - 1][i] == s[i];
      if s[|s| - 1].level < m then s[|s| - 1].level else m
  }

  /** The highest level of a non-empty sequence. */
  function MaxLevel(s: seq<BatterySnapshot>): (m: nat)
    requires s != []
    ensures forall i :: 0 <= i < |s| ==> s[i].level <= m
    ensures exists i :: 0 <= i < |s| && m == s[i].level
  {
    if |s| == 1 then s[0].level
    else
      var m := MaxLevel(s[..|s| - 1]);
      assert forall i :: 0 <= i < |s| - 1 ==> s[..|s| - 1][i] == s[i];
      if s[|s| - 1].level > m then s[|s| - 1].level else m
  }

  /** Charging periods among the first `k` rows: rows that charge after a row that does not (or first). */
  function PeriodsUpTo(s: seq<BatterySnapshot>, k: nat): nat
    requires k <= |s|
  {
    if k == 0 then 0
    else PeriodsUpTo(s, k - 1) + (if s[k - 1].isCharging && (k == 1 || !s[k - 2].isCharging) then 1 else 0)
  }

  /** The whole minutes from row `j` to row `j + 1` (chrono's truncating `num_minutes`). */
  function Gap(s: seq<BatterySnapshot>, j: nat): int
    requires j + 1 < |s|
  {
    TruncDiv(s[j + 1].timestamp - s[j].timestamp, 60)
  }

  /** The gaps after rows `j < k` that start at a charging row. */
  function ChargingMinutesUpTo(s: seq<BatterySnapshot>, k: nat): int
    requires k <= |s|
  {
    if k == 0 then 0
    else ChargingMinutesUpTo(s, k - 1) + (if k < |s| && s[k - 1].isCharging then Gap(s, k - 1) else 0)
  }

  /** The gaps after rows `j < k` that start at a row that is not charging. */
  function DischargingMinutesUpTo(s: seq<BatterySnapshot>, k: nat): int
    requires k <= |s|
  {
    if k == 0 then 0
    else DischargingMinutesUpTo(s, k - 1) + (if k < |s| && !s[k - 1].isCharging then Gap(s, k - 1) else 0)
  }

  /** All gaps after rows `j < k`. */
  function GapSumUpTo(s: seq<BatterySnapshot>, k: nat): int
    requires k <= |s|
  {
    if k == 0 then 0 else GapSumUpTo(s, k - 1) + (if k < |s| then Gap(s, k - 1) else 0)
  }

  function Abs(x: int): nat {
    if x < 0 then -x else x
  }

  /** Level changes between rows `i - 1` and `i`, `i < k`, counted only when neither row charges. */
  function LevelChangeUpTo(s: seq<BatterySnapshot>, k: nat): real
    requires k <= |s|
  {
    if k <= 1 then 0.0
    else
      LevelChangeUpTo(s, k - 1) +
      (if !s[k - 1].isCharging && !s[k - 2].isCharging then Abs(s[k - 1].level - s[k - 2].level) as real else 0.0)
  }

  /** The power readings of the rows that are not charging, in order. */
  function DischargePowers(s: seq<BatterySnapshot>): seq<real> {
    if s == [] then []
    else
      DischargePowers(s[..|s| - 1]) +
      (if !s[|s| - 1].isCharging && s[|s| - 1].powerDraw.Some? then [s[|s| - 1].powerDraw.value] else [])
  }

  function RealSum(xs: seq<real>): real {
    if xs == [] then 0.0 else RealSum(xs[..|xs| - 1]) + xs[|xs| - 1]
  }

  /** The summary `get_summary` reports for the range `s`. */
  function SummaryOf(s: seq<BatterySnapshot>, description: string): HistorySummary {
    if s == [] then HistorySummary(description, 0, 0.0, 0, 0, 0, 0, 0, None, 0.0)
    else
      var powers := DischargePowers(s);
      HistorySummary(
        description, |s|, LevelSum(s) as real / |s| as real, MinLevel(s), MaxLevel(s),
        PeriodsUpTo(s, |s|), ChargingMinutesUpTo(s, |s|), DischargingMinutesUpTo(s, |s|),
        if powers != [] then Some(RealSum(powers) / |powers| as real) else None,
        LevelChangeUpTo(s, |s|) / 100.0)
  }

  /** The body of `get_summary`: one pass for periods and minutes, one for level changes. */
  method Summarize(snapshots: seq<BatterySnapshot>, description: string) returns (summary: HistorySummary)
    ensures summary == SummaryOf(snapshots, description)
  {
    if |snapshots| == 0 {
      return HistorySummary(description, 0, 0.0, 0, 0, 0, 0, 0, None, 0.0);
    }
    var avgLevel := LevelSum(snapshots) as real / |snapshots| as real;
    var minLevel := MinLevel(snapshots);
    var maxLevel := MaxLevel(snapshots);

    var chargingPeriods := 0;
    var chargingMinutes := 0;
    var dischargingMinutes := 0;
    var wasCharging := false;
    for i := 0 to |snapshots|
      invariant chargingPeriods == PeriodsUpTo(snapshots, i)
      invariant wasCharging == (i > 0 && snapshots[i - 1].isCharging)
      invariant chargingMinutes == ChargingMinutesUpTo(snapshots, i)
      invariant dischargingMinutes == DischargingMinutesUpTo(snapshots, i)
    {
      if snapshots[i].isCharging && !wasCharging {
        chargingPeriods := chargingPeriods + 1;
      }
      wasCharging := snapshots[i].isCharging;
      if i + 1 < |snapshots| {
        var dt := TruncDiv(snapshots[i + 1].timestamp - snapshots[i].timestamp, 60);
        if snapshots[i].isCharging {
          chargingMinutes := chargingMinutes + dt;
        } else {
          dischargingMinutes := dischargingMinutes + dt;
        }
      }
    }

    var powers := DischargePowers(snapshots);
    var avgDischargeRate := if powers != [] then Some(RealSum(powers) / |powers| as real) else None;

    var totalLevelChange := 0.0;
    for i := 1 to |snapshots|
      invariant totalLevelChange == LevelChangeUpTo(snapshots, i)
    {
      var diff := Abs(snapshots[i].level - snapshots[i - 1].level) as real;
      if !snapshots[i].isCharging && !snapshots[i - 1].isCharging {
        totalLevelChange := totalLevelChange + diff;
      }
    }
    summary := HistorySummary(
      description, |snapshots|, avgLevel, minLevel, maxLevel, chargingPeriods,
      chargingMinutes, dischargingMinutes, avgDischargeRate, totalLevelChange / 100.0);
  }

  /** An empty range summarises to zeros and no discharge rate. */
  lemma EmptySummary(description: string)
    ensures var r := SummaryOf([], description);
            r.snapshotsCount == 0 && r.minLevel == 0 && r.maxLevel == 0 && r.chargingPeriods == 0 &&
            r.totalChargingMinutes == 0 && r.totalDischargingMinutes == 0 &&
            r.avgDischargeRateWatts.None? && r.estimatedCycles == 0.0
  {
  }

  /** No period is counted unless some row charges, and one is whenever some row does. */
  lemma {:induction false} PeriodsCountChargingStarts(s: seq<BatterySnapshot>, k: nat)
    requires k <= |s|
    ensures PeriodsUpTo(s, k) == 0 <==> forall i :: 0 <= i < k ==> !s[i].isCharging
    ensures PeriodsUpTo(s, k) <= |ChargingRows(s[..k])|
  {
    if k > 0 {
      PeriodsCountChargingStarts(s, k - 1);
      assert s[..k] == s[..k - 1] + [s[k - 1]];
      ChargingRowsAppend(s[..k - 1], s[k - 1]);
    }
  }

  function ChargingRows(s: seq<BatterySnapshot>): seq<BatterySnapshot> {
    if s == [] then [] else ChargingRows(s[..|s| - 1]) + (if s[|s| - 1].isCharging then [s[|s| - 1]] else [])
  }

  lemma ChargingRowsAppend(s: seq<BatterySnapshot>, x: BatterySnapshot)
    ensures ChargingRows(s + [x]) == ChargingRows(s) + (if x.isCharging then [x] else [])
  {
    assert (s + [x])[..|s|] == s;
  }

  /** The charging and discharging minutes share out the gaps: every gap goes to exactly one. */
  lemma {:induction false} MinutesShareGaps(s: seq<BatterySnapshot>, k: nat)
    requires k <= |s|
    ensures ChargingMinutesUpTo(s, k) + DischargingMinutesUpTo(s, k) == GapSumUpTo(s, k)
  {
    if k > 0 {
      MinutesShareGaps(s, k - 1);
    }
  }

  /** In time order no minute total is negative. */
  lemma {:induction false} MinutesNonNegative(s: seq<BatterySnapshot>, k: nat)
    requires k <= |s|
    requires forall i, j :: 0 <= i < j < |s| ==> s[i].timestamp <= s[j].timestamp
    ensures ChargingMinutesUpTo(s, k) >= 0 && DischargingMinutesUpTo(s, k) >= 0
  {
    if k > 0 {
      MinutesNonNegative(s, k - 1);
    }
  }

  /** The counted minutes never exceed the time the rows span. */
  lemma {:induction false} GapsWithinSpan(s: seq<BatterySnapshot>, k: nat)
    requires k < |s|
    requires forall i, j :: 0 <= i < j < |s| ==> s[i].timestamp <= s[j].timestamp
    ensures 60 * GapSumUpTo(s, k) <= s[k].timestamp - s[0].timestamp
  {
    if k > 0 {
      GapsWithinSpan(s, k - 1);
    }
  }

  /** The estimated cycles are never negative, and at most one per pair of rows. */
  lemma {:induction false} LevelChangeBounds(s: seq<BatterySnapshot>, k: nat)
    requires k <= |s|
    requires forall i :: 0 <= i < |s| ==> s[i].level <= 100
    ensures 0.0 <= LevelChangeUpTo(s, k)
    ensures k >= 1 ==> LevelChangeUpTo(s, k) <= 100.0 * (k - 1) as real
  {
    if k > 1 {
      LevelChangeBounds(s, k - 1);
      assert Abs(s[k - 1].level - s[k - 2].level) <= 100;
      assert 100.0 * (k - 1) as real == 100.0 * (k - 2) as real + 100.0;
    }
  }

  /** A lower bound on every level bounds the sum. */
  lemma {:induction false} LevelSumAbove(s: seq<BatterySnapshot>, lo: nat)
    requires forall i :: 0 <= i < |s| ==> lo <= s[i].level
    ensures lo * |s| <= LevelSum(s)
  {
    if s != [] {
      var init := s[..|s| - 1];
      assert forall i :: 0 <= i < |init| ==> init[i] == s[i];
      LevelSumAbove(init, lo);
      Distribute(lo, |init|);
    }
  }

  /** An upper bound on every level bounds the sum. */
  lemma {:induction false} LevelSumBelow(s: seq<BatterySnapshot>, hi: nat)
    requires forall i :: 0 <= i < |s| ==> s[i].level <= hi
    ensures LevelSum(s) <= hi * |s|
  {
    if s != [] {
      var init := s[..|s| - 1];
      assert forall i :: 0 <= i < |init| ==> init[i] == s[i];
      LevelSumBelow(init, hi);
      Distribute(hi, |init|);
    }
  }

  lemma Distribute(a: nat, n: nat)
    ensures a * (n + 1) == a * n + a
  {
  }

  /** The average level lies between the lowest and the highest level. */
  lemma AverageBetween(s: seq<BatterySnapshot>)
    requires s != []
    ensures MinLevel(s) as real <= LevelSum(s) as real / |s| as real <= MaxLevel(s) as real
  {
    var lo, hi := MinLevel(s), MaxLevel(s);
    LevelSumAbove(s, lo);
    LevelSumBelow(s, hi);
    MeanBetween(LevelSum(s), |s|, lo, hi);
  }

  lemma MeanBetween(sum: nat, n: nat, lo: nat, hi: nat)
    requires n > 0 && lo * n <= sum <= hi * n
    ensures lo as real <= sum as real / n as real <= hi as real
  {
    assert (lo * n) as real == lo as real * n as real;
    assert (hi * n) as real == hi as real * n as real;
    DivBetween(sum as real, n as real, lo as real, hi as real);
  }

  lemma MulMono(a: nat, b: nat, c: nat)
    requires a <= b
    ensures a * c <= b * c
  {
  }

  /** A summary of a non-empty range has its average level between its lowest and highest. */
  lemma SummaryLevelBounds(s: seq<BatterySnapshot>, description: string)
    requires s != []
    ensures SummaryOf(s, description).snapshotsCount == |s|
    ensures SummaryOf(s, description).minLevel as real <= SummaryOf(s, description).avgLevel
    ensures SummaryOf(s, description).avgLevel <= SummaryOf(s, description).maxLevel as real
  {
    AverageBetween(s);
  }

  lemma DivBetween(sum: real, n: real, lo: real, hi: real)
    requires n > 0.0 && lo * n <= sum <= hi * n
    ensures lo <= sum / n <= hi
  {
  }

  /** The discharge rate is reported exactly when some row that is not charging has a power reading. */
  lemma {:induction false} DischargeRateKnown(s: seq<BatterySnapshot>)
    ensures DischargePowers(s) != [] <==> exists i :: 0 <= i < |s| && !s[i].isCharging && s[i].powerDraw.Some?
  {
    if s != [] {
      var init := s[..|s| - 1];
      DischargeRateKnown(init);
      assert forall i :: 0 <= i < |init| ==> init[i] == s[i];
      if exists i :: 0 <= i < |s| && !s[i].isCharging && s[i].powerDraw.Some? {
        var i :| 0 <= i < |s| && !s[i].isCharging && s[i].powerDraw.Some?;
        if i < |init| {
          assert !init[i].isCharging && init[i].powerDraw.Some?;
        }
      }
    }
  }

  // ---------------------------------------------------------------- durations

  datatype DurationError = InvalidFormat(text: string) | InvalidNumber(text: string)

  /** Seconds in one of the unit letters; 'm' is a month of 30 days. */
  function UnitSeconds(unit: char): nat {
    if unit == 'h' then 3600
    else if unit == 'd' then 86400
    else if unit == 'w' then 604800
    else 2592000
  }

  /**
   * `parse_duration_str`: trimmed and lower-cased, a (signed) integer then
   * one of h, d, w, m; the duration in seconds.
   */
  function ParseDurationStr(s: string): (r: Result<int, DurationError>)
    ensures r.Ok? ==> var t := ToLower(Trim(s));
                      t != [] && t[|t| - 1] in "hdwm" && ParseI64(t[..|t| - 1]).Some?
  {
    var t := ToLower(Trim(s));
    if t != [] && t[|t| - 1] in "hdwm" then
      match ParseI64(t[..|t| - 1])
      case Some(n) => Ok(n * UnitSeconds(t[|t| - 1]))
      case None => Err(InvalidNumber(t))
    else Err(InvalidFormat(t))
  }

  /** "Last N unit(s)". */
  function Describe(count: int, unit: string): string {
    "Last " + IntToString(count) + " " + unit + (if count != 1 then "s" else "")
  }

  /**
   * `format_duration`: whole hours below a day, whole days below a week,
   * whole weeks below 30 days, else whole 30-day months.
   */
  function FormatDuration(d: int): string {
    var hours := TruncDiv(d, 3600);
    if hours < 24 then Describe(hours, "hour")
    else
      var days := TruncDiv(d, 86400);
      if days < 7 then Describe(days, "day")
      else if days < 30 then Describe(days / 7, "week")
      else Describe(days / 30, "month")
  }

  function UnitName(unit: char): string {
    match unit
    case 'h' => "hour"
    case 'd' => "day"
    case 'w' => "week"
    case _ => "month"
  }

  lemma ToLowerKeeps(s: string)
    requires forall i :: 0 <= i < |s| ==> !('A' <= s[i] <= 'Z')
    ensures ToLower(s) == s
  {
  }

  /** A count with a unit letter parses to that many units. */
  lemma ParseDurationRoundTrip(n: nat, unit: char)
    requires unit in "hdwm" && n * UnitSeconds(unit) <= I64_MAX / 1000
    ensures ParseDurationStr(NatToString(n) + [unit]) == Ok(n * UnitSeconds(unit))
  {
    InDurationRange(n, unit);
    var digits := NatToString(n);
    var s := digits + [unit];
    assert ToLower(Trim(s)) == s by {
      assert s[0] == digits[0] && s[|s| - 1] == unit && IsDigit(digits[0]);
      TrimKeeps(s);
      forall i | 0 <= i < |s| ensures !('A' <= s[i] <= 'Z') {
        if i < |digits| {
          assert s[i] == digits[i] && IsDigit(digits[i]);
        }
      }
      ToLowerKeeps(s);
    }
    assert s[..|s| - 1] == digits;
    assert ParseI64(digits) == Some(n) by {
      ParseNatToString(n);
    }
  }

  /**
   * A duration of a whole number of units, within the range in which
   * that unit is the one shown, is described by the same count and unit;
   * with `ParseDurationRoundTrip`, "Nu" parses to a duration shown as
   * "Last N u(s)".
   */
  lemma FormatWholeUnits(n: nat, unit: char)
    requires unit in "hdwm"
    requires unit == 'h' ==> n < 24
    requires unit == 'd' ==> 1 <= n < 7
    requires unit == 'w' ==> 1 <= n <= 4
    requires unit == 'm' ==> 1 <= n
    ensures FormatDuration(n * UnitSeconds(unit)) == Describe(n, UnitName(unit))
  {
    if unit == 'h' {
      assert UnitSeconds(unit) == 3600 && UnitName(unit) == "hour";
      FormatHours(n);
    } else if unit == 'd' {
      assert UnitSeconds(unit) == 86400 && UnitName(unit) == "day";
      FormatWholeDays(n);
    } else if unit == 'w' {
      assert UnitSeconds(unit) == 604800 && UnitName(unit) == "week";
      FormatWholeWeeks(n);
    } else {
      assert unit == 'm';
      assert UnitSeconds(unit) == 2592000 && UnitName(unit) == "month";
      FormatWholeMonths(n);
    }
  }

  lemma FormatWholeDays(n: nat)
    requires 1 <= n < 7
    ensures FormatDuration(n * 86400) == Describe(n, "day")
  {
    FormatDays(n, 1);
  }

  lemma FormatWholeWeeks(n: nat)
    requires 1 <= n <= 4
    ensures FormatDuration(n * 604800) == Describe(n, "week")
  {
    FormatDays(n, 7);
    assert (n * 7) / 7 == n;
  }

  lemma FormatWholeMonths(n: nat)
    requires 1 <= n
    ensures FormatDuration(n * 2592000) == Describe(n, "month")
  {
    FormatDays(n, 30);
    DivExact(n, 30);
  }

  lemma FormatHours(n: nat)
    requires n < 24
    ensures FormatDuration(n * 3600) == Describe(n, "hour")
  {
    DivExact(n, 3600);
  }

  /** `n · k` days, at least one day: the hour count is past a day and the day count is exact. */
  lemma FormatDays(n: nat, k: nat)
    requires n >= 1 && k >= 1
    ensures TruncDiv(n * k * 86400, 3600) >= 24
    ensures TruncDiv(n * k * 86400, 86400) == n * k
    ensures n * k * 86400 == n * (k * 86400)
  {
    DivExact(n * k * 24, 3600);
    assert n * k * 86400 == (n * k * 24) * 3600;
    DivExact(n * k, 86400);
    MulAtLeast(n * k, 24);
  }

  /** The unit-test input "24h". */
  lemma ParseDurationHours()
    ensures ParseDurationStr("24h") == Ok(24 * 3600)
  {
    assert "24h" == NatToString(24) + ['h'] by {
      var digits := NatToString(24);
      assert digits == "24";
    }
    ParseDurationRoundTrip(24, 'h');
  }

  /** The unit-test input "7d". */
  lemma ParseDurationDays()
    ensures ParseDurationStr("7d") == Ok(7 * 86400)
  {
    assert "7d" == NatToString(7) + ['d'] by {
      var digits := NatToString(7);
      assert digits == "7";
    }
    ParseDurationRoundTrip(7, 'd');
  }

  /** A count small enough for chrono's durations fits in `i64`. */
  lemma InDurationRange(n: nat, unit: char)
    requires n * UnitSeconds(unit) <= I64_MAX / 1000
    ensures n <= I64_MAX
  {
    if n > 0 {
      MulAtLeast(UnitSeconds(unit), n);
    }
  }

  /** The text is trimmed and lower-cased before it is read. */
  lemma ParseDurationNormalised(s: string)
    ensures ParseDurationStr(s) == ParseDurationStr(ToLower(Trim(s)))
  {
    NormaliseTwice(s);
  }

  /** Surrounding space and an upper-case unit are accepted: " 24H " is a day. */
  lemma ParseDurationSpacedUpper()
    ensures ParseDurationStr(" 24H ") == Ok(86400)
  {
    SpacedUpperNormalised();
    ParseDurationNormalised(" 24H ");
    ParseDurationHours();
  }

  lemma SpacedUpperNormalised()
    ensures ToLower(Trim(" 24H ")) == "24h"
  {
    var padded := " 24H ";
    assert TrimEnd(padded) == TrimEnd(padded[..4]);
    assert padded[..4] == " 24H";
    assert TrimEnd(" 24H") == " 24H";
    assert TrimStart(" 24H") == TrimStart(" 24H"[1..]);
    assert " 24H"[1..] == "24H";
    assert TrimStart("24H") == "24H";
    assert Trim(padded) == "24H";
    var lowered := ToLower("24H");
    assert lowered[0] == '2' && lowered[1] == '4' && lowered[2] == 'h';
    assert lowered == "24h";
  }

  /** A text already trimmed and lower-case, a number then a unit letter, parses to that many units. */
  lemma ParseDurationOfParts(count: string, v: int, unit: char)
    requires unit in "hdwm" && ParseI64(count) == Some(v)
    requires ToLower(Trim(count + [unit])) == count + [unit]
    ensures ParseDurationStr(count + [unit]) == Ok(v * UnitSeconds(unit))
  {
    var t := count + [unit];
    assert t[..|t| - 1] == count && t[|t| - 1] == unit;
  }

  /** A signed count is accepted: "-5h" is five hours back. */
  lemma ParseDurationMinusFive()
    ensures ParseDurationStr("-5h") == Ok(-18000)
  {
    assert "-5h" == "-5" + ['h'];
    MinusFiveParts();
    ParseDurationOfParts("-5", -5, 'h');
  }

  lemma MinusFiveParts()
    ensures ToLower(Trim("-5h")) == "-5h"
    ensures ParseI64("-5") == Some(-5)
  {
    TrimKeeps("-5h");
    ToLowerKeeps("-5h");
    assert "-5"[1..] == "5";
    assert "5"[..0] == [];
  }

  /** The unit-test input "4w". */
  lemma ParseDurationWeeks()
    ensures ParseDurationStr("4w") == Ok(4 * 604800)
  {
    assert "4w" == "4" + ['w'];
    SingleDigitCount('4', 'w');
    ParseDurationOfParts("4", 4, 'w');
  }

  /** The unit-test input "1m": a month is 30 days. */
  lemma ParseDurationMonths()
    ensures ParseDurationStr("1m") == Ok(30 * 86400)
  {
    assert "1m" == "1" + ['m'];
    SingleDigitCount('1', 'm');
    ParseDurationOfParts("1", 1, 'm');
  }

  lemma SingleDigitCount(d: char, unit: char)
    requires IsDigit(d) && unit in "hdwm"
    ensures ToLower(Trim([d, unit])) == [d, unit]
    ensures ParseI64([d]) == Some(DigitValue(d))
  {
    TrimKeeps([d, unit]);
    ToLowerKeeps([d, unit]);
    assert [d][0] != '+' && [d][0] != '-' && AllDigits([d]);
    assert [d][..0] == [];
    assert DigitsValue([d]) == DigitsValue([]) * 10 + DigitValue(d);
  }

  lemma ParseDurationRejectsNoUnit()
    ensures ParseDurationStr("abc").Err?
  {
    TrimKeeps("abc");
    assert ToLower("abc") == "abc";
  }

  /** The unit-test duration of 12 hours. */
  lemma FormatTwelveHours()
    ensures FormatDuration(12 * 3600) == "Last 12 hours"
  {
    assert "Last 12 hours" == Describe(12, "hour") by {
      var digits := NatToString(12);
      assert digits == "12";
    }
    FormatHours(12);
  }

  /** The unit-test duration of 3 days. */
  lemma FormatThreeDays()
    ensures FormatDuration(3 * 86400) == "Last 3 days"
  {
    assert "Last 3 days" == Describe(3, "day") by {
      var digits := NatToString(3);
      assert digits == "3";
    }
    FormatWholeDays(3);
  }

  /** The unit-test duration of 14 days: two weeks. */
  lemma FormatTwoWeeks()
    ensures FormatDuration(14 * 86400) == "Last 2 weeks"
  {
    assert "Last 2 weeks" == Describe(2, "week") by {
      var digits := NatToString(2);
      assert digits == "2";
    }
    FormatWholeWeeks(2);
  }

  /** The unit-test duration of 60 days: two months. */
  lemma FormatTwoMonths()
    ensures FormatDuration(60 * 86400) == "Last 2 months"
  {
    assert "Last 2 months" == Describe(2, "month") by {
      var digits := NatToString(2);
      assert digits == "2";
    }
    FormatWholeMonths(2);
  }
}
