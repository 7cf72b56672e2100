# batteryctl, modelled in Dafny

batteryctl is a command-line battery monitor. It reads the battery from the
Linux power-supply attribute files or from the macOS `pmset` and
`system_profiler` output, and turns the reading into one canonical
`BatteryInfo`. It also keeps a history of snapshots in a table, summarises
that history, builds a capacity trend and a health report, runs an alert loop
with edge-triggered low and full alerts, and assembles power-saving
suggestions.

This project models the logic of that core and proves properties of it:

- `Battery` (battery.dfy) holds the reading, its derived quantities (health
  percentage, capacity loss, remaining cycles, the time display) and the
  shared condition heuristic.
- `LinuxSource` (linux.dfy) is the pure part of the Linux reader. The attribute
  files are a map from file name to contents, and the floating-point
  measurements come in as parameters.
- `MacosSource` (macos.dfy) holds the text parsers for the two macOS command
  outputs.
- `History` (history.dfy) has a `HistoryManager` class. Its `rows` field stands
  for the `snapshots` table, and its methods append, range-query, count, prune
  and summarise. The current time `now` is a parameter. This module also holds
  the duration syntax (`parse_duration_str`, `format_duration`).
- `Health` (health.dfy) holds the per-day capacity trend, the health report,
  the comparison with a new battery, and the day arithmetic of the age text.
- `Alert` (alert.dfy) holds the two alert latches and their per-reading
  update, the interruptible sleep, and the monitoring loop.
- `Optimize` (optimize.dfy) holds the suggestion list with its savings total,
  its stable sort by priority, and the three priority filters.
- `Wrappers`, `MachineInts` and `Text` are support modules:
  - `Option` and `Result`;
  - the `u8`/`u32`/`i32` ranges, wrap-around casts and truncating division;
  - ASCII string helpers: lines, words, trimming, lower-casing, searching,
    and integer parsing and printing.

Conventions:

- Timestamps are whole Unix seconds.
- A chrono `num_minutes`, `num_hours` or `num_days` is integer division that
  truncates toward zero (`TruncDiv`).
- Floating-point values are exact reals.
- The `running` flag of the alert loop is a sequence of successive
  observations; a read past its end observes `false`, so every loop ends.
- Methods are proved against specification functions (`ensures trend ==
  TrendOf(snapshots)`). The properties are then proved about those functions
  in lemmas.

Behaviour the model keeps as written:

- The Linux level is `capacity as u8`, which wraps modulo 256 rather than
  clamping (`LinuxSource.LevelIsTruncatedNotClamped`: 300 becomes 44).
- `determine_condition` answers Unknown when the design capacity is 0, even
  when a cycle count is known.
- The time parser's "not charging" test is case-sensitive, while the state
  test lower-cases the line.
- Reading the history back clamps the level to [0, 100], so a Linux level
  above 100 is stored as it is and read back as 100.
- Between 360 and 364 days the age text is "12 months".
- The level is bounded in two different ways. The macOS reader clamps the
  percentage with `pct.min(100)`. The Linux reader casts `capacity` with
  `as u8`, which keeps the low eight bits and does not clamp.

## Model

| member | source | states |
|---|---|---|
| MachineInts.TruncateToU8 | src/battery.rs:126 | `as u8` keeps a value below 256 and otherwise leaves its remainder modulo 256 |
| MachineInts.U32AsI32 | src/history.rs:106-108 | `c as i32` keeps values below 2^31 and turns larger ones negative |
| MachineInts.U32RoundTrip | src/history.rs:139-141 | a `u32` stored as `i32` and read back `as u32` is unchanged |
| MachineInts.TruncDivBounds | src/history.rs:186-189 | whole minutes or hours of a duration round toward zero: the quotient has the sign of the dividend and lies within one divisor of it |
| Battery.BatteryInfo.HealthPercent | src/battery.rs:70-77 | present exactly when both capacities are known and design > 0; then health·design = max·100 |
| Battery.BatteryInfo.CapacityLossMah | src/battery.rs:80-85 | present exactly when both capacities are known; then design − max, possibly negative |
| Battery.BatteryInfo.EstimatedRemainingCycles | src/battery.rs:88-90 | present exactly with a cycle count; 1000 − cycles saturating at 0, always in [0, 1000] |
| Battery.BatteryInfo.TimeRemainingDisplay | src/battery.rs:93-106 | "Calculating..." exactly when the minutes are unknown or negative |
| Battery.TimeDisplayRoundTrip | src/battery.rs:93-106 | reading the display back gives the minutes whenever they are known and non-negative, and nothing otherwise |
| Battery.MinutesDisplayRoundTrip | src/battery.rs:100-101 | the "{m}m" form reads back as m |
| Battery.HoursDisplayRoundTrip | src/battery.rs:96-99 | the "{h}h {mm}m" form with a two-digit minute reads back as h·60 + mm |
| Battery.DetermineCondition | src/battery.rs:408-436 | never Poor; with both capacities and design > 0: Normal iff health ≥ 80 %, ServiceRecommended iff 60–80 %, Replace iff < 60 % |
| Battery.HealthThresholds | src/battery.rs:417-424 | the real-valued 80 % and 60 % tests equal integer comparisons of 100·max with 80·design and 60·design |
| Battery.ConditionUnknownCases | src/battery.rs:408-436 | Unknown exactly when design is 0 with both capacities known, or a capacity and the cycle count are both missing |
| Battery.ConditionIgnoresCyclesWithCapacities | src/battery.rs:413-425 | with both capacities known the cycle count has no effect |
| Battery.ConditionFromCycles | src/battery.rs:426-434 | with a capacity missing: Normal iff < 800 cycles, ServiceRecommended iff 800–999, Replace iff ≥ 1000 |
| Battery.ConditionMonotoneInCapacity | src/battery.rs:417-424 | a smaller max capacity never gives a milder condition |
| Battery.ConditionMonotoneInCycles | src/battery.rs:426-434 | more cycles never give a milder condition |
| Battery.SampleDerivedValues | src/battery.rs:461-484 | the sample battery: health ≈ 93.67, loss 285, 953 cycles left, "1h 23m" |
| Battery.ConditionExamples | src/battery.rs:486-500 | 4500/5000 Normal, 3500/5000 ServiceRecommended, 2000/5000 Replace; design 0 gives Unknown |
| LinuxSource.ReadString | src/battery.rs:223-227 | a string attribute is present exactly when its file is readable |
| LinuxSource.ReadU32 | src/battery.rs:229-233 | a number attribute is present exactly when its file is readable and its trimmed text parses as a `u32`; the value is that of its digits, after an optional '+' |
| LinuxSource.ReadU32Printed | src/battery.rs:229-233 | a number below 2^32 written with a line break, as the kernel writes it, is read back as itself |
| LinuxSource.LinuxLevel | src/battery.rs:126 | 0 without a readable capacity, else the capacity modulo 256 |
| LinuxSource.LinuxState | src/battery.rs:128-135 | Unknown when there is no status file |
| LinuxSource.ReadsStatusWord | src/battery.rs:128-135 | a status word with a line break is mapped through its lower-cased form |
| LinuxSource.StatusRoundTrip | src/battery.rs:128-135 | each word the kernel writes for a state is read back as that state |
| LinuxSource.KernelWordsLowered | src/battery.rs:129-134 | the lower-cased kernel words are exactly the matched words |
| Text.TrimLower | src/battery.rs:129 | trimming and lower-casing commute |
| LinuxSource.StatusIgnoresCase | src/battery.rs:128-135 | lower-casing the status file does not change the state read |
| LinuxSource.Milli | src/battery.rs:146-158 | micro to milli units by truncating division: r·1000 ≤ v < r·1000 + 1000 |
| LinuxSource.SelectCapacities | src/battery.rs:145-158 | all three capacities come from the charge family when `charge_full` reads, else from the energy family |
| LinuxSource.LinuxInfo | src/battery.rs:183-201 | the reading's level, state, capacities, cycles, date and condition are the ones derived from the files |
| LinuxSource.LevelIsTruncatedNotClamped | src/battery.rs:126 | a capacity of 300 gives level 44, not 100 |
| MacosSource.ExtractNumberBefore | src/battery.rs:365-375 | a number only when the delimiter occurs; none without it |
| MacosSource.NumberBeforeRoundTrip | src/battery.rs:365-375 | a number printed just before the first delimiter, after a non-digit, is read back |
| MacosSource.NumberBeforeExample | src/battery.rs:443-444 | "87%;" gives 87 |
| MacosSource.NumberBeforeAfterSpaces | src/battery.rs:445 | "  100%" gives 100 |
| MacosSource.NumberBeforeNeedsDigits | src/battery.rs:446 | "abc%" gives nothing |
| MacosSource.ExtractTimeRemaining | src/battery.rs:377-394 | the indexed scan with early returns equals the first-match specification; none when "(no estimate)" or "not charging" occurs |
| MacosSource.TimeFoundHasWitness | src/battery.rs:383-390 | a time found always comes from an "H:MM" word followed by "remaining" |
| MacosSource.TimeWordRoundTrip | src/battery.rs:384-389 | "H:MM remaining" reads back as H·60 + MM |
| MacosSource.TimeWordFoundAt | src/battery.rs:383-390 | a scan that reaches an "H:MM" word followed by "remaining" returns H·60 + MM |
| MacosSource.TimeWordExample | src/battery.rs:450-454 | "1:23 remaining" gives 83 |
| MacosSource.PmsetLineStep | src/battery.rs:288-308 | a line leaves the level as it was or sets it to at most 100 |
| MacosSource.PmsetLevelAtMost100 | src/battery.rs:290-292 | the parsed level never exceeds 100 |
| MacosSource.LaterLineOverwrites | src/battery.rs:286-309 | a later qualifying line overwrites the percentage and time it states, and sets the state by the charging > discharging > charged > not charging priority |
| MacosSource.TimeTestIsCaseSensitive | src/battery.rs:379 | the line "Not Charging H:MM remaining" lower-cases to "not charging H:MM remaining"; the state test (lines 287-299) reads both as NotCharging, but the case-sensitive time test keeps H·60 + MM for the capitalised line and gives none for the lower-case one |
| MacosSource.LowerLineHasNoTime | src/battery.rs:379 | the lower-case "not charging H:MM remaining" line sets NotCharging and has no time |
| MacosSource.NotChargingState | src/battery.rs:294-302 | a lower-cased line starting "not charging" with no 'd' or 'f' sets NotCharging whatever the state before |
| MacosSource.CapitalLineTime | src/battery.rs:377-390 | the capitalised "Not Charging H:MM remaining" line passes the time test and gives H·60 + MM |
| MacosSource.ProfilerValueFound | src/battery.rs:396-406 | a profiler value exists exactly when some trimmed line starts with the key and has a ':' |
| MacosSource.ProfilerValueIsFirstMatch | src/battery.rs:396-406 | the value is the trimmed text after the first ':' of the first such line |
| MacosSource.ProfilerLineRoundTrip | src/battery.rs:397-402 | a line printed as "Key: value" gives back the value |
| MacosSource.ProfilerCondition | src/battery.rs:321-340 | never Poor; an unrecognised label falls back to Maximum Capacity (≥ 80 Normal, < 60 Replace) or Unknown without it |
| MacosSource.LabelBeatsPercentage | src/battery.rs:323-326 | a recognised label decides the condition whatever the percentage |
| MacosSource.MaxCapacityFromProfiler | src/battery.rs:342-344 | full-charge capacity first, else design·pct/100 truncated, else design; none only without both |
| MacosSource.MacosInfo | src/battery.rs:348-362 | level, state and time come from the scan; cycle count, design and maximum capacity, condition and manufacture date come from the profiler lines; power, current capacity, temperature and voltage are unknown |
| MacosSource.ParseMacosBattery | src/battery.rs:280-363 | the loop over the lines equals the scan specification, and the level is at most 100 |
| History.ReadRow | src/history.rs:134-142 | a stored level is read back clamped to [0, 100] |
| History.RecordReadRoundTrip | src/history.rs:93-108 | a recorded reading reads back with the store's time, charging = Charging or Full, and its other fields unchanged |
| History.ColumnRoundTrip | src/history.rs:139-141 | optional `u32` columns survive the signed column |
| History.Since | src/history.rs:116-120 | the rows kept are exactly those at or after the cut |
| History.Before | src/history.rs:246-249 | the rows deleted are exactly those before the cut |
| History.SinceBeforePartition | src/history.rs:245-251 | kept and deleted rows together are the table, with counts adding up |
| History.SinceSince | src/history.rs:116-120 | a later cut applied after an earlier one is the later cut |
| History.InsertByTime | src/history.rs:121 | inserting into the ordered range adds exactly the row |
| History.InsertKeepsSorted | src/history.rs:121 | inserting keeps the range ordered by time |
| History.SortByTime | src/history.rs:121 | the range is ordered by time and a permutation of the selected rows |
| History.ReadRows | src/history.rs:124-144 | every selected row gives one snapshot, in order, each the row read back by `ReadRow` |
| History.RangeIsSelectedAndOrdered | src/history.rs:115-147 | the range holds exactly the rows at or after `now − d`, ascending in time, each level in [0, 100] |
| History.PruneKeepsRecentRanges | src/history.rs:245-252 | pruning with a longer keep leaves every shorter range unchanged |
| History.HistoryManager.OpenAt | src/history.rs:73-88 | the store starts with the given rows |
| History.HistoryManager.RecordSnapshot | src/history.rs:91-112 | the table gains exactly the row for the reading at `now` |
| History.HistoryManager.SnapshotCount | src/history.rs:235-242 | the count is the number of rows |
| History.HistoryManager.GetSnapshotsRange | src/history.rs:115-147 | the result is the range specification at `now − duration` |
| History.HistoryManager.Prune | src/history.rs:245-252 | deletes exactly the rows before `now − keep`, returns how many, keeps every later row |
| History.HistoryManager.GetSummary | src/history.rs:150-232 | the summary of the range, with the formatted duration |
| History.RecordTwiceRange | src/history.rs:340-353 | two recordings within an hour give a one-hour range of two rows at the recorded level |
| History.TwoRowsInRange | src/history.rs:115-121 | two rows in time order, both in range, come back as they are |
| History.RecordTwiceScenario | src/history.rs:340-353 | recording twice gives count 2 and a one-hour range of two snapshots at the recorded level |
| History.MinLevel | src/history.rs:170 | the smallest level, attained by some snapshot |
| History.MaxLevel | src/history.rs:171 | the largest level, attained by some snapshot |
| History.Summarize | src/history.rs:153-231 | the single pass over the range equals the summary specification |
| History.EmptySummary | src/history.rs:153-166 | an empty range gives zero counts, levels and minutes, no rate and no cycles |
| History.PeriodsCountChargingStarts | src/history.rs:173-184 | no charging periods exactly when no snapshot charges; at most one per charging snapshot |
| History.MinutesShareGaps | src/history.rs:185-196 | charging plus discharging minutes is the sum of all gaps |
| History.MinutesNonNegative | src/history.rs:185-196 | on a time-ordered range both minute totals are non-negative |
| History.GapsWithinSpan | src/history.rs:185-196 | the whole-minute gaps add up to no more than the range's span |
| History.LevelChangeBounds | src/history.rs:210-218 | the counted level change is between 0 and 100 per pair |
| History.AverageBetween | src/history.rs:168-171 | the average level lies between the minimum and maximum |
| History.SummaryLevelBounds | src/history.rs:168-171 | a non-empty summary counts every snapshot and has min ≤ average ≤ max |
| History.DischargeRateKnown | src/history.rs:198-208 | a discharge rate exists exactly when some snapshot is not charging and has a power reading |
| History.ParseDurationStr | src/history.rs:283-310 | accepted only when the trimmed lower-cased text ends in h, d, w or m after an integer |
| History.ParseDurationRoundTrip | src/history.rs:283-310 | "{n}{unit}" parses to n hours, days, weeks or 30-day months in seconds, for every n whose duration chrono can hold (n·unit ≤ i64::MAX / 1000 seconds) |
| History.ParseDurationOfParts | src/history.rs:283-310 | an already trimmed, lower-case count followed by a unit letter parses to the count times the unit, negative counts included |
| History.ParseDurationNormalised | src/history.rs:284 | the parser sees only the trimmed, lower-cased text |
| History.ParseDurationSpacedUpper | src/history.rs:284 | " 24H " is 24 hours |
| History.ParseDurationMinusFive | src/history.rs:297-299 | "-5h" is accepted as minus 5 hours |
| History.ParseDurationHours | src/history.rs:357 | "24h" is 24 hours |
| History.ParseDurationDays | src/history.rs:358 | "7d" is 7 days |
| History.ParseDurationWeeks | src/history.rs:359 | "4w" is 4 weeks |
| History.ParseDurationMonths | src/history.rs:360 | "1m" is 30 days |
| History.ParseDurationRejectsNoUnit | src/history.rs:361 | "abc" is an error |
| History.FormatWholeUnits | src/history.rs:260-280 | a whole number of units within the unit's band is described as "Last n unit(s)", inverting the parser |
| History.FormatHours | src/history.rs:261-263 | below a day: whole hours |
| History.FormatWholeDays | src/history.rs:265-267 | one to six days: whole days |
| History.FormatWholeWeeks | src/history.rs:268-270 | one to four weeks: whole weeks |
| History.FormatWholeMonths | src/history.rs:271-277 | whole 30-day months |
| History.FormatTwelveHours | src/history.rs:366 | 12 hours is "Last 12 hours" |
| History.FormatThreeDays | src/history.rs:367 | 3 days is "Last 3 days" |
| History.FormatTwoWeeks | src/history.rs:368 | 2 weeks is "Last 2 weeks" |
| History.FormatTwoMonths | src/history.rs:369 | 60 days is "Last 2 months" |
| Health.OrInsertAscending | src/health.rs:154-162 | the daily table stays strictly ordered by day and gains only the new day |
| Health.LookupOrInsert | src/health.rs:161 | `or_insert` adds an entry only for a day not yet present |
| Health.DailyAscending | src/health.rs:154-163 | after any prefix the table has one entry per day, in date order |
| Health.DailyIsFirstOfDay | src/health.rs:157-163 | each day's entry is the one from the first snapshot of that day with a capacity |
| Health.FirstOfDayIsFirst | src/health.rs:157-163 | that first snapshot is the earliest one in input order |
| Health.FirstOfDayNone | src/health.rs:159-162 | a day without a capacity reading has no entry |
| Health.BuildCapacityTrend | src/health.rs:143-185 | the loop over the snapshots equals the trend specification |
| Health.StoreCapacityTrend | src/health.rs:145-147 | the trend of a store is that of its last 180 days |
| Health.TrendAscending | src/health.rs:165-182 | trend points are at least a day apart and in date order |
| Health.TrendPointOfDay | src/health.rs:157-163 | the first snapshot of a day with a capacity supplies that day's point |
| Health.HealthWithoutDesign | src/health.rs:160-175 | without a design capacity the point's health is exactly 100 |
| Health.EmptyTrend | src/health.rs:149-151 | an empty range gives an empty trend |
| Health.CapacityLossPercent | src/health.rs:37-42 | present exactly when health is, and then 100 − health |
| Health.GenerateHealthReport | src/health.rs:32-69 | capacities, cycles and date copied; loss percentage, remaining cycles, health and condition name derived; the trend is that of the range read when the read succeeds and empty without a store or on error; the age text is that of the day count when the date is known |
| Health.SampleReport | src/health.rs:210-220 | the sample report: 4500, 4215, loss 285, 47 cycles, 953 left, "Normal" |
| Health.Tenths | src/health.rs:87 | `{:.1}` rounds to the nearest tenth |
| Health.OneDecimalIsClose | src/health.rs:87 | the one-decimal text is within 0.05 of the value |
| Health.CompareWithNew | src/health.rs:72-106 | Max Capacity first when both capacities are known, Health when known, Cycle Count when known, Condition always last |
| Health.AgeParts | src/health.rs:126-128 | years of 365 days and months of 30 of the rest; the months are at most 12 |
| Health.AgeDescription | src/health.rs:121-140 | no text exactly when the day count is negative; under 30 days "n day(s)", under 365 "n month(s)", else starting with "n year(s)" |
| Health.AgePartsApproximate | src/health.rs:126-128 | years and months account for the days to within a month |
| Health.TwelveMonthsQuirk | src/health.rs:126-137 | 360 to 364 days read "12 months" |
| Health.OneDayAge | src/health.rs:138-139 | one day reads "1 day" |
| Health.YearAndMonthAge | src/health.rs:130-132 | 400 days read "1 year, 1 month" |
| Alert.DefaultConfig | src/alert.rs:15-23 | no threshold, no full alert, a 60 s interval |
| Alert.LowLatch | src/alert.rs:49-67 | the low alert fires once iff a threshold is set, the battery is low and not yet alerted; the latch re-arms when not low and is untouched without a threshold |
| Alert.FullLatch | src/alert.rs:70-83 | the full alert fires once iff enabled, the battery is full and not yet alerted; the latch re-arms when not full and is untouched when disabled |
| Alert.FailedReadKeepsLatches | src/alert.rs:85-87 | a failed read leaves both latches and raises nothing |
| Alert.DefaultNeverAlerts | src/alert.rs:15-23 | under the default configuration no reading sequence raises an alert |
| Alert.LowAlertOncePerCrossing | src/alert.rs:49-66 | a run of low readings raises the low alert exactly once unless already alerted |
| Alert.FullAlertOncePerCrossing | src/alert.rs:70-83 | a run of full readings raises the full alert exactly once unless already alerted |
| Alert.SleepEnd | src/alert.rs:93-96 | the sleep makes at least one load while time is left, and none once the interval is covered |
| Alert.TicksAllowed | src/alert.rs:45-97 | the loop checks at least once exactly when its first load sees the flag set, and never more often than there are loads |
| Alert.TicksWithoutInterval | src/alert.rs:45-97 | with a zero interval and the flag always set, one check per load |
| Alert.SleepInSteps | src/alert.rs:90-97 | steps of at most 500 ms summing to min(interval, 500·steps); stops once the interval is covered or the flag reads false; the next load is the one `SleepEnd` names |
| Alert.CheckReading | src/alert.rs:46-88 | one reading updates the latches and raises the alerts as the tick specification says |
| Alert.RunAlertLoop | src/alert.rs:29-102 | the loop makes exactly the checks `TicksAllowed` counts from the flag's loads, and the alerts raised are those of those checks |
| Optimize.OptimizationReport.HighImpact | src/optimize.rs:41-46 | only High suggestions of the report |
| Optimize.OptimizationReport.MediumImpact | src/optimize.rs:48-53 | only Medium suggestions of the report |
| Optimize.OptimizationReport.LowImpact | src/optimize.rs:55-60 | only Low suggestions of the report |
| Optimize.OfPriorityMembers | src/optimize.rs:41-60 | a suggestion is selected iff it is in the list with that priority |
| Optimize.OfPriorityCount | src/optimize.rs:41-60 | each selection keeps every occurrence of its priority and nothing else |
| Optimize.ImpactPartition | src/optimize.rs:40-61 | the three selections together are the whole list, as a multiset |
| Optimize.SortIsStable | src/optimize.rs:186 | the sort orders by priority, is a permutation, and keeps the order within each priority |
| Optimize.SortIsSorted | src/optimize.rs:186 | the sorted list is ordered High, Medium, Low |
| Optimize.SortKeepsPriority | src/optimize.rs:186 | sorting leaves each priority's subsequence unchanged |
| Optimize.SortKeepsMembers | src/optimize.rs:186 | sorting loses and adds no suggestion |
| Optimize.ImpactSplitsSorted | src/optimize.rs:40-61 | on a sorted list the three filters are its consecutive parts |
| Optimize.CountBusy | src/optimize.rs:74-75 | at most one busy application per application |
| Optimize.AppSuggestionsOfBusy | src/optimize.rs:73-88 | one High "close it" suggestion with a saving per application above 20 % CPU; every suggestion names such an application and every such application is named |
| Optimize.FirstThree | src/optimize.rs:73-74 | at most the first three applications are looked at |
| Optimize.BusyAppSuggestions | src/optimize.rs:73-88 | the loop gives the application suggestions and 15 minutes per busy application |
| Optimize.BatteryAdvice | src/optimize.rs:113-141 | the state-dependent advice as specified |
| Optimize.GenerateSuggestions | src/optimize.rs:64-192 | the built report is the sorted collection with its savings, always present and within 30–120 minutes |
| Optimize.AlwaysSuggested | src/optimize.rs:91-183 | brightness, Low Power Mode and keep-updated are always suggested, so the list is never empty |
| Optimize.ReportIsSortedCollection | src/optimize.rs:186-191 | the report is a sorted permutation of what was collected, and its filters are the collection's own |
| Optimize.InReport | src/optimize.rs:91-183 | which non-application suggestions appear, and under which conditions |
| Optimize.StateAdviceIff | src/optimize.rs:113-129 | unplug iff level > 80 and Charging; critically low iff level < 20 and not Charging |
| Optimize.SavingsBounds | src/optimize.rs:70-190 | savings are between 30 and 120 minutes; aggressive mode adds exactly 30 |
| Optimize.ExtrasByPriority | src/optimize.rs:144-168 | the aggressive extras are two Medium and one Low |
| Optimize.AggressiveAddsThree | src/optimize.rs:239-241 | aggressive mode adds two Medium and one Low suggestion and nothing High |

## Left out

- I/O:
  - reading the attribute files and finding the battery entry;
  - running `pmset`, `system_profiler`, `osascript` and `notify-send`;
  - printing, the alert banner and the terminal bell.
  - The parsers take the text or the file contents as parameters.
- The SQLite database: schema creation, `open`, the database path and SQL
  errors. The table is the `rows` field. Rows with equal timestamps come back
  in one order the model fixes. The SQL query leaves that order unspecified,
  so only the time order and the selection are proved about the range.
- The clock: `Utc::now()` and `Local::now()` are the parameter `now`, in whole
  seconds. `DateTime::from_timestamp` falling back to the epoch for an
  out-of-range timestamp is not modelled.
- Floating point:
  - health, averages and rates are exact reals;
  - the 80 % and 60 % thresholds are compared exactly;
  - `{:.0}` and `{:.1}` round a tie upward, which may differ from Rust's
    formatting on binary floats;
  - the power and voltage scaling and `estimate_time_remaining_linux` come in
    as the `Measurements` parameter;
  - the `f64 → u32` cast of design·pct/100 is modelled as truncation of an
    exact product, for products that fit in `u32`.
- Integer overflow panics:
  - `hours * 60 + mins` in the time parser, `num * 30` in the duration parser,
    and the `i64` minute totals are unbounded here;
  - `ParseDurationRoundTrip` requires the duration to fit in chrono's range.
- Battery.BatteryInfo.CapacityLossMah: `design as i32 - max as i32` is an
  unbounded subtraction here. With max = 2^31 and design = 0 the model gives
  Some(2^31), where Rust panics in a debug build and wraps to −2^31 in a
  release build. The ensures states the difference only below 2^31.
- History.ParseDurationStr: chrono's `Duration::hours`, `days` and `weeks`
  panic when the duration exceeds `i64::MAX` milliseconds. The model returns
  the unbounded number of seconds instead.
- chrono date parsing in `calculate_age_description`: the three date formats
  are not modelled. The report takes the day count (`ageDays`) as a parameter,
  and `AgeDescription` models the arithmetic from that count on.
- The trend's date key: the `%Y-%m-%d` string is the day number
  `timestamp div 86400`, which orders and groups the same way. A point's date
  is that day's midnight in seconds.
- Unicode: lower-casing, trimming and word splitting are ASCII-only.
- Concurrency: the `AtomicBool` is a sequence of observed values. The real
  sleeps are the step lengths `SleepInSteps` returns.
- The `sysinfo` process count in `generate_suggestions` and the
  power-report applications are parameters.
- display.rs (terminal rendering, CSV and JSON export), power.rs (sampling
  and a floating-point power split) and main.rs (argument dispatch, Ctrl-C
  handling) are not part of this model.
- MacosSource.ExtractNumberBefore: the ensures state only when a number can
  appear. The digit run it reads is characterised by `NumberBeforeRoundTrip`
  and the unit-test lemmas.
