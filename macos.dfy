/**
 * The command-output platform (src/battery.rs, "macOS implementation"):
 * the text of `pmset -g batt` and of `system_profiler SPPowerDataType`
 * parsed into a reading. Running the two commands is outside the model.
 */
module MacosSource {
  import opened Wrappers
  import opened MachineInts
  import opened Text
  import opened Battery

  // ---------------------------------------------------------------- the percentage

  /** The digits right before the first `delimiter`, as a `u32`. */
  function ExtractNumberBefore(s: string, delimiter: char): (r: Option<U32>)
    ensures r.Some? ==> delimiter in s
    ensures delimiter !in s ==> r.None?
  {
    match Find(s, delimiter)
    case None => None
    case Some(idx) =>
      var digits := TrailingDigits(s[..idx]);
      if digits != [] && DigitsValue(digits) < U32_LIMIT then Some(DigitsValue(digits)) else None
  }

  /**
   * A number printed right before the first delimiter is read back, whatever
   * precedes it (as long as that does not end in a digit).
   */
  lemma NumberBeforeRoundTrip(prefix: string, n: nat, delimiter: char, rest: string)
    requires n < U32_LIMIT && delimiter !in prefix && !IsDigit(delimiter)
    requires prefix == [] || !IsDigit(prefix[|prefix| - 1])
    ensures ExtractNumberBefore(prefix + NatToString(n) + [delimiter] + rest, delimiter) == Some(n)
  {
    var digits := NatToString(n);
    NotInDigits(digits, delimiter);
    var before := prefix + digits;
    FindFirst(before, delimiter, rest);
    assert prefix + digits + [delimiter] + rest == before + [delimiter] + rest;
    assert (before + [delimiter] + rest)[..|before|] == before;
    TrailingDigitsOfSuffix(prefix, digits);
    NatToStringValue(n);
  }

  /** The trailing digit run of `prefix + digits` is `digits` when `prefix` does not end in a digit. */
  lemma TrailingDigitsOfSuffix(prefix: string, digits: string)
    requires AllDigits(digits)
    requires prefix == [] || !IsDigit(prefix[|prefix| - 1])
    ensures TrailingDigits(prefix + digits) == digits
  {
    var s := prefix + digits;
    var d := TrailingDigits(s);
    assert |d| == |digits|;
    assert d == s[|prefix|..];
  }

  /** The unit-test value "87%;" gives 87. */
  lemma NumberBeforeExample()
    ensures ExtractNumberBefore("87%;", '%') == Some(87)
  {
    assert "87%;" == [] + NatToString(87) + ['%'] + ";" by {
      var digits := NatToString(87);
      assert digits == "87";
    }
    NumberBeforeRoundTrip([], 87, '%', ";");
  }

  /** The unit-test value "  100%" gives 100. */
  lemma NumberBeforeAfterSpaces()
    ensures ExtractNumberBefore("  100%", '%') == Some(100)
  {
    assert "  100%" == "  " + NatToString(100) + ['%'] + [] by {
      var digits := NatToString(100);
      assert digits == "100";
    }
    NumberBeforeRoundTrip("  ", 100, '%', []);
  }

  /** The unit-test value "abc%" gives nothing: no digit stands before the '%'. */
  lemma NumberBeforeNeedsDigits()
    ensures ExtractNumberBefore("abc%", '%') == None
  {
    FindFirst("abc", '%', "");
    assert "abc" + "%" + "" == "abc%";
    assert "abc%"[..3] == "abc";
    assert TrailingDigits("abc") == [];
  }

  // ---------------------------------------------------------------- the time remaining

  /** The words from index `i` on: the first "H:MM" word followed by the word "remaining". */
  function TimeInWords(words: seq<string>, i: nat): (r: Option<int>)
    requires i <= |words|
    decreases |words| - i
  {
    if i == |words| then None
    else if ':' in words[i] && i + 1 < |words| && words[i + 1] == "remaining" then
      var timeParts := SplitOn(words[i], ':');
      if |timeParts| == 2 then
        match (ParseI64(timeParts[0]), ParseI64(timeParts[1]))
        case (Some(hours), Some(mins)) => Some(hours * 60 + mins)
        case _ => None
      else TimeInWords(words, i + 1)
    else TimeInWords(words, i + 1)
  }

  /**
   * Minutes remaining stated on one line of `pmset` output; nothing when the
   * line says "(no estimate)" or "not charging" (compared with case).
   */
  function TimeRemainingIn(line: string): Option<int> {
    if Contains(line, "(no estimate)") || Contains(line, "not charging") then None
    else TimeInWords(Words(line), 0)
  }

  /** `extract_time_remaining`: a scan over the words of the line with early returns. */
  method ExtractTimeRemaining(line: string) returns (minutes: Option<int>)
    ensures minutes == TimeRemainingIn(line)
    ensures Contains(line, "(no estimate)") || Contains(line, "not charging") ==> minutes.None?
  {
    if Contains(line, "(no estimate)") || Contains(line, "not charging") {
      return None;
    }
    var parts := Words(line);
    var i := 0;
    while i < |parts|
      invariant 0 <= i <= |parts|
      invariant TimeInWords(parts, i) == TimeInWords(parts, 0)
    {
      var part := parts[i];
      if ':' in part && i + 1 < |parts| && parts[i + 1] == "remaining" {
        var timeParts := SplitOn(part, ':');
        if |timeParts| == 2 {
          var hours := ParseI64(timeParts[0]);
          if hours.None? {
            assert TimeInWords(parts, i).None?;
            return None;
          }
          var mins := ParseI64(timeParts[1]);
          if mins.None? {
            assert TimeInWords(parts, i).None?;
            return None;
          }
          assert TimeInWords(parts, i) == Some(hours.value * 60 + mins.value);
          return Some(hours.value * 60 + mins.value);
        }
      }
      i := i + 1;
    }
    return None;
  }

  /** The word `w` is an "H:MM" word standing before "remaining" at index `j`, worth `v` minutes. */
  ghost predicate TimeWordAt(words: seq<string>, j: int, v: int) {
    0 <= j && j + 1 < |words| && words[j + 1] == "remaining" && ':' in words[j] &&
    var parts := SplitOn(words[j], ':');
    |parts| == 2 && ParseI64(parts[0]).Some? && ParseI64(parts[1]).Some? &&
    v == ParseI64(parts[0]).value * 60 + ParseI64(parts[1]).value
  }

  /** A time found is always read from an "H:MM" word followed by "remaining". */
  lemma {:induction false} TimeFoundHasWitness(words: seq<string>, i: nat)
    requires i <= |words| && TimeInWords(words, i).Some?
    ensures exists j :: i <= j && TimeWordAt(words, j, TimeInWords(words, i).value)
    decreases |words| - i
  {
    if ':' in words[i] && i + 1 < |words| && words[i + 1] == "remaining" && |SplitOn(words[i], ':')| == 2 {
      assert TimeWordAt(words, i, TimeInWords(words, i).value);
    } else {
      TimeFoundHasWitness(words, i + 1);
    }
  }

  /** `c` is not in a string of digits when `c` is not a digit. */
  lemma NotInDigits(s: string, c: char)
    requires AllDigits(s) && !IsDigit(c)
    ensures c !in s
  {
    assert forall i :: 0 <= i < |s| ==> IsDigit(s[i]);
  }

  lemma {:induction false} SplitOnWithout(s: string, c: char)
    requires c !in s
    ensures SplitOn(s, c) == [s]
  {
    if s != [] {
      assert c !in s[1..] by { assert forall k :: 0 <= k < |s| - 1 ==> s[1..][k] == s[k + 1]; }
      SplitOnWithout(s[1..], c);
      assert [s[0]] + s[1..] == s;
    }
  }

  lemma {:induction false} SplitOnAround(a: string, c: char, b: string)
    requires c !in a && c !in b
    ensures SplitOn(a + [c] + b, c) == [a, b]
  {
    if a == [] {
      assert a + [c] + b == [c] + b;
      assert ([c] + b)[1..] == b;
      SplitOnWithout(b, c);
    } else {
      assert (a + [c] + b)[1..] == a[1..] + [c] + b;
      SplitOnAround(a[1..], c, b);
      assert [a[0]] + a[1..] == a;
    }
  }

  /** A time printed as "H:MM" and followed by "remaining" is read back as H·60 + MM minutes. */
  lemma TimeWordRoundTrip(hours: nat, mins: nat)
    requires hours <= I64_MAX && mins < 60
    ensures TimeInWords([NatToString(hours) + ":" + Pad2(mins), "remaining"], 0) == Some(hours * 60 + mins)
  {
    TimeWordFoundAt([NatToString(hours) + ":" + Pad2(mins), "remaining"], 0, hours, mins);
  }

  /** A scan that reaches an "H:MM" word followed by "remaining" returns H·60 + MM. */
  lemma TimeWordFoundAt(words: seq<string>, i: nat, hours: nat, mins: nat)
    requires hours <= I64_MAX && mins < 60
    requires i + 1 < |words| && words[i] == NatToString(hours) + ":" + Pad2(mins) && words[i + 1] == "remaining"
    ensures TimeInWords(words, i) == Some(hours * 60 + mins)
  {
    var h, m := NatToString(hours), Pad2(mins);
    NotInDigits(h, ':');
    NotInDigits(m, ':');
    SplitOnAround(h, ':', m);
    assert ':' in h + ":" + m by { assert (h + ":" + m)[|h|] == ':'; }
    ParseNatToString(hours);
    ParsePad2(mins);
  }

  /** The unit-test value: "1:23" before "remaining" is 83 minutes. */
  lemma TimeWordExample()
    ensures TimeInWords(["1:23", "remaining"], 0) == Some(83)
  {
    assert ["1:23", "remaining"] == [NatToString(1) + ":" + Pad2(23), "remaining"] by {
      var h, m := NatToString(1), Pad2(23);
      assert h == "1" && m == "23";
      assert h + ":" + m == "1:23";
    }
    TimeWordRoundTrip(1, 23);
  }

  // ---------------------------------------------------------------- the pmset scan

  datatype PmsetReading = PmsetReading(level: U8, state: ChargingState, timeRemainingMinutes: Option<int>)

  /** A line is looked at when, lower-cased, it names the internal battery or holds a '%'. */
  predicate DescribesBattery(lower: string) {
    Contains(lower, "internalbattery") || Contains(lower, "%")
  }

  /**
   * The state a lower-cased line announces, by priority: charging (but not
   * discharging or not charging), discharging, charged or finishing charge,
   * not charging; `previous` when it announces none of them.
   */
  function StateAfterLine(lower: string, previous: ChargingState): ChargingState {
    if Contains(lower, "charging") && !Contains(lower, "discharging") && !Contains(lower, "not charging") then Charging
    else if Contains(lower, "discharging") then Discharging
    else if Contains(lower, "charged") || Contains(lower, "finishing charge") then Full
    else if Contains(lower, "not charging") then NotCharging
    else previous
  }

  /** One line's effect: each field it states overwrites the earlier value. */
  function PmsetLineStep(acc: PmsetReading, line: string): (r: PmsetReading)
    ensures r.level <= 100 || r.level == acc.level
  {
    var lower := ToLower(line);
    if DescribesBattery(lower) then
      var pct := ExtractNumberBefore(line, '%');
      var level := if pct.Some? then (if pct.value < 100 then pct.value else 100) else acc.level;
      var time := TimeRemainingIn(line);
      PmsetReading(level, StateAfterLine(lower, acc.state), if time.Some? then time else acc.timeRemainingMinutes)
    else acc
  }

  /** The reading after the given lines, in order. */
  function PmsetScan(lines: seq<string>): PmsetReading {
    if lines == [] then PmsetReading(0, ChargingState.Unknown, None)
    else PmsetLineStep(PmsetScan(lines[..|lines| - 1]), lines[|lines| - 1])
  }

  /** The level read from `pmset` never exceeds 100. */
  lemma {:induction false} PmsetLevelAtMost100(lines: seq<string>)
    ensures PmsetScan(lines).level <= 100
  {
    if lines != [] {
      PmsetLevelAtMost100(lines[..|lines| - 1]);
    }
  }

  /** A later line that states a field decides it, whatever came before. */
  lemma LaterLineOverwrites(lines: seq<string>, line: string)
    requires DescribesBattery(ToLower(line))
    ensures var before, after := PmsetScan(lines), PmsetScan(lines + [line]);
            (ExtractNumberBefore(line, '%').Some? ==>
               after.level == Min100(ExtractNumberBefore(line, '%').value)) &&
            (TimeRemainingIn(line).Some? ==> after.timeRemainingMinutes == TimeRemainingIn(line)) &&
            after.state == StateAfterLine(ToLower(line), before.state)
  {
    assert (lines + [line])[..|lines|] == lines;
  }

  function Min100(pct: nat): nat {
    if pct < 100 then pct else 100
  }

  /** "H:MM" as `pmset` prints a time. */
  function TimeWord(hours: nat, mins: nat): string
    requires mins < 60
  {
    NatToString(hours) + ":" + Pad2(mins)
  }

  /** A battery line: two words of state, then "H:MM remaining". */
  function StateTimeLine(first: string, second: string, hours: nat, mins: nat): string
    requires mins < 60
  {
    first + " " + (second + " " + (TimeWord(hours, mins) + " " + "remaining"))
  }

  /**
   * The state test lower-cases the line but the time test does not: a line
   * saying "Not Charging" is a not-charging line whose time is still taken,
   * while the same line saying "not charging" has no time.
   */
  lemma TimeTestIsCaseSensitive(hours: nat, mins: nat, previous: ChargingState)
    requires hours <= I64_MAX && mins < 60
    ensures ToLower(StateTimeLine("Not", "Charging", hours, mins)) == StateTimeLine("not", "charging", hours, mins)
    ensures StateAfterLine(StateTimeLine("not", "charging", hours, mins), previous) == NotCharging
    ensures TimeRemainingIn(StateTimeLine("Not", "Charging", hours, mins)) == Some(hours * 60 + mins)
    ensures TimeRemainingIn(StateTimeLine("not", "charging", hours, mins)) == None
  {
    StateTimeLineLowered(hours, mins);
    LowerLineHasNoTime(hours, mins, previous);
    CapitalLineTime(hours, mins);
  }

  /** The lower-case line is a not-charging line, and the time test refuses it. */
  lemma LowerLineHasNoTime(hours: nat, mins: nat, previous: ChargingState)
    requires mins < 60
    ensures StateAfterLine(StateTimeLine("not", "charging", hours, mins), previous) == NotCharging
    ensures TimeRemainingIn(StateTimeLine("not", "charging", hours, mins)) == None
  {
    var lower := StateTimeLine("not", "charging", hours, mins);
    NotChargingPrefix(hours, mins);
    NotChargingState(lower, previous);
  }

  /** An "H:MM" word has only digits and the ':'. */
  lemma TimeWordChars(hours: nat, mins: nat)
    requires mins < 60
    ensures IsWord(TimeWord(hours, mins))
    ensures forall i :: 0 <= i < |TimeWord(hours, mins)| ==> IsDigit(TimeWord(hours, mins)[i]) || TimeWord(hours, mins)[i] == ':'
  {
    var h, m := NatToString(hours), Pad2(mins);
    var time := h + ":" + m;
    forall i | 0 <= i < |time| ensures IsDigit(time[i]) || time[i] == ':' {
      if i < |h| {
        assert time[i] == h[i];
      } else if i > |h| {
        assert time[i] == m[i - |h| - 1];
      }
    }
  }

  /** Lower-casing the capitalised line gives the lower-case one: the time word has no letters. */
  lemma StateTimeLineLowered(hours: nat, mins: nat)
    requires mins < 60
    ensures ToLower(StateTimeLine("Not", "Charging", hours, mins)) == StateTimeLine("not", "charging", hours, mins)
  {
    var time := TimeWord(hours, mins);
    TimeWordChars(hours, mins);
    assert ToLower(time) == time by {
      assert forall i :: 0 <= i < |time| ==> ToLower(time)[i] == time[i];
    }
    assert ToLower("Not") == "not" && ToLower("Charging") == "charging" && ToLower("remaining") == "remaining";
    ToLowerSpaced(time, "remaining");
    ToLowerSpaced("Charging", time + " " + "remaining");
    ToLowerSpaced("Not", "Charging" + " " + (time + " " + "remaining"));
  }

  /** The lower-case line starts with "not charging" and has no 'd' and no 'f'. */
  lemma NotChargingPrefix(hours: nat, mins: nat)
    requires mins < 60
    ensures "not charging" <= StateTimeLine("not", "charging", hours, mins)
    ensures var lower := StateTimeLine("not", "charging", hours, mins); 'd' !in lower && 'f' !in lower
  {
    var rest := " " + (TimeWord(hours, mins) + " " + "remaining");
    var lower := StateTimeLine("not", "charging", hours, mins);
    assert lower == ("not" + " " + "charging") + rest;
    assert "not" + " " + "charging" == "not charging";
    TimeWordChars(hours, mins);
  }

  /** A line that starts with "not charging" and has no 'd' or 'f' sets NotCharging, whatever came before. */
  lemma NotChargingState(lower: string, previous: ChargingState)
    requires "not charging" <= lower
    requires 'd' !in lower && 'f' !in lower
    ensures StateAfterLine(lower, previous) == NotCharging
  {
    NotContainsChar(lower, "discharging", 'd');
    NotContainsChar(lower, "charged", 'd');
    NotContainsChar(lower, "finishing charge", 'f');
  }

  /** The capitalised line passes the case-sensitive tests and its time is read. */
  lemma CapitalLineTime(hours: nat, mins: nat)
    requires hours <= I64_MAX && mins < 60
    ensures TimeRemainingIn(StateTimeLine("Not", "Charging", hours, mins)) == Some(hours * 60 + mins)
  {
    CapitalLineChars(hours, mins);
    var capital := StateTimeLine("Not", "Charging", hours, mins);
    NotContainsChar(capital, "(no estimate)", '(');
    NotContainsChar(capital, "not charging", 'c');
    CapitalLineWords(hours, mins);
  }

  /** The capitalised line has no '(' and no lower-case 'c'. */
  lemma CapitalLineChars(hours: nat, mins: nat)
    requires mins < 60
    ensures var capital := StateTimeLine("Not", "Charging", hours, mins); '(' !in capital && 'c' !in capital
  {
    TimeWordChars(hours, mins);
  }

  /** The words of the capitalised line give the time from its third word. */
  lemma CapitalLineWords(hours: nat, mins: nat)
    requires hours <= I64_MAX && mins < 60
    ensures TimeInWords(Words(StateTimeLine("Not", "Charging", hours, mins)), 0) == Some(hours * 60 + mins)
  {
    var time := TimeWord(hours, mins);
    TimeWordChars(hours, mins);
    assert IsWord("Not") && IsWord("Charging") && IsWord("remaining");
    WordsFour("Not", "Charging", time, "remaining");
    var words := ["Not", "Charging", time, "remaining"];
    assert ':' !in words[0] && ':' !in words[1];
    TimeWordFoundAt(words, 2, hours, mins);
  }

  // ---------------------------------------------------------------- system_profiler fields

  /** A profiler line is a match for `key` when its trimmed text starts with it and has a ':'. */
  predicate KeyLine(line: string, key: string) {
    key <= Trim(line) && ':' in Trim(line)
  }

  /** The trimmed text after the first ':' of a trimmed line. */
  function ValueAfterColon(line: string): string
    requires ':' in Trim(line)
  {
    Trim(SplitOnce(Trim(line), ':').value.1)
  }

  function ProfilerValueIn(lines: seq<string>, key: string): Option<string> {
    if lines == [] then None
    else if KeyLine(lines[0], key) then Some(ValueAfterColon(lines[0]))
    else ProfilerValueIn(lines[1..], key)
  }

  /** `extract_profiler_value`: the value on the first line that starts with `key` and has a ':'. */
  function ExtractProfilerValue(profiler: string, key: string): Option<string> {
    ProfilerValueIn(Lines(profiler), key)
  }

  /** There is a value exactly when some line matches. */
  lemma {:induction false} ProfilerValueFound(lines: seq<string>, key: string)
    ensures ProfilerValueIn(lines, key).Some? <==> exists i :: 0 <= i < |lines| && KeyLine(lines[i], key)
  {
    if lines != [] && !KeyLine(lines[0], key) {
      ProfilerValueFound(lines[1..], key);
      if exists i :: 0 <= i < |lines| && KeyLine(lines[i], key) {
        var i :| 0 <= i < |lines| && KeyLine(lines[i], key);
        assert lines[1..][i - 1] == lines[i];
      }
      if exists i :: 0 <= i < |lines[1..]| && KeyLine(lines[1..][i], key) {
        var i :| 0 <= i < |lines[1..]| && KeyLine(lines[1..][i], key);
        assert lines[i + 1] == lines[1..][i];
      }
    }
  }

  /** The value comes from the first matching line. */
  lemma {:induction false} ProfilerValueIsFirstMatch(lines: seq<string>, key: string, i: nat)
    requires i < |lines| && KeyLine(lines[i], key)
    requires forall j :: 0 <= j < i ==> !KeyLine(lines[j], key)
    ensures ProfilerValueIn(lines, key) == Some(ValueAfterColon(lines[i]))
  {
    if i > 0 {
      assert !KeyLine(lines[0], key);
      assert lines[1..][i - 1] == lines[i];
      forall j | 0 <= j < i - 1
        ensures !KeyLine(lines[1..][j], key)
      {
        assert lines[1..][j] == lines[j + 1];
      }
      ProfilerValueIsFirstMatch(lines[1..], key, i - 1);
    }
  }

  /** A line printed as "Key: value" gives back the value for that key. */
  lemma ProfilerLineRoundTrip(key: string, value: string)
    requires key != [] && ':' !in key && !IsSpace(key[0])
    requires value != [] && !IsSpace(value[0]) && !IsSpace(value[|value| - 1])
    ensures KeyLine(key + ": " + value, key)
    ensures ValueAfterColon(key + ": " + value) == value
  {
    var line := key + ": " + value;
    assert line[0] == key[0] && line[|line| - 1] == value[|value| - 1];
    TrimKeeps(line);
    assert line[..|key|] == key && line[|key|] == ':';
    assert line == key + [':'] + (" " + value);
    SplitOnceAt(key, ':', " " + value);
    TrimAfterSpace(value);
  }

  lemma TrimAfterSpace(value: string)
    requires value != [] && !IsSpace(value[0]) && !IsSpace(value[|value| - 1])
    ensures Trim(" " + value) == value
  {
    var spaced := " " + value;
    assert TrimEnd(spaced) == spaced;
    assert spaced[1..] == value;
    assert TrimStart(spaced) == TrimStart(value);
    TrimKeeps(value);
  }

  /** The condition from the profiler's label, else from the "Maximum Capacity" percentage. */
  function ProfilerCondition(conditionText: string, maxCapacityPct: Option<U32>): (r: BatteryCondition)
    ensures r != Poor
    ensures ToLower(conditionText) !in {"normal", "replace soon", "replace now", "replace", "service", "service recommended"} ==>
              (r == BatteryCondition.Unknown <==> maxCapacityPct.None?) &&
              (maxCapacityPct.Some? ==> (r == Normal <==> maxCapacityPct.value >= 80) &&
                                        (r == Replace <==> maxCapacityPct.value < 60))
  {
    match ToLower(conditionText)
    case "normal" => Normal
    case "replace soon" => Replace
    case "replace now" => Replace
    case "replace" => Replace
    case "service" => ServiceRecommended
    case "service recommended" => ServiceRecommended
    case _ =>
      match maxCapacityPct
      case Some(pct) =>
        if pct >= 80 then Normal else if pct >= 60 then ServiceRecommended else Replace
      case None => BatteryCondition.Unknown
  }

  /** A recognised label decides the condition whatever the percentage says. */
  lemma LabelBeatsPercentage(p1: Option<U32>, p2: Option<U32>)
    ensures ProfilerCondition("Normal", p1) == Normal
    ensures ProfilerCondition("Replace Soon", p1) == ProfilerCondition("Replace Soon", p2) == Replace
    ensures ProfilerCondition("Service Recommended", p1) == ServiceRecommended
  {
    assert ToLower("Normal") == "normal";
    assert ToLower("Replace Soon") == "replace soon";
    assert ToLower("Service Recommended") == "service recommended";
  }

  /**
   * The full-charge capacity: "Full Charge Capacity" when given, else the
   * design capacity scaled by the "Maximum Capacity" percentage (truncated,
   * and saturated at the `u32` limit by the cast), else the design capacity.
   */
  function MaxCapacityFromProfiler(fullCharge: Option<U32>, design: Option<U32>, pct: Option<U32>): (r: Option<U32>)
    ensures fullCharge.Some? ==> r == fullCharge
    ensures r.None? <==> fullCharge.None? && design.None?
    ensures fullCharge.None? && design.Some? && pct.None? ==> r == design
    ensures fullCharge.None? && design.Some? && pct.Some? && design.value * pct.value < 100 * U32_LIMIT ==>
              r.value * 100 <= design.value * pct.value < r.value * 100 + 100
  {
    fullCharge.Or(
      match design
      case None => None
      case Some(d) =>
        match pct
        case None => Some(d)
        case Some(p) => Some(if d * p / 100 < U32_LIMIT then d * p / 100 else U32_LIMIT - 1))
  }

  /** The profiler value of `key` with every `unit` removed, trimmed and parsed as a `u32`. */
  function ProfilerNumber(profiler: string, key: string, unit: string): Option<U32>
    requires unit != []
  {
    match ExtractProfilerValue(profiler, key)
    case Some(v) => ParseU32(Trim(RemoveAll(v, unit)))
    case None => None
  }

  /** `parse_macos_battery` as a value: the pmset reading plus the profiler fields. */
  function MacosInfo(reading: PmsetReading, profiler: string): (info: BatteryInfo)
    ensures info.level == reading.level && info.state == reading.state
    ensures info.timeRemainingMinutes == reading.timeRemainingMinutes
    ensures info.powerDrawWatts.None? && info.currentCapacityMah.None?
    ensures info.temperatureCelsius.None? && info.voltageMv.None? && info.isPresent
    ensures ExtractProfilerValue(profiler, "Cycle Count").None? ==> info.cycleCount.None?
    ensures ExtractProfilerValue(profiler, "Cycle Count").Some? ==>
              info.cycleCount == ParseU32(ExtractProfilerValue(profiler, "Cycle Count").value)
    ensures info.designCapacityMah == ProfilerNumber(profiler, "Design Capacity", "mAh")
    ensures info.maxCapacityMah == MaxCapacityFromProfiler(ProfilerNumber(profiler, "Full Charge Capacity", "mAh"),
                                                           info.designCapacityMah,
                                                           ProfilerNumber(profiler, "Maximum Capacity", "%"))
    ensures info.condition == ProfilerCondition(ExtractProfilerValue(profiler, "Condition").GetOr(""),
                                                ProfilerNumber(profiler, "Maximum Capacity", "%"))
    ensures info.manufactureDate == ExtractProfilerValue(profiler, "Manufacture Date")
  {
    var cycleCount := match ExtractProfilerValue(profiler, "Cycle Count")
                      case Some(v) => ParseU32(v)
                      case None => None;
    var maxCapacityPct := ProfilerNumber(profiler, "Maximum Capacity", "%");
    var design := ProfilerNumber(profiler, "Design Capacity", "mAh");
    var fullCharge := ProfilerNumber(profiler, "Full Charge Capacity", "mAh");
    var condition := ProfilerCondition(ExtractProfilerValue(profiler, "Condition").GetOr(""), maxCapacityPct);
    BatteryInfo(
      reading.level, reading.state, reading.timeRemainingMinutes, None,
      cycleCount, MaxCapacityFromProfiler(fullCharge, design, maxCapacityPct), design, None,
      None, None, condition, ExtractProfilerValue(profiler, "Manufacture Date"), true)
  }

  /**
   * `parse_macos_battery`: a scan over the `pmset` lines updating the level,
   * state and time, then the profiler fields. It always succeeds.
   */
  method ParseMacosBattery(pmset: string, profiler: string) returns (info: BatteryInfo)
    ensures info == MacosInfo(PmsetScan(Lines(pmset)), profiler)
    ensures info.level <= 100
  {
    var level: U8 := 0;
    var state := ChargingState.Unknown;
    var timeRemainingMinutes: Option<int> := None;
    var lines := Lines(pmset);
    for i := 0 to |lines|
      invariant PmsetReading(level, state, timeRemainingMinutes) == PmsetScan(lines[..i])
    {
      ghost var before := PmsetReading(level, state, timeRemainingMinutes);
      var line := lines[i];
      var lineLower := ToLower(line);
      if Contains(lineLower, "internalbattery") || Contains(lineLower, "%") {
        var pct := ExtractNumberBefore(line, '%');
        if pct.Some? {
          level := if pct.value < 100 then pct.value else 100;
        }
        if Contains(lineLower, "charging") && !Contains(lineLower, "discharging") && !Contains(lineLower, "not charging") {
          state := Charging;
        } else if Contains(lineLower, "discharging") {
          state := Discharging;
        } else if Contains(lineLower, "charged") || Contains(lineLower, "finishing charge") {
          state := Full;
        } else if Contains(lineLower, "not charging") {
          state := NotCharging;
        }
        var time := ExtractTimeRemaining(line);
        if time.Some? {
          timeRemainingMinutes := time;
        }
      }
      assert PmsetReading(level, state, timeRemainingMinutes) == PmsetLineStep(before, line);
      assert lines[..i + 1][..i] == lines[..i];
    }
    assert lines[..|lines|] == lines;
    PmsetLevelAtMost100(lines);
    info := MacosInfo(PmsetReading(level, state, timeRemainingMinutes), profiler);
  }
}
