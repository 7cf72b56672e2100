/**
 * The canonical battery reading and the quantities derived from it
 * (src/battery.rs): health, capacity loss, remaining cycles, the
 * time-remaining text, and the shared condition rule.
 */
module Battery {
  import opened Wrappers
  import opened MachineInts
  import opened Text

  datatype ChargingState = Charging | Discharging | Full | NotCharging | Unknown {
    /** The state's display name. */
    function Name(): string {
      match this
      case Charging => "Charging"
      case Discharging => "Discharging"
      case Full => "Full"
      case NotCharging => "Not Charging"
      case Unknown => "Unknown"
    }
  }

  datatype BatteryCondition = Normal | Replace | ServiceRecommended | Poor | Unknown {
    /** The condition's display name. */
    function Name(): string {
      match this
      case Normal => "Normal"
      case Replace => "Replace"
      case ServiceRecommended => "Service Recommended"
      case Poor => "Poor"
      case Unknown => "Unknown"
    }

    /** How bad the condition is, for comparing two assessed conditions. */
    function Severity(): nat {
      match this
      case Normal => 0
      case ServiceRecommended => 1
      case Replace => 2
      case Poor => 3
      case Unknown => 4
    }
  }

  /**
   * One reading. Absent data is `None`, never zero; only the level has a
   * default (0). Floating-point fields are exact reals here.
   */
  datatype BatteryInfo = BatteryInfo(
    level: U8,
    state: ChargingState,
    timeRemainingMinutes: Option<int>,
    powerDrawWatts: Option<real>,
    cycleCount: Option<U32>,
    maxCapacityMah: Option<U32>,
    designCapacityMah: Option<U32>,
    currentCapacityMah: Option<U32>,
    temperatureCelsius: Option<real>,
    voltageMv: Option<real>,
    condition: BatteryCondition,
    manufactureDate: Option<string>,
    isPresent: bool)
  {
    /** Full-charge capacity as a percentage of the design capacity. */
    function HealthPercent(): (r: Option<real>)
      ensures r.Some? <==> maxCapacityMah.Some? && designCapacityMah.Some? && designCapacityMah.value > 0
      ensures r.Some? ==> r.value >= 0.0 && r.value * designCapacityMah.value as real == maxCapacityMah.value as real * 100.0
    {
      match (maxCapacityMah, designCapacityMah)
      case (Some(max), Some(design)) =>
        if design > 0 then Some(max as real / design as real * 100.0) else None
      case _ => None
    }

    /**
     * Design minus full-charge capacity, each read as `i32`; negative when the
     * battery holds more than its design.
     */
    function CapacityLossMah(): (r: Option<int>)
      ensures r.Some? <==> maxCapacityMah.Some? && designCapacityMah.Some?
      ensures r.Some? && maxCapacityMah.value < I32_LIMIT && designCapacityMah.value < I32_LIMIT ==>
                r.value == designCapacityMah.value - maxCapacityMah.value
    {
      match (maxCapacityMah, designCapacityMah)
      case (Some(max), Some(design)) => Some(U32AsI32(design) - U32AsI32(max))
      case _ => None
    }

    /** Cycles left of a nominal 1000-cycle life, never below zero. */
    function EstimatedRemainingCycles(): (r: Option<U32>)
      ensures r.Some? <==> cycleCount.Some?
      ensures r.Some? ==> 0 <= r.value <= 1000
      ensures r.Some? && cycleCount.value <= 1000 ==> r.value + cycleCount.value == 1000
      ensures r.Some? && cycleCount.value >= 1000 ==> r.value == 0
    {
      match cycleCount
      case Some(c) => Some(if c >= 1000 then 0 else 1000 - c)
      case None => None
    }

    /** "{h}h {mm}m", or "{m}m" under an hour; "Calculating..." when unknown or negative. */
    function TimeRemainingDisplay(): (r: string)
      ensures r == "Calculating..." <==> timeRemainingMinutes.None? || timeRemainingMinutes.value < 0
    {
      match timeRemainingMinutes
      case Some(mins) =>
        if mins >= 0 then
          var hours := mins / 60;
          var remainingMins := mins % 60;
          var text := if hours > 0 then NatToString(hours) + "h " + Pad2(remainingMins) + "m"
                      else NatToString(remainingMins) + "m";
          assert text[|text| - 1] != "Calculating..."[13];
          text
        else "Calculating..."
      case None => "Calculating..."
    }
  }

  /**
   * Reads a time-remaining text back into minutes: the inverse of
   * `TimeRemainingDisplay` on the minutes it can show.
   */
  function ReadTimeDisplay(text: string): Option<int> {
    if text == [] || text[|text| - 1] != 'm' then None
    else
      var body := text[..|text| - 1];
      match SplitOnce(body, ' ')
      case None =>
        if body != [] && AllDigits(body) then Some(DigitsValue(body)) else None
      case Some((h, mm)) =>
        if |h| >= 2 && h[|h| - 1] == 'h' && AllDigits(h[..|h| - 1]) && |mm| == 2 && AllDigits(mm)
        then Some(DigitsValue(h[..|h| - 1]) * 60 + DigitsValue(mm))
        else None
  }

  /** The display shows exactly the known, non-negative minutes: reading it back recovers them. */
  lemma TimeDisplayRoundTrip(info: BatteryInfo)
    ensures ReadTimeDisplay(info.TimeRemainingDisplay()) ==
              if info.timeRemainingMinutes.Some? && info.timeRemainingMinutes.value >= 0
              then info.timeRemainingMinutes else None
  {
    var text := info.TimeRemainingDisplay();
    match info.timeRemainingMinutes
    case None =>
      assert text[|text| - 1] == '.';
    case Some(mins) =>
      if mins < 0 {
        assert text[|text| - 1] == '.';
      } else if mins < 60 {
        MinutesDisplayRoundTrip(mins);
      } else {
        var hours, minutes := mins / 60, mins % 60;
        assert hours * 60 + minutes == mins;
        assert text == NatToString(hours) + "h " + Pad2(minutes) + "m";
        HoursDisplayRoundTrip(hours, minutes);
      }
  }

  lemma MinutesDisplayRoundTrip(mins: nat)
    ensures ReadTimeDisplay(NatToString(mins) + "m") == Some(mins)
  {
    var digits := NatToString(mins);
    var text := digits + "m";
    assert text[..|text| - 1] == digits;
    assert ' ' !in digits by { assert forall i :: 0 <= i < |digits| ==> IsDigit(digits[i]); }
    NatToStringValue(mins);
  }

  lemma HoursDisplayRoundTrip(hours: nat, minutes: nat)
    requires hours > 0 && minutes < 60
    ensures ReadTimeDisplay(NatToString(hours) + "h " + Pad2(minutes) + "m") == Some(hours * 60 + minutes)
  {
    var digits := NatToString(hours);
    var h := digits + "h";
    var mm := Pad2(minutes);
    var text := NatToString(hours) + "h " + Pad2(minutes) + "m";
    assert text[..|text| - 1] == h + " " + mm;
    assert ' ' !in h by { assert forall i :: 0 <= i < |digits| ==> IsDigit(h[i]); }
    SplitOnceAt(h, ' ', mm);
    assert h[..|h| - 1] == digits;
    NatToStringValue(hours);
    Pad2Value(minutes);
  }


  /**
   * The shared condition rule: the health ratio when both capacities are
   * known (and Unknown, whatever the cycle count, when the design is 0);
   * otherwise the cycle count; otherwise Unknown.
   */
  function DetermineCondition(maxCap: Option<U32>, designCap: Option<U32>, cycleCount: Option<U32>): (r: BatteryCondition)
    ensures r != Poor
    ensures maxCap.Some? && designCap.Some? && designCap.value > 0 ==>
              (r == Normal <==> 100 * maxCap.value >= 80 * designCap.value) &&
              (r == ServiceRecommended <==> 60 * designCap.value <= 100 * maxCap.value < 80 * designCap.value) &&
              (r == Replace <==> 100 * maxCap.value < 60 * designCap.value)
  {
    if maxCap.Some? && designCap.Some? then
      var max, design := maxCap.value, designCap.value;
      if design == 0 then BatteryCondition.Unknown
      else
        var health := max as real / design as real * 100.0;
        HealthThresholds(max, design);
        if health >= 80.0 then Normal
        else if health >= 60.0 then ServiceRecommended
        else Replace
    else if cycleCount.Some? then
      var cycles := cycleCount.value;
      if cycles < 800 then Normal
      else if cycles < 1000 then ServiceRecommended
      else Replace
    else BatteryCondition.Unknown
  }

  /** The percentage thresholds restated on whole milliamp-hours. */
  lemma HealthThresholds(max: nat, design: nat)
    requires design > 0
    ensures var health := max as real / design as real * 100.0;
            (health >= 80.0 <==> 100 * max >= 80 * design) &&
            (health >= 60.0 <==> 100 * max >= 60 * design)
  {
    var health := max as real / design as real * 100.0;
    RatioThreshold(max as real, design as real, 80.0);
    RatioThreshold(max as real, design as real, 60.0);
    assert (100 * max) as real == max as real * 100.0;
    assert (80 * design) as real == 80.0 * design as real;
    assert (60 * design) as real == 60.0 * design as real;
  }

  lemma RatioThreshold(m: real, d: real, t: real)
    requires d > 0.0
    ensures m / d * 100.0 >= t <==> m * 100.0 >= t * d
  {
    var health := m / d * 100.0;
    assert health * d == m * 100.0;
    if health >= t {
      ScaleLe(t, health, d);
    } else {
      ScaleLe(health, t, d);
    }
  }

  lemma ScaleLe(a: real, b: real, d: real)
    requires a <= b && d > 0.0
    ensures a * d <= b * d
  {
  }

  /** Unknown exactly when the design is 0 beside a known maximum, or when nothing is known. */
  lemma ConditionUnknownCases(maxCap: Option<U32>, designCap: Option<U32>, cycleCount: Option<U32>)
    ensures DetermineCondition(maxCap, designCap, cycleCount) == BatteryCondition.Unknown <==>
              (maxCap.Some? && designCap.Some? && designCap.value == 0) ||
              ((maxCap.None? || designCap.None?) && cycleCount.None?)
  {
  }

  /** With both capacities known the cycle count is never consulted. */
  lemma ConditionIgnoresCyclesWithCapacities(max: U32, design: U32, c1: Option<U32>, c2: Option<U32>)
    ensures DetermineCondition(Some(max), Some(design), c1) == DetermineCondition(Some(max), Some(design), c2)
  {
  }

  /** A capacity missing: the cycle count alone decides (800 / 1000). */
  lemma ConditionFromCycles(maxCap: Option<U32>, designCap: Option<U32>, cycles: U32)
    requires maxCap.None? || designCap.None?
    ensures var r := DetermineCondition(maxCap, designCap, Some(cycles));
            (r == Normal <==> cycles < 800) &&
            (r == ServiceRecommended <==> 800 <= cycles < 1000) &&
            (r == Replace <==> cycles >= 1000)
  {
  }

  /** Less full-charge capacity never gives a better condition. */
  lemma ConditionMonotoneInCapacity(lo: U32, hi: U32, design: U32, cycles: Option<U32>)
    requires lo <= hi && design > 0
    ensures DetermineCondition(Some(lo), Some(design), cycles).Severity() >=
            DetermineCondition(Some(hi), Some(design), cycles).Severity()
  {
  }

  /** More cycles never give a better condition when the cycle count decides. */
  lemma ConditionMonotoneInCycles(maxCap: Option<U32>, designCap: Option<U32>, fewer: U32, more: U32)
    requires maxCap.None? || designCap.None?
    requires fewer <= more
    ensures DetermineCondition(maxCap, designCap, Some(more)).Severity() >=
            DetermineCondition(maxCap, designCap, Some(fewer)).Severity()
  {
  }

  /** The reading used by the program's own unit tests. */
  function SampleInfo(): BatteryInfo {
    BatteryInfo(87, Charging, Some(83), Some(15.2), Some(47), Some(4215), Some(4500), Some(3667),
                Some(32.0), Some(12400.0), Normal, Some("2024-03-15"), true)
  }

  /** The unit-test values: health about 93.67, loss 285, 953 cycles left, "1h 23m". */
  lemma SampleDerivedValues()
    ensures var h := SampleInfo().HealthPercent(); h.Some? && 93.57 < h.value < 93.77
    ensures SampleInfo().CapacityLossMah() == Some(285)
    ensures SampleInfo().EstimatedRemainingCycles() == Some(953)
    ensures SampleInfo().TimeRemainingDisplay() == "1h 23m"
  {
    assert NatToString(1) == "1";
    assert Pad2(23) == "23";
  }

  /** The condition rule's unit-test values. */
  lemma ConditionExamples()
    ensures DetermineCondition(Some(4500), Some(5000), None) == Normal
    ensures DetermineCondition(Some(3500), Some(5000), None) == ServiceRecommended
    ensures DetermineCondition(Some(2000), Some(5000), None) == Replace
    ensures DetermineCondition(Some(4500), Some(0), Some(10)) == BatteryCondition.Unknown
  {
  }
}
