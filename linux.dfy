/**
 * The attribute-file platform (src/battery.rs, "Linux implementation"),
 * with the file system replaced by the contents of the entry's attribute
 * files. Power, voltage, temperature and the time-remaining estimate are
 * floating-point computations and come in as `Measurements`.
 */
module LinuxSource {
  import opened Wrappers
  import opened MachineInts
  import opened Text
  import opened Battery

  /** The readable attribute files of the battery entry: file name to contents. */
  type SysfsFiles = map<string, string>

  /** `read_sysfs_string`: the trimmed contents, if the file can be read. */
  function ReadString(files: SysfsFiles, name: string): (r: Option<string>)
    ensures r.Some? <==> name in files
  {
    if name in files then Some(Trim(files[name])) else None
  }

  /** `read_sysfs_u32`: the trimmed contents parsed as a `u32`, if both succeed. */
  function ReadU32(files: SysfsFiles, name: string): (r: Option<U32>)
    ensures r.Some? <==> name in files && ParseU32(Trim(files[name])).Some?
    ensures r.Some? ==> exists d :: (Trim(files[name]) == d || Trim(files[name]) == "+" + d) &&
                                    d != [] && AllDigits(d) && DigitsValue(d) == r.value
  {
    if name in files then ParseU32(Trim(files[name])) else None
  }

  /** A number the kernel prints, followed by a line break, is read back. */
  lemma ReadU32Printed(files: SysfsFiles, name: string, n: nat)
    requires n < U32_LIMIT
    ensures ReadU32(files[name := NatToString(n) + "\n"], name) == Some(n)
  {
    var digits := NatToString(n);
    assert Trim(digits + "\n") == digits by {
      assert (digits + "\n")[..|digits|] == digits;
      assert TrimEnd(digits + "\n") == TrimEnd(digits);
      assert IsDigit(digits[0]) && IsDigit(digits[|digits| - 1]);
      TrimKeeps(digits);
    }
    ParseNatToString(n);
  }

  /** The level: `capacity` cast with `as u8` (the low eight bits, no clamp), 0 if unreadable. */
  function LinuxLevel(files: SysfsFiles): (level: U8)
    ensures ReadU32(files, "capacity").None? ==> level == 0
    ensures ReadU32(files, "capacity").Some? ==> level == ReadU32(files, "capacity").value % 256
  {
    TruncateToU8(ReadU32(files, "capacity").GetOr(0))
  }

  /** The lower-cased, trimmed status text mapped to a state. */
  function StatusToState(status: string): ChargingState {
    match status
    case "charging" => Charging
    case "discharging" => Discharging
    case "full" => Full
    case "not charging" => NotCharging
    case _ => ChargingState.Unknown
  }

  /** The charging state from the `status` file, compared without case or surrounding space. */
  function LinuxState(files: SysfsFiles): (state: ChargingState)
    ensures "status" !in files ==> state == ChargingState.Unknown
  {
    StatusToState(ToLower(Trim(ReadString(files, "status").GetOr(""))))
  }

  /** The words the kernel writes to `status` for each known state. */
  function KernelStatus(state: ChargingState): string {
    match state
    case Charging => "Charging"
    case Discharging => "Discharging"
    case Full => "Full"
    case NotCharging => "Not charging"
    case Unknown => "Unknown"
  }

  /** A status word without surrounding space, followed by a line break, is read as that word lower-cased. */
  lemma ReadsStatusWord(word: string)
    requires word != [] && !IsSpace(word[0]) && !IsSpace(word[|word| - 1])
    ensures LinuxState(map["status" := word + "\n"]) == StatusToState(ToLower(word))
  {
    assert (word + "\n")[..|word|] == word;
    assert Trim(word + "\n") == word;
  }

  /** Every state the kernel reports is recognised from its file, line break included. */
  lemma StatusRoundTrip(state: ChargingState)
    ensures LinuxState(map["status" := KernelStatus(state) + "\n"]) == state
  {
    ReadsStatusWord(KernelStatus(state));
    KernelWordsLowered(state);
  }

  lemma KernelWordsLowered(state: ChargingState)
    ensures StatusToState(ToLower(KernelStatus(state))) == state
  {
    match state
    case Charging => assert ToLower("Charging") == "charging";
    case Discharging => assert ToLower("Discharging") == "discharging";
    case Full => assert ToLower("Full") == "full";
    case NotCharging => assert ToLower("Not charging") == "not charging";
    case Unknown => assert ToLower("Unknown") == "unknown";
  }

  /** The status is read without regard to letter case. */
  lemma StatusIgnoresCase(files: SysfsFiles)
    requires "status" in files
    ensures LinuxState(files) == LinuxState(files["status" := ToLower(files["status"])])
  {
    var raw := files["status"];
    var lowered := files["status" := ToLower(raw)];
    var t := Trim(Trim(raw));
    var u := Trim(Trim(ToLower(raw)));
    assert ReadString(lowered, "status") == Some(Trim(ToLower(raw)));
    assert LinuxState(lowered) == StatusToState(ToLower(u));
    assert u == ToLower(t) by {
      TrimLower(raw);
      TrimLower(Trim(raw));
    }
    LowerTwice(t);
  }

  datatype Capacities = Capacities(maxCap: Option<U32>, designCap: Option<U32>, currentCap: Option<U32>)

  /** A micro-unit reading in milli-units, truncated (`v / 1000`). */
  function Milli(v: Option<U32>): (r: Option<U32>)
    ensures r.Some? <==> v.Some?
    ensures r.Some? ==> r.value * 1000 <= v.value < r.value * 1000 + 1000
  {
    match v
    case Some(x) => Some(x / 1000)
    case None => None
  }

  /**
   * The charge family (`charge_full`, `charge_full_design`, `charge_now`) when
   * `charge_full` is readable, else the energy family; micro-units to milli-units.
   */
  function SelectCapacities(files: SysfsFiles): (r: Capacities)
    ensures var family := if ReadU32(files, "charge_full").Some? then "charge" else "energy";
            r == Capacities(Milli(ReadU32(files, family + "_full")),
                            Milli(ReadU32(files, family + "_full_design")),
                            Milli(ReadU32(files, family + "_now")))
  {
    assert "charge" + "_full" == "charge_full" && "energy" + "_full" == "energy_full";
    assert "charge" + "_full_design" == "charge_full_design" && "energy" + "_full_design" == "energy_full_design";
    assert "charge" + "_now" == "charge_now" && "energy" + "_now" == "energy_now";
    var chargeFull := ReadU32(files, "charge_full");
    if chargeFull.Some? then
      Capacities(Milli(chargeFull), Milli(ReadU32(files, "charge_full_design")), Milli(ReadU32(files, "charge_now")))
    else
      Capacities(Milli(ReadU32(files, "energy_full")), Milli(ReadU32(files, "energy_full_design")),
                 Milli(ReadU32(files, "energy_now")))
  }

  /** Values the program computes in floating point, supplied from outside the model. */
  datatype Measurements = Measurements(
    powerDrawWatts: Option<real>,
    temperatureCelsius: Option<real>,
    voltageMv: Option<real>,
    timeRemainingMinutes: Option<int>)

  /** `get_battery_info_linux` once the battery entry is found. */
  function LinuxInfo(files: SysfsFiles, measured: Measurements): (info: BatteryInfo)
    ensures info.level == LinuxLevel(files) && info.state == LinuxState(files)
    ensures var caps := SelectCapacities(files);
            info.maxCapacityMah == caps.maxCap && info.designCapacityMah == caps.designCap &&
            info.currentCapacityMah == caps.currentCap
    ensures info.cycleCount == ReadU32(files, "cycle_count")
    ensures info.condition == DetermineCondition(info.maxCapacityMah, info.designCapacityMah, info.cycleCount)
    ensures info.manufactureDate == ReadString(files, "manufacture_date")
    ensures info.isPresent
  {
    var caps := SelectCapacities(files);
    var cycles := ReadU32(files, "cycle_count");
    BatteryInfo(
      LinuxLevel(files), LinuxState(files), measured.timeRemainingMinutes, measured.powerDrawWatts,
      cycles, caps.maxCap, caps.designCap, caps.currentCap,
      measured.temperatureCelsius, measured.voltageMv,
      DetermineCondition(caps.maxCap, caps.designCap, cycles),
      ReadString(files, "manufacture_date"), true)
  }

  /** A `capacity` of 300 gives level 44: the cast truncates, it does not clamp to 100. */
  lemma LevelIsTruncatedNotClamped()
    ensures LinuxLevel(map["capacity" := "300\n"]) == 44
  {
    assert map["capacity" := "300\n"] == map[]["capacity" := NatToString(300) + "\n"] by {
      var digits := NatToString(300);
      assert digits == "300";
      assert digits + "\n" == "300\n";
    }
    ReadU32Printed(map[], "capacity", 300);
  }
}
