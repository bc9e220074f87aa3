/** The fan half of the kernel driver: three modes under one lock, the delayed
    work that keeps the firmware from falling back after its 120 seconds, and the
    integer conversions between pwm levels and fan speeds, where a speed of zero
    means "automatic". Speeds are in hundreds of revolutions a minute, times in
    seconds. */
module FanDriver {
  import opened Basics

  type u8 = x: int | 0 <= x < 256

  const U8_MAX := 255
  const CPU_FAN := 0
  const GPU_FAN := 1
  const SPEED_AUTOMATIC: u8 := 0
  const KEEP_ALIVE_DELAY: nat := 90
  const FIRMWARE_TIMEOUT: nat := 120
  const CPU_MAX_DEFAULT: u8 := 60
  const GPU_MAX_DEFAULT: u8 := 58
  const EINVAL := 22

  datatype PwmMode = ModeMax | ModeManual | ModeAuto

  // ---- Conversions ----

  function AsU8(x: int): u8 {
    x % 256
  }

  function ClampVal(x: int, lo: int, hi: int): int {
    if x >= hi then hi else if x <= lo then lo else x
  }

  /** C's division, which drops the fraction whatever the signs. */
  function Quotient(a: int, b: int): int
    requires b != 0
  {
    if a >= 0 then (if b > 0 then a / b else -(a / -b))
    else if b > 0 then -(-a / b)
    else -a / -b
  }

  /** `fixp_linear_interpolate`: the line through two points, with its special
      cases for a flat line, a vertical one and the end points. */
  function Interpolate(x0: int, y0: int, x1: int, y1: int, x: int): int {
    if y0 == y1 || x == x0 then y0
    else if x1 == x0 || x == x1 then y1
    else y0 + Quotient((y1 - y0) * (x - x0), x1 - x0)
  }

  function RpmToPwm(rpm: u8, max: u8): u8 {
    AsU8(Interpolate(0, 0, max, U8_MAX, ClampVal(rpm, 0, max)))
  }

  function PwmToRpm(pwm: u8, max: u8): u8 {
    AsU8(Interpolate(0, 0, U8_MAX, max, ClampVal(pwm, 0, U8_MAX)))
  }

  lemma QuotientBetween(a: nat, b: nat, lo: nat, hi: nat)
    requires b > 0 && b * lo <= a < b * hi
    ensures lo <= a / b < hi
  {
    var q := a / b;
    if q < lo { MulMono(b, q + 1, lo); }
    if q >= hi { MulMono(b, hi, q); }
  }

  lemma ScaledUp(r: nat, max: nat)
    requires r < max <= 255
    ensures r <= 255 * r / max < 255
  {
    MulMono(r, max, 255);
    assert max * r <= 255 * r < max * 255;
    QuotientBetween(255 * r, max, r, 255);
  }

  lemma PwmOf(r: u8, max: u8)
    requires r <= max
    ensures RpmToPwm(r, max) == if r == max && r > 0 then 255 else if r == 0 then 0 else 255 * r / max
    ensures RpmToPwm(r, max) == 0 <==> r == 0
  {
    if 0 < r < max { ScaledUp(r, max); }
  }

  lemma ScaledDown(p: nat, max: nat)
    requires p < 255 && max <= 255
    ensures 0 <= max * p / 255 <= max
  {
    MulMono(max, p, 255);
  }

  lemma RpmOf(p: u8, max: u8)
    ensures PwmToRpm(p, max) == if p == 255 then max else max * p / 255
    ensures PwmToRpm(p, max) <= max
  {
    ScaledDown(if p == 255 then 0 else p, max);
    if max != 0 && p != 0 && p != 255 {
      assert max * p >= 0 by { MulMono(max, 0, p); }
    }
  }

  lemma FloorTwice(r: nat, max: nat)
    requires 0 < r < max <= 255
    ensures max * (255 * r / max) / 255 == if 255 * r % max == 0 then r else r - 1
  {
    var q := 255 * r / max;
    var rem := 255 * r % max;
    assert max * q == 255 * r - rem;
    if rem == 0 {
      assert (255 * r) / 255 == r;
    } else {
      assert 255 * (r - 1) <= 255 * r - rem < 255 * r;
    }
  }

  /** A speed sent through the pwm scale and back comes out exactly, or one
      hundred revolutions short; exactly when the scale divides. */
  lemma ThereAndBack(r: u8, max: u8)
    requires r <= max
    ensures PwmToRpm(RpmToPwm(r, max), max) == if max == 0 || 255 * r % max == 0 then r else r - 1
  {
    PwmOf(r, max);
    RpmOf(RpmToPwm(r, max), max);
    hide RpmToPwm, PwmToRpm;
    if 0 < r < max {
      ScaledUp(r, max);
      FloorTwice(r, max);
    } else if r == max && r > 0 {
      FullScale(max);
    }
  }

  lemma FullScale(max: nat)
    requires max > 0
    ensures 255 * max % max == 0
  {
    QuotientBetween(255 * max, max, 255, 256);
    var q := 255 * max / max;
    assert q == 255;
  }

  /** What the firmware is told for a stored level: zero is kept apart. */
  function Told(pwm: u8, max: u8): u8 {
    if pwm == SPEED_AUTOMATIC then SPEED_AUTOMATIC else PwmToRpm(pwm, max)
  }

  /** The level a write to a pwm file stores on a board with fan control. */
  function Stored(val: int, min: u8, max: u8): u8 {
    RpmToPwm(AsU8(ClampVal(PwmToRpm(AsU8(val), max), min, max)), max)
  }

  /** The level a switch to manual stores, from the measured revolutions. */
  function Measured(rpm: nat, max: u8): u8 {
    RpmToPwm(AsU8(rpm / 100), max)
  }

  /** The level is one the write path can have left: that of a speed in bounds. */
  ghost predicate InBounds(pwm: u8, min: u8, max: u8) {
    exists r: u8 :: min <= r <= max && pwm == RpmToPwm(r, max)
  }

  lemma StoredInBounds(val: int, min: u8, max: u8)
    requires min <= max
    ensures InBounds(Stored(val, min, max), min, max)
  {
    hide PwmToRpm, RpmToPwm;
    var r: u8 := AsU8(ClampVal(PwmToRpm(AsU8(val), max), min, max));
    assert min <= r <= max;
  }

  lemma ToldOf(r: u8, max: u8)
    requires r <= max
    ensures Told(RpmToPwm(r, max), max) == if max == 0 || 255 * r % max == 0 then r else r - 1
    ensures Told(RpmToPwm(r, max), max) == SPEED_AUTOMATIC <==> r == 0 || (r == 1 && 255 % max != 0)
  {
    PwmOf(r, max);
    ThereAndBack(r, max);
  }

  /** Whatever was written, the firmware is told a speed within the limits, or
      one step under the lower one. */
  lemma ToldInRange(pwm: u8, min: u8, max: u8)
    requires InBounds(pwm, min, max)
    ensures min - 1 <= Told(pwm, max) <= max
    ensures min >= 2 ==> Told(pwm, max) != SPEED_AUTOMATIC
  {
    var r: u8 :| min <= r <= max && pwm == RpmToPwm(r, max);
    ToldOf(r, max);
  }

  /** Writes never turn a fan over to the firmware by accident exactly when the
      lower limit is at least two, or is one and survives the two roundings. */
  lemma NeverAutomaticIff(min: u8, max: u8)
    requires min <= max && max > 0
    ensures (forall val: int :: Told(Stored(val, min, max), max) != SPEED_AUTOMATIC)
      <==> min >= 2 || (min == 1 && 255 % max == 0)
  {
    if min >= 2 || (min == 1 && 255 % max == 0) {
      forall val: int ensures Told(Stored(val, min, max), max) != SPEED_AUTOMATIC {
        var r: u8 := AsU8(ClampVal(PwmToRpm(AsU8(val), max), min, max));
        assert min <= r <= max;
        ToldOf(r, max);
      }
    } else {
      RpmOf(0, max);
      assert Stored(0, min, max) == RpmToPwm(min, max);
      ToldOf(min, max);
      assert Told(Stored(0, min, max), max) == SPEED_AUTOMATIC;
    }
  }

  /** A lower limit above the fan's own maximum - it is read off the other fan's
      column - pins that fan at its maximum. */
  lemma PinnedAtMaximum(val: int, min: u8, max: u8)
    requires 0 < max < min
    ensures Told(Stored(val, min, max), max) == max
  {
    RpmOf(AsU8(val), max);
    var r: u8 := AsU8(ClampVal(PwmToRpm(AsU8(val), max), min, max));
    assert r >= max;
    assert RpmToPwm(r, max) == 255;
    RpmOf(255, max);
  }

  /** The switch to manual knows no lower limit: it hands the fan to the
      firmware when the fan measured idle, and for some maxima when it measured
      one hundred revolutions. */
  lemma SwitchCollapses(rpm: nat, max: u8)
    requires max > 0
    ensures var r := Min(rpm / 100 % 256, max);
      && Told(Measured(rpm, max), max) <= max
      && (Told(Measured(rpm, max), max) == SPEED_AUTOMATIC <==> r == 0 || (r == 1 && 255 % max != 0))
  {
    var r: u8 := Min(rpm / 100 % 256, max);
    assert Measured(rpm, max) == RpmToPwm(r, max);
    ToldOf(r, max);
  }

  // ---- The device ----

  datatype Speeds = Speeds(cpu: u8, gpu: u8)

  /** What the driver and the firmware hold: `due` is when the keep-alive timer
      runs out, `triggered` when the firmware last heard the user-defined
      trigger, `maxed` whether it was last told to run the fans flat out, `sent`
      the speeds it was told, and `held` the last of those that it accepted. */
  datatype Device = Device(control: bool, min: u8, cpuMax: u8, gpuMax: u8,
                           mode: PwmMode, cpuPwm: u8, gpuPwm: u8,
                           due: Option<nat>, triggered: nat, maxed: bool, sent: seq<Speeds>, held: Option<Speeds>)

  /** The codes the firmware answers the queries of one call with, zero for
      success: the trigger and the max switch, each again on the way to
      automatic, and the speeds. */
  datatype Firmware = Firmware(trigger: int, max: int, trigger2: int, max2: int, speed: int)

  datatype Outcome = Outcome(device: Device, code: int)

  function MaxCode(rc: int, enabled: int): int {
    if rc != 0 then (if rc < 0 then rc else -EINVAL) else enabled
  }

  /** What the firmware is told for the stored levels. */
  function Levels(d: Device): Speeds {
    Speeds(Told(d.cpuPwm, d.cpuMax), Told(d.gpuPwm, d.gpuMax))
  }

  function SpeedSet(d: Device, trigger: int, max: int, speed: int, now: nat): Outcome {
    if trigger != 0 then Outcome(d, -EINVAL)
    else
      var t := d.(triggered := now);
      if MaxCode(max, 0) < 0 then Outcome(t, MaxCode(max, 0))
      else Outcome(t.(maxed := false, sent := t.sent + [Levels(t)], held := if speed == 0 then Some(Levels(t)) else t.held), speed)
  }

  function Apply(d: Device, fw: Firmware, now: nat): Outcome {
    match d.mode
    case ModeMax =>
      if d.control && fw.trigger != 0 then Outcome(d, -EINVAL)
      else
        var t := if d.control then d.(triggered := now) else d;
        if MaxCode(fw.max, 1) < 0 then Outcome(t, MaxCode(fw.max, 1))
        else Outcome(t.(maxed := true, due := Some(now + KEEP_ALIVE_DELAY)), 0)
    case ModeManual =>
      var r := SpeedSet(d, fw.trigger, fw.max, fw.speed, now);
      if r.code < 0 then r else Outcome(r.device.(due := Some(now + KEEP_ALIVE_DELAY)), 0)
    case ModeAuto =>
      if !d.control then
        if MaxCode(fw.max, 0) < 0 then Outcome(d, MaxCode(fw.max, 0)) else Outcome(d.(maxed := false, due := None), 0)
      else if fw.trigger != 0 then Outcome(d, -EINVAL)
      else
        var t := d.(triggered := now);
        if MaxCode(fw.max, 0) != 0 then Outcome(t, MaxCode(fw.max, 0))
        else
          var r := SpeedSet(t.(maxed := false, cpuPwm := SPEED_AUTOMATIC, gpuPwm := SPEED_AUTOMATIC), fw.trigger2, fw.max2, fw.speed, now);
          if r.code < 0 then r else Outcome(r.device.(due := None), 0)
  }

  /** A write to one of the driver's files. `PwmEnable` carries what the fans
      measured, negative where reading them failed. */
  datatype Request = PwmInput(channel: int, val: int) | PwmEnable(val: int, cpuRpm: int, gpuRpm: int) | Unsupported

  function WithInput(d: Device, channel: int, val: int): Device {
    if d.control then
      if channel == GPU_FAN then d.(gpuPwm := Stored(val, d.min, d.gpuMax))
      else d.(cpuPwm := Stored(val, d.min, d.cpuMax))
    else if channel == GPU_FAN then d.(gpuPwm := ClampVal(val, 0, 255))
    else d.(cpuPwm := ClampVal(val, 0, 255))
  }

  function WithManual(d: Device, cpuRpm: int, gpuRpm: int): Device {
    d.(mode := ModeManual,
       cpuPwm := if d.control && cpuRpm >= 0 then Measured(cpuRpm, d.cpuMax) else d.cpuPwm,
       gpuPwm := if d.control && gpuRpm >= 0 then Measured(gpuRpm, d.gpuMax) else d.gpuPwm)
  }

  function Written(d: Device, r: Request, fw: Firmware, now: nat): Outcome {
    match r
    case PwmInput(channel, val) => Apply(WithInput(d, channel, val), fw, now)
    case PwmEnable(val, cpuRpm, gpuRpm) =>
      if val == 0 then Apply(d.(mode := ModeMax), fw, now)
      else if val == 1 then Apply(WithManual(d, cpuRpm, gpuRpm), fw, now)
      else if val == 2 then Apply(d.(mode := ModeAuto), fw, now)
      else Outcome(d, -EINVAL)
    case Unsupported => Outcome(d, -95)
  }

  // ---- The fan table ----

  const TABLE_BYTES := 128
  const TABLE_ROWS := (TABLE_BYTES - 2) / 3

  type FanTable = data: seq<u8> | |data| == TABLE_BYTES witness seq(TABLE_BYTES, _ => 0)

  function CpuAt(data: FanTable, i: nat): u8
    requires i < TABLE_ROWS
  {
    data[2 + 3 * i]
  }

  function GpuAt(data: FanTable, i: nat): u8
    requires i < TABLE_ROWS
  {
    data[3 + 3 * i]
  }

  predicate ZeroRow(data: FanTable, i: nat)
    requires i < TABLE_ROWS
  {
    CpuAt(data, i) == 0 && GpuAt(data, i) == 0 && data[4 + 3 * i] == 0
  }

  /** The table ends at its first all-zero row, or with its last row. */
  predicate RowsEnd(data: FanTable, n: nat) {
    n <= TABLE_ROWS && (forall i: nat :: i < n ==> !ZeroRow(data, i)) && (n == TABLE_ROWS || ZeroRow(data, n))
  }

  /** Where the table's bytes are: behind two of header, 42 rows of a CPU speed, a
      GPU speed and a noise level; a row of three zeros is the all-zero one. */
  lemma TableIs(data: FanTable, i: nat)
    ensures |data| == 128 && TABLE_ROWS == 42
    ensures i < 42 ==>
      && CpuAt(data, i) == data[3 * i + 2] && GpuAt(data, i) == data[3 * i + 3]
      && (ZeroRow(data, i) <==> data[3 * i + 2] == data[3 * i + 3] == data[3 * i + 4] == 0)
  {
  }

  predicate LeastCpu(data: FanTable, n: nat, least: int)
    requires n <= TABLE_ROWS
  {
    && (forall i: nat :: i < n ==> least <= CpuAt(data, i))
    && (least == 255 || exists i: nat :: i < n && CpuAt(data, i) == least)
  }

  predicate MostCpu(data: FanTable, n: nat, most: int)
    requires n <= TABLE_ROWS
  {
    && (forall i: nat :: i < n ==> CpuAt(data, i) <= most)
    && (most == 0 || exists i: nat :: i < n && CpuAt(data, i) == most)
  }

  predicate MostGpu(data: FanTable, n: nat, most: int)
    requires n <= TABLE_ROWS
  {
    && (forall i: nat :: i < n ==> GpuAt(data, i) <= most)
    && (most == 0 || exists i: nat :: i < n && GpuAt(data, i) == most)
  }

  /** What the table gives: its limits, or nothing when it has no usable row. */
  ghost predicate LimitsFrom(data: FanTable, cpuDefault: u8, gpuDefault: u8, min: u8, cpuMax: u8, gpuMax: u8) {
    exists n: nat, least: u8, cpu: u8, gpu: u8 ::
      && RowsEnd(data, n) && LeastCpu(data, n, least) && MostCpu(data, n, cpu) && MostGpu(data, n, gpu)
      && if least == U8_MAX || (cpu == 0 && gpu == 0)
         then min == 0 && cpuMax == cpuDefault && gpuMax == gpuDefault
         else
           && min == least
           && cpuMax == (if cpu > 0 then cpu else cpuDefault)
           && gpuMax == if gpu > 0 then gpu else gpuDefault
  }

  method ReadTable(data: FanTable) returns (min: u8, cpuMax: u8, gpuMax: u8, ghost n: nat)
    ensures RowsEnd(data, n) && LeastCpu(data, n, min) && MostCpu(data, n, cpuMax) && MostGpu(data, n, gpuMax)
  {
    min, cpuMax, gpuMax := U8_MAX, 0, 0;
    var i: nat := 0;
    while i < TABLE_ROWS
      invariant i <= TABLE_ROWS && forall j: nat :: j < i ==> !ZeroRow(data, j)
      invariant LeastCpu(data, i, min) && MostCpu(data, i, cpuMax) && MostGpu(data, i, gpuMax)
    {
      var cpu := CpuAt(data, i);
      var gpu := GpuAt(data, i);
      if ZeroRow(data, i) { break; }
      if cpu < min { min := cpu; }
      if cpu > cpuMax { cpuMax := cpu; }
      if gpu > gpuMax { gpuMax := gpu; }
      i := i + 1;
    }
    n := i;
  }

  /** The lower limit never exceeds the CPU fan's maximum, whatever the table
      says; nothing of the kind holds of the GPU fan. */
  lemma LimitsFitCpu(data: FanTable, cpuDefault: u8, gpuDefault: u8, min: u8, cpuMax: u8, gpuMax: u8)
    requires LimitsFrom(data, cpuDefault, gpuDefault, min, cpuMax, gpuMax)
    ensures min <= cpuMax
  {
    var n: nat, least: u8, cpu: u8, gpu: u8 :|
      && RowsEnd(data, n) && LeastCpu(data, n, least) && MostCpu(data, n, cpu) && MostGpu(data, n, gpu)
      && if least == U8_MAX || (cpu == 0 && gpu == 0)
         then min == 0 && cpuMax == cpuDefault && gpuMax == gpuDefault
         else
           && min == least
           && cpuMax == (if cpu > 0 then cpu else cpuDefault)
           && gpuMax == if gpu > 0 then gpu else gpuDefault;
    if least < U8_MAX {
      var i: nat :| i < n && CpuAt(data, i) == least;
      assert CpuAt(data, i) <= cpu;
    }
  }

  // ---- The driver ----

  class FanDriver {
    const control: bool
    var minRpm: u8
    var cpuMaxRpm: u8
    var gpuMaxRpm: u8
    var mode: PwmMode
    var cpuPwm: u8
    var gpuPwm: u8
    var due: Option<nat>
    var triggered: nat
    var maxed: bool
    var sent: seq<Speeds>
    var held: Option<Speeds>

    function View(): Device
      reads this
    {
      Device(control, minRpm, cpuMaxRpm, gpuMaxRpm, mode, cpuPwm, gpuPwm, due, triggered, maxed, sent, held)
    }

    /** `maxCode` and `maxVal` are the answer to the max-speed query, `tableCode`
        and `data` the answer to the fan-table query. */
    constructor (control: bool, maxCode: int, maxVal: int, tableSupported: bool, tableCode: int, data: FanTable)
      ensures this.control == control && mode == ModeAuto && cpuPwm == 128 && gpuPwm == 128
      ensures due == None && triggered == 0 && !maxed && sent == [] && held == None
      ensures
        var reported := maxCode == 0 && maxVal != 0;
        var cpu: u8 := if reported then AsU8(maxVal) else 60;
        var gpu: u8 := if reported then AsU8(maxVal) else 58;
        if tableSupported && tableCode == 0 && data[0] != 0
        then LimitsFrom(data, cpu, gpu, minRpm, cpuMaxRpm, gpuMaxRpm)
        else minRpm == 0 && cpuMaxRpm == cpu && gpuMaxRpm == gpu
      ensures minRpm <= cpuMaxRpm
    {
      this.control := control;
      mode, due, triggered, maxed, sent, held := ModeAuto, None, 0, false, [], None;
      minRpm, cpuMaxRpm, gpuMaxRpm := 0, CPU_MAX_DEFAULT, GPU_MAX_DEFAULT;
      cpuPwm, gpuPwm := 128, 128;
      new;
      if maxCode == 0 && maxVal != 0 {
        cpuMaxRpm := AsU8(maxVal);
        gpuMaxRpm := AsU8(maxVal);
      }
      if tableSupported && tableCode == 0 && data[0] != 0 {
        ghost var cpuDefault, gpuDefault := cpuMaxRpm, gpuMaxRpm;
        var min, cpu, gpu, n := ReadTable(data);
        if min != U8_MAX && (cpu != 0 || gpu != 0) {
          minRpm := min;
          if cpu > 0 { cpuMaxRpm := cpu; }
          if gpu > 0 { gpuMaxRpm := gpu; }
        }
        assert LimitsFrom(data, cpuDefault, gpuDefault, minRpm, cpuMaxRpm, gpuMaxRpm);
        LimitsFitCpu(data, cpuDefault, gpuDefault, minRpm, cpuMaxRpm, gpuMaxRpm);
      }
    }

    method FanSpeedSet(trigger: int, max: int, speed: int, now: nat) returns (code: int)
      modifies this
      ensures Outcome(View(), code) == SpeedSet(old(View()), trigger, max, speed, now)
    {
      hide Told;
      var cpu := Told(cpuPwm, cpuMaxRpm);
      var gpu := Told(gpuPwm, gpuMaxRpm);
      if trigger != 0 { return -EINVAL; }
      triggered := now;
      code := MaxCode(max, 0);
      if code < 0 { return; }
      maxed := false;
      sent := sent + [Speeds(cpu, gpu)];
      code := speed;
      if code == 0 { held := Some(Speeds(cpu, gpu)); }
    }

    method ApplyFanSettings(fw: Firmware, now: nat) returns (code: int)
      modifies this
      ensures Outcome(View(), code) == Apply(old(View()), fw, now)
    {
      hide SpeedSet;
      match mode
      case ModeMax =>
        if control {
          if fw.trigger != 0 { return -EINVAL; }
          triggered := now;
        }
        code := MaxCode(fw.max, 1);
        if code < 0 { return; }
        maxed := true;
        due := Some(now + KEEP_ALIVE_DELAY);
        code := 0;
      case ModeManual =>
        code := FanSpeedSet(fw.trigger, fw.max, fw.speed, now);
        if code < 0 { return; }
        due := Some(now + KEEP_ALIVE_DELAY);
        code := 0;
      case ModeAuto =>
        if control {
          if fw.trigger != 0 { return -EINVAL; }
          triggered := now;
          code := FanSpeedMaxReset(fw, now);
        } else {
          code := MaxCode(fw.max, 0);
          if code < 0 { return; }
          maxed := false;
        }
        if code < 0 { return; }
        due := None;
        code := 0;
    }

    method FanSpeedMaxReset(fw: Firmware, now: nat) returns (code: int)
      modifies this
      ensures Outcome(View(), code) ==
        if MaxCode(fw.max, 0) != 0 then Outcome(old(View()), MaxCode(fw.max, 0))
        else SpeedSet(old(View()).(maxed := false, cpuPwm := SPEED_AUTOMATIC, gpuPwm := SPEED_AUTOMATIC), fw.trigger2, fw.max2, fw.speed, now)
    {
      code := MaxCode(fw.max, 0);
      if code != 0 { return; }
      maxed := false;
      cpuPwm, gpuPwm := SPEED_AUTOMATIC, SPEED_AUTOMATIC;
      code := FanSpeedSet(fw.trigger2, fw.max2, fw.speed, now);
    }

    method HwmonWrite(r: Request, fw: Firmware, now: nat) returns (code: int)
      modifies this
      ensures Outcome(View(), code) == Written(old(View()), r, fw, now)
    {
      hide Apply, RpmToPwm, PwmToRpm;
      match r
      case PwmInput(channel, val) =>
        if control {
          var max := if channel == GPU_FAN then gpuMaxRpm else cpuMaxRpm;
          var rpm := ClampVal(PwmToRpm(AsU8(val), max), minRpm, max);
          if channel == CPU_FAN {
            cpuPwm := RpmToPwm(AsU8(rpm), cpuMaxRpm);
          } else if channel == GPU_FAN {
            gpuPwm := RpmToPwm(AsU8(rpm), gpuMaxRpm);
          } else {
            cpuPwm := RpmToPwm(AsU8(rpm), cpuMaxRpm);
          }
        } else {
          if channel == GPU_FAN { gpuPwm := ClampVal(val, 0, 255); } else { cpuPwm := ClampVal(val, 0, 255); }
        }
        code := ApplyFanSettings(fw, now);
      case PwmEnable(val, cpuRpm, gpuRpm) =>
        if val == 0 {
          mode := ModeMax;
          code := ApplyFanSettings(fw, now);
        } else if val == 1 {
          if control {
            if cpuRpm >= 0 { cpuPwm := RpmToPwm(AsU8(cpuRpm / 100), cpuMaxRpm); }
            if gpuRpm >= 0 { gpuPwm := RpmToPwm(AsU8(gpuRpm / 100), gpuMaxRpm); }
          }
          mode := ModeManual;
          code := ApplyFanSettings(fw, now);
        } else if val == 2 {
          mode := ModeAuto;
          code := ApplyFanSettings(fw, now);
        } else {
          code := -EINVAL;
        }
      case Unsupported => code := -95;
    }

    /** The delayed work: apply again whatever is set now. */
    method KeepAlive(fw: Firmware, now: nat)
      modifies this
      ensures View() == Apply(old(View()), fw, now).device
    {
      var code := ApplyFanSettings(fw, now);
    }
  }

  // ---- Runs ----

  /** `running` is a keep-alive whose handler has started and is waiting for the
      lock; it carries the time it was due. Until it starts, work whose timer has
      run out is still pending, and so still in `due`: setting the timer again or
      cancelling it takes it back. */
  datatype World = World(device: Device, now: nat, running: Option<nat>)

  datatype Action =
    | Tick
    | Fire
    | RunKeepAlive(fw: Firmware)
    | Write(request: Request, fw: Firmware)

  /** How late delayed work may be. */
  const LATENESS: nat := 30

  predicate OnTime(t: Option<nat>, now: nat) {
    t.Some? ==> now < t.value + LATENESS
  }

  function Step(w: World, a: Action): World {
    match a
    case Tick =>
      if OnTime(w.device.due, w.now + 1) && OnTime(w.running, w.now + 1) then w.(now := w.now + 1) else w
    case Fire =>
      if w.device.due.Some? && w.device.due.value <= w.now && w.running == None
      then w.(device := w.device.(due := None), running := w.device.due) else w
    case RunKeepAlive(fw) =>
      if w.running.Some? then w.(device := Apply(w.device, fw, w.now).device, running := None) else w
    case Write(r, fw) => w.(device := Written(w.device, r, fw, w.now).device)
  }

  function Run(w: World, run: seq<Action>): World
    decreases |run|
  {
    if run == [] then w else Run(Step(w, run[0]), run[1..])
  }

  /** Once its time has come a timer's work can start, and has then left the timer;
      its run applies the settings there are and is over. Time passes unless work
      would get later than it may. */
  lemma TimersWork(w: World, fw: Firmware)
    ensures w.device.due.Some? && w.device.due.value <= w.now && w.running == None ==>
      Step(w, Fire) == World(w.device.(due := None), w.now, w.device.due)
    ensures w.running.Some? ==> Step(w, RunKeepAlive(fw)) == World(Apply(w.device, fw, w.now).device, w.now, None)
    ensures Step(w, Tick) != w <==> (forall t :: w.device.due == Some(t) || w.running == Some(t) ==> w.now + 1 < t + 30)
    ensures Step(w, Tick) != w ==> Step(w, Tick) == w.(now := w.now + 1)
  {
    hide Apply;
  }

  predicate Soon(t: Option<nat>, triggered: nat) {
    t.Some? ==> t.value <= triggered + KEEP_ALIVE_DELAY
  }

  predicate Armed(w: World) {
    w.device.due.Some? || w.running.Some?
  }

  /** Timers are never late and never set further ahead than the delay; outside
      automatic there is one. */
  ghost predicate Timely(w: World) {
    && w.device.control && w.device.triggered <= w.now
    && Soon(w.device.due, w.device.triggered) && OnTime(w.device.due, w.now)
    && Soon(w.running, w.device.triggered) && OnTime(w.running, w.now)
    && (w.device.mode != ModeAuto ==> Armed(w))
  }

  /** The step takes or leaves the device outside automatic with its one apply
      failed and no timer behind it. */
  predicate Lapses(w: World, a: Action) {
    match a
    case RunKeepAlive(fw) =>
      && w.running.Some? && w.device.due == None && w.device.mode != ModeAuto
      && Apply(w.device, fw, w.now).code < 0
    case Write(r, fw) =>
      && !Armed(w) && w.device.mode == ModeAuto && r.PwmEnable? && r.val in {0, 1}
      && Written(w.device, r, fw, w.now).code < 0
    case _ => false
  }

  /** What one apply does to the timer and the trigger. */
  lemma Applied(d: Device, fw: Firmware, now: nat)
    requires d.control
    ensures var o := Apply(d, fw, now);
      && o.code <= 0 && o.device.mode == d.mode && o.device.control
      && o.device.min == d.min && o.device.cpuMax == d.cpuMax && o.device.gpuMax == d.gpuMax
      && (o.code < 0 ==> o.device.due == d.due && o.device.triggered in {d.triggered, now})
      && (o.code == 0 ==> o.device.triggered == now && o.device.due == if d.mode == ModeAuto then None else Some(now + KEEP_ALIVE_DELAY))
  {
    hide Told;
  }

  /** When an apply returns zero: what it asked of the trigger and the switch
      succeeded and the speed query did not fail with a negative code. A
      positive one, which is the firmware's own refusal, passes for success. */
  lemma ZeroReturn(d: Device, fw: Firmware, now: nat)
    ensures Apply(d, fw, now).code == 0 <==>
      match d.mode
      case ModeMax => (d.control ==> fw.trigger == 0) && fw.max == 0
      case ModeManual => fw.trigger == 0 && fw.max == 0 && fw.speed >= 0
      case ModeAuto => fw.max == 0 && (d.control ==> fw.trigger == 0 && fw.trigger2 == 0 && fw.max2 == 0 && fw.speed >= 0)
  {
    hide Told;
  }

  /** The present levels are what the firmware runs the fans at. */
  predicate InForce(d: Device) {
    !d.maxed && d.held == Some(Levels(d))
  }

  /** What an apply that returns zero leaves in force. Maximum: flat out, with the
      levels untouched. Manual and automatic: no longer flat out, and the levels
      told, all automatic in automatic - but in force only if the firmware
      accepted them, or was running at just those before. */
  lemma AppliedInForce(d: Device, fw: Firmware, now: nat)
    requires d.control && Apply(d, fw, now).code == 0
    ensures var v := Apply(d, fw, now).device;
      && v.maxed == (d.mode == ModeMax)
      && (d.mode == ModeMax ==> v.sent == d.sent && v.held == d.held && v.cpuPwm == d.cpuPwm && v.gpuPwm == d.gpuPwm)
      && (d.mode == ModeManual ==> v.cpuPwm == d.cpuPwm && v.gpuPwm == d.gpuPwm)
      && (d.mode == ModeAuto ==> v.cpuPwm == 0 && v.gpuPwm == 0 && Levels(v) == Speeds(SPEED_AUTOMATIC, SPEED_AUTOMATIC))
      && (d.mode != ModeMax ==> v.sent == d.sent + [Levels(v)] && (InForce(v) <==> fw.speed == 0 || d.held == Some(Levels(v))))
  {
    hide PwmToRpm;
  }

  /** A zero return is no promise: any positive code from the speed query leaves the
      firmware at whatever speeds it held, and the apply reports success. */
  lemma RefusedButReported(d: Device, fw: Firmware, now: nat, rc: int)
    requires d.control && d.mode == ModeManual && rc > 0 && fw.trigger == 0 && fw.max == 0 && d.held != Some(Levels(d))
    ensures var o := Apply(d, fw.(speed := rc), now); o.code == 0 && !InForce(o.device) && o.device.held == d.held
  {
    hide Told;
  }

  // ---- What a write makes the firmware do ----

  /** What an apply that returns zero has done, on any board: maximum switches the
      fans flat out and tells no speed; manual tells the levels; automatic resets
      them and tells the automatic speed, where the board has fan control, and
      only ends maximum where it has not. The timer runs out 90 seconds later,
      and not at all in automatic. */
  lemma ModesDo(d: Device, fw: Firmware, now: nat)
    requires Apply(d, fw, now).code == 0
    ensures Apply(d, fw, now).device ==
      match d.mode
      case ModeMax => d.(maxed := true, due := Some(now + 90), triggered := if d.control then now else d.triggered)
      case ModeManual =>
        d.(maxed := false, due := Some(now + 90), triggered := now, sent := d.sent + [Levels(d)],
           held := if fw.speed == 0 then Some(Levels(d)) else d.held)
      case ModeAuto =>
        if !d.control then d.(maxed := false, due := None)
        else d.(maxed := false, due := None, triggered := now, cpuPwm := 0, gpuPwm := 0, sent := d.sent + [Speeds(0, 0)],
                held := if fw.speed == 0 then Some(Speeds(0, 0)) else d.held)
  {
    hide PwmToRpm;
  }

  /** A refusal of the trigger or the max switch is the firmware's code if that is
      negative, and -22 otherwise. */
  function Refusal(rc: int): int {
    if rc < 0 then rc else -22
  }

  /** What an apply that fails leaves, and its code: the first query that failed
      decides. Nothing is tried after it, what was done before it stays done, and
      mode, limits and timer are never touched. */
  lemma FailureLeaves(d: Device, fw: Firmware, now: nat)
    requires Apply(d, fw, now).code != 0
    ensures var automatic := d.mode == ModeAuto && d.control;
      var heard := d.(triggered := now);
      var reset := heard.(maxed := false, cpuPwm := 0, gpuPwm := 0);
      Apply(d, fw, now) ==
        if (d.control || d.mode == ModeManual) && fw.trigger != 0 then Outcome(d, -22)
        else if fw.max != 0 then Outcome(if d.control || d.mode == ModeManual then heard else d, Refusal(fw.max))
        else if automatic && fw.trigger2 != 0 then Outcome(reset, -22)
        else if automatic && fw.max2 != 0 then Outcome(reset, Refusal(fw.max2))
        else if automatic then Outcome(reset.(sent := d.sent + [Speeds(0, 0)]), fw.speed)
        else Outcome(heard.(maxed := false, sent := d.sent + [Levels(d)]), fw.speed)
    ensures Apply(d, fw, now).code < 0
  {
    hide PwmToRpm;
  }

  /** The speed a level asks for, in exact arithmetic, within the limits. */
  function Asked(level: u8, min: u8, max: u8): u8 {
    Max(min, Min(max, max * level / 255))
  }

  lemma StoredTold(val: int, min: u8, max: u8)
    requires min <= max
    ensures var r := Asked(val % 256, min, max);
      Told(Stored(val, min, max), max) == if max == 0 || 255 * r % max == 0 then r else r - 1
  {
    hide PwmToRpm, RpmToPwm, Told;
    LevelAsks(val % 256, min, max);
    ToldOf(Asked(val % 256, min, max), max);
    hide Asked;
  }

  lemma LevelAsks(level: u8, min: u8, max: u8)
    requires min <= max
    ensures ClampVal(PwmToRpm(level, max), min, max) == Asked(level, min, max)
  {
    RpmOf(level, max);
    hide PwmToRpm;
    if level == 255 { TopOfScale(max); }
  }

  lemma TopOfScale(max: nat)
    ensures max * 255 / 255 == max
  {
  }

  function ToldFan(s: Speeds, channel: int): u8 {
    if channel == 1 then s.gpu else s.cpu
  }

  /** A level written in manual, on a board with fan control. The write that
      returns zero tells the firmware both fans' speeds once. The other fan's is
      that of its present level; this fan's is `max * level / 255`, rounded down
      and brought within the limits, or one step less where the scale does not
      divide. A value beyond a byte is cut to its last eight bits. */
  lemma LevelTold(d: Device, channel: int, val: int, fw: Firmware, now: nat) returns (told: Speeds)
    requires d.control && d.mode == ModeManual && d.min <= MaxOfFan(d, channel == 1)
    requires Written(d, PwmInput(channel, val), fw, now).code == 0
    ensures Written(d, PwmInput(channel, val), fw, now).device.sent == d.sent + [told]
    ensures var max := if channel == 1 then d.gpuMax else d.cpuMax;
      var r := Max(d.min, Min(max, max * (val % 256) / 255));
      ToldFan(told, channel) == if max == 0 || 255 * r % max == 0 then r else r - 1
    ensures if channel == 1 then told.cpu == d.cpuMax * d.cpuPwm / 255 else told.gpu == d.gpuMax * d.gpuPwm / 255
  {
    LevelsTold(d);
    StoredTold(val, d.min, MaxOfFan(d, channel == 1));
    ModesDo(WithInput(d, channel, val), fw, now);
    told := Levels(WithInput(d, channel, val));
    hide Stored, Told, Apply;
  }

  lemma LevelsTold(d: Device)
    ensures Levels(d) == Speeds(d.cpuMax * d.cpuPwm / 255, d.gpuMax * d.gpuPwm / 255)
  {
    LevelIsTold(d.cpuPwm, d.cpuMax);
    LevelIsTold(d.gpuPwm, d.gpuMax);
  }

  /** Outside automatic a written level is kept, whether or not it could be
      applied: told later, it is told as in `LevelTold`. */
  lemma LevelKept(d: Device, channel: int, val: int, fw: Firmware, now: nat)
    requires d.control && d.mode != ModeAuto && d.min <= MaxOfFan(d, channel == 1)
    ensures var v := Written(d, PwmInput(channel, val), fw, now).device;
      var max := if channel == 1 then d.gpuMax else d.cpuMax;
      var r := Max(d.min, Min(max, max * (val % 256) / 255));
      && max * PwmOfFan(v, channel == 1) / 255 == (if max == 0 || 255 * r % max == 0 then r else r - 1)
      && PwmOfFan(v, channel != 1) == PwmOfFan(d, channel != 1)
  {
    StoredTold(val, d.min, MaxOfFan(d, channel == 1));
    var e := WithInput(d, channel, val);
    LevelIsTold(PwmOfFan(e, channel == 1), MaxOfFan(d, channel == 1));
    LevelsStay(e, fw, now);
    hide Stored, Told, Apply;
  }

  lemma LevelsStay(d: Device, fw: Firmware, now: nat)
    requires d.mode != ModeAuto
    ensures Apply(d, fw, now).device.cpuPwm == d.cpuPwm && Apply(d, fw, now).device.gpuPwm == d.gpuPwm
  {
    hide Told;
  }

  lemma AskedRises(a: u8, b: u8, min: u8, max: u8)
    requires a <= b && min <= max
    ensures Asked(a, min, max) <= Asked(b, min, max)
  {
    MulMono(max, a, b);
    QuotientRises(max * a, max * b);
  }

  /** What rounding twice makes of a speed. */
  function Rounded(r: int, max: u8): int {
    if max == 0 || 255 * r % max == 0 then r else r - 1
  }

  lemma OwnTold(d: Device, channel: int, level: u8, fw: Firmware, now: nat)
    requires d.control && d.mode == ModeManual && d.min <= MaxOfFan(d, channel == 1)
    requires Written(d, PwmInput(channel, level), fw, now).code == 0
    ensures var sent, max := Written(d, PwmInput(channel, level), fw, now).device.sent, MaxOfFan(d, channel == 1);
      && |sent| == |d.sent| + 1
      && ToldFan(sent[|d.sent|], channel) == Rounded(Max(d.min, Min(max, max * level / 255)), max)
  {
    var told := LevelTold(d, channel, level, fw, now);
    hide Written;
  }

  lemma AskedOrder(a: u8, b: u8, min: u8, max: u8)
    requires a <= b && min <= max
    ensures var low, high := Max(min, Min(max, max * a / 255)), Max(min, Min(max, max * b / 255));
      && Rounded(low, max) <= Rounded(high, max)
      && (b == 255 ==> Rounded(high, max) == max)
      && (a == 0 ==> min - 1 <= Rounded(low, max) <= min)
  {
    AskedRises(a, b, min, max);
    TopOfScale(max);
    if max > 0 { FullScale(max); }
  }

  lemma QuotientRises(a: nat, b: nat)
    requires a <= b
    ensures a / 255 <= b / 255
  {
  }

  /** Over the whole scale the speed told never falls as the level rises; the top
      of the scale tells the maximum, and the bottom the lower limit or one less. */
  lemma LevelRises(d: Device, channel: int, a: int, b: int, fw: Firmware, now: nat)
    requires d.control && d.mode == ModeManual && d.min <= MaxOfFan(d, channel == 1) && 0 <= a <= b <= 255
    requires Written(d, PwmInput(channel, a), fw, now).code == 0 == Written(d, PwmInput(channel, b), fw, now).code
    ensures var max := if channel == 1 then d.gpuMax else d.cpuMax;
      var sentA, sentB := Written(d, PwmInput(channel, a), fw, now).device.sent, Written(d, PwmInput(channel, b), fw, now).device.sent;
      && |sentA| == |sentB| == |d.sent| + 1
      && ToldFan(sentA[|d.sent|], channel) <= ToldFan(sentB[|d.sent|], channel)
      && (b == 255 ==> ToldFan(sentB[|d.sent|], channel) == max)
      && (a == 0 ==> d.min - 1 <= ToldFan(sentA[|d.sent|], channel) <= d.min)
  {
    hide Written, Asked, Rounded;
    OwnTold(d, channel, a, fw, now);
    OwnTold(d, channel, b, fw, now);
    AskedOrder(a, b, d.min, MaxOfFan(d, channel == 1));
  }

  /** The switch to manual takes up the measured speeds: what it tells a fan that
      could be measured is that speed in whole hundreds, cut to a byte and at most
      the maximum, or one less; a fan that could not be measured keeps its level. */
  lemma SwitchTells(d: Device, cpuRpm: int, gpuRpm: int, fw: Firmware, now: nat) returns (told: Speeds)
    requires d.control && Written(d, PwmEnable(1, cpuRpm, gpuRpm), fw, now).code == 0
    ensures var v := Written(d, PwmEnable(1, cpuRpm, gpuRpm), fw, now).device;
      v.sent == d.sent + [told] && v.mode == ModeManual && v.due == Some(now + 90) && !v.maxed
    ensures var r := Min(cpuRpm / 100 % 256, d.cpuMax);
      told.cpu == if cpuRpm < 0 then d.cpuMax * d.cpuPwm / 255 else if d.cpuMax == 0 || 255 * r % d.cpuMax == 0 then r else r - 1
    ensures var r := Min(gpuRpm / 100 % 256, d.gpuMax);
      told.gpu == if gpuRpm < 0 then d.gpuMax * d.gpuPwm / 255 else if d.gpuMax == 0 || 255 * r % d.gpuMax == 0 then r else r - 1
  {
    LevelsTold(d);
    if cpuRpm >= 0 { MeasuredTold(cpuRpm, d.cpuMax); }
    if gpuRpm >= 0 { MeasuredTold(gpuRpm, d.gpuMax); }
    var e := WithManual(d, cpuRpm, gpuRpm);
    ModesDo(e, fw, now);
    told := Levels(e);
    hide Measured, Told, Apply;
  }

  lemma MeasuredTold(rpm: nat, max: u8)
    ensures var r := Min(rpm / 100 % 256, max);
      Told(Measured(rpm, max), max) == if max == 0 || 255 * r % max == 0 then r else r - 1
  {
    var r: u8 := Min(rpm / 100 % 256, max);
    assert Measured(rpm, max) == RpmToPwm(r, max);
    ToldOf(r, max);
  }

  /** Boards without fan control keep the level as written, cut off at both ends
      of the scale, and know neither limit nor measured speeds: in manual they are
      told `max * level / 255`. */
  lemma LegacyWrites(d: Device, channel: int, val: int, fw: Firmware, now: nat)
    requires !d.control
    ensures var v := Written(d, PwmInput(channel, val), fw, now).device;
      var level := Max(0, Min(val, 255));
      v.cpuPwm == (if channel == 1 then d.cpuPwm else level) && v.gpuPwm == if channel == 1 then level else d.gpuPwm
    ensures var o := Written(d, PwmInput(channel, val), fw, now);
      d.mode == ModeManual && o.code == 0 ==>
        && |o.device.sent| == |d.sent| + 1
        && ToldFan(o.device.sent[|d.sent|], channel) == MaxOfFan(d, channel == 1) * Max(0, Min(val, 255)) / 255
  {
    var e := WithInput(d, channel, val);
    LegacyLevels(e, fw, now);
    if d.mode == ModeManual && Apply(e, fw, now).code == 0 {
      LevelIsTold(Max(0, Min(val, 255)), MaxOfFan(d, channel == 1));
      ModesDo(e, fw, now);
    }
    hide Told, Apply;
  }

  lemma LegacyLevels(d: Device, fw: Firmware, now: nat)
    requires !d.control
    ensures Apply(d, fw, now).device.cpuPwm == d.cpuPwm && Apply(d, fw, now).device.gpuPwm == d.gpuPwm
  {
    hide Told;
  }

  /** And a switch of the mode leaves their levels alone. */
  lemma LegacySwitch(d: Device, val: int, cpuRpm: int, gpuRpm: int, fw: Firmware, now: nat)
    requires !d.control
    ensures var v := Written(d, PwmEnable(val, cpuRpm, gpuRpm), fw, now).device;
      v.cpuPwm == d.cpuPwm && v.gpuPwm == d.gpuPwm
  {
    hide Apply, Measured;
    LegacyLevels(d.(mode := ModeMax), fw, now);
    LegacyLevels(d.(mode := ModeManual), fw, now);
    LegacyLevels(d.(mode := ModeAuto), fw, now);
  }

  lemma LevelIsTold(level: u8, max: u8)
    ensures Told(level, max) == max * level / 255
  {
    RpmOf(level, max);
    TopOfScale(max);
  }

  function ModeOf(val: int): Option<PwmMode> {
    if val == 0 then Some(ModeMax) else if val == 1 then Some(ModeManual) else if val == 2 then Some(ModeAuto) else None
  }

  /** A write moves the mode exactly as asked, even when applying it fails; an
      unknown mode and every other write leave it, and a level write leaves the
      other fan's level but for what automatic resets. */
  lemma WriteMoves(d: Device, r: Request, fw: Firmware, now: nat)
    requires d.control
    ensures var v := Written(d, r, fw, now).device;
      && v.mode == (if r.PwmEnable? && ModeOf(r.val).Some? then ModeOf(r.val).value else d.mode)
      && (r.PwmInput? && d.mode != ModeAuto ==> if r.channel == GPU_FAN then v.cpuPwm == d.cpuPwm else v.gpuPwm == d.gpuPwm)
      && (r.Unsupported? ==> v == d && Written(d, r, fw, now).code == -95)
      && (r.PwmEnable? && ModeOf(r.val) == None ==> v == d && Written(d, r, fw, now).code == -22)
  {
    hide Told, Stored, Measured;
  }

  lemma ApplyKeepsTimely(w: World, d: Device, fw: Firmware, running: Option<nat>)
    requires Timely(w) && d.control && d.due == w.device.due && d.triggered == w.device.triggered
    requires running in {None, w.running}
    requires d.mode != ModeAuto && Apply(d, fw, w.now).code < 0 ==> d.due.Some? || running.Some?
    ensures Timely(World(Apply(d, fw, w.now).device, w.now, running))
  {
    Applied(d, fw, w.now);
    hide Apply;
  }

  lemma StepKeepsTimely(w: World, a: Action)
    requires Timely(w) && !Lapses(w, a)
    ensures Timely(Step(w, a))
  {
    hide Apply, WithInput, WithManual;
    match a
    case Tick =>
    case Fire =>
    case RunKeepAlive(fw) =>
      if w.running.Some? { ApplyKeepsTimely(w, w.device, fw, None); }
    case Write(r, fw) => WriteKeepsTimely(w, r, fw);
  }

  lemma WithInputFrame(d: Device, channel: int, val: int)
    ensures var e := WithInput(d, channel, val);
      e == d.(cpuPwm := e.cpuPwm, gpuPwm := e.gpuPwm)
  {
    hide Stored;
  }

  lemma WriteKeepsTimely(w: World, r: Request, fw: Firmware)
    requires Timely(w) && !Lapses(w, Write(r, fw))
    ensures Timely(w.(device := Written(w.device, r, fw, w.now).device))
  {
    hide Apply, Measured, WithInput;
    match r
    case PwmInput(channel, val) =>
      WithInputFrame(w.device, channel, val);
      ApplyKeepsTimely(w, WithInput(w.device, channel, val), fw, w.running);
    case PwmEnable(val, cpuRpm, gpuRpm) =>
      if val == 0 { ApplyKeepsTimely(w, w.device.(mode := ModeMax), fw, w.running); }
      if val == 1 { ApplyKeepsTimely(w, WithManual(w.device, cpuRpm, gpuRpm), fw, w.running); }
      if val == 2 { ApplyKeepsTimely(w, w.device.(mode := ModeAuto), fw, w.running); }
    case Unsupported =>
  }

  ghost predicate NoLapse(w: World, run: seq<Action>)
    decreases |run|
  {
    run != [] ==> !Lapses(w, run[0]) && NoLapse(Step(w, run[0]), run[1..])
  }

  lemma {:induction false} RunKeepsTimely(w: World, run: seq<Action>)
    requires Timely(w) && NoLapse(w, run)
    ensures Timely(Run(w, run))
    decreases |run|
  {
    hide Step, Lapses, Timely;
    if run != [] {
      StepKeepsTimely(w, run[0]);
      RunKeepsTimely(Step(w, run[0]), run[1..]);
    }
  }

  /** A board that has just been set up: automatic, with no timer. */
  predicate Fresh(w: World) {
    w.device.control && w.device.mode == ModeAuto && w.device.due == None && w.running == None && w.device.triggered <= w.now
  }

  /** Timed safety: while the fans are in maximum or manual, the firmware has
      heard the trigger less than its timeout ago - at every moment of every run
      in which no apply fails with nothing behind it. */
  lemma KeptAlive(w: World, run: seq<Action>)
    requires Fresh(w) && NoLapse(w, run)
    ensures var v := Run(w, run);
      v.device.mode != ModeAuto ==> v.now - v.device.triggered < 120
  {
    assert Timely(w);
    RunKeepsTimely(w, run);
    hide Run;
  }

  function Ticks(n: nat): (r: seq<Action>)
    ensures |r| == n && forall i :: 0 <= i < n ==> r[i] == Tick
  {
    if n == 0 then [] else [Tick] + Ticks(n - 1)
  }

  lemma {:induction false} UnarmedTicks(w: World, n: nat)
    requires !Armed(w)
    ensures Run(w, Ticks(n)) == w.(now := w.now + n)
    decreases n
  {
    if n > 0 {
      UnarmedTicks(w.(now := w.now + 1), n - 1);
      assert Ticks(n)[1..] == Ticks(n - 1);
    }
  }

  lemma {:induction false} TicksDontLapse(w: World, n: nat)
    ensures NoLapse(w, Ticks(n))
    decreases n
  {
    if n > 0 {
      TicksDontLapse(Step(w, Tick), n - 1);
      assert Ticks(n)[1..] == Ticks(n - 1);
    }
  }

  lemma LapseDisarms(w: World, a: Action)
    requires Timely(w) && Lapses(w, a)
    ensures !Armed(Step(w, a)) && Step(w, a).device.mode != ModeAuto && Step(w, a).device.triggered <= Step(w, a).now
  {
    hide Apply, Measured;
    match a
    case RunKeepAlive(fw) => Applied(w.device, fw, w.now);
    case Write(r, fw) =>
      if r.val == 0 { Applied(w.device.(mode := ModeMax), fw, w.now); }
      if r.val == 1 { Applied(WithManual(w.device, r.cpuRpm, r.gpuRpm), fw, w.now); }
  }

  /** The condition is exact: from a timely state, a step can be followed by an
      idle wait that lets the firmware time out if and only if it lapses. */
  lemma LapseIffTimeout(w: World, a: Action)
    requires Timely(w)
    ensures Lapses(w, a) <==> exists n: nat :: var v := Run(Step(w, a), Ticks(n));
      v.device.mode != ModeAuto && v.now - v.device.triggered >= 120
  {
    hide Step, Lapses;
    if Lapses(w, a) {
      LapseDisarms(w, a);
      UnarmedTicks(Step(w, a), FIRMWARE_TIMEOUT);
    } else {
      StepKeepsTimely(w, a);
      forall n: nat ensures Timely(Run(Step(w, a), Ticks(n))) {
        TicksDontLapse(Step(w, a), n);
        RunKeepsTimely(Step(w, a), Ticks(n));
      }
      hide Run;
    }
  }

  // ---- Applies that succeed ----

  predicate Succeeds(w: World, a: Action) {
    match a
    case RunKeepAlive(fw) => Apply(w.device, fw, w.now).code == 0
    case Write(r, fw) => (r.PwmInput? || (r.PwmEnable? && r.val in {0, 1, 2})) ==> Written(w.device, r, fw, w.now).code == 0
    case _ => true
  }

  ghost predicate AllSucceed(w: World, run: seq<Action>)
    decreases |run|
  {
    run != [] ==> Succeeds(w, run[0]) && AllSucceed(Step(w, run[0]), run[1..])
  }

  /** Automatic with no timer pending; a keep-alive may still be on its way. */
  predicate Calm(w: World) {
    w.device.control && (w.device.mode == ModeAuto ==> w.device.due == None)
  }

  lemma SuccessKeepsCalm(w: World, a: Action)
    requires Calm(w) && Succeeds(w, a)
    ensures Calm(Step(w, a)) && !Lapses(w, a)
  {
    hide Apply, Measured, WithInput;
    match a
    case Tick =>
    case Fire =>
    case RunKeepAlive(fw) => Applied(w.device, fw, w.now);
    case Write(r, fw) =>
      match r
      case PwmInput(channel, val) =>
        WithInputFrame(w.device, channel, val);
        Applied(WithInput(w.device, channel, val), fw, w.now);
      case PwmEnable(val, cpuRpm, gpuRpm) =>
        Applied(w.device.(mode := ModeMax), fw, w.now);
        Applied(WithManual(w.device, cpuRpm, gpuRpm), fw, w.now);
        Applied(w.device.(mode := ModeAuto), fw, w.now);
      case Unsupported =>
  }

  lemma {:induction false} SuccessRuns(w: World, run: seq<Action>)
    requires Calm(w) && AllSucceed(w, run)
    ensures Calm(Run(w, run)) && NoLapse(w, run)
    decreases |run|
  {
    hide Step, Lapses, Calm, Succeeds;
    if run != [] {
      SuccessKeepsCalm(w, run[0]);
      SuccessRuns(Step(w, run[0]), run[1..]);
    }
  }

  /** When every apply succeeds, the firmware never times out, and automatic
      means that no timer is pending; a keep-alive still under way then ends
      without setting one, whether its own apply succeeds or fails. */
  lemma SuccessIsSafe(w: World, run: seq<Action>, fw: Firmware)
    requires Fresh(w) && AllSucceed(w, run)
    ensures var v := Run(w, run);
      && (v.device.mode != ModeAuto ==> v.now - v.device.triggered < 120)
      && (v.device.mode == ModeAuto ==>
            v.device.due == None && !Armed(Step(v, RunKeepAlive(fw))) && Step(v, RunKeepAlive(fw)).device.mode == ModeAuto)
  {
    SuccessRuns(w, run);
    KeptAlive(w, run);
    var v := Run(w, run);
    hide Run, Apply;
    Applied(v.device, fw, v.now);
  }

  /** Once calm in automatic, nothing but a write of the mode ends it: timers,
      late keep-alives and level writes leave it so, whatever the firmware says. */
  lemma AutomaticStays(w: World, a: Action)
    requires Calm(w) && w.device.mode == ModeAuto && !(a.Write? && a.request.PwmEnable?)
    ensures Calm(Step(w, a)) && Step(w, a).device.mode == ModeAuto
  {
    hide Apply, WithInput;
    match a
    case RunKeepAlive(fw) => Applied(w.device, fw, w.now);
    case Write(r, fw) =>
      if r.PwmInput? {
        WithInputFrame(w.device, r.channel, r.val);
        Applied(WithInput(w.device, r.channel, r.val), fw, w.now);
      }
    case _ =>
  }

  /** A keep-alive that gets the lock after a mode change re-applies what is set
      by then: it never moves the mode or the limits, and outside automatic it
      moves no level and tells the firmware nothing but the present ones. */
  lemma KeepAliveReapplies(w: World, fw: Firmware)
    requires w.running.Some? && w.device.control
    ensures var v := Step(w, RunKeepAlive(fw)).device; var d := w.device;
      && v.mode == d.mode && v.min == d.min && v.cpuMax == d.cpuMax && v.gpuMax == d.gpuMax
      && (d.mode != ModeAuto ==> v.cpuPwm == d.cpuPwm && v.gpuPwm == d.gpuPwm)
      && (v.sent == d.sent || v.sent == d.sent + [Levels(v)])
  {
    hide Told;
  }

  // ---- Speeds sent over a run ----

  function PwmOfFan(d: Device, gpu: bool): u8 {
    if gpu then d.gpuPwm else d.cpuPwm
  }

  function MaxOfFan(d: Device, gpu: bool): u8 {
    if gpu then d.gpuMax else d.cpuMax
  }

  function SpeedOfFan(s: Speeds, gpu: bool): u8 {
    if gpu then s.gpu else s.cpu
  }

  /** At least one under `low`, at most `max`, and not automatic by accident. */
  predicate SpeedFits(speed: u8, low: u8, max: u8) {
    low - 1 <= speed <= max && (low >= 2 ==> speed != SPEED_AUTOMATIC)
  }

  /** Whatever is stored, a fan is told at most its maximum. */
  lemma AnyLevelFits(pwm: u8, max: u8)
    ensures SpeedFits(Told(pwm, max), 0, max)
  {
    RpmOf(pwm, max);
  }

  /** A written level tells at least one under the lower limit, or under the fan's
      own maximum where the limit is above that. */
  lemma StoredFits(val: int, min: u8, max: u8, low: u8)
    requires low <= min && low <= max
    ensures SpeedFits(Told(Stored(val, min, max), max), low, max)
  {
    hide Stored, InBounds, PwmToRpm, RpmToPwm;
    if min <= max {
      StoredInBounds(val, min, max);
      ToldInRange(Stored(val, min, max), min, max);
    } else if max == 0 {
      RpmOf(Stored(val, min, max), max);
    } else {
      PinnedAtMaximum(val, min, max);
    }
  }

  ghost predicate FanFits(d: Device, gpu: bool, low: u8) {
    && d.control && d.mode == ModeManual && low <= d.min && low <= MaxOfFan(d, gpu)
    && SpeedFits(Told(PwmOfFan(d, gpu), MaxOfFan(d, gpu)), low, MaxOfFan(d, gpu))
  }

  predicate SameLimits(d: Device, e: Device) {
    d.min == e.min && d.cpuMax == e.cpuMax && d.gpuMax == e.gpuMax
  }

  /** A step tells the fan nothing, or one speed that fits. */
  ghost predicate TellsFit(d: Device, e: Device, gpu: bool, low: u8) {
    && SameLimits(d, e) && FanFits(e, gpu, low)
    && (e.sent == d.sent || exists s :: SpeedFits(SpeedOfFan(s, gpu), low, MaxOfFan(d, gpu)) && e.sent == d.sent + [s])
  }

  lemma ManualApply(d: Device, gpu: bool, low: u8, fw: Firmware, now: nat)
    requires FanFits(d, gpu, low)
    ensures TellsFit(d, Apply(d, fw, now).device, gpu, low)
  {
    hide Told, SpeedFits;
    assert SpeedFits(SpeedOfFan(Levels(d), gpu), low, MaxOfFan(d, gpu));
  }

  /** A level write, to this fan or the other, leaves this one fitting. */
  lemma InputFits(d: Device, gpu: bool, low: u8, channel: int, val: int)
    requires FanFits(d, gpu, low)
    ensures FanFits(WithInput(d, channel, val), gpu, low) && SameLimits(d, WithInput(d, channel, val))
    ensures WithInput(d, channel, val).sent == d.sent
  {
    StoredFits(val, d.min, MaxOfFan(d, gpu), low);
    hide Told, Stored, SpeedFits;
  }

  /** And a write to this fan brings it within the limits, wherever it was. */
  lemma WriteFits(d: Device, channel: int, val: int, low: u8)
    requires d.control && d.mode == ModeManual && low <= d.min && low <= MaxOfFan(d, channel == GPU_FAN)
    ensures FanFits(WithInput(d, channel, val), channel == GPU_FAN, low)
  {
    StoredFits(val, d.min, MaxOfFan(d, channel == GPU_FAN), low);
    hide Told, Stored, SpeedFits;
  }

  predicate LevelsOnly(a: Action) {
    a.Write? ==> !a.request.PwmEnable?
  }

  lemma ManualStep(w: World, a: Action, gpu: bool, low: u8)
    requires FanFits(w.device, gpu, low) && LevelsOnly(a)
    ensures TellsFit(w.device, Step(w, a).device, gpu, low)
  {
    hide Apply, WithInput, SpeedFits, Told;
    match a
    case RunKeepAlive(fw) => ManualApply(w.device, gpu, low, fw, w.now);
    case Write(r, fw) =>
      if r.PwmInput? {
        InputFits(w.device, gpu, low, r.channel, r.val);
        ManualApply(WithInput(w.device, r.channel, r.val), gpu, low, fw, w.now);
      }
    case _ =>
  }

  /** Everything told since `sent` fits this fan. */
  ghost predicate Extends(sent: seq<Speeds>, d: Device, gpu: bool, low: u8) {
    && |sent| <= |d.sent| && d.sent[..|sent|] == sent
    && (forall i :: |sent| <= i < |d.sent| ==> SpeedFits(SpeedOfFan(d.sent[i], gpu), low, MaxOfFan(d, gpu)))
  }

  /** Over any run of level writes, keep-alives and waiting in manual, on any
      board and for each fan on its own: every speed the fan is told lies between
      one under `low` and its maximum, and is never the automatic one once `low`
      is at least two. After a write to the fan `low` is the lower limit, or the
      fan's own maximum if that is less; before one it is zero. */
  lemma {:induction false} ManualRun(w: World, run: seq<Action>, gpu: bool, low: u8, sent: seq<Speeds>)
    requires FanFits(w.device, gpu, low) && Extends(sent, w.device, gpu, low)
    requires forall i :: 0 <= i < |run| ==> LevelsOnly(run[i])
    ensures Extends(sent, Run(w, run).device, gpu, low)
    decreases |run|
  {
    hide FanFits, Step, SpeedFits;
    if run != [] {
      ManualStep(w, run[0], gpu, low);
      ManualRun(Step(w, run[0]), run[1..], gpu, low, sent);
    }
  }

  /** Any board in manual, whatever its levels, may start such a run with `low` at
      zero. */
  lemma ManualStarts(w: World, gpu: bool)
    requires w.device.control && w.device.mode == ModeManual
    ensures FanFits(w.device, gpu, 0) && Extends(w.device.sent, w.device, gpu, 0)
  {
    AnyLevelFits(PwmOfFan(w.device, gpu), MaxOfFan(w.device, gpu));
    hide Told;
  }
}
