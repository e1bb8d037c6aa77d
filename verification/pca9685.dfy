/** The PCA9685 16-channel PWM controller: its memory access checks, the
    reset and frequency sequences, and construction of a plain or a servo
    controller (clock/pca9685.py, classes PCA9685 and ServoController).
    Register layout as in sections 7.3.1, 7.3.3 and 7.3.5 of the PCA9685
    datasheet. */
module Pca9685 {
  import opened Errors
  import opened RegisterBus

  const MODE1 := 0x00
  const PRE_SCALE := 0xFE
  /** MODE1 value that puts the oscillator to sleep. */
  const SLEEP := 0x10
  /** MODE1 value with the restart, auto-increment and all-call bits. */
  const RESTART_AUTO_INCREMENT := 0xA1
  const OSCILLATOR := 25_000_000
  const MIN_FREQUENCY := 24
  const MAX_FREQUENCY := 1526
  /** The delay between clearing MODE1 and restarting, in microseconds. */
  const WAKE_DELAY := 500

  const DEFAULT_ADDRESS := 0x40
  const DEFAULT_MIN_DUTY := 180
  const DEFAULT_MAX_DUTY := 500

  /** The duty bound a pin applies before it writes: none on a plain PWM
      pin, `min(maxDuty, max(minDuty, v))` on a servo pin. */
  datatype Bound = Unbounded | Clamp(minDuty: int, maxDuty: int) {
    function Apply(v: int): (w: int)
      ensures Unbounded? ==> w == v
      ensures Clamp? && minDuty <= maxDuty ==> minDuty <= w <= maxDuty
      ensures Clamp? && minDuty <= v <= maxDuty ==> w == v
      ensures Clamp? && minDuty <= maxDuty && v < minDuty ==> w == minDuty
      ensures Clamp? && minDuty <= maxDuty && maxDuty < v ==> w == maxDuty
      ensures Clamp? && maxDuty < minDuty ==> w == maxDuty
    {
      match this
      case Unbounded => v
      case Clamp(lo, hi) => Min(hi, Max(lo, v))
    }
  }

  function Min(a: int, b: int): int { if a <= b then a else b }
  function Max(a: int, b: int): int { if a <= b then b else a }

  /** A board at a bus address. The sixteen pins all apply the board's bound. */
  datatype Controller = Controller(address: int, bound: Bound)

  type ServoController = c: Controller | c.bound.Clamp?
    witness Controller(DEFAULT_ADDRESS, Clamp(DEFAULT_MIN_DUTY, DEFAULT_MAX_DUTY))

  // ---------------------------------------------------------------------
  // Memory access

  /** `read_memory`: a single byte or an even number of bytes from `reg`. */
  function ReadMemory(bus: Bus, reg: int, length: nat): (r: Outcome<seq<Byte>>)
    ensures r.Done? <==> length == 1 || length % 2 == 0
    ensures r.Raised? ==> r.bus == bus && r.error == BadReadLength(length)
    ensures r.Done? ==> r.bus.log == bus.log + [Read(reg, length)] && r.bus.regs == bus.regs
    ensures r.Done? ==> |r.value| == length
    ensures r.Done? ==> forall k :: 0 <= k < length ==> r.value[k] == Load(bus.regs, reg + k)
  {
    if length == 1 || length % 2 == 0 then
      var (bus', data) := ReadFrom(bus, reg, length);
      Done(bus', data)
    else
      Raised(bus, BadReadLength(length))
  }

  /** The range check `write_memory` applies to a list or tuple of values,
      in order: the first value outside 0..255 is the one reported. */
  function CheckBytes(values: seq<int>): (r: Result<seq<Byte>>)
    ensures r.Success? <==> forall i :: 0 <= i < |values| ==> 0 <= values[i] < 0x100
    ensures r.Success? ==> r.value == values
    ensures r.Failure? ==>
      exists i :: 0 <= i < |values| && !(0 <= values[i] < 0x100)
        && (forall j :: 0 <= j < i ==> 0 <= values[j] < 0x100)
        && r.error == ByteOutOfRange(values[i])
    decreases |values|
  {
    if |values| == 0 then Success([])
    else if !(0 <= values[0] < 0x100) then Failure(ByteOutOfRange(values[0]))
    else
      match CheckBytes(values[1..])
      case Success(rest) => Success([values[0] as Byte] + rest)
      case Failure(e) => Failure(e)
  }

  /** `write_memory` given a list or tuple of integer values. */
  function WriteMemory(bus: Bus, reg: int, values: seq<int>): (r: Outcome<()>)
    ensures r.Done? <==> forall i :: 0 <= i < |values| ==> 0 <= values[i] < 0x100
    ensures r.Raised? ==> r.bus == bus
    ensures r.Raised? ==> r.error.ByteOutOfRange? && r.error.byte in values && !(0 <= r.error.byte < 0x100)
    ensures r.Done? ==> r.bus.log == bus.log + [Write(reg, values)]
    ensures r.Done? ==> Fetch(r.bus.regs, reg, |values|) == values
    ensures r.Done? ==> forall a :: !(reg <= a < reg + |values|) ==> Load(r.bus.regs, a) == Load(bus.regs, a)
  {
    match CheckBytes(values)
    case Failure(e) => Raised(bus, e)
    case Success(data) => Done(WriteTo(bus, reg, data), ())
  }

  /** `write_memory` given a raw byte buffer: written unchanged. */
  function WriteMemoryBytes(bus: Bus, reg: int, data: seq<Byte>): (r: Outcome<()>)
    ensures r.Done?
    ensures r.bus.log == bus.log + [Write(reg, data)]
    ensures Fetch(r.bus.regs, reg, |data|) == data
    ensures forall a :: !(reg <= a < reg + |data|) ==> Load(r.bus.regs, a) == Load(bus.regs, a)
  {
    Done(WriteTo(bus, reg, data), ())
  }

  /** `_reset`: clear MODE1. */
  function Reset(bus: Bus): (r: Outcome<()>)
    ensures r.Done?
    ensures r.bus.log == bus.log + [Write(MODE1, [0x00])]
    ensures Load(r.bus.regs, MODE1) == 0x00
    ensures forall a :: a != MODE1 ==> Load(r.bus.regs, a) == Load(bus.regs, a)
  {
    WriteMemory(bus, MODE1, [0x00])
  }

  // ---------------------------------------------------------------------
  // Frequency

  /** The prescaler the setter writes, `round(25_000_000 / (4096.0 * f))`.
      That quotient is never a half-integer (2^12 does not divide 5 * 10^7),
      and for f in 24..1526 it is further than 10^-7 from every half-integer,
      so floating-point division and Python's round give exactly the integer
      nearest to the exact quotient. */
  function Prescale(f: int): (scale: int)
    requires f > 0
    ensures 4096 * f * (2 * scale - 1) < 2 * OSCILLATOR < 4096 * f * (2 * scale + 1)
  {
    var n, d := 2 * OSCILLATOR + 4096 * f, 8192 * f;
    var s := n / d;
    assert s * d <= n < s * d + d;
    assert 4096 * f * (2 * s - 1) <= 2 * OSCILLATOR < 4096 * f * (2 * s + 1) by {
      assert s * d == 4096 * f * (2 * s);
    }
    var x := f * (2 * s - 1);
    assert 4096 * f * (2 * s - 1) == 4096 * x;
    s
  }

  /** The frequency the getter reports for a prescaler value,
      `round(25_000_000 / (4096 * (scale + 1)))`; no ties occur either. */
  function FrequencyOf(scale: Byte): (f: int)
    ensures 4096 * (scale + 1) * (2 * f - 1) < 2 * OSCILLATOR < 4096 * (scale + 1) * (2 * f + 1)
  {
    var m := scale + 1;
    var n, d := 2 * OSCILLATOR + 4096 * m, 8192 * m;
    var g := n / d;
    assert g * d <= n < g * d + d;
    assert 4096 * m * (2 * g - 1) <= 2 * OSCILLATOR < 4096 * m * (2 * g + 1) by {
      assert g * d == 4096 * m * (2 * g);
    }
    var x := m * (2 * g - 1);
    assert 4096 * m * (2 * g - 1) == 4096 * x;
    g
  }

  /** Every frequency the setter accepts gives a prescaler that fits the
      8-bit register, so the prescaler write never fails its byte check. */
  lemma PrescaleRange(f: int)
    requires MIN_FREQUENCY <= f <= MAX_FREQUENCY
    ensures 4 <= Prescale(f) <= 254
  {
    var s := Prescale(f);
    var t, u := 2 * s + 1, 2 * s - 1;
    assert 4096 * f * t == 4096 * (f * t) && 4096 * f * u == 4096 * (f * u);
    PositiveFactor(f, t);
    MulMonotone(f, MAX_FREQUENCY, t, t);
    assert t >= 9;
    MulMonotone(MIN_FREQUENCY, f, u, u);
    assert u <= 508;
  }

  lemma PositiveFactor(a: int, t: int)
    requires a > 0 && a * t > 0
    ensures t > 0
  {
  }

  lemma CancelPositive(a: int, x: int, y: int)
    requires a > 0 && a * x < a * y
    ensures x < y
  {
  }

  lemma MulMonotone(a: int, b: int, c: int, d: int)
    requires 0 <= a <= b && 0 <= c <= d
    ensures a * c <= b * d
  {
    assert a * c <= b * c;
    assert b * c <= b * d;
  }

  /** The MODE1/PRE_SCALE sequence the frequency setter issues. */
  function FrequencyTrace(scale: Byte): seq<Transaction> {
    [Write(MODE1, [SLEEP]), Write(PRE_SCALE, [scale]), Write(MODE1, [0x00]),
     Pause(WAKE_DELAY), Write(MODE1, [RESTART_AUTO_INCREMENT])]
  }

  /** The `frequency` setter: refuse a frequency outside 24..1526 Hz before
      touching the bus; otherwise sleep, write the prescaler, clear MODE1,
      wait 500 us and restart with auto-increment. */
  function SetFrequency(bus: Bus, f: int): (r: Outcome<()>)
    ensures r.Done? <==> MIN_FREQUENCY <= f <= MAX_FREQUENCY
    ensures r.Raised? ==> r.bus == bus && r.error == FrequencyOutOfRange(f)
    ensures r.Done? ==> 4 <= Prescale(f) <= 254
    ensures r.Done? ==> r.bus.log == bus.log + FrequencyTrace(Prescale(f))
    ensures r.Done? ==> Load(r.bus.regs, PRE_SCALE) == Prescale(f)
    ensures r.Done? ==> Load(r.bus.regs, MODE1) == RESTART_AUTO_INCREMENT
    ensures r.Done? ==> forall a :: a != MODE1 && a != PRE_SCALE ==> Load(r.bus.regs, a) == Load(bus.regs, a)
  {
    if !(MIN_FREQUENCY <= f <= MAX_FREQUENCY) then Raised(bus, FrequencyOutOfRange(f))
    else
      PrescaleRange(f);
      var scale := Prescale(f);
      var r1 := WriteMemory(bus, MODE1, [SLEEP]);
      if r1.Raised? then r1 else
      var r2 := WriteMemory(r1.bus, PRE_SCALE, [scale]);
      if r2.Raised? then r2 else
      var r3 := WriteMemory(r2.bus, MODE1, [0x00]);
      if r3.Raised? then r3 else
      var r4 := WriteMemory(Sleep(r3.bus, WAKE_DELAY), MODE1, [RESTART_AUTO_INCREMENT]);
      assert Load(r4.bus.regs, PRE_SCALE) == Load(r2.bus.regs, PRE_SCALE) == Fetch(r2.bus.regs, PRE_SCALE, 1)[0];
      r4
  }

  /** The `frequency` getter: read the prescaler and invert the datasheet
      formula. */
  function GetFrequency(bus: Bus): (r: Outcome<int>)
    ensures r.Done?
    ensures r.bus.log == bus.log + [Read(PRE_SCALE, 1)] && r.bus.regs == bus.regs
    ensures r.value == FrequencyOf(Load(bus.regs, PRE_SCALE))
    ensures MIN_FREQUENCY <= r.value <= 6104
  {
    var r := ReadMemory(bus, PRE_SCALE, 1);
    FrequencyRange(r.value[0]);
    Done(r.bus, FrequencyOf(r.value[0]))
  }

  lemma FrequencyRange(scale: Byte)
    ensures MIN_FREQUENCY <= FrequencyOf(scale) <= 6104
  {

  }

  /** The setter writes `round(25e6 / (4096 f))` while the getter inverts
      `scale + 1`, as the datasheet's `round(25e6 / (4096 f)) - 1` would
      need. So a frequency read back after setting never exceeds the one
      set. */
  lemma FrequencyReadBack(bus: Bus, f: int)
    requires MIN_FREQUENCY <= f <= MAX_FREQUENCY
    ensures GetFrequency(SetFrequency(bus, f).bus).value == FrequencyOf(Prescale(f))
    ensures FrequencyOf(Prescale(f)) <= f
  {
    PrescaleRange(f);
    RoundedBelow(f, Prescale(f), FrequencyOf(Prescale(f)));
  }

  /** A frequency g rounded from `scale + 1`, where the scale was rounded
      from f, is at most f. */
  lemma RoundedBelow(f: int, s: int, g: int)
    requires f > 0 && s >= 0
    requires 4096 * (s + 1) * (2 * g - 1) < 2 * OSCILLATOR < 4096 * f * (2 * s + 1)
    ensures g <= f
  {
    assert 4096 * (s + 1) * (2 * g - 1) == 4096 * ((s + 1) * (2 * g - 1));
    assert 4096 * f * (2 * s + 1) == 4096 * (f * (2 * s + 1));
    assert (s + 1) * (2 * g - 1) < f * (2 * s + 1);
    assert f * (2 * s + 1) + s + f + 1 == (s + 1) * (2 * f + 1);
    CancelPositive(s + 1, 2 * g - 1, 2 * f + 1);
  }

  /** At the top of the range the two sides disagree by a fifth. */
  lemma FrequencyReadBackAtMaximum()
    ensures Prescale(MAX_FREQUENCY) == 4 && FrequencyOf(4) == 1221
  {
  }

  // ---------------------------------------------------------------------
  // Construction

  /** `PCA9685.__init__`: a plain controller; construction resets MODE1. */
  function NewPca9685(bus: Bus, address: int): (r: Outcome<Controller>)
    ensures r.Done? && r.value == Controller(address, Unbounded)
    ensures r.bus.log == bus.log + [Write(MODE1, [0x00])]
    ensures Load(r.bus.regs, MODE1) == 0x00
    ensures forall a :: a != MODE1 ==> Load(r.bus.regs, a) == Load(bus.regs, a)
  {
    var r := Reset(bus);
    Done(r.bus, Controller(address, Unbounded))
  }

  /** `ServoController.__init__`: reset, then set the frequency. An invalid
      frequency is raised after the reset has been written. */
  function NewServoController(bus: Bus, address: int, frequency: int, minDuty: int, maxDuty: int)
    : (r: Outcome<ServoController>)
    ensures r.Done? <==> MIN_FREQUENCY <= frequency <= MAX_FREQUENCY
    ensures r.Done? ==> r.value == Controller(address, Clamp(minDuty, maxDuty))
    ensures r.Done? ==> 4 <= Prescale(frequency) <= 254
    ensures r.Done? ==> r.bus.log == bus.log + [Write(MODE1, [0x00])] + FrequencyTrace(Prescale(frequency))
    ensures r.Raised? ==> r.error == FrequencyOutOfRange(frequency)
    ensures r.Raised? ==> r.bus.log == bus.log + [Write(MODE1, [0x00])]
    ensures r.Done? ==> Load(r.bus.regs, PRE_SCALE) == Prescale(frequency)
    ensures r.Done? ==> Load(r.bus.regs, MODE1) == RESTART_AUTO_INCREMENT
    ensures r.Raised? ==> Load(r.bus.regs, MODE1) == 0x00
    ensures forall a :: a != MODE1 && a != PRE_SCALE ==> Load(r.bus.regs, a) == Load(bus.regs, a)
    ensures r.Raised? ==> Load(r.bus.regs, PRE_SCALE) == Load(bus.regs, PRE_SCALE)
  {
    var r0 := Reset(bus);
    var r1 := SetFrequency(r0.bus, frequency);
    if r1.Raised? then Raised(r1.bus, r1.error)
    else Done(r1.bus, Controller(address, Clamp(minDuty, maxDuty)))
  }
}
