/** One of the sixteen PWM channels of a PCA9685 (clock/pca9685.py, classes
    PWMPin and ServoPin). A pin owns a 4-byte register window
    (ON_L, ON_H, OFF_L, OFF_H), section 7.3.3 of the PCA9685 datasheet,
    and converts a logical duty into an on/off count pair, using the
    dedicated full-off encoding `(0, 4096)` and full-on encoding `(4096, 0)`
    at the two ends. */
module PwmPins {
  import opened Errors
  import opened RegisterBus
  import opened Pca9685

  const LED0 := 0x06
  const PIN_COUNT := 16
  /** The count whose bit 12 marks a channel as fully on or fully off. */
  const FULL := 4096
  const MAX_DUTY := 4095

  type PinIndex = i: int | 0 <= i < PIN_COUNT

  /** The first register of pin `p`'s window, `0x06 + 4 * p`. */
  function PinRegister(p: PinIndex): (a: int)
    ensures LED0 <= a && a + 4 <= LED0 + 4 * PIN_COUNT
    ensures (a - LED0) % 4 == 0 && (a - LED0) / 4 == p
  {
    LED0 + 4 * p
  }

  /** A pin is its channel index and the duty bound of its board: a plain
      `PWMPin` carries `Unbounded`, a `ServoPin` its controller's clamp. */
  datatype Pin = Pin(index: PinIndex, bound: Bound) {
    function Address(): int {
      PinRegister(index)
    }
  }

  /** The controller's `pins` list. */
  function Pins(c: Controller): (pins: seq<Pin>)
    ensures |pins| == PIN_COUNT
    ensures forall i :: 0 <= i < PIN_COUNT ==> pins[i].index == i && pins[i].bound == c.bound
  {
    seq(PIN_COUNT, i requires 0 <= i < PIN_COUNT => Pin(i, c.bound))
  }

  predicate InWindow(p: PinIndex, a: int) {
    PinRegister(p) <= a < PinRegister(p) + 4
  }

  /** Distinct pins own disjoint register windows, all within 0x06..0x45. */
  lemma WindowsDisjoint(p: PinIndex, q: PinIndex, a: int)
    requires p != q
    ensures !(InWindow(p, a) && InWindow(q, a))
    ensures InWindow(p, a) ==> 0x06 <= a <= 0x45
  {
  }

  // ---------------------------------------------------------------------
  // Count packing, `ustruct.pack("<2H", on, off)` and its inverse

  predicate IsCount(x: int) { 0 <= x < 0x1_0000 }

  function Pack(on: int, off: int): (data: seq<Byte>)
    requires IsCount(on) && IsCount(off)
    ensures |data| == 4
    ensures Unpack(data) == (on, off)
  {
    [on % 0x100, on / 0x100, off % 0x100, off / 0x100]
  }

  function Unpack(data: seq<Byte>): (counts: (int, int))
    requires |data| == 4
    ensures IsCount(counts.0) && IsCount(counts.1)
  {
    (data[0] as int + 0x100 * data[1] as int, data[2] as int + 0x100 * data[3] as int)
  }

  /** Packing is also a left inverse: every 4-byte window is the packing of
      the counts it holds. */
  lemma PackUnpack(data: seq<Byte>)
    requires |data| == 4
    ensures Pack(Unpack(data).0, Unpack(data).1) == data
  {
  }

  /** The counts `set_pwm` accepts. */
  predicate ValidPwm(on: int, off: int) {
    0 <= on <= MAX_DUTY && 0 <= off <= FULL
  }

  /** The `pwm` getter: the window's bytes read as two little-endian counts. */
  function GetPwm(pin: Pin, bus: Bus): (r: Outcome<(int, int)>)
    ensures r.Done?
    ensures r.bus.log == bus.log + [Read(pin.Address(), 4)] && r.bus.regs == bus.regs
    ensures IsCount(r.value.0) && IsCount(r.value.1)
    ensures Pack(r.value.0, r.value.1) == Fetch(bus.regs, pin.Address(), 4)
  {
    var r := ReadMemory(bus, pin.Address(), 4);
    PackUnpack(r.value);
    Done(r.bus, Unpack(r.value))
  }

  /** `set_pwm`: refuse counts outside on in 0..4095, off in 0..4096 before
      writing; otherwise write the packed counts as raw bytes. */
  function SetPwm(pin: Pin, bus: Bus, on: int, off: int): (r: Outcome<()>)
    ensures r.Done? <==> ValidPwm(on, off)
    ensures r.Raised? ==> r.bus == bus && r.error == InvalidPwm(on, off)
    ensures r.Done? ==> r.bus.log == bus.log + [Write(pin.Address(), Pack(on, off))]
    ensures r.Done? ==> Fetch(r.bus.regs, pin.Address(), 4) == Pack(on, off)
    ensures r.Done? ==> forall a :: !InWindow(pin.index, a) ==> Load(r.bus.regs, a) == Load(bus.regs, a)
  {
    if ValidPwm(on, off) then WriteMemoryBytes(bus, pin.Address(), Pack(on, off))
    else Raised(bus, InvalidPwm(on, off))
  }

  // ---------------------------------------------------------------------
  // Duty

  /** The counts the duty setter asks for, after any bound is applied. */
  function EncodeDuty(v: int): (counts: (int, int))
    ensures ValidPwm(counts.0, counts.1) <==> 0 <= v <= FULL && v != MAX_DUTY
    ensures DecodeDuty(counts.0, counts.1) == if v == FULL then 0 else v
  {
    if v == 0 then (0, FULL)
    else if v == MAX_DUTY then (FULL, 0)
    else (0, v)
  }

  /** The bytes the duty setter writes for a bounded duty (none when the
      duty is refused). */
  function PackedDuty(w: int): seq<Byte> {
    if DutyAccepted(w) then Pack(EncodeDuty(w).0, EncodeDuty(w).1) else []
  }

  /** The duty the getter reports for a pair of counts. */
  function DecodeDuty(on: int, off: int): int {
    if on == 0 && off == FULL then 0
    else if on == FULL && off == 0 then MAX_DUTY
    else off
  }

  /** The duties the setter accepts once bounded: 4095 is not one of them,
      because its full-on encoding `(4096, 0)` fails `set_pwm`'s check. */
  predicate DutyAccepted(w: int) {
    0 <= w <= FULL && w != MAX_DUTY
  }

  /** The `duty` getter. */
  function GetDuty(pin: Pin, bus: Bus): (r: Outcome<int>)
    ensures r.Done?
    ensures r.bus.log == bus.log + [Read(pin.Address(), 4)] && r.bus.regs == bus.regs
    ensures 0 <= r.value < 0x1_0000
    ensures var (on, off) := Unpack(Fetch(bus.regs, pin.Address(), 4));
      r.value == DecodeDuty(on, off)
  {
    var r := GetPwm(pin, bus);
    Done(r.bus, DecodeDuty(r.value.0, r.value.1))
  }

  /** The `duty` setter: bound the value (identity on a plain pin, clamp on
      a servo pin), then write its on/off encoding through `set_pwm`. */
  function SetDuty(pin: Pin, bus: Bus, v: int): (r: Outcome<()>)
    ensures var w := pin.bound.Apply(v);
      && (r.Done? <==> DutyAccepted(w))
      && (r.Raised? ==> r.bus == bus && r.error == InvalidPwm(EncodeDuty(w).0, EncodeDuty(w).1))
      && (r.Done? ==> r.bus.log == bus.log + [Write(pin.Address(), PackedDuty(w))])
    ensures r.Done? ==> Fetch(r.bus.regs, pin.Address(), 4) == PackedDuty(pin.bound.Apply(v))
    ensures r.Done? ==> forall a :: !InWindow(pin.index, a) ==> Load(r.bus.regs, a) == Load(bus.regs, a)
  {
    var w := pin.bound.Apply(v);
    var (on, off) := EncodeDuty(w);
    SetPwm(pin, bus, on, off)
  }

  /** Setting a duty and reading it back gives the bounded value, except
      that 4096 is written as full-off and so reads back as 0. */
  lemma DutyRoundTrip(pin: Pin, bus: Bus, v: int)
    requires SetDuty(pin, bus, v).Done?
    ensures var w := pin.bound.Apply(v);
      GetDuty(pin, SetDuty(pin, bus, v).bus).value == if w == FULL then 0 else w
  {
    var w := pin.bound.Apply(v);
    var (on, off) := EncodeDuty(w);
    var r := SetDuty(pin, bus, v);
    assert r == SetPwm(pin, bus, on, off);
    assert Fetch(r.bus.regs, pin.Address(), 4) == Pack(on, off);
  }

  /** A plain pin: duty 0 writes full-off, 1..4094 write `(0, v)`, and 4095
      is refused with no write, because `(4096, 0)` fails `set_pwm`. */
  lemma PlainPinDuty(pin: Pin, bus: Bus, v: int)
    requires pin.bound.Unbounded?
    ensures v == 0 ==> SetDuty(pin, bus, v) == Done(WriteTo(bus, pin.Address(), Pack(0, FULL)), ())
    ensures 1 <= v <= 4094 ==> SetDuty(pin, bus, v) == Done(WriteTo(bus, pin.Address(), Pack(0, v)), ())
    ensures v == MAX_DUTY ==> SetDuty(pin, bus, v) == Raised(bus, InvalidPwm(FULL, 0))
  {
  }

  /** A full-on window reads back as the top duty. */
  lemma FullOnReadsAsMaxDuty(pin: Pin, bus: Bus)
    requires Fetch(bus.regs, pin.Address(), 4) == Pack(FULL, 0)
    ensures GetDuty(pin, bus).value == MAX_DUTY
  {
  }

  // ---------------------------------------------------------------------
  // The servo bound

  /** Clamping twice is clamping once. */
  lemma ClampIdempotent(b: Bound, v: int)
    ensures b.Apply(b.Apply(v)) == b.Apply(v)
  {
  }
}
