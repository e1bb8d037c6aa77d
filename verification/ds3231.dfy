/** The DS3231 real-time clock's time registers.

    The chip keeps seconds, minutes and hours as packed BCD: the high
    nibble holds the tens digit and the low nibble the ones digit. */
module Ds3231 {
  import opened Errors
  import opened RegisterBus

  const MINUTES := 0x01
  const HOURS := 0x02

  // ---------------------------------------------------------------------
  // Packed BCD

  /** `_decodeByte`: the first byte read, high nibble times ten plus the
      low nibble. */
  function DecodeByte(data: seq<Byte>): (n: int)
    requires |data| >= 1
    ensures 0 <= n <= 165
    ensures data[0] % 16 <= 9 ==> n / 10 == data[0] / 16 && n % 10 == data[0] % 16
  {
    (data[0] / 16) * 10 + data[0] % 16
  }

  /** `_encodeByte`: `divmod(num, 10)` packed as `(tens << 4) + ones`; the
      `bytes` constructor refuses a value outside one byte. Python's `divmod`
      floors, which is Dafny's `/` and `%` for the positive divisor 10. */
  function EncodeByte(num: int): (r: Result<seq<Byte>>)
    ensures r.Success? <==> 0 <= num <= 159
    ensures r.Success? ==> |r.value| == 1 && r.value[0] / 16 == num / 10 && r.value[0] % 16 == num % 10
    ensures r.Failure? ==> r.error.ByteOutOfRange? && (r.error.byte < 0 || 0x100 <= r.error.byte)
  {
    var (tens, ones) := (num / 10, num % 10);
    var v := tens * 16 + ones;
    if 0 <= v < 0x100 then Success([v]) else Failure(ByteOutOfRange(v))
  }

  /** Encoding then decoding gives back every number the encoder accepts,
      which covers every time field (0..59). */
  lemma EncodeDecode(n: int)
    requires 0 <= n <= 159
    ensures EncodeByte(n).Success? && DecodeByte(EncodeByte(n).value) == n
  {
  }

  /** Decoding then encoding gives back exactly the bytes whose low nibble
      is a decimal digit. */
  lemma DecodeEncode(b: Byte)
    ensures EncodeByte(DecodeByte([b])) == Success([b]) <==> b % 16 <= 9
  {
    var n := DecodeByte([b]);
    if b % 16 <= 9 {
      assert n / 10 == b / 16 && n % 10 == b % 16;
      assert EncodeByte(n).value[0] == b;
    } else {
      assert n % 10 != b % 16;
    }
  }

  /** Two valid BCD bytes decode to the same number only when they are the
      same byte. */
  lemma DecodeInjective(b: Byte, c: Byte)
    requires b % 16 <= 9 && c % 16 <= 9
    requires DecodeByte([b]) == DecodeByte([c])
    ensures b == c
  {
    DecodeEncode(b);
    DecodeEncode(c);
  }

  // ---------------------------------------------------------------------
  // Time fields

  /** The hour setter's range check and the byte it would write. */
  function HourByte(hour: int): (r: Result<seq<Byte>>)
    ensures r.Success? <==> 0 <= hour <= 23
    ensures r.Failure? ==> r.error == HourOutOfRange(hour)
    ensures r.Success? ==> |r.value| == 1 && DecodeByte(r.value) == hour
    ensures r.Success? ==> r.value[0] / 16 == hour / 10 && r.value[0] % 16 == hour % 10
  {
    if hour < 0 || hour > 23 then Failure(HourOutOfRange(hour))
    else
      EncodeDecode(hour);
      EncodeByte(hour)
  }

  /** The minute setter's range check and the byte it would write. */
  function MinuteByte(minute: int): (r: Result<seq<Byte>>)
    ensures r.Success? <==> 0 <= minute <= 59
    ensures r.Failure? ==> r.error == MinuteOutOfRange(minute)
    ensures r.Success? ==> |r.value| == 1 && DecodeByte(r.value) == minute
    ensures r.Success? ==> r.value[0] / 16 == minute / 10 && r.value[0] % 16 == minute % 10
  {
    if minute < 0 || minute > 59 then Failure(MinuteOutOfRange(minute))
    else
      EncodeDecode(minute);
      EncodeByte(minute)
  }

  /** The `hour`, `minute` and `second` getters: a one-byte read of the
      field's register, decoded. */
  function ReadField(bus: Bus, reg: int): (r: (Bus, int))
    ensures r.0.log == bus.log + [Read(reg, 1)] && r.0.regs == bus.regs
    ensures 0 <= r.1 <= 165
    ensures Load(bus.regs, reg) % 16 <= 9 ==>
      r.1 / 10 == Load(bus.regs, reg) / 16 && r.1 % 10 == Load(bus.regs, reg) % 16
  {
    var (b, data) := ReadFrom(bus, reg, 1);
    (b, DecodeByte(data))
  }

  /** A field setter as written: the range check, then a write through
      `self._i2c`, an attribute the constructor never sets (it sets
      `self.i2c`), so every in-range value raises before anything is
      written. */
  function SetFieldAsWritten(bus: Bus, encoded: Result<seq<Byte>>): (r: Outcome<()>)
    ensures r.bus == bus
    ensures r.Raised?
    ensures encoded.Failure? ==> r.error == encoded.error
    ensures encoded.Success? ==> r.error == MissingAttribute("_i2c")
  {
    match encoded
    case Failure(e) => Raised(bus, e)
    case Success(_) => Raised(bus, MissingAttribute("_i2c"))
  }

  /** The hour setter as written raises even for a valid hour such as 12. */
  lemma HourSetterAlwaysRaises(bus: Bus)
    ensures SetFieldAsWritten(bus, HourByte(12)) == Raised(bus, MissingAttribute("_i2c"))
  {
  }

  /** A field setter as intended: the range check, then a one-byte write
      of the encoded value to the field's register through the bus the
      constructor stored. */
  function SetField(bus: Bus, reg: int, encoded: Result<seq<Byte>>): (r: Outcome<()>)
    ensures r.Done? <==> encoded.Success?
    ensures r.Raised? ==> r.bus == bus && r.error == encoded.error
    ensures r.Done? ==> r.bus.log == bus.log + [Write(reg, encoded.value)]
    ensures r.Done? ==> Fetch(r.bus.regs, reg, |encoded.value|) == encoded.value
    ensures r.Done? ==> forall a :: !(reg <= a < reg + |encoded.value|) ==>
      Load(r.bus.regs, a) == Load(bus.regs, a)
  {
    match encoded
    case Failure(e) => Raised(bus, e)
    case Success(data) => Done(WriteTo(bus, reg, data), ())
  }

  /** Setting the hour and reading it back gives the hour set; nothing is
      written for an hour outside 0..23. */
  lemma HourRoundTrip(bus: Bus, hour: int)
    ensures var r := SetField(bus, HOURS, HourByte(hour));
      r.Done? <==> 0 <= hour <= 23
    ensures var r := SetField(bus, HOURS, HourByte(hour));
      r.Raised? ==> r.bus == bus && r.error == HourOutOfRange(hour)
    ensures var r := SetField(bus, HOURS, HourByte(hour));
      r.Done? ==> ReadField(r.bus, HOURS).1 == hour
  {
    var r := SetField(bus, HOURS, HourByte(hour));
    if r.Done? {
      assert Fetch(r.bus.regs, HOURS, 1)[0] == Load(r.bus.regs, HOURS);
    }
  }

  /** Setting the minute and reading it back gives the minute set, and the
      hour register is untouched; nothing is written for a minute outside
      0..59. */
  lemma MinuteRoundTrip(bus: Bus, minute: int)
    ensures var r := SetField(bus, MINUTES, MinuteByte(minute));
      r.Done? <==> 0 <= minute <= 59
    ensures var r := SetField(bus, MINUTES, MinuteByte(minute));
      r.Raised? ==> r.bus == bus && r.error == MinuteOutOfRange(minute)
    ensures var r := SetField(bus, MINUTES, MinuteByte(minute));
      r.Done? ==> (ReadField(r.bus, MINUTES).1 == minute
                   && ReadField(r.bus, HOURS).1 == ReadField(bus, HOURS).1)
  {
    var r := SetField(bus, MINUTES, MinuteByte(minute));
    if r.Done? {
      assert Fetch(r.bus.regs, MINUTES, 1)[0] == Load(r.bus.regs, MINUTES);
    }
  }
}
