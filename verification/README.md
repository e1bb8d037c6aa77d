# Servo clock drivers, modelled in Dafny

A servo-driven seven-segment clock face is run by a MicroPython program. It
has three layers, and this project models the core of each:

- **PCA9685 PWM controller** (`Pca9685`, `PwmPins`). The controller checks
  its register reads and writes, resets itself, and runs the frequency
  sequence (sleep, prescaler, wake, restart with auto-increment). Each of
  its sixteen pins has a 4-byte ON/OFF register window. A duty value goes
  through the pin's bound: none on a plain PWM pin, a `min_duty..max_duty`
  clamp on a servo pin. It is then encoded as an on/off count pair and
  packed little-endian. Register layout follows sections 7.3.1, 7.3.3 and
  7.3.5 of the PCA9685 datasheet.
- **Clock face** (`Clock`). `Segment.write(n)` splits `n` into tens and ones.
  It drives channels 0–6 from the ones digit and channels 7–13 from the tens
  digit. Each servo goes to its `on` or `off` duty according to one bit of
  the seven-segment table `bits_representation`.
- **DS3231 real-time clock** (`Ds3231`). This layer covers the packed-BCD
  byte codec and the range checks on the hour and minute setters.

The I2C bus (`RegisterBus`) is a value: a log of the transactions issued, in
order, plus the register contents. A block write stores its bytes at
consecutive registers, which is the controller's auto-increment mode. An
operation returns `Done(bus, value)` or `Raised(bus, error)`. When an
operation raises, the bus is kept as it was at that moment, so writes made
before a failure in the middle of `Segment.write` stay in the log and in the
registers, exactly as in the program.

The frequency prescaler is computed in exact integers. The program computes
`round(25_000_000 / (4096.0 * f))` in floating point. For every `f` in
24..1526 that quotient lies more than 10^-7 from a half-integer, so the
float result and Python's `round` agree with the nearest integer to the
exact quotient. The getter is handled the same way.

The setter writes `round(25e6 / (4096 f))`. The getter inverts
`scale + 1`, which corresponds to the datasheet's formula with its `- 1`.
So the setter and the getter do not invert each other. The model proves
that the value read back never exceeds the frequency set, and that setting
1526 Hz reads back as 1221 Hz.

A duty of 4095 on a plain pin is refused. The duty setter encodes it as
full-on `(4096, 0)`, and `set_pwm` only accepts `on <= 4095`. The model
keeps this behaviour and proves it. A duty of 4096 is accepted, written as
full-off `(0, 4096)`, and reads back as 0.

## Model

| member | source | states |
|---|---|---|
| RegisterBus.WriteTo | clock/pca9685.py:82 | a block write appends one write to the log, leaves its bytes readable at consecutive registers, and changes no register outside them |
| RegisterBus.ReadFrom | clock/pca9685.py:55 | a block read logs one read, changes no register, and returns the bytes at consecutive registers |
| Pca9685.ReadMemory | clock/pca9685.py:45-62 | succeeds exactly when the length is 1 or even, then logs one read and returns that many bytes from consecutive registers; otherwise raises with no bus traffic |
| Pca9685.CheckBytes | clock/pca9685.py:74-78 | accepts a value list exactly when every value is in 0..255, leaving it unchanged; otherwise reports the first value out of range |
| Pca9685.WriteMemory | clock/pca9685.py:71-82 | an int list or tuple is written unchanged exactly when every value is in 0..255; otherwise raises with the offending value and no bus write |
| Pca9685.WriteMemoryBytes | clock/pca9685.py:71-72 | a raw byte buffer is always written unchanged to consecutive registers, nothing else changes |
| Pca9685.Reset | clock/pca9685.py:84-86 | logs the single write clearing MODE1, and no other register changes |
| Pca9685.Prescale | clock/pca9685.py:38 | the prescaler is the integer nearest to 25e6 / (4096 f), with no tie possible |
| Pca9685.FrequencyOf | clock/pca9685.py:31 | the reported frequency is the integer nearest to 25e6 / (4096 (scale + 1)), with no tie possible |
| Pca9685.PrescaleRange | clock/pca9685.py:35-40 | every accepted frequency gives a prescaler in 4..254, so it fits the one-byte register |
| Pca9685.SetFrequency | clock/pca9685.py:33-43 | succeeds exactly for 24..1526 Hz, raising with no bus traffic otherwise; on success the log gains sleep, prescaler, clear, 500 us pause, restart in that order, and only MODE1 and PRE_SCALE change |
| Pca9685.GetFrequency | clock/pca9685.py:23-31 | logs a one-byte read of PRE_SCALE, changes nothing, and reports a frequency in 24..6104 |
| Pca9685.FrequencyRange | clock/pca9685.py:31 | every prescaler byte gives a reported frequency in 24..6104 |
| Pca9685.FrequencyReadBack | clock/pca9685.py:23-43 | after a successful set, the frequency read back is what the getter's formula gives for the written prescaler, and never exceeds the frequency set |
| Pca9685.FrequencyReadBackAtMaximum | clock/pca9685.py:31-38 | setting 1526 Hz writes prescaler 4, which reads back as 1221 Hz |
| Pca9685.NewPca9685 | clock/pca9685.py:15-21 | construction yields an unbounded controller at the address, logs only the reset write, leaves MODE1 at 0 and changes no other register |
| Pca9685.NewServoController | clock/pca9685.py:153-173 | succeeds exactly for a valid frequency, with the clamp's bounds; the log is reset then the frequency sequence, after which PRE_SCALE holds the prescaler and MODE1 the restart value; an invalid frequency raises after the reset is logged, with MODE1 at 0 and PRE_SCALE untouched; no register other than MODE1 and PRE_SCALE changes |
| PwmPins.PinRegister | clock/pca9685.py:100 | pin p's window starts at 0x06 + 4p, lies inside the sixteen pins' register block, and gives back p |
| PwmPins.Pins | clock/pca9685.py:20 | a controller has sixteen pins, pin i at index i carrying the controller's bound |
| PwmPins.WindowsDisjoint | clock/pca9685.py:20 | distinct pins' 4-byte windows never overlap, and all lie within 0x06..0x45 |
| PwmPins.Pack | clock/pca9685.py:112 | packing two counts gives four bytes that unpack to the same counts |
| PwmPins.Unpack | clock/pca9685.py:107 | the two little-endian counts a window holds are in 0..65535 |
| PwmPins.PackUnpack | clock/pca9685.py:107-112 | every 4-byte window is the packing of the counts it unpacks to |
| PwmPins.GetPwm | clock/pca9685.py:103-107 | logs a 4-byte read of the pin's window, changes nothing, and returns the counts whose packing is the window |
| PwmPins.SetPwm | clock/pca9685.py:109-117 | succeeds exactly for on in 0..4095 and off in 0..4096, raising with no write otherwise; on success the window holds the packed counts and nothing outside it changes |
| PwmPins.EncodeDuty | clock/pca9685.py:137-142 | the encoding passes set_pwm's check exactly for 0..4096 other than 4095, and the getter decodes it to the duty itself, except that 4096 decodes to 0 |
| PwmPins.GetDuty | clock/pca9685.py:119-129 | logs a read of the pin's window, changes nothing, and decodes full-off as 0, full-on as 4095, and otherwise returns the off count |
| PwmPins.SetDuty | clock/pca9685.py:131-142 | bounds the value first; succeeds exactly when the bounded duty is accepted, raising with no write otherwise; on success only the pin's window changes |
| PwmPins.DutyRoundTrip | clock/pca9685.py:119-142 | a duty set and read back gives the bounded value, except that 4096 reads back as 0 |
| PwmPins.PlainPinDuty | clock/pca9685.py:131-142 | on a plain pin: 0 writes (0, 4096), 1..4094 write (0, v), and 4095 raises with no write |
| PwmPins.FullOnReadsAsMaxDuty | clock/pca9685.py:125-126 | a window holding (4096, 0) reads back as duty 4095 |
| Pca9685.Bound.Apply | clock/pca9685.py:133-150 | a plain pin applies no bound (its `_duty_bound` raises and the setter keeps the value); the servo clamp of clock/pca9685.py:183-186 with min <= max lands in the range and leaves in-range values alone, raises a value below min to min and lowers a value above max to max, and with max < min always gives max |
| PwmPins.ClampIdempotent | clock/pca9685.py:183-186 | applying a pin's bound twice gives the same result as once |
| Clock.DigitTable | clock/clock.py:57-69 | each mask is below 0x80, its set bits are exactly the segments its comment lists, and the popcounts are 6, 2, 5, 5, 4, 5, 6, 3, 7, 6 |
| Clock.MasksDistinct | clock/clock.py:57-69 | the ten masks are pairwise distinct |
| Clock.BitsDetermine | clock/clock.py:44 | two numbers below 2^n with the same bits 0..n-1 are equal |
| Clock.PatternDeterminesDigit | clock/clock.py:57-69 | two digits whose masks agree on all seven segment bits are the same digit |
| Clock.Ones | clock/clock.py:22-23 | the ones group is seven entries, entry k pairing segment k with channel k |
| Clock.Tens | clock/clock.py:24-25 | the tens group is seven entries, entry k pairing segment k with channel 7 + k |
| Clock.Split | clock/clock.py:40 | tens and ones are digits that recombine as 10 * tens + ones = n |
| Clock.FirstRejected | clock/clock.py:41-47 | the first group entry whose bounded duty the pin refuses, all before it being accepted |
| Clock.WriteGroup | clock/clock.py:41-54 | one group's loop logs one write per entry up to the first refused duty, and then raises that duty's error |
| Clock.WriteGroupRegisters | clock/clock.py:41-54 | one group's loop changes no register outside the windows of the entries before its first refusal, and each of those windows holds its packed duty |
| Clock.WriteNumber | clock/clock.py:38-54 | completes exactly when all fourteen planned duties are accepted, logging the ones then the tens channels in order; otherwise raises at the first refused channel with the earlier writes kept; every channel before the first refused one holds its planned duty, whether the write completed or raised; the refused channel and every later one keep their previous bytes; registers outside channels 0..13 never change |
| Clock.ReadBackAfterWrite | clock/clock.py:38-54 | after a completed write every channel reads back as its planned duty, 4096 reading back as 0 |
| Clock.WriteStaysWithinBounds | clock/clock.py:45-54 | with min_duty <= max_duty every duty a pin stores after its clamp, and every duty read back except full-off, lies in that range |
| Clock.SafeBoundsNeverRaise | clock/clock.py:38-54 | min_duty and max_duty both inside 0..4094, in either order, make the write complete for every number 0..99 |
| Clock.ConfiguredPairShowsSegment | clock/clock.py:27-54 | a channel with a configured (off, on) pair goes to its clamped on duty when its segment is lit and to its clamped off duty otherwise |
| Clock.DefaultPairShowsSegment | clock/clock.py:27-36 | with min_duty <= max_duty, a channel without a configured pair goes to max_duty when its segment is lit and to min_duty otherwise |
| Clock.DisplayDeterminesNumber | clock/clock.py:38-69 | when each servo's two positions differ, the fourteen planned positions determine the number written |
| Clock.WriteFortyTwo | clock/clock.py:38-69 | writing 42 with no configured pairs on a 180..500 board moves the channels to 500, 500, 180, 500, 500, 180, 500, 180, 500, 500, 180, 180, 500, 500 and logs exactly those writes |
| Ds3231.DecodeByte | clock/ds3231.py:44-48 | a byte decodes to a number in 0..165 whose tens and ones are the byte's nibbles whenever the low nibble is a decimal digit |
| Ds3231.EncodeByte | clock/ds3231.py:51-54 | succeeds exactly for 0..159 with one byte whose nibbles are the number's tens and ones; otherwise the packed value does not fit a byte |
| Ds3231.EncodeDecode | clock/ds3231.py:44-54 | encoding then decoding gives back every number in 0..159 |
| Ds3231.DecodeEncode | clock/ds3231.py:44-54 | decoding then encoding gives back a byte exactly when its low nibble is a decimal digit |
| Ds3231.DecodeInjective | clock/ds3231.py:44-48 | two valid BCD bytes decode to the same number only if they are equal |
| Ds3231.HourByte | clock/ds3231.py:21-25 | an hour is accepted exactly in 0..23, rejected before encoding otherwise, and the byte it gives is the BCD encoding of the hour (high nibble the tens, low nibble the ones), which decodes to the hour |
| Ds3231.MinuteByte | clock/ds3231.py:32-36 | a minute is accepted exactly in 0..59, rejected before encoding otherwise, and the byte it gives is the BCD encoding of the minute (high nibble the tens, low nibble the ones), which decodes to the minute |
| Ds3231.ReadField | clock/ds3231.py:16-19 | a getter logs a one-byte read, changes nothing, and returns the BCD meaning of the register |
| Ds3231.SetFieldAsWritten | clock/ds3231.py:21-36 | the setters as written never touch the bus: out-of-range values raise the range error, and valid ones raise for the missing `_i2c` attribute |
| Ds3231.HourSetterAlwaysRaises | clock/ds3231.py:11-25 | setting hour 12 raises the missing-attribute error and leaves the bus unchanged |
| Ds3231.SetField | clock/ds3231.py:21-36 | the intended setter writes the encoded byte to the field's register exactly when the value passed its check, and raises with no write otherwise |
| Ds3231.HourRoundTrip | clock/ds3231.py:16-25 | with the intended setter, an hour in 0..23 read back after setting is the hour set, and any other hour raises with no write |
| Ds3231.MinuteRoundTrip | clock/ds3231.py:27-36 | with the intended setter, a minute in 0..59 read back after setting is the minute set, the hour register is untouched, and any other minute raises with no write |

## Left out

- The I2C transport. `readfrom_mem` and `writeto_mem` are the bus log plus a register map. The device address is stored but not part of a transaction: each bus value is one device's register file.
- Auto-increment is assumed for every block transfer. A register never written reads as 0.
- `sleep_us(500)` is recorded as a `Pause` marker in the log. No time passes in the model.
- Floating point and banker's rounding in the prescaler formulas are replaced by the exact nearest-integer computation. The reason is given above: no tie occurs, and the float error cannot change the result.
- Pca9685.ReadMemory: the length is a natural number. A negative even length would pass the program's parity check and reach the bus; that case is not modelled.
- The `unpack` flag of `read_memory` is left out. A byte sequence is returned in both cases.
- `write_memory`'s runtime type dispatch is replaced by two entry points, one for an int sequence and one for raw bytes. Its "unexpected data type" branch cannot occur with typed arguments.
- Clock.WriteNumber: requires 0 <= n <= 99. The program has no guard. For n >= 100 or n <= -101 it writes the ones channels and then fails on the table index. For -100 <= n <= -1, Python's floor `divmod` gives a tens digit in -10..-1, which indexes the table from its end.
- The DS3231 hour register's 12/24-hour flag bits are not modelled, because the program ignores them.
- The DS3231 seconds getter is the same one-byte read and decode as `ReadField`, at register 0x00.
- `main.py` (pin setup, calibration constants, polling loop) and `boot.py` (Wi-Fi access point, WebREPL, password file) are I/O and are not part of this model.

## Findings

| source | as written | input that shows it | evidently intended | confidence | as-written member | corrected member |
|---|---|---|---|---|---|---|
| clock/ds3231.py:25, 36 | the hour and minute setters write through `self._i2c`, but the constructor only sets `self.i2c` | setting `hour = 12` raises `AttributeError` and writes nothing | write the encoded byte through `self.i2c` | high; not executed | Ds3231.SetFieldAsWritten, Ds3231.HourSetterAlwaysRaises | Ds3231.SetField, Ds3231.HourRoundTrip |
