/** The failures the clock drivers report. Each kind but the last stands
    for one of the `ValueError`s the Python drivers raise, with the value
    that was refused; the last is an `AttributeError`. */
module Errors {

  datatype Error =
    | FrequencyOutOfRange(frequency: int)  // PWM frequency outside 24..1526 Hz
    | BadReadLength(length: int)           // register read neither 1 byte nor an even count
    | ByteOutOfRange(byte: int)            // a value that does not fit in one byte
    | InvalidPwm(on: int, off: int)        // an on/off count pair the PWM registers refuse
    | HourOutOfRange(hour: int)
    | MinuteOutOfRange(minute: int)
    | MissingAttribute(name: string)       // an attribute the object never had

  /** The outcome of a pure conversion: a value, or the error raised instead. */
  datatype Result<+T> = Success(value: T) | Failure(error: Error)
}
