/** The C library values the output manager reads: `struct timeval` and `struct tm`. */
module Posix {

  /** struct timeval: seconds and microseconds, both signed longs. */
  datatype TimeVal = TimeVal(sec: int, usec: int)

  const ZERO_TV: TimeVal := TimeVal(0, 0)

  /**
   * The broken-down time gmtime/localtime produce for a segment stamp:
   * `year` counts years since 1900 and `mon` months since January, as in
   * struct tm. Years before 1900 are not represented.
   */
  datatype Tm = Tm(year: nat, mon: nat, mday: nat, hour: nat, min: nat, sec: nat)
}
