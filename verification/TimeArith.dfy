/** Time values of 32-bit seconds and nanoseconds with C's truncating division, and their two wire
    forms: the scaled nanoseconds of a correction field and the timestamp (clause 5.3 of IEEE 1588-2008). */
module TimeArith {
  import opened PtpTypes

  const BILLION: int := 1_000_000_000
  const INT_MAX: int := 0x7fff_ffff

  datatype Time = Time(seconds: int32, nanoseconds: int32)

  predicate IsInt32(x: int) {
    -0x8000_0000 <= x < 0x8000_0000
  }

  /** Division as in C: toward zero. */
  function CDiv(a: int, b: int): (q: int)
    requires b > 0
  {
    if a >= 0 then a / b else -((-a) / b)
  }

  function CMod(a: int, b: int): int
    requires b > 0
  {
    a - CDiv(a, b) * b
  }

  lemma CDivBounds(a: int, b: int)
    requires b > 0
    ensures a >= 0 ==> 0 <= CMod(a, b) < b && CDiv(a, b) >= 0
    ensures a <= 0 ==> -b < CMod(a, b) <= 0 && CDiv(a, b) <= 0
  {
  }

  /** The signed number of nanoseconds that a time stands for. */
  function Value(t: Time): int {
    t.seconds * BILLION + t.nanoseconds
  }

  /** Less than a second of nanoseconds, and both parts of one sign. */
  predicate Normalized(t: Time) {
    && -BILLION < t.nanoseconds < BILLION
    && (t.seconds > 0 ==> t.nanoseconds >= 0)
    && (t.seconds < 0 ==> t.nanoseconds <= 0)
  }

  /** There is one normalized form of every value. */
  lemma NormalFormIsUnique(a: Time, b: Time)
    requires Normalized(a) && Normalized(b) && Value(a) == Value(b)
    ensures a == b
  {
  }

  /** The normalized form consists of the truncating quotient and remainder of the value. */
  lemma NormalFormOfValue(t: Time)
    requires Normalized(t)
    ensures t.seconds == CDiv(Value(t), BILLION) && t.nanoseconds == CMod(Value(t), BILLION)
  {
  }

  /** The cell that a time is computed in; any two of the pointers passed below may be the same. */
  class TimeInternal {
    var seconds: int32
    var nanoseconds: int32

    ghost function View(): Time
      reads this
    {
      Time(seconds, nanoseconds)
    }

    constructor (s: int32, n: int32)
      ensures View() == Time(s, n)
    {
      seconds, nanoseconds := s, n;
    }
  }

  method NormalizeTime(r: TimeInternal)
    requires IsInt32(r.seconds + CDiv(r.nanoseconds, BILLION))
    modifies r
    ensures Normalized(r.View()) && Value(r.View()) == old(Value(r.View()))
  {
    CDivBounds(r.nanoseconds, BILLION);
    r.seconds := r.seconds + CDiv(r.nanoseconds, BILLION);
    r.nanoseconds := r.nanoseconds - CDiv(r.nanoseconds, BILLION) * BILLION;
    if r.seconds > 0 && r.nanoseconds < 0 {
      r.seconds := r.seconds - 1;
      r.nanoseconds := r.nanoseconds + BILLION;
    } else if r.seconds < 0 && r.nanoseconds > 0 {
      r.seconds := r.seconds + 1;
      r.nanoseconds := r.nanoseconds - BILLION;
    }
  }

  /** The 32-bit sums that the code forms are in range. */
  predicate SumFits(s: int, n: int) {
    IsInt32(s) && IsInt32(n) && IsInt32(s + CDiv(n, BILLION))
  }

  method AddTime(r: TimeInternal, x: TimeInternal, y: TimeInternal)
    requires SumFits(x.seconds + y.seconds, x.nanoseconds + y.nanoseconds)
    modifies r
    ensures Normalized(r.View()) && Value(r.View()) == old(Value(x.View())) + old(Value(y.View()))
  {
    r.seconds := x.seconds + y.seconds;
    r.nanoseconds := x.nanoseconds + y.nanoseconds;
    NormalizeTime(r);
  }

  method SubTime(r: TimeInternal, x: TimeInternal, y: TimeInternal)
    requires SumFits(x.seconds - y.seconds, x.nanoseconds - y.nanoseconds)
    modifies r
    ensures Normalized(r.View()) && Value(r.View()) == old(Value(x.View())) - old(Value(y.View()))
  {
    r.seconds := x.seconds - y.seconds;
    r.nanoseconds := x.nanoseconds - y.nanoseconds;
    NormalizeTime(r);
  }

  /** For normalized arguments only the seconds can overflow, and only at the edge of the range. */
  lemma NormalizedSumFits(x: Time, y: Time)
    requires Normalized(x) && Normalized(y)
    ensures IsInt32(x.seconds + y.seconds - 1) && IsInt32(x.seconds + y.seconds + 1) ==>
              SumFits(x.seconds + y.seconds, x.nanoseconds + y.nanoseconds)
    ensures IsInt32(x.seconds - y.seconds - 1) && IsInt32(x.seconds - y.seconds + 1) ==>
              SumFits(x.seconds - y.seconds, x.nanoseconds - y.nanoseconds)
  {
  }

  /** Halving is off by at most half a nanosecond, and truncates toward zero on normalized times. */
  method Div2Time(r: TimeInternal)
    requires IsInt32(r.nanoseconds + CMod(r.seconds, 2) * BILLION)
    modifies r
    ensures Normalized(r.View())
    ensures -1 <= old(Value(r.View())) - 2 * Value(r.View()) <= 1
    ensures old(Normalized(r.View())) ==> Value(r.View()) == CDiv(old(Value(r.View())), 2)
  {
    CDivBounds(r.seconds, 2);
    r.nanoseconds := r.nanoseconds + CMod(r.seconds, 2) * BILLION;
    r.seconds := CDiv(r.seconds, 2);
    r.nanoseconds := CDiv(r.nanoseconds, 2);
    NormalizeTime(r);
  }

  predicate IsTimeInternalNegative(t: Time) {
    t.seconds < 0 || t.nanoseconds < 0
  }

  lemma NegativeByValue(t: Time)
    requires Normalized(t)
    ensures IsTimeInternalNegative(t) <==> Value(t) < 0
  {
  }

  /** Despite its name the comparison is not strict. */
  method GtTime(x: TimeInternal, y: TimeInternal) returns (r: bool)
    requires SumFits(x.seconds - y.seconds, x.nanoseconds - y.nanoseconds)
    ensures r <==> Value(x.View()) >= Value(y.View())
  {
    var d := new TimeInternal(0, 0);
    SubTime(d, x, y);
    NegativeByValue(d.View());
    return !(d.seconds < 0 || d.nanoseconds < 0);
  }

  method NanoToTime(x: TimeInternal, nano: int32)
    modifies x
    ensures Normalized(x.View()) && Value(x.View()) == nano
  {
    x.seconds := 0;
    x.nanoseconds := nano;
    NormalizeTime(x);
  }

  function Abs(x: int): int {
    if x < 0 then -x else x
  }

  method AbsTime(r: TimeInternal)
    requires IsInt32(r.seconds + CDiv(r.nanoseconds, BILLION))
    requires Value(r.View()) > -0x8000_0000 * BILLION
    modifies r
    ensures Normalized(r.View()) && Value(r.View()) == Abs(old(Value(r.View())))
  {
    NormalizeTime(r);
    r.seconds := Abs(r.seconds);
    r.nanoseconds := Abs(r.nanoseconds);
  }

  /** Closer than the given number of nanoseconds, strictly. */
  method IsTimeClose(x: TimeInternal, y: TimeInternal, nanos: int32) returns (r: bool)
    requires SumFits(x.seconds - y.seconds, x.nanoseconds - y.nanoseconds)
    requires Abs(Value(x.View()) - Value(y.View())) < (INT_MAX - 3) * BILLION
    ensures r <==> Abs(Value(x.View()) - Value(y.View())) < nanos
  {
    var r1 := new TimeInternal(0, 0);
    SubTime(r1, x, y);
    AbsTime(r1);
    var r2 := new TimeInternal(0, 0);
    NanoToTime(r2, nanos);
    var gt := GtTime(r1, r2);
    return !gt;
  }

  // ---------------------------------------------------------------- correction fields

  const TWO16: int := 0x1_0000
  const TWO32: int := 0x1_0000_0000
  const TWO47: int := 0x8000_0000_0000
  const TWO63: int := 0x8000_0000_0000_0000
  const TWO64: int := 0x1_0000_0000_0000_0000

  /** Wrap-around of a 64-bit and of a 32-bit signed number. */
  function Wrap64(x: int): int {
    var m := x % TWO64;
    if m >= TWO63 then m - TWO64 else m
  }

  function Wrap32(x: int): int32 {
    var m := x % TWO32;
    if m >= 0x8000_0000 then m - TWO32 else m
  }

  /** The number that an `Integer64` stands for: units of 2^-16 nanoseconds. */
  function Scaled(w: Integer64): int {
    w.msb * TWO32 + w.lsb
  }

  function InternalTimeToInteger64(t: Time): Integer64 {
    var scaled := Wrap64(Value(t) * TWO16);
    Integer64(Wrap32(scaled / TWO32), scaled % TWO32)
  }

  /** The least 64-bit number cannot be negated: C leaves its conversion undefined. */
  function Integer64ToInternalTime(w: Integer64): Option<Time>
    ensures Scaled(w) != -TWO63 ==> Integer64ToInternalTime(w).Some?
  {
    var scaled := Scaled(w);
    if scaled == -TWO63 then None
    else
      var nanoseconds := Abs(scaled) / TWO16;
      MagnitudeFits(Abs(scaled));
      if scaled < 0 then Some(Time(-(nanoseconds / BILLION), -(nanoseconds % BILLION)))
      else Some(Time(nanoseconds / BILLION, nanoseconds % BILLION))
  }

  lemma MagnitudeFits(m: int)
    requires 0 <= m < TWO63
    ensures 0 <= m / TWO16 < TWO47 && m / TWO16 / BILLION < 140738
  {
  }

  lemma WireValue(t: Time)
    ensures Scaled(InternalTimeToInteger64(t)) == Wrap64(Value(t) * TWO16)
    ensures -TWO47 <= Value(t) < TWO47 ==> Wrap64(Value(t) * TWO16) == Value(t) * TWO16
  {
    var scaled := Wrap64(Value(t) * TWO16);
    assert -TWO63 <= scaled < TWO63;
    assert -0x8000_0000 <= scaled / TWO32 < 0x8000_0000;
    Wrap32Identity(scaled / TWO32);
  }

  lemma Wrap32Identity(x: int)
    requires IsInt32(x)
    ensures Wrap32(x) == x
  {
  }

  /** Reading a correction field drops the fraction of a nanosecond, toward zero. */
  lemma WireToInternalTruncates(w: Integer64)
    requires Scaled(w) != -TWO63
    ensures var t := Integer64ToInternalTime(w).value;
            Normalized(t) && Value(t) == CDiv(Scaled(w), TWO16)
  {
    MagnitudeFits(Abs(Scaled(w)));
  }

  /** A normalized time survives the wire exactly when its magnitude is below 2^47 nanoseconds. */
  lemma InternalSurvivesWireIff(t: Time)
    requires Normalized(t)
    ensures Integer64ToInternalTime(InternalTimeToInteger64(t)) == Some(t) <==> -TWO47 < Value(t) < TWO47
  {
    WireValue(t);
    var w := InternalTimeToInteger64(t);
    if Scaled(w) != -TWO63 {
      WireToInternalTruncates(w);
      var back := Integer64ToInternalTime(w).value;
      if -TWO47 < Value(t) < TWO47 {
        ExactDivision(Value(t));
        NormalFormIsUnique(back, t);
      } else {
        QuotientBelow(Scaled(w));
      }
    }
  }

  lemma ExactDivision(v: int)
    ensures CDiv(v * TWO16, TWO16) == v
  {
  }

  lemma QuotientBelow(s: int)
    requires -TWO63 < s < TWO63
    ensures -TWO47 < CDiv(s, TWO16) < TWO47
  {
  }

  /** A correction field that is read and written back loses less than a nanosecond of its magnitude. */
  lemma WireLosesFractionOnly(w: Integer64)
    requires Scaled(w) != -TWO63
    ensures var w' := InternalTimeToInteger64(Integer64ToInternalTime(w).value);
            && Scaled(w') == CDiv(Scaled(w), TWO16) * TWO16
            && Abs(Scaled(w) - Scaled(w')) < TWO16
            && Abs(Scaled(w')) <= Abs(Scaled(w))
  {
    WireToInternalTruncates(w);
    QuotientBelow(Scaled(w));
    WireValue(Integer64ToInternalTime(w).value);
    CDivBounds(Scaled(w), TWO16);
  }

  // ---------------------------------------------------------------- timestamps

  /** Negative times are not converted, and leave the timestamp as it was. */
  function FromInternalTime(t: Time, external: Timestamp): Timestamp {
    if t.seconds < 0 || t.nanoseconds < 0 then external
    else Timestamp(0, t.seconds, t.nanoseconds)
  }

  /** The upper 16 bits of the seconds are ignored. */
  function ToInternalTime(external: Timestamp, t: Time): Time {
    if external.secondsLsb < INT_MAX then Time(external.secondsLsb, Wrap32(external.nanosecondsField)) else t
  }

  /** A time goes into a timestamp and back, whatever the two held before, exactly when it is not
      negative and before the last second of the 32-bit range. */
  lemma TimestampRoundTripIff(t: Time)
    ensures (forall ts: Timestamp, t0: Time :: ToInternalTime(FromInternalTime(t, ts), t0) == t)
            <==> 0 <= t.seconds < INT_MAX && 0 <= t.nanoseconds
  {
    if 0 <= t.seconds < INT_MAX && 0 <= t.nanoseconds {
      Wrap32Identity(t.nanoseconds);
    } else {
      var ts := Timestamp(0, 0, 0);
      var t0 := Time(if t.seconds == 0 then 1 else 0, 0);
      assert ToInternalTime(FromInternalTime(t, Timestamp(0, INT_MAX, 0)), t0) != t;
    }
  }
}
