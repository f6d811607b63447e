/** Conversion between dates, which count seconds from 2001, and timestamps, which count seconds and
    nanoseconds from 1970. Exact reals stand for doubles.
 */
module Timestamps {

  const EPOCH_SHIFT: int := 978307200
  const NANOS: int := 1_000_000_000
  const INT64_MAX: int := 0x7FFF_FFFF_FFFF_FFFF
  const INT64_MIN: int := -0x8000_0000_0000_0000

  datatype Date = NoDate | NotANumber | MinusInfinity | PlusInfinity | At(t: real)

  datatype Timestamp = NullTimestamp | Time(seconds: int, nanoseconds: int)

  /** Rounding toward zero, as a cast to an integer does. */
  function Trunc(x: real): int {
    if x >= 0.0 then x.Floor else -((-x).Floor)
  }

  /** Seconds and nanoseconds in range and never of opposite sign. */
  predicate Normal(ts: Timestamp) {
    ts.Time? ==>
      && INT64_MIN <= ts.seconds <= INT64_MAX
      && -NANOS < ts.nanoseconds < NANOS
      && (ts.seconds > 0 ==> ts.nanoseconds >= 0)
      && (ts.seconds < 0 ==> ts.nanoseconds <= 0)
  }

  /** The date lies beyond one of the two clamps. */
  predicate ClampedAbove(date: Date) {
    date.PlusInfinity? || (date.At? && date.t >= (INT64_MAX - EPOCH_SHIFT) as real)
  }

  predicate ClampedBelow(date: Date) {
    date.MinusInfinity? || (date.At? && date.t - EPOCH_SHIFT as real < INT64_MIN as real)
  }

  /** A count of nanoseconds as seconds and nanoseconds of the same sign. */
  function Split(n: int): Timestamp {
    if n >= 0 then Time(n / NANOS, n % NANOS) else Time(-(-n / NANOS), -(-n % NANOS))
  }

  function TotalNanos(ts: Timestamp): int
    requires ts.Time?
  {
    ts.seconds * NANOS + ts.nanoseconds
  }

  /** What the conversion promises: the date in whole nanoseconds, moved to the other epoch and split. */
  function TimestampOf(date: Date): Timestamp {
    if date.NoDate? then NullTimestamp
    else if date.NotANumber? then Time(0, 0)
    else if ClampedAbove(date) then Time(INT64_MAX, NANOS - 1)
    else if ClampedBelow(date) then Time(INT64_MIN, -NANOS + 1)
    else Split(Trunc(date.t * NANOS as real) + EPOCH_SHIFT * NANOS)
  }

  function DateOf(ts: Timestamp): Date {
    match ts
    case NullTimestamp => NoDate
    case Time(seconds, nanoseconds) =>
      At(seconds as real - EPOCH_SHIFT as real + nanoseconds as real / NANOS as real)
  }

  /** The conversion as it is carried out, with the intermediate values that must not overflow. */
  method TimestampForDate(date: Date) returns (ts: Timestamp)
    ensures ts == TimestampOf(date)
    ensures Normal(ts)
  {
    if date == NoDate {
      return NullTimestamp;
    }
    if date == NotANumber {
      return Time(0, 0);
    }
    if ClampedAbove(date) {
      return Time(INT64_MAX, NANOS - 1);
    }
    if ClampedBelow(date) {
      return Time(INT64_MIN, -NANOS + 1);
    }
    var t := date.t;
    var seconds := Trunc(t);
    assert INT64_MIN <= seconds <= INT64_MAX;
    var nanoseconds := Trunc((t - seconds as real) * NANOS as real);
    assert -NANOS < nanoseconds < NANOS;
    TruncSplits(t);
    seconds := seconds + EPOCH_SHIFT;
    assert INT64_MIN <= seconds <= INT64_MAX;
    if nanoseconds < 0 && seconds > 0 {
      nanoseconds := nanoseconds + NANOS;
      seconds := seconds - 1;
    }
    SplitUnique(Time(seconds, nanoseconds));
    ts := Time(seconds, nanoseconds);
  }

  /** Truncating the seconds first and the rest afterwards is truncating the nanoseconds. */
  lemma TruncSplits(t: real)
    ensures Trunc(t * NANOS as real) == Trunc(t) * NANOS + Trunc((t - Trunc(t) as real) * NANOS as real)
    ensures t >= 0.0 ==> Trunc(t) >= 0 && Trunc((t - Trunc(t) as real) * NANOS as real) >= 0
    ensures t <= 0.0 ==> Trunc(t) <= 0 && Trunc((t - Trunc(t) as real) * NANOS as real) <= 0
  {
    var rest := (t - Trunc(t) as real) * NANOS as real;
    assert t * NANOS as real == (Trunc(t) * NANOS) as real + rest;
    if t >= 0.0 {
      assert rest >= 0.0;
    } else {
      assert rest <= 0.0;
    }
  }

  /** A normal timestamp is the split of its total. */
  lemma SplitUnique(ts: Timestamp)
    requires ts.Time? && -NANOS < ts.nanoseconds < NANOS
    requires (ts.seconds > 0 ==> ts.nanoseconds >= 0) && (ts.seconds < 0 ==> ts.nanoseconds <= 0)
    ensures Split(TotalNanos(ts)) == ts
  {
  }

  // ---- Order ------------------------------------------------------------------------------------

  predicate DateLess(d1: Date, d2: Date) {
    match (d1, d2)
    case (MinusInfinity, _) => d2 != MinusInfinity
    case (_, PlusInfinity) => d1 != PlusInfinity
    case (At(t1), At(t2)) => t1 < t2
    case _ => false
  }

  predicate IsNumber(date: Date) {
    date.At? || date.MinusInfinity? || date.PlusInfinity?
  }

  predicate LexLessEqual(ts1: Timestamp, ts2: Timestamp)
    requires ts1.Time? && ts2.Time?
  {
    ts1.seconds < ts2.seconds || (ts1.seconds == ts2.seconds && ts1.nanoseconds <= ts2.nanoseconds)
  }

  lemma TruncMonotone(x: real, y: real)
    requires x <= y
    ensures Trunc(x) <= Trunc(y)
  {
  }

  lemma SplitMonotone(m: int, n: int)
    requires m <= n
    ensures LexLessEqual(Split(m), Split(n))
  {
    var a, b := Split(m), Split(n);
    assert TotalNanos(a) == m && TotalNanos(b) == n;
  }

  /** An unclamped date is converted to a timestamp between the two clamp values. */
  lemma SplitInRange(t: real)
    requires !ClampedAbove(At(t)) && !ClampedBelow(At(t))
    ensures var ts := TimestampOf(At(t));
            && LexLessEqual(Time(INT64_MIN, -NANOS + 1), ts)
            && LexLessEqual(ts, Time(INT64_MAX, NANOS - 1))
  {
    var n := Trunc(t * NANOS as real) + EPOCH_SHIFT * NANOS;
    TruncMonotone(t * NANOS as real, (INT64_MAX - EPOCH_SHIFT) as real * NANOS as real);
    TruncMonotone((INT64_MIN + EPOCH_SHIFT) as real * NANOS as real, t * NANOS as real);
    SplitMonotone(n, INT64_MAX * NANOS);
    SplitMonotone(INT64_MIN * NANOS, n);
  }

  /** Later dates have later timestamps, over all dates that are numbers, clamped ones included. */
  lemma ConversionIsMonotone(d1: Date, d2: Date)
    requires IsNumber(d1) && IsNumber(d2) && DateLess(d1, d2)
    ensures LexLessEqual(TimestampOf(d1), TimestampOf(d2))
  {
    if d1.At? && !ClampedAbove(d1) && !ClampedBelow(d1) {
      SplitInRange(d1.t);
    }
    if d2.At? && !ClampedAbove(d2) && !ClampedBelow(d2) {
      SplitInRange(d2.t);
    }
    if d1.At? && d2.At? {
      var x, y := d1.t * NANOS as real, d2.t * NANOS as real;
      TruncMonotone(x, y);
      SplitMonotone(Trunc(x) + EPOCH_SHIFT * NANOS, Trunc(y) + EPOCH_SHIFT * NANOS);
    }
  }

  // ---- Round trips ------------------------------------------------------------------------------

  /** A normal timestamp comes back from its date exactly if no clamp catches the date, or the timestamp is
      the value of the clamp that does.
   */
  lemma TimestampRoundTrip(ts: Timestamp)
    requires ts.Time? && Normal(ts)
    ensures TimestampOf(DateOf(ts)) == ts <==>
              if ClampedAbove(DateOf(ts)) then ts == Time(INT64_MAX, NANOS - 1)
              else if ClampedBelow(DateOf(ts)) then ts == Time(INT64_MIN, -NANOS + 1)
              else true
  {
    var date := DateOf(ts);
    if !ClampedAbove(date) && !ClampedBelow(date) {
      var n := (ts.seconds - EPOCH_SHIFT) * NANOS + ts.nanoseconds;
      assert date.t * NANOS as real == n as real;
      assert Trunc(n as real) == n;
      assert n + EPOCH_SHIFT * NANOS == TotalNanos(ts);
      SplitUnique(ts);
    }
  }

  /** An unclamped date comes back within one nanosecond, on the side of the reference date. */
  lemma DateRoundTrip(t: real)
    requires !ClampedAbove(At(t)) && !ClampedBelow(At(t))
    ensures var back := DateOf(TimestampOf(At(t)));
            && back.At? && (t - back.t) * NANOS as real < 1.0 && (back.t - t) * NANOS as real < 1.0
            && (t >= 0.0 ==> 0.0 <= back.t <= t) && (t <= 0.0 ==> t <= back.t <= 0.0)
  {
    var k := Trunc(t * NANOS as real);
    var ts := TimestampOf(At(t));
    assert TotalNanos(ts) == k + EPOCH_SHIFT * NANOS;
    var back := DateOf(ts).t;
    assert back * NANOS as real == k as real by {
      assert back * NANOS as real ==
             (ts.seconds - EPOCH_SHIFT) as real * NANOS as real + ts.nanoseconds as real;
    }
  }

  // ---- The constants ----------------------------------------------------------------------------

  predicate LeapYear(year: nat) {
    year % 4 == 0 && (year % 100 != 0 || year % 400 == 0)
  }

  /** The days from the start of one year to the start of another. */
  function Days(from: nat, to: nat): nat {
    if from >= to then 0 else Days(from, to - 1) + if LeapYear(to - 1) then 366 else 365
  }

  /** The reference date of dates is the start of 2001, and that of timestamps the start of 1970. */
  lemma EpochShiftIsDays()
    ensures EPOCH_SHIFT == Days(1970, 2001) * 24 * 60 * 60
  {
    assert Days(1970, 1980) == 3652;
    assert Days(1970, 1990) == 7305;
    assert Days(1970, 2001) == 11323;
  }

  function TwoTo(n: nat): int {
    if n == 0 then 1 else 2 * TwoTo(n - 1)
  }

  /** Seconds are 64-bit integers, and there are a thousand million nanoseconds in one. */
  lemma SecondsAreWide()
    ensures INT64_MAX == TwoTo(63) - 1 && INT64_MIN == -TwoTo(63) && NANOS == 1000 * 1000 * 1000
  {
    assert TwoTo(8) == 0x100;
    assert TwoTo(16) == 0x1_0000;
    assert TwoTo(24) == 0x100_0000;
    assert TwoTo(32) == 0x1_0000_0000;
    assert TwoTo(40) == 0x100_0000_0000;
    assert TwoTo(48) == 0x1_0000_0000_0000;
    assert TwoTo(56) == 0x100_0000_0000_0000;
  }

  /** The last second above and the first two shifts below are clamped although they could be represented. Anything
      that is no date is the start of 1970, and no date is no timestamp.
   */
  lemma ClampsAreEarly(t: real)
    ensures ClampedAbove(At(t)) <==> t + EPOCH_SHIFT as real >= INT64_MAX as real
    ensures ClampedBelow(At(t)) <==> t + EPOCH_SHIFT as real < (INT64_MIN + 2 * EPOCH_SHIFT) as real
    ensures ClampedAbove(PlusInfinity) && ClampedBelow(MinusInfinity)
    ensures TimestampOf(NotANumber) == Time(0, 0) && TimestampOf(NoDate) == NullTimestamp
    ensures DateOf(NullTimestamp) == NoDate
  {
  }
}
