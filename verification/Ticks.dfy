/** Scaling the ticks of a hardware clock to nanoseconds in 64-bit arithmetic. */
module Ticks {
  import opened Bytes

  const MAX: int := 0x7FFF_FFFF_FFFF_FFFF

  /** The machine's signed 64-bit integers. Operands are never negative here, so `/` and `%` are C's. */
  newtype int64 = x: int | -0x8000_0000_0000_0000 <= x <= 0x7FFF_FFFF_FFFF_FFFF

  lemma AtLeast(d: int, b: int)
    requires d >= 1 && b > 0
    ensures d * b >= b
  {
    assert (d - 1) * b >= 0;
  }

  lemma QuotientUnique(a: int, b: int, q: int, r: int)
    requires b > 0 && a == q * b + r && 0 <= r < b
    ensures a / b == q
  {
    var d := a / b - q;
    assert d * b == r - a % b;
    if d >= 1 {
      AtLeast(d, b);
    } else if d <= -1 {
      AtLeast(-d, b);
    }
  }

  /** Splitting the ticks into whole periods and a rest loses nothing to rounding. */
  lemma SplitIsExact(ticks: int, mul: int, div: int)
    requires ticks >= 0 && mul > 0 && div > 0
    ensures (ticks / div) * mul + (ticks % div) * mul / div == ticks * mul / div
  {
    var q, r := ticks / div, ticks % div;
    var part := r * mul;
    assert ticks * mul == (q * div + r) * mul == (q * mul) * div + part;
    assert part >= 0;
    QuotientUnique(ticks * mul, div, q * mul + part / div, part % div) by {
      assert part == (part / div) * div + part % div;
      assert (q * mul + part / div) * div == (q * mul) * div + (part / div) * div;
    }
  }

  lemma ScalingIsMonotone(t: int, u: int, mul: int, div: int)
    requires 0 <= t <= u && mul > 0 && div > 0
    ensures 0 <= t * mul / div <= u * mul / div
  {
    var a, b := t * mul, u * mul;
    assert a <= b by {
      assert (u - t) * mul >= 0;
    }
    assert a >= 0;
    var d := a / div - b / div;
    assert d * div == a - a % div - (b - b % div);
    if d >= 1 {
      AtLeast(d, div);
    }
  }

  /** Every value the expression computes on the way. */
  predicate NothingOverflows(ticks: int, mul: int, div: int)
    requires div > 0
  {
    && (ticks / div) * mul <= MAX
    && (ticks % div) * mul <= MAX
    && (ticks / div) * mul + (ticks % div) * mul / div <= MAX
  }

  /** Exactly when nothing overflows: the result and the one product that is larger than it can be have to fit. */
  lemma SafeExactlyWhen(ticks: int, mul: int, div: int)
    requires ticks >= 0 && mul > 0 && div > 0
    ensures NothingOverflows(ticks, mul, div) <==> (ticks % div) * mul <= MAX && ticks * mul / div <= MAX
  {
    SplitIsExact(ticks, mul, div);
    assert (ticks % div) * mul >= 0;
    assert (ticks % div) * mul / div >= 0;
  }

  /** In particular whenever the timebase's product and the result fit, however large the ticks times `mul` are. */
  lemma SafeForTimebase(ticks: int, mul: int, div: int)
    requires ticks >= 0 && mul > 0 && div > 0 && div * mul <= MAX && ticks * mul / div <= MAX
    ensures NothingOverflows(ticks, mul, div)
  {
    SafeExactlyWhen(ticks, mul, div);
    assert (div - ticks % div) * mul >= 0;
  }

  lemma PartsAreNatural(ticks: int, mul: int, div: int)
    requires ticks >= 0 && mul > 0 && div > 0
    ensures 0 <= (ticks / div) * mul && 0 <= (ticks % div) * mul && 0 <= (ticks % div) * mul / div
  {
  }

  datatype Platform = Apple | Windows

  /** On Windows -1 stands for a clock without a timebase; on Apple, where nobody looks whether there is one, the
      program divides by zero. */
  datatype Reading = Nanoseconds(time: int64) | NoTimebase | DivisionByZero

  class MonotonicClock {
    const platform: Platform
    var mul: int64
    var div: int64

    constructor (platform: Platform)
      ensures this.platform == platform && mul == 1 && div == 0
    {
      this.platform, mul, div := platform, 1, 0;
    }

    /** The timebase is asked for as long as it is not known; `answer` is what the system says if it is asked now,
        None if it does not know. */
    method Now(answer: Option<(int64, int64)>, ticks: int64) returns (r: Reading)
      requires answer.Some? ==> answer.value.0 > 0 && answer.value.1 > 0
      requires div == 0 || (mul > 0 && div > 0)
      requires ticks >= 0
      requires var (m, d) := if div != 0 then (mul, div) else if answer.Some? then answer.value else (1, 1);
        NothingOverflows(ticks as int, m as int, d as int)
      modifies this
      ensures div == 0 || (mul > 0 && div > 0)
      ensures old(div) != 0 ==> mul == old(mul) && div == old(div)
      ensures old(div) == 0 ==> div == if answer.Some? then answer.value.1 else 0
      ensures old(div) == 0 && answer.Some? ==> mul == answer.value.0
      ensures div == 0 ==> r == if platform.Apple? then DivisionByZero else NoTimebase
      ensures div != 0 ==> r.Nanoseconds? && r.time as int == ticks as int * mul as int / div as int
    {
      if div == 0 {
        match platform
        case Apple =>
          // the timebase starts out as all zeroes, and the result of asking for it is not looked at
          mul, div := if answer.Some? then answer.value.0 else 0, if answer.Some? then answer.value.1 else 0;
        case Windows =>
          if answer.None? {
            return NoTimebase;
          }
          mul, div := answer.value.0, answer.value.1;
      }
      if div == 0 {
        return DivisionByZero;
      }
      SplitIsExact(ticks as int, mul as int, div as int);
      PartsAreNatural(ticks as int, mul as int, div as int);
      return Nanoseconds((ticks / div) * mul + (ticks % div) * mul / div);
    }
  }
}
