/** Time-base arithmetic on the way from container ticks to RTP samples.
    A duration is its number of nanoseconds. */
module TimeMath {
  import opened Common
  import opened Arithmetic

  const NANOS: nat := 1_000_000_000
  const I128_MAX: int := 0x7FFF_FFFF_FFFF_FFFF_FFFF_FFFF_FFFF_FFFF
  const U128_MAX: nat := 0xFFFF_FFFF_FFFF_FFFF_FFFF_FFFF_FFFF_FFFF

  type I32 = i: int | -0x8000_0000 <= i < 0x8000_0000
  type I64 = i: int | -0x8000_0000_0000_0000 <= i < 0x8000_0000_0000_0000
  type U32 = i: int | 0 <= i < 0x1_0000_0000

  /** The longest duration: u64 seconds and just under a second more. */
  const DURATION_MAX: nat := U64_MAX * NANOS + (NANOS - 1)

  datatype Rational = Rational(num: I32, den: I32)

  function CheckedMul(a: int, b: int): Option<int> {
    if -I128_MAX - 1 <= a * b <= I128_MAX then Some(a * b) else None
  }

  function SaturatingMul(a: nat, b: nat): nat {
    if a * b <= U128_MAX then a * b else U128_MAX
  }

  function DurationFromTimeBase(value: Option<I64>, timeBase: Rational): Option<nat> {
    if value.None? || value.value < 0 || timeBase.num <= 0 || timeBase.den <= 0 then None
    else
      match CheckedMul(value.value, timeBase.num)
      case None => None
      case Some(scaled) =>
        match CheckedMul(scaled, NANOS)
        case None => None
        case Some(nanos) =>
          var d := nanos / timeBase.den;
          if 0 <= d <= U64_MAX then Some(d) else None
  }

  function DurationFromPacket(value: I64, timeBase: Rational): Option<nat> {
    if value <= 0 then None else DurationFromTimeBase(Some(value), timeBase)
  }

  function FrameDurationFromRate(rate: Rational): Option<nat> {
    if rate.num <= 0 || rate.den <= 0 then None
    else
      match CheckedMul(NANOS, rate.den)
      case None => None
      case Some(nanos) =>
        var d := nanos / rate.num;
        if 0 < d <= U64_MAX then Some(d) else None
  }

  function DurationToRtpSamples(duration: nat, clockRate: U32): nat {
    var samples := SaturatingMul(duration, clockRate) / NANOS;
    if samples < 1 then 1 else if samples > U32_MAX then U32_MAX else samples
  }

  // ------------------------------------------------------------------

  /** None of the checked products can overflow: the conversion fails exactly
      for a missing or negative tick, a time base that is not positive, or a
      result beyond 64 bits of nanoseconds. */
  lemma TimeBaseNeverOverflows(value: Option<I64>, timeBase: Rational)
    ensures DurationFromTimeBase(value, timeBase) ==
      if value.Some? && value.value >= 0 && timeBase.num > 0 && timeBase.den > 0
         && value.value * timeBase.num * NANOS / timeBase.den <= U64_MAX
      then Some(value.value * timeBase.num * NANOS / timeBase.den)
      else None
  {
    if value.Some? && value.value >= 0 && timeBase.num > 0 && timeBase.den > 0 {
      var scaled := value.value * timeBase.num;
      MulMono(value.value, 0x7FFF_FFFF_FFFF_FFFF, timeBase.num, 0x7FFF_FFFF);
      assert CheckedMul(value.value, timeBase.num) == Some(scaled);
      MulMono(scaled, 0x7FFF_FFFF_FFFF_FFFF * 0x7FFF_FFFF, NANOS, NANOS);
      assert CheckedMul(scaled, NANOS) == Some(scaled * NANOS);
      DivNat(scaled * NANOS, timeBase.den);
    }
  }

  /** A packet has a duration only for at least one tick, and then that of its
      ticks; none for no ticks at all, although those would take no time. */
  lemma PacketDurationExactly(value: I64, timeBase: Rational)
    ensures DurationFromPacket(value, timeBase) ==
      if value >= 1 && timeBase.num > 0 && timeBase.den > 0 && value * timeBase.num * NANOS / timeBase.den <= U64_MAX
      then Some(value * timeBase.num * NANOS / timeBase.den)
      else None
    ensures timeBase.num > 0 && timeBase.den > 0 ==>
      DurationFromPacket(0, timeBase) == None && DurationFromTimeBase(Some(0), timeBase) == Some(0)
  {
    TimeBaseNeverOverflows(Some(value), timeBase);
    TimeBaseNeverOverflows(Some(0), timeBase);
  }

  /** The saturating product never saturates on a real duration. */
  lemma SamplesNeverSaturate(duration: nat, clockRate: U32)
    requires duration <= DURATION_MAX
    ensures SaturatingMul(duration, clockRate) == duration * clockRate
  {
    MulMono(duration, DURATION_MAX, clockRate, U32_MAX);
  }

  /** A frame lasts one tick of the inverse time base, and there is no duration
      when that is less than a nanosecond. */
  lemma FrameIsOneTick(rate: Rational)
    ensures var tick := DurationFromTimeBase(Some(1), Rational(rate.den, rate.num));
      FrameDurationFromRate(rate) == if tick == Some(0) then None else tick
  {
    assert 1 * rate.den * NANOS == NANOS * rate.den;
  }

  lemma DurationMonotone(a: I64, b: I64, timeBase: Rational)
    requires 0 <= a <= b
    requires DurationFromTimeBase(Some(b), timeBase).Some?
    ensures DurationFromTimeBase(Some(a), timeBase).Some?
    ensures DurationFromTimeBase(Some(a), timeBase).value <= DurationFromTimeBase(Some(b), timeBase).value
  {
    TimeBaseNeverOverflows(Some(a), timeBase);
    TimeBaseNeverOverflows(Some(b), timeBase);
    MulMono(a, b, timeBase.num, timeBase.num);
    MulMono(a * timeBase.num, b * timeBase.num, NANOS, NANOS);
    FloorMono(a * timeBase.num * NANOS, b * timeBase.num * NANOS, timeBase.den);
  }

  lemma SamplesMonotone(a: nat, b: nat, clockRate: U32)
    requires a <= b <= DURATION_MAX
    ensures 1 <= DurationToRtpSamples(a, clockRate) <= DurationToRtpSamples(b, clockRate) <= U32_MAX
  {
    SamplesNeverSaturate(a, clockRate);
    SamplesNeverSaturate(b, clockRate);
    MulMono(a, b, clockRate, clockRate);
    FloorMono(a * clockRate, b * clockRate, NANOS);
  }

  /** q is a / d rounded down. */
  ghost predicate IsFloor(q: nat, a: nat, d: nat) {
    d > 0 && q * d <= a < (q + 1) * d
  }

  lemma DivIsFloor(a: nat, d: nat)
    requires d > 0
    ensures a / d >= 0 && IsFloor(a / d, a, d)
  {
    FloorBounds(a, d);
  }

  lemma TwiceAtMostOnce(x: nat, d: nat, c: nat, n: nat, once: nat, twice: nat)
    requires IsFloor(n, x * NANOS, d) && IsFloor(twice, n * c, NANOS) && IsFloor(once, x * c, d)
    ensures twice <= once
  {
    calc {
      twice * d * NANOS;
    == { Swap(twice, d, NANOS); }
      twice * NANOS * d;
    <= { MulMono(twice * NANOS, n * c, d, d); }
      n * c * d;
    == { Swap(n, c, d); }
      n * d * c;
    <= { MulMono(n * d, x * NANOS, c, c); }
      x * NANOS * c;
    == { Swap(x, NANOS, c); }
      x * c * NANOS;
    <  { StrictMul(x * c, (once + 1) * d, NANOS); }
      (once + 1) * d * NANOS;
    }
    Cancel(twice * d, (once + 1) * d, NANOS);
    Cancel(twice, once + 1, d);
  }

  lemma OnceAtMostMore(x: nat, d: nat, c: nat, n: nat, once: nat, twice: nat, lost: nat)
    requires c <= lost * NANOS
    requires IsFloor(n, x * NANOS, d) && IsFloor(twice, n * c, NANOS) && IsFloor(once, x * c, d)
    ensures once <= twice + lost
  {
    calc {
      once * NANOS * d;
    == { Swap(once, NANOS, d); }
      once * d * NANOS;
    <= { MulMono(once * d, x * c, NANOS, NANOS); }
      x * c * NANOS;
    == { Swap(x, c, NANOS); }
      x * NANOS * c;
    <= { MulMono(x * NANOS, (n + 1) * d, c, c); }
      (n + 1) * d * c;
    == { Swap(n + 1, d, c); }
      (n + 1) * c * d;
    <  { Distribute(n, c); StrictMul((n + 1) * c, (twice + 1 + lost) * NANOS, d); }
      (twice + 1 + lost) * NANOS * d;
    }
    Cancel(once * NANOS, (twice + 1 + lost) * NANOS, d);
  }

  /** How many samples a clock rate can lose: one for each 10^9 of it, or part
      of that. */
  function MostLost(clockRate: nat): nat {
    (clockRate + (NANOS - 1)) / NANOS
  }

  /** Two roundings instead of one: what going through whole nanoseconds loses
      from the exact floor of x * c / d; at most one for c up to 10^9. */
  lemma DoubleFloor(x: nat, d: nat, c: nat)
    requires d > 0
    ensures var once, twice := x * c / d, x * NANOS / d * c / NANOS;
      twice <= once <= twice + MostLost(c)
    ensures 0 < c <= NANOS ==> MostLost(c) == 1
  {
    DivIsFloor(x * NANOS, d);
    var n := x * NANOS / d;
    MulMono(0, x, 0, c);
    MulMono(0, n, 0, c);
    DivIsFloor(x * c, d);
    DivIsFloor(n * c, NANOS);
    TwiceAtMostOnce(x, d, c, n, x * c / d, n * c / NANOS);
    OnceAtMostMore(x, d, c, n, x * c / d, n * c / NANOS, MostLost(c));
  }

  /** The range of the result. */
  function InRange(samples: int): int {
    if samples < 1 then 1 else if samples > U32_MAX then U32_MAX else samples
  }

  /** A packet of t ticks at any time base becomes the exact number of RTP
      samples rounded down, or less by what the clock rate can lose (one, up to
      10^9), and never less than one. */
  lemma TicksToSamples(t: I64, timeBase: Rational, clockRate: U32)
    requires DurationFromPacket(t, timeBase).Some?
    ensures var exact := t * timeBase.num * clockRate / timeBase.den;
      var samples := DurationToRtpSamples(DurationFromPacket(t, timeBase).value, clockRate);
      InRange(exact - MostLost(clockRate)) <= samples <= InRange(exact)
  {
    TimeBaseNeverOverflows(Some(t), timeBase);
    var duration := DurationFromPacket(t, timeBase).value;
    SamplesNeverSaturate(duration, clockRate);
    MulMono(0, t, 0, timeBase.num);
    DoubleFloor(t * timeBase.num, timeBase.den, clockRate);
  }

  /** At time base 1/r and clock rate r the tick count itself comes back
      exactly when r divides t * 10^9 or t is 1; otherwise one sample is lost. */
  lemma MatchingClock(t: I64, r: U32)
    requires 1 <= r <= NANOS && 1 <= t <= U32_MAX
    requires t * NANOS / r <= U64_MAX
    ensures DurationFromPacket(t, Rational(1, r)).Some?
    ensures DurationToRtpSamples(DurationFromPacket(t, Rational(1, r)).value, r)
         == if t == 1 || t * NANOS % r == 0 then t else t - 1
  {
    TimeBaseNeverOverflows(Some(t), Rational(1, r));
    var n := t * NANOS / r;
    var lost := t * NANOS % r;
    assert n * r + lost == t * NANOS;
    SamplesNeverSaturate(n, r);
    if lost == 0 {
      FloorIs(n * r, NANOS, t);
    } else {
      FloorIs(n * r, NANOS, t - 1);
    }
  }
}
