/** Forward simulation of the NDS envelope, as `calculate_attack`,
    `calculate_decay`, `calculate_sustain` and `calculate_release` perform it
    when they are asked for a physical value: the number of envelope ticks an
    attack, decay or release register takes to cross the zero point, and the
    amplitude a sustain register holds.

    The tick counts are specification functions; the loops that count them
    step by step are the methods of `AdsrApp.App`, which are proved equal to
    these functions. */
module NdsEnvelope {
  import opened NdsTables

  const I32Min: int := -0x8000_0000
  const I32Max: int := 0x7fff_ffff

  predicate InI32(x: int)
  {
    I32Min <= x <= I32Max
  }

  lemma MulMonotone(a: int, b: int, c: int)
    requires a <= b && c >= 0
    ensures a * c <= b * c
  {
  }

  lemma DivMod(a: int, b: int)
    requires b > 0
    ensures a == (a / b) * b + a % b && 0 <= a % b < b
  {
  }

  lemma QuotientNonNegative(a: int, b: int)
    requires b > 0 && a >= 0
    ensures 0 <= (a / b) * b <= a < (a / b) * b + b
  {
    DivMod(a, b);
  }

  /** Rust's `/` on `i32`: the quotient rounded toward zero, so the remainder
      takes the sign of the dividend (Dafny's own `/` rounds toward minus
      infinity for a positive divisor). */
  function TruncDiv(a: int, b: int): (q: int)
    requires b > 0
    ensures a >= 0 ==> 0 <= q * b <= a < q * b + b
    ensures a < 0 ==> q * b - b < a <= q * b <= 0
  {
    if a >= 0 then
      QuotientNonNegative(a, b);
      a / b
    else
      QuotientNonNegative(-a, b);
      assert (-((-a) / b)) * b == -(((-a) / b) * b);
      -((-a) / b)
  }

  /** A product below the next multiple bounds the factor. */
  lemma MulCancel(x: int, y: int, d: int)
    requires d > 0 && x * d < y * d + d
    ensures x <= y
  {
    if x > y {
      MulMonotone(y + 1, x, d);
      assert false;
    }
  }

  lemma TruncDivMonotone(a: int, b: int, d: int)
    requires a <= b && d > 0
    ensures TruncDiv(a, d) <= TruncDiv(b, d)
  {
    var qa, qb := TruncDiv(a, d), TruncDiv(b, d);
    MulCancel(qa, qb, d);
  }

  /** The least number of whole steps of size `d` that cover `n`. */
  function CeilDiv(n: int, d: int): (k: nat)
    requires n >= 0 && d >= 1
    ensures k * d >= n
    ensures k == 0 || (k - 1) * d < n
  {
    DivMod(n + d - 1, d);
    var k := (n + d - 1) / d;
    assert (k - 1) * d == k * d - d;
    k
  }

  /** The two properties of `CeilDiv` determine it. */
  lemma CeilDivUnique(n: int, d: int, k: nat)
    requires n >= 0 && d >= 1
    requires k * d >= n && (k == 0 || (k - 1) * d < n)
    ensures k == CeilDiv(n, d)
  {
    var c := CeilDiv(n, d);
    if k < c {
      MulMonotone(k, c - 1, d);
    } else if k > c {
      MulMonotone(c, k - 1, d);
    }
  }

  /** A larger step covers the same distance in no more steps. */
  lemma CeilDivAntitone(n: int, d1: int, d2: int)
    requires n >= 0 && 1 <= d1 <= d2
    ensures CeilDiv(n, d2) <= CeilDiv(n, d1)
  {
    var k1, k2 := CeilDiv(n, d1), CeilDiv(n, d2);
    MulMonotone(d1, d2, k1);
    if k2 > k1 {
      MulMonotone(k1, k2 - 1, d2);
    }
  }

  lemma MulStepDown(a: int, c: int)
    ensures (a - 1) * c + c == a * c
  {
  }

  lemma MulRegroup(k: int, d1: int, d2: int)
    ensures (k * d1) * d2 == ((k - 1) * d2) * d1 + d1 * d2
  {
  }

  lemma MulSplit(n: int, d1: int, d2: int)
    ensures n * d2 == n * d1 + n * (d2 - d1)
  {
  }

  /** A step larger by a wide enough margin, `n * (d2 - d1) >= d1 * d2`,
      covers the distance `n` in strictly fewer steps. */
  lemma CeilDivStrict(n: int, d1: int, d2: int)
    requires n >= 0 && 1 <= d1 < d2 && n * (d2 - d1) >= d1 * d2
    ensures CeilDiv(n, d2) < CeilDiv(n, d1)
  {
    var k1, k2 := CeilDiv(n, d1), CeilDiv(n, d2);
    var m := (k1 - 1) * d2;
    // n <= k1 * d1, so n * d2 <= m * d1 + d1 * d2 <= m * d1 + n * (d2 - d1).
    MulMonotone(n, k1 * d1, d2);
    MulRegroup(k1, d1, d2);
    MulSplit(n, d1, d2);
    MulCancel(n, m, d1);
    // (k2 - 1) * d2 < n <= (k1 - 1) * d2.
    MulStepDown(k1 - 1, d2);
    MulCancel(k2 - 1, k1 - 2, d2);
  }

  /** A positive distance takes at least one step and at most one per unit. */
  lemma CeilDivBounds(n: int, d: int)
    requires n >= 1 && d >= 1
    ensures 1 <= CeilDiv(n, d) <= n
  {
    CeilDivAntitone(n, 1, d);
    var k, k1 := CeilDiv(n, d), CeilDiv(n, 1);
    assert k1 == n;
  }

  /** A longer distance takes no fewer steps. */
  lemma CeilDivMonotone(n1: int, n2: int, d: int)
    requires 0 <= n1 <= n2 && d >= 1
    ensures CeilDiv(n1, d) <= CeilDiv(n2, d)
  {
    var k1, k2 := CeilDiv(n1, d), CeilDiv(n2, d);
    if k1 > k2 {
      MulMonotone(k2, k1 - 1, d);
    }
  }

  // ---------------------------------------------------------------------------
  // Attack: vel = attack_table[r] * vel / 0xff, from ZERO_POINT until vel >= 0.

  /** One attack tick with multiplier `t`, in `i32` arithmetic. */
  function AttackStep(t: int, vel: int): (v: int)
    ensures t * vel >= 0 ==> 0 <= v * 255 <= t * vel < v * 255 + 255
    ensures t * vel < 0 ==> v * 255 - 255 < t * vel <= v * 255 <= 0
  {
    TruncDiv(t * vel, 255)
  }

  /** The product of the attack tick stays inside `i32` for every table
      multiplier and every velocity between the zero point and 0, and the
      tick keeps the velocity in that interval. */
  lemma AttackProductFitsI32(t: int, vel: int)
    requires 0 <= t <= 255 && ZeroPoint <= vel <= 0
    ensures InI32(t * vel)
    ensures ZeroPoint <= AttackStep(t, vel) <= 0
  {
    MulMonotone(t, 255, -vel);
  }

  /** A multiplier of at most 254 moves a negative velocity strictly toward 0
      without passing it; truncation toward zero is what makes this hold
      (with Dafny's rounding, -254 / 255 would stay at -1 for ever). */
  lemma AttackStepRises(t: int, vel: int)
    requires 0 <= t <= 254 && vel < 0
    ensures vel < AttackStep(t, vel) <= 0
  {
    MulMonotone(t, 254, -vel);
    assert t * vel == -(t * -vel);
  }

  /** The multiplier 255 of register 0 leaves every velocity where it is, so
      the attack loop could never end for register 0. */
  lemma FullMultiplierIsFixedPoint(tables: EnvelopeTables, vel: int)
    requires Shaped(tables)
    ensures AttackStep(tables.attack[0], vel) == vel
  {
  }

  /** Number of attack ticks with multiplier `t` from velocity `vel` until the
      velocity is no longer negative. */
  function AttackStepsFrom(t: int, vel: int): (n: nat)
    requires 0 <= t <= 254
    ensures vel < 0 ==> 1 <= n <= -vel
    ensures vel >= 0 ==> n == 0
    decreases if vel < 0 then -vel else 0
  {
    if vel >= 0 then 0
    else
      AttackStepRises(t, vel);
      1 + AttackStepsFrom(t, AttackStep(t, vel))
  }

  /** Attack ticks of register `r` (register 0 never finishes and is
      answered with infinity by the source instead). */
  function AttackSteps(tables: EnvelopeTables, r: int): (n: nat)
    requires Shaped(tables) && 1 <= r < TableSize
    ensures 1 <= n <= -ZeroPoint
  {
    AttackBounds(tables);
    AttackStepsFrom(tables.attack[r], ZeroPoint)
  }

  /** A larger multiplier from a lower start never takes fewer ticks. */
  lemma {:induction false} AttackStepsFromMonotone(t1: int, t2: int, v1: int, v2: int)
    requires 0 <= t2 <= t1 <= 254 && v1 <= v2
    ensures AttackStepsFrom(t1, v1) >= AttackStepsFrom(t2, v2)
    decreases if v1 < 0 then -v1 else 0
  {
    if v2 < 0 {
      MulMonotone(t2, t1, -v1);
      MulMonotone(-v2, -v1, t2);
      assert t1 * v1 <= t2 * v2 by {
        assert t1 * v1 == -(t1 * -v1);
        assert t2 * v2 == -(t2 * -v2);
      }
      TruncDivMonotone(t1 * v1, t2 * v2, 255);
      AttackStepRises(t1, v1);
      AttackStepsFromMonotone(t1, t2, AttackStep(t1, v1), AttackStep(t2, v2));
    }
  }

  /** Because the attack multipliers fall with the register, the attack tick
      count never grows with the register. */
  lemma AttackStepsNonIncreasing(tables: EnvelopeTables, i: int, j: int)
    requires Shaped(tables) && 1 <= i <= j < TableSize
    ensures AttackSteps(tables, j) <= AttackSteps(tables, i)
  {
    AttackBounds(tables);
    AttackStepsFromMonotone(tables.attack[i], tables.attack[j], ZeroPoint, ZeroPoint);
  }

  /** Register 127 has multiplier 0 and reaches 0 on its first tick. */
  lemma AttackLastRegisterOneTick(tables: EnvelopeTables)
    requires Shaped(tables)
    ensures AttackSteps(tables, 127) == 1
  {
    assert AttackStep(0, ZeroPoint) == 0;
  }

  // ---------------------------------------------------------------------------
  // Decay and release: vel -= decay_table[r], from 0 until vel <= ZERO_POINT.

  /** Decay (and release) ticks of register `r`: the decrement
      `decay_table[r]` is subtracted until the zero point is reached, which
      takes the least number of decrements covering |ZERO_POINT|. Every
      register takes part; there is no special case for register 0. */
  function DecaySteps(tables: EnvelopeTables, r: int): (n: nat)
    requires Shaped(tables) && 0 <= r < TableSize
    ensures 1 <= n <= -ZeroPoint
  {
    DecayBounds(tables);
    CeilDivBounds(-ZeroPoint, tables.decay[r]);
    CeilDiv(-ZeroPoint, tables.decay[r])
  }

  /** Because the decay decrements rise with the register, the decay tick
      count never grows with the register. */
  lemma DecayStepsNonIncreasing(tables: EnvelopeTables, i: int, j: int)
    requires Shaped(tables) && 0 <= i <= j < TableSize
    ensures DecaySteps(tables, j) <= DecaySteps(tables, i)
  {
    DecayBounds(tables);
    CeilDivAntitone(-ZeroPoint, tables.decay[i], tables.decay[j]);
  }

  /** With wide gaps between neighbouring decrements, as the converter's
      decay table has, decay tick counts fall strictly with the register: no
      two registers share a decay (or release) time. */
  lemma {:induction false} DecayStepsDecreasing(tables: EnvelopeTables, i: int, j: int)
    requires Shaped(tables) && WideGaps(tables.decay) && 0 <= i < j < TableSize
    ensures DecaySteps(tables, j) < DecaySteps(tables, i)
    decreases j - i
  {
    DecayBounds(tables);
    CeilDivStrict(-ZeroPoint, tables.decay[j - 1], tables.decay[j]);
    if i < j - 1 {
      DecayStepsDecreasing(tables, i, j - 1);
    }
  }

  /** Register 0 (decrement 1) takes 92544 ticks, register 127 (decrement
      65535) two. */
  lemma DecayStepsEnds(tables: EnvelopeTables)
    requires Shaped(tables)
    ensures DecaySteps(tables, 0) == 92544 && DecaySteps(tables, 127) == 2
  {
    CeilDivUnique(-ZeroPoint, 1, 92544);
    CeilDivUnique(-ZeroPoint, 65535, 2);
  }

  /** `steps as f64 / TPS`: a tick count as seconds. */
  function Seconds(steps: nat): (s: real)
    ensures s * TicksPerSecond as real == steps as real
  {
    steps as real / TicksPerSecond as real
  }

  /** Converting ticks to seconds keeps their order. */
  lemma SecondsOrder(a: nat, b: nat)
    ensures Seconds(a) <= Seconds(b) <==> a <= b
    ensures Seconds(a) < Seconds(b) <==> a < b
  {
    assert TicksPerSecond as real == 192.0;
  }

  // ---------------------------------------------------------------------------
  // Sustain: amplitude sustain_table[127 - r] / ZERO_POINT.

  /** Linear amplitude held by sustain register `r`. */
  function SustainAmplitude(tables: EnvelopeTables, r: int): (a: real)
    requires Shaped(tables) && 0 <= r < TableSize
    ensures r == 0 ==> a == 0.0
    ensures r == 127 ==> a == 1.0
    ensures 1 <= r ==> 0.0 < a <= 1.0
  {
    SustainBounds(tables);
    assert ZeroPoint as real == -92544.0;
    tables.sustain[127 - r] as real / ZeroPoint as real
  }

  /** A larger sustain register holds a strictly larger amplitude. */
  lemma SustainAmplitudeIncreasing(tables: EnvelopeTables, i: int, j: int)
    requires Shaped(tables) && 0 <= i < j < TableSize
    ensures SustainAmplitude(tables, i) < SustainAmplitude(tables, j)
  {
    var si, sj := tables.sustain[127 - i] as real, tables.sustain[127 - j] as real;
    assert sj < si;
    assert ZeroPoint as real == -92544.0;
  }

  function RealAbs(x: real): real
  {
    if x < 0.0 then -x else x
  }

  /** `log10` is a parameter of the model; the facts about sustain assume only
      that it is strictly increasing on the positive reals. */
  ghost predicate IncreasingOnPositives(log10: real -> real)
  {
    forall x, y :: 0.0 < x < y ==> log10(x) < log10(y)
  }

  /** Decibels to attenuate by, as the forward branch of `calculate_sustain`
      reports them for a register in 1..127. */
  function SustainAttenuation(tables: EnvelopeTables, r: int, log10: real -> real): (a: real)
    requires Shaped(tables) && 1 <= r < TableSize
    ensures a >= 0.0
    ensures r == 127 && log10(1.0) == 0.0 ==> a == 0.0
  {
    RealAbs(20.0 * log10(RealAbs(SustainAmplitude(tables, r))))
  }

  /** With an increasing logarithm that is 0 at 1, a larger sustain register
      attenuates strictly less, and register 127 does not attenuate at all. */
  lemma SustainAttenuationDecreasing(tables: EnvelopeTables, i: int, j: int, log10: real -> real)
    requires Shaped(tables) && 1 <= i < j < TableSize
    requires IncreasingOnPositives(log10) && log10(1.0) == 0.0
    ensures SustainAttenuation(tables, j, log10) < SustainAttenuation(tables, i, log10)
    ensures SustainAttenuation(tables, 127, log10) == 0.0
  {
    var ai, aj := SustainAmplitude(tables, i), SustainAmplitude(tables, j);
    SustainAmplitudeIncreasing(tables, i, j);
    if aj < 1.0 {
      assert log10(aj) < log10(1.0);
    }
    assert log10(ai) < log10(aj);
  }
}
