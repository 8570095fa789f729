/** DualSense motion calibration: the C arithmetic of the scale factors and of
    mult_frac, and exactly when it stays within int32. */
module Calibrations {
  import opened Seqs

  // ---- C arithmetic -------------------------------------------------------------

  function Abs(x: int): nat { if x < 0 then -x else x }

  /** C division: truncates toward zero. */
  function Div(x: int, d: int): int
    requires d != 0
  {
    if (x < 0) == (d < 0) then Abs(x) / Abs(d) else -(Abs(x) / Abs(d))
  }

  /** C remainder: takes the sign of the dividend. */
  function Rem(x: int, d: int): int
    requires d != 0
  {
    x - Div(x, d) * d
  }

  predicate Int16(x: int) { -0x8000 <= x <= 0x7FFF }
  predicate Int32(x: int) { -0x8000_0000 <= x <= 0x7FFF_FFFF }
  predicate UInt16(x: int) { 0 <= x <= 0xFFFF }

  /** Conversion to int16_t. */
  function ToInt16(x: int): (r: int)
    ensures Int16(r) && (x - r) % 0x1_0000 == 0
  {
    (x + 0x8000) % 0x1_0000 - 0x8000
  }

  function MultFrac(x: int, n: int, d: int): int
    requires d != 0
  {
    Div(x, d) * n + Div(Rem(x, d) * n, d)
  }

  // ---- mult_frac is exact --------------------------------------------------------

  lemma QuotientSigns(x: int, d: int)
    requires d != 0
    ensures Div(-x, d) == -Div(x, d) && Div(x, -d) == -Div(x, d)
  {
    assert Abs(-x) == Abs(x) && Abs(-d) == Abs(d);
    if x == 0 {
      assert 0 / Abs(d) == 0;
    }
  }

  lemma ProductSigns(a: int, b: int)
    ensures (-a) * b == -(a * b) && a * (-b) == -(a * b) && (-a) * (-b) == a * b
  {
  }

  /** Division and remainder under a change of sign. */
  lemma DivSigns(x: int, d: int)
    requires d != 0
    ensures Div(-x, d) == -Div(x, d) && Div(x, -d) == -Div(x, d)
    ensures Rem(-x, d) == -Rem(x, d) && Rem(x, -d) == Rem(x, d)
  {
    QuotientSigns(x, d);
    ProductSigns(Div(x, d), d);
  }

  lemma DivOfSum(a: int, b: nat, d: nat)
    requires d > 0
    ensures (a * d + b) / d == a + b / d
  {
    var q, r := b / d, b % d;
    assert a * d + b == (a + q) * d + r;
    QuotientIs(a * d + b, d, a + q, r);
  }

  lemma QuotientIs(x: int, d: int, q: int, r: int)
    requires d > 0 && 0 <= r < d && x == q * d + r
    ensures x / d == q && x % d == r
  {
    var q', r' := x / d, x % d;
    assert (q - q') * d == r' - r;
    if q > q' {
      MulMonotone(1, q - q', d);
    }
    if q < q' {
      MulMonotone(q - q', -1, d);
    }
  }

  lemma MulMonotone(a: int, b: int, c: nat)
    requires a <= b
    ensures a * c <= b * c
  {
  }

  lemma ExactForNaturals(x: nat, n: nat, d: nat)
    requires d > 0
    ensures MultFrac(x, n, d) == Div(x * n, d)
  {
    var q, r := x / d, x % d;
    assert Div(x, d) == q && Rem(x, d) == r;
    assert x * n == (q * n) * d + r * n by {
      assert x == q * d + r;
      assert (q * d + r) * n == (q * d) * n + r * n;
      assert (q * d) * n == (q * n) * d;
    }
    assert r * n >= 0 && x * n >= 0;
    DivOfSum(q * n, r * n, d);
  }

  /** The sum in mult_frac when quotient and remainder, or the factor, change sign. */
  lemma SumSigns(q: int, r: int, n: int, d: int)
    requires d != 0
    ensures (-q) * n + Div((-r) * n, d) == -(q * n + Div(r * n, d))
    ensures q * (-n) + Div(r * (-n), d) == -(q * n + Div(r * n, d))
    ensures (-q) * n + Div(r * n, -d) == -(q * n + Div(r * n, d))
  {
  }

  lemma MultFracSigns(x: int, n: int, d: int)
    requires d != 0
    ensures MultFrac(-x, n, d) == -MultFrac(x, n, d)
    ensures MultFrac(x, -n, d) == -MultFrac(x, n, d)
    ensures MultFrac(x, n, -d) == -MultFrac(x, n, d)
  {
    DivSigns(x, d);
    SumSigns(Div(x, d), Rem(x, d), n, d);
  }

  /** Truncated x * n / d under a change of sign. */
  lemma ExactSigns(x: int, n: int, d: int)
    requires d != 0
    ensures Div((-x) * n, d) == -Div(x * n, d)
    ensures Div(x * (-n), d) == -Div(x * n, d)
    ensures Div(x * n, -d) == -Div(x * n, d)
  {
  }

  ghost predicate IsExact(x: int, n: int, d: int)
    requires d != 0
  {
    MultFrac(x, n, d) == Div(x * n, d)
  }

  lemma ExactUnderSigns(x: int, n: int, d: int)
    requires d != 0
    ensures IsExact(-x, n, d) <==> IsExact(x, n, d)
    ensures IsExact(x, -n, d) <==> IsExact(x, n, d)
    ensures IsExact(x, n, -d) <==> IsExact(x, n, d)
  {
    ExactSigns(x, n, d);
    MultFracSigns(x, n, d);
  }

  lemma ExactForAbs(x: int, n: int, d: int)
    requires d != 0
    ensures IsExact(x, n, d)
    decreases x < 0, n < 0, d < 0
  {
    ExactUnderSigns(x, n, d);
    if x < 0 {
      ExactForAbs(-x, n, d);
    } else if n < 0 {
      ExactForAbs(x, -n, d);
    } else if d < 0 {
      ExactForAbs(x, n, -d);
    } else {
      ExactForNaturals(x, n, d);
    }
  }

  /** mult_frac computes x * n / d, truncated, for every combination of signs. */
  lemma MultFracIsExact(x: int, n: int, d: int)
    requires d != 0
    ensures MultFrac(x, n, d) == Div(x * n, d)
  {
    ExactForAbs(x, n, d);
  }

  // ---- Overflow ------------------------------------------------------------------------

  /** No intermediate of mult_frac<int32_t, int16_t, int32_t>(x, n, d) overflows. */
  predicate Fits(x: int, n: int, d: int)
    requires d != 0
  {
    && Int32(Div(x, d)) && Int32(Rem(x, d))
    && Int32(Div(x, d) * n)
    && Int32(Rem(x, d) * n)
    && Int32(Div(Rem(x, d) * n, d))
    && Int32(MultFrac(x, n, d))
  }

  /** ... for any sample. */
  ghost predicate AlwaysFits(x: int, d: int)
    requires d != 0
  {
    forall n :: Int16(n) ==> Fits(x, n, d)
  }

  lemma DivShrinks(x: int, d: int)
    requires d != 0
    ensures Abs(Div(x, d)) <= Abs(x) && Abs(Rem(x, d)) <= Abs(x)
  {
    var q, r := Abs(x) / Abs(d), Abs(x) % Abs(d);
    assert q * Abs(d) + r == Abs(x);
    MulMonotone(1, Abs(d), q);
    assert Abs(Div(x, d)) == q;
    assert Abs(Rem(x, d)) == r by {
      ProductSigns(q, Abs(d));
    }
  }

  lemma ProductBound(a: int, b: int, k: nat, m: nat)
    requires Abs(a) <= k && Abs(b) <= m
    ensures Abs(a * b) <= k * m
  {
  }

  /** A numerator of at most 16 bits is safe over every denominator. */
  lemma SmallNumeratorFits(x: int, d: int)
    requires d != 0 && Abs(x) <= 0xFFFF
    ensures AlwaysFits(x, d)
  {
    forall n | Int16(n) ensures Fits(x, n, d) {
      DivShrinks(x, d);
      ProductBound(Div(x, d), n, 0xFFFF, 0x8000);
      ProductBound(Rem(x, d), n, 0xFFFF, 0x8000);
      ProductBound(x, n, 0xFFFF, 0x8000);
      DivShrinks(Rem(x, d) * n, d);
      MultFracIsExact(x, n, d);
      DivShrinks(x * n, d);
    }
  }

  lemma NaturalParts(x: nat, n: int, d: nat)
    requires d > 0
    ensures var q, r := x / d, x % d;
            && Div(x, d) == q && Rem(x, d) == r
            && Div(r * n, d) == (if n < 0 then -((r * -n) / d) else (r * n) / d)
            && MultFrac(x, n, d) == q * n + Div(r * n, d)
  {
    var r := x % d;
    assert x == (x / d) * d + r;
    if n < 0 {
      ProductSigns(r, -n);
      assert r * -n >= 0;
      QuotientSigns(r * -n, d);
    } else {
      assert r * n >= 0;
    }
  }

  lemma FractionBelow(r: nat, n: nat, d: nat)
    requires r < d
    ensures (r * n) / d <= n && (n > 0 ==> (r * n) / d < n)
    ensures 0 <= (r * n) / d && (r == 0 ==> (r * n) / d == 0)
  {
  }

  /** The exact condition for a non-negative numerator and a positive
      denominator, as for the gyroscope. */
  predicate GyroGuard(x: nat, d: nat)
    requires d > 0
  {
    (x / d <= 0xFFFF && x % d <= 0x1_0000) || (x / d == 0x1_0000 && x % d == 0)
  }

  /** The intermediates have these absolute values and the sign of n. */
  predicate PartsFit(q: int, r: int, m: int, f: int, limit: int) {
    q * m <= limit && r * m <= limit && f <= limit && q * m + f <= limit
  }

  lemma PartsAreNatural(x: nat, m: nat, d: nat)
    requires d > 0 && Int32(x)
    ensures Int32(x / d) && Int32(x % d) && (x / d) * m >= 0 && (x % d) * m >= 0 && ((x % d) * m) / d >= 0
  {
  }

  /** Fits, in terms of the quotient, the remainder and the fraction. */
  lemma FitsByParts(x: nat, n: int, d: nat)
    requires d > 0 && Int32(x)
    ensures Fits(x, n, d) <==>
              PartsFit(x / d, x % d, Abs(n), (x % d * Abs(n)) / d, if n < 0 then 0x8000_0000 else 0x7FFF_FFFF)
  {
    var q, r, m := x / d, x % d, Abs(n);
    NaturalParts(x, n, d);
    PartsAreNatural(x, m, d);
    if n < 0 {
      assert q * n == -(q * m) by { ProductSigns(q, m); assert m == -n; }
      assert r * n == -(r * m) by { ProductSigns(r, m); assert m == -n; }
      assert MultFrac(x, n, d) == -(q * m + (r * m) / d);
    } else {
      assert MultFrac(x, n, d) == q * m + (r * m) / d;
    }
  }

  lemma GuardSuffices(x: nat, n: int, d: nat)
    requires d > 0 && Int32(x) && Int16(n) && GyroGuard(x, d)
    ensures Fits(x, n, d)
  {
    GuardedPartsFit(x / d, x % d, Abs(n), d, if n < 0 then 0x8000_0000 else 0x7FFF_FFFF);
    FitsByParts(x, n, d);
  }

  lemma GuardedPartsFit(q: nat, r: nat, m: nat, d: nat, limit: int)
    requires r < d && 0x1_0000 * m <= limit
    requires (q <= 0xFFFF && r <= 0x1_0000) || (q == 0x1_0000 && r == 0)
    ensures PartsFit(q, r, m, (r * m) / d, limit)
  {
    FractionBelow(r, m, d);
    ProductsFit(q, r, m, (r * m) / d, limit);
  }

  lemma ProductsFit(q: nat, r: nat, m: nat, f: nat, limit: int)
    requires 0x1_0000 * m <= limit && f <= m
    requires (q <= 0xFFFF && r <= 0x1_0000) || (q == 0x1_0000 && r == 0 && f == 0)
    ensures PartsFit(q, r, m, f, limit)
  {
  }

  lemma GuardIsNeeded(x: nat, d: nat)
    requires d > 0 && Int32(x) && Fits(x, -0x8000, d)
    ensures GyroGuard(x, d)
  {
    var q, r := x / d, x % d;
    FitsByParts(x, -0x8000, d);
    if q == 0x1_0000 {
      SmallDivisor(x, d);
      NoRemainder(r, d);
    }
  }

  lemma SmallDivisor(x: nat, d: nat)
    requires d > 0 && Int32(x) && x / d == 0x1_0000
    ensures d <= 0x7FFF
  {
    assert x == 0x1_0000 * d + x % d;
  }

  lemma NoRemainder(r: nat, d: nat)
    requires 0 < d <= 0x7FFF && (r * 0x8000) / d == 0
    ensures r == 0
  {
    assert r * 0x8000 == (r * 0x8000) % d;
  }

  /** The scaled value of a gyroscope axis overflows for no sample if and only if
      its quotient and remainder pass the guard. */
  lemma GyroFitsIff(x: nat, d: nat)
    requires d > 0 && Int32(x)
    ensures AlwaysFits(x, d) <==> GyroGuard(x, d)
  {
    if GyroGuard(x, d) {
      forall n | Int16(n) ensures Fits(x, n, d) {
        GuardSuffices(x, n, d);
      }
    }
    if AlwaysFits(x, d) {
      assert Int16(-0x8000);
      GuardIsNeeded(x, d);
    }
  }

  // ---- The calibration setup -----------------------------------------------------------

  const ACC_RES_PER_G := 8192
  const ACC_RANGE := 4 * ACC_RES_PER_G
  const GYRO_RES_PER_DEG_S := 1024
  const GYRO_RANGE := 2048 * GYRO_RES_PER_DEG_S
  const INT16_MAX := 0x7FFF
  const REPORT_ID := 0x05
  // evdev axis codes
  const ABS_X := 0
  const ABS_RX := 3

  type Word = x: int | UInt16(x)

  datatype GyroReport = GyroReport(bias: Word, plus: Word, minus: Word)
  datatype AccelReport = AccelReport(plus: Word, minus: Word)

  /** The feature report: pitch, yaw, roll and x, y, z. */
  datatype Report = Report(id: int, gyro: seq<GyroReport>, speedPlus: Word, speedMinus: Word, accel: seq<AccelReport>)

  datatype Axis = Axis(absCode: int, bias: int, numer: int, denom: int)

  function GyroAxis(r: Report, i: nat): Axis
    requires i < |r.gyro|
  {
    var g := r.gyro[i];
    var denom := Abs(g.plus - g.bias) + Abs(g.minus - g.bias);
    if denom == 0 then Axis(ABS_RX + i, 0, GYRO_RANGE, INT16_MAX)
    else Axis(ABS_RX + i, 0, (r.speedPlus + r.speedMinus) * GYRO_RES_PER_DEG_S, denom)
  }

  function AccelAxis(r: Report, i: nat): Axis
    requires i < |r.accel|
  {
    var range2g := r.accel[i].plus - r.accel[i].minus;
    if range2g == 0 then Axis(ABS_RX + i, 0, ACC_RANGE, INT16_MAX)
    else Axis(ABS_X + i, ToInt16(r.accel[i].plus - Div(range2g, 2)), 2 * ACC_RES_PER_G, range2g)
  }

  predicate Usable(reply: Option<Report>) {
    reply.Some? && reply.value.id == REPORT_ID
  }

  /** Fills the calibration in place; leaves it alone when the report could not
      be read or is another report. */
  method GetControllerCalibrationData(reply: Option<Report>, gyro: array<Axis>, accel: array<Axis>) returns (ok: bool)
    requires gyro.Length == accel.Length == 3 && gyro != accel
    requires reply.Some? ==> |reply.value.gyro| == |reply.value.accel| == 3
    modifies gyro, accel
    ensures ok <==> Usable(reply)
    ensures ok ==> forall i :: 0 <= i < 3 ==>
              gyro[i] == GyroAxis(reply.value, i) && accel[i] == AccelAxis(reply.value, i)
    ensures ok ==> forall i :: 0 <= i < 3 ==>
              && GyroMeans(gyro[i], reply.value.gyro[i], reply.value.speedPlus + reply.value.speedMinus)
              && AccelMeans(accel[i], reply.value.accel[i])
    ensures !ok ==> gyro[..] == old(gyro[..]) && accel[..] == old(accel[..])
  {
    if reply.None? {
      return false;
    }
    var r := reply.value;
    if r.id != REPORT_ID {
      return false;
    }
    var speed2x := r.speedPlus + r.speedMinus;
    for i := 0 to 3
      invariant forall k :: 0 <= k < i ==> gyro[k] == RawGyro(r, k)
    {
      var g := r.gyro[i];
      gyro[i] := Axis(ABS_RX + i, 0, speed2x * GYRO_RES_PER_DEG_S, Abs(g.plus - g.bias) + Abs(g.minus - g.bias));
    }
    for i := 0 to 3
      invariant forall k :: 0 <= k < 3 ==> gyro[k] == RawGyro(r, k)
      invariant forall k :: 0 <= k < i ==> accel[k] == RawAccel(r, k)
    {
      var range2g := r.accel[i].plus - r.accel[i].minus;
      accel[i] := Axis(ABS_X + i, ToInt16(r.accel[i].plus - Div(range2g, 2)), 2 * ACC_RES_PER_G, range2g);
    }
    for i := 0 to 3
      invariant forall k :: 0 <= k < 3 ==> gyro[k] == if k < i then GyroAxis(r, k) else RawGyro(r, k)
      invariant forall k :: 0 <= k < 3 ==> accel[k] == RawAccel(r, k)
    {
      if gyro[i].denom == 0 {
        gyro[i] := Axis(ABS_RX + i, 0, GYRO_RANGE, INT16_MAX);
      }
    }
    for i := 0 to 3
      invariant forall k :: 0 <= k < 3 ==> gyro[k] == GyroAxis(r, k)
      invariant forall k :: 0 <= k < 3 ==> accel[k] == if k < i then AccelAxis(r, k) else RawAccel(r, k)
    {
      if accel[i].denom == 0 {
        accel[i] := Axis(ABS_RX + i, 0, ACC_RANGE, INT16_MAX);
      }
    }
    AxesMean(r, gyro[..], accel[..]);
    ok := true;
  }

  lemma AxesMean(r: Report, gyro: seq<Axis>, accel: seq<Axis>)
    requires |gyro| == |accel| == |r.gyro| == |r.accel| == 3
    requires forall i :: 0 <= i < 3 ==> gyro[i] == GyroAxis(r, i) && accel[i] == AccelAxis(r, i)
    ensures forall i :: 0 <= i < 3 ==> GyroMeans(gyro[i], r.gyro[i], r.speedPlus + r.speedMinus)
    ensures forall i :: 0 <= i < 3 ==> AccelMeans(accel[i], r.accel[i])
  {
    forall i | 0 <= i < 3
      ensures GyroMeans(gyro[i], r.gyro[i], r.speedPlus + r.speedMinus) && AccelMeans(accel[i], r.accel[i])
    {
      GyroAxisMeans(r, i);
      AccelAxisMeans(r, i);
    }
  }

  // ---- What the calibration means -------------------------------------------------------

  /** Div truncates toward zero, which leaves no choice: what is missing from x is
      smaller than d and points the way x does. */
  lemma DivTruncates(x: int, d: int)
    requires d != 0
    ensures var r := x - Div(x, d) * d;
            0 - Abs(d) < r < Abs(d) && (x >= 0 ==> r >= 0) && (x <= 0 ==> r <= 0)
  {
    var q, r := Abs(x) / Abs(d), Abs(x) % Abs(d);
    assert Abs(x) == q * Abs(d) + r;
    ProductSigns(q, Abs(d));
  }

  function Distance(a: int, b: int): int { if a < b then b - a else a - b }

  /** A calibrated axis scales the swing from minus to plus to 2 g, 16384, about its
      midpoint; the fallback scales the whole range of a sample to 4 g. */
  ghost predicate AccelMeans(a: Axis, r: AccelReport) {
    && a.denom != 0
    && (r.plus != r.minus ==>
          && (forall n :: Int16(n) ==> MultFrac(a.numer, n, a.denom) == Div(16384 * n, r.plus - r.minus))
          && MultFrac(a.numer, r.plus - r.minus, a.denom) == 16384
          && (r.plus + r.minus <= 0xFFFE ==> -1 <= 2 * a.bias - (r.plus + r.minus) <= 1)
          && (r.plus + r.minus >= 0x1_0000 ==> -1 <= 2 * (a.bias + 0x1_0000) - (r.plus + r.minus) <= 1))
    && (r.plus == r.minus ==>
          && a.bias == 0
          && forall n :: Int16(n) ==> MultFrac(a.numer, n, a.denom) == Div(32768 * n, 32767))
  }

  /** A calibrated axis scales the two distances from the bias together to both speeds,
      in units of 1024; the fallback scales the whole range of a sample to 2048. */
  ghost predicate GyroMeans(a: Axis, r: GyroReport, speeds: int) {
    var swing := Distance(r.plus, r.bias) + Distance(r.minus, r.bias);
    && a.denom != 0 && a.bias == 0
    && (swing != 0 ==>
          && (forall n :: Int16(n) ==> MultFrac(a.numer, n, a.denom) == Div(speeds * 1024 * n, swing))
          && MultFrac(a.numer, swing, a.denom) == speeds * 1024)
    && (swing == 0 ==> forall n :: Int16(n) ==> MultFrac(a.numer, n, a.denom) == Div(2097152 * n, 32767))
  }

  lemma DivOfMultiple(k: int, d: int)
    requires d != 0
    ensures Div(k * d, d) == k
  {
    ExactQuotient(Abs(k), Abs(d));
    ProductSigns(Abs(k), Abs(d));
    assert Abs(k * d) == Abs(k) * Abs(d);
    if k == 0 {
      assert k * d == 0;
    } else if (k < 0) == (d < 0) {
      assert k * d > 0 by { MulMonotone(1, Abs(k), Abs(d)); }
    } else {
      assert k * d < 0 by { MulMonotone(1, Abs(k), Abs(d)); }
    }
  }

  lemma ExactQuotient(k: nat, d: nat)
    requires d > 0
    ensures (k * d) / d == k
  {
    QuotientIs(k * d, d, k, 0);
  }

  lemma Scales(numer: int, denom: int)
    requires denom != 0
    ensures forall n :: MultFrac(numer, n, denom) == Div(numer * n, denom)
    ensures MultFrac(numer, denom, denom) == numer
  {
    forall n ensures MultFrac(numer, n, denom) == Div(numer * n, denom) {
      MultFracIsExact(numer, n, denom);
    }
    MultFracIsExact(numer, denom, denom);
    DivOfMultiple(numer, denom);
  }

  lemma Midpoint(plus: Word, minus: Word)
    ensures var bias := ToInt16(plus - Div(plus - minus, 2));
            && (plus + minus <= 0xFFFE ==> -1 <= 2 * bias - (plus + minus) <= 1)
            && (plus + minus >= 0x1_0000 ==> -1 <= 2 * (bias + 0x1_0000) - (plus + minus) <= 1)
  {
    var v := plus - Div(plus - minus, 2);
    DivTruncates(plus - minus, 2);
    assert 2 * v - (plus + minus) == (plus - minus) - Div(plus - minus, 2) * 2;
    assert UInt16(plus) && UInt16(minus) && Abs(2) == 2;
    Wrapped(v);
  }

  lemma Wrapped(v: int)
    requires 0 <= v <= 0xFFFF
    ensures ToInt16(v) == if v <= 0x7FFF then v else v - 0x1_0000
  {
  }

  lemma AccelAxisMeans(r: Report, i: nat)
    requires i < |r.accel|
    ensures AccelMeans(AccelAxis(r, i), r.accel[i])
  {
    var a := AccelAxis(r, i);
    Scales(a.numer, a.denom);
    Midpoint(r.accel[i].plus, r.accel[i].minus);
  }

  lemma GyroAxisMeans(r: Report, i: nat)
    requires i < |r.gyro|
    ensures GyroMeans(GyroAxis(r, i), r.gyro[i], r.speedPlus + r.speedMinus)
  {
    GyroScales(GyroAxis(r, i), r.gyro[i], r.speedPlus + r.speedMinus);
  }

  lemma GyroScales(a: Axis, r: GyroReport, speeds: int)
    requires var swing := Distance(r.plus, r.bias) + Distance(r.minus, r.bias);
             a.bias == 0 && a.denom != 0 &&
             if swing == 0 then a.numer == 2097152 && a.denom == 32767 else a.numer == speeds * 1024 && a.denom == swing
    ensures GyroMeans(a, r, speeds)
  {
    Scales(a.numer, a.denom);
    var swing := Distance(r.plus, r.bias) + Distance(r.minus, r.bias);
    if swing != 0 {
      forall n ensures MultFrac(a.numer, n, a.denom) == Div(speeds * 1024 * n, swing) {
        assert a.numer * n == speeds * 1024 * n;
      }
    } else {
      forall n ensures MultFrac(a.numer, n, a.denom) == Div(2097152 * n, 32767) {
        assert a.numer * n == 2097152 * n;
      }
    }
  }

  /** The axes before the sanity checks. */
  function RawGyro(r: Report, i: nat): Axis
    requires i < |r.gyro|
  {
    var g := r.gyro[i];
    Axis(ABS_RX + i, 0, (r.speedPlus + r.speedMinus) * GYRO_RES_PER_DEG_S, Abs(g.plus - g.bias) + Abs(g.minus - g.bias))
  }

  function RawAccel(r: Report, i: nat): Axis
    requires i < |r.accel|
  {
    var range2g := r.accel[i].plus - r.accel[i].minus;
    Axis(ABS_X + i, ToInt16(r.accel[i].plus - Div(range2g, 2)), 2 * ACC_RES_PER_G, range2g)
  }

  /** An accelerometer axis carries its own axis code exactly when it is calibrated:
      the fallback stores that of the gyroscope axis. */
  lemma AccelCodeIff(r: Report, i: nat)
    requires i < |r.accel| && i < |r.gyro|
    ensures GyroAxis(r, i).absCode == 3 + i
    ensures AccelAxis(r, i).absCode == i <==> r.accel[i].plus != r.accel[i].minus
    ensures AccelAxis(r, i).absCode == GyroAxis(r, i).absCode <==> r.accel[i].plus == r.accel[i].minus
  {
  }

  /** Every accelerometer axis of every report scales every sample in int32. */
  lemma AccelAlwaysFits(r: Report, i: nat)
    requires i < |r.accel|
    ensures AccelAxis(r, i).denom != 0
    ensures AlwaysFits(AccelAxis(r, i).numer, AccelAxis(r, i).denom)
  {
    SmallNumeratorFits(AccelAxis(r, i).numer, AccelAxis(r, i).denom);
  }

  /** A gyroscope axis of any report has a positive denominator and a numerator of
      at most 134215680; it scales every sample in int32 if and only if it passes
      the guard, and it does for every denominator from 2048 to 65536. */
  lemma GyroFits(r: Report, i: nat)
    requires i < |r.gyro|
    ensures var a := GyroAxis(r, i);
            && a.denom > 0 && 0 <= a.numer <= 134215680
            && (AlwaysFits(a.numer, a.denom) <==> GyroGuard(a.numer, a.denom))
            && (2048 <= a.denom <= 65536 ==> AlwaysFits(a.numer, a.denom))
  {
    var a := GyroAxis(r, i);
    GyroFitsIff(a.numer, a.denom);
    if 2048 <= a.denom <= 65536 {
      var q := a.numer / a.denom;
      assert q * a.denom <= a.numer;
      if q > 0xFFFF {
        MulMonotone(0x1_0000, q, a.denom);
      }
    }
  }

  /** The range cannot start lower, nor does every larger denominator do: reports
      with denominators 2047 and 67584 have samples that overflow. */
  lemma GyroRangeIsTight() returns (low: Report, high: Report)
    ensures |low.gyro| == |high.gyro| == |low.accel| == |high.accel| == 3
    ensures GyroAxis(low, 0).denom == 2047 && !AlwaysFits(GyroAxis(low, 0).numer, 2047)
    ensures GyroAxis(high, 0).denom == 67584 && !AlwaysFits(GyroAxis(high, 0).numer, 67584)
  {
    var still, flat := GyroReport(0, 0, 0), AccelReport(0, 0);
    low := Report(REPORT_ID, [GyroReport(0, 2047, 0), still, still], 0xFFFF, 0xFFFF, [flat, flat, flat]);
    GyroFitsIff(GyroAxis(low, 0).numer, 2047);
    high := Report(REPORT_ID, [GyroReport(0, 0xFFFF, 2049), still, still], 65, 0, [flat, flat, flat]);
    GyroFitsIff(GyroAxis(high, 0).numer, 67584);
  }
}
