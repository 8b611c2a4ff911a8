/**
 Quota conversions (common/quota_math.go, lines 72-148) and the test charge
 (controller/channel-test.go, lines 690-698), over exact reals plus the special values of a
 floating-point number.
 */
module QuotaMath {

  const MAX_QUOTA := 2147483647
  const MIN_QUOTA := -2147483648

  datatype Float = NaN | NegInf | PosInf | Fin(r: real)

  datatype Clamp = NoClamp | Overflow | Underflow | NotANumber

  datatype Quota = Quota(value: int, clamp: Clamp)

  datatype Strict = Ok(value: int) | Refused(clamp: Clamp)

  function Truncate(x: real): int {
    if x >= 0.0 then x.Floor else -((-x).Floor)
  }

  /** Half away from zero. */
  function Round(x: real): int {
    if x >= 0.0 then (x + 0.5).Floor else -((0.5 - x).Floor)
  }

  predicate AtLeast(f: Float, n: int) {
    f.PosInf? || (f.Fin? && f.r >= n as real)
  }

  predicate AtMost(f: Float, n: int) {
    f.NegInf? || (f.Fin? && f.r <= n as real)
  }

  /** Lines 72-86. */
  function Saturate(f: Float): Quota {
    if f.NaN? then Quota(0, NotANumber)
    else if AtLeast(f, MAX_QUOTA) then Quota(MAX_QUOTA, Overflow)
    else if AtMost(f, MIN_QUOTA) then Quota(MIN_QUOTA, Underflow)
    else Quota(Truncate(f.r), NoClamp)
  }

  function Rounded(f: Float): Float {
    if f.Fin? then Fin(Round(f.r) as real) else f
  }

  function FromFloat(f: Float): Quota {
    Saturate(f)
  }

  function RoundQuota(f: Float): Quota {
    Saturate(Rounded(f))
  }

  /** A decimal is a finite exact number. */
  function FromDecimal(d: real): Quota {
    Saturate(Fin(Round(d) as real))
  }

  /** Lines 88-93. */
  function StrictOf(q: Quota): Strict {
    if q.clamp != NoClamp then Refused(q.clamp) else Ok(q.value)
  }

  predicate Le(a: Float, b: Float) {
    !a.NaN? && !b.NaN? && (a.NegInf? || b.PosInf? || (a.Fin? && b.Fin? && a.r <= b.r))
  }

  // ---------- rounding ----------

  lemma RoundFacts(x: real)
    ensures x - 0.5 <= Round(x) as real <= x + 0.5
    ensures Round(-x) == -Round(x)
    ensures 0.0 <= x ==> 0 <= Round(x) && x - 0.5 < Round(x) as real
    ensures x <= 0.0 ==> Round(x) <= 0 && (Round(x) as real) < x + 0.5
  {
  }

  lemma RoundMonotone(x: real, y: real)
    requires x <= y
    ensures Round(x) <= Round(y)
  {
    if x < 0.0 <= y {
    } else if x >= 0.0 {
      assert (x + 0.5).Floor <= (y + 0.5).Floor;
    } else {
      assert (0.5 - y).Floor <= (0.5 - x).Floor;
    }
  }

  lemma RoundOfInt(n: int)
    ensures Round(n as real) == n && Truncate(n as real) == n
  {
  }

  lemma TruncateMonotone(x: real, y: real)
    requires x <= y
    ensures Truncate(x) <= Truncate(y)
  {
  }

  // ---------- saturation ----------

  /** Every conversion lands in the 32-bit range, and a larger number never gives a smaller
      quota. */
  lemma SaturateFacts(a: Float, b: Float)
    ensures MIN_QUOTA <= Saturate(a).value <= MAX_QUOTA
    ensures Le(a, b) ==> Saturate(a).value <= Saturate(b).value
  {
    if a.Fin? { TruncateRange(a.r); }
    if b.Fin? { TruncateRange(b.r); }
    if a.Fin? && b.Fin? && a.r <= b.r { TruncateMonotone(a.r, b.r); }
  }

  lemma TruncateRange(x: real)
    ensures (MIN_QUOTA as real) < x < (MAX_QUOTA as real) ==> MIN_QUOTA < Truncate(x) < MAX_QUOTA
  {
  }

  lemma ConversionsMonotone(a: Float, b: Float)
    requires Le(a, b)
    ensures FromFloat(a).value <= FromFloat(b).value
    ensures RoundQuota(a).value <= RoundQuota(b).value
    ensures a.Fin? && b.Fin? ==> FromDecimal(a.r).value <= FromDecimal(b.r).value
  {
    SaturateFacts(a, b);
    if a.Fin? && b.Fin? { RoundMonotone(a.r, b.r); }
    SaturateFacts(Rounded(a), Rounded(b));
  }

  /** A strict conversion succeeds exactly when the checked one reports no clamp, which is when
      the converted number lies strictly inside the range; then nothing but the fraction is
      lost. */
  lemma StrictExactly(f: Float)
    ensures StrictOf(FromFloat(f)).Ok? <==> FromFloat(f).clamp == NoClamp
    ensures StrictOf(FromFloat(f)).Ok? <==> f.Fin? && (MIN_QUOTA as real) < f.r < (MAX_QUOTA as real)
    ensures StrictOf(FromFloat(f)).Ok? ==>
              var v := StrictOf(FromFloat(f)).value as real; f.r - 1.0 < v < f.r + 1.0 && (0.0 <= v <= f.r || f.r <= v <= 0.0)
    ensures StrictOf(RoundQuota(f)).Ok? <==> f.Fin? && MIN_QUOTA < Round(f.r) < MAX_QUOTA
    ensures StrictOf(RoundQuota(f)).Ok? ==>
              StrictOf(RoundQuota(f)).value == Round(f.r) && f.r - 0.5 <= Round(f.r) as real <= f.r + 0.5
  {
    if f.Fin? {
      RoundFacts(f.r);
      RoundOfInt(Round(f.r));
    }
  }

  /** Which clamp is reported, and the value that goes with it. */
  lemma ClampsExactly(f: Float)
    ensures FromFloat(f).clamp == NotANumber <==> f.NaN?
    ensures FromFloat(f).clamp == Overflow <==> f.PosInf? || (f.Fin? && f.r >= 2147483647.0)
    ensures FromFloat(f).clamp == Underflow <==> f.NegInf? || (f.Fin? && f.r <= -2147483648.0)
    ensures f.NaN? ==> FromFloat(f).value == RoundQuota(f).value == 0
    ensures FromFloat(f).clamp == Overflow ==> FromFloat(f).value == RoundQuota(f).value == 2147483647
    ensures FromFloat(f).clamp == Underflow ==> FromFloat(f).value == RoundQuota(f).value == -2147483648
  {
    if f.Fin? && f.r >= 2147483647.0 {
      RoundMonotone(2147483647.0, f.r);
      RoundOfInt(2147483647);
    }
    if f.Fin? && f.r <= -2147483648.0 {
      RoundMonotone(f.r, -2147483648.0);
      RoundOfInt(-2147483648);
    }
  }

  /** A decimal converts like a finite number that is rounded: strictly exactly when what it
      rounds to lies strictly inside the range, then to the nearest integer, and halves away from
      zero. */
  lemma DecimalExactly(d: real)
    ensures StrictOf(FromDecimal(d)) == StrictOf(RoundQuota(Fin(d)))
    ensures StrictOf(FromDecimal(d)).Ok? <==> -2147483647.5 < d < 2147483646.5
    ensures StrictOf(FromDecimal(d)).Ok? ==>
              var v := StrictOf(FromDecimal(d)).value as real;
              && d - 0.5 <= v <= d + 0.5 && (0.0 <= d ==> d - 0.5 < v) && (d <= 0.0 ==> v < d + 0.5)
    ensures d >= 2147483646.5 ==> FromDecimal(d) == Quota(2147483647, Overflow)
    ensures d <= -2147483647.5 ==> FromDecimal(d) == Quota(-2147483648, Underflow)
  {
    StrictExactly(Fin(d));
    RoundFacts(d);
    RoundMonotone(2147483646.5, if d >= 2147483646.5 then d else 2147483646.5);
    RoundMonotone(if d <= -2147483647.5 then d else -2147483647.5, -2147483647.5);
  }

  // ---------- the test charge ----------

  /** Multiplication under a name of its own, so that products can be reasoned about as units. */
  function Times(x: real, y: real): real {
    x * y
  }

  function Tokens(prompt: int, completion: int, completionRatio: real): int {
    prompt + Round(Times(completion as real, completionRatio))
  }

  function Rated(tokens: int, modelRatio: real, groupRatio: real): int {
    Round(Times(Times(tokens as real, modelRatio), groupRatio))
  }

  function WithMinimum(quota: int, modelRatio: real, groupRatio: real): int {
    if modelRatio != 0.0 && groupRatio != 0.0 && quota <= 0 then 1 else quota
  }

  /** Lines 692-696: rounded twice, with a minimum of one when both ratios are set. */
  function TestCharge(prompt: int, completion: int, completionRatio: real, modelRatio: real, groupRatio: real): int {
    WithMinimum(Rated(Tokens(prompt, completion, completionRatio), modelRatio, groupRatio), modelRatio, groupRatio)
  }

  lemma TimesMonotone(x: real, y: real, r: real)
    requires x <= y && r >= 0.0
    ensures Times(x, r) <= Times(y, r)
  {
  }

  lemma TokensMonotone(p: int, c: int, p': int, c': int, completionRatio: real)
    requires p <= p' && c <= c' && completionRatio >= 0.0
    ensures Tokens(p, c, completionRatio) <= Tokens(p', c', completionRatio)
  {
    TimesMonotone(c as real, c' as real, completionRatio);
    RoundMonotone(Times(c as real, completionRatio), Times(c' as real, completionRatio));
  }

  lemma RatedMonotone(t: int, t': int, modelRatio: real, groupRatio: real)
    requires t <= t' && modelRatio >= 0.0 && groupRatio >= 0.0
    ensures Rated(t, modelRatio, groupRatio) <= Rated(t', modelRatio, groupRatio)
  {
    var x, x' := Times(t as real, modelRatio), Times(t' as real, modelRatio);
    TimesMonotone(t as real, t' as real, modelRatio);
    TimesMonotone(x, x', groupRatio);
    RoundMonotone(Times(x, groupRatio), Times(x', groupRatio));
  }

  /** More tokens never cost less. */
  lemma ChargeMonotone(p: int, c: int, p': int, c': int, completionRatio: real, modelRatio: real, groupRatio: real)
    requires p <= p' && c <= c' && completionRatio >= 0.0 && modelRatio >= 0.0 && groupRatio >= 0.0
    ensures TestCharge(p, c, completionRatio, modelRatio, groupRatio)
            <= TestCharge(p', c', completionRatio, modelRatio, groupRatio)
  {
    TokensMonotone(p, c, p', c', completionRatio);
    RatedMonotone(Tokens(p, c, completionRatio), Tokens(p', c', completionRatio), modelRatio, groupRatio);
  }

  /** An error of at most one half grows to at most half the factor. */
  lemma Scaled(t: real, exact: real, r: real)
    requires exact - 0.5 <= t <= exact + 0.5 && r >= 0.0
    ensures Times(exact, r) - r / 2.0 <= Times(t, r) <= Times(exact, r) + r / 2.0
  {
    TimesMonotone(exact - 0.5, t, r);
    TimesMonotone(t, exact + 0.5, r);
    assert Times(exact - 0.5, r) == Times(exact, r) - r / 2.0;
    assert Times(exact + 0.5, r) == Times(exact, r) + r / 2.0;
  }

  lemma TimesAssociates(x: real, a: real, b: real)
    ensures Times(Times(x, a), b) == Times(x, Times(a, b))
  {
  }

  lemma RatedNear(t: int, exact: real, modelRatio: real, groupRatio: real)
    requires exact - 0.5 <= t as real <= exact + 0.5 && modelRatio >= 0.0 && groupRatio >= 0.0
    ensures var r, v := Times(modelRatio, groupRatio), Rated(t, modelRatio, groupRatio) as real;
            Times(exact, r) - 0.5 - r / 2.0 <= v <= Times(exact, r) + 0.5 + r / 2.0
  {
    var r := Times(modelRatio, groupRatio);
    TimesMonotone(0.0, modelRatio, groupRatio);
    TimesAssociates(t as real, modelRatio, groupRatio);
    Scaled(t as real, exact, r);
    RoundFacts(Times(t as real, r));
  }

  /** Unless the minimum applies, the charge is within 1/2 + r/2 of the unrounded price, r being
      the product of the two ratios. */
  lemma ChargeAccuracy(p: int, c: int, completionRatio: real, modelRatio: real, groupRatio: real)
    requires modelRatio >= 0.0 && groupRatio >= 0.0
    ensures var r := Times(modelRatio, groupRatio);
            var price := Times(p as real + Times(c as real, completionRatio), r);
            var charge := TestCharge(p, c, completionRatio, modelRatio, groupRatio);
            charge == Rated(Tokens(p, c, completionRatio), modelRatio, groupRatio) ==>
              price - 0.5 - r / 2.0 <= charge as real <= price + 0.5 + r / 2.0
  {
    var x := Times(c as real, completionRatio);
    RoundFacts(x);
    RatedNear(Tokens(p, c, completionRatio), p as real + x, modelRatio, groupRatio);
  }

  /** A price below one half is charged as one if both ratios are set. */
  lemma SmallestCharge(p: int, modelRatio: real, groupRatio: real, completionRatio: real)
    requires p >= 0 && modelRatio > 0.0 && groupRatio > 0.0 && Times(Times(p as real, modelRatio), groupRatio) < 0.5
    ensures TestCharge(p, 0, completionRatio, modelRatio, groupRatio) == 1
  {
    assert Times(0.0, completionRatio) == 0.0;
    assert Tokens(p, 0, completionRatio) == p;
    var x := Times(Times(p as real, modelRatio), groupRatio);
    RoundFacts(x);
  }

  /** A charge is never negative, and is free exactly when a ratio is zero. */
  lemma FreeExactly(p: int, c: int, completionRatio: real, modelRatio: real, groupRatio: real)
    requires p >= 0 && c >= 0 && completionRatio >= 0.0 && modelRatio >= 0.0 && groupRatio >= 0.0
    ensures var charge := TestCharge(p, c, completionRatio, modelRatio, groupRatio);
            charge >= 0 && (charge == 0 <==> modelRatio == 0.0 || groupRatio == 0.0)
  {
    TokensMonotone(0, 0, p, c, completionRatio);
    var t := Tokens(p, c, completionRatio);
    RatedMonotone(0, t, modelRatio, groupRatio);
    assert Rated(0, modelRatio, groupRatio) == 0;
    if modelRatio == 0.0 || groupRatio == 0.0 {
      assert Times(Times(t as real, modelRatio), groupRatio) == 0.0;
    }
  }
}
