/** The staked-yield formula of pkg/staking/yield.go over the epoch clock. */
module Staking {
  import opened Arith
  import opened Epoch

  const MILLIS_PER_YEAR := 31_536_000_000
  const MAX_UINT64 := 0xffff_ffff_ffff_ffff

  /** Two percent a year on p over ms milliseconds, rounded down; before any clamping. */
  function Accrued(p: nat, ms: nat): nat {
    (p * 2 * ms) / (100 * MILLIS_PER_YEAR)
  }

  function YieldAmount(principal: uint64, start: uint64, end: uint64): uint64 {
    if principal == 0 || end <= start then 0
    else
      var ms := Elapsed(start, end);
      if ms <= 0 then 0
      else
        var q := Accrued(principal, ms);
        if q > MAX_UINT64 then MAX_UINT64 else q
  }

  /** The unsigned addition wraps. */
  function FinalAmount(principal: uint64, start: uint64, end: uint64): uint64 {
    (principal + YieldAmount(principal, start, end)) % TWO_64
  }

  lemma {:induction false} AccruedMonotone(p: nat, q: nat, s: nat, t: nat)
    requires p <= q && s <= t
    ensures Accrued(p, s) <= Accrued(q, t)
  {
    MulNonneg(q - p, 2 * s);
    MulNonneg(2 * q, t - s);
    assert q * 2 * s - p * 2 * s == (q - p) * (2 * s);
    assert q * 2 * t - q * 2 * s == 2 * q * (t - s);
    FloorMonotone(p * 2 * s, q * 2 * t, 100 * MILLIS_PER_YEAR);
  }

  lemma {:induction false} AccruedSplitsPrincipal(p: nat, q: nat, ms: nat)
    ensures Accrued(p, ms) + Accrued(q, ms) <= Accrued(p + q, ms) <= Accrued(p, ms) + Accrued(q, ms) + 1
  {
    assert (p + q) * 2 * ms == p * 2 * ms + q * 2 * ms;
    FloorSplit(p * 2 * ms, q * 2 * ms, 100 * MILLIS_PER_YEAR);
  }

  lemma {:induction false} AccruedSplitsSpan(p: nat, s: nat, t: nat)
    ensures Accrued(p, s) + Accrued(p, t) <= Accrued(p, s + t) <= Accrued(p, s) + Accrued(p, t) + 1
  {
    assert p * 2 * (s + t) == p * 2 * s + p * 2 * t;
    FloorSplit(p * 2 * s, p * 2 * t, 100 * MILLIS_PER_YEAR);
  }

  lemma {:induction false} NothingAccruesFromNothing(p: nat)
    ensures Accrued(0, p) == 0 && Accrued(p, 0) == 0
  {
  }

  /** The exact yield on spans whose duration fits an int64: the floor formula on the plain sum,
      clamped once at the top of uint64. */
  lemma {:induction false} YieldIsAccrued(principal: uint64, start: uint64, end: uint64)
    requires TailCountHarmless(start, end)
    ensures var q := Accrued(principal, Clamped(PlainSum(start, end)));
            YieldAmount(principal, start, end) == if q > MAX_UINT64 then MAX_UINT64 else q
  {
    ElapsedIsClampedSumIff(start, end);
    NothingAccruesFromNothing(principal);
    NothingAccruesFromNothing(Clamped(PlainSum(start, end)));
  }

  /** More principal or a longer hold never earns less, saturated or not. */
  lemma {:induction false} YieldMonotone(p: uint64, q: uint64, start: uint64, e: uint64, f: uint64)
    requires p <= q && start <= e <= f
    requires TailCountHarmless(start, e) && TailCountHarmless(start, f)
    ensures YieldAmount(p, start, e) <= YieldAmount(q, start, f)
  {
    YieldIsAccrued(p, start, e);
    YieldIsAccrued(q, start, f);
    PlainSumAdditive(start, e, f);
    AccruedMonotone(p, q, Clamped(PlainSum(start, e)), Clamped(PlainSum(start, f)));
  }

  function Total(ps: seq<uint64>): nat {
    if ps == [] then 0 else ps[0] + Total(ps[1..])
  }

  function TotalYield(ps: seq<uint64>, start: uint64, end: uint64): nat {
    if ps == [] then 0 else YieldAmount(ps[0], start, end) + TotalYield(ps[1..], start, end)
  }

  /** Splitting a position into any number of parts never earns more, and loses less than one unit
      per extra part. */
  lemma {:induction false} SplittingPrincipalNeverPays(ps: seq<uint64>, start: uint64, end: uint64)
    requires ps != [] && TailCountHarmless(start, end)
    requires Total(ps) <= MAX_UINT64 && Accrued(Total(ps), Clamped(PlainSum(start, end))) <= MAX_UINT64
    ensures TotalYield(ps, start, end) <= YieldAmount(Total(ps), start, end) <= TotalYield(ps, start, end) + |ps| - 1
    decreases |ps|
  {
    var ms := Clamped(PlainSum(start, end));
    if |ps| == 1 {
      assert ps[1..] == [] && Total(ps) == ps[0];
    } else {
      var rest := Total(ps[1..]);
      AccruedMonotone(rest, Total(ps), ms, ms);
      AccruedMonotone(ps[0], Total(ps), ms, ms);
      SplittingPrincipalNeverPays(ps[1..], start, end);
      AccruedSplitsPrincipal(ps[0], rest, ms);
      YieldIsAccrued(ps[0], start, end);
      YieldIsAccrued(rest, start, end);
      YieldIsAccrued(Total(ps), start, end);
    }
  }

  /** Unstaking half-way and restaking the same principal never earns more, and loses at most one unit. */
  lemma {:induction false} SplittingSpanNeverPays(p: uint64, a: uint64, b: uint64, c: uint64)
    requires a <= b <= c < TWO_63 && PlainSum(a, c) <= MAX_INT64
    requires Accrued(p, PlainSum(a, c)) <= MAX_UINT64
    ensures var parts := YieldAmount(p, a, b) + YieldAmount(p, b, c);
            parts <= YieldAmount(p, a, c) <= parts + 1
  {
    hide Accrued, PlainSum, YieldAmount;
    PlainSumAdditive(a, b, c);
    YieldWhenItFits(p, a, b, PlainSum(a, c));
    YieldWhenItFits(p, b, c, PlainSum(a, c));
    YieldWhenItFits(p, a, c, PlainSum(a, c));
    AccruedSplitsSpan(p, PlainSum(a, b), PlainSum(b, c));
  }

  /** No clamp applies to a span inside one whose yield fits. */
  lemma {:induction false} YieldWhenItFits(p: uint64, a: uint64, b: uint64, whole: nat)
    requires b < TWO_63 && PlainSum(a, b) <= whole <= MAX_INT64 && Accrued(p, whole) <= MAX_UINT64
    ensures YieldAmount(p, a, b) == Accrued(p, PlainSum(a, b))
  {
    AccruedMonotone(p, p, PlainSum(a, b), whole);
    YieldIsAccrued(p, a, b);
  }

  /** Each full capped epoch is a year: k of them earn exactly floor(2k percent). */
  lemma {:induction false} CappedYearsEarnTwoPercent(p: uint64, n: uint64, k: nat)
    requires FIRST_CAPPED <= n && n + k < TWO_63 && k * CAP <= MAX_INT64
    requires p * 2 * k / 100 <= MAX_UINT64
    ensures YieldAmount(p, n, n + k) == p * 2 * k / 100
  {
    CappedTail(n, n + k);
    YieldIsAccrued(p, n, n + k);
    AccruedOverYears(p, k);
  }

  lemma {:induction false} AccruedOverYears(p: nat, k: nat)
    ensures Accrued(p, k * CAP) == p * 2 * k / 100
  {
    var x := p * 2 * k;
    DivMod(x, 100);
    var q, r := x / 100, x % 100;
    assert p * 2 * (k * CAP) == x * CAP;
    QuotientUnique(x * CAP, 100 * CAP, q, r * CAP);
  }

  /** A redemption pays at least the principal exactly when the sum fits 64 bits. */
  lemma {:induction false} RedemptionCoversPrincipalIff(p: uint64, start: uint64, end: uint64)
    ensures FinalAmount(p, start, end) >= p <==> p + YieldAmount(p, start, end) <= MAX_UINT64
  {
  }

  // ---------------------------------------------------------------- what a redemption pays

  /** Milliseconds that count: none before the start, and none when the clock's conversion comes out negative. */
  function MillisHeld(start: uint64, end: uint64): nat {
    var ms := Elapsed(start, end);
    if ms < 0 then 0 else ms
  }

  /** Principal and two percent a year over ms milliseconds, rounded down; the yield saturates at the largest
      uint64, and their sum wraps around it. */
  function Redemption(p: nat, ms: nat): int {
    var interest := (p * 2 * ms) / 3_153_600_000_000;
    var sum := p + if interest > 0xffff_ffff_ffff_ffff then 0xffff_ffff_ffff_ffff else interest;
    if sum > 0xffff_ffff_ffff_ffff then sum - 0x1_0000_0000_0000_0000 else sum
  }

  /** The yield of any span, wherever it lies. */
  lemma {:induction false} YieldOverMillis(p: uint64, start: uint64, end: uint64)
    ensures var q := Accrued(p, MillisHeld(start, end)); YieldAmount(p, start, end) == if q > MAX_UINT64 then MAX_UINT64 else q
  {
    hide Accrued, Elapsed;
    NothingAccruesFromNothing(p);
    NothingAccruesFromNothing(MillisHeld(start, end));
    NothingElapses(start, end);
  }

  lemma {:induction false} NothingElapses(start: uint64, end: uint64)
    ensures end <= start ==> Elapsed(start, end) == 0
  {
  }

  /** What a redemption pays, on every span. */
  lemma {:induction false} FinalAmountIsRedemption(p: uint64, start: uint64, end: uint64)
    ensures FinalAmount(p, start, end) == Redemption(p, MillisHeld(start, end))
  {
    var ms := MillisHeld(start, end);
    YieldOverMillis(p, start, end);
    assert Accrued(p, ms) == (p * 2 * ms) / 3_153_600_000_000;
    hide YieldAmount, Accrued, MillisHeld;
    WrapOnce(p + YieldAmount(p, start, end));
  }

  lemma {:induction false} WrapOnce(x: nat)
    requires x < 2 * TWO_64
    ensures x % TWO_64 == if x > MAX_UINT64 then x - TWO_64 else x
  {
  }

  /** Where the clock's promise holds, the milliseconds are the plain sum of the epochs; so a redemption that
      fits 64 bits pays the principal and exactly the floor of its accrual, and one that does not pays 2^64 less. */
  lemma {:induction false} FinalAmountIsExact(p: uint64, start: uint64, end: uint64)
    requires TailCountHarmless(start, end)
    ensures FinalAmount(p, start, end) == Redemption(p, Clamped(PlainSum(start, end)))
    ensures var sum := p + Accrued(p, Clamped(PlainSum(start, end)));
      && (sum <= MAX_UINT64 ==> FinalAmount(p, start, end) == sum)
      && (sum > MAX_UINT64 && sum - p <= MAX_UINT64 ==> FinalAmount(p, start, end) == sum - TWO_64)
      && (sum - p > MAX_UINT64 ==> FinalAmount(p, start, end) == if p == 0 then MAX_UINT64 else p - 1)
  {
    var ms := Clamped(PlainSum(start, end));
    ElapsedIsClampedSumIff(start, end);
    FinalAmountIsRedemption(p, start, end);
    assert Accrued(p, ms) == (p * 2 * ms) / 3_153_600_000_000;
    hide Accrued, Elapsed, FinalAmount, PlainSum;
  }

  /** After k full capped years a redemption pays the principal and 2k percent of it. */
  lemma {:induction false} CappedYearsRedeem(p: uint64, n: uint64, k: nat)
    requires FIRST_CAPPED <= n && n + k < TWO_63 && k * CAP <= MAX_INT64
    requires p + p * 2 * k / 100 <= MAX_UINT64
    ensures FinalAmount(p, n, n + k) == p + p * 2 * k / 100
  {
    CappedYearsEarnTwoPercent(p, n, k);
    hide YieldAmount;
    WrapOnce(p + YieldAmount(p, n, n + k));
  }
}
