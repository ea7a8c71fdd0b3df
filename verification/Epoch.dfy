/** The epoch clock of pkg/consensus/epoch.go: durations grow by 11/10 from one hour up to one year. */
module Epoch {
  import opened Arith

  const HOUR := 3_600_000
  const CAP := 31_536_000_000 // 365 days in milliseconds
  const MAX_INT64 := 0x7fff_ffff_ffff_ffff
  const TWO_63 := 0x8000_0000_0000_0000
  const TWO_64 := 0x1_0000_0000_0000_0000

  type uint64 = x: int | 0 <= x < 0x1_0000_0000_0000_0000
  type int64 = x: int | -0x8000_0000_0000_0000 <= x < 0x8000_0000_0000_0000

  /** Two's-complement conversion to int64. */
  function AsInt64(x: int): int64 {
    var m := x % TWO_64;
    if m < TWO_63 then m else m - TWO_64
  }

  // ---------------------------------------------------------------- durations

  function Pow(b: nat, n: nat): (p: nat)
    requires b > 0
    ensures p > 0
  {
    if n == 0 then 1 else b * Pow(b, n - 1)
  }

  /** Round to nearest: the quotient the big-integer arithmetic computes. */
  function Rounded(num: nat, den: nat): nat
    requires den > 0
  {
    (2 * num + den) / (2 * den)
  }

  function Uncapped(n: nat): nat {
    Rounded(HOUR * Pow(11, n), Pow(10, n))
  }

  function Duration(n: nat): nat {
    var q := Uncapped(n);
    if q > CAP then CAP else q
  }

  /** Dividing out a common factor first, as the rational type does, changes nothing. */
  lemma {:induction false} RoundingIgnoresReduction(num: nat, den: nat, k: nat)
    requires den > 0 && k > 0
    ensures k * den > 0 && Rounded(k * num, k * den) == Rounded(num, den)
  {
    var q, r := Rounded(num, den), (2 * num + den) % (2 * den);
    assert 2 * num + den == q * (2 * den) + r;
    assert 2 * (k * num) + k * den == q * (2 * (k * den)) + k * r by {
      assert k * (2 * num + den) == k * (q * (2 * den) + r);
    }
    assert 0 <= k * r < k * (2 * den);
    QuotientUnique(2 * (k * num) + k * den, 2 * (k * den), q, k * r);
  }

  /** The nearest integer to the fraction; a tie rounds up. */
  lemma {:induction false} RoundedIsNearest(num: nat, den: nat)
    requires den > 0
    ensures 2 * Rounded(num, den) * den - den <= 2 * num < 2 * Rounded(num, den) * den + den
  {
    DivMod(2 * num + den, 2 * den);
    var q := Rounded(num, den);
    assert q * (2 * den) == 2 * q * den;
  }

  /** Below the cap a duration is the whole millisecond nearest to one hour times 1.1 to the n. */
  lemma {:induction false} DurationIsNearest(n: nat)
    ensures var d, p := Duration(n), Pow(10, n);
      d <= 31_536_000_000
      && (d < 31_536_000_000 ==> 2 * d * p - p <= 2 * (3_600_000 * Pow(11, n)) < 2 * d * p + p)
  {
    RoundedIsNearest(HOUR * Pow(11, n), Pow(10, n));
    hide Pow, Rounded;
  }

  lemma {:induction false} UncappedStep(n: nat)
    ensures Uncapped(n) <= Uncapped(n + 1)
  {
    var x, y := HOUR * Pow(11, n), Pow(10, n);
    RoundingIgnoresReduction(x, y, 10);
    assert HOUR * Pow(11, n + 1) == 11 * x && Pow(10, n + 1) == 10 * y;
    FloorMonotone(2 * (10 * x) + 10 * y, 2 * (11 * x) + 10 * y, 2 * (10 * y));
  }

  lemma {:induction false} DurationMonotone(m: nat, n: nat)
    requires m <= n
    ensures Duration(m) <= Duration(n)
    decreases n - m
  {
    if m < n {
      UncappedStep(m);
      DurationMonotone(m + 1, n);
    }
  }

  lemma {:induction false} DurationAtLeastAnHour(n: nat)
    ensures HOUR <= Duration(n) <= CAP
  {
    DurationMonotone(0, n);
    assert Pow(11, 0) == 1 && Pow(10, 0) == 1;
  }

  lemma {:induction false} PowAdd(b: nat, m: nat, n: nat)
    requires b > 0
    ensures Pow(b, m + n) == Pow(b, m) * Pow(b, n)
    decreases m
  {
    if m > 0 {
      var x, y := Pow(b, m - 1), Pow(b, n);
      PowStep(b, m - 1);
      PowStep(b, m + n - 1);
      hide Pow;
      PowAdd(b, m - 1, n);
      Reassociate(b, x, y);
    }
  }

  lemma {:induction false} PowStep(b: nat, n: nat)
    requires b > 0
    ensures Pow(b, n + 1) == b * Pow(b, n)
  {
  }

  lemma {:induction false} Reassociate(a: nat, b: nat, c: nat)
    ensures a * (b * c) == (a * b) * c
  {
  }

  lemma {:induction false} Squared(b: nat, n: nat)
    requires b > 0
    ensures Pow(b, 2 * n) == Pow(b, n) * Pow(b, n)
  {
    PowAdd(b, n, n);
  }

  lemma {:induction false} PowersAt12()
    ensures Pow(11, 12) == 3138428376721 && Pow(10, 12) == 1000000000000
  {
    assert Pow(11, 3) == 1331 && Pow(10, 3) == 1000;
    hide Pow;
    Squared(11, 3); Squared(10, 3);
    Squared(11, 6); Squared(10, 6);
  }

  lemma {:induction false} PowersAt96()
    ensures Pow(11, 96) == 9412343651268540526001186511911506574868063110469548823950876000379062365652829504091329792873336961
    ensures Pow(10, 96) == 1000000000000000000000000000000000000000000000000000000000000000000000000000000000000000000000000
  {
    hide Pow;
    PowersAt12();
    Squared(11, 12); Squared(10, 12);
    Squared(11, 24); Squared(10, 24);
    Squared(11, 48); Squared(10, 48);
  }

  const FIRST_CAPPED := 96

  /** The cap is reached at epoch 96 and never before. */
  lemma {:induction false} CappedExactlyFrom96(n: nat)
    ensures Duration(n) == CAP <==> n >= FIRST_CAPPED
  {
    PowersAt96();
    assert Pow(11, 96) == 11 * Pow(11, 95) && Pow(10, 96) == 10 * Pow(10, 95);
    assert Uncapped(95) == 30804033768;
    assert Uncapped(96) == 33884437145;
    if n >= 96 { DurationMonotone(96, n); } else { DurationMonotone(n, 95); }
  }

  // ---------------------------------------------------------------- elapsed time

  /** Total duration of the epochs in [start, end). */
  function PlainSum(start: nat, end: nat): nat
    decreases end
  {
    if end <= start then 0 else PlainSum(start, end - 1) + Duration(end - 1)
  }

  /** Adjacent spans add up. */
  lemma {:induction false} PlainSumAdditive(a: nat, b: nat, c: nat)
    requires a <= b <= c
    ensures PlainSum(a, c) == PlainSum(a, b) + PlainSum(b, c)
    decreases c
  {
    if b < c { PlainSumAdditive(a, b, c - 1); }
  }

  lemma {:induction false} CappedTail(start: nat, end: nat)
    requires FIRST_CAPPED <= start <= end
    ensures PlainSum(start, end) == (end - start) * CAP
    decreases end
  {
    if start < end {
      CappedTail(start, end - 1);
      CappedExactlyFrom96(end - 1);
    }
  }

  lemma {:induction false} PlainSumBounds(start: nat, end: nat)
    requires start <= end
    ensures (end - start) * HOUR <= PlainSum(start, end) <= (end - start) * CAP
    decreases end
  {
    if start < end {
      PlainSumBounds(start, end - 1);
      DurationAtLeastAnHour(end - 1);
    }
  }

  /** Where the loop of ElapsedMillis stops adding single epochs. */
  function TailStart(start: nat): nat {
    if start < FIRST_CAPPED then FIRST_CAPPED else start
  }

  /** What ElapsedMillis returns, with the int64 conversion of the remaining epoch count made explicit. */
  function Elapsed(start: uint64, end: uint64): int64 {
    var m := TailStart(start);
    if end <= start then 0
    else if end <= m then
      PlainSumBounds(start, end);
      PlainSum(start, end)
    else
      var total := AsInt64(end - m) * CAP + PlainSum(start, m);
      if -TWO_63 <= total < TWO_63 then total else MAX_INT64
  }

  method ElapsedMillis(start: uint64, end: uint64) returns (total: int64)
    ensures total == Elapsed(start, end)
  {
    hide Uncapped;
    if end <= start { return 0; }
    total := 0;
    var n := start;
    while n < end
      invariant start <= n <= end
      invariant n <= TailStart(start)
      invariant total == PlainSum(start, n)
    {
      var d := Duration(n);
      CappedExactlyFrom96(n);
      if d >= CAP {
        var remaining := end - n;
        var capped := AsInt64(remaining) * CAP + total;
        return if -TWO_63 <= capped < TWO_63 then capped else MAX_INT64;
      }
      PlainSumBounds(start, n + 1);
      total := total + d;
      n := n + 1;
    }
  }

  /** What the doc comment promises: the exact sum, clamped at the largest int64. */
  function Clamped(x: int): int {
    if x > MAX_INT64 then MAX_INT64 else x
  }

  /** The capped tail really is clamped exactly when the count of capped epochs does not wrap to a
      negative int64 whose product still fits one. */
  predicate TailCountHarmless(start: uint64, end: uint64) {
    var k := end - TailStart(start);
    k < TWO_63 || (k - TWO_64) * CAP + PlainSum(start, TailStart(start)) < -TWO_63
  }

  lemma {:induction false} ElapsedIsClampedSumIff(start: uint64, end: uint64)
    ensures Elapsed(start, end) == Clamped(PlainSum(start, end)) <==> TailCountHarmless(start, end)
  {
    var m := TailStart(start);
    if end > m {
      PlainSumAdditive(start, m, end);
      CappedTail(m, end);
      PlainSumBounds(start, m);
      TailArithmetic(end - m, PlainSum(start, m));
    } else if end > start {
      PlainSumBounds(start, end);
    }
  }

  lemma {:induction false} TailArithmetic(k: uint64, t: nat)
    requires k > 0 && t <= FIRST_CAPPED * CAP
    ensures (var c := AsInt64(k) * CAP + t; if -TWO_63 <= c < TWO_63 then c else MAX_INT64) == Clamped(t + k * CAP)
       <==> k < TWO_63 || (k - TWO_64) * CAP + t < -TWO_63
  {
    assert AsInt64(k) == if k < TWO_63 then k else k - TWO_64;
  }

  /** The guarantee fails on a real input: nearly 2^64 epochs apart comes out negative. */
  lemma {:induction false} ElapsedCanBeNegative()
    ensures Elapsed(96, TWO_64 - 1) < 0
  {
    assert AsInt64(TWO_64 - 97) == -97;
  }

  /** Below 2^63 epochs the guarantee holds, and spans add up as long as the total fits. */
  lemma {:induction false} ElapsedAdditive(a: uint64, b: uint64, c: uint64)
    requires a <= b <= c < TWO_63 && PlainSum(a, c) <= MAX_INT64
    ensures Elapsed(a, b) + Elapsed(b, c) == Elapsed(a, c) == PlainSum(a, c)
  {
    ElapsedIsClampedSumIff(a, b);
    ElapsedIsClampedSumIff(b, c);
    ElapsedIsClampedSumIff(a, c);
    PlainSumAdditive(a, b, c);
  }

  // ---------------------------------------------------------------- the current epoch

  /** n is the epoch that contains the instant e milliseconds after genesis. */
  predicate EpochContains(n: nat, e: int) {
    PlainSum(0, n) <= e < PlainSum(0, n + 1)
  }

  lemma {:induction false} EpochUnique(m: nat, n: nat, e: int)
    requires EpochContains(m, e) && EpochContains(n, e)
    ensures m == n
  {
    if m < n { PlainSumAdditive(0, m + 1, n); }
    if n < m { PlainSumAdditive(0, n + 1, m); }
  }

  /** The largest n whose preceding epochs all fit, as the doc comment puts it. */
  lemma {:induction false} ContainsIsLargest(n: nat, k: nat, e: int)
    requires EpochContains(n, e)
    ensures PlainSum(0, k) <= e <==> k <= n
  {
    if k <= n { PlainSumAdditive(0, k, n); } else { PlainSumAdditive(0, n + 1, k); }
  }

  method CurrentEpoch(genesis: int64, nowMs: int64) returns (epoch: uint64)
    ensures var e := AsInt64(nowMs - genesis); if e < 0 then epoch == 0 else EpochContains(epoch, e)
  {
    hide AsInt64, PlainSum, Duration, EpochContains;
    var elapsed: int64 := AsInt64(nowMs - genesis);
    if elapsed < 0 { return 0; }
    ghost var e := elapsed;
    var n: uint64 := 0;
    NoEpochs();
    while true
      invariant n <= FIRST_CAPPED && 0 <= elapsed
      invariant elapsed + PlainSum(0, n) == e
      decreases FIRST_CAPPED - n
    {
      var d := Duration(n);
      CappedExactlyFrom96(n);
      OneMoreEpoch(n, elapsed, e);
      if d >= CAP { break; }
      if elapsed < d { return n; }
      elapsed := elapsed - d;
      n := n + 1;
    }
    TailContains(n, elapsed, e);
    return n + elapsed / CAP;
  }

  lemma {:induction false} NoEpochs()
    ensures PlainSum(0, 0) == 0
  {
  }

  lemma {:induction false} OneMoreEpoch(n: nat, rest: nat, e: int)
    requires PlainSum(0, n) + rest == e
    ensures PlainSum(0, n + 1) == PlainSum(0, n) + Duration(n) && Duration(n) <= CAP
    ensures rest < Duration(n) ==> EpochContains(n, e)
  {
    hide Uncapped;
  }

  lemma {:induction false} TailContains(n: nat, rest: nat, e: int)
    requires n >= FIRST_CAPPED && PlainSum(0, n) + rest == e
    ensures EpochContains(n + rest / CAP, e)
  {
    hide Duration;
    var extra := rest / CAP;
    DivMod(rest, CAP);
    PlainSumAdditive(0, n, n + extra);
    PlainSumAdditive(0, n, n + extra + 1);
    CappedTail(n, n + extra);
    CappedTail(n, n + extra + 1);
  }
}
