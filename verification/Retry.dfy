/**
 The retry policy: which status codes are worth another attempt, and how long
 to wait before it. Durations are nanoseconds, as in Go's time.Duration.
 */
module Retry {
  const SECOND: int := 1_000_000_000
  const MINUTE: int := 60 * SECOND
  const HOUR: int := 3600 * SECOND

  /** Successful is class 2xx (section 15.3 of RFC 9110). */
  predicate Success(code: int) {
    200 <= code < 300
  }

  /** Code 0 stands for a network failure or a timeout. */
  predicate Retryable(code: int) {
    code == 0 || code == 408 || code == 429 || code >= 500
  }

  function Pow2(n: nat): (r: nat)
    ensures 1 <= r
  {
    if n == 0 then 1 else 2 * Pow2(n - 1)
  }

  function Clamp(attempt: int): (r: int)
    ensures 1 <= r <= 10
    ensures 1 <= attempt <= 10 ==> r == attempt
  {
    if attempt < 1 then 1 else if attempt > 10 then 10 else attempt
  }

  /** base * 2^(attempt-1), in seconds: the delay before jitter and cap. */
  function Seconds(attempt: int, base: int): int {
    base * Pow2(Clamp(attempt) - 1)
  }

  function Uncapped(attempt: int, base: int): int {
    SECOND * Seconds(attempt, base)
  }

  /** The longest delay the jitter may draw: min(base * 2^(attempt-1) s, 1 h). */
  function Ceiling(attempt: int, base: int): int {
    if Uncapped(attempt, base) > HOUR then HOUR else Uncapped(attempt, base)
  }

  /** Two's complement wrap-around of a 64-bit product. */
  function Wrap64(x: int): (r: int)
    ensures -0x8000_0000_0000_0000 <= r < 0x8000_0000_0000_0000
    ensures -0x8000_0000_0000_0000 <= x < 0x8000_0000_0000_0000 ==> r == x
  {
    (x + 0x8000_0000_0000_0000) % 0x1_0000_0000_0000_0000 - 0x8000_0000_0000_0000
  }

  lemma Pow2Values()
    ensures Pow2(0) == 1 && Pow2(1) == 2 && Pow2(2) == 4 && Pow2(3) == 8 && Pow2(4) == 16
    ensures Pow2(5) == 32 && Pow2(6) == 64 && Pow2(7) == 128 && Pow2(8) == 256 && Pow2(9) == 512
  {
  }

  lemma Pow2Bounds(attempt: int)
    ensures 1 <= Pow2(Clamp(attempt) - 1) <= 512
  {
    Pow2Values();
  }

  lemma ProductRange(b: int, p: int)
    requires 1 <= b <= 3600 && 1 <= p <= 512
    ensures 1 <= b * p <= 1_843_200
  {
    assert (b - 1) * p >= 0;
    assert (3600 - b) * p >= 0;
  }

  lemma SecondsRange(attempt: int, base: int)
    requires 1 <= base <= 3600
    ensures 1 <= Seconds(attempt, base) <= 1_843_200
  {
    Pow2Bounds(attempt);
    ProductRange(base, Pow2(Clamp(attempt) - 1));
  }

  lemma TwiceIsEven(x: int, half: int)
    requires x == 2 * half
    ensures x % 2 == 0 && x / 2 == half
  {
  }

  /** The ceiling is even and positive, so halving it loses nothing. */
  lemma CeilingRange(attempt: int, base: int)
    requires 1 <= base <= 3600
    ensures SECOND <= Ceiling(attempt, base) <= HOUR
    ensures Ceiling(attempt, base) % 2 == 0
    ensures 0 < Uncapped(attempt, base) < 0x8000_0000_0000_0000
  {
    SecondsRange(attempt, base);
    var n := Seconds(attempt, base);
    TwiceIsEven(SECOND * n, 500_000_000 * n);
  }

  /** The ceiling in plain numbers: the base doubles with every attempt up to the tenth, capped at an hour. */
  lemma CeilingInNumbers(attempt: int, base: int)
    requires 1 <= base <= 3600
    ensures var factor := if attempt <= 1 then 1 else if attempt == 2 then 2 else if attempt == 3 then 4
                          else if attempt == 4 then 8 else if attempt == 5 then 16 else if attempt == 6 then 32
                          else if attempt == 7 then 64 else if attempt == 8 then 128
                          else if attempt == 9 then 256 else 512;
            Ceiling(attempt, base) == Least(base * factor * 1_000_000_000, 3_600_000_000_000)
  {
    Pow2Values();
  }

  function Least(a: int, b: int): int {
    if a <= b then a else b
  }

  lemma Regroup(base: int, p: int)
    ensures base * SECOND * p == SECOND * (base * p)
  {
  }

  lemma NothingWraps(attempt: int, base: int)
    requires 1 <= base <= 3600
    ensures Wrap64(Wrap64(base * SECOND) * Pow2(Clamp(attempt) - 1)) == Uncapped(attempt, base)
  {
    Regroup(base, Pow2(Clamp(attempt) - 1));
    CeilingRange(attempt, base);
    assert Wrap64(base * SECOND) == base * SECOND;
  }

  /**
   draw is what rand.Int64N returned. Every int64 product is written with its
   wrap-around; the contract says that none of them wraps.
   */
  method Backoff(attempt: int, base: int, draw: int) returns (delay: int)
    requires 1 <= base <= 3600
    requires 0 <= draw <= Ceiling(attempt, base) / 2
    ensures delay == Ceiling(attempt, base) / 2 + draw
    ensures Ceiling(attempt, base) <= 2 * delay
    ensures delay <= Ceiling(attempt, base) <= HOUR
  {
    var n := attempt;
    if n < 1 {
      n := 1;
    }
    if n > 10 {
      n := 10;
    }
    NothingWraps(attempt, base);
    CeilingRange(attempt, base);
    var d := Wrap64(Wrap64(base * SECOND) * Pow2(n - 1));
    if d > HOUR {
      d := HOUR;
    }
    delay := d / 2 + draw;
  }

  /** delay is a possible result of Backoff(attempt, base). */
  predicate Possible(delay: int, attempt: int, base: int) {
    Ceiling(attempt, base) / 2 <= delay <= Ceiling(attempt, base)
  }

  /** No draw of the delay after attempt a exceeds any draw of the one after attempt b. */
  ghost predicate NeverShrinks(a: int, b: int, base: int) {
    forall x, y :: Possible(x, a, base) && Possible(y, b, base) ==> x <= y
  }

  lemma SecondsDouble(attempt: int, base: int)
    requires 1 <= attempt < 10
    ensures Seconds(attempt + 1, base) == 2 * Seconds(attempt, base)
  {
  }

  /**
   Successive delays never decrease, whatever the two jitters draw, exactly
   when the later delay is not capped. Once the cap bites, a full hour can be
   followed by half an hour.
   */
  lemma DelaysGrowIffUncapped(attempt: int, base: int)
    requires 1 <= attempt < 10 && 1 <= base <= 3600
    ensures NeverShrinks(attempt, attempt + 1, base) <==> base * Pow2(attempt) <= 3600
  {
    SecondsDouble(attempt, base);
    CeilingRange(attempt, base);
    CeilingRange(attempt + 1, base);
    var x, y := Ceiling(attempt, base), Ceiling(attempt + 1, base) / 2;
    assert Possible(x, attempt, base) && Possible(y, attempt + 1, base);
    assert Seconds(attempt + 1, base) == base * Pow2(attempt);
  }

  function Sum(xs: seq<int>): int {
    if xs == [] then 0 else Sum(xs[..|xs| - 1]) + xs[|xs| - 1]
  }

  /** base * (2^n - 1), in seconds: what n waits add up to without jitter and cap. */
  function TotalSeconds(n: nat, base: int): int {
    base * (Pow2(n) - 1)
  }

  lemma TotalSecondsStep(n: nat, base: int)
    requires 1 <= n <= 10
    ensures TotalSeconds(n, base) == TotalSeconds(n - 1, base) + Seconds(n, base)
  {
  }

  /** The m-1 uncapped waits of a delivery that uses all m attempts. */
  lemma {:induction false} GeometricSum(base: int, delays: seq<int>)
    requires 1 <= base <= 3600 && |delays| <= 9
    requires forall i :: 0 <= i < |delays| ==> Possible(delays[i], i + 1, base)
    requires forall i :: 1 <= i <= |delays| ==> Seconds(i, base) <= 3600
    ensures SECOND * TotalSeconds(|delays|, base) <= 2 * Sum(delays)
    ensures Sum(delays) <= SECOND * TotalSeconds(|delays|, base)
  {
    var n := |delays|;
    if n == 0 {
    } else {
      GeometricSum(base, delays[..n - 1]);
      TotalSecondsStep(n, base);
      CeilingRange(n, base);
      assert Possible(delays[n - 1], n, base);
      assert Seconds(n, base) <= 3600;
    }
  }
}
