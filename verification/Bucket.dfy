/**
 The token bucket that Redis runs as one atomic script. TIME counts
 microseconds and rates are whole tokens per second, so counting tokens in
 millionths makes every quantity an integer.
 */
module Bucket {
  import opened Common

  /** Millionths in a token. */
  const TOKEN: int := 1_000_000

  /** Microseconds in a second. */
  const MICROS: int := 1_000_000

  /** The hash behind the key: 'tokens' and 'time'. */
  datatype Level = Level(tokens: int, time: int)

  function Min(a: int, b: int): int {
    if a <= b then a else b
  }

  /** max(0, now - last): a clock that stepped back adds nothing. */
  function Ahead(now: int, last: int): nat {
    if now >= last then now - last else 0
  }

  /** The balance a request at time now finds. */
  function Refill(level: Option<Level>, now: int, rate: nat, capacity: nat): int {
    match level
    case None => capacity * TOKEN
    case Some(l) => Min(capacity * TOKEN, l.tokens + Ahead(now, l.time) * rate)
  }

  function Serve(level: Option<Level>, now: int, rate: nat, capacity: nat): (Level, bool) {
    var balance := Refill(level, now, rate, capacity);
    if balance >= TOKEN then (Level(balance - TOKEN, now), true) else (Level(balance, now), false)
  }

  /** math.ceil(capacity/rate)+60, in seconds. */
  function Ttl(rate: nat, capacity: nat): nat
    requires rate >= 1
  {
    (capacity + rate - 1) / rate + 60
  }

  /** The time to live is a minute more than the least number of seconds that refills the capacity. */
  lemma TtlIsLeast(rate: nat, capacity: nat, seconds: nat)
    requires rate >= 1
    ensures capacity <= seconds * rate <==> Ttl(rate, capacity) <= seconds + 60
  {
    var q := (capacity + rate - 1) / rate;
    if q <= seconds {
      Scale(q, seconds, rate);
    } else {
      Scale(seconds, q - 1, rate);
    }
  }

  class Key {
    var tokens: Option<int>
    var time: Option<int>
    var expireAt: int

    constructor ()
      ensures tokens.None? && time.None?
    {
      tokens, time, expireAt := None, None, 0;
    }

    ghost predicate Valid()
      reads this
    {
      tokens.Some? <==> time.Some?
    }

    ghost function Value(): Option<Level>
      requires Valid()
      reads this
    {
      if tokens.None? then None else Some(Level(tokens.value, time.value))
    }

    /** The script. */
    method Allow(now: int, rate: nat, capacity: nat) returns (allowed: bool)
      requires Valid() && rate >= 1
      modifies this
      ensures Valid() && Value().Some?
      ensures (Value().value, allowed) == Serve(old(Value()), now, rate, capacity)
      ensures expireAt == now + Ttl(rate, capacity) * 1_000_000
      ensures var found := if old(tokens).None? then capacity * 1_000_000 else old(tokens).value;
              var passed := if old(time).Some? && old(time).value < now then now - old(time).value else 0;
              var balance := Min(capacity * 1_000_000, found + passed * rate);
              && (allowed <==> balance >= 1_000_000)
              && tokens == Some(if allowed then balance - 1_000_000 else balance)
              && time == Some(now)
    {
      var t := if tokens.Some? then tokens.value else capacity * TOKEN;
      var last := if time.Some? then time.value else now;
      var elapsed := now - last;
      if elapsed < 0 {
        elapsed := 0;
      }
      t := t + elapsed * rate;
      if t > capacity * TOKEN {
        t := capacity * TOKEN;
      }
      allowed := false;
      if t >= TOKEN {
        t := t - TOKEN;
        allowed := true;
      }
      tokens, time := Some(t), Some(now);
      expireAt := now + ((capacity + rate - 1) / rate + 60) * MICROS;
    }
  }

  // ---------------------------------------------------------------- a bucket with fixed rate and capacity

  /** What the first n requests, at these times, leave behind. */
  function After(times: seq<int>, rate: nat, capacity: nat, n: nat): Option<Level>
    requires n <= |times|
  {
    if n == 0 then None
    else Some(Serve(After(times, rate, capacity, n - 1), times[n - 1], rate, capacity).0)
  }

  function Balance(times: seq<int>, rate: nat, capacity: nat, n: nat): int
    requires n < |times|
  {
    Refill(After(times, rate, capacity, n), times[n], rate, capacity)
  }

  predicate Granted(times: seq<int>, rate: nat, capacity: nat, n: nat)
    requires n < |times|
  {
    Serve(After(times, rate, capacity, n), times[n], rate, capacity).1
  }

  /** How many of the requests k..n-1 were granted. */
  function Grants(times: seq<int>, rate: nat, capacity: nat, k: nat, n: nat): nat
    requires k <= n <= |times|
  {
    if k == n then 0
    else Grants(times, rate, capacity, k, n - 1) + if Granted(times, rate, capacity, n - 1) then 1 else 0
  }

  /** The forward movement of the clock from request k to request n, times the rate. */
  function Inflow(times: seq<int>, rate: nat, k: nat, n: nat): nat
    requires k <= n < |times|
  {
    if k == n then 0 else Inflow(times, rate, k, n - 1) + Ahead(times[n], times[n - 1]) * rate
  }

  /** What a bucket that was full at request k would hold at request n, but for the clipping in between. */
  function Window(times: seq<int>, rate: nat, capacity: nat, k: nat, n: nat): int
    requires k <= n < |times|
  {
    capacity * TOKEN + Inflow(times, rate, k, n) - Grants(times, rate, capacity, k, n) * TOKEN
  }

  lemma BalanceStep(times: seq<int>, rate: nat, capacity: nat, n: nat)
    requires 0 < n < |times|
    ensures Balance(times, rate, capacity, n) ==
            Min(capacity * TOKEN,
                Balance(times, rate, capacity, n - 1) - (if Granted(times, rate, capacity, n - 1) then TOKEN else 0)
                + Ahead(times[n], times[n - 1]) * rate)
  {
  }

  /**
   Min-plus characterisation, for any clock: the balance before request n is the
   least of the windows that end at n.
   */
  lemma {:induction false} BalanceIsLeastWindow(times: seq<int>, rate: nat, capacity: nat, n: nat)
    requires n < |times|
    ensures forall k :: 0 <= k <= n ==> Balance(times, rate, capacity, n) <= Window(times, rate, capacity, k, n)
    ensures exists k :: 0 <= k <= n && Balance(times, rate, capacity, n) == Window(times, rate, capacity, k, n)
  {
    if n == 0 {
      assert Balance(times, rate, capacity, 0) == Window(times, rate, capacity, 0, 0);
    } else {
      BalanceIsLeastWindow(times, rate, capacity, n - 1);
      BalanceStep(times, rate, capacity, n);
      forall k | 0 <= k < n
        ensures Window(times, rate, capacity, k, n) == Window(times, rate, capacity, k, n - 1)
                - (if Granted(times, rate, capacity, n - 1) then TOKEN else 0) + Ahead(times[n], times[n - 1]) * rate
      {
        WindowStep(times, rate, capacity, k, n);
      }
      var k :| 0 <= k <= n - 1 && Balance(times, rate, capacity, n - 1) == Window(times, rate, capacity, k, n - 1);
      assert Window(times, rate, capacity, n, n) == capacity * TOKEN;
      assert Balance(times, rate, capacity, n) == Window(times, rate, capacity, n, n)
             || Balance(times, rate, capacity, n) == Window(times, rate, capacity, k, n);
    }
  }

  lemma WindowStep(times: seq<int>, rate: nat, capacity: nat, k: nat, n: nat)
    requires k < n < |times|
    ensures Window(times, rate, capacity, k, n) == Window(times, rate, capacity, k, n - 1)
            - (if Granted(times, rate, capacity, n - 1) then TOKEN else 0) + Ahead(times[n], times[n - 1]) * rate
  {
  }

  /** Granting request n as well would overdraw the window that starts at k. */
  predicate Overdraws(times: seq<int>, rate: nat, capacity: nat, k: nat, n: nat)
    requires k <= n < |times|
  {
    (Grants(times, rate, capacity, k, n) + 1) * TOKEN > capacity * TOKEN + Inflow(times, rate, k, n)
  }

  /** A request is denied exactly when some window ending at it would be overdrawn. */
  lemma DeniedIffOverdraws(times: seq<int>, rate: nat, capacity: nat, n: nat)
    requires n < |times|
    ensures !Granted(times, rate, capacity, n) <==>
            exists k :: 0 <= k <= n && Overdraws(times, rate, capacity, k, n)
  {
    BalanceIsLeastWindow(times, rate, capacity, n);
    forall k | 0 <= k <= n
      ensures Overdraws(times, rate, capacity, k, n) <==> Window(times, rate, capacity, k, n) < TOKEN
    {
    }
    if !Granted(times, rate, capacity, n) {
      var k :| 0 <= k <= n && Balance(times, rate, capacity, n) == Window(times, rate, capacity, k, n);
      assert Overdraws(times, rate, capacity, k, n);
    }
  }

  lemma {:induction false} NeverNegative(times: seq<int>, rate: nat, capacity: nat, n: nat)
    requires n < |times|
    ensures Balance(times, rate, capacity, n) >= 0
  {
    if n > 0 {
      NeverNegative(times, rate, capacity, n - 1);
      BalanceStep(times, rate, capacity, n);
      assert Ahead(times[n], times[n - 1]) * rate >= 0;
      assert capacity * TOKEN >= 0;
    } else {
      assert capacity * TOKEN >= 0;
    }
  }

  /** The rate bound, for any clock and any window of requests k..n. */
  lemma RateBound(times: seq<int>, rate: nat, capacity: nat, k: nat, n: nat)
    requires k <= n < |times|
    ensures Grants(times, rate, capacity, k, n + 1) * TOKEN <= capacity * TOKEN + Inflow(times, rate, k, n)
    ensures Grants(times, rate, capacity, k, n + 1) * 1_000_000 <= capacity * 1_000_000 + Forward(times, k, n) * rate
  {
    InflowIsForward(times, rate, k, n);
    BalanceIsLeastWindow(times, rate, capacity, n);
    NeverNegative(times, rate, capacity, n);
    assert Balance(times, rate, capacity, n) <= Window(times, rate, capacity, k, n);
    assert Granted(times, rate, capacity, n) <==> Balance(times, rate, capacity, n) >= TOKEN;
  }

  /** The forward movement of the clock from request k to request n. */
  function Forward(times: seq<int>, k: nat, n: nat): nat
    requires k <= n < |times|
  {
    if k == n then 0 else Forward(times, k, n - 1) + Ahead(times[n], times[n - 1])
  }

  lemma {:induction false} InflowIsForward(times: seq<int>, rate: nat, k: nat, n: nat)
    requires k <= n < |times|
    ensures Inflow(times, rate, k, n) == Forward(times, k, n) * rate
    decreases n
  {
    if k == n {
    } else {
      InflowIsForward(times, rate, k, n - 1);
      var a, b := Forward(times, k, n - 1), Ahead(times[n], times[n - 1]);
      assert (a + b) * rate == a * rate + b * rate;
    }
  }

  /** For a clock that never steps back that movement is the time elapsed. */
  lemma {:induction false} ForwardIsElapsed(times: seq<int>, k: nat, n: nat)
    requires k <= n < |times|
    requires forall i :: 0 < i < |times| ==> times[i - 1] <= times[i]
    ensures Forward(times, k, n) == times[n] - times[k]
    decreases n
  {
    if k == n {
    } else {
      ForwardIsElapsed(times, k, n - 1);
      assert times[n - 1] <= times[n];
    }
  }

  // ---------------------------------------------------------------- no limiter does better

  function Count(xs: seq<bool>, k: nat, n: nat): nat
    requires k <= n <= |xs|
  {
    if k == n then 0 else Count(xs, k, n - 1) + if xs[n - 1] then 1 else 0
  }

  /** Some other set of admissions that never overdraws a window. */
  ghost predicate Conforms(times: seq<int>, rate: nat, capacity: nat, xs: seq<bool>) {
    && |xs| == |times|
    && forall k, n :: 0 <= k <= n < |times| ==>
         Count(xs, k, n + 1) * TOKEN <= capacity * TOKEN + Inflow(times, rate, k, n)
  }

  lemma {:induction false} CountSplits(xs: seq<bool>, k: nat, n: nat)
    requires k <= n <= |xs|
    ensures Count(xs, 0, n) == Count(xs, 0, k) + Count(xs, k, n)
  {
    if k == n {
    } else {
      CountSplits(xs, k, n - 1);
    }
  }

  lemma {:induction false} GrantsSplit(times: seq<int>, rate: nat, capacity: nat, k: nat, n: nat)
    requires k <= n <= |times|
    ensures Grants(times, rate, capacity, 0, n) ==
            Grants(times, rate, capacity, 0, k) + Grants(times, rate, capacity, k, n)
  {
    if k == n {
    } else {
      GrantsSplit(times, rate, capacity, k, n - 1);
    }
  }

  /** The bucket is never behind: no admissions within the same bound grant more, at any point. */
  lemma {:induction false} BucketIsOptimal(times: seq<int>, rate: nat, capacity: nat, xs: seq<bool>, n: nat)
    requires Conforms(times, rate, capacity, xs) && n <= |times|
    ensures Count(xs, 0, n) <= Grants(times, rate, capacity, 0, n)
  {
    if n == 0 {
    } else {
      var p := n - 1;
      if Granted(times, rate, capacity, p) {
        BucketIsOptimal(times, rate, capacity, xs, p);
      } else {
        DeniedIffOverdraws(times, rate, capacity, p);
        var k :| 0 <= k <= p && Overdraws(times, rate, capacity, k, p);
        BucketIsOptimal(times, rate, capacity, xs, k);
        assert Count(xs, k, p + 1) * TOKEN <= capacity * TOKEN + Inflow(times, rate, k, p);
        CountSplits(xs, k, n);
        GrantsSplit(times, rate, capacity, k, n);
      }
    }
  }

  // ---------------------------------------------------------------- expiry

  /** A request, the highest clock reading since the previous one, and whether the key had expired. */
  datatype Query = Query(at: int, peak: int, lost: bool, rate: nat, capacity: nat)

  /** Redis may drop a key once its clock has passed the expiry set by the previous request. */
  ghost predicate MayExpire(q: seq<Query>) {
    && (forall i :: 0 <= i < |q| ==> q[i].rate >= 1 && q[i].at <= q[i].peak)
    && (forall i :: 0 < i < |q| ==> Expires(q[i - 1], q[i]))
  }

  predicate Expires(prev: Query, q: Query)
    requires prev.rate >= 1
  {
    && prev.at <= q.peak
    && (q.lost ==> q.peak > prev.at + Ttl(prev.rate, prev.capacity) * MICROS)
  }

  function Kept(q: seq<Query>, n: nat): Option<Level>
    requires n <= |q|
  {
    if n == 0 then None else Some(Serve(Kept(q, n - 1), q[n - 1].at, q[n - 1].rate, q[n - 1].capacity).0)
  }

  /** What the script finds when keys expire: nothing, if the key was lost. */
  function Found(q: seq<Query>, n: nat): Option<Level>
    requires n < |q|
  {
    if n == 0 || q[n].lost then None
    else Some(Serve(Found(q, n - 1), q[n - 1].at, q[n - 1].rate, q[n - 1].capacity).0)
  }

  /** The time since the previous request refills this request's whole capacity at this request's rate. */
  predicate Covers(prev: Query, q: Query) {
    q.capacity * TOKEN <= Ahead(q.at, prev.at) * q.rate
  }

  lemma {:induction false} KeptNotNegative(q: seq<Query>, n: nat)
    requires n <= |q|
    ensures n > 0 ==> Kept(q, n).Some? && Kept(q, n).value.tokens >= 0 && Kept(q, n).value.time == q[n - 1].at
  {
    if n == 0 {
    } else {
      KeptNotNegative(q, n - 1);
      RefillNotNegative(Kept(q, n - 1), q[n - 1].at, q[n - 1].rate, q[n - 1].capacity);
    }
  }

  lemma RefillNotNegative(level: Option<Level>, now: int, rate: nat, capacity: nat)
    requires level.Some? ==> level.value.tokens >= 0
    ensures 0 <= Refill(level, now, rate, capacity) <= capacity * TOKEN
  {
  }

  /** A lost key and a kept one give the same balance, for every level, exactly when Covers holds. */
  lemma SameBalanceIffCovers(prev: Query, q: Query)
    ensures (forall tokens: nat :: Refill(Some(Level(tokens, prev.at)), q.at, q.rate, q.capacity)
                                   == Refill(None, q.at, q.rate, q.capacity))
            <==> Covers(prev, q)
  {
    assert Refill(Some(Level(0, prev.at)), q.at, q.rate, q.capacity)
           == Min(q.capacity * TOKEN, Ahead(q.at, prev.at) * q.rate);
  }

  /** Expiry is unobservable: every request finds the balance, and gets the answer, of a bucket that never forgets. */
  lemma {:induction false} ExpiryIsUnobservable(q: seq<Query>, n: nat)
    requires MayExpire(q) && n < |q|
    requires forall i :: 0 < i < |q| && q[i].lost ==> Covers(q[i - 1], q[i])
    ensures Refill(Found(q, n), q[n].at, q[n].rate, q[n].capacity) ==
            Refill(Kept(q, n), q[n].at, q[n].rate, q[n].capacity)
    ensures Serve(Found(q, n), q[n].at, q[n].rate, q[n].capacity) ==
            Serve(Kept(q, n), q[n].at, q[n].rate, q[n].capacity)
  {
    if n == 0 {
    } else {
      ExpiryIsUnobservable(q, n - 1);
      KeptNotNegative(q, n);
      if q[n].lost {
        assert Covers(q[n - 1], q[n]);
      }
    }
  }

  lemma CeilingCovers(rate: nat, capacity: nat)
    requires rate >= 1
    ensures capacity <= ((capacity + rate - 1) / rate) * rate
  {
  }

  lemma Scale(a: int, b: int, rate: nat)
    requires a <= b
    ensures a * rate <= b * rate
  {
  }

  predicate Answer(level: Option<Level>, q: Query) {
    Serve(level, q.at, q.rate, q.capacity).1
  }

  predicate SameAnswer(q: seq<Query>, i: nat)
    requires i < |q|
  {
    Answer(Found(q, i), q[i]) <==> Answer(Kept(q, i), q[i])
  }

  /** The answers with expiring keys are those of keys that are kept forever. */
  ghost predicate SameAnswers(q: seq<Query>) {
    forall i :: 0 <= i < |q| ==> SameAnswer(q, i)
  }

  /** The clock never reads more than drift less than it read since the previous request. */
  ghost predicate Within(q: seq<Query>, drift: nat) {
    forall i :: 0 <= i < |q| ==> q[i].peak - q[i].at <= drift
  }

  lemma CoveredSameAnswers(q: seq<Query>)
    requires MayExpire(q)
    requires forall i :: 0 < i < |q| && q[i].lost ==> Covers(q[i - 1], q[i])
    ensures SameAnswers(q)
  {
    forall i | 0 <= i < |q| ensures SameAnswer(q, i) {
      ExpiryIsUnobservable(q, i);
    }
  }

  // ---------------------------------------------------------------- exactly when expiry is unobservable

  ghost predicate Fixed(q: seq<Query>, rate: nat, capacity: nat) {
    forall i :: 0 <= i < |q| ==> q[i].rate == rate && q[i].capacity == capacity
  }

  /** On every request sequence with this drift a bucket of fixed rate and capacity never shows that keys expire. */
  ghost predicate ForgetsNothing(rate: nat, capacity: nat, drift: nat) {
    forall q :: MayExpire(q) && Within(q, drift) && Fixed(q, rate, capacity) ==> SameAnswers(q)
  }

  /** The time to live, less the drift, refills the whole capacity. */
  predicate Margin(rate: nat, capacity: nat, drift: nat)
    requires rate >= 1
  {
    capacity * TOKEN <= Ahead(Ttl(rate, capacity) * MICROS + 1, drift) * rate
  }

  lemma MarginSuffices(rate: nat, capacity: nat, drift: nat)
    requires rate >= 1 && Margin(rate, capacity, drift)
    ensures ForgetsNothing(rate, capacity, drift)
  {
    forall q: seq<Query> | MayExpire(q) && Within(q, drift) && Fixed(q, rate, capacity) ensures SameAnswers(q) {
      forall i | 0 < i < |q| && q[i].lost ensures Covers(q[i - 1], q[i]) {
        assert Expires(q[i - 1], q[i]);
        Scale(Ahead(Ttl(rate, capacity) * MICROS + 1, drift), Ahead(q[i].at, q[i - 1].at), rate);
      }
      CoveredSameAnswers(q);
    }
  }

  /** Empty the bucket at time 0, let the key expire at peak, then ask for the whole capacity at time at. */
  function Scenario(rate: nat, capacity: nat, at: int, peak: int): (q: seq<Query>)
    ensures |q| == 2 * capacity
  {
    seq(2 * capacity, i =>
      if i < capacity then Query(0, 0, false, rate, capacity)
      else Query(at, if i == capacity then peak else at, i == capacity, rate, capacity))
  }

  lemma {:induction false} Drains(q: seq<Query>, rate: nat, capacity: nat, at: int, peak: int, j: nat)
    requires q == Scenario(rate, capacity, at, peak) && j <= capacity
    ensures Kept(q, j) == if j == 0 then None else Some(Level((capacity - j) * TOKEN, 0))
  {
    if j == 0 {
    } else {
      Drains(q, rate, capacity, at, peak, j - 1);
    }
  }

  lemma {:induction false} LostIsFull(q: seq<Query>, rate: nat, capacity: nat, at: int, peak: int, j: nat)
    requires q == Scenario(rate, capacity, at, peak) && j < capacity
    ensures Found(q, capacity + j) == if j == 0 then None else Some(Level((capacity - j) * TOKEN, at))
    ensures Answer(Found(q, capacity + j), q[capacity + j])
  {
    if j == 0 {
    } else {
      LostIsFull(q, rate, capacity, at, peak, j - 1);
    }
  }

  /** A further request at the same moment finds what the previous one left. */
  lemma NextAtOnce(level: Option<Level>, at: int, rate: nat, capacity: nat)
    requires Serve(level, at, rate, capacity).1
    ensures Refill(Some(Serve(level, at, rate, capacity).0), at, rate, capacity)
         == Refill(level, at, rate, capacity) - TOKEN
  {
  }

  /** Request i comes at this moment and is granted from the kept key. */
  predicate GrantedKept(q: seq<Query>, i: nat, at: int, rate: nat, capacity: nat)
    requires i < |q|
  {
    q[i].at == at && q[i].rate == rate && q[i].capacity == capacity && Answer(Kept(q, i), q[i])
  }

  /** A burst of grants at one moment takes one token each. */
  lemma {:induction false} BurstRunsDown(q: seq<Query>, i: nat, j: nat, at: int, rate: nat, capacity: nat)
    requires i + j <= |q|
    requires forall k :: i <= k < i + j ==> GrantedKept(q, k, at, rate, capacity)
    ensures j > 0 ==> Refill(Kept(q, i + j), at, rate, capacity) == Refill(Kept(q, i), at, rate, capacity) - j * TOKEN
  {
    if j == 0 {
    } else {
      var k := i + j - 1;
      BurstRunsDown(q, i, j - 1, at, rate, capacity);
      assert GrantedKept(q, k, at, rate, capacity);
      NextAtOnce(Kept(q, k), at, rate, capacity);
      assert Kept(q, k + 1) == Some(Serve(Kept(q, k), at, rate, capacity).0);
    }
  }

  lemma SecondBurstGranted(q: seq<Query>, rate: nat, capacity: nat, at: int, peak: int, j: nat)
    requires q == Scenario(rate, capacity, at, peak) && j < capacity
    requires SameAnswer(q, capacity + j)
    ensures GrantedKept(q, capacity + j, at, rate, capacity)
  {
    LostIsFull(q, rate, capacity, at, peak, j);
  }

  lemma OneTokenLess(balance: int, capacity: nat)
    requires capacity >= 1 && balance - (capacity - 1) * TOKEN >= TOKEN
    ensures capacity * TOKEN <= balance
  {
  }

  /** A kept key that grants a whole capacity at one moment was full. */
  lemma KeptWasFull(q: seq<Query>, rate: nat, capacity: nat, at: int)
    requires |q| == 2 * capacity && capacity >= 1
    requires forall k :: capacity <= k < 2 * capacity ==> GrantedKept(q, k, at, rate, capacity)
    ensures capacity * TOKEN <= Refill(Kept(q, capacity), at, rate, capacity)
  {
    BurstRunsDown(q, capacity, capacity - 1, at, rate, capacity);
    assert GrantedKept(q, 2 * capacity - 1, at, rate, capacity);
    OneTokenLess(Refill(Kept(q, capacity), at, rate, capacity), capacity);
  }

  lemma ScenarioIsLegal(rate: nat, capacity: nat, drift: nat, at: int, peak: int)
    requires rate >= 1 && peak == Ttl(rate, capacity) * MICROS + 1 && at == Ahead(peak, drift)
    ensures var q := Scenario(rate, capacity, at, peak);
            MayExpire(q) && Within(q, drift) && Fixed(q, rate, capacity)
  {
  }

  /** If the scenario does not show the loss, the kept key was full again as well. */
  lemma UnnoticedMeansFull(q: seq<Query>, rate: nat, capacity: nat, at: int, peak: int)
    requires q == Scenario(rate, capacity, at, peak) && capacity >= 1 && SameAnswers(q)
    ensures capacity * TOKEN <= Refill(Kept(q, capacity), at, rate, capacity)
  {
    forall k | capacity <= k < 2 * capacity ensures GrantedKept(q, k, at, rate, capacity) {
      assert SameAnswer(q, k);
      SecondBurstGranted(q, rate, capacity, at, peak, k - capacity);
    }
    KeptWasFull(q, rate, capacity, at);
  }

  lemma EmptiedNeedsMargin(q: seq<Query>, rate: nat, capacity: nat, at: int, peak: int)
    requires q == Scenario(rate, capacity, at, peak) && capacity >= 1 && at >= 0
    requires capacity * TOKEN <= Refill(Kept(q, capacity), at, rate, capacity)
    ensures capacity * TOKEN <= at * rate
  {
    Drains(q, rate, capacity, at, peak, capacity);
  }

  lemma MarginIsNeeded(rate: nat, capacity: nat, drift: nat)
    requires rate >= 1 && ForgetsNothing(rate, capacity, drift)
    ensures Margin(rate, capacity, drift)
  {
    if capacity >= 1 {
      var peak := Ttl(rate, capacity) * MICROS + 1;
      var at := Ahead(peak, drift);
      var q := Scenario(rate, capacity, at, peak);
      ScenarioIsLegal(rate, capacity, drift, at, peak);
      UnnoticedMeansFull(q, rate, capacity, at, peak);
      EmptiedNeedsMargin(q, rate, capacity, at, peak);
    }
  }

  /**
   With fixed rate and capacity expiry is unobservable, on every request sequence,
   if and only if the time to live less the drift of the clock refills the bucket.
   */
  lemma FixedBucketForgetsNothingIff(rate: nat, capacity: nat, drift: nat)
    requires rate >= 1
    ensures ForgetsNothing(rate, capacity, drift) <==> Margin(rate, capacity, drift)
  {
    if Margin(rate, capacity, drift) {
      MarginSuffices(rate, capacity, drift);
    }
    if ForgetsNothing(rate, capacity, drift) {
      MarginIsNeeded(rate, capacity, drift);
    }
  }

  /** Sixty spare seconds: every fixed bucket tolerates a clock that steps back by up to a minute. */
  lemma FixedBucketForgetsNothing(rate: nat, capacity: nat)
    requires rate >= 1
    ensures ForgetsNothing(rate, capacity, 60 * MICROS)
  {
    var full := (capacity + rate - 1) / rate;
    CeilingCovers(rate, capacity);
    Scale(full * MICROS, Ahead(Ttl(rate, capacity) * MICROS + 1, 60 * MICROS), rate);
    assert full * MICROS * rate == full * rate * MICROS;
    FixedBucketForgetsNothingIff(rate, capacity, 60 * MICROS);
  }

  /** An endpoint's bucket has capacity = rate, whatever the rate is edited to between requests. */
  ghost predicate Endpoint(q: seq<Query>) {
    forall i :: 0 <= i < |q| ==> q[i].capacity == q[i].rate
  }

  ghost predicate EndpointsForgetNothing(drift: nat) {
    forall q :: MayExpire(q) && Within(q, drift) && Endpoint(q) ==> SameAnswers(q)
  }

  lemma EndpointBucketCovers(prev: Query, q: Query, drift: nat)
    requires prev.capacity == prev.rate >= 1 && q.capacity == q.rate && drift <= 60 * MICROS + 1
    requires Expires(prev, q) && q.lost && q.peak - q.at <= drift
    ensures Covers(prev, q)
  {
    assert Ttl(prev.rate, prev.capacity) == 61;
    Scale(MICROS, Ahead(q.at, prev.at), q.rate);
  }

  /** For endpoint buckets under rate edits, expiry is unobservable iff the drift stays within the spare minute. */
  lemma EndpointBucketForgetsNothingIff(drift: nat)
    ensures EndpointsForgetNothing(drift) <==> drift <= 60 * MICROS + 1
  {
    if drift <= 60 * MICROS + 1 {
      forall q: seq<Query> | MayExpire(q) && Within(q, drift) && Endpoint(q) ensures SameAnswers(q) {
        forall i | 0 < i < |q| && q[i].lost ensures Covers(q[i - 1], q[i]) {
          assert Expires(q[i - 1], q[i]);
          EndpointBucketCovers(q[i - 1], q[i], drift);
        }
        CoveredSameAnswers(q);
      }
    } else {
      FixedBucketForgetsNothingIff(1, 1, drift);
      assert !Margin(1, 1, drift);
      var q :| MayExpire(q) && Within(q, drift) && Fixed(q, 1, 1) && !SameAnswers(q);
      assert Endpoint(q);
    }
  }
}
