/**
 The simple machine that every delivery appears to be: one attempt after the
 other, one generation after the other. It has no workers, leases or tokens;
 attempts are numbered by counting them.
 */
module Sequential {
  import opened Retry
  import opened Tables

  datatype Phase = Open | Done | Exhausted | Abandoned

  /** past holds the outcomes of the generations that ended dead and were replayed. */
  datatype Spec = Spec(past: seq<seq<Entry>>, current: seq<Entry>, phase: Phase)

  const FRESH: Spec := Spec([], [], Open)

  datatype Move = Stutter | Record(entry: Entry) | Cancel | Restart

  function Last(g: seq<Entry>): Entry
    requires g != []
  {
    g[|g| - 1]
  }

  /** The least wait that must separate an attempt from the next one. */
  function LeastWait(e: Entry, attempt: nat): Time {
    Ceiling(attempt, e.policy.baseDelay) / 2
  }

  /** The backoff after the latest attempt of the generation g is over at time t. */
  predicate Rested(g: seq<Entry>, t: Time) {
    g != [] ==> Last(g).at + LeastWait(Last(g), |g|) <= t
  }

  predicate Legal(m: Spec, move: Move) {
    match move
    case Stutter => true
    case Record(e) => m.phase == Open && e.policy.Valid() && Rested(m.current, e.at)
    case Cancel => m.phase == Open
    case Restart => m.phase == Exhausted
  }

  function Judge(code: int, attempt: nat, limit: int): Phase {
    if Success(code) then Done else if Retryable(code) && attempt < limit then Open else Exhausted
  }

  function Perform(m: Spec, move: Move): Spec
    requires Legal(m, move)
  {
    match move
    case Stutter => m
    case Record(e) =>
      Spec(m.past, m.current + [e], Judge(e.code, |m.current| + 1, e.policy.maxAttempts))
    case Cancel => m.(phase := Abandoned)
    case Restart => Spec(m.past + [m.current], [], Open)
  }

  // ---------------------------------------------------------------- what the machine keeps

  /** The first n attempts failed, were worth retrying, and were below their captured limit. */
  ghost predicate Retried(g: seq<Entry>, n: nat)
    requires n <= |g|
  {
    forall i :: 0 <= i < n ==> g[i].policy.Valid() && Judge(g[i].code, i + 1, g[i].policy.maxAttempts) == Open
  }

  ghost predicate Spaced(g: seq<Entry>) {
    forall i :: 0 < i < |g| ==> Rested(g[..i], g[i].at)
  }

  ghost predicate Generation(g: seq<Entry>, phase: Phase) {
    && Spaced(g)
    && (if phase == Open || phase == Abandoned then Retried(g, |g|)
        else g != [] && Retried(g, |g| - 1) && Last(g).policy.Valid()
             && Judge(Last(g).code, |g|, Last(g).policy.maxAttempts) == phase)
  }

  ghost predicate Inv(m: Spec) {
    && (forall i :: 0 <= i < |m.past| ==> Generation(m.past[i], Exhausted))
    && Generation(m.current, m.phase)
  }

  lemma InvKept(m: Spec, move: Move)
    requires Inv(m) && Legal(m, move)
    ensures Inv(Perform(m, move))
  {
    match move
    case Record(e) => RecordKeepsGeneration(m.current, e);
    case _ =>
  }

  lemma RecordKeepsGeneration(g: seq<Entry>, e: Entry)
    requires Generation(g, Open) && e.policy.Valid() && Rested(g, e.at)
    ensures Generation(g + [e], Judge(e.code, |g| + 1, e.policy.maxAttempts))
  {
  }

  // ---------------------------------------------------------------- budget

  lemma GenerationBudget(g: seq<Entry>, phase: Phase)
    requires Generation(g, phase)
    ensures |g| <= 10
    ensures phase == Open || phase == Abandoned ==> |g| <= 9
  {
    if phase == Open || phase == Abandoned {
      if g != [] {
        assert g[|g| - 1].policy.Valid() && |g| < g[|g| - 1].policy.maxAttempts;
      }
    } else if |g| > 1 {
      assert g[|g| - 2].policy.Valid() && |g| - 1 < g[|g| - 2].policy.maxAttempts;
    }
  }

  /** Failing retryably to death under one fixed limit takes exactly that many attempts. */
  lemma ExhaustionIsExact(g: seq<Entry>, limit: int)
    requires Generation(g, Exhausted)
    requires forall i :: 0 <= i < |g| ==> g[i].policy.maxAttempts == limit && Retryable(g[i].code)
    ensures |g| == limit
  {
  }

  /**
   Under one fixed base delay whose waits stay below the cap, the attempts of a
   generation span at least half of base * (2^(n-1) - 1) seconds.
   */
  lemma {:induction false} GenerationSpan(g: seq<Entry>, base: int, n: nat)
    requires Spaced(g) && 1 <= n <= |g| <= 10 && 1 <= base <= 3600
    requires forall i :: 0 <= i < |g| ==> g[i].policy.baseDelay == base
    requires forall i :: 1 <= i < n ==> Seconds(i, base) <= 3600
    ensures SECOND * TotalSeconds(n - 1, base) <= 2 * (g[n - 1].at - g[0].at)
  {
    if n == 1 {
    } else {
      GenerationSpan(g, base, n - 1);
      TotalSecondsStep(n - 1, base);
      assert Rested(g[..n - 1], g[n - 1].at);
      assert Last(g[..n - 1]) == g[n - 2];
      CeilingRange(n - 1, base);
      assert Seconds(n - 1, base) <= 3600;
    }
  }

  // ---------------------------------------------------------------- the rows it stands for

  function Number(generation: nat, g: seq<Entry>): (rows: seq<Row>)
    ensures |rows| == |g|
  {
    seq(|g|, i requires 0 <= i < |g| => Row(generation, i + 1, g[i]))
  }

  function Flatten(past: seq<seq<Entry>>): seq<Row> {
    if past == [] then []
    else Flatten(past[..|past| - 1]) + Number(|past| - 1, past[|past| - 1])
  }

  /** The rows of delivery_attempts, in order of insertion. */
  function Rows(m: Spec): seq<Row> {
    Flatten(m.past) + Number(|m.past|, m.current)
  }

  lemma RowsAfter(m: Spec, move: Move)
    requires Legal(m, move)
    ensures Rows(Perform(m, move)) ==
            Rows(m) + if move.Record? then [Row(|m.past|, |m.current| + 1, move.entry)] else []
  {
  }

  predicate Listed(m: Spec, r: Row) {
    || (r.generation < |m.past| && 1 <= r.attempt <= |m.past[r.generation]|
        && r.entry == m.past[r.generation][r.attempt - 1])
    || (r.generation == |m.past| && 1 <= r.attempt <= |m.current| && r.entry == m.current[r.attempt - 1])
  }

  lemma NumberMember(generation: nat, g: seq<Entry>, r: Row)
    ensures r in Number(generation, g) <==>
            r.generation == generation && 1 <= r.attempt <= |g| && r.entry == g[r.attempt - 1]
  {
    if r.generation == generation && 1 <= r.attempt <= |g| && r.entry == g[r.attempt - 1] {
      assert Number(generation, g)[r.attempt - 1] == r;
    }
  }

  lemma {:induction false} FlattenMember(past: seq<seq<Entry>>, r: Row)
    ensures r in Flatten(past) <==>
            && r.generation < |past| && 1 <= r.attempt <= |past[r.generation]|
            && r.entry == past[r.generation][r.attempt - 1]
  {
    if past == [] {
    } else {
      FlattenMember(past[..|past| - 1], r);
      NumberMember(|past| - 1, past[|past| - 1], r);
    }
  }

  lemma RowsMember(m: Spec, r: Row)
    ensures r in Rows(m) <==> Listed(m, r)
  {
    FlattenMember(m.past, r);
    NumberMember(|m.past|, m.current, r);
  }

  lemma {:induction false} FlattenLength(past: seq<seq<Entry>>)
    requires forall i :: 0 <= i < |past| ==> |past[i]| <= 10
    ensures |Flatten(past)| <= 10 * |past|
  {
    if past == [] {
    } else {
      FlattenLength(past[..|past| - 1]);
    }
  }

  lemma TotalBudget(m: Spec)
    requires Inv(m)
    ensures |Rows(m)| <= 10 * (|m.past| + 1)
  {
    forall i | 0 <= i < |m.past| ensures |m.past[i]| <= 10 {
      GenerationBudget(m.past[i], Exhausted);
    }
    GenerationBudget(m.current, m.phase);
    FlattenLength(m.past);
  }
}
