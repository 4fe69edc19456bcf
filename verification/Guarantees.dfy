/**
 What the refinement says about the tables themselves, at every point of every run.
 */
module Guarantees {
  import opened Retry
  import opened Tables
  import opened Sequential
  import opened Protocol

  // ---------------------------------------------------------------- gap-free history

  ghost predicate HasAttempt(s: State, d: DeliveryId, generation: nat, attempt: nat) {
    exists a :: a in s.attempts && KeyOf(a) == (d, generation, attempt)
  }

  /** The attempts of the generation are exactly 1..k. */
  ghost predicate Exactly(s: State, d: DeliveryId, generation: nat, k: nat) {
    forall n: nat :: HasAttempt(s, d, generation, n) <==> 1 <= n <= k
  }

  /** Attempt (generation, k) is recorded with a code outside 2xx. */
  ghost predicate EndsInFailure(s: State, d: DeliveryId, generation: nat, k: nat) {
    exists a :: a in s.attempts && KeyOf(a) == (d, generation, k) && !Success(a.row.entry.code)
  }

  lemma HasAttemptIffListed(s: State, d: DeliveryId, m: Spec, generation: nat, n: nat)
    requires LogOf(s.attempts, d) == Rows(m)
    ensures HasAttempt(s, d, generation, n) <==> exists e :: Listed(m, Row(generation, n, e))
  {
    if HasAttempt(s, d, generation, n) {
      var a :| a in s.attempts && KeyOf(a) == (d, generation, n);
      LogMember(s.attempts, d, a.row);
      RowsMember(m, a.row);
      assert a.row == Row(generation, n, a.row.entry);
    }
    if e :| Listed(m, Row(generation, n, e)) {
      RowsMember(m, Row(generation, n, e));
      LogMember(s.attempts, d, Row(generation, n, e));
    }
  }

  function Length(m: Spec, generation: nat): nat {
    if generation < |m.past| then |m.past[generation]|
    else if generation == |m.past| then |m.current|
    else 0
  }

  lemma GenerationsAreExact(s: State, d: DeliveryId, m: Spec, generation: nat)
    requires LogOf(s.attempts, d) == Rows(m)
    ensures Exactly(s, d, generation, Length(m, generation))
  {
    forall n: nat ensures HasAttempt(s, d, generation, n) <==> 1 <= n <= Length(m, generation) {
      HasAttemptIffListed(s, d, m, generation, n);
      if 1 <= n <= Length(m, generation) {
        var g := if generation < |m.past| then m.past[generation] else m.current;
        assert Listed(m, Row(generation, n, g[n - 1]));
      }
    }
  }

  lemma PastEndsInFailure(s: State, d: DeliveryId, m: Spec, generation: nat)
    requires LogOf(s.attempts, d) == Rows(m) && Inv(m) && generation < |m.past|
    ensures 1 <= Length(m, generation) <= 10
    ensures EndsInFailure(s, d, generation, Length(m, generation))
  {
    var g := m.past[generation];
    assert Generation(g, Exhausted);
    GenerationBudget(g, Exhausted);
    var r := Row(generation, |g|, Last(g));
    RowsMember(m, r);
    LogMember(s.attempts, d, r);
    var a :| a in s.attempts && a.delivery == d && a.row == r;
    assert KeyOf(a) == (d, generation, |g|);
  }

  /** A generation that ended: a non-empty 1..k whose last attempt failed. */
  ghost predicate Closed(s: State, d: DeliveryId, generation: nat) {
    exists k: nat :: 1 <= k <= 10 && Exactly(s, d, generation, k) && EndsInFailure(s, d, generation, k)
  }

  /**
   The current generation holds exactly the attempts 1..attempt_count, every
   earlier one a non-empty 1..k whose last attempt failed, and later ones nothing.
   */
  lemma GapFreeHistory(lease: nat, ss: seq<State>, steps: seq<Step>, i: nat, d: DeliveryId, g: nat)
    requires Run(lease, ss, steps) && i <= |steps| && d in ss[i].deliveries
    ensures var row := ss[i].deliveries[d];
            if g < row.generation then Closed(ss[i], d, g)
            else Exactly(ss[i], d, g, if g == row.generation then row.attemptCount else 0)
  {
    Refinement(lease, ss, steps, i, d);
    var m := Life(ss, steps, i, d);
    GenerationsAreExact(ss[i], d, m, g);
    if g < |m.past| {
      PastEndsInFailure(ss[i], d, m, g);
    }
  }

  // ---------------------------------------------------------------- budget and spacing

  /** Open and cancelled deliveries have budget left; nobody ever exceeds ten attempts a generation. */
  lemma FiniteBudget(lease: nat, ss: seq<State>, steps: seq<Step>, i: nat, d: DeliveryId)
    requires Run(lease, ss, steps) && i <= |steps| && d in ss[i].deliveries
    ensures var row := ss[i].deliveries[d];
            && row.attemptCount <= 10
            && (row.status.Open() || row.status.Cancelled? ==> row.attemptCount <= 9)
            && |LogOf(ss[i].attempts, d)| <= 10 * (row.generation + 1)
  {
    Refinement(lease, ss, steps, i, d);
    var m := Life(ss, steps, i, d);
    GenerationBudget(m.current, m.phase);
    TotalBudget(m);
  }

  /** Accepted completions of d between i and k. */
  ghost function Finishes(ss: seq<State>, steps: seq<Step>, i: nat, k: nat, d: DeliveryId): nat
    requires |ss| == |steps| + 1 && i <= k <= |steps|
    decreases k
  {
    if i == k then 0
    else
      var last := steps[k - 1];
      Finishes(ss, steps, i, k - 1, d) + if last.Finish? && last.job.id == d && Accepted(ss[k - 1], last) then 1 else 0
  }

  lemma LogStep(lease: nat, s: State, step: Step, s': State, d: DeliveryId)
    requires Next(lease, s, step, s')
    ensures |LogOf(s'.attempts, d)| ==
            |LogOf(s.attempts, d)| + if step.Finish? && step.job.id == d && Accepted(s, step) then 1 else 0
  {
    AttemptsStep(lease, s, step, s');
  }

  /** Only accepted completions consume attempts: claims, throttling, defers, replays and edits are free. */
  lemma {:induction false} OnlyFinishesConsume(
    lease: nat, ss: seq<State>, steps: seq<Step>, i: nat, k: nat, d: DeliveryId)
    requires Run(lease, ss, steps) && i <= k <= |steps|
    ensures |LogOf(ss[k].attempts, d)| == |LogOf(ss[i].attempts, d)| + Finishes(ss, steps, i, k, d)
    decreases k
  {
    if i == k {
    } else {
      OnlyFinishesConsume(lease, ss, steps, i, k - 1, d);
      assert StepAt(lease, ss, steps, k - 1);
      LogStep(lease, ss[k - 1], steps[k - 1], ss[k], d);
    }
  }

  /** The recorded attempt with this key. */
  ghost predicate Recorded(s: State, d: DeliveryId, generation: nat, attempt: nat, e: Entry) {
    Row(generation, attempt, e) in LogOf(s.attempts, d)
  }

  /**
   Between an attempt and the next one of its generation lies at least half of
   the backoff ceiling its claim had captured, and the earlier one was retryable
   and below its captured limit. A dead delivery's last attempt was neither.
   */
  lemma AttemptsAreSpaced(
    lease: nat, ss: seq<State>, steps: seq<Step>, i: nat, d: DeliveryId, g: nat, n: nat, a: Entry, b: Entry)
    requires Run(lease, ss, steps) && i <= |steps| && d in ss[i].deliveries
    requires Recorded(ss[i], d, g, n, a) && Recorded(ss[i], d, g, n + 1, b)
    ensures a.at + Ceiling(n, a.policy.baseDelay) / 2 <= b.at
    ensures Retryable(a.code) && n < a.policy.maxAttempts
  {
    Refinement(lease, ss, steps, i, d);
    var m := Life(ss, steps, i, d);
    RowsMember(m, Row(g, n, a));
    RowsMember(m, Row(g, n + 1, b));
    var entries := if g < |m.past| then m.past[g] else m.current;
    assert Generation(entries, if g < |m.past| then Exhausted else m.phase);
    assert Rested(entries[..n], entries[n].at);
    assert Last(entries[..n]) == a;
  }

  /** The last attempt of a generation decides a delivery's fate; before the first it is neither dead nor succeeded. */
  lemma DeathHasACause(lease: nat, ss: seq<State>, steps: seq<Step>, i: nat, d: DeliveryId)
    requires Run(lease, ss, steps) && i <= |steps| && d in ss[i].deliveries
    ensures var row := ss[i].deliveries[d];
            && (row.status.Dead? || row.status.Succeeded? ==> row.attemptCount >= 1)
            && (row.attemptCount >= 1 ==> exists e :: Recorded(ss[i], d, row.generation, row.attemptCount, e))
    ensures var row := ss[i].deliveries[d];
            forall e :: Recorded(ss[i], d, row.generation, row.attemptCount, e) ==>
              && (row.status.Dead? <==>
                  !Success(e.code) && (!Retryable(e.code) || row.attemptCount >= e.policy.maxAttempts))
              && (row.status.Succeeded? <==> Success(e.code))
  {
    Refinement(lease, ss, steps, i, d);
    var m := Life(ss, steps, i, d);
    assert Generation(m.current, m.phase);
    forall e ensures Recorded(ss[i], d, |m.past|, |m.current|, e) <==> m.current != [] && e == Last(m.current) {
      RowsMember(m, Row(|m.past|, |m.current|, e));
    }
    if m.current != [] {
      assert Recorded(ss[i], d, |m.past|, |m.current|, Last(m.current));
    }
  }

  lemma SuccessIsLastListed(m: Spec, r: Row)
    requires Inv(m) && Listed(m, r) && Success(r.entry.code)
    ensures m.phase == Done && r.generation == |m.past| && r.attempt == |m.current|
  {
    var g := if r.generation < |m.past| then m.past[r.generation] else m.current;
    assert Generation(g, if r.generation < |m.past| then Exhausted else m.phase);
  }

  /** A 2xx attempt is the last one of a succeeded delivery, so there is at most one. */
  lemma SuccessIsLast(lease: nat, ss: seq<State>, steps: seq<Step>, i: nat, d: DeliveryId, g: nat, n: nat, e: Entry)
    requires Run(lease, ss, steps) && i <= |steps| && d in ss[i].deliveries
    requires Recorded(ss[i], d, g, n, e) && Success(e.code)
    ensures var row := ss[i].deliveries[d];
            row.status.Succeeded? && g == row.generation && n == row.attemptCount
  {
    Refinement(lease, ss, steps, i, d);
    var m := Life(ss, steps, i, d);
    RowsMember(m, Row(g, n, e));
    SuccessIsLastListed(m, Row(g, n, e));
  }

  // ---------------------------------------------------------------- the delays that were written

  /**
   The delays next_attempt_at - now() that the accepted completions of d wrote in
   its current generation wherever they left the row retrying.
   */
  ghost function Waits(ss: seq<State>, steps: seq<Step>, i: nat, d: DeliveryId): seq<Time>
    requires |ss| == |steps| + 1 && i <= |steps|
  {
    if i == 0 || d !in ss[i - 1].deliveries then []
    else
      var s, step, s' := ss[i - 1], steps[i - 1], ss[i];
      if step == Replay(d) && Replayable(s, d) then []
      else
        Waits(ss, steps, i - 1, d)
        + if step.Finish? && step.job.id == d && Accepted(s, step) && d in s'.deliveries
          then WrittenDelay(s'.deliveries[d], s.now)
          else []
  }

  function WrittenDelay(row: Delivery, now: Time): seq<Time> {
    if row.status.Retrying? then [row.nextAttemptAt - now] else []
  }

  /** One delay for each attempt that was followed by a retry, each a possible backoff after that attempt. */
  ghost predicate WaitsOk(ws: seq<Time>, m: Spec) {
    && |ws| == (if m.phase == Open || m.phase == Abandoned then |m.current| else |m.current| - 1)
    && forall n :: 0 <= n < |ws| ==> Possible(ws[n], n + 1, m.current[n].policy.baseDelay)
  }

  lemma RecordKeepsWaits(row: Delivery, j: Job, code: int, draw: int, now: Time, m: Spec, ws: seq<Time>)
    requires j.policy.Valid() && 0 <= draw <= Ceiling(j.attempt, j.policy.baseDelay) / 2
    requires Legal(m, Record(Entry(code, now, j.policy))) && j.attempt == |m.current| + 1 && WaitsOk(ws, m)
    ensures WaitsOk(ws + WrittenDelay(FinishRow(row, j, code, draw, now), now),
                    Perform(m, Record(Entry(code, now, j.policy))))
  {
    CeilingRange(j.attempt, j.policy.baseDelay);
  }

  lemma FinishKeepsWaits(lease: nat, s: State, step: Step, s': State, m: Spec, ws: seq<Time>)
    requires step.Finish? && Next(lease, s, step, s') && Related(lease, s, step.job.id, m) && Accepted(s, step)
    requires Legal(m, Project(s, step, step.job.id)) && WaitsOk(ws, m)
    ensures step.job.id in s'.deliveries
    ensures WaitsOk(ws + WrittenDelay(s'.deliveries[step.job.id], s.now),
                    Perform(m, Project(s, step, step.job.id)))
  {
    var j, row := step.job, s.deliveries[step.job.id];
    OwnerHasFreeKey(lease, s, j, m);
    assert s'.deliveries[j.id] == FinishRow(row, j, step.code, step.draw, s.now);
    RecordKeepsWaits(row, j, step.code, step.draw, s.now, m, ws);
  }

  lemma {:induction false} WaitsFollowLife(lease: nat, ss: seq<State>, steps: seq<Step>, i: nat, d: DeliveryId)
    requires Run(lease, ss, steps) && i <= |steps| && d in ss[i].deliveries
    ensures WaitsOk(Waits(ss, steps, i, d), Life(ss, steps, i, d))
  {
    if i == 0 || d !in ss[i - 1].deliveries {
    } else {
      var s, step, m, ws := ss[i - 1], steps[i - 1], Life(ss, steps, i - 1, d), Waits(ss, steps, i - 1, d);
      WaitsFollowLife(lease, ss, steps, i - 1, d);
      Refinement(lease, ss, steps, i - 1, d);
      assert StepAt(lease, ss, steps, i - 1);
      if step.Finish? && step.job.id == d && Accepted(s, step) {
        FinishKeepsWaits(lease, s, step, ss[i], m, ws);
      } else if step == Replay(d) && Replayable(s, d) {
      } else {
        assert Waits(ss, steps, i, d) == ws;
      }
    }
  }

  /**
   Every delay a run writes lies between half and all of the ceiling of its attempt
   under the policy its claim had captured; only the last attempt of a dead or
   succeeded delivery writes none.
   */
  lemma WaitsArePossible(lease: nat, ss: seq<State>, steps: seq<Step>, i: nat, d: DeliveryId)
    requires Run(lease, ss, steps) && i <= |steps| && d in ss[i].deliveries
    ensures var row, ws := ss[i].deliveries[d], Waits(ss, steps, i, d);
            && |ws| + (if row.status.Dead? || row.status.Succeeded? then 1 else 0) == row.attemptCount
            && forall n: nat, e :: 1 <= n <= |ws| && Recorded(ss[i], d, row.generation, n, e) ==>
                 Possible(ws[n - 1], n, e.policy.baseDelay)
  {
    Refinement(lease, ss, steps, i, d);
    WaitsFollowLife(lease, ss, steps, i, d);
    var m, ws := Life(ss, steps, i, d), Waits(ss, steps, i, d);
    forall n: nat, e | 1 <= n <= |ws| && Recorded(ss[i], d, |m.past|, n, e)
      ensures Possible(ws[n - 1], n, e.policy.baseDelay)
    {
      RowsMember(m, Row(|m.past|, n, e));
    }
  }

  /** The waits of the current generation stay below the cap under policy p. */
  predicate BelowCap(p: Policy) {
    forall n :: 1 <= n < p.maxAttempts ==> Seconds(n, p.baseDelay) <= 3600
  }

  lemma FixedPolicyExhaustion(m: Spec, ws: seq<Time>, p: Policy)
    requires Inv(m) && m.phase == Exhausted && WaitsOk(ws, m)
    requires forall n :: 0 <= n < |m.current| ==> m.current[n].policy == p && Retryable(m.current[n].code)
    ensures p.Valid() && |m.current| == p.maxAttempts == |ws| + 1
    ensures BelowCap(p) ==>
              var total, g := SECOND * TotalSeconds(p.maxAttempts - 1, p.baseDelay), m.current;
              total <= 2 * Sum(ws) && Sum(ws) <= total && total <= 2 * (Last(g).at - g[0].at)
  {
    var g := m.current;
    assert Generation(g, Exhausted);
    ExhaustionIsExact(g, p.maxAttempts);
    GenerationBudget(g, Exhausted);
    assert Last(g).policy == p;
    if BelowCap(p) {
      GenerationSpan(g, p.baseDelay, |g|);
      GeometricSum(p.baseDelay, ws);
    }
  }

  /**
   A delivery that failed retryably to death under one fixed policy used exactly
   max_attempts attempts. Where the waits stay below the cap, the max_attempts - 1
   delays that were written add up to between half and all of base * (2^(max-1) - 1)
   seconds, and the attempts are spread over at least that half.
   */
  lemma ExhaustedUnderFixedPolicy(lease: nat, ss: seq<State>, steps: seq<Step>, i: nat, d: DeliveryId, p: Policy)
    requires Run(lease, ss, steps) && i <= |steps| && d in ss[i].deliveries && ss[i].deliveries[d].status.Dead?
    requires forall n: nat, e ::
               Recorded(ss[i], d, ss[i].deliveries[d].generation, n, e) ==> e.policy == p && Retryable(e.code)
    ensures p.Valid() && ss[i].deliveries[d].attemptCount == p.maxAttempts == |Waits(ss, steps, i, d)| + 1
    ensures BelowCap(p) ==>
              var total, sum := SECOND * TotalSeconds(p.maxAttempts - 1, p.baseDelay), Sum(Waits(ss, steps, i, d));
              total <= 2 * sum && sum <= total
    ensures BelowCap(p) ==>
              forall first, last ::
                && Recorded(ss[i], d, ss[i].deliveries[d].generation, 1, first)
                && Recorded(ss[i], d, ss[i].deliveries[d].generation, p.maxAttempts, last)
                ==> SECOND * TotalSeconds(p.maxAttempts - 1, p.baseDelay) <= 2 * (last.at - first.at)
  {
    Refinement(lease, ss, steps, i, d);
    WaitsFollowLife(lease, ss, steps, i, d);
    var m := Life(ss, steps, i, d);
    var g := m.current;
    forall n | 0 <= n < |g| ensures g[n].policy == p && Retryable(g[n].code) {
      RowsMember(m, Row(|m.past|, n + 1, g[n]));
      assert Recorded(ss[i], d, |m.past|, n + 1, g[n]);
    }
    FixedPolicyExhaustion(m, Waits(ss, steps, i, d), p);
    forall first, last | Recorded(ss[i], d, |m.past|, 1, first) && Recorded(ss[i], d, |m.past|, p.maxAttempts, last)
      ensures first == g[0] && last == Last(g)
    {
      RowsMember(m, Row(|m.past|, 1, first));
      RowsMember(m, Row(|m.past|, p.maxAttempts, last));
    }
  }

  // ---------------------------------------------------------------- coherence

  /** A dead letter exists iff the status is dead; token and expiry exist iff it is processing. */
  lemma Coherence(lease: nat, ss: seq<State>, steps: seq<Step>, i: nat, d: DeliveryId)
    requires Run(lease, ss, steps) && i <= |steps| && d in ss[i].deliveries
    ensures var row := ss[i].deliveries[d];
            && (d in ss[i].deadLetters <==> row.status.Dead?)
            && (row.leaseToken.Some? <==> row.status.Processing?)
            && (row.leaseUntil.Some? <==> row.status.Processing?)
  {
    Refinement(lease, ss, steps, i, d);
  }

  /** Cancelled and succeeded are final: neither the row nor its history changes again. */
  lemma {:induction false} Absorbing(lease: nat, ss: seq<State>, steps: seq<Step>, i: nat, k: nat, d: DeliveryId)
    requires Run(lease, ss, steps) && i <= k <= |steps| && d in ss[i].deliveries
    requires ss[i].deliveries[d].status.Cancelled? || ss[i].deliveries[d].status.Succeeded?
    ensures d in ss[k].deliveries && ss[k].deliveries[d] == ss[i].deliveries[d]
    ensures LogOf(ss[k].attempts, d) == LogOf(ss[i].attempts, d)
    decreases k
  {
    if i == k {
    } else {
      Absorbing(lease, ss, steps, i, k - 1, d);
      assert StepAt(lease, ss, steps, k - 1);
      OthersUntouched(lease, ss[k - 1], steps[k - 1], ss[k], d);
    }
  }

  /** Work is never lost: whatever crashed, an open delivery becomes claimable within this bound. */
  lemma NoLostWork(lease: nat, ss: seq<State>, steps: seq<Step>, i: nat, d: DeliveryId)
    requires Run(lease, ss, steps) && i <= |steps| && d in ss[i].deliveries
    requires ss[i].deliveries[d].status.Open()
    requires ss[i].now > ss[i].deliveries[d].updatedAt + if lease > HOUR then lease else HOUR
    ensures Due(ss[i], d)
  {
    Refinement(lease, ss, steps, i, d);
  }
}
