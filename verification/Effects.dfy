/**
 What the steps of a run do to the columns, said without the functions that
 compute it, and when a delivery that was put back can be claimed again.
 */
module Effects {
  import opened Common
  import opened Retry
  import opened Tables
  import opened Protocol
  import opened Fencing

  // ---------------------------------------------------------------- columns

  /** The WHERE clause of the candidate subquery. */
  predicate Claimable(row: Delivery, now: Time) {
    || ((row.status == Pending || row.status == Retrying) && row.nextAttemptAt <= now)
    || (row.status == Processing && row.leaseUntil.Some? && row.leaseUntil.value < now)
  }

  predicate SameOrigin(row: Delivery, row': Delivery) {
    row'.event == row.event && row'.endpoint == row.endpoint
  }

  predicate Unleased(row: Delivery) {
    row.leaseToken.None? && row.leaseUntil.None?
  }

  /** A claim: the lease runs from now under the new token; count, generation and schedule stay. */
  predicate TakenOver(row: Delivery, row': Delivery, token: Token, lease: nat, now: Time) {
    && SameOrigin(row, row')
    && row'.status == Processing && row'.leaseToken == Some(token) && row'.leaseUntil == Some(now + lease)
    && row'.attemptCount == row.attemptCount && row'.generation == row.generation
    && row'.nextAttemptAt == row.nextAttemptAt && row'.updatedAt == now
  }

  /** The job that goes with it: the next attempt, and the endpoint's values as they are now. */
  predicate CopyOf(j: Job, d: DeliveryId, token: Token, row: Delivery, ep: Endpoint) {
    && j.id == d && j.token == token && j.endpoint == row.endpoint
    && j.attempt == row.attemptCount + 1 && j.generation == row.generation
    && j.policy.maxAttempts == ep.policy.maxAttempts
    && j.policy.baseDelay == ep.policy.baseDelay
    && j.policy.rate == ep.policy.rate
    && (j.active <==> ep.active && ep.deletedAt.None?)
  }

  predicate GivenBack(row: Delivery, row': Delivery, status: Status, delay: Time, now: Time) {
    && SameOrigin(row, row') && Unleased(row')
    && row'.status == status && row'.nextAttemptAt == now + delay && row'.updatedAt == now
    && row'.attemptCount == row.attemptCount && row'.generation == row.generation
  }

  /** A failure that is worth another attempt, below the limit the claim had copied. */
  predicate Retries(j: Job, code: int) {
    j.attempt < j.policy.maxAttempts && (code == 0 || code == 408 || code == 429 || code >= 500)
  }

  /** A completion: 2xx succeeds, a retryable failure below the limit waits for its backoff, all else is dead. */
  predicate Concluded(row: Delivery, row': Delivery, j: Job, code: int, draw: int, now: Time) {
    && SameOrigin(row, row') && Unleased(row')
    && row'.attemptCount == j.attempt && row'.generation == row.generation && row'.updatedAt == now
    && (row'.status == Succeeded <==> 200 <= code < 300)
    && (row'.status == Retrying <==> Retries(j, code))
    && (row'.status == Dead <==> !(200 <= code < 300) && !Retries(j, code))
    && row'.nextAttemptAt == now + if Retries(j, code) then Ceiling(j.attempt, j.policy.baseDelay) / 2 + draw else 0
  }

  predicate Restarted(row: Delivery, row': Delivery, now: Time) {
    && SameOrigin(row, row') && Unleased(row')
    && row'.status == Pending && row'.attemptCount == 0 && row'.generation == row.generation + 1
    && row'.nextAttemptAt == now && row'.updatedAt == now
  }

  predicate JustCreated(row: Delivery, event: EventId, endpoint: EndpointId, now: Time) {
    && row.event == event && row.endpoint == endpoint && Unleased(row)
    && row.status == Pending && row.attemptCount == 0 && row.generation == 0
    && row.nextAttemptAt == now && row.updatedAt == now
  }

  /** Dead, and its endpoint neither switched off nor deleted. */
  predicate MayRestart(s: State, d: DeliveryId) {
    && d in s.deliveries && s.deliveries[d].status == Dead
    && s.deliveries[d].endpoint in s.endpoints
    && s.endpoints[s.deliveries[d].endpoint].active && s.endpoints[s.deliveries[d].endpoint].deletedAt.None?
  }

  // ---------------------------------------------------------------- every step of every run

  /**
   A claim takes the claimable row with the least (next_attempt_at, id), leases it
   to the new token, and hands out a copy of it and of its endpoint as both are then.
   */
  lemma ClaimEffect(lease: nat, ss: seq<State>, steps: seq<Step>, k: nat, d: DeliveryId)
    requires Run(lease, ss, steps) && k < |steps| && Claims(steps[k], d)
    ensures d in ss[k].deliveries && d in ss[k + 1].deliveries && ss[k].deliveries[d].endpoint in ss[k].endpoints
    ensures Claimable(ss[k].deliveries[d], ss[k].now)
    ensures forall x :: x in ss[k].deliveries && x != d && Claimable(ss[k].deliveries[x], ss[k].now) ==>
              || ss[k].deliveries[d].nextAttemptAt < ss[k].deliveries[x].nextAttemptAt
              || (ss[k].deliveries[d].nextAttemptAt == ss[k].deliveries[x].nextAttemptAt && d < x)
    ensures TakenOver(ss[k].deliveries[d], ss[k + 1].deliveries[d], steps[k].token, lease, ss[k].now)
    ensures steps[k].token !in ss[k].issued && steps[k].token in ss[k + 1].issued
    ensures CopyOf(ss[k + 1].issued[steps[k].token], d, steps[k].token, ss[k].deliveries[d],
                   ss[k].endpoints[ss[k].deliveries[d].endpoint])
  {
    assert StepAt(lease, ss, steps, k);
    forall x | x in ss[k].deliveries && x != d && Claimable(ss[k].deliveries[x], ss[k].now)
      ensures Ahead(ss[k], d, x)
    {
      assert Due(ss[k], x);
    }
  }

  /** A claim finds nothing exactly when nothing is claimable. */
  lemma IdleClaim(lease: nat, ss: seq<State>, steps: seq<Step>, k: nat)
    requires Run(lease, ss, steps) && k < |steps| && steps[k].Claim?
    ensures steps[k].found.None? <==> forall x :: x in ss[k].deliveries ==> !Claimable(ss[k].deliveries[x], ss[k].now)
    ensures steps[k].found.None? ==> ss[k + 1] == ss[k]
  {
    assert StepAt(lease, ss, steps, k);
    if steps[k].found.None? {
      forall x | x in ss[k].deliveries ensures !Claimable(ss[k].deliveries[x], ss[k].now) {
        assert !Due(ss[k], x);
      }
    } else {
      ClaimEffect(lease, ss, steps, k, steps[k].found.value);
    }
  }

  /** An accepted Finish appends its attempt, decides by the code, and leaves a dead letter exactly of the dead. */
  lemma FinishVerdict(lease: nat, ss: seq<State>, steps: seq<Step>, k: nat)
    requires Run(lease, ss, steps) && k < |steps| && steps[k].Finish? && LatestUnconsumed(ss, steps, k, steps[k].job)
    ensures var j, code, s, s' := steps[k].job, steps[k].code, ss[k], ss[k + 1];
            && j.id in s.deliveries && j.id in s'.deliveries
            && Concluded(s.deliveries[j.id], s'.deliveries[j.id], j, code, steps[k].draw, s.now)
            && (j.id in s'.deadLetters <==> !(200 <= code < 300) && !Retries(j, code))
            && (j.id in s'.deadLetters ==> s'.deadLetters[j.id] == s.now)
            && |s'.attempts| == |s.attempts| + 1
            && s'.attempts[..|s.attempts|] == s.attempts
            && s'.attempts[|s.attempts|] ==
               Attempt(j.id, Row(j.generation, j.attempt, Entry(code, s.now, j.policy)), j.token)
  {
    ExactFencing(lease, ss, steps, k);
    assert StepAt(lease, ss, steps, k);
    Refinement(lease, ss, steps, k, steps[k].job.id);
  }

  lemma DeferEffect(lease: nat, ss: seq<State>, steps: seq<Step>, k: nat)
    requires Run(lease, ss, steps) && k < |steps| && steps[k].Defer? && LatestUnconsumed(ss, steps, k, steps[k].job)
    ensures var j, s, s' := steps[k].job, ss[k], ss[k + 1];
            && j.id in s.deliveries && j.id in s'.deliveries
            && GivenBack(s.deliveries[j.id], s'.deliveries[j.id], steps[k].status, steps[k].delay, s.now)
            && s'.attempts == s.attempts && s'.deadLetters == s.deadLetters
  {
    ExactFencing(lease, ss, steps, k);
    assert StepAt(lease, ss, steps, k);
  }

  /** A replay restarts exactly the dead deliveries of live endpoints, and changes nothing otherwise. */
  lemma ReplayEffect(lease: nat, ss: seq<State>, steps: seq<Step>, k: nat)
    requires Run(lease, ss, steps) && k < |steps| && steps[k].Replay?
    ensures MayRestart(ss[k], steps[k].id) <==> ss[k + 1] != ss[k]
    ensures MayRestart(ss[k], steps[k].id) ==>
              var d, s, s' := steps[k].id, ss[k], ss[k + 1];
              && d in s'.deliveries && Restarted(s.deliveries[d], s'.deliveries[d], s.now)
              && d !in s'.deadLetters && s'.attempts == s.attempts
  {
    assert StepAt(lease, ss, steps, k);
    if MayRestart(ss[k], steps[k].id) {
      assert ss[k + 1].deliveries[steps[k].id].generation == ss[k].deliveries[steps[k].id].generation + 1;
    }
  }

  // ---------------------------------------------------------------- when it can be claimed again

  /** Step i leaves d waiting, and this is how long. */
  ghost predicate PutsBack(ss: seq<State>, steps: seq<Step>, i: nat, d: DeliveryId, delay: Time)
    requires |ss| == |steps| + 1 && i < |steps|
  {
    match steps[i]
    case Defer(j, status, wait) =>
      j.id == d && LatestUnconsumed(ss, steps, i, j) && status == Retrying && delay == wait
    case Finish(j, code, draw) =>
      && j.id == d && LatestUnconsumed(ss, steps, i, j) && Retries(j, code)
      && delay == Ceiling(j.attempt, j.policy.baseDelay) / 2 + draw
    case Replay(x) => x == d && MayRestart(ss[i], d) && delay == 0
    case Ingest(_, _, _, _, _) => d !in ss[i].deliveries && d in ss[i + 1].deliveries && delay == 0
    case _ => false
  }

  ghost predicate WaitsFrom(s: State, d: DeliveryId, from: Time) {
    && d in s.deliveries
    && (s.deliveries[d].status == Pending || s.deliveries[d].status == Retrying)
    && s.deliveries[d].nextAttemptAt == from
  }

  lemma PutBackWaits(lease: nat, ss: seq<State>, steps: seq<Step>, i: nat, d: DeliveryId, delay: Time)
    requires Run(lease, ss, steps) && i < |steps| && PutsBack(ss, steps, i, d, delay)
    ensures WaitsFrom(ss[i + 1], d, ss[i].now + delay)
  {
    match steps[i]
    case Defer(_, _, _) => DeferEffect(lease, ss, steps, i);
    case Finish(_, _, _) => FinishVerdict(lease, ss, steps, i);
    case Replay(_) => ReplayEffect(lease, ss, steps, i);
    case Ingest(_, _, _, _, _) =>
      RunKeepsSchema(lease, ss, steps, i);
      assert StepAt(lease, ss, steps, i);
      NewbornIsRelated(lease, ss[i], steps[i], ss[i + 1], d);
  }

  lemma WaitsOn(lease: nat, s: State, step: Step, s': State, d: DeliveryId, from: Time)
    requires Next(lease, s, step, s') && WaitsFrom(s, d, from) && !Claims(step, d)
    ensures WaitsFrom(s', d, from)
  {
    OtherRowUntouched(lease, s, step, s', d);
  }

  lemma {:induction false} WaitsUntilClaimed(
    lease: nat, ss: seq<State>, steps: seq<Step>, i: nat, k: nat, d: DeliveryId, delay: Time)
    requires Run(lease, ss, steps) && i < k <= |steps| && PutsBack(ss, steps, i, d, delay)
    requires forall n :: i < n < k ==> !Claims(steps[n], d)
    ensures WaitsFrom(ss[k], d, ss[i].now + delay)
    decreases k
  {
    if k == i + 1 {
      PutBackWaits(lease, ss, steps, i, d, delay);
    } else {
      WaitsUntilClaimed(lease, ss, steps, i, k - 1, d, delay);
      assert StepAt(lease, ss, steps, k - 1);
      WaitsOn(lease, ss[k - 1], steps[k - 1], ss[k], d, ss[i].now + delay);
    }
  }

  /**
   Until it is claimed, a delivery that was deferred, retried, replayed or created
   is claimable exactly from the moment its delay is over: not before, whatever
   else happens, and always after.
   */
  lemma ClaimableIffDelayOver(
    lease: nat, ss: seq<State>, steps: seq<Step>, i: nat, k: nat, d: DeliveryId, delay: Time)
    requires Run(lease, ss, steps) && i < k <= |steps| && PutsBack(ss, steps, i, d, delay)
    requires forall n :: i < n < k ==> !Claims(steps[n], d)
    ensures d in ss[k].deliveries
    ensures Claimable(ss[k].deliveries[d], ss[k].now) <==> ss[i].now + delay <= ss[k].now
    ensures k < |steps| && Claims(steps[k], d) ==> ss[i].now + delay <= ss[k].now
  {
    WaitsUntilClaimed(lease, ss, steps, i, k, d, delay);
    if k < |steps| && Claims(steps[k], d) {
      ClaimEffect(lease, ss, steps, k, d);
    }
  }
}
