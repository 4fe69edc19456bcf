/**
 Every run of the shared tables, with any number of workers, crashes, expired
 leases, reclaims and late completions, is for each delivery a run of the
 sequential machine. Stale completions are stutter steps.
 */
module Protocol {
  import opened Common
  import opened Retry
  import opened Tables
  import opened Sequential

  /** The attempts of one delivery, in order of insertion. */
  function LogOf(attempts: seq<Attempt>, d: DeliveryId): seq<Row> {
    if attempts == [] then []
    else
      var last := attempts[|attempts| - 1];
      LogOf(attempts[..|attempts| - 1], d) + if last.delivery == d then [last.row] else []
  }

  lemma LogAppend(attempts: seq<Attempt>, a: Attempt, d: DeliveryId)
    ensures LogOf(attempts + [a], d) == LogOf(attempts, d) + if a.delivery == d then [a.row] else []
  {
  }

  lemma {:induction false} LogMember(attempts: seq<Attempt>, d: DeliveryId, r: Row)
    ensures r in LogOf(attempts, d) <==> exists a :: a in attempts && a.delivery == d && a.row == r
  {
    if attempts == [] {
    } else {
      var rest, last := attempts[..|attempts| - 1], attempts[|attempts| - 1];
      LogMember(rest, d, r);
      assert forall a :: a in attempts <==> a in rest || a == last;
    }
  }

  lemma LogOfStranger(attempts: seq<Attempt>, d: DeliveryId)
    requires forall a :: a in attempts ==> a.delivery != d
    ensures LogOf(attempts, d) == []
  {
  }

  // ---------------------------------------------------------------- the relation

  function PhaseOf(status: Status): Phase {
    match status
    case Succeeded => Done
    case Dead => Exhausted
    case Cancelled => Abandoned
    case _ => Open
  }

  /** A token and an expiry exist exactly while processing, and the token leads to the job it fences. */
  ghost predicate LeaseOk(row: Delivery, d: DeliveryId, issued: map<Token, Job>) {
    && (row.leaseToken.Some? <==> row.status.Processing?)
    && (row.leaseUntil.Some? <==> row.status.Processing?)
    && (row.status.Processing? ==>
         && row.leaseToken.value in issued
         && Fits(issued[row.leaseToken.value], d, row))
  }

  /** What the job copied at its claim is still what the row says. */
  predicate Fits(j: Job, d: DeliveryId, row: Delivery) {
    && j.id == d && j.endpoint == row.endpoint
    && j.attempt == row.attemptCount + 1 && j.generation == row.generation
    && j.policy.Valid()
  }

  ghost predicate TimesOk(lease: nat, now: Time, row: Delivery, m: Spec) {
    && row.updatedAt <= now
    && (row.status.Waiting() ==>
         row.updatedAt <= row.nextAttemptAt <= row.updatedAt + HOUR && Rested(m.current, row.nextAttemptAt))
    && (row.status.Processing? && row.leaseUntil.Some? ==>
         row.leaseUntil.value == row.updatedAt + lease && Rested(m.current, row.updatedAt))
  }

  ghost predicate Tracks(row: Delivery, log: seq<Row>, dead: bool, m: Spec) {
    && Inv(m)
    && log == Rows(m)
    && row.generation == |m.past|
    && row.attemptCount == |m.current|
    && PhaseOf(row.status) == m.phase
    && (dead <==> row.status.Dead?)
  }

  ghost predicate Related(lease: nat, s: State, d: DeliveryId, m: Spec) {
    && d in s.deliveries
    && Tracks(s.deliveries[d], LogOf(s.attempts, d), d in s.deadLetters, m)
    && LeaseOk(s.deliveries[d], d, s.issued)
    && TimesOk(lease, s.now, s.deliveries[d], m)
  }

  /** What a step is in the life of delivery d. */
  ghost function Project(s: State, step: Step, d: DeliveryId): Move {
    match step
    case Finish(j, code, _) =>
      if j.id == d && Owns(s, j) && !KeyTaken(s, j) then Record(Entry(code, s.now, j.policy)) else Stutter
    case Defer(j, status, _) => if j.id == d && Owns(s, j) && status == Cancelled then Cancel else Stutter
    case Replay(x) => if x == d && Replayable(s, d) then Restart else Stutter
    case _ => Stutter
  }

  // ---------------------------------------------------------------- one step

  /** The step leaves this delivery's row, history and dead letter alone. */
  ghost predicate Untouched(s: State, s': State, d: DeliveryId) {
    && d in s.deliveries && d in s'.deliveries && s'.deliveries[d] == s.deliveries[d]
    && LogOf(s'.attempts, d) == LogOf(s.attempts, d)
    && (d in s'.deadLetters <==> d in s.deadLetters)
    && s.now <= s'.now
  }

  lemma OtherRowUntouched(lease: nat, s: State, step: Step, s': State, d: DeliveryId)
    requires Next(lease, s, step, s') && d in s.deliveries && Target(s, step) != Some(d)
    ensures d in s'.deliveries && s'.deliveries[d] == s.deliveries[d]
    ensures d in s'.deadLetters <==> d in s.deadLetters
    ensures s.now <= s'.now
  {
  }

  lemma OtherLogUntouched(lease: nat, s: State, step: Step, s': State, d: DeliveryId)
    requires Next(lease, s, step, s') && Target(s, step) != Some(d)
    ensures LogOf(s'.attempts, d) == LogOf(s.attempts, d)
  {
    AttemptsStep(lease, s, step, s');
    if step.Finish? && Accepted(s, step) {
      LogAppend(s.attempts, AttemptOf(step.job, step.code, s.now), d);
    }
  }

  lemma OthersUntouched(lease: nat, s: State, step: Step, s': State, d: DeliveryId)
    requires Next(lease, s, step, s') && d in s.deliveries && Target(s, step) != Some(d)
    ensures Untouched(s, s', d)
    ensures Project(s, step, d) == Stutter
  {
    OtherRowUntouched(lease, s, step, s', d);
    OtherLogUntouched(lease, s, step, s', d);
  }

  lemma UntouchedStaysRelated(lease: nat, s: State, s': State, d: DeliveryId, m: Spec)
    requires Untouched(s, s', d) && Related(lease, s, d, m)
    requires forall t :: t in s.issued ==> t in s'.issued && s'.issued[t] == s.issued[t]
    ensures Related(lease, s', d, m)
  {
  }

  lemma ClaimStaysRelated(lease: nat, s: State, token: Token, d: DeliveryId, m: Spec)
    requires Related(lease, s, d, m) && PoliciesOk(s)
    requires Due(s, d) && s.deliveries[d].endpoint in s.endpoints
    ensures Related(lease, ClaimState(lease, s, token, d), d, m)
  {
  }

  lemma DeferStaysRelated(lease: nat, s: State, step: Step, s': State, m: Spec)
    requires step.Defer? && Next(lease, s, step, s') && Related(lease, s, step.job.id, m) && Owns(s, step.job)
    ensures var move := Project(s, step, step.job.id);
            Legal(m, move) && Related(lease, s', step.job.id, Perform(m, move))
  {
  }

  lemma ReplayStaysRelated(lease: nat, s: State, step: Step, s': State, m: Spec)
    requires step.Replay? && Next(lease, s, step, s') && Related(lease, s, step.id, m) && Replayable(s, step.id)
    ensures Legal(m, Restart) && Related(lease, s', step.id, Perform(m, Restart))
  {
  }

  /** The attempt number and generation copied at the claim are still the next free ones. */
  lemma OwnerHasFreeKey(lease: nat, s: State, j: Job, m: Spec)
    requires Owns(s, j) && Issued(s, j) && Related(lease, s, j.id, m)
    ensures Fits(j, j.id, s.deliveries[j.id])
    ensures !KeyTaken(s, j)
  {
    if KeyTaken(s, j) {
      var a :| a in s.attempts && KeyOf(a) == JobKey(j);
      LogMember(s.attempts, j.id, a.row);
      RowsMember(m, a.row);
      assert false;
    }
  }

  // Finish: the new row tracks the machine, carries no lease, and is due in time.

  lemma FinishTracks(row: Delivery, log: seq<Row>, dead: bool, j: Job, code: int, draw: int, now: Time, m: Spec)
    requires Tracks(row, log, dead, m) && row.status.Processing? && Fits(j, j.id, row) && Rested(m.current, now)
    ensures var move := Record(Entry(code, now, j.policy));
            && Legal(m, move)
            && Tracks(FinishRow(row, j, code, draw, now), log + [AttemptOf(j, code, now).row],
                      Verdict(code, j.attempt, j.policy.maxAttempts).Dead?, Perform(m, move))
  {
    var move := Record(Entry(code, now, j.policy));
    InvKept(m, move);
    RowsAfter(m, move);
  }

  lemma FinishLease(row: Delivery, j: Job, code: int, draw: int, now: Time, issued: map<Token, Job>)
    ensures LeaseOk(FinishRow(row, j, code, draw, now), j.id, issued)
  {
  }

  lemma FinishTimes(lease: nat, row: Delivery, j: Job, code: int, draw: int, now: Time, m: Spec)
    requires j.policy.Valid() && 0 <= draw <= Ceiling(j.attempt, j.policy.baseDelay) / 2
    requires m.current != [] && Last(m.current) == Entry(code, now, j.policy) && |m.current| == j.attempt
    ensures TimesOk(lease, now, FinishRow(row, j, code, draw, now), m)
  {
    CeilingRange(j.attempt, j.policy.baseDelay);
  }

  lemma RestedLater(g: seq<Entry>, t: Time, u: Time)
    requires Rested(g, t) && t <= u
    ensures Rested(g, u)
  {
  }

  lemma OwnerIsRested(lease: nat, s: State, j: Job, m: Spec)
    requires Owns(s, j) && Related(lease, s, j.id, m)
    ensures Rested(m.current, s.now)
  {
    RestedLater(m.current, s.deliveries[j.id].updatedAt, s.now);
  }

  lemma FinishEffect(s: State, j: Job, code: int, draw: int, s': State)
    requires j.id in s.deliveries && s' == FinishState(s, j, code, draw)
    ensures s'.now == s.now && s'.issued == s.issued
    ensures j.id in s'.deliveries && s'.deliveries[j.id] == FinishRow(s.deliveries[j.id], j, code, draw, s.now)
    ensures LogOf(s'.attempts, j.id) == LogOf(s.attempts, j.id) + [AttemptOf(j, code, s.now).row]
    ensures j.id in s'.deadLetters <==> j.id in s.deadLetters || Verdict(code, j.attempt, j.policy.maxAttempts).Dead?
  {
    LogAppend(s.attempts, AttemptOf(j, code, s.now), j.id);
  }

  lemma FinishStaysRelated(lease: nat, s: State, step: Step, s': State, m: Spec)
    requires step.Finish? && Next(lease, s, step, s') && Related(lease, s, step.job.id, m) && Owns(s, step.job)
    ensures var move := Project(s, step, step.job.id);
            move.Record? && Legal(m, move) && Related(lease, s', step.job.id, Perform(m, move))
  {
    var j, row := step.job, s.deliveries[step.job.id];
    OwnerHasFreeKey(lease, s, j, m);
    OwnerIsRested(lease, s, j, m);
    FinishEffect(s, j, step.code, step.draw, s');
    FinishTracks(row, LogOf(s.attempts, j.id), j.id in s.deadLetters, j, step.code, step.draw, s.now, m);
    FinishLease(row, j, step.code, step.draw, s.now, s.issued);
    FinishTimes(lease, row, j, step.code, step.draw, s.now, Perform(m, Record(Entry(step.code, s.now, j.policy))));
  }

  lemma Simulate(lease: nat, s: State, step: Step, s': State, d: DeliveryId, m: Spec)
    requires Next(lease, s, step, s') && Schema(s) && Related(lease, s, d, m)
    ensures Legal(m, Project(s, step, d))
    ensures Related(lease, s', d, Perform(m, Project(s, step, d)))
  {
    if Target(s, step) != Some(d) {
      OthersUntouched(lease, s, step, s', d);
      IssuedGrow(lease, s, step, s');
      UntouchedStaysRelated(lease, s, s', d, m);
    } else {
      match step
      case Claim(token, _) => ClaimStaysRelated(lease, s, token, d, m);
      case Defer(_, _, _) => DeferStaysRelated(lease, s, step, s', m);
      case Finish(_, _, _) => FinishStaysRelated(lease, s, step, s', m);
      case Replay(_) => ReplayStaysRelated(lease, s, step, s', m);
    }
  }

  lemma NewbornIsRelated(lease: nat, s: State, step: Step, s': State, d: DeliveryId)
    requires Next(lease, s, step, s') && Schema(s) && d !in s.deliveries && d in s'.deliveries
    ensures Inserts(s, step) && d in step.ids
    ensures s'.deliveries[d] == NewRow(step.newId, step.ids[d], s.now)
    ensures Related(lease, s', d, FRESH)
  {
    if !Inserts(s, step) {
      ShapeKept(lease, s, step, s');
      assert false;
    }
    forall a | a in s.attempts ensures a.delivery != d {
      assert AttemptOk(s, a);
    }
    LogOfStranger(s.attempts, d);
  }

  // ---------------------------------------------------------------- whole runs

  /** The sequential machine driven by the projection of the first i steps. */
  ghost function Life(ss: seq<State>, steps: seq<Step>, i: nat, d: DeliveryId): Spec
    requires |ss| == |steps| + 1 && i <= |steps|
  {
    if i == 0 || d !in ss[i - 1].deliveries then FRESH
    else
      var m := Life(ss, steps, i - 1, d);
      var move := Project(ss[i - 1], steps[i - 1], d);
      if Legal(m, move) then Perform(m, move) else m
  }

  /**
   Refinement: at every point of every run the tables show, for every delivery,
   exactly the state of the sequential machine, and the next step is a legal
   move of that machine or a stutter.
   */
  lemma {:induction false} Refinement(lease: nat, ss: seq<State>, steps: seq<Step>, i: nat, d: DeliveryId)
    requires Run(lease, ss, steps) && i <= |steps| && d in ss[i].deliveries
    ensures Related(lease, ss[i], d, Life(ss, steps, i, d))
    ensures i < |steps| ==> Legal(Life(ss, steps, i, d), Project(ss[i], steps[i], d))
    ensures i < |steps| ==>
              && d in ss[i + 1].deliveries
              && Life(ss, steps, i + 1, d) == Perform(Life(ss, steps, i, d), Project(ss[i], steps[i], d))
  {
    if i == 0 {
    } else {
      RunKeepsSchema(lease, ss, steps, i - 1);
      assert StepAt(lease, ss, steps, i - 1);
      if d in ss[i - 1].deliveries {
        Refinement(lease, ss, steps, i - 1, d);
        Simulate(lease, ss[i - 1], steps[i - 1], ss[i], d, Life(ss, steps, i - 1, d));
      } else {
        NewbornIsRelated(lease, ss[i - 1], steps[i - 1], ss[i], d);
      }
    }
    if i < |steps| {
      RunKeepsSchema(lease, ss, steps, i);
      assert StepAt(lease, ss, steps, i);
      SchemaKept(lease, ss[i], steps[i], ss[i + 1]);
      Simulate(lease, ss[i], steps[i], ss[i + 1], d, Life(ss, steps, i, d));
    }
  }
}
