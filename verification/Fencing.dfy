/**
 Exact fencing. Acceptance is decided by the row alone; these lemmas say what
 that means in terms of the history of claims and completions.
 */
module Fencing {
  import opened Common
  import opened Tables
  import opened Sequential
  import opened Protocol

  predicate Claims(step: Step, d: DeliveryId) {
    step.Claim? && step.found == Some(d)
  }

  predicate HandsOut(step: Step, j: Job) {
    Claims(step, j.id) && step.token == j.token
  }

  /** An accepted Finish or Defer by the holder of this token. */
  ghost predicate Consumes(s: State, step: Step, t: Token) {
    (step.Finish? || step.Defer?) && step.job.token == t && Accepted(s, step)
  }

  /** Only the current holder's completion, or another claim, ends an ownership. */
  lemma OwnershipOfOld(lease: nat, s: State, step: Step, s': State, j: Job)
    requires Next(lease, s, step, s') && Issued(s, j) && j.id in s.deliveries
    ensures Owns(s', j) <==> Owns(s, j) && !Claims(step, j.id) && !Consumes(s, step, j.token)
  {
    if Target(s, step) != Some(j.id) {
      OthersUntouched(lease, s, step, s', j.id);
    }
    assert (step.Finish? || step.Defer?) && step.job.token == j.token ==> step.job == j;
  }

  lemma OwnershipStep(lease: nat, s: State, step: Step, s': State, j: Job)
    requires Next(lease, s, step, s') && IssuedOk(s) && Issued(s', j)
    ensures Owns(s', j) <==>
            HandsOut(step, j) || (Owns(s, j) && !Claims(step, j.id) && !Consumes(s, step, j.token))
  {
    IssuedGrow(lease, s, step, s');
    if j.token in s.issued {
      assert JobOk(s, j.token, s.issued[j.token]);
      OwnershipOfOld(lease, s, step, s', j);
    }
  }

  /** j is the latest claim of its delivery before step i, and nobody has completed with it. */
  ghost predicate LatestUnconsumed(ss: seq<State>, steps: seq<Step>, i: nat, j: Job)
    requires |ss| == |steps| + 1 && i <= |steps|
  {
    exists k :: 0 <= k < i && HandsOut(steps[k], j) && KeptSince(ss, steps, k, i, j)
  }

  ghost predicate KeptSince(ss: seq<State>, steps: seq<Step>, k: nat, i: nat, j: Job)
    requires |ss| == |steps| + 1 && k < i <= |steps|
  {
    forall n :: k < n < i ==> !Claims(steps[n], j.id) && !Consumes(ss[n], steps[n], j.token)
  }

  lemma {:induction false} OwnsIffLatestUnconsumed(lease: nat, ss: seq<State>, steps: seq<Step>, i: nat, j: Job)
    requires Run(lease, ss, steps) && i <= |steps| && Issued(ss[i], j)
    ensures Owns(ss[i], j) <==> LatestUnconsumed(ss, steps, i, j)
  {
    if i == 0 {
    } else {
      var p := i - 1;
      RunKeepsSchema(lease, ss, steps, p);
      assert StepAt(lease, ss, steps, p);
      OwnershipStep(lease, ss[p], steps[p], ss[i], j);
      if j.token in ss[p].issued {
        IssuedGrow(lease, ss[p], steps[p], ss[i]);
        OwnsIffLatestUnconsumed(lease, ss, steps, p, j);
        ExtendKept(ss, steps, p, j);
      } else {
        NotHandedOutBefore(lease, ss, steps, p, j);
        assert HandsOut(steps[p], j) ==> KeptSince(ss, steps, p, i, j);
      }
    }
  }

  lemma ExtendKept(ss: seq<State>, steps: seq<Step>, p: nat, j: Job)
    requires |ss| == |steps| + 1 && p < |steps| && !HandsOut(steps[p], j)
    ensures LatestUnconsumed(ss, steps, p + 1, j) <==>
            LatestUnconsumed(ss, steps, p, j) && !Claims(steps[p], j.id) && !Consumes(ss[p], steps[p], j.token)
  {
  }

  lemma {:induction false} NotHandedOutBefore(lease: nat, ss: seq<State>, steps: seq<Step>, i: nat, j: Job)
    requires Run(lease, ss, steps) && i <= |steps| && j.token !in ss[i].issued
    ensures forall k :: 0 <= k < i ==> !HandsOut(steps[k], j)
  {
    if i == 0 {
    } else {
      assert StepAt(lease, ss, steps, i - 1);
      IssuedGrow(lease, ss[i - 1], steps[i - 1], ss[i]);
      NotHandedOutBefore(lease, ss, steps, i - 1, j);
    }
  }

  /** In every run UNIQUE(delivery_id, generation, attempt) stands in no owner's way. */
  lemma OwnerIsAccepted(lease: nat, ss: seq<State>, steps: seq<Step>, i: nat, j: Job)
    requires Run(lease, ss, steps) && i <= |steps| && Issued(ss[i], j) && Owns(ss[i], j)
    ensures !KeyTaken(ss[i], j)
  {
    Refinement(lease, ss, steps, i, j.id);
    OwnerHasFreeKey(lease, ss[i], j, Life(ss, steps, i, j.id));
  }

  /**
   A Finish or Defer is accepted exactly when its job is the latest claim of
   its delivery and has not been finished or deferred. Expiry alone does not matter.
   */
  lemma ExactFencing(lease: nat, ss: seq<State>, steps: seq<Step>, i: nat)
    requires Run(lease, ss, steps) && i < |steps| && (steps[i].Finish? || steps[i].Defer?)
    ensures Accepted(ss[i], steps[i]) <==> LatestUnconsumed(ss, steps, i, steps[i].job)
  {
    assert StepAt(lease, ss, steps, i);
    OwnsIffLatestUnconsumed(lease, ss, steps, i, steps[i].job);
    if Owns(ss[i], steps[i].job) {
      OwnerIsAccepted(lease, ss, steps, i, steps[i].job);
    }
  }

  /**
   A completion changes nothing at all exactly when its job is not the latest
   unconsumed claim, and is then a stutter in the life of every delivery.
   */
  lemma StaleIsStutter(lease: nat, ss: seq<State>, steps: seq<Step>, i: nat)
    requires Run(lease, ss, steps) && i < |steps| && (steps[i].Finish? || steps[i].Defer?)
    ensures ss[i + 1] == ss[i] <==> !LatestUnconsumed(ss, steps, i, steps[i].job)
    ensures ss[i + 1] == ss[i] ==> forall d :: Project(ss[i], steps[i], d) == Stutter
  {
    ExactFencing(lease, ss, steps, i);
    assert StepAt(lease, ss, steps, i);
    if Accepted(ss[i], steps[i]) {
      assert ss[i + 1].deliveries[steps[i].job.id].leaseToken.None?;
    }
  }

  lemma {:induction false} IssuedForever(lease: nat, ss: seq<State>, steps: seq<Step>, i: nat, k: nat, t: Token)
    requires Run(lease, ss, steps) && i <= k <= |steps| && t in ss[i].issued
    ensures t in ss[k].issued && ss[k].issued[t] == ss[i].issued[t]
    decreases k
  {
    if i == k {
    } else {
      IssuedForever(lease, ss, steps, i, k - 1, t);
      assert StepAt(lease, ss, steps, k - 1);
      IssuedGrow(lease, ss[k - 1], steps[k - 1], ss[k]);
    }
  }

  lemma NeverReissued(lease: nat, ss: seq<State>, steps: seq<Step>, i: nat, k: nat, t: Token)
    requires Run(lease, ss, steps) && i <= k < |steps| && t in ss[i].issued
    ensures !(steps[k].Claim? && steps[k].token == t)
  {
    IssuedForever(lease, ss, steps, i, k, t);
    assert StepAt(lease, ss, steps, k);
  }

  /** Each claim token is consumed at most once. */
  lemma ConsumedAtMostOnce(lease: nat, ss: seq<State>, steps: seq<Step>, i: nat, k: nat, t: Token)
    requires Run(lease, ss, steps) && i < k < |steps| && Consumes(ss[i], steps[i], t)
    ensures !Consumes(ss[k], steps[k], t)
  {
    if (steps[k].Finish? || steps[k].Defer?) && steps[k].job.token == t {
      assert StepAt(lease, ss, steps, i) && StepAt(lease, ss, steps, k);
      forall c | i <= c < k ensures !HandsOut(steps[c], steps[k].job) {
        NeverReissued(lease, ss, steps, i, c, t);
      }
      ExactFencing(lease, ss, steps, k);
    }
  }

  /** Distinct recorded attempts come from distinct claims. */
  lemma DistinctAttemptsDistinctClaims(lease: nat, ss: seq<State>, steps: seq<Step>, n: nat, i: nat, k: nat)
    requires Run(lease, ss, steps) && n <= |steps| && i < k < |ss[n].attempts|
    ensures ss[n].attempts[i].token != ss[n].attempts[k].token
  {
    RunKeepsSchema(lease, ss, steps, n);
    var a, b := ss[n].attempts[i], ss[n].attempts[k];
    assert AttemptOk(ss[n], a) && AttemptOk(ss[n], b);
  }
}
