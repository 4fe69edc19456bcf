/**
 Draining after an endpoint is deleted: a request that was already claimed may
 still be recorded, and nothing after that.
 */
module Deletion {
  import opened Common
  import opened Tables
  import opened Protocol
  import opened Fencing
  import opened Effects

  predicate Deleted(s: State, ep: EndpointId) {
    ep in s.endpoints && s.endpoints[ep].deletedAt.Some?
  }

  /** The lease is held by a job that was claimed while the endpoint was live. */
  predicate HeldLive(s: State, d: DeliveryId) {
    && d in s.deliveries
    && s.deliveries[d].status.Processing?
    && s.deliveries[d].leaseToken.Some?
    && s.deliveries[d].leaseToken.value in s.issued
    && s.issued[s.deliveries[d].leaseToken.value].active
  }

  /** Attempts recorded, plus the one that may still be. */
  ghost function Potential(s: State, d: DeliveryId): nat {
    |LogOf(s.attempts, d)| + if HeldLive(s, d) then 1 else 0
  }

  lemma DeletionIsFinal(lease: nat, s: State, step: Step, s': State, ep: EndpointId)
    requires Next(lease, s, step, s') && Deleted(s, ep)
    ensures Deleted(s', ep)
  {
  }

  lemma PotentialStep(lease: nat, s: State, step: Step, s': State, d: DeliveryId)
    requires Next(lease, s, step, s') && d in s.deliveries && Deleted(s, s.deliveries[d].endpoint)
    requires LeaseOk(s.deliveries[d], d, s.issued)
    ensures d in s'.deliveries && s'.deliveries[d].endpoint == s.deliveries[d].endpoint
    ensures Potential(s', d) <= Potential(s, d)
    ensures s'.deliveries[d].generation == s.deliveries[d].generation
    ensures step.Claim? && step.found == Some(d) ==> step.token in s'.issued && !s'.issued[step.token].active
  {
    if Target(s, step) != Some(d) {
      OthersUntouched(lease, s, step, s', d);
      IssuedGrow(lease, s, step, s');
    } else if step.Finish? {
      var j := step.job;
      LogAppend(s.attempts, AttemptOf(j, step.code, s.now), d);
    }
  }

  lemma {:induction false} DeletedForever(lease: nat, ss: seq<State>, steps: seq<Step>, i: nat, k: nat, ep: EndpointId)
    requires Run(lease, ss, steps) && i <= k <= |steps| && Deleted(ss[i], ep)
    ensures Deleted(ss[k], ep)
    decreases k
  {
    if i == k {
    } else {
      DeletedForever(lease, ss, steps, i, k - 1, ep);
      assert StepAt(lease, ss, steps, k - 1);
      DeletionIsFinal(lease, ss[k - 1], steps[k - 1], ss[k], ep);
    }
  }

  /**
   In any continuation a delivery of a deleted endpoint gains at most one more
   attempt, and none unless a job claimed before the deletion holds its lease.
   It is never replayed.
   */
  lemma {:induction false} DrainsAfterDelete(
    lease: nat, ss: seq<State>, steps: seq<Step>, i: nat, k: nat, d: DeliveryId)
    requires Run(lease, ss, steps) && i <= k <= |steps|
    requires d in ss[i].deliveries && Deleted(ss[i], ss[i].deliveries[d].endpoint)
    ensures d in ss[k].deliveries && ss[k].deliveries[d].endpoint == ss[i].deliveries[d].endpoint
    ensures ss[k].deliveries[d].generation == ss[i].deliveries[d].generation
    ensures Potential(ss[k], d) <= Potential(ss[i], d)
    ensures |LogOf(ss[k].attempts, d)| <= |LogOf(ss[i].attempts, d)| + if HeldLive(ss[i], d) then 1 else 0
    decreases k
  {
    if i == k {
    } else {
      var p := k - 1;
      DrainsAfterDelete(lease, ss, steps, i, p, d);
      DeletedForever(lease, ss, steps, i, p, ss[i].deliveries[d].endpoint);
      Refinement(lease, ss, steps, p, d);
      assert StepAt(lease, ss, steps, p);
      PotentialStep(lease, ss[p], steps[p], ss[k], d);
    }
  }

  // ---------------------------------------------------------------- from the delete step on

  /** Step i deletes the endpoint, or finds it deleted. */
  ghost predicate DeletesAt(ss: seq<State>, steps: seq<Step>, i: nat, ep: EndpointId)
    requires |ss| == |steps| + 1 && i < |steps|
  {
    steps[i] == DeleteEndpoint(ep) && ep in ss[i].endpoints
  }

  /** deleted_at only ever goes from NULL to now(), by a delete step, which switches the endpoint off. */
  lemma DeletedAtStep(lease: nat, s: State, step: Step, s': State, ep: EndpointId)
    requires Next(lease, s, step, s') && ep in s'.endpoints
    ensures var first := step == DeleteEndpoint(ep) && ep in s.endpoints && s.endpoints[ep].deletedAt.None?;
            && (first ==> s'.endpoints[ep].deletedAt == Some(s.now) && !s'.endpoints[ep].active)
            && (!first ==> s'.endpoints[ep].deletedAt == if ep in s.endpoints then s.endpoints[ep].deletedAt else None)
  {
  }

  /**
   An endpoint is deleted exactly if a delete step has met it, and its deleted_at is
   for ever the time of the first such step, whatever updates race with it.
   */
  lemma {:induction false} DeletedIffDeleteStep(lease: nat, ss: seq<State>, steps: seq<Step>, k: nat, ep: EndpointId)
    requires Run(lease, ss, steps) && k <= |steps| && ep in ss[k].endpoints
    ensures ss[k].endpoints[ep].deletedAt.Some? <==> exists i :: 0 <= i < k && DeletesAt(ss, steps, i, ep)
    ensures forall i :: 0 <= i < k && FirstDelete(ss, steps, i, ep) ==>
              ss[k].endpoints[ep].deletedAt == Some(ss[i].now)
  {
    if k == 0 {
    } else {
      var p := k - 1;
      assert StepAt(lease, ss, steps, p);
      DeletedAtStep(lease, ss[p], steps[p], ss[k], ep);
      if ep in ss[p].endpoints {
        DeletedIffDeleteStep(lease, ss, steps, p, ep);
        assert steps[p] == DeleteEndpoint(ep) <==> DeletesAt(ss, steps, p, ep);
      } else {
        AbsentBefore(lease, ss, steps, p, ep);
      }
    }
  }

  ghost predicate FirstDelete(ss: seq<State>, steps: seq<Step>, i: nat, ep: EndpointId)
    requires |ss| == |steps| + 1 && i < |steps|
  {
    DeletesAt(ss, steps, i, ep) && forall n :: 0 <= n < i ==> !DeletesAt(ss, steps, n, ep)
  }

  lemma {:induction false} AbsentBefore(lease: nat, ss: seq<State>, steps: seq<Step>, k: nat, ep: EndpointId)
    requires Run(lease, ss, steps) && k <= |steps| && ep !in ss[k].endpoints
    ensures forall i :: 0 <= i <= k ==> ep !in ss[i].endpoints
  {
    if k == 0 {
    } else {
      assert StepAt(lease, ss, steps, k - 1);
      EndpointsStay(lease, ss[k - 1], steps[k - 1], ss[k]);
      AbsentBefore(lease, ss, steps, k - 1, ep);
    }
  }

  /** The delete step itself touches no delivery, attempt, letter or job. */
  lemma DeleteStep(lease: nat, ss: seq<State>, steps: seq<Step>, i: nat, ep: EndpointId)
    requires Run(lease, ss, steps) && i < |steps| && DeletesAt(ss, steps, i, ep)
    ensures Deleted(ss[i + 1], ep)
    ensures ss[i + 1] == ss[i].(endpoints := ss[i + 1].endpoints)
  {
    assert StepAt(lease, ss, steps, i);
    EndpointsStay(lease, ss[i], steps[i], ss[i + 1]);
    DeletedAtStep(lease, ss[i], steps[i], ss[i + 1], ep);
  }

  lemma NoNewcomer(lease: nat, s: State, step: Step, s': State, ep: EndpointId, d: DeliveryId)
    requires Next(lease, s, step, s') && Schema(s) && Deleted(s, ep)
    requires d in s'.deliveries && s'.deliveries[d].endpoint == ep
    ensures d in s.deliveries && s.deliveries[d].endpoint == ep
  {
    if d in s.deliveries {
      if Target(s, step) != Some(d) {
        OtherRowUntouched(lease, s, step, s', d);
      }
    } else {
      NewbornIsRelated(lease, s, step, s', d);
      FansOutToLive(s, step, d);
    }
  }

  lemma FansOutToLive(s: State, step: Step, d: DeliveryId)
    requires Enabled(s, step) && Inserts(s, step) && d in step.ids
    ensures step.ids[d] in s.endpoints && s.endpoints[step.ids[d]].Live()
  {
    assert step.ids[d] in step.ids.Values;
  }

  /** After the delete step no delivery for the endpoint comes into being. */
  lemma {:induction false} NoDeliveriesAfterDelete(
    lease: nat, ss: seq<State>, steps: seq<Step>, i: nat, k: nat, ep: EndpointId, d: DeliveryId)
    requires Run(lease, ss, steps) && i < k <= |steps| && DeletesAt(ss, steps, i, ep)
    requires d in ss[k].deliveries && ss[k].deliveries[d].endpoint == ep
    ensures d in ss[i].deliveries && ss[i].deliveries[d].endpoint == ep
    decreases k
  {
    DeleteStep(lease, ss, steps, i, ep);
    if k == i + 1 {
    } else {
      var p := k - 1;
      DeletedForever(lease, ss, steps, i + 1, p, ep);
      RunKeepsSchema(lease, ss, steps, p);
      assert StepAt(lease, ss, steps, p);
      NoNewcomer(lease, ss[p], steps[p], ss[k], ep, d);
      NoDeliveriesAfterDelete(lease, ss, steps, i, p, ep, d);
    }
  }

  /**
   From the delete step on, each delivery of the endpoint gains at most one more
   attempt, and none unless a job claimed while the endpoint was live holds its
   lease at that moment; it is never replayed, and no new delivery joins it.
   */
  lemma DrainsFromDelete(lease: nat, ss: seq<State>, steps: seq<Step>, i: nat, k: nat, ep: EndpointId, d: DeliveryId)
    requires Run(lease, ss, steps) && i < k <= |steps| && DeletesAt(ss, steps, i, ep)
    requires d in ss[k].deliveries && ss[k].deliveries[d].endpoint == ep
    ensures ep in ss[k].endpoints && ss[k].endpoints[ep].deletedAt.Some?
    ensures d in ss[i].deliveries && ss[k].deliveries[d].generation == ss[i].deliveries[d].generation
    ensures |LogOf(ss[k].attempts, d)| <= |LogOf(ss[i].attempts, d)| + if HeldLive(ss[i], d) then 1 else 0
  {
    DeleteStep(lease, ss, steps, i, ep);
    DeletedForever(lease, ss, steps, i + 1, k, ep);
    NoDeliveriesAfterDelete(lease, ss, steps, i, k, ep, d);
    DrainsAfterDelete(lease, ss, steps, i + 1, k, d);
    assert HeldLive(ss[i + 1], d) <==> HeldLive(ss[i], d);
  }

  lemma LaterClaimsAreInactive(
    lease: nat, ss: seq<State>, steps: seq<Step>, i: nat, k: nat, ep: EndpointId, d: DeliveryId)
    requires Run(lease, ss, steps) && i < k < |steps| && DeletesAt(ss, steps, i, ep) && Claims(steps[k], d)
    requires d in ss[k].deliveries && ss[k].deliveries[d].endpoint == ep
    ensures steps[k].token in ss[k + 1].issued && !ss[k + 1].issued[steps[k].token].active
  {
    DeleteStep(lease, ss, steps, i, ep);
    DeletedForever(lease, ss, steps, i + 1, k, ep);
    Refinement(lease, ss, steps, k, d);
    assert StepAt(lease, ss, steps, k);
    PotentialStep(lease, ss[k], steps[k], ss[k + 1], d);
  }

  /**
   A claim after the delete step hands out a job that no later step reports on:
   all its holder ever does with it, in any run, is to cancel the delivery at once.
   */
  lemma LaterClaimsOnlyCancel(
    lease: nat, ss: seq<State>, steps: seq<Step>, i: nat, k: nat, n: nat, ep: EndpointId, d: DeliveryId)
    requires Run(lease, ss, steps) && i < k < n < |steps| && DeletesAt(ss, steps, i, ep)
    requires d in ss[k].deliveries && ss[k].deliveries[d].endpoint == ep && Claims(steps[k], d)
    requires (steps[n].Finish? || steps[n].Defer?) && steps[n].job.token == steps[k].token
    ensures steps[n].Defer? && steps[n].job.id == d && steps[n].status == Cancelled && steps[n].delay == 0
  {
    LaterClaimsAreInactive(lease, ss, steps, i, k, ep, d);
    RunKeepsSchema(lease, ss, steps, k + 1);
    ClaimEffect(lease, ss, steps, k, d);
    IssuedForever(lease, ss, steps, k + 1, n, steps[k].token);
    assert StepAt(lease, ss, steps, n);
  }
}
