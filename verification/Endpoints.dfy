/**
 What an endpoint is at any point of a run, told from the steps before it:
 creation, edits and deletion, in whatever order they raced.
 */
module Endpoints {
  import opened Tables
  import opened Deletion

  predicate Creates(step: Step, ep: EndpointId) {
    step.CreateEndpoint? && step.ep == ep
  }

  predicate Sets(step: Step, ep: EndpointId) {
    Creates(step, ep) || (step.UpdateEndpoint? && step.ep == ep)
  }

  /** Step i is the last one before k that created or edited the endpoint. */
  ghost predicate LastSet(steps: seq<Step>, i: nat, k: nat, ep: EndpointId)
    requires i < k <= |steps|
  {
    Sets(steps[i], ep) && forall n :: i < n < k ==> !Sets(steps[n], ep)
  }

  /** An endpoint exists exactly from its creation on, and keeps its project. */
  lemma {:induction false} ExistsIffCreated(lease: nat, ss: seq<State>, steps: seq<Step>, k: nat, ep: EndpointId)
    requires Run(lease, ss, steps) && k <= |steps|
    ensures ep in ss[k].endpoints <==> exists i :: 0 <= i < k && Creates(steps[i], ep)
    ensures forall i :: 0 <= i < k && Creates(steps[i], ep) ==> ss[k].endpoints[ep].project == steps[i].project
  {
    if k == 0 {
    } else {
      var p := k - 1;
      ExistsIffCreated(lease, ss, steps, p, ep);
      assert StepAt(lease, ss, steps, p);
      EndpointStep(lease, ss[p], steps[p], ss[k], ep);
    }
  }

  lemma EndpointStep(lease: nat, s: State, step: Step, s': State, ep: EndpointId)
    requires Next(lease, s, step, s')
    ensures ep in s'.endpoints <==> ep in s.endpoints || Creates(step, ep)
    ensures Creates(step, ep) ==> ep !in s.endpoints && s'.endpoints[ep].project == step.project
    ensures ep in s.endpoints ==> s'.endpoints[ep].project == s.endpoints[ep].project
    ensures Sets(step, ep) ==> s'.endpoints[ep].policy == step.policy && s'.endpoints[ep].active == step.active
    ensures ep in s.endpoints && !Sets(step, ep) ==>
              && s'.endpoints[ep].policy == s.endpoints[ep].policy
              && (|| s'.endpoints[ep].active == s.endpoints[ep].active
                  || (s'.endpoints[ep].deletedAt.Some? && step.DeleteEndpoint?))
  {
  }

  /** The policy, and while the endpoint is not deleted also the active flag, are those of the last create or edit. */
  ghost predicate AsSet(s: State, step: Step, ep: EndpointId)
    requires Sets(step, ep)
  {
    && ep in s.endpoints
    && s.endpoints[ep].policy == step.policy
    && (s.endpoints[ep].deletedAt.None? ==> s.endpoints[ep].active == step.active)
  }

  lemma {:induction false} LastSetDecides(lease: nat, ss: seq<State>, steps: seq<Step>, i: nat, k: nat, ep: EndpointId)
    requires Run(lease, ss, steps) && i < k <= |steps| && LastSet(steps, i, k, ep)
    ensures AsSet(ss[k], steps[i], ep)
    decreases k
  {
    var p := k - 1;
    assert StepAt(lease, ss, steps, p);
    EndpointStep(lease, ss[p], steps[p], ss[k], ep);
    if p == i {
    } else {
      assert !Sets(steps[p], ep);
      LastSetDecides(lease, ss, steps, i, p, ep);
      DeletedAtStep(lease, ss[p], steps[p], ss[k], ep);
    }
  }

  /**
   An endpoint has the policy of its last create or edit, and takes deliveries
   exactly if that step made it active and no step has ever deleted it.
   */
  lemma LiveIffSetActiveAndNotDeleted(lease: nat, ss: seq<State>, steps: seq<Step>, i: nat, k: nat, ep: EndpointId)
    requires Run(lease, ss, steps) && i < k <= |steps| && LastSet(steps, i, k, ep)
    ensures ep in ss[k].endpoints && ss[k].endpoints[ep].policy == steps[i].policy
    ensures ss[k].endpoints[ep].active && ss[k].endpoints[ep].deletedAt.None? <==>
            steps[i].active && !exists n :: 0 <= n < k && DeletesAt(ss, steps, n, ep)
  {
    LastSetDecides(lease, ss, steps, i, k, ep);
    DeletedIffDeleteStep(lease, ss, steps, k, ep);
  }
}
