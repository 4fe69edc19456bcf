/**
 Where the policy of an attempt comes from: from the endpoint, as it was at the
 claim. For an endpoint whose policy is never edited the laws of Guarantees
 therefore speak of the policy in the endpoints table.
 */
module Provenance {
  import opened Common
  import opened Retry
  import opened Tables
  import opened Protocol
  import opened Guarantees
  import opened Fencing
  import opened Effects
  import opened Endpoints

  // ---------------------------------------------------------------- jobs are copies

  /** Step k hands out j as a copy of its row and its endpoint. */
  ghost predicate CopiedAt(ss: seq<State>, steps: seq<Step>, k: nat, j: Job)
    requires |ss| == |steps| + 1 && k < |steps|
  {
    && HandsOut(steps[k], j)
    && j.id in ss[k].deliveries && ss[k].deliveries[j.id].endpoint in ss[k].endpoints
    && CopyOf(j, j.id, j.token, ss[k].deliveries[j.id], ss[k].endpoints[ss[k].deliveries[j.id].endpoint])
  }

  /** Every job ever handed out is the copy that the claim with its token made. */
  lemma {:induction false} JobsAreCopies(lease: nat, ss: seq<State>, steps: seq<Step>, i: nat, t: Token)
    requires Run(lease, ss, steps) && i <= |steps| && t in ss[i].issued
    ensures exists k :: 0 <= k < i && CopiedAt(ss, steps, k, ss[i].issued[t])
  {
    if i == 0 {
    } else {
      var p := i - 1;
      assert StepAt(lease, ss, steps, p);
      IssuedGrow(lease, ss[p], steps[p], ss[i]);
      if t in ss[p].issued {
        JobsAreCopies(lease, ss, steps, p, t);
      } else {
        ClaimEffect(lease, ss, steps, p, steps[p].found.value);
        assert CopiedAt(ss, steps, p, ss[i].issued[t]);
      }
    }
  }

  lemma {:induction false} EndpointStays(lease: nat, ss: seq<State>, steps: seq<Step>, i: nat, k: nat, d: DeliveryId)
    requires Run(lease, ss, steps) && i <= k <= |steps| && d in ss[i].deliveries
    ensures d in ss[k].deliveries && ss[k].deliveries[d].endpoint == ss[i].deliveries[d].endpoint
    decreases k
  {
    if i == k {
    } else {
      var p := k - 1;
      EndpointStays(lease, ss, steps, i, p, d);
      assert StepAt(lease, ss, steps, p);
      if Target(ss[p], steps[p]) != Some(d) {
        OtherRowUntouched(lease, ss[p], steps[p], ss[k], d);
      } else {
        OnlyTargetChanges(lease, ss[p], steps[p], ss[k]);
      }
    }
  }

  /** Every recorded attempt carries the policy its delivery's endpoint had when its token was handed out. */
  lemma AttemptsCarryTheirClaim(lease: nat, ss: seq<State>, steps: seq<Step>, i: nat, a: Attempt)
    requires Run(lease, ss, steps) && i <= |steps| && a in ss[i].attempts
    ensures exists k :: 0 <= k < i && CarriedFrom(ss, steps, k, i, a)
  {
    RunKeepsSchema(lease, ss, steps, i);
    assert AttemptOk(ss[i], a);
    assert JobOk(ss[i], a.token, ss[i].issued[a.token]);
    JobsAreCopies(lease, ss, steps, i, a.token);
    var k :| 0 <= k < i && CopiedAt(ss, steps, k, ss[i].issued[a.token]);
    EndpointStays(lease, ss, steps, k, i, a.delivery);
    assert CarriedFrom(ss, steps, k, i, a);
  }

  ghost predicate CarriedFrom(ss: seq<State>, steps: seq<Step>, k: nat, i: nat, a: Attempt)
    requires |ss| == |steps| + 1 && k < i <= |steps|
  {
    && steps[k].Claim? && steps[k].found == Some(a.delivery) && steps[k].token == a.token
    && a.delivery in ss[i].deliveries
    && ss[i].deliveries[a.delivery].endpoint in ss[k].endpoints
    && a.row.entry.policy == ss[k].endpoints[ss[i].deliveries[a.delivery].endpoint].policy
  }

  // ---------------------------------------------------------------- endpoints that are not edited

  /** Creating the endpoint, and every edit of it before i, gave it this policy. */
  ghost predicate OnePolicy(steps: seq<Step>, i: nat, ep: EndpointId, p: Policy)
    requires i <= |steps|
  {
    forall k :: 0 <= k < i ==> (Sets(steps[k], ep) ==> steps[k].policy == p)
  }

  lemma {:induction false} PolicyIsKept(lease: nat, ss: seq<State>, steps: seq<Step>, i: nat, ep: EndpointId, p: Policy)
    requires Run(lease, ss, steps) && i <= |steps| && OnePolicy(steps, i, ep, p) && ep in ss[i].endpoints
    ensures ss[i].endpoints[ep].policy == p
  {
    if i == 0 {
    } else {
      assert StepAt(lease, ss, steps, i - 1);
      assert Sets(steps[i - 1], ep) ==> steps[i - 1].policy == p;
      EndpointStep(lease, ss[i - 1], steps[i - 1], ss[i], ep);
      if ep in ss[i - 1].endpoints {
        PolicyIsKept(lease, ss, steps, i - 1, ep, p);
      }
    }
  }

  lemma EntriesUnderOnePolicy(
    lease: nat, ss: seq<State>, steps: seq<Step>, i: nat, d: DeliveryId, p: Policy, g: nat, n: nat, e: Entry)
    requires Run(lease, ss, steps) && i <= |steps| && d in ss[i].deliveries
    requires OnePolicy(steps, i, ss[i].deliveries[d].endpoint, p) && Recorded(ss[i], d, g, n, e)
    ensures e.policy == p
  {
    LogMember(ss[i].attempts, d, Row(g, n, e));
    var a :| a in ss[i].attempts && a.delivery == d && a.row == Row(g, n, e);
    AttemptsCarryTheirClaim(lease, ss, steps, i, a);
    var k :| 0 <= k < i && CarriedFrom(ss, steps, k, i, a);
    PolicyIsKept(lease, ss, steps, k, ss[i].deliveries[d].endpoint, p);
  }

  /**
   With an endpoint that is not edited, attempt n + 1 comes at least half of the
   ceiling of its base delay after attempt n, and n is below its max_attempts.
   */
  lemma SpacedByEndpointPolicy(
    lease: nat, ss: seq<State>, steps: seq<Step>, i: nat, d: DeliveryId, p: Policy, g: nat, n: nat, a: Entry, b: Entry)
    requires Run(lease, ss, steps) && i <= |steps| && d in ss[i].deliveries
    requires OnePolicy(steps, i, ss[i].deliveries[d].endpoint, p)
    requires Recorded(ss[i], d, g, n, a) && Recorded(ss[i], d, g, n + 1, b)
    ensures a.at + Ceiling(n, p.baseDelay) / 2 <= b.at && n < p.maxAttempts
    ensures a.code == 0 || a.code == 408 || a.code == 429 || a.code >= 500
  {
    AttemptsAreSpaced(lease, ss, steps, i, d, g, n, a, b);
    EntriesUnderOnePolicy(lease, ss, steps, i, d, p, g, n, a);
  }

  /**
   With an endpoint that is not edited, a delivery whose generation died of
   retryable failures made exactly max_attempts attempts, and the delays in
   between were as its base delay has it.
   */
  lemma ExhaustedByEndpointPolicy(lease: nat, ss: seq<State>, steps: seq<Step>, i: nat, d: DeliveryId, p: Policy)
    requires Run(lease, ss, steps) && i <= |steps| && d in ss[i].deliveries && ss[i].deliveries[d].status.Dead?
    requires OnePolicy(steps, i, ss[i].deliveries[d].endpoint, p)
    requires forall n: nat, e ::
               Recorded(ss[i], d, ss[i].deliveries[d].generation, n, e) ==>
                 e.code == 0 || e.code == 408 || e.code == 429 || e.code >= 500
    ensures ss[i].deliveries[d].attemptCount == p.maxAttempts == |Waits(ss, steps, i, d)| + 1
    ensures BelowCap(p) ==>
              var total := SECOND * TotalSeconds(p.maxAttempts - 1, p.baseDelay);
              total <= 2 * Sum(Waits(ss, steps, i, d)) && Sum(Waits(ss, steps, i, d)) <= total
  {
    forall n: nat, e | Recorded(ss[i], d, ss[i].deliveries[d].generation, n, e) ensures e.policy == p {
      EntriesUnderOnePolicy(lease, ss, steps, i, d, p, ss[i].deliveries[d].generation, n, e);
    }
    ExhaustedUnderFixedPolicy(lease, ss, steps, i, d, p);
  }
}
