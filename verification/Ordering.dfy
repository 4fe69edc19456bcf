/**
 No overtaking. Once the clock has passed a waiting delivery's next_attempt_at,
 nothing is ever put in front of it again.
 */
module Ordering {
  import opened Common
  import opened Tables
  import opened Protocol
  import opened Fencing

  /** The open rows that ORDER BY next_attempt_at, id puts before d. */
  ghost function InFront(s: State, d: DeliveryId): set<DeliveryId> {
    set x | x in s.deliveries && d in s.deliveries && x != d && s.deliveries[x].status.Open() && Ahead(s, x, d)
  }

  /** Those of them that nobody holds. */
  ghost function WaitingInFront(s: State, d: DeliveryId): set<DeliveryId> {
    set x | x in InFront(s, d) && s.deliveries[x].status.Waiting()
  }

  predicate Overdue(s: State, d: DeliveryId) {
    d in s.deliveries && s.deliveries[d].status.Waiting() && s.deliveries[d].nextAttemptAt < s.now
  }

  /** The delivery an accepted Finish or Defer gives back. */
  ghost function Completed(s: State, step: Step): set<DeliveryId> {
    if (step.Finish? || step.Defer?) && Accepted(s, step) then {step.job.id} else {}
  }

  /** The delivery a first claim (not a reclaim of an expired lease) takes. */
  ghost function Taken(s: State, step: Step): set<DeliveryId> {
    if step.Claim? && step.found.Some? && step.found.value in s.deliveries
       && s.deliveries[step.found.value].status.Waiting()
    then {step.found.value} else {}
  }

  /** Rows that come into being or are given back are queued at now or later. */
  lemma RequeuedBehind(lease: nat, s: State, step: Step, s': State, x: DeliveryId)
    requires Next(lease, s, step, s') && IssuedOk(s) && x in s'.deliveries
    ensures || (x in s.deliveries && s'.deliveries[x] == s.deliveries[x])
            || (step.Claim? && step.found == Some(x) && x in s.deliveries
                && s'.deliveries[x] == ClaimRow(s.deliveries[x], step.token, lease, s.now))
            || (s'.deliveries[x].nextAttemptAt >= s.now
                && (x in Completed(s, step) || x !in s.deliveries || s.deliveries[x].status.Dead?))
  {
  }

  lemma FrontStep(lease: nat, s: State, step: Step, s': State, d: DeliveryId, x: DeliveryId)
    requires Next(lease, s, step, s') && IssuedOk(s) && Overdue(s, d) && Overdue(s', d)
    requires s'.deliveries[d] == s.deliveries[d]
    ensures x in InFront(s', d) <==> x in InFront(s, d) - Completed(s, step)
    ensures x in WaitingInFront(s', d) <==> x in WaitingInFront(s, d) - Completed(s, step) - Taken(s, step)
  {
    RowsStay(lease, s, step, s');
    if x in s'.deliveries {
      RequeuedBehind(lease, s, step, s', x);
      if x in Completed(s, step) && x != d {
        CompletedMovesBack(lease, s, step, s', d);
      }
    }
  }

  lemma RowsStay(lease: nat, s: State, step: Step, s': State)
    requires Next(lease, s, step, s')
    ensures s.deliveries.Keys <= s'.deliveries.Keys
  {
  }

  lemma QueueStep(lease: nat, s: State, step: Step, s': State, d: DeliveryId)
    requires Next(lease, s, step, s') && IssuedOk(s) && Overdue(s, d) && Target(s, step) != Some(d)
    ensures Overdue(s', d)
    ensures InFront(s', d) == InFront(s, d) - Completed(s, step)
    ensures WaitingInFront(s', d) == WaitingInFront(s, d) - Completed(s, step) - Taken(s, step)
    ensures step.Claim? && step.found.Some? ==> step.found.value in InFront(s, d)
  {
    OthersUntouched(lease, s, step, s', d);
    if step.Claim? && step.found.Some? {
      assert Due(s, d);
    }
    forall x
      ensures x in InFront(s', d) <==> x in InFront(s, d) - Completed(s, step)
      ensures x in WaitingInFront(s', d) <==> x in WaitingInFront(s, d) - Completed(s, step) - Taken(s, step)
    {
      FrontStep(lease, s, step, s', d, x);
    }
  }

  lemma CompletedMovesBack(lease: nat, s: State, step: Step, s': State, d: DeliveryId)
    requires Next(lease, s, step, s') && IssuedOk(s) && Overdue(s, d) && Overdue(s', d)
    requires s'.deliveries[d] == s.deliveries[d]
    requires (step.Finish? || step.Defer?) && Accepted(s, step) && step.job.id != d
    ensures step.job.id !in InFront(s', d)
  {
  }

  ghost predicate Undisturbed(ss: seq<State>, steps: seq<Step>, i: nat, k: nat, d: DeliveryId)
    requires |ss| == |steps| + 1 && i <= k <= |steps|
  {
    forall n :: i <= n < k ==> Spares(ss, steps, n, d)
  }

  ghost predicate Spares(ss: seq<State>, steps: seq<Step>, n: nat, d: DeliveryId)
    requires |ss| == |steps| + 1 && n < |steps|
  {
    Target(ss[n], steps[n]) != Some(d)
  }

  /** Accepted completions of rows in front of d, between i and k. */
  ghost function Departures(ss: seq<State>, steps: seq<Step>, i: nat, k: nat, d: DeliveryId): nat
    requires |ss| == |steps| + 1 && i <= k <= |steps|
    decreases k
  {
    if i == k then 0
    else Departures(ss, steps, i, k - 1, d) + |InFront(ss[k - 1], d) * Completed(ss[k - 1], steps[k - 1])|
  }

  /** First claims, of any delivery, between i and k. */
  ghost function FirstClaims(ss: seq<State>, steps: seq<Step>, i: nat, k: nat): nat
    requires |ss| == |steps| + 1 && i <= k <= |steps|
    decreases k
  {
    if i == k then 0 else FirstClaims(ss, steps, i, k - 1) + |Taken(ss[k - 1], steps[k - 1])|
  }

  lemma RemovalCounts(a: set<DeliveryId>, b: set<DeliveryId>)
    ensures |a - b| + |a * b| == |a|
  {
  }

  lemma TakenIsInFront(lease: nat, s: State, step: Step, s': State, d: DeliveryId)
    requires Next(lease, s, step, s') && IssuedOk(s) && Overdue(s, d) && Target(s, step) != Some(d)
    ensures |WaitingInFront(s', d)| + |Taken(s, step)| <= |WaitingInFront(s, d)|
  {
    QueueStep(lease, s, step, s', d);
    var a, b := WaitingInFront(s, d) - Completed(s, step), Taken(s, step);
    assert b <= a;
    assert a * b == b;
    RemovalCounts(a, b);
    RemovalCounts(WaitingInFront(s, d), Completed(s, step));
  }

  lemma {:induction false} StaysOverdue(lease: nat, ss: seq<State>, steps: seq<Step>, i: nat, k: nat, d: DeliveryId)
    requires Run(lease, ss, steps) && i <= k <= |steps|
    requires Overdue(ss[i], d) && Undisturbed(ss, steps, i, k, d)
    ensures Overdue(ss[k], d)
    decreases k
  {
    if i == k {
    } else {
      StaysOverdue(lease, ss, steps, i, k - 1, d);
      assert StepAt(lease, ss, steps, k - 1) && Spares(ss, steps, k - 1, d);
      OthersUntouched(lease, ss[k - 1], steps[k - 1], ss[k], d);
    }
  }

  /** One step of such a stretch, counted. */
  lemma StretchStep(lease: nat, ss: seq<State>, steps: seq<Step>, i: nat, p: nat, d: DeliveryId)
    requires Run(lease, ss, steps) && i <= p < |steps|
    requires Overdue(ss[i], d) && Undisturbed(ss, steps, i, p + 1, d)
    ensures InFront(ss[p + 1], d) <= InFront(ss[p], d)
    ensures |InFront(ss[p + 1], d)| + |InFront(ss[p], d) * Completed(ss[p], steps[p])| == |InFront(ss[p], d)|
    ensures |WaitingInFront(ss[p + 1], d)| + |Taken(ss[p], steps[p])| <= |WaitingInFront(ss[p], d)|
    ensures steps[p].Claim? && steps[p].found.Some? ==> steps[p].found.value in InFront(ss[p], d)
  {
    StaysOverdue(lease, ss, steps, i, p, d);
    RunKeepsSchema(lease, ss, steps, p);
    assert StepAt(lease, ss, steps, p) && Spares(ss, steps, p, d);
    QueueStep(lease, ss[p], steps[p], ss[p + 1], d);
    TakenIsInFront(lease, ss[p], steps[p], ss[p + 1], d);
    RemovalCounts(InFront(ss[p], d), Completed(ss[p], steps[p]));
  }

  /**
   While an overdue delivery waits, the rows in front of it only leave, exactly
   one per accepted completion; and at most as many first claims bypass it as
   rows were waiting in front of it.
   */
  lemma {:induction false} NoOvertaking(lease: nat, ss: seq<State>, steps: seq<Step>, i: nat, k: nat, d: DeliveryId)
    requires Run(lease, ss, steps) && i <= k <= |steps|
    requires Overdue(ss[i], d) && Undisturbed(ss, steps, i, k, d)
    ensures InFront(ss[k], d) <= InFront(ss[i], d)
    ensures |InFront(ss[k], d)| + Departures(ss, steps, i, k, d) == |InFront(ss[i], d)|
    ensures |WaitingInFront(ss[k], d)| + FirstClaims(ss, steps, i, k) <= |WaitingInFront(ss[i], d)|
    decreases k
  {
    if i == k {
    } else {
      var p := k - 1;
      assert Undisturbed(ss, steps, i, p, d);
      NoOvertaking(lease, ss, steps, i, p, d);
      StretchStep(lease, ss, steps, i, p, d);
      assert InFront(ss[k], d) <= InFront(ss[p], d) <= InFront(ss[i], d);
    }
  }

  /** Every claim that bypasses an overdue delivery takes a row in front of it. */
  lemma ClaimsTakeFromFront(lease: nat, ss: seq<State>, steps: seq<Step>, i: nat, k: nat, d: DeliveryId)
    requires Run(lease, ss, steps) && i <= k < |steps| && Overdue(ss[i], d) && Undisturbed(ss, steps, i, k + 1, d)
    requires steps[k].Claim? && steps[k].found.Some?
    ensures steps[k].found.value in InFront(ss[k], d)
  {
    StretchStep(lease, ss, steps, i, k, d);
  }

  // ---------------------------------------------------------------- reclaims as well

  predicate ClaimsFrom(step: Step, xs: set<DeliveryId>) {
    step.Claim? && step.found.Some? && step.found.value in xs
  }

  /** Claims and reclaims of the deliveries in xs, between i and k. */
  function ClaimsAmong(steps: seq<Step>, i: nat, k: nat, xs: set<DeliveryId>): nat
    requires i <= k <= |steps|
    decreases k
  {
    if i == k then 0
    else ClaimsAmong(steps, i, k - 1, xs) + if ClaimsFrom(steps[k - 1], xs) then 1 else 0
  }

  /** Claims and reclaims of any delivery, between i and k. */
  function AllClaims(steps: seq<Step>, i: nat, k: nat): nat
    requires i <= k <= |steps|
    decreases k
  {
    if i == k then 0
    else AllClaims(steps, i, k - 1) + if steps[k - 1].Claim? && steps[k - 1].found.Some? then 1 else 0
  }

  /** A row still in front that was claimed in the stretch is held under a lease counted from that claim. */
  ghost predicate HeldSince(s: State, x: DeliveryId, earliest: Time) {
    && x in s.deliveries
    && s.deliveries[x].status.Processing?
    && s.deliveries[x].leaseUntil.Some? && earliest <= s.deliveries[x].leaseUntil.value
  }

  lemma HeldStep(lease: nat, s: State, step: Step, s': State, d: DeliveryId, x: DeliveryId)
    requires Next(lease, s, step, s') && IssuedOk(s) && Overdue(s, d) && Target(s, step) != Some(d)
    requires x in InFront(s', d)
    ensures x in InFront(s, d)
    ensures if Claims(step, x) then HeldSince(s', x, s.now + lease) else s'.deliveries[x] == s.deliveries[x]
  {
    QueueStep(lease, s, step, s', d);
    RequeuedBehind(lease, s, step, s', x);
    OthersUntouched(lease, s, step, s', d);
  }

  lemma ReclaimNeedsExpiry(lease: nat, s: State, step: Step, s': State, x: DeliveryId, earliest: Time)
    requires Next(lease, s, step, s') && Claims(step, x) && HeldSince(s, x, earliest)
    ensures earliest < s.now
  {
  }

  /** c claims since the time from take c - 1 expired leases, and one more if the row is still in front. */
  ghost predicate SpacedSince(lease: nat, from: Time, s: State, d: DeliveryId, x: DeliveryId, c: nat) {
    c >= 1 ==>
      var spent := from + (c - 1) * (lease + 1);
      spent <= s.now && (x in InFront(s, d) ==> HeldSince(s, x, spent + lease))
  }

  lemma ReclaimStep(lease: nat, from: Time, s: State, step: Step, s': State, d: DeliveryId, x: DeliveryId, c: nat)
    requires Next(lease, s, step, s') && IssuedOk(s) && Overdue(s, d) && Target(s, step) != Some(d)
    requires from <= s.now && SpacedSince(lease, from, s, d, x, c)
    ensures SpacedSince(lease, from, s', d, x, c + if Claims(step, x) then 1 else 0)
    ensures from <= s'.now
  {
    if Claims(step, x) && c >= 1 {
      QueueStep(lease, s, step, s', d);
      ReclaimNeedsExpiry(lease, s, step, s', x, from + (c - 1) * (lease + 1) + lease);
      assert c * (lease + 1) == (c - 1) * (lease + 1) + lease + 1;
    }
    if x in InFront(s', d) {
      HeldStep(lease, s, step, s', d, x);
    }
  }

  /** The n-th claim of a row in front comes at least n - 1 expired leases after the first. */
  lemma {:induction false} ReclaimsAreSpaced(
    lease: nat, ss: seq<State>, steps: seq<Step>, i: nat, k: nat, d: DeliveryId, x: DeliveryId)
    requires Run(lease, ss, steps) && i <= k <= |steps|
    requires Overdue(ss[i], d) && Undisturbed(ss, steps, i, k, d)
    ensures SpacedSince(lease, ss[i].now, ss[k], d, x, ClaimsAmong(steps, i, k, {x}))
    ensures ss[i].now <= ss[k].now
    decreases k
  {
    if i == k {
    } else {
      var p := k - 1;
      ReclaimsAreSpaced(lease, ss, steps, i, p, d, x);
      StaysOverdue(lease, ss, steps, i, p, d);
      RunKeepsSchema(lease, ss, steps, p);
      assert StepAt(lease, ss, steps, p) && Spares(ss, steps, p, d);
      ReclaimStep(lease, ss[i].now, ss[p], steps[p], ss[k], d, x, ClaimsAmong(steps, i, p, {x}));
    }
  }

  lemma {:induction false} ClaimsSplit(steps: seq<Step>, i: nat, k: nat, xs: set<DeliveryId>, x: DeliveryId)
    requires i <= k <= |steps| && x in xs
    ensures ClaimsAmong(steps, i, k, xs) == ClaimsAmong(steps, i, k, xs - {x}) + ClaimsAmong(steps, i, k, {x})
    decreases k
  {
    if i == k {
    } else {
      ClaimsSplit(steps, i, k - 1, xs, x);
    }
  }

  lemma {:induction false} NoClaimsOfNone(steps: seq<Step>, i: nat, k: nat)
    requires i <= k <= |steps|
    ensures ClaimsAmong(steps, i, k, {}) == 0
    decreases k
  {
    if i == k {
    } else {
      NoClaimsOfNone(steps, i, k - 1);
    }
  }

  lemma {:induction false} ClaimsAddUp(steps: seq<Step>, i: nat, k: nat, xs: set<DeliveryId>, most: nat)
    requires i <= k <= |steps|
    requires forall x :: x in xs ==> ClaimsAmong(steps, i, k, {x}) <= most
    ensures ClaimsAmong(steps, i, k, xs) <= |xs| * most
    decreases |xs|
  {
    if xs == {} {
      NoClaimsOfNone(steps, i, k);
    } else {
      var x :| x in xs;
      ClaimsSplit(steps, i, k, xs, x);
      ClaimsAddUp(steps, i, k, xs - {x}, most);
      assert |xs| * most == |xs - {x}| * most + most;
    }
  }

  lemma {:induction false} AllAreFromFront(lease: nat, ss: seq<State>, steps: seq<Step>, i: nat, k: nat, d: DeliveryId)
    requires Run(lease, ss, steps) && i <= k <= |steps|
    requires Overdue(ss[i], d) && Undisturbed(ss, steps, i, k, d)
    ensures AllClaims(steps, i, k) == ClaimsAmong(steps, i, k, InFront(ss[i], d))
    decreases k
  {
    if i == k {
    } else {
      AllAreFromFront(lease, ss, steps, i, k - 1, d);
      if steps[k - 1].Claim? && steps[k - 1].found.Some? {
        NoOvertaking(lease, ss, steps, i, k - 1, d);
        ClaimsTakeFromFront(lease, ss, steps, i, k - 1, d);
      }
    }
  }

  /**
   Claims and reclaims together: in any stretch, those that bypass an overdue
   delivery are at most the rows in front of it, times one more than the number
   of leases that fit into the elapsed time.
   */
  lemma BypassesAreBounded(lease: nat, ss: seq<State>, steps: seq<Step>, i: nat, k: nat, d: DeliveryId)
    requires Run(lease, ss, steps) && i <= k <= |steps|
    requires Overdue(ss[i], d) && Undisturbed(ss, steps, i, k, d)
    ensures ss[i].now <= ss[k].now
    ensures AllClaims(steps, i, k) <= |InFront(ss[i], d)| * (1 + (ss[k].now - ss[i].now) / (lease + 1))
  {
    ReclaimsAreSpaced(lease, ss, steps, i, k, d, d);
    var elapsed := ss[k].now - ss[i].now;
    var most: nat := 1 + elapsed / (lease + 1);
    forall x | x in InFront(ss[i], d) ensures ClaimsAmong(steps, i, k, {x}) <= most {
      ReclaimsAreSpaced(lease, ss, steps, i, k, d, x);
      if ClaimsAmong(steps, i, k, {x}) >= 1 {
        Quotient(ClaimsAmong(steps, i, k, {x}) - 1, lease + 1, elapsed);
      }
    }
    ClaimsAddUp(steps, i, k, InFront(ss[i], d), most);
    AllAreFromFront(lease, ss, steps, i, k, d);
  }

  lemma Quotient(n: nat, m: nat, total: int)
    requires m >= 1 && n * m <= total
    ensures n <= total / m
  {
    if total / m + 1 <= n {
      Multiples(total / m + 1, n, m);
    }
  }

  lemma Multiples(a: int, b: int, m: nat)
    requires a <= b
    ensures a * m <= b * m
  {
  }
}
