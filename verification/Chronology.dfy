/**
 Requests and the attempts table. With any lease, however short, the requests of
 the recorded attempts of a delivery ended before their records were made, and
 followed each other in the order of the table.
 */
module Chronology {
  import opened Common
  import opened Tables
  import opened Fencing
  import opened Exclusion
  import opened Provenance

  /** The request ran within these two times. */
  predicate Within(r: Request, d: DeliveryId, from: Time, to: Time) {
    r.delivery == d && r.end.Some? && from <= r.start <= r.end.value <= to
  }

  /** The attempt's worker has moved on; its request, if it sent one, ran between its claim and its record. */
  ghost predicate Filed(w: World, a: Attempt) {
    && a.token in w.done && a.token in w.db.issued && a.token in w.claimedAt
    && w.claimedAt[a.token] <= a.row.entry.at <= w.db.now
    && (a.token in w.requests ==> Within(w.requests[a.token], a.delivery, w.claimedAt[a.token], a.row.entry.at))
  }

  /** The attempt was recorded before this token was handed out. */
  ghost predicate RecordedBefore(w: World, a: Attempt, t: Token) {
    t in w.claimedAt && a.row.entry.at <= w.claimedAt[t]
  }

  ghost predicate AllFiled(w: World) {
    forall a :: a in w.db.attempts ==> Filed(w, a)
  }

  ghost predicate InOrder(w: World) {
    forall i, k :: 0 <= i < k < |w.db.attempts| && w.db.attempts[i].delivery == w.db.attempts[k].delivery
      ==> RecordedBefore(w, w.db.attempts[i], w.db.attempts[k].token)
  }

  predicate Holds(w: World, t: Token, d: DeliveryId)
    requires t in w.db.issued
  {
    w.db.issued[t].id == d && Owns(w.db, w.db.issued[t])
  }

  /** Whoever owns a delivery claimed it after all its attempts so far. */
  ghost predicate OwnersAreLast(w: World) {
    forall t, a :: t in w.db.issued && a in w.db.attempts && Holds(w, t, a.delivery) ==> RecordedBefore(w, a, t)
  }

  ghost predicate Chronicle(c: Config, w: World) {
    Books(c, w) && AllFiled(w) && InOrder(w) && OwnersAreLast(w)
  }

  // ---------------------------------------------------------------- sending and receiving

  lemma RequestStepKeepsFiled(c: Config, w: World, a: Act, x: Attempt)
    requires Can(c, w, a) && !a.Db? && Filed(w, x)
    ensures Filed(Do(c, w, a), x)
  {
  }

  lemma SameOrder(w: World, w': World)
    requires w'.db == w.db && w'.claimedAt == w.claimedAt && InOrder(w) && OwnersAreLast(w)
    ensures InOrder(w') && OwnersAreLast(w')
  {
    forall t, a | t in w.db.issued && a in w.db.attempts && Holds(w', t, a.delivery)
      ensures RecordedBefore(w', a, t)
    {
      assert Holds(w, t, a.delivery) && RecordedBefore(w, a, t);
    }
    forall i, k | 0 <= i < k < |w.db.attempts| && w.db.attempts[i].delivery == w.db.attempts[k].delivery
      ensures RecordedBefore(w', w.db.attempts[i], w.db.attempts[k].token)
    {
      assert RecordedBefore(w, w.db.attempts[i], w.db.attempts[k].token);
    }
  }

  // ---------------------------------------------------------------- steps of the tables

  /** What was handed out keeps its time, and the clock does not go back. */
  lemma ClaimTimesStay(c: Config, w: World, step: Step, t: Token)
    requires Accounts(c, w) && Can(c, w, Db(step)) && t in w.db.issued
    ensures var w' := Do(c, w, Db(step));
            && t in w'.db.issued && w'.db.issued[t] == w.db.issued[t]
            && t in w'.claimedAt && w'.claimedAt[t] == w.claimedAt[t] && w.db.now <= w'.db.now
  {
    IssuedGrow(c.lease, w.db, step, Do(c, w, Db(step)).db);
  }

  lemma OldStaysFiled(c: Config, w: World, step: Step, a: Attempt)
    requires Accounts(c, w) && Can(c, w, Db(step)) && Filed(w, a)
    ensures Filed(Do(c, w, Db(step)), a)
  {
    ClaimTimesStay(c, w, step, a.token);
  }

  lemma NewIsFiled(c: Config, w: World, step: Step)
    requires ClaimsArePast(w) && Accounts(c, w) && Requests(c, w) && Can(c, w, Db(step)) && step.Finish?
    ensures Filed(Do(c, w, Db(step)), AttemptOf(step.job, step.code, w.db.now))
  {
    var t := step.job.token;
    ClaimTimesStay(c, w, step, t);
    if t in w.requests {
      assert RequestOk(c, w, t);
    }
  }

  lemma DbStepKeepsFiled(c: Config, w: World, step: Step)
    requires Books(c, w) && AllFiled(w) && Can(c, w, Db(step))
    ensures AllFiled(Do(c, w, Db(step)))
  {
    var w' := Do(c, w, Db(step));
    AttemptsStep(c.lease, w.db, step, w'.db);
    forall a | a in w'.db.attempts ensures Filed(w', a) {
      if a in w.db.attempts {
        assert Filed(w, a);
        OldStaysFiled(c, w, step, a);
      } else {
        NewIsFiled(c, w, step);
      }
    }
  }

  /** An owner that stays one meets no new record of its delivery. */
  lemma OldOwnerIsLast(c: Config, w: World, step: Step, t: Token, a: Attempt)
    requires Accounts(c, w) && OwnersAreLast(w) && Can(c, w, Db(step)) && IssuedOk(w.db)
    requires t in w.db.issued && a in Do(c, w, Db(step)).db.attempts
    requires Holds(w, t, a.delivery) && !Consumes(w.db, step, t)
    ensures RecordedBefore(Do(c, w, Db(step)), a, t)
  {
    ClaimTimesStay(c, w, step, t);
    AttemptsStep(c.lease, w.db, step, Do(c, w, Db(step)).db);
    assert JobOk(w.db, t, w.db.issued[t]);
    assert RecordedBefore(w, a, t);
  }

  lemma NewOwnerIsLast(c: Config, w: World, step: Step, a: Attempt)
    requires AllFiled(w) && Can(c, w, Db(step)) && step.Claim? && step.found.Some?
    requires a in Do(c, w, Db(step)).db.attempts
    ensures RecordedBefore(Do(c, w, Db(step)), a, step.token)
  {
    assert Filed(w, a);
  }

  lemma DbStepKeepsOwners(c: Config, w: World, step: Step)
    requires Accounts(c, w) && AllFiled(w) && OwnersAreLast(w) && IssuedOk(w.db) && Can(c, w, Db(step))
    requires IssuedOk(Do(c, w, Db(step)).db)
    ensures OwnersAreLast(Do(c, w, Db(step)))
  {
    var w' := Do(c, w, Db(step));
    forall t, a | t in w'.db.issued && a in w'.db.attempts && Holds(w', t, a.delivery)
      ensures RecordedBefore(w', a, t)
    {
      var j := w'.db.issued[t];
      assert JobOk(w'.db, t, j);
      OwnershipStep(c.lease, w.db, step, w'.db, j);
      if HandsOut(step, j) {
        NewOwnerIsLast(c, w, step, a);
      } else {
        ClaimTimesStay(c, w, step, t);
        OldOwnerIsLast(c, w, step, t, a);
      }
    }
  }

  lemma DbStepKeepsOrder(c: Config, w: World, step: Step)
    requires Accounts(c, w) && AllFiled(w) && InOrder(w) && OwnersAreLast(w) && Can(c, w, Db(step))
    ensures InOrder(Do(c, w, Db(step)))
  {
    var w' := Do(c, w, Db(step));
    AttemptsStep(c.lease, w.db, step, w'.db);
    forall i, k | 0 <= i < k < |w'.db.attempts| && w'.db.attempts[i].delivery == w'.db.attempts[k].delivery
      ensures RecordedBefore(w', w'.db.attempts[i], w'.db.attempts[k].token)
    {
      var a := w.db.attempts[i];
      if k < |w.db.attempts| {
        assert Filed(w, w.db.attempts[k]);
        assert RecordedBefore(w, a, w.db.attempts[k].token);
        ClaimTimesStay(c, w, step, w.db.attempts[k].token);
      } else {
        assert Holds(w, step.job.token, a.delivery) && RecordedBefore(w, a, step.job.token);
        ClaimTimesStay(c, w, step, step.job.token);
      }
    }
  }

  lemma ChronicleStep(c: Config, w: World, a: Act)
    requires Chronicle(c, w) && Can(c, w, a)
    ensures Chronicle(c, Do(c, w, a))
  {
    BooksStep(c, w, a);
    if a.Db? {
      DbStepKeepsFiled(c, w, a.step);
      DbStepKeepsOwners(c, w, a.step);
      DbStepKeepsOrder(c, w, a.step);
    } else {
      forall x | x in w.db.attempts ensures Filed(Do(c, w, a), x) {
        assert Filed(w, x);
        RequestStepKeepsFiled(c, w, a, x);
      }
      SameOrder(w, Do(c, w, a));
    }
  }

  lemma {:induction false} ChronicleHolds(c: Config, ws: seq<World>, acts: seq<Act>, i: nat)
    requires WorldRun(c, ws, acts) && i <= |acts|
    ensures Chronicle(c, ws[i])
  {
    if i == 0 {
    } else {
      ChronicleHolds(c, ws, acts, i - 1);
      assert Moves(c, ws[i - 1], acts[i - 1], ws[i]);
      ChronicleStep(c, ws[i - 1], acts[i - 1]);
    }
  }

  // ---------------------------------------------------------------- what it says about requests

  /** The one request of a recorded attempt, if any was sent, is over when the attempt is recorded. */
  lemma AttemptFollowsItsRequest(c: Config, ws: seq<World>, acts: seq<Act>, n: nat, i: nat)
    requires WorldRun(c, ws, acts) && n <= |acts| && i < |ws[n].db.attempts|
    ensures var w, a := ws[n], ws[n].db.attempts[i];
            a.token in w.requests ==>
              && w.requests[a.token].delivery == a.delivery
              && w.requests[a.token].end.Some? && w.requests[a.token].end.value <= a.row.entry.at
  {
    ChronicleHolds(c, ws, acts, n);
    assert Filed(ws[n], ws[n].db.attempts[i]);
  }

  /**
   The requests of the recorded attempts of one delivery follow the attempts table:
   an earlier attempt's request and record come before a later attempt's claim and
   request. Overlaps are left to requests that were never recorded.
   */
  lemma RequestsFollowTheTable(c: Config, ws: seq<World>, acts: seq<Act>, n: nat, i: nat, k: nat)
    requires WorldRun(c, ws, acts) && n <= |acts| && i < k < |ws[n].db.attempts|
    requires ws[n].db.attempts[i].delivery == ws[n].db.attempts[k].delivery
    ensures var w, a, b := ws[n], ws[n].db.attempts[i], ws[n].db.attempts[k];
            && a.token != b.token
            && b.token in w.claimedAt && a.row.entry.at <= w.claimedAt[b.token] <= b.row.entry.at
            && (b.token in w.requests ==> a.row.entry.at <= w.requests[b.token].start)
            && (a.token in w.requests && b.token in w.requests ==>
                 w.requests[a.token].end.Some? && w.requests[a.token].end.value <= w.requests[b.token].start)
  {
    ChronicleHolds(c, ws, acts, n);
    var w, a, b := ws[n], ws[n].db.attempts[i], ws[n].db.attempts[k];
    assert Filed(w, a) && Filed(w, b) && RecordedBefore(w, a, b.token);
    assert AttemptOk(w.db, a) && AttemptOk(w.db, b);
  }

  // ---------------------------------------------------------------- requests and endpoints

  /** The steps of the tables in a timed run make up a run of the tables. */
  lemma {:induction false} TablesOfWorld(c: Config, ws: seq<World>, acts: seq<Act>, n: nat)
    returns (ss: seq<State>, steps: seq<Step>)
    requires WorldRun(c, ws, acts) && n <= |acts|
    ensures Run(c.lease, ss, steps) && ss[|steps|] == ws[n].db
  {
    if n == 0 {
      ss, steps := [EMPTY], [];
    } else {
      ss, steps := TablesOfWorld(c, ws, acts, n - 1);
      assert Moves(c, ws[n - 1], acts[n - 1], ws[n]);
      if acts[n - 1].Db? {
        RunGrows(c.lease, ss, steps, acts[n - 1].step, ws[n].db);
        ss, steps := ss + [ws[n].db], steps + [acts[n - 1].step];
      }
    }
  }

  lemma RunGrows(lease: nat, ss: seq<State>, steps: seq<Step>, step: Step, s': State)
    requires Run(lease, ss, steps) && Next(lease, ss[|steps|], step, s')
    ensures Run(lease, ss + [s'], steps + [step])
  {
    var ss', steps' := ss + [s'], steps + [step];
    forall i | 0 <= i < |steps'| ensures StepAt(lease, ss', steps', i) {
      assert i < |steps| ==> StepAt(lease, ss, steps, i);
    }
  }

  /** At some point of this run the token was handed out for d while its endpoint was active and not deleted. */
  ghost predicate ClaimedLive(ss: seq<State>, steps: seq<Step>, k: nat, t: Token, d: DeliveryId)
    requires |ss| == |steps| + 1 && k < |steps|
  {
    && steps[k].Claim? && steps[k].token == t && steps[k].found == Some(d)
    && d in ss[k].deliveries && ss[k].deliveries[d].endpoint in ss[k].endpoints
    && ss[k].endpoints[ss[k].deliveries[d].endpoint].active
    && ss[k].endpoints[ss[k].deliveries[d].endpoint].deletedAt.None?
  }

  /** Nothing is ever sent to an endpoint that was switched off or deleted when the delivery was claimed. */
  lemma RequestsWereLiveAtClaim(c: Config, ws: seq<World>, acts: seq<Act>, n: nat, t: Token)
    requires WorldRun(c, ws, acts) && n <= |acts| && t in ws[n].requests
    ensures exists ss, steps ::
              && Run(c.lease, ss, steps) && ss[|steps|] == ws[n].db
              && exists k :: 0 <= k < |steps| && ClaimedLive(ss, steps, k, t, ws[n].requests[t].delivery)
  {
    ChronicleHolds(c, ws, acts, n);
    assert RequestOk(c, ws[n], t);
    assert JobOk(ws[n].db, t, ws[n].db.issued[t]);
    var ss, steps := TablesOfWorld(c, ws, acts, n);
    JobsAreCopies(c.lease, ss, steps, |steps|, t);
    var k :| 0 <= k < |steps| && CopiedAt(ss, steps, k, ss[|steps|].issued[t]);
    assert ClaimedLive(ss, steps, k, t, ws[n].requests[t].delivery);
  }
}
