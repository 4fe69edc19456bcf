/**
 Ingestion: one event per (project, event_id), one delivery per endpoint that
 was live at that moment, and replies that tell first, repeated and changed apart.
 */
module Idempotency {
  import opened Tables
  import opened Effects

  datatype Reply = Accepted202(id: EventId) | Duplicate200(id: EventId) | Conflict409

  ghost function ReplyTo(s: State, step: Step): Reply
    requires step.Ingest?
  {
    if Inserts(s, step) then Accepted202(step.newId)
    else
      var e :| Matches(s, e, step.project, step.externalId);
      if s.events[e].hash == step.hash then Duplicate200(e) else Conflict409
  }

  predicate SameKey(a: Step, b: Step) {
    a.Ingest? && b.Ingest? && a.project == b.project && a.externalId == b.externalId
  }

  /** The i-th step is the first ingest of its (project, event_id). */
  ghost predicate First(steps: seq<Step>, i: nat)
    requires i < |steps|
  {
    steps[i].Ingest? && forall n :: 0 <= n < i ==> !SameKey(steps[n], steps[i])
  }

  lemma EventsGrow(lease: nat, s: State, step: Step, s': State)
    requires Next(lease, s, step, s')
    ensures forall e :: e in s.events ==> e in s'.events && s'.events[e] == s.events[e]
    ensures forall e :: e in s'.events && e !in s.events ==> Inserts(s, step) && e == step.newId
  {
  }

  /** An event is known exactly when some earlier request carried its key. */
  lemma {:induction false} KnownIffSeen(lease: nat, ss: seq<State>, steps: seq<Step>, i: nat, step: Step)
    requires Run(lease, ss, steps) && i <= |steps| && step.Ingest?
    ensures Known(ss[i], step.project, step.externalId) <==> exists n :: 0 <= n < i && SameKey(steps[n], step)
  {
    if i == 0 {
    } else {
      var p := i - 1;
      KnownIffSeen(lease, ss, steps, p, step);
      assert StepAt(lease, ss, steps, p);
      EventsGrow(lease, ss[p], steps[p], ss[i]);
      if Known(ss[p], step.project, step.externalId) {
        var e :| Matches(ss[p], e, step.project, step.externalId);
        assert Matches(ss[i], e, step.project, step.externalId);
      } else {
        KeyBecomesKnown(lease, ss[p], steps[p], ss[i], step);
      }
    }
  }

  lemma KeyBecomesKnown(lease: nat, s: State, step: Step, s': State, key: Step)
    requires Next(lease, s, step, s') && key.Ingest? && !Known(s, key.project, key.externalId)
    ensures Known(s', key.project, key.externalId) <==> SameKey(step, key)
  {
    EventsGrow(lease, s, step, s');
    if SameKey(step, key) {
      assert Matches(s', step.newId, key.project, key.externalId);
    }
    if e :| Matches(s', e, key.project, key.externalId) {
      assert !Matches(s, e, key.project, key.externalId);
    }
  }

  lemma FirstInserts(lease: nat, ss: seq<State>, steps: seq<Step>, i: nat)
    requires Run(lease, ss, steps) && i < |steps| && steps[i].Ingest?
    ensures Inserts(ss[i], steps[i]) <==> First(steps, i)
  {
    KnownIffSeen(lease, ss, steps, i, steps[i]);
  }

  /** The stored event never changes. */
  lemma {:induction false} EventIsFixed(lease: nat, ss: seq<State>, steps: seq<Step>, i: nat, k: nat)
    requires Run(lease, ss, steps) && i < k <= |steps| && First(steps, i)
    ensures steps[i].newId in ss[k].events
    ensures ss[k].events[steps[i].newId] == Event(steps[i].project, steps[i].externalId, steps[i].hash)
    decreases k
  {
    assert StepAt(lease, ss, steps, k - 1);
    if k == i + 1 {
      FirstInserts(lease, ss, steps, i);
    } else {
      EventIsFixed(lease, ss, steps, i, k - 1);
      EventsGrow(lease, ss[k - 1], steps[k - 1], ss[k]);
    }
  }

  /**
   The first request with a key gets 202 and no other does; each later one gets
   200 with the first one's id if the content is equal, and 409 otherwise.
   */
  lemma IngestReplies(lease: nat, ss: seq<State>, steps: seq<Step>, i: nat, k: nat)
    requires Run(lease, ss, steps) && i <= k < |steps| && First(steps, i) && SameKey(steps[i], steps[k])
    ensures ReplyTo(ss[k], steps[k]) ==
            if k == i then Accepted202(steps[i].newId)
            else if steps[k].hash == steps[i].hash then Duplicate200(steps[i].newId)
            else Conflict409
  {
    FirstInserts(lease, ss, steps, k);
    if i < k {
      RunKeepsSchema(lease, ss, steps, k);
      EventIsFixed(lease, ss, steps, i, k);
      assert Matches(ss[k], steps[i].newId, steps[k].project, steps[k].externalId);
      assert EventsOk(ss[k]);
    }
  }

  ghost function DeliveriesOf(s: State, e: EventId): set<DeliveryId> {
    set d | d in s.deliveries && s.deliveries[d].event == e
  }

  ghost predicate FannedOut(s: State, e: EventId, ids: map<DeliveryId, EndpointId>) {
    && DeliveriesOf(s, e) == ids.Keys
    && forall d :: d in ids ==> s.deliveries[d].endpoint == ids[d]
  }

  /** An accepted ingest gives its own event the deliveries it inserts, and no event else any. */
  lemma InsertFansOut(
    s: State, project: ProjectId, externalId: nat, hash: nat, newId: EventId,
    ids: map<DeliveryId, EndpointId>, e: EventId)
    requires DeliveriesOk(s) && newId !in s.events && FanOut(s, project, ids)
    ensures var s' := Insert(s, project, externalId, hash, newId, ids);
            if e == newId then FannedOut(s', e, ids)
            else
              && DeliveriesOf(s', e) == DeliveriesOf(s, e)
              && forall d :: d in s.deliveries ==> s'.deliveries[d] == s.deliveries[d]
  {
  }

  lemma FanOutStays(lease: nat, s: State, step: Step, s': State, e: EventId, ids: map<DeliveryId, EndpointId>)
    requires Next(lease, s, step, s') && DeliveriesOk(s) && e in s.events && FannedOut(s, e, ids)
    ensures FannedOut(s', e, ids)
  {
    assert forall d :: d in ids ==> d in DeliveriesOf(s, e);
    if Inserts(s, step) {
      InsertFansOut(s, step.project, step.externalId, step.hash, step.newId, step.ids, e);
    } else {
      ShapeKept(lease, s, step, s');
      assert forall d :: d in s.deliveries ==> SameEnds(s.deliveries[d], s'.deliveries[d]);
      assert DeliveriesOf(s', e) == DeliveriesOf(s, e);
    }
  }

  lemma FirstFansOut(lease: nat, ss: seq<State>, steps: seq<Step>, i: nat)
    requires Run(lease, ss, steps) && i < |steps| && First(steps, i)
    ensures FanOut(ss[i], steps[i].project, steps[i].ids)
    ensures FannedOut(ss[i + 1], steps[i].newId, steps[i].ids)
    ensures forall d :: d in steps[i].ids ==>
              JustCreated(ss[i + 1].deliveries[d], steps[i].newId, steps[i].ids[d], ss[i].now)
  {
    var step := steps[i];
    FirstInserts(lease, ss, steps, i);
    RunKeepsSchema(lease, ss, steps, i);
    assert StepAt(lease, ss, steps, i);
    InsertFansOut(ss[i], step.project, step.externalId, step.hash, step.newId, step.ids, step.newId);
  }

  /**
   Atomic fan-out: from the accepting step on, the event's deliveries are exactly
   one for each endpoint of its project that was then active and not deleted, never
   more, never fewer.
   */
  lemma {:induction false} FanOutIsFixed(lease: nat, ss: seq<State>, steps: seq<Step>, i: nat, k: nat)
    requires Run(lease, ss, steps) && i < k <= |steps| && First(steps, i)
    ensures forall ep :: ep in steps[i].ids.Values <==>
              && ep in ss[i].endpoints && ss[i].endpoints[ep].project == steps[i].project
              && ss[i].endpoints[ep].active && ss[i].endpoints[ep].deletedAt.None?
    ensures forall d, x :: d in steps[i].ids && x in steps[i].ids && steps[i].ids[d] == steps[i].ids[x] ==> d == x
    ensures FannedOut(ss[k], steps[i].newId, steps[i].ids)
    decreases k
  {
    if k == i + 1 {
      FirstFansOut(lease, ss, steps, i);
    } else {
      FanOutIsFixed(lease, ss, steps, i, k - 1);
      EventIsFixed(lease, ss, steps, i, k - 1);
      RunKeepsSchema(lease, ss, steps, k - 1);
      assert StepAt(lease, ss, steps, k - 1);
      FanOutStays(lease, ss[k - 1], steps[k - 1], ss[k], steps[i].newId, steps[i].ids);
    }
  }
}
