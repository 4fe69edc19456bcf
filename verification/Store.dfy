/**
 The operations as the program performs them, statement by statement, on tables
 that are updated in place. Each is proved to be one step of the protocol.
 */
module Store {
  import opened Common
  import opened Retry
  import opened Tables
  import opened Effects
  import opened Idempotency

  /** Refused stands for a unique violation, which rolls the transaction back. */
  datatype Outcome = Committed | Stale | Refused

  datatype Edit = Saved | Invalid

  class Database {
    const lease: nat
    var now: Time
    var endpoints: map<EndpointId, Endpoint>
    var events: map<EventId, Event>
    var deliveries: map<DeliveryId, Delivery>
    var attempts: seq<Attempt>
    var deadLetters: map<DeliveryId, Time>
    ghost var issued: map<Token, Job>

    ghost function Value(): State
      reads this
    {
      State(now, endpoints, events, deliveries, attempts, deadLetters, issued)
    }

    constructor (lease: nat)
      ensures this.lease == lease && Value() == EMPTY
    {
      this.lease := lease;
      now, endpoints, events, deliveries := 0, map[], map[], map[];
      attempts, deadLetters, issued := [], map[], map[];
    }

    /** The candidate subquery: the first due row in the order (next_attempt_at, id). */
    method FindDue() returns (found: Option<DeliveryId>)
      ensures found.None? ==> NothingDue(Value())
      ensures found.Some? ==> FirstDue(Value(), found.value)
      ensures found.None? <==> forall x :: x in deliveries ==> !Claimable(deliveries[x], now)
      ensures found.Some? ==>
                && found.value in deliveries && Claimable(deliveries[found.value], now)
                && forall x :: x in deliveries && x != found.value && Claimable(deliveries[x], now) ==>
                     || deliveries[found.value].nextAttemptAt < deliveries[x].nextAttemptAt
                     || (deliveries[found.value].nextAttemptAt == deliveries[x].nextAttemptAt && found.value < x)
    {
      found := None;
      var rest := deliveries.Keys;
      while rest != {}
        invariant rest <= deliveries.Keys
        invariant found.Some? ==> found.value !in rest && Due(Value(), found.value)
        invariant forall x :: x in deliveries && x !in rest && Due(Value(), x) ==>
                    found.Some? && (x == found.value || Ahead(Value(), found.value, x))
      {
        var x :| x in rest;
        rest := rest - {x};
        if DueRow(deliveries[x], now) {
          if found.None? || Before(deliveries[x].nextAttemptAt, x, deliveries[found.value].nextAttemptAt, found.value) {
            found := Some(x);
          }
        }
      }
    }

    method Claim(token: Token) returns (job: Option<Job>)
      requires Schema(Value()) && token !in issued
      modifies this
      ensures var step := Step.Claim(token, if job.None? then None else Some(job.value.id));
              Next(lease, old(Value()), step, Value())
      ensures job.Some? ==> Issued(Value(), job.value) && job.value.token == token && Owns(Value(), job.value)
      ensures job.Some? ==>
                var d, row := job.value.id, old(deliveries)[job.value.id];
                && Claimable(row, now) && TakenOver(row, deliveries[d], token, lease, now)
                && row.endpoint in endpoints && CopyOf(job.value, d, token, row, endpoints[row.endpoint])
    {
      var found := FindDue();
      if found.None? {
        return None;
      }
      var d := found.value;
      assert References(Value(), deliveries[d]);
      var row := deliveries[d];
      var j := JobFor(d, token, row, endpoints[row.endpoint]);
      deliveries := deliveries[d := ClaimRow(row, token, lease, now)];
      issued := issued[token := j];
      job := Some(j);
    }

    method Defer(j: Job, status: Status, delay: Time) returns (outcome: Outcome)
      modifies this
      ensures outcome == if old(Owns(Value(), j)) then Committed else Stale
      ensures Value() == if outcome == Committed then old(DeferState(Value(), j, status, delay)) else old(Value())
      ensures outcome == Committed ==>
                && j.id in old(deliveries) && j.id in deliveries
                && GivenBack(old(deliveries)[j.id], deliveries[j.id], status, delay, now)
    {
      if j.id !in deliveries || deliveries[j.id].leaseToken != Some(j.token) || deliveries[j.id].status != Processing {
        return Stale;
      }
      deliveries := deliveries[j.id := ReleaseRow(deliveries[j.id], status, delay, now)];
      outcome := Committed;
    }

    method Finish(j: Job, code: int, draw: int) returns (outcome: Outcome)
      requires 1 <= j.policy.baseDelay <= 3600 && 0 <= draw <= Ceiling(j.attempt, j.policy.baseDelay) / 2
      modifies this
      ensures outcome ==
              if !old(Owns(Value(), j)) then Stale else if old(KeyTaken(Value(), j)) then Refused else Committed
      ensures Value() == if outcome == Committed then old(FinishState(Value(), j, code, draw)) else old(Value())
      ensures outcome == Committed ==>
                && j.id in old(deliveries) && j.id in deliveries
                && Concluded(old(deliveries)[j.id], deliveries[j.id], j, code, draw, now)
                && (deliveries[j.id].status.Dead? ==> j.id in deadLetters && deadLetters[j.id] == now)
                && (!deliveries[j.id].status.Dead? ==> deadLetters == old(deadLetters))
    {
      if j.id !in deliveries || deliveries[j.id].leaseToken != Some(j.token) || deliveries[j.id].status != Processing {
        return Stale;
      }
      var status, delay := Succeeded, 0;
      if code < 200 || code >= 300 {
        status := Dead;
        if Retryable(code) && j.attempt < j.policy.maxAttempts {
          status := Retrying;
          delay := Backoff(j.attempt, j.policy.baseDelay, draw);
        }
      }
      if exists a :: a in attempts && KeyOf(a) == JobKey(j) {
        return Refused;
      }
      attempts := attempts + [Attempt(j.id, Row(j.generation, j.attempt, Entry(code, now, j.policy)), j.token)];
      deliveries := deliveries[j.id := deliveries[j.id].(
        status := status, attemptCount := j.attempt, nextAttemptAt := now + delay,
        leaseToken := None, leaseUntil := None, updatedAt := now)];
      if status == Dead {
        deadLetters := deadLetters[j.id := now];
      }
      outcome := Committed;
    }

    /** What a worker does with a job; env is all it meets on the way. */
    method Process(j: Job, env: Surroundings, draw: int) returns (action: Action)
      requires IssuedOk(Value()) && Issued(Value(), j) && 0 <= draw <= Ceiling(j.attempt, j.policy.baseDelay) / 2
      modifies this
      ensures action == Decide(j.active, env)
      ensures action.Report? <==>
              && !env.stopped && j.active && !env.limiterFailed && env.allowed && env.decrypted
              && !env.stoppedMeanwhile
      ensures action.Report? ==> action.code == if env.response.Some? then env.response.value else 0
      ensures !env.stopped && !j.active ==> action == Postpone(Cancelled, 0)
      ensures !env.stopped && j.active && (env.limiterFailed || !env.allowed) ==>
                action == Postpone(Retrying, 1_000_000_000)
      ensures !env.stopped && j.active && !env.limiterFailed && env.allowed && !env.decrypted ==>
                action == Postpone(Retrying, 60_000_000_000)
      ensures env.stopped ==> action == Leave
      ensures j.active && !env.limiterFailed && env.allowed && env.decrypted && env.stoppedMeanwhile ==>
                action == Leave
      ensures match action
              case Leave => Value() == old(Value())
              case Postpone(status, delay) => Next(lease, old(Value()), Step.Defer(j, status, delay), Value())
              case Report(code) => Next(lease, old(Value()), Step.Finish(j, code, draw), Value())
    {
      if env.stopped {
        return Leave;
      }
      assert JobOk(Value(), j.token, j);
      if !j.active {
        var _ := Defer(j, Cancelled, 0);
        return Postpone(Cancelled, 0);
      }
      if env.limiterFailed || !env.allowed {
        var _ := Defer(j, Retrying, SECOND);
        return Postpone(Retrying, SECOND);
      }
      if !env.decrypted {
        var _ := Defer(j, Retrying, MINUTE);
        return Postpone(Retrying, MINUTE);
      }
      var status := 0;
      if env.response.Some? {
        status := env.response.value;
      }
      if env.stoppedMeanwhile {
        return Leave;
      }
      var _ := Finish(j, status, draw);
      action := Report(status);
    }

    method Replay(d: DeliveryId) returns (ok: bool)
      modifies this
      ensures Next(lease, old(Value()), Step.Replay(d), Value())
      ensures ok == old(MayRestart(Value(), d))
      ensures ok ==>
                && d in deliveries && d !in deadLetters && attempts == old(attempts)
                && Restarted(old(deliveries)[d], deliveries[d], now)
    {
      if d !in deliveries || deliveries[d].endpoint !in endpoints {
        return false;
      }
      var status := deliveries[d].status;
      var active := endpoints[deliveries[d].endpoint].active && endpoints[deliveries[d].endpoint].deletedAt.None?;
      if status != Dead || !active {
        return false;
      }
      deliveries := deliveries[d := ReplayRow(deliveries[d], now)];
      deadLetters := deadLetters - {d};
      ok := true;
    }

    method FindEvent(project: ProjectId, externalId: nat) returns (found: Option<EventId>)
      ensures found.Some? ==> Matches(Value(), found.value, project, externalId)
      ensures found.None? ==> !Known(Value(), project, externalId)
    {
      var rest := events.Keys;
      while rest != {}
        invariant forall e :: e in events && e !in rest ==> !Matches(Value(), e, project, externalId)
      {
        var e :| e in rest;
        if e in events && events[e].project == project && events[e].externalId == externalId {
          return Some(e);
        }
        rest := rest - {e};
      }
      found := None;
    }

    /** ids are the delivery ids that the fan-out derives from newId and the live endpoints. */
    method Ingest(project: ProjectId, externalId: nat, hash: nat, newId: EventId, ids: map<DeliveryId, EndpointId>)
      returns (reply: Reply)
      requires Schema(Value()) && Enabled(Value(), Step.Ingest(project, externalId, hash, newId, ids))
      modifies this
      ensures var step := Step.Ingest(project, externalId, hash, newId, ids);
              Next(lease, old(Value()), step, Value()) && reply == old(ReplyTo(Value(), step))
    {
      var id := newId;
      var found := FindEvent(project, externalId);
      if found.Some? {
        id := found.value;
        assert Known(Value(), project, externalId) && EventsOk(Value());
        var oldHash := events[id].hash;
        if oldHash != hash {
          return Conflict409;
        }
        return Duplicate200(id);
      }
      events := events[id := Event(project, externalId, hash)];
      deliveries := deliveries + map d | d in ids :: NewRow(id, ids[d], now);
      reply := Accepted202(id);
    }

    /** updateEndpoint's SELECT, which does not see deleted endpoints. */
    method LoadEndpoint(ep: EndpointId) returns (read: Option<Endpoint>)
      ensures read.Some? <==> ep in endpoints && endpoints[ep].deletedAt.None?
      ensures read.Some? ==> read.value == endpoints[ep]
    {
      read := None;
      if ep in endpoints && endpoints[ep].deletedAt.None? {
        read := Some(endpoints[ep]);
      }
    }

    /**
     The rest of updateEndpoint. Values that the request does not mention are those
     that were read, perhaps before other steps. The UPDATE looks at the id alone.
     */
    method SaveEndpoint(ep: EndpointId, read: Endpoint, active: Option<bool>,
                        maxAttempts: Option<int>, baseDelay: Option<int>, rate: Option<int>)
      returns (edit: Edit)
      modifies this
      ensures var merged := read.policy.Merge(maxAttempts, baseDelay, rate);
              && (edit.Saved? <==>
                   && 1 <= merged.maxAttempts <= 10 && 1 <= merged.baseDelay <= 3600 && 1 <= merged.rate <= 1000)
              && (edit.Saved? && old(ep in endpoints) ==>
                   var on := if active.Some? then active.value else read.active;
                   Next(lease, old(Value()), Step.UpdateEndpoint(ep, on, merged), Value()))
      ensures edit.Invalid? || old(ep !in endpoints) ==> Value() == old(Value())
      ensures edit.Saved? && old(ep in endpoints) ==>
                && ep in endpoints
                && endpoints[ep].active == (if active.Some? then active.value else read.active)
                && endpoints[ep].policy ==
                   Policy(if maxAttempts.Some? then maxAttempts.value else read.policy.maxAttempts,
                          if baseDelay.Some? then baseDelay.value else read.policy.baseDelay,
                          if rate.Some? then rate.value else read.policy.rate)
                && endpoints[ep].project == old(endpoints)[ep].project
                && endpoints[ep].deletedAt == old(endpoints)[ep].deletedAt
    {
      var policy := read.policy.Merge(maxAttempts, baseDelay, rate);
      if policy.maxAttempts < 1 || policy.maxAttempts > 10 || policy.baseDelay < 1 || policy.baseDelay > 3600
         || policy.rate < 1 || policy.rate > 1000 {
        return Invalid;
      }
      if ep in endpoints {
        var on := if active.Some? then active.value else read.active;
        endpoints := endpoints[ep := endpoints[ep].(active := on, policy := policy)];
      }
      edit := Saved;
    }

    method DeleteEndpoint(ep: EndpointId) returns (ok: bool)
      modifies this
      ensures Next(lease, old(Value()), Step.DeleteEndpoint(ep), Value())
      ensures ok == old(ep in endpoints && endpoints[ep].deletedAt.None?)
      ensures ok ==>
                && ep in endpoints && endpoints[ep].deletedAt == Some(now) && !endpoints[ep].active
                && endpoints[ep].project == old(endpoints)[ep].project
                && endpoints[ep].policy == old(endpoints)[ep].policy
    {
      if ep !in endpoints || endpoints[ep].deletedAt.Some? {
        return false;
      }
      endpoints := endpoints[ep := endpoints[ep].(active := false, deletedAt := Some(now))];
      ok := true;
    }
  }
}
