/**
 When do the leases keep two HTTP requests for one delivery from overlapping?
 The tables are joined by the workers' requests: a job is held by one worker,
 which starts at most one request, within startBound of the claim, and the
 client ends it within timeout.
 */
module Exclusion {
  import opened Common
  import opened Tables
  import opened Fencing

  datatype Config = Config(lease: nat, timeout: nat, startBound: nat)

  datatype Request = Request(delivery: DeliveryId, start: Time, end: Option<Time>)

  /** done holds the tokens whose worker has called Defer or Finish and moved on. */
  datatype World = World(db: State, claimedAt: map<Token, Time>, requests: map<Token, Request>, done: set<Token>)

  const BEGIN: World := World(EMPTY, map[], map[], {})

  datatype Act = Db(step: Step) | Send(token: Token) | Receive(token: Token)

  predicate InFlight(w: World, t: Token) {
    t in w.requests && w.requests[t].end.None?
  }

  ghost predicate Can(c: Config, w: World, a: Act) {
    match a
    case Db(step) => Enabled(w.db, step) && Disciplined(c, w, step)
    case Send(t) =>
      && t in w.db.issued && w.db.issued[t].active && t in w.claimedAt
      && t !in w.requests && t !in w.done
      && w.db.now <= w.claimedAt[t] + c.startBound
    case Receive(t) => InFlight(w, t)
  }

  /** process reports once its request, if it could send one, is over, or defers instead of sending; either once. */
  ghost predicate Disciplined(c: Config, w: World, step: Step) {
    match step
    case Tick(to) => forall t :: InFlight(w, t) ==> to <= w.requests[t].start + c.timeout
    case Defer(j, _, _) => j.token !in w.done && j.token !in w.requests
    case Finish(j, _, _) => j.token !in w.done && !InFlight(w, j.token)
    case _ => true
  }

  ghost function Do(c: Config, w: World, a: Act): World
    requires Can(c, w, a)
  {
    match a
    case Db(step) =>
      World(Apply(c.lease, w.db, step),
            if step.Claim? && step.found.Some? then w.claimedAt[step.token := w.db.now] else w.claimedAt,
            w.requests,
            if step.Defer? || step.Finish? then w.done + {step.job.token} else w.done)
    case Send(t) => w.(requests := w.requests[t := Request(w.db.issued[t].id, w.db.now, None)])
    case Receive(t) => w.(requests := w.requests[t := w.requests[t].(end := Some(w.db.now))])
  }

  ghost predicate Moves(c: Config, w: World, a: Act, w': World) {
    Can(c, w, a) && w' == Do(c, w, a)
  }

  ghost predicate WorldRun(c: Config, ws: seq<World>, acts: seq<Act>) {
    && |ws| == |acts| + 1
    && ws[0] == BEGIN
    && forall i :: 0 <= i < |acts| ==> Moves(c, ws[i], acts[i], ws[i + 1])
  }

  predicate Apart(a: Request, b: Request) {
    || (a.end.Some? && a.end.value <= b.start)
    || (b.end.Some? && b.end.value <= a.start)
  }

  /** No two requests for one delivery overlap in time. */
  ghost predicate Exclusive(w: World) {
    forall t, u :: t in w.requests && u in w.requests && t != u && w.requests[t].delivery == w.requests[u].delivery
      ==> Apart(w.requests[t], w.requests[u])
  }

  // ---------------------------------------------------------------- enough margin

  /** The holder still has its lease, or its worker has moved on, or the lease has run out. */
  ghost predicate Accounted(c: Config, w: World, t: Token)
    requires t in w.db.issued && t in w.claimedAt
  {
    || (Owns(w.db, w.db.issued[t]) && w.db.deliveries[w.db.issued[t].id].leaseUntil == Some(w.claimedAt[t] + c.lease))
    || t in w.done
    || w.db.now > w.claimedAt[t] + c.lease
  }

  ghost predicate RequestOk(c: Config, w: World, t: Token)
    requires t in w.requests
  {
    var r := w.requests[t];
    && t in w.db.issued && t in w.claimedAt && r.delivery == w.db.issued[t].id && w.db.issued[t].active
    && w.claimedAt[t] <= r.start <= w.claimedAt[t] + c.startBound
    && r.start <= w.db.now
    && (r.end.Some? ==> r.start <= r.end.value <= w.db.now)
    && (r.end.None? ==> w.db.now <= r.start + c.timeout && t !in w.done)
  }

  ghost predicate Accounts(c: Config, w: World) {
    && w.claimedAt.Keys == w.db.issued.Keys
    && (forall t :: t in w.db.issued ==> Accounted(c, w, t))
  }

  ghost predicate ClaimsArePast(w: World) {
    forall t :: t in w.claimedAt ==> w.claimedAt[t] <= w.db.now
  }

  ghost predicate Requests(c: Config, w: World) {
    forall t :: t in w.requests ==> RequestOk(c, w, t)
  }

  /** What holds for every lease. */
  ghost predicate Books(c: Config, w: World) {
    Schema(w.db) && ClaimsArePast(w) && Accounts(c, w) && Requests(c, w)
  }

  ghost predicate Inv(c: Config, w: World) {
    Books(c, w) && Exclusive(w)
  }

  /** A worker that may still start, and one whose request is in flight, both own their delivery. */
  lemma OlderRequestHasEnded(c: Config, w: World, t: Token, u: Token)
    requires IssuedOk(w.db) && Accounts(c, w) && u in w.requests && RequestOk(c, w, u)
    requires Can(c, w, Send(t)) && c.startBound + c.timeout <= c.lease
    requires u != t && w.requests[u].delivery == w.db.issued[t].id
    ensures w.requests[u].end.Some? && w.requests[u].end.value <= w.db.now
  {
  }

  lemma SendKeepsExclusive(c: Config, w: World, x: Token)
    requires IssuedOk(w.db) && Accounts(c, w) && Requests(c, w) && Exclusive(w)
    requires Can(c, w, Send(x)) && c.startBound + c.timeout <= c.lease
    ensures Exclusive(Do(c, w, Send(x)))
  {
    forall u | u in w.requests && u != x && w.requests[u].delivery == w.db.issued[x].id
      ensures w.requests[u].end.Some? && w.requests[u].end.value <= w.db.now
    {
      OlderRequestHasEnded(c, w, x, u);
    }
  }

  lemma ReceiveKeepsExclusive(c: Config, w: World, x: Token)
    requires Exclusive(w) && Can(c, w, Receive(x))
    ensures Exclusive(Do(c, w, Receive(x)))
  {
  }

  lemma RequestStepKeepsAccounts(c: Config, w: World, a: Act)
    requires Accounts(c, w) && ClaimsArePast(w) && Can(c, w, a) && !a.Db?
    ensures Accounts(c, Do(c, w, a)) && ClaimsArePast(Do(c, w, a))
  {
    forall t | t in w.db.issued ensures Accounted(c, Do(c, w, a), t) {
      assert Accounted(c, w, t);
    }
  }

  lemma RequestStepKeepsRequests(c: Config, w: World, a: Act)
    requires ClaimsArePast(w) && Requests(c, w) && Can(c, w, a) && !a.Db?
    ensures Requests(c, Do(c, w, a))
  {
    forall t | t in Do(c, w, a).requests ensures RequestOk(c, Do(c, w, a), t) {
      assert t in w.requests ==> RequestOk(c, w, t);
    }
  }

  lemma OwnerKeepsExpiry(lease: nat, s: State, step: Step, s': State, j: Job)
    requires Next(lease, s, step, s') && Issued(s, j) && Owns(s, j) && Owns(s', j)
    ensures s'.deliveries[j.id] == s.deliveries[j.id]
  {
  }

  lemma AccountedStep(c: Config, w: World, step: Step, t: Token)
    requires Can(c, w, Db(step)) && t in w.db.issued && t in w.claimedAt
    requires Accounted(c, w, t) && JobOk(w.db, t, w.db.issued[t])
    ensures var w' := Do(c, w, Db(step)); t in w'.db.issued && t in w'.claimedAt && Accounted(c, w', t)
  {
    var w' := Do(c, w, Db(step));
    var j := w.db.issued[t];
    assert Next(c.lease, w.db, step, w'.db);
    IssuedGrow(c.lease, w.db, step, w'.db);
    assert w.db.now <= w'.db.now;
    if Owns(w.db, j) {
      OwnershipOfOld(c.lease, w.db, step, w'.db, j);
      if Owns(w'.db, j) {
        OwnerKeepsExpiry(c.lease, w.db, step, w'.db, j);
      }
    }
  }

  lemma DbStepKeepsAccounts(c: Config, w: World, step: Step)
    requires IssuedOk(w.db) && Accounts(c, w) && Can(c, w, Db(step))
    ensures Accounts(c, Do(c, w, Db(step)))
  {
    var w' := Do(c, w, Db(step));
    assert Next(c.lease, w.db, step, w'.db);
    IssuedGrow(c.lease, w.db, step, w'.db);
    forall t | t in w'.db.issued ensures t in w'.claimedAt && Accounted(c, w', t) {
      if t in w.db.issued {
        assert JobOk(w.db, t, w.db.issued[t]);
        AccountedStep(c, w, step, t);
      }
    }
  }

  lemma DbStepKeepsRequests(c: Config, w: World, step: Step)
    requires Accounts(c, w) && Requests(c, w) && Can(c, w, Db(step))
    ensures Requests(c, Do(c, w, Db(step)))
  {
    IssuedGrow(c.lease, w.db, step, Do(c, w, Db(step)).db);
  }

  lemma DbStepKeepsPast(c: Config, w: World, step: Step)
    requires ClaimsArePast(w) && Can(c, w, Db(step))
    ensures ClaimsArePast(Do(c, w, Db(step)))
  {
  }

  lemma BooksStep(c: Config, w: World, a: Act)
    requires Books(c, w) && Can(c, w, a)
    ensures Books(c, Do(c, w, a))
  {
    if a.Db? {
      SchemaKept(c.lease, w.db, a.step, Do(c, w, a).db);
      DbStepKeepsPast(c, w, a.step);
      DbStepKeepsAccounts(c, w, a.step);
      DbStepKeepsRequests(c, w, a.step);
    } else {
      RequestStepKeepsAccounts(c, w, a);
      RequestStepKeepsRequests(c, w, a);
    }
  }

  lemma InvStep(c: Config, w: World, a: Act)
    requires Inv(c, w) && Can(c, w, a) && c.startBound + c.timeout <= c.lease
    ensures Inv(c, Do(c, w, a))
  {
    BooksStep(c, w, a);
    match a
    case Db(_) => assert Do(c, w, a).requests == w.requests;
    case Send(t) => SendKeepsExclusive(c, w, t);
    case Receive(t) => ReceiveKeepsExclusive(c, w, t);
  }

  lemma {:induction false} ExclusionHolds(c: Config, ws: seq<World>, acts: seq<Act>, i: nat)
    requires WorldRun(c, ws, acts) && i <= |acts| && c.startBound + c.timeout <= c.lease
    ensures Inv(c, ws[i])
  {
    if i == 0 {
    } else {
      ExclusionHolds(c, ws, acts, i - 1);
      assert Moves(c, ws[i - 1], acts[i - 1], ws[i]);
      InvStep(c, ws[i - 1], acts[i - 1]);
    }
  }

  // ---------------------------------------------------------------- too little margin

  ghost predicate Reachable(c: Config, w: World) {
    exists ws, acts :: WorldRun(c, ws, acts) && ws[|acts|] == w
  }

  ghost predicate AlwaysExclusive(c: Config) {
    forall w :: Reachable(c, w) ==> Exclusive(w)
  }

  lemma Onward(c: Config, w: World, a: Act, w': World)
    requires Reachable(c, w) && Moves(c, w, a, w')
    ensures Reachable(c, w')
  {
    var ws, acts :| WorldRun(c, ws, acts) && ws[|acts|] == w;
    var ws', acts' := ws + [w'], acts + [a];
    forall i | 0 <= i < |acts'| ensures Moves(c, ws'[i], acts'[i], ws'[i + 1]) {
      assert i < |acts| ==> Moves(c, ws[i], acts[i], ws[i + 1]);
    }
    assert WorldRun(c, ws', acts');
  }

  const ANY: Policy := Policy(1, 1, 1)

  const LIVE: map<EndpointId, Endpoint> := map[0 := Endpoint(0, true, ANY, None)]

  const FANOUT: map<DeliveryId, EndpointId> := map[0 := 0]

  function TheJob(token: Token): Job {
    Job(0, token, 0, 1, 0, ANY, true)
  }

  /** The only delivery was claimed at the given time; requests are those started so far. */
  function Leased(c: Config, token: Token, claimed: Time, now: Time, issued: map<Token, Job>,
                  claimedAt: map<Token, Time>, requests: map<Token, Request>): World {
    World(State(now, LIVE, map[0 := Event(0, 0, 0)],
                map[0 := ClaimRow(NewRow(0, 0, 0), token, c.lease, claimed)], [], map[], issued),
          claimedAt, requests, {})
  }

  lemma FirstEvent(c: Config, w1: World, w2: World)
    requires w1 == BEGIN.(db := EMPTY.(endpoints := LIVE))
    requires w2 == w1.(db := w1.db.(events := map[0 := Event(0, 0, 0)], deliveries := map[0 := NewRow(0, 0, 0)]))
    ensures Moves(c, BEGIN, Db(CreateEndpoint(0, 0, true, ANY)), w1)
    ensures Moves(c, w1, Db(Ingest(0, 0, 0, 0, FANOUT)), w2)
  {
    assert FANOUT[0] in FANOUT.Values;
    assert FANOUT.Values == {0} == LiveEndpoints(w1.db, 0);
    assert !Known(w1.db, 0, 0);
    assert w2.db == Insert(w1.db, 0, 0, 0, 0, FANOUT);
  }

  lemma FirstClaim(c: Config, w2: World, w3: World)
    requires w2.db == State(0, LIVE, map[0 := Event(0, 0, 0)], map[0 := NewRow(0, 0, 0)], [], map[], map[])
    requires w2 == BEGIN.(db := w2.db)
    requires w3 == Leased(c, 0, 0, 0, map[0 := TheJob(0)], map[0 := 0], map[])
    ensures Moves(c, w2, Db(Claim(0, Some(0))), w3)
  {
    assert Due(w2.db, 0);
  }

  lemma LateStart(c: Config, start: Time, late: Time, w3: World, w4: World, w5: World, w6: World)
    requires 0 <= start <= c.startBound && start <= late <= start + c.timeout
    requires w3 == Leased(c, 0, 0, 0, map[0 := TheJob(0)], map[0 := 0], map[])
    requires w4 == w3.(db := w3.db.(now := start))
    requires w5 == w4.(requests := map[0 := Request(0, start, None)])
    requires w6 == w5.(db := w5.db.(now := late))
    ensures Moves(c, w3, Db(Tick(start)), w4) && Moves(c, w4, Send(0), w5) && Moves(c, w5, Db(Tick(late)), w6)
  {
  }

  lemma Reclaim(c: Config, start: Time, w6: World, w7: World, w8: World)
    requires w6 == Leased(c, 0, 0, c.lease + 1, map[0 := TheJob(0)], map[0 := 0], map[0 := Request(0, start, None)])
    requires w7 == Leased(c, 1, c.lease + 1, c.lease + 1, map[0 := TheJob(0), 1 := TheJob(1)],
                          map[0 := 0, 1 := c.lease + 1], map[0 := Request(0, start, None)])
    requires w8 == w7.(requests := map[0 := Request(0, start, None), 1 := Request(0, c.lease + 1, None)])
    ensures Moves(c, w6, Db(Claim(1, Some(0))), w7) && Moves(c, w7, Send(1), w8)
    ensures !Exclusive(w8)
  {
    assert Due(w6.db, 0);
    assert FirstDue(w6.db, 0);
    assert !Apart(w8.requests[0], w8.requests[1]);
  }

  lemma OverlapWithoutMargin(c: Config)
    requires c.timeout >= 1 && c.startBound + c.timeout > c.lease
    ensures !AlwaysExclusive(c)
  {
    var start := if c.startBound < c.lease then c.startBound else c.lease;
    var late := c.lease + 1;
    var w1 := BEGIN.(db := EMPTY.(endpoints := LIVE));
    var w2 := w1.(db := w1.db.(events := map[0 := Event(0, 0, 0)], deliveries := map[0 := NewRow(0, 0, 0)]));
    var w3 := Leased(c, 0, 0, 0, map[0 := TheJob(0)], map[0 := 0], map[]);
    var w4 := w3.(db := w3.db.(now := start));
    var w5 := w4.(requests := map[0 := Request(0, start, None)]);
    var w6 := w5.(db := w5.db.(now := late));
    var w7 := Leased(c, 1, late, late, map[0 := TheJob(0), 1 := TheJob(1)], map[0 := 0, 1 := late],
                     map[0 := Request(0, start, None)]);
    var w8 := w7.(requests := map[0 := Request(0, start, None), 1 := Request(0, late, None)]);
    FirstEvent(c, w1, w2);
    FirstClaim(c, w2, w3);
    LateStart(c, start, late, w3, w4, w5, w6);
    Reclaim(c, start, w6, w7, w8);
    assert WorldRun(c, [BEGIN], []);
    Onward(c, BEGIN, Db(CreateEndpoint(0, 0, true, ANY)), w1);
    Onward(c, w1, Db(Ingest(0, 0, 0, 0, FANOUT)), w2);
    Onward(c, w2, Db(Claim(0, Some(0))), w3);
    Onward(c, w3, Db(Tick(start)), w4);
    Onward(c, w4, Send(0), w5);
    Onward(c, w5, Db(Tick(late)), w6);
    Onward(c, w6, Db(Claim(1, Some(0))), w7);
    Onward(c, w7, Send(1), w8);
  }

  /**
   Timed exclusion is exact: no run has overlapping requests if and only if the
   lease covers the latest start plus the request timeout.
   */
  lemma ExclusiveIffMargin(c: Config)
    requires c.timeout >= 1
    ensures AlwaysExclusive(c) <==> c.startBound + c.timeout <= c.lease
  {
    if c.startBound + c.timeout <= c.lease {
      forall w | Reachable(c, w) ensures Exclusive(w) {
        var ws, acts :| WorldRun(c, ws, acts) && ws[|acts|] == w;
        ExclusionHolds(c, ws, acts, |acts|);
      }
    } else {
      OverlapWithoutMargin(c);
    }
  }

  /** The check made when the configuration is loaded allows starts up to two timeouts late. */
  lemma LoadedConfigIsSafe(lease: nat, timeout: nat)
    requires 1 <= timeout && 3 * timeout <= lease
    ensures AlwaysExclusive(Config(lease, timeout, 2 * timeout))
  {
    ExclusiveIffMargin(Config(lease, timeout, 2 * timeout));
  }
}
