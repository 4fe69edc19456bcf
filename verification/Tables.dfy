/**
 The PostgreSQL tables behind the queue and the steps that change them.

 Every SQL statement or transaction is one atomic step at its own now(). Texts
 that the program only compares (ids, tokens, content hashes) are naturals.
 */
module Tables {
  import opened Common
  import opened Retry

  type Time = int
  type Token = nat
  type ProjectId = nat
  type EventId = nat
  type EndpointId = nat
  type DeliveryId = nat

  /** The CHECK constraints on endpoints, repeated by validateEndpoint. */
  datatype Policy = Policy(maxAttempts: int, baseDelay: int, rate: int) {
    predicate Valid() {
      1 <= maxAttempts <= 10 && 1 <= baseDelay <= 3600 && 1 <= rate <= 1000
    }

    function Merge(attempts: Option<int>, base: Option<int>, perSecond: Option<int>): Policy {
      Policy(if attempts.Some? then attempts.value else maxAttempts,
             if base.Some? then base.value else baseDelay,
             if perSecond.Some? then perSecond.value else rate)
    }
  }

  datatype Endpoint = Endpoint(project: ProjectId, active: bool, policy: Policy, deletedAt: Option<Time>) {
    predicate Live() {
      active && deletedAt.None?
    }
  }

  datatype Event = Event(project: ProjectId, externalId: nat, hash: nat)

  datatype Status = Pending | Processing | Retrying | Succeeded | Dead | Cancelled {
    predicate Waiting() {
      Pending? || Retrying?
    }

    predicate Open() {
      Waiting() || Processing?
    }
  }

  datatype Delivery = Delivery(
    event: EventId, endpoint: EndpointId, status: Status, attemptCount: nat, generation: nat,
    nextAttemptAt: Time, leaseUntil: Option<Time>, leaseToken: Option<Token>, updatedAt: Time)

  /** What an attempt records: its outcome, its time, and the policy its claim had copied. */
  datatype Entry = Entry(code: int, at: Time, policy: Policy)

  datatype Row = Row(generation: nat, attempt: nat, entry: Entry)

  /** A row of delivery_attempts. The claim it came from is kept as an auxiliary column. */
  datatype Attempt = Attempt(delivery: DeliveryId, row: Row, token: Token)

  datatype Job = Job(
    id: DeliveryId, token: Token, endpoint: EndpointId,
    attempt: nat, generation: nat, policy: Policy, active: bool)

  /** issued holds every job ever handed out, so also those of stale or crashed workers. */
  datatype State = State(
    now: Time,
    endpoints: map<EndpointId, Endpoint>,
    events: map<EventId, Event>,
    deliveries: map<DeliveryId, Delivery>,
    attempts: seq<Attempt>,
    deadLetters: map<DeliveryId, Time>,
    issued: map<Token, Job>)

  const EMPTY: State := State(0, map[], map[], map[], [], map[], map[])

  // ---------------------------------------------------------------- queries

  predicate DueRow(row: Delivery, now: Time) {
    || (row.status.Waiting() && row.nextAttemptAt <= now)
    || (row.status.Processing? && row.leaseUntil.Some? && row.leaseUntil.value < now)
  }

  predicate Due(s: State, d: DeliveryId) {
    d in s.deliveries && DueRow(s.deliveries[d], s.now)
  }

  /** ORDER BY next_attempt_at, id */
  predicate Before(x: Time, a: DeliveryId, y: Time, b: DeliveryId) {
    x < y || (x == y && a < b)
  }

  predicate Ahead(s: State, a: DeliveryId, b: DeliveryId)
    requires a in s.deliveries && b in s.deliveries
  {
    Before(s.deliveries[a].nextAttemptAt, a, s.deliveries[b].nextAttemptAt, b)
  }

  ghost predicate FirstDue(s: State, d: DeliveryId) {
    Due(s, d) && forall x :: x in s.deliveries && x != d && Due(s, x) ==> Ahead(s, d, x)
  }

  ghost predicate NothingDue(s: State) {
    forall x :: x in s.deliveries ==> !Due(s, x)
  }

  /** The WHERE clause of Defer and of Finish's SELECT ... FOR UPDATE. */
  predicate Owns(s: State, j: Job) {
    && j.id in s.deliveries
    && s.deliveries[j.id].leaseToken == Some(j.token)
    && s.deliveries[j.id].status == Processing
  }

  /** UNIQUE(delivery_id, generation, attempt) would refuse this job's attempt. */
  predicate KeyTaken(s: State, j: Job) {
    exists a :: a in s.attempts && KeyOf(a) == JobKey(j)
  }

  function KeyOf(a: Attempt): (DeliveryId, nat, nat) {
    (a.delivery, a.row.generation, a.row.attempt)
  }

  function JobKey(j: Job): (DeliveryId, nat, nat) {
    (j.id, j.generation, j.attempt)
  }

  ghost predicate Matches(s: State, e: EventId, project: ProjectId, externalId: nat) {
    e in s.events && s.events[e].project == project && s.events[e].externalId == externalId
  }

  ghost predicate Known(s: State, project: ProjectId, externalId: nat) {
    exists e :: Matches(s, e, project, externalId)
  }

  ghost function LiveEndpoints(s: State, project: ProjectId): set<EndpointId> {
    set ep | ep in s.endpoints && s.endpoints[ep].project == project && s.endpoints[ep].Live()
  }

  predicate Replayable(s: State, d: DeliveryId) {
    && d in s.deliveries
    && s.deliveries[d].status == Dead
    && s.deliveries[d].endpoint in s.endpoints
    && s.endpoints[s.deliveries[d].endpoint].Live()
  }

  /** The schema: foreign keys, CHECK and UNIQUE constraints, and where tokens come from. */
  ghost predicate Schema(s: State) {
    && DeliveriesOk(s)
    && OnePerEndpoint(s)
    && PoliciesOk(s)
    && EventsOk(s)
    && AttemptsOk(s)
    && KeysOk(s.attempts)
    && s.deadLetters.Keys <= s.deliveries.Keys
    && IssuedOk(s)
  }

  ghost predicate References(s: State, row: Delivery) {
    && row.event in s.events
    && row.endpoint in s.endpoints
    && s.events[row.event].project == s.endpoints[row.endpoint].project
  }

  ghost predicate DeliveriesOk(s: State) {
    forall d :: d in s.deliveries ==> References(s, s.deliveries[d])
  }

  ghost predicate SameTarget(s: State, d: DeliveryId, x: DeliveryId)
    requires d in s.deliveries && x in s.deliveries
  {
    s.deliveries[d].event == s.deliveries[x].event && s.deliveries[d].endpoint == s.deliveries[x].endpoint
  }

  /** UNIQUE(event_id, endpoint_id) */
  ghost predicate OnePerEndpoint(s: State) {
    forall d, x :: d in s.deliveries && x in s.deliveries && SameTarget(s, d, x) ==> d == x
  }

  ghost predicate PoliciesOk(s: State) {
    forall ep :: ep in s.endpoints ==> s.endpoints[ep].policy.Valid()
  }

  /** UNIQUE(project_id, event_id) */
  ghost predicate EventsOk(s: State) {
    forall e, f ::
      e in s.events && f in s.events && Matches(s, f, s.events[e].project, s.events[e].externalId) ==> e == f
  }

  ghost predicate AttemptOk(s: State, a: Attempt) {
    && a.delivery in s.deliveries
    && a.token in s.issued
    && KeyOf(a) == JobKey(s.issued[a.token])
    && a.row.entry.policy == s.issued[a.token].policy
  }

  /** UNIQUE(delivery_id, generation, attempt) */
  ghost predicate KeysOk(attempts: seq<Attempt>) {
    forall i, k :: 0 <= i < k < |attempts| ==> KeyOf(attempts[i]) != KeyOf(attempts[k])
  }

  ghost predicate AttemptsOk(s: State) {
    forall a :: a in s.attempts ==> AttemptOk(s, a)
  }

  ghost predicate JobOk(s: State, t: Token, j: Job) {
    j.token == t && j.id in s.deliveries && j.policy.Valid()
  }

  ghost predicate IssuedOk(s: State) {
    forall t :: t in s.issued ==> JobOk(s, t, s.issued[t])
  }

  // ---------------------------------------------------------------- row updates

  function NewRow(event: EventId, endpoint: EndpointId, now: Time): Delivery {
    Delivery(event, endpoint, Pending, 0, 0, now, None, None, now)
  }

  function ClaimRow(row: Delivery, token: Token, lease: nat, now: Time): Delivery {
    row.(status := Processing, leaseUntil := Some(now + lease), leaseToken := Some(token), updatedAt := now)
  }

  /** Defer's UPDATE, and Finish's once attempt_count is set. */
  function ReleaseRow(row: Delivery, status: Status, delay: Time, now: Time): Delivery {
    row.(status := status, nextAttemptAt := now + delay, leaseToken := None, leaseUntil := None, updatedAt := now)
  }

  function ReplayRow(row: Delivery, now: Time): Delivery {
    row.(status := Pending, attemptCount := 0, generation := row.generation + 1, nextAttemptAt := now,
         leaseUntil := None, leaseToken := None, updatedAt := now)
  }

  function JobFor(d: DeliveryId, token: Token, row: Delivery, ep: Endpoint): Job {
    Job(d, token, row.endpoint, row.attemptCount + 1, row.generation, ep.policy, ep.Live())
  }

  /** The status Finish writes for a response code. */
  function Verdict(code: int, attempt: nat, limit: int): Status {
    if Success(code) then Succeeded
    else if Retryable(code) && attempt < limit then Retrying
    else Dead
  }

  function RetryDelay(j: Job, code: int, draw: int): Time {
    if Verdict(code, j.attempt, j.policy.maxAttempts) == Retrying
    then Ceiling(j.attempt, j.policy.baseDelay) / 2 + draw
    else 0
  }

  /** Finish's INSERT and UPDATE. */
  function AttemptOf(j: Job, code: int, now: Time): Attempt {
    Attempt(j.id, Row(j.generation, j.attempt, Entry(code, now, j.policy)), j.token)
  }

  function FinishRow(row: Delivery, j: Job, code: int, draw: int, now: Time): Delivery {
    ReleaseRow(row, Verdict(code, j.attempt, j.policy.maxAttempts), RetryDelay(j, code, draw), now)
    .(attemptCount := j.attempt)
  }

  // ---------------------------------------------------------------- what a worker does with a job

  datatype Action = Leave | Postpone(status: Status, delay: Time) | Report(code: int)

  /** Everything process learns from outside: cancellation, limiter, decryption, response. */
  datatype Surroundings = Surroundings(
    stopped: bool, limiterFailed: bool, allowed: bool, decrypted: bool, response: Option<int>, stoppedMeanwhile: bool)

  /** The decision structure of process. */
  function Decide(active: bool, env: Surroundings): Action {
    if env.stopped then Leave
    else if !active then Postpone(Cancelled, 0)
    else if env.limiterFailed || !env.allowed then Postpone(Retrying, SECOND)
    else if !env.decrypted then Postpone(Retrying, MINUTE)
    else if env.stoppedMeanwhile then Leave
    else Report(if env.response.Some? then env.response.value else 0)
  }

  /** The actions open to a worker that holds a job with this Active flag. */
  predicate Chooses(active: bool, a: Action) {
    match a
    case Leave => true
    case Postpone(status, delay) =>
      if active then status == Retrying && (delay == SECOND || delay == MINUTE) else status == Cancelled && delay == 0
    case Report(_) => active
  }

  /** Chooses is exactly what process can decide, whatever it meets. */
  lemma ChoosesIffDecided(active: bool, a: Action)
    ensures Chooses(active, a) <==> exists env :: Decide(active, env) == a
  {
    if Chooses(active, a) {
      var env :=
        match a
        case Leave => Surroundings(true, false, true, true, None, false)
        case Postpone(_, delay) => Surroundings(false, false, delay != SECOND, false, None, false)
        case Report(code) => Surroundings(false, false, true, true, Some(code), false);
      assert Decide(active, env) == a;
    }
  }

  // ---------------------------------------------------------------- steps

  datatype Step =
    | Tick(to: Time)
    | CreateEndpoint(ep: EndpointId, project: ProjectId, active: bool, policy: Policy)
    | UpdateEndpoint(ep: EndpointId, active: bool, policy: Policy)
    | DeleteEndpoint(ep: EndpointId)
    | Ingest(project: ProjectId, externalId: nat, hash: nat, newId: EventId, ids: map<DeliveryId, EndpointId>)
    | Claim(token: Token, found: Option<DeliveryId>)
    | Defer(job: Job, status: Status, delay: Time)
    | Finish(job: Job, code: int, draw: int)
    | Replay(id: DeliveryId)

  /**
   A crash is the absence of further steps by a job's holder. UpdateEndpoint's
   final UPDATE does not look at deleted_at, so a racing update may hit a deleted row.
   That a claimed row joins with its endpoint is the foreign key, kept by SchemaKept.
   */
  ghost predicate Enabled(s: State, step: Step) {
    match step
    case Tick(to) => s.now <= to
    case CreateEndpoint(ep, _, _, policy) => ep !in s.endpoints && policy.Valid()
    case UpdateEndpoint(ep, _, policy) => ep in s.endpoints && policy.Valid()
    case DeleteEndpoint(_) => true
    case Ingest(project, externalId, _, newId, ids) =>
      newId !in s.events && (!Known(s, project, externalId) ==> FanOut(s, project, ids))
    case Claim(token, found) =>
      && token !in s.issued
      && (if found.None? then NothingDue(s)
          else FirstDue(s, found.value) && s.deliveries[found.value].endpoint in s.endpoints)
    case Defer(job, status, delay) =>
      Issued(s, job) && Chooses(job.active, Postpone(status, delay))
    case Finish(job, code, draw) =>
      Issued(s, job) && Chooses(job.active, Report(code)) && 0 <= draw <= Ceiling(job.attempt, job.policy.baseDelay) / 2
    case Replay(_) => true
  }

  predicate Issued(s: State, j: Job) {
    j.token in s.issued && s.issued[j.token] == j
  }

  /** One new delivery id for every endpoint of the project that is live now. */
  ghost predicate FanOut(s: State, project: ProjectId, ids: map<DeliveryId, EndpointId>) {
    && ids.Keys !! s.deliveries.Keys
    && ids.Values == LiveEndpoints(s, project)
    && forall d, x :: d in ids && x in ids && ids[d] == ids[x] ==> d == x
  }

  ghost predicate Accepted(s: State, step: Step)
    requires step.Finish? || step.Defer?
  {
    Owns(s, step.job) && (step.Finish? ==> !KeyTaken(s, step.job))
  }

  ghost function Apply(lease: nat, s: State, step: Step): State
    requires Enabled(s, step)
  {
    match step
    case Tick(to) => s.(now := to)
    case CreateEndpoint(ep, project, active, policy) =>
      s.(endpoints := s.endpoints[ep := Endpoint(project, active, policy, None)])
    case UpdateEndpoint(ep, active, policy) =>
      s.(endpoints := s.endpoints[ep := s.endpoints[ep].(active := active, policy := policy)])
    case DeleteEndpoint(ep) =>
      if ep in s.endpoints && s.endpoints[ep].deletedAt.None?
      then s.(endpoints := s.endpoints[ep := s.endpoints[ep].(active := false, deletedAt := Some(s.now))])
      else s
    case Ingest(project, externalId, hash, newId, ids) =>
      if Known(s, project, externalId) then s else Insert(s, project, externalId, hash, newId, ids)
    case Claim(token, found) =>
      if found.None? then s else ClaimState(lease, s, token, found.value)
    case Defer(job, status, delay) => if Owns(s, job) then DeferState(s, job, status, delay) else s
    case Finish(job, code, draw) => if Owns(s, job) && !KeyTaken(s, job) then FinishState(s, job, code, draw) else s
    case Replay(d) =>
      if Replayable(s, d)
      then s.(deliveries := s.deliveries[d := ReplayRow(s.deliveries[d], s.now)], deadLetters := s.deadLetters - {d})
      else s
  }

  function Insert(
    s: State, project: ProjectId, externalId: nat, hash: nat, newId: EventId, ids: map<DeliveryId, EndpointId>): State
  {
    s.(events := s.events[newId := Event(project, externalId, hash)],
       deliveries := s.deliveries + map d | d in ids :: NewRow(newId, ids[d], s.now))
  }

  function ClaimState(lease: nat, s: State, token: Token, d: DeliveryId): State
    requires d in s.deliveries && s.deliveries[d].endpoint in s.endpoints
  {
    var row := s.deliveries[d];
    s.(deliveries := s.deliveries[d := ClaimRow(row, token, lease, s.now)],
       issued := s.issued[token := JobFor(d, token, row, s.endpoints[row.endpoint])])
  }

  function DeferState(s: State, j: Job, status: Status, delay: Time): State
    requires j.id in s.deliveries
  {
    s.(deliveries := s.deliveries[j.id := ReleaseRow(s.deliveries[j.id], status, delay, s.now)])
  }

  function FinishState(s: State, j: Job, code: int, draw: int): State
    requires j.id in s.deliveries
  {
    var status := Verdict(code, j.attempt, j.policy.maxAttempts);
    s.(attempts := s.attempts + [AttemptOf(j, code, s.now)],
       deliveries := s.deliveries[j.id := FinishRow(s.deliveries[j.id], j, code, draw, s.now)],
       deadLetters := if status == Dead then s.deadLetters[j.id := s.now] else s.deadLetters)
  }

  ghost predicate Next(lease: nat, s: State, step: Step, s': State) {
    Enabled(s, step) && s' == Apply(lease, s, step)
  }

  ghost predicate StepAt(lease: nat, ss: seq<State>, steps: seq<Step>, i: nat)
    requires |ss| == |steps| + 1 && i < |steps|
  {
    Next(lease, ss[i], steps[i], ss[i + 1])
  }

  /** ss[i+1] is the state after steps[i]; the tables start empty. */
  ghost predicate Run(lease: nat, ss: seq<State>, steps: seq<Step>) {
    && |ss| == |steps| + 1
    && ss[0] == EMPTY
    && forall i :: 0 <= i < |steps| ==> StepAt(lease, ss, steps, i)
  }

  // ---------------------------------------------------------------- the schema is never violated

  /** The delivery whose row a step rewrites. */
  ghost function Target(s: State, step: Step): Option<DeliveryId> {
    match step
    case Claim(_, found) => found
    case Defer(j, _, _) => if Owns(s, j) then Some(j.id) else None
    case Finish(j, _, _) => if Owns(s, j) && !KeyTaken(s, j) then Some(j.id) else None
    case Replay(d) => if Replayable(s, d) then Some(d) else None
    case _ => None
  }

  ghost predicate Inserts(s: State, step: Step) {
    step.Ingest? && !Known(s, step.project, step.externalId)
  }

  /** No step but an accepted ingest adds a row, and none rewrites a row other than its target. */
  lemma OnlyTargetChanges(lease: nat, s: State, step: Step, s': State)
    requires Next(lease, s, step, s') && !Inserts(s, step)
    ensures s'.events == s.events
    ensures s'.deliveries.Keys == s.deliveries.Keys
    ensures forall d :: d in s.deliveries && Target(s, step) != Some(d) ==> s'.deliveries[d] == s.deliveries[d]
    ensures Target(s, step).Some? ==>
              var d := Target(s, step).value;
              d in s.deliveries && SameEnds(s.deliveries[d], s'.deliveries[d])
  {
  }

  /** The history is append-only, and only an accepted completion appends to it. */
  lemma AttemptsStep(lease: nat, s: State, step: Step, s': State)
    requires Next(lease, s, step, s')
    ensures s'.attempts ==
            s.attempts + if step.Finish? && Accepted(s, step) then [AttemptOf(step.job, step.code, s.now)] else []
  {
  }

  predicate SameEnds(a: Delivery, b: Delivery) {
    a.event == b.event && a.endpoint == b.endpoint
  }

  lemma EndpointsStay(lease: nat, s: State, step: Step, s': State)
    requires Next(lease, s, step, s')
    ensures forall ep :: ep in s.endpoints ==> ep in s'.endpoints && s'.endpoints[ep].project == s.endpoints[ep].project
  {
  }

  /** All steps but an accepted ingest leave the events, the delivery keys and their targets alone. */
  ghost predicate SameShape(s: State, s': State) {
    && s'.events == s.events
    && s'.deliveries.Keys == s.deliveries.Keys
    && (forall d :: d in s.deliveries ==> SameEnds(s.deliveries[d], s'.deliveries[d]))
    && (forall ep :: ep in s.endpoints ==> ep in s'.endpoints && s'.endpoints[ep].project == s.endpoints[ep].project)
  }

  lemma ShapeKept(lease: nat, s: State, step: Step, s': State)
    requires Next(lease, s, step, s') && !Inserts(s, step)
    ensures SameShape(s, s')
  {
    OnlyTargetChanges(lease, s, step, s');
    EndpointsStay(lease, s, step, s');
  }

  lemma IssuedGrow(lease: nat, s: State, step: Step, s': State)
    requires Next(lease, s, step, s')
    ensures forall t :: t in s.issued ==> t in s'.issued && s'.issued[t] == s.issued[t]
    ensures forall t :: t in s'.issued && t !in s.issued ==>
              && step.Claim? && step.found.Some? && t == step.token
              && var row := s.deliveries[step.found.value];
                 s'.issued[t] == JobFor(step.found.value, t, row, s.endpoints[row.endpoint])
  {
  }

  lemma ShapeKeepsKeys(s: State, s': State)
    requires SameShape(s, s') && DeliveriesOk(s) && OnePerEndpoint(s) && EventsOk(s)
    ensures DeliveriesOk(s') && OnePerEndpoint(s') && EventsOk(s')
  {
  }

  lemma StepKeepsPolicies(lease: nat, s: State, step: Step, s': State)
    requires Next(lease, s, step, s') && PoliciesOk(s)
    ensures PoliciesOk(s')
  {
  }

  lemma StepKeepsIssued(lease: nat, s: State, step: Step, s': State)
    requires Next(lease, s, step, s') && s.deliveries.Keys <= s'.deliveries.Keys
    requires IssuedOk(s) && PoliciesOk(s)
    ensures IssuedOk(s')
  {
  }

  lemma StepKeepsAttempts(lease: nat, s: State, step: Step, s': State)
    requires Next(lease, s, step, s') && s.deliveries.Keys <= s'.deliveries.Keys && AttemptsOk(s)
    ensures AttemptsOk(s')
  {
    AttemptsStep(lease, s, step, s');
    IssuedGrow(lease, s, step, s');
    forall a | a in s'.attempts ensures AttemptOk(s', a) {
      if a in s.attempts {
        assert AttemptOk(s, a);
      }
    }
  }

  lemma StepKeepsKeys(lease: nat, s: State, step: Step, s': State)
    requires Next(lease, s, step, s') && KeysOk(s.attempts)
    ensures KeysOk(s'.attempts)
  {
    AttemptsStep(lease, s, step, s');
    assert forall i :: 0 <= i < |s.attempts| ==> s.attempts[i] in s.attempts;
  }

  lemma StepKeepsDeadLetters(lease: nat, s: State, step: Step, s': State)
    requires Next(lease, s, step, s') && s.deliveries.Keys <= s'.deliveries.Keys
    requires s.deadLetters.Keys <= s.deliveries.Keys
    ensures s'.deadLetters.Keys <= s'.deliveries.Keys
  {
  }

  lemma SchemaKept(lease: nat, s: State, step: Step, s': State)
    requires Next(lease, s, step, s') && Schema(s)
    ensures Schema(s')
    ensures s.deliveries.Keys <= s'.deliveries.Keys
  {
    if Inserts(s, step) {
      IngestKeepsKeys(s, step.project, step.externalId, step.hash, step.newId, step.ids);
    } else {
      ShapeKept(lease, s, step, s');
      ShapeKeepsKeys(s, s');
    }
    StepKeepsPolicies(lease, s, step, s');
    StepKeepsIssued(lease, s, step, s');
    StepKeepsAttempts(lease, s, step, s');
    StepKeepsKeys(lease, s, step, s');
    StepKeepsDeadLetters(lease, s, step, s');
  }

  lemma IngestKeepsKeys(
    s: State, project: ProjectId, externalId: nat, hash: nat, newId: EventId, ids: map<DeliveryId, EndpointId>)
    requires DeliveriesOk(s) && OnePerEndpoint(s) && EventsOk(s)
    requires newId !in s.events && !Known(s, project, externalId) && FanOut(s, project, ids)
    ensures var s' := Insert(s, project, externalId, hash, newId, ids);
            DeliveriesOk(s') && OnePerEndpoint(s') && EventsOk(s')
  {
    var s' := Insert(s, project, externalId, hash, newId, ids);
    forall d | d in s'.deliveries ensures References(s', s'.deliveries[d]) {
      if d in ids {
        assert ids[d] in ids.Values;
      } else {
        assert References(s, s.deliveries[d]);
      }
    }
    forall d, x | d in s'.deliveries && x in s'.deliveries && SameTarget(s', d, x) ensures d == x {
      if d in s.deliveries {
        assert References(s, s.deliveries[d]);
      }
      if x in s.deliveries {
        assert References(s, s.deliveries[x]);
      }
      assert d in s.deliveries && x in s.deliveries ==> SameTarget(s, d, x);
    }
    forall e, f | e in s'.events && f in s'.events && Matches(s', f, s'.events[e].project, s'.events[e].externalId)
      ensures e == f
    {
      if e != newId && f != newId {
        assert Matches(s, f, s.events[e].project, s.events[e].externalId);
      } else if e != f {
        var other := if e == newId then f else e;
        assert Matches(s, other, project, externalId);
      }
    }
  }

  lemma {:induction false} RunKeepsSchema(lease: nat, ss: seq<State>, steps: seq<Step>, i: nat)
    requires Run(lease, ss, steps) && i <= |steps|
    ensures Schema(ss[i])
  {
    if i == 0 {
    } else {
      RunKeepsSchema(lease, ss, steps, i - 1);
      assert StepAt(lease, ss, steps, i - 1);
      SchemaKept(lease, ss[i - 1], steps[i - 1], ss[i]);
    }
  }
}
