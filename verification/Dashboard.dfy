/**
 The aggregates of the dashboard, for any set of projects the filter selects.
 */
module Dashboard {
  import opened Retry
  import opened Tables

  function CountAttempts(attempts: seq<Attempt>, ds: set<DeliveryId>): nat {
    if attempts == [] then 0
    else
      var last := attempts[|attempts| - 1];
      CountAttempts(attempts[..|attempts| - 1], ds) + if last.delivery in ds then 1 else 0
  }

  function CountFailed(attempts: seq<Attempt>, ds: set<DeliveryId>): nat {
    if attempts == [] then 0
    else
      var last := attempts[|attempts| - 1];
      CountFailed(attempts[..|attempts| - 1], ds)
      + if last.delivery in ds && (last.row.entry.code < 200 || last.row.entry.code >= 300) then 1 else 0
  }

  ghost function Selected(s: State, projects: set<ProjectId>): set<DeliveryId> {
    set d |
      d in s.deliveries && s.deliveries[d].event in s.events && s.events[s.deliveries[d].event].project in projects
  }

  ghost function WithStatus(s: State, ds: set<DeliveryId>, status: Status): set<DeliveryId> {
    set d | d in ds && d in s.deliveries && s.deliveries[d].status == status
  }

  /** deliveries_attempted, succeeded and failed. */
  datatype Figures = Figures(attempted: nat, succeeded: nat, failed: nat)

  ghost function Dashboard(s: State, projects: set<ProjectId>): Figures {
    var ds := Selected(s, projects);
    Figures(CountAttempts(s.attempts, ds), |WithStatus(s, ds, Succeeded)|, CountFailed(s.attempts, ds))
  }

  /** The delivery, if any, that the step turns from processing into succeeded. */
  ghost function Winner(s: State, step: Step): set<DeliveryId> {
    if step.Finish? && Accepted(s, step) && Success(step.code) then {step.job.id} else {}
  }

  lemma SucceededGrows(lease: nat, s: State, step: Step, s': State, ds: set<DeliveryId>)
    requires Next(lease, s, step, s')
    ensures WithStatus(s', ds, Succeeded) == WithStatus(s, ds, Succeeded) + (Winner(s, step) * ds)
    ensures WithStatus(s, ds, Succeeded) !! Winner(s, step)
  {
    forall d | d in ds
      ensures d in WithStatus(s', ds, Succeeded) <==> d in WithStatus(s, ds, Succeeded) || d in Winner(s, step)
    {
      SucceededStep(lease, s, step, s', d);
    }
  }

  lemma SucceededStep(lease: nat, s: State, step: Step, s': State, d: DeliveryId)
    requires Next(lease, s, step, s')
    ensures (d in s'.deliveries && s'.deliveries[d].status.Succeeded?) <==>
            (d in s.deliveries && s.deliveries[d].status.Succeeded?) || d in Winner(s, step)
  {
    if !Inserts(s, step) {
      OnlyTargetChanges(lease, s, step, s');
    }
  }

  lemma CountsAppend(attempts: seq<Attempt>, a: Attempt, ds: set<DeliveryId>)
    ensures CountAttempts(attempts + [a], ds) == CountAttempts(attempts, ds) + if a.delivery in ds then 1 else 0
    ensures CountFailed(attempts + [a], ds) ==
            CountFailed(attempts, ds) + if a.delivery in ds && !Success(a.row.entry.code) then 1 else 0
  {
  }

  lemma WinnersIn(s: State, step: Step, ds: set<DeliveryId>)
    ensures |Winner(s, step) * ds| ==
            if step.Finish? && Accepted(s, step) && Success(step.code) && step.job.id in ds then 1 else 0
  {
    assert Winner(s, step) * ds == if step.Finish? && step.job.id in ds then Winner(s, step) else {};
  }

  lemma CountsStep(lease: nat, s: State, step: Step, s': State, ds: set<DeliveryId>)
    requires Next(lease, s, step, s')
    ensures CountAttempts(s'.attempts, ds) - CountFailed(s'.attempts, ds) ==
            CountAttempts(s.attempts, ds) - CountFailed(s.attempts, ds) + |Winner(s, step) * ds|
  {
    AttemptsStep(lease, s, step, s');
    WinnersIn(s, step, ds);
    if step.Finish? && Accepted(s, step) {
      CountsAppend(s.attempts, AttemptOf(step.job, step.code, s.now), ds);
    }
  }

  /** For any fixed set of deliveries, successes and 2xx attempts are in balance. */
  lemma {:induction false} SuccessesBalance(lease: nat, ss: seq<State>, steps: seq<Step>, i: nat, ds: set<DeliveryId>)
    requires Run(lease, ss, steps) && i <= |steps|
    ensures |WithStatus(ss[i], ds, Succeeded)| == CountAttempts(ss[i].attempts, ds) - CountFailed(ss[i].attempts, ds)
  {
    if i > 0 {
      var p := i - 1;
      SuccessesBalance(lease, ss, steps, p, ds);
      assert StepAt(lease, ss, steps, p);
      SucceededGrows(lease, ss[p], steps[p], ss[i], ds);
      CountsStep(lease, ss[p], steps[p], ss[i], ds);
    } else {
      assert WithStatus(ss[0], ds, Succeeded) == {};
    }
  }

  /** In every reachable state and for every filter: succeeded = deliveries_attempted - failed. */
  lemma DashboardConservation(lease: nat, ss: seq<State>, steps: seq<Step>, i: nat, projects: set<ProjectId>)
    requires Run(lease, ss, steps) && i <= |steps|
    ensures var f := Dashboard(ss[i], projects); f.succeeded == f.attempted - f.failed
  {
    SuccessesBalance(lease, ss, steps, i, Selected(ss[i], projects));
  }

  // ---------------------------------------------------------------- what the figures count

  /** The attempts whose delivery goes to an endpoint of the selected projects. */
  ghost function AttemptsFor(s: State, projects: set<ProjectId>, failedOnly: bool): set<nat> {
    set i: nat | i < |s.attempts| && GoesTo(s, s.attempts[i].delivery, projects)
                 && (failedOnly ==> !(200 <= s.attempts[i].row.entry.code < 300))
  }

  ghost predicate GoesTo(s: State, d: DeliveryId, projects: set<ProjectId>) {
    && d in s.deliveries && s.deliveries[d].endpoint in s.endpoints
    && s.endpoints[s.deliveries[d].endpoint].project in projects
  }

  ghost function Chosen(attempts: seq<Attempt>, ds: set<DeliveryId>, failedOnly: bool): set<nat> {
    set i: nat | i < |attempts| && attempts[i].delivery in ds
                 && (failedOnly ==> !(200 <= attempts[i].row.entry.code < 300))
  }

  lemma {:induction false} CountsAreSizes(attempts: seq<Attempt>, ds: set<DeliveryId>)
    ensures CountAttempts(attempts, ds) == |Chosen(attempts, ds, false)|
    ensures CountFailed(attempts, ds) == |Chosen(attempts, ds, true)|
  {
    if attempts == [] {
    } else {
      var n := |attempts| - 1;
      CountsAreSizes(attempts[..n], ds);
      ChosenOfPrefix(attempts, ds, false);
      ChosenOfPrefix(attempts, ds, true);
    }
  }

  lemma ChosenOfPrefix(attempts: seq<Attempt>, ds: set<DeliveryId>, failedOnly: bool)
    requires attempts != []
    ensures var n := |attempts| - 1;
            var last := attempts[n];
            |Chosen(attempts, ds, failedOnly)| == |Chosen(attempts[..n], ds, failedOnly)| +
              if last.delivery in ds && (failedOnly ==> !(200 <= last.row.entry.code < 300)) then 1 else 0
  {
    var n := |attempts| - 1;
    assert Chosen(attempts, ds, failedOnly) - {n} == Chosen(attempts[..n], ds, failedOnly);
    assert n !in Chosen(attempts[..n], ds, failedOnly);
  }

  /** A delivery's event and its endpoint belong to one project. */
  lemma SelectedByEndpoint(s: State, projects: set<ProjectId>, d: DeliveryId)
    requires Schema(s)
    ensures d in Selected(s, projects) <==> GoesTo(s, d, projects)
  {
    if d in s.deliveries {
      assert References(s, s.deliveries[d]);
    }
  }

  /**
   The figures are plain counts: of the attempts that go to endpoints of the selected
   projects, of those among them outside 2xx, and of the succeeded deliveries there.
   */
  lemma FiguresAreCounts(lease: nat, ss: seq<State>, steps: seq<Step>, i: nat, projects: set<ProjectId>)
    requires Run(lease, ss, steps) && i <= |steps|
    ensures var s, f := ss[i], Dashboard(ss[i], projects);
            && f.attempted == |AttemptsFor(s, projects, false)|
            && f.failed == |AttemptsFor(s, projects, true)|
            && f.succeeded ==
               |set d | d in s.deliveries && GoesTo(s, d, projects) && s.deliveries[d].status == Succeeded|
  {
    var s := ss[i];
    var ds := Selected(s, projects);
    RunKeepsSchema(lease, ss, steps, i);
    CountsAreSizes(s.attempts, ds);
    forall d ensures d in ds <==> GoesTo(s, d, projects) {
      SelectedByEndpoint(s, projects, d);
    }
    assert Chosen(s.attempts, ds, false) == AttemptsFor(s, projects, false);
    assert Chosen(s.attempts, ds, true) == AttemptsFor(s, projects, true);
    assert WithStatus(s, ds, Succeeded) ==
           set d | d in s.deliveries && GoesTo(s, d, projects) && s.deliveries[d].status == Succeeded;
  }
}
