/**
 Worker.Run: one dispatcher, n worker goroutines, a channel of n jobs and a
 semaphore of n slots, as small steps that interleave freely. Each program
 counter names the next operation on a channel, on the queue or on the context.
 */
module Pool {
  import opened Common

  /** A job is the number of the claim it came from. */
  type Job = nat

  datatype Dispatcher =
    | Select                 // waits for a free slot or for cancellation
    | Claiming               // holds a slot and asks the queue for a job
    | Failed                 // must give the slot back: there was no job
    | Waiting                // waits for the ticker or for cancellation
    | Sending(job: Job)      // passes the job on, or sees the cancellation
    | Dropping(job: Job)     // must give the slot back before returning
    | Closing                // about to close the channel
    | Joining                // waits for the workers
    | Returned

  datatype Worker =
    | Receiving              // waits for a job or for the channel to close
    | Busy(job: Job)         // processing
    | Releasing              // must give its slot back
    | Exited

  /** ticked says that the ticker's channel holds a tick; claimed, handed, finished and dropped record every job
      claimed, passed to process, done with, or given up. */
  datatype Pool = Pool(
    n: nat, dispatcher: Dispatcher, workers: seq<Worker>, buffer: seq<Job>, slots: nat,
    ticked: bool, closed: bool, cancelled: bool,
    claimed: seq<Job>, handed: seq<Job>, finished: seq<Job>, dropped: seq<Job>)

  datatype Move =
    | Cancel
    | SeeDone                // a select picks the cancelled context
    | Acquire
    | ClaimOk(job: Job)
    | ClaimError
    | GiveBack               // the dispatcher returns its slot
    | Fire                   // the poll interval has passed
    | Tick
    | Send
    | Close
    | Join
    | Receive(i: nat)
    | Finish(i: nat)
    | Release(i: nat)
    | Exit(i: nat)

  function Start(n: nat): Pool {
    Pool(n, Select, seq(n, _ => Receiving), [], 0, false, false, false, [], [], [], [])
  }

  predicate Enabled(p: Pool, m: Move) {
    match m
    case Cancel => !p.cancelled
    case SeeDone => p.cancelled && (p.dispatcher.Select? || p.dispatcher.Waiting? || p.dispatcher.Sending?)
    case Acquire => p.dispatcher.Select? && p.slots < p.n
    case ClaimOk(_) => p.dispatcher.Claiming?
    case ClaimError => p.dispatcher.Claiming?
    case GiveBack => (p.dispatcher.Failed? || p.dispatcher.Dropping?) && p.slots > 0
    case Fire => !p.ticked && !ShuttingDown(p.dispatcher)
    case Tick => p.dispatcher.Waiting? && p.ticked
    case Send => p.dispatcher.Sending? && |p.buffer| < p.n && !p.closed
    case Close => p.dispatcher.Closing? && !p.closed
    case Join => p.dispatcher.Joining? && forall i :: 0 <= i < |p.workers| ==> p.workers[i].Exited?
    case Receive(i) => i < |p.workers| && p.workers[i].Receiving? && p.buffer != []
    case Finish(i) => i < |p.workers| && p.workers[i].Busy?
    case Release(i) => i < |p.workers| && p.workers[i].Releasing? && p.slots > 0
    case Exit(i) => i < |p.workers| && p.workers[i].Receiving? && p.closed && p.buffer == []
  }

  function Apply(p: Pool, m: Move): Pool
    requires Enabled(p, m)
  {
    match m
    case Cancel => p.(cancelled := true)
    case SeeDone => p.(dispatcher := if p.dispatcher.Sending? then Dropping(p.dispatcher.job) else Closing)
    case Acquire => p.(dispatcher := Claiming, slots := p.slots + 1)
    case ClaimOk(j) => p.(dispatcher := Sending(j), claimed := p.claimed + [j])
    case ClaimError => p.(dispatcher := Failed)
    case GiveBack =>
      if p.dispatcher.Failed? then p.(dispatcher := Waiting, slots := p.slots - 1)
      else p.(dispatcher := Closing, slots := p.slots - 1, dropped := p.dropped + [p.dispatcher.job])
    case Fire => p.(ticked := true)
    case Tick => p.(dispatcher := Select, ticked := false)
    case Send => p.(dispatcher := Select, buffer := p.buffer + [p.dispatcher.job])
    case Close => p.(dispatcher := Joining, closed := true)
    case Join => p.(dispatcher := Returned)
    case Receive(i) =>
      p.(workers := p.workers[i := Busy(p.buffer[0])], buffer := p.buffer[1..], handed := p.handed + [p.buffer[0]])
    case Finish(i) => p.(workers := p.workers[i := Releasing], finished := p.finished + [p.workers[i].job])
    case Release(i) => p.(workers := p.workers[i := Receiving], slots := p.slots - 1)
    case Exit(i) => p.(workers := p.workers[i := Exited])
  }

  /** One operation: either the move, which must be enabled, or a wait that changes nothing. */
  predicate Performs(p: Pool, m: Option<Move>, p': Pool) {
    if m.None? then p' == p else Enabled(p, m.value) && p' == Apply(p, m.value)
  }

  ghost predicate Run(n: nat, ps: seq<Pool>, ms: seq<Move>) {
    && |ps| == |ms| + 1
    && ps[0] == Start(n)
    && forall i :: 0 <= i < |ms| ==> StepAt(ps, ms, i)
  }

  predicate StepAt(ps: seq<Pool>, ms: seq<Move>, i: nat)
    requires i < |ms| < |ps|
  {
    Enabled(ps[i], ms[i]) && ps[i + 1] == Apply(ps[i], ms[i])
  }

  // ---------------------------------------------------------------- counting workers

  function Weight(w: Worker): nat {
    match w
    case Receiving => 1
    case Busy(_) => 3
    case Releasing => 2
    case Exited => 0
  }

  function BusyIn(ws: seq<Worker>): nat {
    if ws == [] then 0
    else BusyIn(ws[..|ws| - 1]) + if ws[|ws| - 1].Busy? || ws[|ws| - 1].Releasing? then 1 else 0
  }

  function ReadyIn(ws: seq<Worker>): nat {
    if ws == [] then 0 else ReadyIn(ws[..|ws| - 1]) + if ws[|ws| - 1].Receiving? then 1 else 0
  }

  function WeightOf(ws: seq<Worker>): nat {
    if ws == [] then 0 else WeightOf(ws[..|ws| - 1]) + Weight(ws[|ws| - 1])
  }

  lemma {:induction false} CountsAfterUpdate(ws: seq<Worker>, i: nat, w: Worker)
    requires i < |ws|
    ensures BusyIn(ws[i := w]) - BusyIn(ws) ==
            (if w.Busy? || w.Releasing? then 1 else 0) - (if ws[i].Busy? || ws[i].Releasing? then 1 else 0)
    ensures WeightOf(ws[i := w]) - WeightOf(ws) == Weight(w) - Weight(ws[i])
  {
    var n := |ws| - 1;
    if i == n {
      assert ws[i := w][..n] == ws[..n];
    } else {
      CountsAfterUpdate(ws[..n], i, w);
      assert ws[i := w][..n] == ws[..n][i := w];
    }
  }

  /** How many workers are at work on job j. */
  function Holding(ws: seq<Worker>, j: Job): nat {
    if ws == [] then 0 else Holding(ws[..|ws| - 1], j) + if ws[|ws| - 1] == Busy(j) then 1 else 0
  }

  lemma {:induction false} HoldingAfterUpdate(ws: seq<Worker>, i: nat, w: Worker, j: Job)
    requires i < |ws|
    ensures Holding(ws[i := w], j) - Holding(ws, j) ==
            (if w == Busy(j) then 1 else 0) - (if ws[i] == Busy(j) then 1 else 0)
  {
    var n := |ws| - 1;
    if i == n {
      assert ws[i := w][..n] == ws[..n];
    } else {
      HoldingAfterUpdate(ws[..n], i, w, j);
      assert ws[i := w][..n] == ws[..n][i := w];
    }
  }

  lemma {:induction false} NoneHeld(ws: seq<Worker>, j: Job)
    requires forall i :: 0 <= i < |ws| ==> !ws[i].Busy?
    ensures Holding(ws, j) == 0
  {
    if ws == [] {
    } else {
      NoneHeld(ws[..|ws| - 1], j);
    }
  }

  lemma {:induction false} CountsOf(ws: seq<Worker>)
    ensures BusyIn(ws) <= |ws| && WeightOf(ws) <= 3 * |ws|
    ensures (forall i :: 0 <= i < |ws| ==> !ws[i].Exited?) ==> BusyIn(ws) + ReadyIn(ws) == |ws|
    ensures BusyIn(ws) > 0 ==> exists i :: 0 <= i < |ws| && (ws[i].Busy? || ws[i].Releasing?)
    ensures ReadyIn(ws) > 0 ==> exists i :: 0 <= i < |ws| && ws[i].Receiving?
    ensures (forall i :: 0 <= i < |ws| ==> ws[i].Exited?) ==> BusyIn(ws) == 0
    ensures (exists i :: 0 <= i < |ws| && (ws[i].Busy? || ws[i].Releasing?)) ==> BusyIn(ws) > 0
  {
    if ws == [] {
    } else {
      var rest := ws[..|ws| - 1];
      CountsOf(rest);
      assert forall i :: 0 <= i < |rest| ==> rest[i] == ws[i];
    }
  }

  lemma {:induction false} AllReceiving(n: nat)
    ensures BusyIn(seq(n, _ => Receiving)) == 0
  {
    if n == 0 {
    } else {
      assert seq(n, _ => Receiving)[..n - 1] == seq(n - 1, _ => Receiving);
      AllReceiving(n - 1);
    }
  }

  // ---------------------------------------------------------------- the invariant

  predicate HoldsSlot(d: Dispatcher) {
    d.Claiming? || d.Failed? || d.Sending? || d.Dropping?
  }

  predicate ShuttingDown(d: Dispatcher) {
    d.Closing? || d.Joining? || d.Returned?
  }

  /** Slots used = buffered jobs + busy workers + (1 if the dispatcher holds a slot). */
  predicate SlotsOk(p: Pool) {
    && |p.workers| == p.n
    && p.slots == |p.buffer| + BusyIn(p.workers) + (if HoldsSlot(p.dispatcher) then 1 else 0)
    && p.slots <= p.n
  }

  function InHand(d: Dispatcher): seq<Job> {
    if d.Sending? || d.Dropping? then [d.job] else []
  }

  /** Every claimed job is, in claim order, handed to process, buffered, in the dispatcher's hand, or dropped. */
  predicate JobsOk(p: Pool) {
    && p.claimed == p.handed + p.buffer + InHand(p.dispatcher) + p.dropped
    && |p.dropped| <= 1
    && (p.dropped != [] ==> ShuttingDown(p.dispatcher))
  }

  /** Every job handed to process is finished or in the hands of the worker that received it. */
  ghost predicate WorkOk(p: Pool) {
    forall j: Job :: JobWorkOk(p, j)
  }

  predicate JobWorkOk(p: Pool, j: Job) {
    multiset(p.handed)[j] == multiset(p.finished)[j] + Holding(p.workers, j)
  }

  ghost predicate PhaseOk(p: Pool) {
    && (p.closed <==> p.dispatcher.Joining? || p.dispatcher.Returned?)
    && (ShuttingDown(p.dispatcher) || p.dispatcher.Dropping? ==> p.cancelled)
    && (forall i :: 0 <= i < |p.workers| && p.workers[i].Exited? ==> p.closed && p.buffer == [])
    && (p.dispatcher.Returned? ==> forall i :: 0 <= i < |p.workers| ==> p.workers[i].Exited?)
  }

  ghost predicate Inv(p: Pool) {
    SlotsOk(p) && JobsOk(p) && WorkOk(p) && PhaseOk(p)
  }

  predicate OfWorker(m: Move) {
    m.Receive? || m.Finish? || m.Release? || m.Exit?
  }

  lemma WorkerKeepsSlots(p: Pool, m: Move)
    requires SlotsOk(p) && Enabled(p, m) && OfWorker(m)
    ensures SlotsOk(Apply(p, m))
  {
    var w :=
      if m.Receive? then Busy(p.buffer[0])
      else if m.Finish? then Releasing
      else if m.Release? then Receiving
      else Exited;
    CountsAfterUpdate(p.workers, m.i, w);
    assert Apply(p, m).workers == p.workers[m.i := w];
  }

  lemma DispatcherKeepsSlots(p: Pool, m: Move)
    requires SlotsOk(p) && Enabled(p, m) && !OfWorker(m)
    ensures SlotsOk(Apply(p, m))
  {
    assert Apply(p, m).workers == p.workers;
  }

  lemma SlotsKept(p: Pool, m: Move)
    requires SlotsOk(p) && Enabled(p, m)
    ensures SlotsOk(Apply(p, m))
  {
    if OfWorker(m) {
      WorkerKeepsSlots(p, m);
    } else {
      DispatcherKeepsSlots(p, m);
    }
  }

  lemma JobsKept(p: Pool, m: Move)
    requires JobsOk(p) && PhaseOk(p) && Enabled(p, m)
    ensures JobsOk(Apply(p, m))
  {
  }

  lemma JobWorkKept(p: Pool, m: Move, j: Job)
    requires JobWorkOk(p, j) && Enabled(p, m)
    ensures JobWorkOk(Apply(p, m), j)
  {
    match m
    case Receive(i) => HoldingAfterUpdate(p.workers, i, Busy(p.buffer[0]), j);
    case Finish(i) => HoldingAfterUpdate(p.workers, i, Releasing, j);
    case Release(i) => HoldingAfterUpdate(p.workers, i, Receiving, j);
    case Exit(i) => HoldingAfterUpdate(p.workers, i, Exited, j);
    case _ =>
  }

  lemma WorkKept(p: Pool, m: Move)
    requires WorkOk(p) && Enabled(p, m)
    ensures WorkOk(Apply(p, m))
  {
    forall j: Job ensures JobWorkOk(Apply(p, m), j) {
      assert JobWorkOk(p, j);
      JobWorkKept(p, m, j);
    }
  }

  lemma PhaseKept(p: Pool, m: Move)
    requires PhaseOk(p) && Enabled(p, m)
    ensures PhaseOk(Apply(p, m))
  {
  }

  lemma InvKept(p: Pool, m: Move)
    requires Inv(p) && Enabled(p, m)
    ensures Inv(Apply(p, m))
  {
    SlotsKept(p, m);
    JobsKept(p, m);
    WorkKept(p, m);
    PhaseKept(p, m);
  }

  lemma StartIsFine(n: nat)
    ensures Inv(Start(n))
  {
    AllReceiving(n);
    forall j: Job ensures JobWorkOk(Start(n), j) {
      NoneHeld(Start(n).workers, j);
    }
  }

  /** The accounting holds in every reachable state. */
  lemma {:induction false} Accounting(n: nat, ps: seq<Pool>, ms: seq<Move>, i: nat)
    requires Run(n, ps, ms) && i <= |ms|
    ensures Inv(ps[i]) && ps[i].n == n
  {
    if i == 0 {
      StartIsFine(n);
    } else {
      Accounting(n, ps, ms, i - 1);
      assert StepAt(ps, ms, i - 1);
      InvKept(ps[i - 1], ms[i - 1]);
    }
  }

  // ---------------------------------------------------------------- what it rules out

  /**
   At most n jobs are in memory; sending never blocks and never follows close;
   no receive from slots blocks; and k buffered jobs find k workers ready for them.
   */
  lemma NothingBlocks(p: Pool)
    requires SlotsOk(p) && PhaseOk(p)
    ensures |p.buffer| + BusyIn(p.workers) + |InHand(p.dispatcher)| <= p.n
    ensures p.dispatcher.Sending? ==> Enabled(p, Send)
    ensures p.dispatcher.Failed? || p.dispatcher.Dropping? ==> Enabled(p, GiveBack)
    ensures forall i: nat :: i < |p.workers| && p.workers[i].Releasing? ==> Enabled(p, Release(i))
    ensures |p.buffer| <= ReadyIn(p.workers)
  {
    CountsOf(p.workers);
  }

  /** A worker about to give its slot back, and a dispatcher holding one, find one in use. */
  lemma SlotInUse(p: Pool)
    requires SlotsOk(p)
    requires HoldsSlot(p.dispatcher) || exists i :: 0 <= i < |p.workers| && p.workers[i].Releasing?
    ensures p.slots > 0
  {
    CountsOf(p.workers);
  }

  /** No deadlock: unless Run has returned, a step other than cancellation is enabled. */
  lemma Progress(p: Pool)
    requires Inv(p) && p.n >= 1 && !p.dispatcher.Returned?
    ensures exists m :: m != Cancel && Enabled(p, m)
  {
    NothingBlocks(p);
    match p.dispatcher
    case Select => if p.slots < p.n { assert Enabled(p, Acquire); } else { WorkerCanMove(p); }
    case Claiming => assert Enabled(p, ClaimError);
    case Failed => assert Enabled(p, GiveBack);
    case Waiting => assert Enabled(p, if p.ticked then Tick else Fire);
    case Sending(_) => assert Enabled(p, Send);
    case Dropping(_) => assert Enabled(p, GiveBack);
    case Closing => assert Enabled(p, Close);
    case Joining => if Enabled(p, Join) { } else { WorkerCanMove(p); }
  }

  lemma WorkerCanMove(p: Pool)
    requires Inv(p)
    requires (p.dispatcher.Select? && p.slots == p.n >= 1) || (p.dispatcher.Joining? && !Enabled(p, Join))
    ensures exists m :: m != Cancel && Enabled(p, m)
  {
    CountsOf(p.workers);
    NothingBlocks(p);
    if p.dispatcher.Joining? {
      var i :| 0 <= i < |p.workers| && !p.workers[i].Exited?;
      OneWorkerMoves(p, i);
    } else if BusyIn(p.workers) > 0 {
      var i :| 0 <= i < |p.workers| && (p.workers[i].Busy? || p.workers[i].Releasing?);
      OneWorkerMoves(p, i);
    } else {
      var i :| 0 <= i < |p.workers| && p.workers[i].Receiving?;
      OneWorkerMoves(p, i);
    }
  }

  lemma OneWorkerMoves(p: Pool, i: nat)
    requires i < |p.workers| && !p.workers[i].Exited?
    requires p.workers[i].Releasing? ==> Enabled(p, Release(i))
    requires p.workers[i].Receiving? ==> p.closed || p.buffer != []
    ensures exists m :: m != Cancel && Enabled(p, m)
  {
    match p.workers[i]
    case Busy(_) => assert Enabled(p, Finish(i));
    case Releasing => assert Enabled(p, Release(i));
    case Receiving => assert Enabled(p, if p.buffer != [] then Receive(i) else Exit(i));
  }

  // ---------------------------------------------------------------- shutdown

  function Rank(d: Dispatcher): nat {
    match d
    case Returned => 0
    case Joining => 1
    case Closing => 2
    case Select => 3
    case Dropping(_) => 3
    case Waiting => 5
    case Failed => 6
    case Sending(_) => 7
    case Claiming => 8
  }

  function Measure(p: Pool): nat {
    Rank(p.dispatcher) + 3 * |p.buffer| + WeightOf(p.workers) + if p.ticked then 0 else 1
  }

  /** After cancellation every step brings shutdown nearer, except taking a slot although ctx.Done() is ready. */
  lemma ShutdownStep(p: Pool, m: Move)
    requires Inv(p) && p.cancelled && Enabled(p, m)
    ensures Apply(p, m).cancelled
    ensures if m.Acquire? then Measure(Apply(p, m)) == Measure(p) + 5 else Measure(Apply(p, m)) < Measure(p)
    ensures ShuttingDown(p.dispatcher) ==> ShuttingDown(Apply(p, m).dispatcher) && !m.Acquire?
  {
    match m
    case Receive(i) => CountsAfterUpdate(p.workers, i, Busy(p.buffer[0]));
    case Finish(i) => CountsAfterUpdate(p.workers, i, Releasing);
    case Release(i) => CountsAfterUpdate(p.workers, i, Receiving);
    case Exit(i) => CountsAfterUpdate(p.workers, i, Exited);
    case _ =>
  }

  function Acquires(ms: seq<Move>, i: nat, k: nat): nat
    requires i <= k <= |ms|
  {
    if i == k then 0 else Acquires(ms, i, k - 1) + if ms[k - 1].Acquire? then 1 else 0
  }

  /** Six steps at most for each slot taken after cancellation, and a bound linear in n for all others. */
  lemma {:induction false} ShutdownIsBounded(n: nat, ps: seq<Pool>, ms: seq<Move>, i: nat, k: nat)
    requires Run(n, ps, ms) && i <= k <= |ms| && ps[i].cancelled
    ensures ps[k].cancelled
    ensures k - i + Measure(ps[k]) <= Measure(ps[i]) + 6 * Acquires(ms, i, k)
    ensures Measure(ps[i]) <= 6 * n + 9
    decreases k
  {
    Accounting(n, ps, ms, i);
    CountsOf(ps[i].workers);
    if i == k {
    } else {
      ShutdownIsBounded(n, ps, ms, i, k - 1);
      Accounting(n, ps, ms, k - 1);
      assert StepAt(ps, ms, k - 1);
      ShutdownStep(ps[k - 1], ms[k - 1]);
    }
  }

  /** Draining: once the dispatcher has left its loop every step counts down. */
  lemma {:induction false} DrainIsBounded(n: nat, ps: seq<Pool>, ms: seq<Move>, i: nat, k: nat)
    requires Run(n, ps, ms) && i <= k <= |ms| && ShuttingDown(ps[i].dispatcher)
    ensures ps[i].cancelled && ShuttingDown(ps[k].dispatcher)
    ensures k - i + Measure(ps[k]) <= Measure(ps[i])
    decreases k
  {
    Accounting(n, ps, ms, i);
    if i == k {
    } else {
      DrainIsBounded(n, ps, ms, i, k - 1);
      Accounting(n, ps, ms, k - 1);
      assert StepAt(ps, ms, k - 1);
      ShutdownStep(ps[k - 1], ms[k - 1]);
    }
  }

  lemma NoneHeldAtReturn(n: nat, ps: seq<Pool>, ms: seq<Move>, i: nat)
    requires Run(n, ps, ms) && i <= |ms| && ps[i].dispatcher.Returned?
    ensures multiset(ps[i].handed) == multiset(ps[i].finished)
  {
    Accounting(n, ps, ms, i);
    forall j: Job ensures multiset(ps[i].handed)[j] == multiset(ps[i].finished)[j] {
      assert JobWorkOk(ps[i], j);
      NoneHeld(ps[i].workers, j);
    }
  }

  /**
   When Run returns the channel is empty, no slot is in use, all workers have
   exited, every claimed job but at most one was handed to process, in order, and
   process has finished each of these exactly once.
   */
  lemma CleanReturn(n: nat, ps: seq<Pool>, ms: seq<Move>, i: nat)
    requires Run(n, ps, ms) && i <= |ms| && n >= 1 && ps[i].dispatcher.Returned?
    ensures ps[i].buffer == [] && ps[i].slots == 0
    ensures forall w :: w in ps[i].workers ==> w.Exited?
    ensures ps[i].claimed == ps[i].handed + ps[i].dropped && |ps[i].dropped| <= 1
    ensures multiset(ps[i].claimed) == multiset(ps[i].finished) + multiset(ps[i].dropped)
  {
    NoneHeldAtReturn(n, ps, ms, i);
    Accounting(n, ps, ms, i);
    CountsOf(ps[i].workers);
    assert ps[i].workers[0].Exited?;
  }

  /** A job is given up without being handed to process only after cancellation. */
  lemma DroppedOnlyAfterCancel(n: nat, ps: seq<Pool>, ms: seq<Move>, i: nat)
    requires Run(n, ps, ms) && i <= |ms| && !ps[i].cancelled
    ensures ps[i].dropped == []
    ensures ps[i].claimed == ps[i].handed + ps[i].buffer + InHand(ps[i].dispatcher)
  {
    Accounting(n, ps, ms, i);
  }

  // ---------------------------------------------------------------- the part of select

  /** The dispatcher's select takes another ready case although the cancellation is ready as well. */
  predicate Ignores(p: Pool, m: Move) {
    Enabled(p, SeeDone) && (m.Acquire? || m.Tick? || m.Send?)
  }

  function Ignored(ps: seq<Pool>, ms: seq<Move>, i: nat, k: nat): nat
    requires i <= k <= |ms| < |ps|
  {
    if i == k then 0 else Ignored(ps, ms, i, k - 1) + if Ignores(ps[k - 1], ms[k - 1]) then 1 else 0
  }

  lemma {:induction false} AcquiresIgnore(n: nat, ps: seq<Pool>, ms: seq<Move>, i: nat, k: nat)
    requires Run(n, ps, ms) && i <= k <= |ms| && ps[i].cancelled
    ensures Acquires(ms, i, k) <= Ignored(ps, ms, i, k) <= k - i
    decreases k
  {
    if i == k {
    } else {
      AcquiresIgnore(n, ps, ms, i, k - 1);
      ShutdownIsBounded(n, ps, ms, i, k - 1);
      assert StepAt(ps, ms, k - 1);
    }
  }

  /**
   The steps after cancellation are bounded exactly as far as the selects that
   ignore it are: each such choice costs at most six steps, and without it at
   most 6n + 9 steps remain.
   */
  lemma ShutdownTakesWhatSelectIgnores(n: nat, ps: seq<Pool>, ms: seq<Move>, i: nat, k: nat)
    requires Run(n, ps, ms) && i <= k <= |ms| && ps[i].cancelled
    ensures Ignored(ps, ms, i, k) <= k - i <= 6 * n + 9 + 6 * Ignored(ps, ms, i, k)
  {
    AcquiresIgnore(n, ps, ms, i, k);
    ShutdownIsBounded(n, ps, ms, i, k);
  }

  /** A run that is cancelled at its first step comes to p, still in its loop, having ignored that so often. */
  ghost predicate StillRunning(n: nat, steps: nat, ignored: nat, p: Pool) {
    exists ps, ms :: CancelledRun(n, steps, ignored, p, ps, ms)
  }

  ghost predicate CancelledRun(n: nat, steps: nat, ignored: nat, p: Pool, ps: seq<Pool>, ms: seq<Move>) {
    && Run(n, ps, ms)
    && |ms| == 1 + steps
    && ms[0] == Cancel
    && ps[|ms|] == p
    && (forall i :: 0 <= i < |ps| ==> !ShuttingDown(ps[i].dispatcher))
    && Ignored(ps, ms, 1, |ms|) == ignored
  }

  lemma {:induction false} IgnoredOfPrefix(ps: seq<Pool>, ms: seq<Move>, p: Pool, m: Move, i: nat, k: nat)
    requires i <= k <= |ms| < |ps|
    ensures Ignored(ps + [p], ms + [m], i, k) == Ignored(ps, ms, i, k)
    decreases k
  {
    if i == k {
    } else {
      IgnoredOfPrefix(ps, ms, p, m, i, k - 1);
    }
  }

  lemma OneMore(n: nat, steps: nat, ignored: nat, p: Pool, m: Move)
    requires StillRunning(n, steps, ignored, p) && Enabled(p, m) && !ShuttingDown(Apply(p, m).dispatcher)
    ensures StillRunning(n, steps + 1, ignored + if Ignores(p, m) then 1 else 0, Apply(p, m))
  {
    var ps, ms :| CancelledRun(n, steps, ignored, p, ps, ms);
    var ps', ms' := ps + [Apply(p, m)], ms + [m];
    IgnoredOfPrefix(ps, ms, Apply(p, m), m, 1, |ms|);
    forall i | 0 <= i < |ms'| ensures StepAt(ps', ms', i) {
      assert i < |ms| ==> StepAt(ps, ms, i);
    }
    assert CancelledRun(n, steps + 1, ignored + if Ignores(p, m) then 1 else 0, Apply(p, m), ps', ms');
  }

  /** The first select takes the free slot, and the claim fails. */
  lemma FirstSelectIgnores(n: nat, steps: nat, ignored: nat, p: Pool)
    requires StillRunning(n, steps, ignored, p)
    requires p.dispatcher.Select? && p.slots < p.n && p.cancelled
    ensures StillRunning(n, steps + 3, ignored + 1, p.(dispatcher := Waiting))
  {
    var a := p.(dispatcher := Claiming, slots := p.slots + 1);
    OneMore(n, steps, ignored, p, Acquire);
    OneMore(n, steps + 1, ignored + 1, a, ClaimError);
    OneMore(n, steps + 2, ignored + 1, a.(dispatcher := Failed), GiveBack);
    assert Apply(a.(dispatcher := Failed), GiveBack) == p.(dispatcher := Waiting);
  }

  /** The ticker fires, and the second select takes the tick. */
  lemma SecondSelectIgnores(n: nat, steps: nat, ignored: nat, p: Pool)
    requires StillRunning(n, steps, ignored, p)
    requires p.dispatcher.Waiting? && p.cancelled && !p.ticked
    ensures StillRunning(n, steps + 2, ignored + 1, p.(dispatcher := Select))
  {
    OneMore(n, steps, ignored, p, Fire);
    OneMore(n, steps + 1, ignored, p.(ticked := true), Tick);
    assert Apply(p.(ticked := true), Tick) == p.(dispatcher := Select);
  }

  lemma CancelledAtOnce(n: nat)
    ensures StillRunning(n, 0, 0, Start(n).(cancelled := true))
  {
    var p := Start(n).(cancelled := true);
    var ps, ms := [Start(n), p], [Cancel];
    assert StepAt(ps, ms, 0);
    assert CancelledRun(n, 0, 0, p, ps, ms);
  }

  /**
   Fairness of select is what ends Run. If in every pass the first select takes
   the free slot and, once the ticker has fired again, the second takes the tick,
   a cancelled Run goes on for any number of passes, ignoring the cancellation twice in each.
   */
  lemma {:induction false} UnfairSelectNeverReturns(n: nat, k: nat)
    requires n >= 1
    ensures StillRunning(n, 5 * k, 2 * k, Start(n).(cancelled := true))
  {
    if k == 0 {
      CancelledAtOnce(n);
    } else {
      UnfairSelectNeverReturns(n, k - 1);
      var p := Start(n).(cancelled := true);
      FirstSelectIgnores(n, 5 * (k - 1), 2 * (k - 1), p);
      SecondSelectIgnores(n, 5 * (k - 1) + 3, 2 * (k - 1) + 1, p.(dispatcher := Waiting));
      assert p.(dispatcher := Waiting).(dispatcher := Select) == p;
    }
  }
}
