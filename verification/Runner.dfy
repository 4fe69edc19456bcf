/**
 Worker.Run on shared state that is updated in place: what the dispatcher and a
 worker do next, and the only places where either has to wait.
 */
module Runner {
  import opened Common
  import opened Pool

  class Shared {
    const n: nat
    var dispatcher: Dispatcher
    var workers: seq<Worker>
    var buffer: seq<Job>
    var slots: nat
    var ticked: bool
    var closed: bool
    var cancelled: bool
    ghost var claimed: seq<Job>
    ghost var handed: seq<Job>
    ghost var finished: seq<Job>
    ghost var dropped: seq<Job>

    /** Every job that a call of Claim returned, in order. */
    ghost var results: seq<Job>

    ghost function Value(): Pool
      reads this
    {
      Pool(n, dispatcher, workers, buffer, slots, ticked, closed, cancelled, claimed, handed, finished, dropped)
    }

    ghost predicate Valid()
      reads this
    {
      Inv(Value()) && results == claimed
    }

    constructor (n: nat)
      ensures this.n == n && Value() == Start(n) && results == [] && Valid()
    {
      this.n := n;
      workers := seq(n, _ => Receiving);
      dispatcher, buffer, slots := Select, [], 0;
      ticked, closed, cancelled := false, false, false;
      claimed, handed, finished, dropped, results := [], [], [], [], [];
      StartIsFine(n);
    }

    /**
     Whatever calls were made so far: the jobs that Claim returned were, in that order,
     handed to process, or are buffered, in the dispatcher's hand, or dropped; and
     process has finished each one handed to it or is at work on it.
     */
    lemma NoResultIsLost(j: Job)
      requires Valid()
      ensures results == handed + buffer + InHand(dispatcher) + dropped && |dropped| <= 1
      ensures multiset(handed)[j] == multiset(finished)[j] + Holding(workers, j)
      ensures dropped != [] ==> cancelled
    {
      assert JobWorkOk(Value(), j);
    }

    /** The context is cancelled. */
    method Cancel()
      requires Valid() && !cancelled
      modifies this
      ensures Valid() && results == old(results) && Performs(old(Value()), Some(Move.Cancel), Value())
    {
      ghost var p := Value();
      cancelled := true;
      InvKept(p, Move.Cancel);
    }

    /** The poll interval has passed: the ticker's channel holds one tick at most. */
    method Fire()
      requires Valid() && !ShuttingDown(dispatcher)
      modifies this
      ensures Valid() && results == old(results)
      ensures Performs(old(Value()), if old(ticked) then None else Some(Move.Fire), Value())
    {
      ghost var p := Value();
      if !ticked {
        ticked := true;
        InvKept(p, Move.Fire);
      }
    }

    /** The first select: a free slot or the cancellation, whichever is ready; preferDone decides if both are. */
    method AwaitSlot(preferDone: bool) returns (move: Option<Move>)
      requires Valid() && dispatcher.Select?
      modifies this
      ensures Valid() && results == old(results) && Performs(old(Value()), move, Value())
      ensures move == Some(SeeDone) <==> old(cancelled && (preferDone || slots == n))
      ensures move == Some(Acquire) <==> old(slots < n && !(cancelled && preferDone))
      ensures move == None <==> old(slots == n && !cancelled)
    {
      ghost var p := Value();
      move := None;
      if cancelled && (preferDone || slots == n) {
        dispatcher, move := Closing, Some(SeeDone);
        InvKept(p, SeeDone);
      } else if slots < n {
        dispatcher, slots, move := Claiming, slots + 1, Some(Acquire);
        InvKept(p, Acquire);
      }
    }

    /** What Claim returned is passed on, or the slot will be given back. */
    method TakeResult(claim: Option<Job>) returns (move: Option<Move>)
      requires Valid() && dispatcher.Claiming?
      modifies this
      ensures Valid() && Performs(old(Value()), move, Value())
      ensures claim.Some? ==> move == Some(ClaimOk(claim.value)) && results == old(results) + [claim.value]
      ensures claim.None? ==> move == Some(ClaimError) && results == old(results)
    {
      ghost var p := Value();
      if claim.Some? {
        dispatcher, claimed, move := Sending(claim.value), claimed + [claim.value], Some(ClaimOk(claim.value));
        results := results + [claim.value];
        InvKept(p, ClaimOk(claim.value));
      } else {
        dispatcher, move := Failed, Some(ClaimError);
        InvKept(p, ClaimError);
      }
    }

    /** After a failed claim the loop goes on; after a cancelled send it ends and the job is given up. */
    method ReturnSlot() returns (move: Option<Move>)
      requires Valid() && (dispatcher.Failed? || dispatcher.Dropping?)
      modifies this
      ensures Valid() && results == old(results)
      ensures move == Some(GiveBack) && Performs(old(Value()), move, Value())
    {
      ghost var p := Value();
      SlotInUse(p);
      if dispatcher.Dropping? {
        dropped := dropped + [dispatcher.job];
        dispatcher := Closing;
      } else {
        dispatcher := Waiting;
      }
      slots, move := slots - 1, Some(GiveBack);
      InvKept(p, GiveBack);
    }

    /** The second select: the ticker or the cancellation. */
    method AwaitTick(preferDone: bool) returns (move: Option<Move>)
      requires Valid() && dispatcher.Waiting?
      modifies this
      ensures Valid() && results == old(results) && Performs(old(Value()), move, Value())
      ensures move == Some(SeeDone) <==> old(cancelled && (preferDone || !ticked))
      ensures move == Some(Tick) <==> old(ticked && !(cancelled && preferDone))
      ensures move == None <==> old(!ticked && !cancelled)
    {
      ghost var p := Value();
      move := None;
      if cancelled && (preferDone || !ticked) {
        dispatcher, move := Closing, Some(SeeDone);
        InvKept(p, SeeDone);
      } else if ticked {
        dispatcher, ticked, move := Select, false, Some(Tick);
        InvKept(p, Tick);
      }
    }

    /** The third select: the channel, which always has room, or the cancellation. */
    method PassOn(preferDone: bool) returns (move: Option<Move>)
      requires Valid() && dispatcher.Sending?
      modifies this
      ensures Valid() && results == old(results) && Performs(old(Value()), move, Value())
      ensures move == Some(if old(cancelled) && preferDone then SeeDone else Send)
    {
      ghost var p := Value();
      NothingBlocks(p);
      if cancelled && preferDone {
        dispatcher, move := Dropping(dispatcher.job), Some(SeeDone);
        InvKept(p, SeeDone);
      } else {
        dispatcher, buffer, move := Select, buffer + [dispatcher.job], Some(Send);
        InvKept(p, Send);
      }
    }

    /**
     The next operation of the dispatcher's loop. preferDone says which ready case
     a select picks once the context is cancelled; claim is what Claim returned.
     */
    method Dispatch(preferDone: bool, claim: Option<Job>) returns (move: Option<Move>)
      requires Valid() && !ShuttingDown(dispatcher)
      modifies this
      ensures Valid() && Performs(old(Value()), move, Value())
      ensures results == old(results) + if old(dispatcher.Claiming?) && claim.Some? then [claim.value] else []
      ensures old(dispatcher.Claiming?) ==> move == Some(if claim.Some? then ClaimOk(claim.value) else ClaimError)
      ensures old(dispatcher.Failed? || dispatcher.Dropping?) ==> move == Some(GiveBack)
      ensures preferDone && old(cancelled && (dispatcher.Select? || dispatcher.Waiting? || dispatcher.Sending?)) ==>
                move == Some(SeeDone)
      ensures old(dispatcher.Sending?) && !(preferDone && old(cancelled)) ==> move == Some(Send)
      ensures move.None? <==>
              old(!cancelled && ((dispatcher.Select? && slots == n) || (dispatcher.Waiting? && !ticked)))
    {
      match dispatcher {
        case Select => move := AwaitSlot(preferDone);
        case Claiming => move := TakeResult(claim);
        case Waiting => move := AwaitTick(preferDone);
        case Sending(_) => move := PassOn(preferDone);
        case Failed => move := ReturnSlot();
        case Dropping(_) => move := ReturnSlot();
      }
    }

    /** The deferred function: close the channel, then wait for the workers. */
    method ShutDown() returns (move: Option<Move>)
      requires Valid() && (dispatcher.Closing? || dispatcher.Joining?)
      modifies this
      ensures Valid() && results == old(results) && Performs(old(Value()), move, Value())
      ensures move == Some(Close) <==> old(dispatcher.Closing?)
      ensures move.None? <==>
              old(dispatcher.Joining? && exists i :: 0 <= i < |workers| && !workers[i].Exited?)
    {
      ghost var p := Value();
      move := None;
      if dispatcher.Closing? {
        dispatcher, closed, move := Joining, true, Some(Close);
        InvKept(p, Close);
      } else if forall i :: 0 <= i < |workers| ==> workers[i].Exited? {
        dispatcher, move := Returned, Some(Join);
        InvKept(p, Join);
      }
    }

    /** The head of a worker's loop: a job from the channel, or its end. */
    method AwaitJob(i: nat) returns (move: Option<Move>)
      requires Valid() && i < |workers| && workers[i].Receiving?
      modifies this
      ensures Valid() && results == old(results) && Performs(old(Value()), move, Value())
      ensures move == if old(buffer) != [] then Some(Receive(i)) else if old(closed) then Some(Exit(i)) else None
    {
      ghost var p := Value();
      move := None;
      if buffer != [] {
        var j := buffer[0];
        workers := workers[i := Busy(j)];
        buffer, handed, move := buffer[1..], handed + [j], Some(Receive(i));
        InvKept(p, Receive(i));
      } else if closed {
        workers := workers[i := Exited];
        move := Some(Exit(i));
        InvKept(p, Exit(i));
      }
    }

    /** process returns, then the slot is given back. */
    method FinishJob(i: nat) returns (move: Option<Move>)
      requires Valid() && i < |workers| && (workers[i].Busy? || workers[i].Releasing?)
      modifies this
      ensures Valid() && results == old(results) && Performs(old(Value()), move, Value())
      ensures move == Some(if old(workers[i].Busy?) then Finish(i) else Release(i))
    {
      ghost var p := Value();
      if workers[i].Busy? {
        finished, move := finished + [workers[i].job], Some(Finish(i));
        workers := workers[i := Releasing];
        InvKept(p, Finish(i));
      } else {
        SlotInUse(p);
        slots, move := slots - 1, Some(Release(i));
        workers := workers[i := Receiving];
        InvKept(p, Release(i));
      }
    }

    /** The next operation of worker i. */
    method Work(i: nat) returns (move: Option<Move>)
      requires Valid() && i < |workers|
      modifies this
      ensures Valid() && results == old(results) && Performs(old(Value()), move, Value())
      ensures move == Some(Receive(i)) <==> old(workers[i].Receiving? && buffer != [])
      ensures move == Some(Exit(i)) <==> old(workers[i].Receiving? && buffer == [] && closed)
      ensures move == Some(Finish(i)) <==> old(workers[i].Busy?)
      ensures move == Some(Release(i)) <==> old(workers[i].Releasing?)
      ensures move.None? <==> old(workers[i].Exited? || (workers[i].Receiving? && buffer == [] && !closed))
    {
      match workers[i] {
        case Receiving => move := AwaitJob(i);
        case Busy(_) => move := FinishJob(i);
        case Releasing => move := FinishJob(i);
        case Exited => move := None;
      }
    }
  }
}
