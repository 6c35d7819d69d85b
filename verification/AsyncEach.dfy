/**
 * The scheduler of async-each. What runs between two awaits is one method; the promises of the
 * iteratee and of the iterator are settled by calling the matching method, in any order.
 */
module AsyncEach {
  import opened Options

  datatype Error = Aborted | Failed(code: int)

  /** What a call of the iteratee gives at once. */
  datatype Returned = Value | Promise | Thrown(error: Error)

  /** The promise of the whole loop. */
  datatype Outcome = Pending | Resolved | Rejected(error: Error) | RejectedAll(errors: seq<Error>)

  datatype End = End(pending: nat, aborted: bool)

  class Scheduler {
    const count: nat
    const concurrency: nat
    const stopOnError: bool
    var running: int
    var index: nat
    var errors: seq<Error>
    var nextIsRunning: bool
    /** The iterator is exhausted: `next` now only settles. */
    var ended: bool
    /** `onFulfilled` and `onRejected` have not been replaced by a no-op. */
    var listening: bool
    var outcome: Outcome
    /** The iterator's position, and the cursor that `next` is waiting for. */
    var position: nat
    var awaiting: bool
    var cursor: Option<nat>
    /** Items whose promise is not settled. */
    var pending: set<nat>
    /** Items in the order the iteratee was called, and the errors in the order they came. */
    ghost var started: seq<nat>
    ghost var failures: seq<Error>
    ghost var aborted: bool
    /** When the end of the iterator arrived: how many promises were pending, and whether the signal had aborted. */
    ghost var atEnd: Option<End>

    predicate HasRoom(n: int) { concurrency == 0 || n < concurrency }

    /** Aborting a loop that does not stop on errors counts one promise too many as settled. */
    ghost function Miscounted(): nat
      reads this`aborted
    {
      if aborted && !stopOnError then 1 else 0
    }

    /** Every item up to `index` was started once, in order; what is pending was started. */
    ghost static predicate InOrder(started: seq<nat>, pending: set<nat>, index: nat) {
      && |started| == index
      && (forall k | 0 <= k < index :: started[k] == k)
      && (forall i | i in pending :: i < index)
    }

    /** What the outcome says of the items. */
    ghost predicate Truthful()
      reads this
    {
      match outcome {
        case Pending => true
        case Resolved => ended && failures == [] && pending == {}
        case Rejected(e) => stopOnError && failures != [] && failures[0] == e
        case RejectedAll(es) => !stopOnError && ended && es != [] && es <= failures && |pending| <= Miscounted()
                               && (Miscounted() == 0 ==> es == failures)
      }
    }

    /** `done` promises have just settled and are not yet subtracted. */
    ghost predicate Counted(done: nat)
      reads this
    {
      && listening == (outcome == Pending)
      && InOrder(started, pending, index) && index <= count
      && Truthful()
      && (ended ==> index == count)
      && (Miscounted() == 1 ==> failures != [])
      && (outcome == Pending ==> errors == failures && (stopOnError ==> errors == []))
      && (outcome == Pending ==> running == |pending| + done - Miscounted())
      && (outcome != Pending ==> running + Miscounted() >= |pending| && running >= -1)
      && (concurrency != 0 ==> running <= concurrency)
      && (ended <==> atEnd.Some?)
      && (!stopOnError && atEnd == Some(End(0, true)) ==> aborted && outcome == Pending && pending == {})
      && (ended && outcome == Pending && pending == {} && Miscounted() == 1 ==> atEnd == Some(End(0, true)))
    }

    /** Between two events. */
    ghost predicate Valid()
      reads this
    {
      && Counted(0)
      && nextIsRunning == awaiting
      && (awaiting ==> !ended && HasRoom(running) && position == index + 1)
      && (awaiting ==> cursor == if index < count then Some(index) else None)
      && (!awaiting && !ended ==> position == index && !HasRoom(running))
      && (ended && outcome == Pending ==> running != 0)
    }

    /** A bound on the events still to come. */
    ghost function Work(): nat
      reads this
      requires Valid()
    {
      2 * (count - index) + |pending| + (if ended then 0 else 1) + (if aborted then 0 else 1)
    }

    constructor (count: nat, concurrency: nat, stopOnError: bool)
      ensures Valid() && this.count == count && this.concurrency == concurrency && this.stopOnError == stopOnError
      ensures started == [] && failures == [] && pending == {} && outcome == Pending && awaiting && !aborted
      ensures index == 0 && atEnd == None
    {
      this.count, this.concurrency, this.stopOnError := count, concurrency, stopOnError;
      running, index, errors, nextIsRunning, ended, listening, outcome := 0, 0, [], false, false, true, Pending;
      position, awaiting, cursor, pending := 0, false, None, {};
      started, failures, aborted, atEnd := [], [], false, None;
      new;
      Next();
    }

    /** The function `next`, up to its await; once the iterator is exhausted, the function that replaces it. */
    method Next()
      requires Counted(0) && (nextIsRunning ==> !ended)
      requires !nextIsRunning ==> !awaiting && (!ended ==> position == index)
      modifies this`nextIsRunning, this`awaiting, this`cursor, this`position, this`listening, this`outcome
      ensures old(nextIsRunning) ==> unchanged(this)
      ensures !old(nextIsRunning) ==> Valid()
      ensures outcome == if old(outcome) != Pending || !ended || running != 0 then old(outcome)
                         else if errors == [] then Resolved else RejectedAll(errors)
    {
      hide InOrder;
      if ended {
        if running == 0 {
          if |errors| == 0 {
            outcome := if outcome == Pending then Resolved else outcome;
          } else {
            outcome := if outcome == Pending then RejectedAll(errors) else outcome;
          }
          listening := false;
        }
        return;
      }
      if nextIsRunning {
        return;
      }
      nextIsRunning := true;
      if HasRoom(running) {
        awaiting := true;
        cursor := if position < count then Some(position) else None;
        position := position + 1;
        return;
      }
      nextIsRunning := false;
    }

    method OnFulfilled()
      requires Counted(1) && (nextIsRunning ==> !ended)
      requires !nextIsRunning ==> !awaiting && (!ended ==> position == index)
      requires !nextIsRunning && !ended ==> !HasRoom(running)
      modifies this`running, this`nextIsRunning, this`awaiting, this`cursor, this`position, this`listening, this`outcome
      ensures !old(nextIsRunning) ==> Valid()
      ensures old(nextIsRunning) ==> Counted(0) && nextIsRunning && awaiting == old(awaiting) && running <= old(running)
      ensures old(nextIsRunning) ==> position == old(position) && cursor == old(cursor)
      ensures old(nextIsRunning) || running != 0 || old(outcome) != Pending ==> outcome == old(outcome)
    {
      hide InOrder;
      if listening {
        running := running - 1;
        Next();
      }
    }

    method OnRejected(error: Error, ghost fromSignal: bool)
      requires outcome != Resolved && (outcome.RejectedAll? ==> Miscounted() == 1)
      requires fromSignal && ended && outcome == Pending ==> running != 0
      requires Counted(if fromSignal then 0 else 1) && (fromSignal ==> !aborted) && (nextIsRunning ==> !ended)
      requires !nextIsRunning ==> !awaiting && (!ended ==> position == index)
      requires !nextIsRunning && !ended ==> !HasRoom(running)
      modifies this`running, this`nextIsRunning, this`awaiting, this`cursor, this`position, this`listening,
               this`outcome, this`errors, this`failures, this`aborted
      ensures !old(nextIsRunning) ==> Valid()
      ensures old(nextIsRunning) ==> Counted(0) && nextIsRunning && awaiting == old(awaiting) && running <= old(running)
      ensures old(nextIsRunning) ==> position == old(position) && cursor == old(cursor)
      ensures old(nextIsRunning) && !stopOnError ==> outcome == old(outcome)
      ensures failures == old(failures) + [error] && aborted == (fromSignal || old(aborted))
      ensures stopOnError && old(outcome) == Pending ==> outcome == Rejected(error)
      ensures old(outcome) != Pending ==> outcome == old(outcome)
    {
      hide InOrder;
      failures := failures + [error];
      aborted := fromSignal || aborted;
      if listening {
        if stopOnError {
          outcome := Rejected(error);
          listening := false;
        } else {
          running := running - 1;
          errors := errors + [error];
          Next();
        }
      }
    }

    // ----- events ---------------------------------------------------------------------------------

    /** The awaited cursor arrives; `returned` is what the iteratee gives if there is an item. */
    method Resume(returned: Returned)
      requires Valid() && awaiting
      modifies this
      ensures Valid() && Work() < old(Work()) && aborted == old(aborted)
      ensures index == old(index) + (if old(cursor).Some? then 1 else 0)
      ensures started == old(started) + (if old(cursor).Some? then [old(cursor).value] else [])
      ensures pending == old(pending) + (if old(cursor).Some? && returned.Promise? then {old(cursor).value} else {})
      ensures failures == old(failures) + (if old(cursor).Some? && returned.Thrown? then [returned.error] else [])
      ensures old(outcome) != Pending ==> outcome == old(outcome)
      ensures old(cursor) == None && old(outcome) == Pending
        ==> outcome == if |pending| != Miscounted() then Pending else if failures == [] then Resolved
          else RejectedAll(failures)
      ensures old(cursor) == None ==> !awaiting
      ensures atEnd == if old(cursor) == None then Some(End(|old(pending)|, aborted)) else old(atEnd)
    {
      hide InOrder;
      Arrived(returned);
      nextIsRunning := false;
      Next();
    }

    /** An item, or the end of the iterator. */
    method Arrived(returned: Returned)
      requires Valid() && awaiting
      modifies this`running, this`index, this`started, this`pending, this`listening, this`outcome, this`errors,
               this`failures, this`nextIsRunning, this`awaiting, this`cursor, this`position, this`aborted,
               this`ended, this`atEnd
      ensures atEnd == if old(cursor) == None then Some(End(|old(pending)|, aborted)) else old(atEnd)
      ensures Counted(0) && nextIsRunning && !awaiting && aborted == old(aborted)
      ensures ended == old(cursor).None? && (!ended ==> position == index == old(index) + 1)
      ensures started == old(started) + (if old(cursor).Some? then [old(cursor).value] else [])
      ensures pending == old(pending) + (if old(cursor).Some? && returned.Promise? then {old(cursor).value} else {})
      ensures failures == old(failures) + (if old(cursor).Some? && returned.Thrown? then [returned.error] else [])
      ensures old(outcome) != Pending || ended ==> outcome == old(outcome)
      ensures ended ==> index == old(index)
    {
      hide InOrder;
      awaiting := false;
      match cursor {
        case None => ended, atEnd := true, Some(End(|pending|, aborted));
        case Some(item) => Start(item, returned);
      }
    }

    /** The iteratee is called on an item, inside `next`. */
    method Start(item: nat, returned: Returned)
      requires Counted(0) && nextIsRunning && !awaiting && !ended && HasRoom(running)
      requires item == index < count && position == index + 1
      modifies this`running, this`index, this`started, this`pending, this`listening, this`outcome, this`errors,
               this`failures, this`nextIsRunning, this`awaiting, this`cursor, this`position, this`aborted
      ensures Counted(0) && nextIsRunning && !awaiting && aborted == old(aborted) && position == index == old(index) + 1
      ensures started == old(started) + [item]
      ensures pending == old(pending) + (if returned.Promise? then {item} else {})
      ensures failures == old(failures) + (if returned.Thrown? then [returned.error] else [])
      ensures old(outcome) != Pending ==> outcome == old(outcome)
    {
      running := running + 1;
      started := started + [item];
      index := index + 1;
      match returned {
        case Promise => pending := pending + {item};
        case Value => OnFulfilled();
        case Thrown(error) => OnRejected(error, false);
      }
    }

    /** The promise of item `i` is fulfilled. */
    method Fulfil(i: nat)
      requires Valid() && i in pending
      modifies this
      ensures Valid() && Work() < old(Work()) && aborted == old(aborted)
      ensures atEnd == old(atEnd) && pending == old(pending) - {i} && started == old(started)
      ensures failures == old(failures)
      ensures old(outcome) != Pending ==> outcome == old(outcome)
    {
      pending := pending - {i};
      OnFulfilled();
    }

    /** The promise of item `i` is rejected. */
    method Reject(i: nat, error: Error)
      requires Valid() && i in pending
      modifies this
      ensures Valid() && Work() < old(Work()) && aborted == old(aborted)
      ensures atEnd == old(atEnd) && pending == old(pending) - {i} && started == old(started)
      ensures failures == old(failures) + [error]
      ensures old(outcome) != Pending ==> outcome == old(outcome)
      ensures stopOnError && old(outcome) == Pending ==> outcome == Rejected(error)
    {
      pending := pending - {i};
      OnRejected(error, false);
    }

    /** The signal aborts; its listener is removed once the loop has settled. */
    method Abort()
      requires Valid() && listening && !aborted
      modifies this
      ensures Valid() && Work() < old(Work()) && aborted
      ensures atEnd == old(atEnd) && pending == old(pending) && started == old(started)
      ensures failures == old(failures) + [Aborted]
      ensures stopOnError ==> outcome == Rejected(Aborted)
      ensures old(awaiting) ==> awaiting && cursor == old(cursor) && (!stopOnError ==> outcome == Pending)
    {
      OnRejected(Aborted, true);
    }

    // ----- over whole runs ------------------------------------------------------------------------

    /** No more promises at once than asked for, one more after an abort that does not stop. */
    lemma NeverTooMany()
      requires Valid() && concurrency != 0
      ensures |pending| <= concurrency + Miscounted()
    {
    }

    /** The iterator gives the items in order, and then its end. */
    lemma NextItem()
      requires Valid() && awaiting
      ensures cursor == (if index < count then Some(index) else None) && index <= count
    {
    }

    /** Until something fails or the end has come, the next item is awaited as long as there is room. */
    lemma GoesOn()
      requires Valid() && failures == [] && atEnd == None && (concurrency == 0 || |pending| < concurrency)
      ensures awaiting
    {
    }

    /** Without an abort that does not stop, the loop never waits for nothing. */
    lemma NoDeadlock()
      requires Valid() && Miscounted() == 0
      ensures outcome == Pending ==> awaiting || pending != {}
    {
      assert pending == {} ==> |pending| == 0;
    }

    /** A loop that stops on the first error is rejected with it. */
    lemma Settled()
      requires Valid() && stopOnError && outcome != Pending
      ensures outcome == Resolved <==> failures == []
      ensures failures != [] ==> outcome == Rejected(failures[0])
    {
    }

    /** After such an abort it is settled one promise early, or never. */
    lemma AbortedTooEarly()
      requires Valid() && Miscounted() == 1
      ensures outcome == Pending && !awaiting ==> |pending| != 1
      ensures !outcome.Resolved?
    {
    }

    /**
     * Every order of events of a loop that does not stop on errors, with an abort at any time or none: once
     * every item has finished, the loop is not settled, and never will be, if and only if the end of the
     * iterator arrived after the abort with nothing pending.
     */
    method DrainWithAbort(mayAbort: bool)
      requires Valid() && !stopOnError && (mayAbort ==> !aborted)
      modifies this
      ensures Valid() && !awaiting && pending == {}
      ensures outcome == Pending <==> atEnd == Some(End(0, true))
    {
      var signal := mayAbort;
      while awaiting || pending != {}
        invariant Valid() && (signal ==> !aborted)
        decreases Work()
      {
        var error: Error := *;
        var waits, aborts: bool := *, *;
        if signal && aborts && listening {
          Abort();
          signal := false;
        } else if awaiting && (pending == {} || waits) {
          if {
            case true => Resume(Value);
            case true => Resume(Promise);
            case true => Resume(Thrown(error));
          }
        } else {
          var i :| i in pending;
          if * {
            Fulfil(i);
          } else {
            Reject(i, error);
          }
        }
      }
      if Miscounted() == 0 {
        NoDeadlock();
      }
    }

    /** Every order of events, in which no signal aborts, settles the loop once every item has finished. */
    method Drain()
      requires Valid() && !aborted
      modifies this
      ensures Valid() && !aborted && !awaiting && pending == {} && outcome != Pending
      ensures old(outcome) != Pending ==> outcome == old(outcome)
      ensures outcome == Resolved <==> failures == []
      ensures !stopOnError ==> outcome == (if failures == [] then Resolved else RejectedAll(failures))
      ensures !stopOnError || failures == [] ==> started == seq(count, i => i)
    {
      while awaiting || pending != {}
        invariant Valid() && !aborted
        invariant old(outcome) != Pending ==> outcome == old(outcome)
        decreases Work()
      {
        var error: Error := *;
        var waits: bool := *;
        if awaiting && (pending == {} || waits) {
          if {
            case true => Resume(Value);
            case true => Resume(Promise);
            case true => Resume(Thrown(error));
          }
        } else {
          var i :| i in pending;
          if * {
            Fulfil(i);
          } else {
            Reject(i, error);
          }
        }
      }
    }
  }

  /** Aborting the signal of an empty loop that does not stop on errors leaves it unsettled for ever. */
  method HangsAfterAbort() returns (outcome: Outcome, awaiting: bool, pending: set<nat>)
    ensures outcome == Pending && !awaiting && pending == {}
  {
    var loop := new Scheduler(0, 1, false);
    loop.Abort();
    assert loop.cursor == None;
    loop.Resume(Value);
    return loop.outcome, loop.awaiting, loop.pending;
  }
}
