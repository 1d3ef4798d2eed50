/** The single-key coordination protocol of botleague_helpers/fan_in.py.

    A coordination record is stored under its id as one of the strings
    `waiting`, `reviewing` and `finished`. A caller becomes the reviewer by
    a compare-and-swap from `waiting` or from `finished` to `reviewing`;
    the reviewer asks `ready_fn` and, when it says yes, runs `reduce_fn`.
    Nothing in the code ever writes `finished`.

    The callables are modelled by the value each would return (`ready`,
    `reduceResult`) and by counters of how often each was called; the 0.1 s
    sleep between election attempts is a no-op that is counted. */
module FanIn {
  import opened Py
  import opened Db

  const WAITING := "waiting"
  const REVIEWING := "reviewing"
  const FINISHED := "finished"

  /** The value a caller gets when the reduction ran: `Box(reduce_result=...)`. */
  function ReducedBox(result: Value): Value {
    BoxUp(Dict(map["reduce_result" := result], false))
  }

  /** The value a caller gets when it did not run the reduction: `False`. */
  const NotReady := Bool(false)

  /** Everything one call changes or reports: what it returned or raised,
      the store afterwards, how often it called `ready_fn` and `reduce_fn`,
      and how often it slept. */
  datatype Run = Run(result: Result<Value>, after: Snapshot, readyCalls: nat, reduceCalls: nat, sleeps: nat)

  /** A record one of the two compare-and-swaps of `become_reviewer` accepts. */
  predicate Electable(record: Value) {
    record == Str(WAITING) || record == Str(FINISHED)
  }

  /** Whether a caller that lost the election returns `False` (rather than
      going on to review): `max_attempts` is -1 or at least 1. */
  predicate WaitsOnLoss(maxAttempts: int) {
    maxAttempts == -1 || maxAttempts >= 1
  }

  /** The message of the RuntimeError `fan_in` raises for a missing record. */
  function FanInMissing(id: string): Error {
    RuntimeError("Fan in collection " + id + " does not exist")
  }

  /** The effect of one call of `fan_in` (or `try_reduce_async`, which
      differs only in the message `missing` of its RuntimeError) on a store
      that no other caller touches meanwhile, in closed form:
      - a falsy record raises before any compare-and-swap;
      - a `waiting` or `finished` record elects the caller, which leaves
        `reviewing` behind, asks `ready_fn` once and runs `reduce_fn` once
        if it is ready;
      - on any other record every election fails; with `max_attempts` -1 or
        at least 1 the caller gives up with `False` after sleeping once or
        `max_attempts` times, and otherwise it leaves the loop and reviews
        anyway, on the unchanged record. */
  function Attempt(s: Snapshot, useBoxes: bool, id: string, ready: bool, reduceResult: Value,
                   maxAttempts: int, missing: Error): (run: Run)
  {
    var record := Read(s, useBoxes, id);
    if !Truthy(record) then
      Run(Err(missing), s, 0, 0, 0)
    else if Electable(record) then
      Run(Ok(if ready then ReducedBox(reduceResult) else NotReady),
          Written(s, useBoxes, id, Str(REVIEWING)), 1, if ready then 1 else 0, 0)
    else if WaitsOnLoss(maxAttempts) then
      Run(Ok(NotReady), s, 0, 0, if maxAttempts == -1 then 1 else maxAttempts)
    else
      Run(Ok(if ready then ReducedBox(reduceResult) else NotReady), s, 1, if ready then 1 else 0, 0)
  }

  /** What every call leaves behind: at most one `ready_fn` and one
      `reduce_fn` call, the latter exactly when the reduction is returned;
      an error exactly for a falsy record, with nothing else done; the store
      unchanged or the record set to `reviewing`; sleeping only to give up. */
  lemma AttemptShape(s: Snapshot, useBoxes: bool, id: string, ready: bool, reduceResult: Value,
                     maxAttempts: int, missing: Error)
    ensures var run := Attempt(s, useBoxes, id, ready, reduceResult, maxAttempts, missing);
            (run.reduceCalls <= run.readyCalls <= 1)
            && (run.reduceCalls == 1 <==> run.result == Ok(ReducedBox(reduceResult)))
            && (run.result.Err? <==> !Truthy(Read(s, useBoxes, id)))
            && (run.result.Err? ==> run.result.error == missing && run.after == s && run.readyCalls == 0 && run.sleeps == 0)
            && (run.after == s || run.after == Written(s, useBoxes, id, Str(REVIEWING)))
            && (run.sleeps > 0 ==> run.readyCalls == 0 && run.result == Ok(NotReady))
  {
  }

  /** `create_fan_in`: unconditionally sets the record to `waiting`. */
  method CreateFanIn(db: DB, id: string)
    modifies db.Store()
    ensures db.State() == Written(old(db.State()), db.useBoxes, id, Str(WAITING))
    ensures db.Get(id) == Str(WAITING)
  {
    db.Set(id, Str(WAITING));
    ReadWrittenStr(old(db.State()), db.useBoxes, id, WAITING);
  }

  /** The inner `become_reviewer` of `fan_in`: both compare-and-swaps are
      always made; the caller is elected when either succeeds. It is only
      reached once `fan_in` has seen the record, so neither compare-and-swap
      can fail for a missing key. */
  method BecomeReviewer(db: DB, id: string) returns (elected: bool)
    requires Present(db.State(), id)
    modifies db.Store()
    ensures elected <==> Electable(old(db.Get(id)))
    ensures db.State() == if elected then Written(old(db.State()), db.useBoxes, id, Str(REVIEWING))
                          else old(db.State())
  {
    ghost var s := db.State();
    SwapStr(s, db.useBoxes, id, WAITING, Str(REVIEWING));
    var waiting := db.CompareAndSwap(id, Str(WAITING), Str(REVIEWING));
    ghost var s1 := db.State();
    ReadWrittenStr(s, db.useBoxes, id, REVIEWING);
    SwapStr(s1, db.useBoxes, id, FINISHED, Str(REVIEWING));
    var finished := db.CompareAndSwap(id, Str(FINISHED), Str(REVIEWING));
    elected := waiting.value || finished.value;
  }

  /** A truthy record is one the compare-and-swaps can look up. */
  lemma TruthyIsPresent(s: Snapshot, useBoxes: bool, id: string)
    requires Truthy(Read(s, useBoxes, id))
    ensures Present(s, id)
  {
  }

  /** `fan_in`: checks that the record exists, retries the election as
      `max_attempts` allows, and reviews when elected (or when the loop is
      left without an election, as with `max_attempts` 0). */
  method FanIn(db: DB, id: string, ready: bool, reduceResult: Value, maxAttempts: int)
    returns (r: Result<Value>, readyCalls: nat, reduceCalls: nat, sleeps: nat)
    modifies db.Store()
    ensures Run(r, db.State(), readyCalls, reduceCalls, sleeps)
         == Attempt(old(db.State()), db.useBoxes, id, ready, reduceResult, maxAttempts, FanInMissing(id))
  {
    readyCalls, reduceCalls, sleeps := 0, 0, 0;
    if !Truthy(db.Get(id)) {
      return Err(FanInMissing(id)), 0, 0, 0;
    }
    TruthyIsPresent(db.State(), db.useBoxes, id);
    ghost var record := db.Get(id);
    var attempts := 0;
    var elected := BecomeReviewer(db, id);
    while !elected && (maxAttempts == -1 || attempts < maxAttempts)
      invariant elected <==> Electable(record)
      invariant !elected ==> db.State() == old(db.State())
      invariant elected ==> attempts == 0 && db.State() == Written(old(db.State()), db.useBoxes, id, Str(REVIEWING))
      invariant Present(db.State(), id) && (!elected ==> db.Get(id) == record)
      invariant 0 <= attempts
      invariant maxAttempts >= 1 ==> attempts < maxAttempts
      invariant maxAttempts < 1 ==> attempts == 0
      decreases if maxAttempts >= 0 then maxAttempts - attempts else 0
    {
      // time.sleep(0.1)
      attempts := attempts + 1;
      if attempts >= maxAttempts {
        return Ok(NotReady), 0, 0, attempts;
      }
      elected := BecomeReviewer(db, id);
    }
    sleeps := attempts;
    if elected {
      ReadWrittenStr(old(db.State()), db.useBoxes, id, REVIEWING);
    }
    EqualStr(db.Get(id), FINISHED);
    if !Equal(db.Get(id), Str(FINISHED)) {
      readyCalls := 1;
      if ready {
        reduceCalls := 1;
        r := Ok(ReducedBox(reduceResult));
      } else {
        r := Ok(NotReady);
      }
    } else {
      r := Ok(NotReady);
    }
  }

  // ---------------------------------------------------------------------------
  // Properties of the protocol
  // ---------------------------------------------------------------------------

  /** A `reviewing` record refuses both compare-and-swaps of
      `become_reviewer`: neither answers true and the store is unchanged. */
  lemma ReviewingBlocksElection(s: Snapshot, useBoxes: bool, id: string)
    requires Read(s, useBoxes, id) == Str(REVIEWING)
    ensures Swap(s, useBoxes, id, Str(WAITING), Str(REVIEWING)) == (Ok(false), s)
    ensures Swap(s, useBoxes, id, Str(FINISHED), Str(REVIEWING)) == (Ok(false), s)
  {
    assert Present(s, id);
    SwapStr(s, useBoxes, id, WAITING, Str(REVIEWING));
    SwapStr(s, useBoxes, id, FINISHED, Str(REVIEWING));
  }

  /** An elected caller leaves the record `reviewing`, never `finished`,
      whether or not it was ready. */
  lemma ElectedLeavesReviewing(s: Snapshot, useBoxes: bool, id: string, ready: bool, reduceResult: Value,
                               maxAttempts: int, missing: Error)
    requires Electable(Read(s, useBoxes, id))
    ensures var run := Attempt(s, useBoxes, id, ready, reduceResult, maxAttempts, missing);
            Read(run.after, useBoxes, id) == Str(REVIEWING)
            && run.readyCalls == 1 && run.sleeps == 0
            && run.result == Ok(if ready then ReducedBox(reduceResult) else NotReady)
  {
    ReadWrittenStr(s, useBoxes, id, REVIEWING);
  }

  /** On a record held by another reviewer, a caller with `max_attempts` -1
      gives up after one election attempt and one sleep, and one with
      `max_attempts` n >= 1 after n; neither calls `ready_fn` nor changes
      the store. */
  lemma StuckCallerGivesUp(s: Snapshot, useBoxes: bool, id: string, ready: bool, reduceResult: Value,
                           maxAttempts: int, missing: Error)
    requires Read(s, useBoxes, id) == Str(REVIEWING)
    requires WaitsOnLoss(maxAttempts)
    ensures Attempt(s, useBoxes, id, ready, reduceResult, maxAttempts, missing)
         == Run(Ok(NotReady), s, 0, 0, if maxAttempts == -1 then 1 else maxAttempts)
  {
  }

  /** With `max_attempts` 0 (or below -1) a caller that lost the election
      still asks `ready_fn` and runs `reduce_fn`. */
  lemma LoserReviewsWithoutWaiting(s: Snapshot, useBoxes: bool, id: string, reduceResult: Value,
                                   maxAttempts: int, missing: Error)
    requires Read(s, useBoxes, id) == Str(REVIEWING)
    requires !WaitsOnLoss(maxAttempts)
    ensures Attempt(s, useBoxes, id, true, reduceResult, maxAttempts, missing)
         == Run(Ok(ReducedBox(reduceResult)), s, 1, 1, 0)
  {
  }

  /** A caller of the coordinator: what its callables return and its
      `max_attempts`. */
  datatype Caller = Caller(ready: bool, reduceResult: Value, maxAttempts: int)

  /** Totals of a sequence of callers, one after the other. */
  datatype Totals = Totals(after: Snapshot, reviews: nat, reductions: nat)

  /** The callers run one after the other against the same record. */
  function RunAll(s: Snapshot, useBoxes: bool, id: string, callers: seq<Caller>, missing: Error): Totals
    decreases |callers|
  {
    if callers == [] then Totals(s, 0, 0)
    else
      var c := callers[0];
      var run := Attempt(s, useBoxes, id, c.ready, c.reduceResult, c.maxAttempts, missing);
      var rest := RunAll(run.after, useBoxes, id, callers[1..], missing);
      Totals(rest.after, run.readyCalls + rest.reviews, run.reduceCalls + rest.reductions)
  }

  /** Once the record is neither `waiting` nor `finished`, callers that give
      up on losing never review and never change the store. */
  lemma {:induction false} BlockedStaysBlocked(s: Snapshot, useBoxes: bool, id: string, callers: seq<Caller>, missing: Error)
    requires !Electable(Read(s, useBoxes, id))
    requires forall i :: 0 <= i < |callers| ==> WaitsOnLoss(callers[i].maxAttempts)
    ensures RunAll(s, useBoxes, id, callers, missing) == Totals(s, 0, 0)
    decreases |callers|
  {
    if callers != [] {
      BlockedStaysBlocked(s, useBoxes, id, callers[1..], missing);
    }
  }

  /** At most one election: among callers that give up on losing (every
      `max_attempts` is -1 or at least 1), at most one reviews and at most
      one runs `reduce_fn`, whatever the record held before. */
  lemma {:induction false} AtMostOneReview(s: Snapshot, useBoxes: bool, id: string, callers: seq<Caller>, missing: Error)
    requires forall i :: 0 <= i < |callers| ==> WaitsOnLoss(callers[i].maxAttempts)
    ensures RunAll(s, useBoxes, id, callers, missing).reviews <= 1
    ensures RunAll(s, useBoxes, id, callers, missing).reductions <= 1
    decreases |callers|
  {
    if callers != [] {
      var c := callers[0];
      var run := Attempt(s, useBoxes, id, c.ready, c.reduceResult, c.maxAttempts, missing);
      if Electable(Read(s, useBoxes, id)) {
        ReadWrittenStr(s, useBoxes, id, REVIEWING);
        BlockedStaysBlocked(run.after, useBoxes, id, callers[1..], missing);
      } else {
        AtMostOneReview(s, useBoxes, id, callers[1..], missing);
      }
    }
  }

  /** `finished` is never written: if the record does not read `finished`
      before, it does not after any sequence of callers. */
  lemma {:induction false} NeverFinishes(s: Snapshot, useBoxes: bool, id: string, callers: seq<Caller>, missing: Error)
    requires Read(s, useBoxes, id) != Str(FINISHED)
    ensures Read(RunAll(s, useBoxes, id, callers, missing).after, useBoxes, id) != Str(FINISHED)
    decreases |callers|
  {
    if callers != [] {
      var c := callers[0];
      var run := Attempt(s, useBoxes, id, c.ready, c.reduceResult, c.maxAttempts, missing);
      ReadWrittenStr(s, useBoxes, id, REVIEWING);
      NeverFinishes(run.after, useBoxes, id, callers[1..], missing);
    }
  }

  /** Two callers with `max_attempts` 0 on a `waiting` record both run
      `reduce_fn`: the winner of the election and the loser, who leaves the
      retry loop without waiting. */
  lemma ZeroAttemptsReduceTwice(s: Snapshot, useBoxes: bool, id: string, first: Value, second: Value, missing: Error)
    requires Read(s, useBoxes, id) == Str(WAITING)
    ensures RunAll(s, useBoxes, id, [Caller(true, first, 0), Caller(true, second, 0)], missing).reductions == 2
  {
    ReadWrittenStr(s, useBoxes, id, REVIEWING);
    var run := Attempt(s, useBoxes, id, true, first, 0, missing);
    assert [Caller(true, first, 0), Caller(true, second, 0)][1..] == [Caller(true, second, 0)];
    assert RunAll(run.after, useBoxes, id, [Caller(true, second, 0)], missing).reductions == 1;
  }

  /** After `create_fan_in`, a caller whose `ready_fn` says no gets `False`
      and leaves the record `reviewing`, so a later caller that waits gets
      `False` too, without reviewing. */
  lemma NotReadyBlocksLaterCallers(s: Snapshot, useBoxes: bool, id: string, x: Value, y: Value,
                                   m1: int, m2: int, missing: Error)
    requires WaitsOnLoss(m2)
    ensures var created := Written(s, useBoxes, id, Str(WAITING));
            var first := Attempt(created, useBoxes, id, false, x, m1, missing);
            var second := Attempt(first.after, useBoxes, id, true, y, m2, missing);
            first.result == Ok(NotReady) && Read(first.after, useBoxes, id) == Str(REVIEWING)
            && second.result == Ok(NotReady) && second.readyCalls == 0 && second.after == first.after
  {
    var created := Written(s, useBoxes, id, Str(WAITING));
    ReadWrittenStr(s, useBoxes, id, WAITING);
    ReadWrittenStr(created, useBoxes, id, REVIEWING);
  }
}
