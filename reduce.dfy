/** botleague_helpers/reduce.py: the same coordination protocol as
    `fan_in`, under the name `try_reduce_async`, with the `finished` test
    written the other way round and its own error message. */
module Reduce {
  import opened Py
  import opened Db
  import opened FanIn

  /** The message of the RuntimeError `try_reduce_async` raises for a
      missing record. */
  function ReduceMissing(id: string): Error {
    RuntimeError("Reduce collection " + id + " does not exist")
  }

  /** `create_reduce`: unconditionally sets the record to `waiting`. */
  method CreateReduce(db: DB, id: string)
    modifies db.Store()
    ensures db.State() == Written(old(db.State()), db.useBoxes, id, Str(WAITING))
    ensures db.Get(id) == Str(WAITING)
  {
    db.Set(id, Str(WAITING));
    ReadWrittenStr(old(db.State()), db.useBoxes, id, WAITING);
  }

  /** `try_reduce_async`: one call has the effect `Attempt` describes, with
      this module's error message; so everything proved about `fan_in`
      callers (at most one reduction among waiting callers, `finished`
      never written) holds for it too. */
  method TryReduceAsync(db: DB, id: string, ready: bool, reduceResult: Value, maxAttempts: int)
    returns (r: Result<Value>, readyCalls: nat, reduceCalls: nat, sleeps: nat)
    modifies db.Store()
    ensures Run(r, db.State(), readyCalls, reduceCalls, sleeps)
         == Attempt(old(db.State()), db.useBoxes, id, ready, reduceResult, maxAttempts, ReduceMissing(id))
  {
    readyCalls, reduceCalls, sleeps := 0, 0, 0;
    if !Truthy(db.Get(id)) {
      return Err(ReduceMissing(id)), 0, 0, 0;
    }
    TruthyIsPresent(db.State(), db.useBoxes, id);
    ghost var record := db.Get(id);
    var attempts := 0;
    var elected := BecomeReviewer(db, id);
    while !elected && (maxAttempts == -1 || attempts < maxAttempts)
      invariant elected <==> Electable(record)
      invariant !elected ==> db.State() == old(db.State())
      invariant elected ==> attempts == 0 && db.State() == Written(old(db.State()), db.useBoxes, id, Str(REVIEWING))
      invariant Present(db.State(), id) && (!elected ==> db.Get(id) == record)
      invariant 0 <= attempts
      invariant maxAttempts >= 1 ==> attempts < maxAttempts
      invariant maxAttempts < 1 ==> attempts == 0
      decreases if maxAttempts >= 0 then maxAttempts - attempts else 0
    {
      // time.sleep(0.1)
      attempts := attempts + 1;
      if attempts >= maxAttempts {
        return Ok(NotReady), 0, 0, attempts;
      }
      elected := BecomeReviewer(db, id);
    }
    sleeps := attempts;
    if elected {
      ReadWrittenStr(old(db.State()), db.useBoxes, id, REVIEWING);
    }
    EqualStr(db.Get(id), FINISHED);
    if Equal(db.Get(id), Str(FINISHED)) {
      r := Ok(NotReady);
    } else if ready {
      readyCalls, reduceCalls := 1, 1;
      r := Ok(ReducedBox(reduceResult));
    } else {
      readyCalls := 1;
      r := Ok(NotReady);
    }
  }

  /** `fan_in` and `try_reduce_async` behave alike on every store: they
      leave the same store, make the same calls and return the same value,
      and raise for the same records, only with different messages. */
  lemma SameProtocol(s: Snapshot, useBoxes: bool, id: string, ready: bool, reduceResult: Value, maxAttempts: int)
    ensures var f := Attempt(s, useBoxes, id, ready, reduceResult, maxAttempts, FanInMissing(id));
            var g := Attempt(s, useBoxes, id, ready, reduceResult, maxAttempts, ReduceMissing(id));
            f.after == g.after && f.readyCalls == g.readyCalls && f.reduceCalls == g.reduceCalls
            && f.sleeps == g.sleeps && f.result.Ok? == g.result.Ok?
            && (f.result.Ok? ==> f.result == g.result)
            && (f.result.Err? ==> f.result.error != g.result.error)
  {
    var msg := "Fan in collection " + id + " does not exist";
    var other := "Reduce collection " + id + " does not exist";
    assert msg[0] != other[0];
  }
}
