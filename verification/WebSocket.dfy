/**
 * The WebSocket subscriber. Deliveries overlap: each one checks the live
 * checkpoint under a read lock, runs the handler without any lock, and checks
 * again under the write lock before it advances the checkpoint.
 */
module WebSocket {
  import opened Prelude
  import opened Sync

  datatype Msg = Msg(lt: nat, hash: string)

  /** `passed` holds deliveries past the first check, `handled` those whose handler succeeded. */
  datatype State = State(
    live: nat,
    hash: string,
    passed: map<int, Msg>,
    handled: map<int, Msg>,
    done: seq<nat>,
    committed: seq<nat>,
    log: seq<Msg>,
    stored: Row)

  /** The atomic steps of concurrent deliveries; `id` names a delivery. */
  datatype Step =
    | Check(id: int, msg: Msg)
    | HandlerReturns(id: int, ok: bool)
    | Commit(id: int)
    | Callback

  predicate Accepted(live: nat, msg: Msg) {
    msg.lt != live && msg.lt > live
  }

  function Next(s: State, step: Step): State {
    match step
    case Check(id, msg) =>
      if id !in s.passed && id !in s.handled && Accepted(s.live, msg) then s.(passed := s.passed[id := msg]) else s
    case HandlerReturns(id, ok) =>
      if id !in s.passed then s else
      var msg := s.passed[id];
      var rest := s.(passed := s.passed - {id});
      if ok then rest.(handled := s.handled[id := msg], done := s.done + [msg.lt]) else rest
    case Commit(id) =>
      if id !in s.handled then s else
      var msg := s.handled[id];
      var rest := s.(handled := s.handled - {id}, committed := s.committed + [msg.lt], log := s.log + [msg]);
      if msg.lt > s.live then rest.(live := msg.lt, hash := msg.hash) else rest
    case Callback => s.(stored := Persist(s.stored, s.stored.contract, s.live))
  }

  function RunAll(s: State, steps: seq<Step>): State {
    if steps == [] then s else Next(RunAll(s, steps[..|steps| - 1]), steps[|steps| - 1])
  }

  function Resumed(row: Row): State {
    State(row.lt, "", map[], map[], [], [], [], row)
  }

  ghost predicate Inv(resume: nat, s: State) {
    && IsMax(resume, s.committed, s.live)
    && (forall x :: x in s.committed ==> x in s.done)
    && (forall id :: id in s.handled ==> s.handled[id].lt in s.done)
    && resume <= s.stored.lt <= s.live
    && ((s.live == resume && s.hash == "") || Msg(s.live, s.hash) in s.log)
    && (forall m :: m in s.log ==> m.lt in s.committed)
  }

  lemma StepKeeps(resume: nat, s: State, step: Step)
    requires Inv(resume, s)
    ensures Inv(resume, Next(s, step)) && s.live <= Next(s, step).live && s.stored.lt <= Next(s, step).stored.lt
    ensures s.committed <= Next(s, step).committed
  {
  }

  /**
   * Under every interleaving the live checkpoint is the largest time committed,
   * every committed time was handled successfully, and neither checkpoint falls.
   */
  lemma {:induction false} LiveCheckpoint(row: Row, steps: seq<Step>)
    ensures Inv(row.lt, RunAll(Resumed(row), steps))
    ensures steps != [] ==> RunAll(Resumed(row), steps[..|steps| - 1]).live <= RunAll(Resumed(row), steps).live
    decreases |steps|
  {
    if steps != [] {
      LiveCheckpoint(row, steps[..|steps| - 1]);
      StepKeeps(row.lt, RunAll(Resumed(row), steps[..|steps| - 1]), steps[|steps| - 1]);
    }
  }

  /** Time and hash of the live checkpoint are those of one committed transaction, once it has moved. */
  lemma HashBelongsToLive(row: Row, steps: seq<Step>)
    ensures
      var s := RunAll(Resumed(row), steps);
      s.live > row.lt ==> Msg(s.live, s.hash) in s.log && s.live in s.committed
  {
    LiveCheckpoint(row, steps);
  }

  /** A callback brings the stored checkpoint up to the live one, whatever callbacks were missed or late before. */
  lemma CallbackCatchesUp(row: Row, steps: seq<Step>)
    ensures RunAll(Resumed(row), steps + [Callback]).stored == Row(row.contract, RunAll(Resumed(row), steps).live)
  {
    var all := steps + [Callback];
    assert all[..|all| - 1] == steps;
    LiveCheckpoint(row, steps);
    ContractStays(row, steps);
  }

  lemma {:induction false} ContractStays(row: Row, steps: seq<Step>)
    ensures RunAll(Resumed(row), steps).stored.contract == row.contract
    decreases |steps|
  {
    if steps != [] {
      ContractStays(row, steps[..|steps| - 1]);
    }
  }

  /** A transaction delivered again is forwarded to the handler exactly when nothing at or after its time was committed. */
  lemma RedeliveredIff(row: Row, steps: seq<Step>, msg: Msg)
    ensures
      var s := RunAll(Resumed(row), steps);
      Accepted(s.live, msg) <==> row.lt < msg.lt && forall x :: x in s.committed ==> x < msg.lt
  {
    LiveCheckpoint(row, steps);
  }

  /** A run and its continuation. */
  lemma {:induction false} RunOn(s: State, steps: seq<Step>, more: seq<Step>)
    ensures RunAll(s, steps + more) == RunAll(RunAll(s, steps), more)
    decreases |more|
  {
    if more == [] {
      assert steps + more == steps;
    } else {
      var n, all := |more| - 1, steps + more;
      RunOn(s, steps, more[..n]);
      assert all[..|all| - 1] == steps + more[..n] && all[|all| - 1] == more[n];
    }
  }

  /** The checkpoint at any later moment is at least what it is now. */
  lemma {:induction false} NeverFalls(row: Row, steps: seq<Step>, more: seq<Step>)
    ensures RunAll(Resumed(row), steps).live <= RunAll(Resumed(row), steps + more).live
    decreases |more|
  {
    if more == [] {
      assert steps + more == steps;
    } else {
      var n, all := |more| - 1, steps + more;
      NeverFalls(row, steps, more[..n]);
      assert all[..|all| - 1] == steps + more[..n];
      LiveCheckpoint(row, all);
    }
  }

  /**
   * Skipped for good: once any time at or after that of `a` is committed, no
   * continuation of the run ever forwards `a`, whether it was handled or failed.
   */
  lemma SkippedForGood(row: Row, steps: seq<Step>, more: seq<Step>, a: Msg)
    requires exists x :: x in RunAll(Resumed(row), steps).committed && x >= a.lt
    ensures !Accepted(RunAll(Resumed(row), steps + more).live, a)
  {
    LiveCheckpoint(row, steps);
    NeverFalls(row, steps, more);
  }

  /** What one delivery that is not interleaved with others does. */
  function Alone(id: int, msg: Msg, ok: bool): seq<Step> {
    [Check(id, msg), HandlerReturns(id, ok), Commit(id)]
  }

  lemma AloneEffect(s: State, id: int, msg: Msg, ok: bool)
    requires id !in s.passed && id !in s.handled && Accepted(s.live, msg)
    ensures
      var z := RunAll(s, Alone(id, msg, ok));
      if ok then z.live == msg.lt && z.done == s.done + [msg.lt] && z.committed == s.committed + [msg.lt]
      else z.live == s.live && z.done == s.done && z.committed == s.committed
    ensures RunAll(s, Alone(id, msg, ok)).passed == s.passed && RunAll(s, Alone(id, msg, ok)).handled == s.handled
  {
    var a, b, c := Check(id, msg), HandlerReturns(id, ok), Commit(id);
    var s1 := Next(s, a);
    var s2 := Next(s1, b);
    assert [a, b, c][..2] == [a, b] && [a, b][..1] == [a] && [a][..0] == [];
    assert RunAll(s, [a]) == s1 && RunAll(s, [a, b]) == s2;
    assert s1.passed - {id} == s.passed;
    if ok {
      assert s2.handled - {id} == s.handled;
    }
  }

  /** A transaction whose handler failed is never forwarded again once a later one has gone through. */
  lemma FailureIsSkipped(row: Row, a: Msg, b: Msg, more: seq<Step>)
    requires row.lt < a.lt < b.lt
    ensures
      var steps := Alone(1, a, false) + Alone(2, b, true);
      && a.lt !in RunAll(Resumed(row), steps).done
      && !Accepted(RunAll(Resumed(row), steps + more).live, a)
  {
    var s0, first := Resumed(row), Alone(1, a, false);
    var steps := first + Alone(2, b, true);
    var s1 := RunAll(s0, first);
    AloneEffect(s0, 1, a, false);
    AloneEffect(s1, 2, b, true);
    RunOn(s0, first, Alone(2, b, true));
    assert b.lt in RunAll(s0, steps).committed;
    SkippedForGood(row, steps, more, a);
  }

  /** The two critical sections of HandleTransaction; `state` is the state they are steps of. */
  class Subscriber {
    var lastProcessedLt: nat
    var lastProcessedHash: string
    ghost var state: State

    ghost predicate Valid()
      reads this
    {
      state.live == lastProcessedLt && state.hash == lastProcessedHash
    }

    constructor (row: Row)
      ensures Valid() && state == Resumed(row)
    {
      lastProcessedLt, lastProcessedHash, state := row.lt, "", Resumed(row);
    }

    /** `forward` tells whether the handler is to be called. */
    method CheckUnderReadLock(ghost id: int, msg: Msg) returns (forward: bool)
      requires Valid() && id !in state.passed && id !in state.handled
      modifies this`state
      ensures Valid() && state == Next(old(state), Check(id, msg))
      ensures forward == (id in state.passed)
    {
      state := Next(state, Check(id, msg));
      if msg.lt == lastProcessedLt {
        return false;
      }
      forward := msg.lt > lastProcessedLt;
    }

    /** Between the two sections: the handler of a delivery returns. */
    ghost method HandlerReturned(id: int, ok: bool)
      requires Valid()
      modifies this`state
      ensures Valid() && state == Next(old(state), HandlerReturns(id, ok))
    {
      state := Next(state, HandlerReturns(id, ok));
    }

    /** `callback` tells whether the checkpoint callback is to be run. */
    method CommitUnderWriteLock(ghost id: int, msg: Msg) returns (callback: bool)
      requires Valid() && id in state.handled && state.handled[id] == msg
      modifies this
      ensures Valid() && state == Next(old(state), Commit(id))
      ensures callback == (lastProcessedLt > old(lastProcessedLt))
    {
      state := Next(state, Commit(id));
      callback := msg.lt > lastProcessedLt;
      if callback {
        lastProcessedLt := msg.lt;
        lastProcessedHash := msg.hash;
      }
    }

    /** One delivery that is not interleaved with others; `accepts` is what the handler answers. */
    method HandleTransaction(ghost id: int, msg: Msg, accepts: bool) returns (ok: bool, callback: bool)
      requires Valid() && id !in state.passed && id !in state.handled
      modifies this
      ensures Valid() && ok == (accepts || !Accepted(old(state).live, msg))
      ensures state == Next(Next(Next(old(state), Check(id, msg)), HandlerReturns(id, accepts)), Commit(id))
      ensures callback == (accepts && Accepted(old(state).live, msg))
    {
      var forward := CheckUnderReadLock(id, msg);
      HandlerReturned(id, accepts);
      if !forward {
        return true, false;
      }
      if !accepts {
        return false, false;
      }
      ok := true;
      callback := CommitUnderWriteLock(id, msg);
    }
  }
}
