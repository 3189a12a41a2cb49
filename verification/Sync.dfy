/**
 * The stored checkpoint: one row, overwritten by a conditional update, read
 * back when the process starts.
 */
module Sync {
  import opened Prelude

  /** blockchain_sync_state; addresses are compared after trimming, which is left to the caller. */
  datatype Row = Row(contract: string, lt: nat)

  /** The CASE expression of PersistCheckpoint. */
  function Persist(row: Row, contract: string, lt: nat): Row {
    Row(contract, if row.contract != contract then lt else if row.lt <= lt then lt else row.lt)
  }

  /** shouldResumeCheckpoint, and the logical time a new process starts from. */
  predicate ShouldResume(enabled: bool, row: Option<Row>, configured: string) {
    enabled && row.Some? && row.value.contract != "" && row.value.contract == configured
  }

  function ResumePoint(enabled: bool, row: Option<Row>, configured: string): nat {
    if ShouldResume(enabled, row, configured) then row.value.lt else 0
  }

  class SyncStore {
    var row: Row

    constructor (row: Row)
      ensures this.row == row
    {
      this.row := row;
    }

    method PersistCheckpoint(contract: string, lt: nat)
      modifies this
      ensures row == Persist(old(row), contract, lt)
    {
      if row.contract != contract {
        row := Row(contract, lt);
      } else if row.lt <= lt {
        row := Row(contract, lt);
      }
    }
  }

  function PersistAll(row: Row, contract: string, lts: seq<nat>): Row {
    if lts == [] then row else Persist(PersistAll(row, contract, lts[..|lts| - 1]), contract, lts[|lts| - 1])
  }

  /** `m` is the largest of `lts` and `floor`. */
  ghost predicate IsMax(floor: nat, lts: seq<nat>, m: nat) {
    && floor <= m && (m == floor || m in lts)
    && forall x :: x in lts ==> x <= m
  }

  /** For a fixed contract the stored time is the largest ever written. */
  lemma {:induction false} StoredIsMax(row: Row, lts: seq<nat>)
    ensures PersistAll(row, row.contract, lts).contract == row.contract
    ensures IsMax(row.lt, lts, PersistAll(row, row.contract, lts).lt)
    decreases |lts|
  {
    if lts != [] {
      var n := |lts| - 1;
      StoredIsMax(row, lts[..n]);
      assert lts == lts[..n] + [lts[n]];
    }
  }

  /** So the order in which callbacks run does not matter. */
  lemma OrderIrrelevant(row: Row, a: seq<nat>, b: seq<nat>)
    requires multiset(a) == multiset(b)
    ensures PersistAll(row, row.contract, a) == PersistAll(row, row.contract, b)
  {
    StoredIsMax(row, a);
    StoredIsMax(row, b);
    assert forall x :: x in a <==> x in multiset(a);
    assert forall x :: x in b <==> x in multiset(b);
  }

  /** A restart under the same contract resumes at the largest time written; under another one it starts over. */
  lemma ResumeAfterPersist(row: Row, lts: seq<nat>, configured: string)
    requires row.contract != ""
    ensures
      var p := ResumePoint(true, Some(PersistAll(row, row.contract, lts)), configured);
      if configured == row.contract then IsMax(row.lt, lts, p) else p == 0
  {
    StoredIsMax(row, lts);
  }

  // ---------------------------------------------------------------- several contracts

  /** A checkpoint written for a contract. */
  datatype Write = Write(contract: string, lt: nat)

  function PersistWrites(row: Row, ws: seq<Write>): Row {
    if ws == [] then row else
    var last := ws[|ws| - 1];
    Persist(PersistWrites(row, ws[..|ws| - 1]), last.contract, last.lt)
  }

  /** Where the final stretch of writes for one contract begins. */
  function StretchStart(ws: seq<Write>): (k: nat)
    ensures k <= |ws| && (ws != [] ==> k < |ws|)
    ensures forall i :: k <= i < |ws| ==> ws[i].contract == ws[|ws| - 1].contract
    ensures k > 0 ==> ws[k - 1].contract != ws[|ws| - 1].contract
  {
    if |ws| <= 1 then 0
    else if ws[|ws| - 2].contract == ws[|ws| - 1].contract then StretchStart(ws[..|ws| - 1])
    else |ws| - 1
  }

  /** The time the final stretch starts from: that of the row if it has been for this contract all along. */
  function Floor(row: Row, ws: seq<Write>): nat {
    if StretchStart(ws) == 0 && (ws == [] || ws[|ws| - 1].contract == row.contract) then row.lt else 0
  }

  function Times(ws: seq<Write>): seq<nat> {
    seq(|ws|, i requires 0 <= i < |ws| => ws[i].lt)
  }

  lemma MaxGrows(floor: nat, lts: seq<nat>, m: nat, x: nat)
    requires IsMax(floor, lts, m)
    ensures IsMax(floor, lts + [x], Max(m, x))
  {
    assert x == (lts + [x])[|lts|];
  }

  lemma TimesGrow(ws: seq<Write>, w: Write)
    ensures Times(ws + [w]) == Times(ws) + [w.lt]
  {
  }

  /** One more write for the contract of the one before it. */
  lemma StretchContinues(row: Row, ws: seq<Write>)
    requires |ws| > 1 && ws[|ws| - 2].contract == ws[|ws| - 1].contract
    ensures
      var before, last, k := ws[..|ws| - 1], ws[|ws| - 1], StretchStart(ws);
      && k == StretchStart(before) && Floor(row, ws) == Floor(row, before)
      && Times(ws[k..]) == Times(before[k..]) + [last.lt]
  {
    var before, last, k := ws[..|ws| - 1], ws[|ws| - 1], StretchStart(ws);
    assert before[|before| - 1] == ws[|ws| - 2];
    assert ws[k..] == before[k..] + [last];
    TimesGrow(before[k..], last);
  }

  /** A write for another contract, or the first one. */
  lemma StretchBegins(row: Row, ws: seq<Write>)
    requires ws != [] && (|ws| > 1 ==> ws[|ws| - 2].contract != ws[|ws| - 1].contract)
    ensures
      && StretchStart(ws) == |ws| - 1 && Times(ws[StretchStart(ws)..]) == [ws[|ws| - 1].lt]
      && Floor(row, ws) == if |ws| == 1 && ws[0].contract == row.contract then row.lt else 0
  {
    assert ws[|ws| - 1..] == [ws[|ws| - 1]];
  }

  /**
   * For writes of any contracts: the row carries the contract written last, and
   * its time is the largest of the final stretch of writes for that contract. What
   * an earlier contract had reached counts for nothing.
   */
  lemma {:induction false} StoredIsMaxOfStretch(row: Row, ws: seq<Write>)
    ensures PersistWrites(row, ws).contract == if ws == [] then row.contract else ws[|ws| - 1].contract
    ensures IsMax(Floor(row, ws), Times(ws[StretchStart(ws)..]), PersistWrites(row, ws).lt)
    decreases |ws|
  {
    if ws != [] {
      var n := |ws| - 1;
      var before := ws[..n];
      StoredIsMaxOfStretch(row, before);
      assert n > 0 ==> before[n - 1] == ws[n - 1];
      if n > 0 && ws[n - 1].contract == ws[n].contract {
        StretchContinues(row, ws);
        MaxGrows(Floor(row, before), Times(before[StretchStart(ws)..]), PersistWrites(row, before).lt, ws[n].lt);
      } else {
        StretchBegins(row, ws);
        assert ws[n].lt in [ws[n].lt];
      }
    }
  }

  /** A restart resumes there for the contract written last, and starts over for any other or when resuming is off. */
  lemma ResumeAfterWrites(enabled: bool, row: Row, ws: seq<Write>, configured: string)
    requires ws != []
    ensures
      var p := ResumePoint(enabled, Some(PersistWrites(row, ws)), configured);
      if enabled && configured != "" && configured == ws[|ws| - 1].contract
      then IsMax(Floor(row, ws), Times(ws[StretchStart(ws)..]), p) else p == 0
  {
    StoredIsMaxOfStretch(row, ws);
  }

  /** Without a stored row there is nothing to resume from. */
  lemma NothingStored(enabled: bool, configured: string)
    ensures ResumePoint(enabled, None, configured) == 0
  {
  }
}
