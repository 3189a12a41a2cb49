/**
 * The whole ingestion pipeline: a chain becoming visible, the poller, the
 * handlers with faults at any database call, the stored checkpoint and
 * restarts from it. The tables a run ends with are those of the run in which
 * nothing ever failed.
 */
module Pipeline {
  import opened Prelude
  import opened Tables
  import opened Handlers
  import opened Delivery
  import opened Recovery
  import opened Provenance
  import opened Ledger
  import opened Chain
  import Poller
  import Sync

  // ---------------------------------------------------------------- replay

  /** Everything in a processed history is absorbed. */
  lemma {:induction false} AllAbsorbed(ph: Phases, t: Tables, evs: seq<Event>, n: nat, i: nat)
    requires Ledger.Inv(ph, t) && ContractOrdered(ph, t, evs) && i < n <= |evs|
    ensures Absorbed(Base(t, evs[..n]), evs[i])
    decreases n
  {
    NextIsAccepted(ph, t, evs, n - 1);
    if i < n - 1 {
      AllAbsorbed(ph, t, evs, n - 1, i);
      AbsorbedStays(Base(t, evs[..n - 1]), Base(t, evs[..n]), evs[i]);
    }
  }

  /**
   * After a processed history any redelivery of its events, in any order, any
   * number of times and under any faults, changes no table.
   */
  lemma {:induction false} ReplayChangesNothing(ph: Phases, t: Tables, evs: seq<Event>, ds: seq<Attempted>)
    requires Ledger.Inv(ph, t) && ContractOrdered(ph, t, evs)
    requires forall i :: 0 <= i < |ds| ==> ds[i].event in evs && |ds[i].plan| > 0
    ensures DeliverAll(Base(t, evs), ds) == Base(t, evs)
    decreases |ds|
  {
    if ds != [] {
      assert ds[0].event in evs;
      var i :| 0 <= i < |evs| && evs[i] == ds[0].event;
      assert evs[..|evs|] == evs;
      AllAbsorbed(ph, t, evs, |evs|, i);
      RedeliveryChangesNothing(Base(t, evs), ds[0].event, ds[0].plan);
      ReplayChangesNothing(ph, t, evs, ds[1..]);
    }
  }

  /** A delivery of the next event of a history, or of one that has been delivered before. */
  datatype Turn = Onward | Again(index: nat, plan: Plan)

  function Reached(turns: seq<Turn>): nat {
    if turns == [] then 0 else Reached(turns[..|turns| - 1]) + if turns[|turns| - 1].Onward? then 1 else 0
  }

  /** New events come in order, and only delivered ones are repeated. */
  predicate Fits(turns: seq<Turn>, length: nat) {
    turns == [] || (
      var n, before := |turns| - 1, turns[..|turns| - 1];
      Fits(before, length) && if turns[n].Onward? then Reached(before) < length else turns[n].index < Reached(before))
  }

  lemma {:induction false} ReachedWithin(turns: seq<Turn>, length: nat)
    requires Fits(turns, length)
    ensures Reached(turns) <= length
    decreases |turns|
  {
    if turns != [] {
      ReachedWithin(turns[..|turns| - 1], length);
    }
  }

  function AfterTurns(t: Tables, evs: seq<Event>, turns: seq<Turn>): Tables
    requires Fits(turns, |evs|)
    decreases |turns|
  {
    if turns == [] then t else
    var n, before := |turns| - 1, turns[..|turns| - 1];
    ReachedWithin(before, |evs|);
    if turns[n].Onward? then Apply(AfterTurns(t, evs, before), evs[Reached(before)]).tables
    else Deliver(AfterTurns(t, evs, before), evs[turns[n].index], turns[n].plan).tables
  }

  /** Duplicates anywhere in a history, however they end, leave no trace. */
  lemma {:induction false} DuplicatesLeaveNoTrace(ph: Phases, t: Tables, evs: seq<Event>, turns: seq<Turn>)
    requires Ledger.Inv(ph, t) && ContractOrdered(ph, t, evs) && Fits(turns, |evs|)
    ensures Reached(turns) <= |evs| && AfterTurns(t, evs, turns) == Base(t, evs[..Reached(turns)])
    decreases |turns|
  {
    ReachedWithin(turns, |evs|);
    if turns != [] {
      var n, before := |turns| - 1, turns[..|turns| - 1];
      DuplicatesLeaveNoTrace(ph, t, evs, before);
      if turns[n].Onward? {
        NextIsAccepted(ph, t, evs, Reached(before));
      } else {
        AllAbsorbed(ph, t, evs, Reached(before), turns[n].index);
        RedeliveryChangesNothing(AfterTurns(t, evs, before), evs[turns[n].index], turns[n].plan);
      }
    }
  }

  lemma {:induction false} FitsBefore(turns: seq<Turn>, m: nat, length: nat)
    requires Fits(turns, length) && m <= |turns|
    ensures Fits(turns[..m], length) && Reached(turns[..m]) <= Reached(turns)
    decreases |turns|
  {
    if m < |turns| {
      FitsBefore(turns[..|turns| - 1], m, length);
      assert turns[..|turns| - 1][..m] == turns[..m];
    } else {
      assert turns[..m] == turns;
    }
  }

  /** With duplicates anywhere, games still only move forward and the ledger invariant holds at every moment. */
  lemma LifecycleWithDuplicates(ph: Phases, t: Tables, evs: seq<Event>, turns: seq<Turn>, m: nat)
    requires Ledger.Inv(ph, t) && ContractOrdered(ph, t, evs) && Fits(turns, |evs|) && m <= |turns|
    ensures Fits(turns[..m], |evs|)
    ensures Evolves(AfterTurns(t, evs, turns[..m]), AfterTurns(t, evs, turns))
    ensures exists now :: Ledger.Inv(now, AfterTurns(t, evs, turns))
  {
    FitsBefore(turns, m, |evs|);
    DuplicatesLeaveNoTrace(ph, t, evs, turns);
    DuplicatesLeaveNoTrace(ph, t, evs, turns[..m]);
    Lifecycle(ph, t, evs, Reached(turns[..m]), Reached(turns));
    LedgerHolds(ph, t, evs, Reached(turns));
  }

  // ---------------------------------------------------------------- handling a batch

  /** How many transactions were accepted before the first refusal or the end of the process. */
  datatype Progress = Progress(accepted: nat, tables: Tables)

  /** One transaction; traffic that is not a game event is acknowledged without effect. */
  function Handle(t: Tables, tx: Tx, plan: Plan): Attempt {
    if tx.event.None? then Attempt(t, false, true) else Deliver(t, tx.event.value, plan)
  }

  /** The handling loop of a poll; a list of plans shorter than the batch is a process that dies between two transactions. */
  function Process(t: Tables, txs: seq<Tx>, plans: seq<Plan>): (p: Progress)
    ensures p.accepted <= |txs|
    decreases |txs|
  {
    if txs == [] || plans == [] then Progress(0, t) else
    var a := Handle(t, txs[0], plans[0]);
    if !a.ok then Progress(0, a.tables) else
    var rest := Process(a.tables, txs[1..], plans[1..]);
    Progress(1 + rest.accepted, rest.tables)
  }

  /**
   * Faults under which an event can still be completed later: it is a duplicate,
   * or the attempts stop at points from which Recovery shows a way back. Apart
   * from the second player of a drawn game this is a condition on the plan alone.
   */
  ghost predicate SafeDelivery(t: Tables, tx: Tx, plan: Plan) {
    tx.event.Some? ==> tx.event.value.Key() in t.events || Recoverable(t, tx.event.value, plan)
  }

  ghost predicate SafeProcess(t: Tables, txs: seq<Tx>, plans: seq<Plan>)
    decreases |txs|
  {
    txs == [] || plans == [] || (
      && SafeDelivery(t, txs[0], plans[0])
      && (Handle(t, txs[0], plans[0]).ok ==> SafeProcess(Handle(t, txs[0], plans[0]).tables, txs[1..], plans[1..])))
  }

  // ---------------------------------------------------------------- the system

  /** `seen` transactions of the chain exist so far; `mem` is the poller's checkpoint, `row` the stored one. */
  datatype Sys = Sys(seen: nat, mem: nat, row: Sync.Row, tables: Tables)

  datatype Move =
    | Grow(txs: nat)
    | Poll(pages: nat, plans: seq<Plan>, persisted: bool)
    | Restart

  function Visible(c: seq<Tx>, s: Sys): seq<Tx> {
    c[..Min(s.seen, |c|)]
  }

  /** The batch a poll hands over; empty when a request fails. */
  function Handed(c: seq<Tx>, s: Sys, pages: nat): seq<Tx> {
    Poller.Batch(Visible(c, s), s.mem, pages).GetOr([])
  }

  function Step(c: seq<Tx>, s: Sys, m: Move): Sys {
    match m
    case Grow(txs) => s.(seen := s.seen + txs)
    case Restart => s.(mem := Sync.ResumePoint(true, Some(s.row), s.row.contract))
    case Poll(pages, plans, persisted) =>
      var p := Process(s.tables, Handed(c, s, pages), plans);
      var o := Poller.Cycle(Visible(c, s), s.mem, pages, p.accepted);
      Sys(s.seen, o.cp,
          if persisted && o.saved.Some? then Sync.Persist(s.row, s.row.contract, o.saved.value) else s.row,
          p.tables)
  }

  function Run(c: seq<Tx>, s: Sys, ms: seq<Move>): Sys {
    if ms == [] then s else Step(c, Run(c, s, ms[..|ms| - 1]), ms[|ms| - 1])
  }

  ghost predicate SafeMove(c: seq<Tx>, s: Sys, m: Move) {
    m.Poll? ==> SafeProcess(s.tables, Handed(c, s, m.pages), m.plans)
  }

  ghost predicate SafeRun(c: seq<Tx>, s: Sys, ms: seq<Move>) {
    ms == [] || (SafeRun(c, s, ms[..|ms| - 1]) && SafeMove(c, Run(c, s, ms[..|ms| - 1]), ms[|ms| - 1]))
  }

  // ---------------------------------------------------------------- the run without failures

  /** The game events among the first `n` transactions from index `a` on. */
  function EventsUpTo(c: seq<Tx>, a: nat, n: nat): seq<Event>
    requires a <= n <= |c|
    decreases n
  {
    if n == a then [] else
    EventsUpTo(c, a, n - 1) + if c[n - 1].event.Some? then [c[n - 1].event.value] else []
  }

  /** The setting of a run: a chain, the checkpoint and tables it starts from, and a history the contract can emit. */
  datatype Scene = Scene(chain: seq<Tx>, start: nat, tables: Tables, phases: Phases) {
    function From(): nat {
      Above(chain, start)
    }

    function Events(): seq<Event> {
      EventsUpTo(chain, From(), |chain|)
    }

    /** The tables when the transactions before index `k` have each been handled once, without faults. */
    function Ideal(k: nat): Tables
      requires From() <= k <= |chain|
    {
      Base(tables, EventsUpTo(chain, From(), k))
    }

    ghost predicate Valid() {
      && ValidChain(chain) && start != 0
      && Ledger.Inv(phases, tables) && ContractOrdered(phases, tables, Events())
    }

    function Begin(contract: string, seen: nat): Sys {
      Sys(seen, start, Sync.Row(contract, start), tables)
    }
  }

  lemma {:induction false} EventsPrefix(c: seq<Tx>, a: nat, k: nat, n: nat)
    requires a <= k <= n <= |c|
    ensures |EventsUpTo(c, a, k)| <= |EventsUpTo(c, a, n)|
    ensures EventsUpTo(c, a, n)[..|EventsUpTo(c, a, k)|] == EventsUpTo(c, a, k)
    decreases n
  {
    if k < n {
      EventsPrefix(c, a, k, n - 1);
    }
  }

  lemma {:induction false} EventIsListed(c: seq<Tx>, a: nat, i: nat, n: nat)
    requires a <= i < n <= |c| && c[i].event.Some?
    ensures |EventsUpTo(c, a, i)| < |EventsUpTo(c, a, n)|
    ensures EventsUpTo(c, a, n)[|EventsUpTo(c, a, i)|] == c[i].event.value
  {
    EventsPrefix(c, a, i + 1, n);
    var all, upTo := EventsUpTo(c, a, n), EventsUpTo(c, a, i + 1);
    assert all[..|upTo|][|upTo| - 1] == upTo[|upTo| - 1];
  }

  /** What one more transaction adds to the ideal run. */
  lemma IdealNext(q: Scene, k: nat)
    requires q.Valid() && q.From() <= k < |q.chain|
    ensures q.chain[k].event.None? ==> q.Ideal(k + 1) == q.Ideal(k)
    ensures q.chain[k].event.Some? ==>
      var ev := q.chain[k].event.value;
      && ev.Key() !in q.Ideal(k).events
      && Apply(q.Ideal(k), ev).ok
      && q.Ideal(k + 1) == Apply(q.Ideal(k), ev).tables
  {
    var c, a := q.chain, q.From();
    if c[k].event.Some? {
      var n := |EventsUpTo(c, a, k)|;
      EventIsListed(c, a, k, |c|);
      EventsPrefix(c, a, k, |c|);
      EventsPrefix(c, a, k + 1, |c|);
      NextIsAccepted(q.phases, q.tables, q.Events(), n);
    } else {
      assert EventsUpTo(c, a, k + 1) == EventsUpTo(c, a, k);
    }
  }

  lemma IdealAbsorbs(q: Scene, k: nat, i: nat)
    requires q.Valid() && q.From() <= i < k <= |q.chain| && q.chain[i].event.Some?
    ensures Absorbed(q.Ideal(k), q.chain[i].event.value)
  {
    var c, a := q.chain, q.From();
    EventIsListed(c, a, i, k);
    EventsPrefix(c, a, k, |c|);
    var m, n := |EventsUpTo(c, a, i)|, |EventsUpTo(c, a, k)|;
    assert q.Events()[..n][m] == q.Events()[m];
    AllAbsorbed(q.phases, q.tables, q.Events(), n, m);
  }

  // ---------------------------------------------------------------- the invariant

  /** Everything before `k` is in the tables exactly once; of `k` itself at most a repairable part. */
  ghost predicate Frontier(q: Scene, k: nat, t: Tables)
    requires q.From() <= k <= |q.chain|
  {
    || t == q.Ideal(k)
    || (k < |q.chain| && q.chain[k].event.Some? && Partial(q.Ideal(k), q.chain[k].event.value, t, false))
  }

  lemma PartialGrows(t: Tables, ev: Event, s: Tables, tagged: bool)
    requires Partial(t, ev, s, tagged)
    ensures Grows(t, s)
  {
  }

  /** Handling a transaction that the frontier has passed changes nothing. */
  lemma HandlePassed(q: Scene, k: nat, t: Tables, i: nat, plan: Plan)
    requires q.Valid() && q.From() <= i < k <= |q.chain| && Frontier(q, k, t)
    ensures Handle(t, q.chain[i], plan).tables == t
    ensures plan == [FAULT_FREE] ==> Handle(t, q.chain[i], plan).ok
  {
    if q.chain[i].event.Some? {
      var ev := q.chain[i].event.value;
      IdealAbsorbs(q, k, i);
      if t != q.Ideal(k) {
        PartialGrows(q.Ideal(k), q.chain[k].event.value, t, false);
      }
      AbsorbedStays(q.Ideal(k), t, ev);
      RedeliveryChangesNothing(t, ev, plan);
      assert plan == [FAULT_FREE] ==> plan[0] >= 4;
    }
  }

  /** Handling the transaction at the frontier moves it on, or leaves it where it was. */
  lemma HandleNext(q: Scene, k: nat, t: Tables, plan: Plan)
    requires q.Valid() && q.From() <= k < |q.chain| && Frontier(q, k, t)
    requires SafeDelivery(t, q.chain[k], plan)
    ensures
      var a := Handle(t, q.chain[k], plan);
      if a.ok then Frontier(q, k + 1, a.tables) else Frontier(q, k, a.tables)
    ensures plan == [FAULT_FREE] ==> Handle(t, q.chain[k], plan).ok
  {
    IdealNext(q, k);
    if q.chain[k].event.Some? {
      var ev := q.chain[k].event.value;
      assert Partial(q.Ideal(k), ev, t, false);
      NothingRecorded(q.Ideal(k), ev, t);
      RecoverableDelivery(q.Ideal(k), ev, t, plan);
      FaultFreeFinishes(q.Ideal(k), ev, t);
    }
  }

  /** A partial state with an untagged event has no row of it, and makes no difference to what is recoverable. */
  lemma NothingRecorded(t: Tables, ev: Event, s: Tables)
    requires ev.Key() !in t.events && Partial(t, ev, s, false)
    ensures ev.Key() !in s.events
    ensures forall plan: Plan :: Recoverable(s, ev, plan) ==> Recoverable(t, ev, plan)
  {
    UntaggedIsUntouched(t, ev, s);
  }

  /** Handling a stretch of the chain that starts at or before the frontier. */
  lemma {:induction false} ProcessKeeps(q: Scene, k: nat, t: Tables, i: nat, e: nat, plans: seq<Plan>) returns (next: nat)
    requires q.Valid() && q.From() <= i <= e <= |q.chain| && i <= k <= |q.chain| && Frontier(q, k, t)
    requires SafeProcess(t, q.chain[i..e], plans)
    ensures k <= next <= |q.chain| && i + Process(t, q.chain[i..e], plans).accepted <= next
    ensures Frontier(q, next, Process(t, q.chain[i..e], plans).tables)
    decreases e - i
  {
    var txs := q.chain[i..e];
    next := k;
    if txs != [] && plans != [] {
      assert txs[0] == q.chain[i] && txs[1..] == q.chain[i + 1..e];
      var a := Handle(t, txs[0], plans[0]);
      if i < k {
        HandlePassed(q, k, t, i, plans[0]);
      } else {
        HandleNext(q, k, t, plans[0]);
        next := if a.ok then k + 1 else k;
      }
      if a.ok {
        next := ProcessKeeps(q, next, a.tables, i + 1, e, plans[1..]);
      }
    }
  }

  /** The checkpoint `cp` is not beyond index `k`. */
  ghost predicate Covers(c: seq<Tx>, start: nat, k: nat, cp: nat) {
    start <= cp && Above(c, cp) <= k
  }

  /** Neither checkpoint is beyond what the tables hold. */
  ghost predicate Guarded(c: seq<Tx>, start: nat, k: nat, s: Sys) {
    Covers(c, start, k, s.mem) && Covers(c, start, k, s.row.lt) && s.row.contract != ""
  }

  ghost predicate InvAt(q: Scene, k: nat, s: Sys) {
    q.From() <= k <= |q.chain| && Frontier(q, k, s.tables) && Guarded(q.chain, q.start, k, s)
  }

  lemma AboveGrows(c: seq<Tx>, lo: nat, hi: nat)
    requires ValidChain(c) && lo <= hi
    ensures Above(c, lo) <= Above(c, hi)
  {
    if Above(c, hi) < Above(c, lo) {
      AboveAtIndex(c, lo, Above(c, hi));
    }
  }

  /** The visible part of a chain is cut at the same place, or has nothing beyond the cut. */
  lemma AboveVisible(c: seq<Tx>, n: nat, lt: nat)
    requires ValidChain(c) && n <= |c|
    ensures ValidChain(c[..n]) && Above(c[..n], lt) == Min(n, Above(c, lt))
  {
    assert c == c[..n] + c[n..];
    PrefixValid(c[..n], c[n..]);
    var m := Min(n, Above(c, lt));
    if m > 0 {
      AboveAtIndex(c, lt, m - 1);
    }
    if m < n {
      AboveAtIndex(c, lt, m);
    }
    AboveIs(c[..n], lt, m);
  }

  /** The batch of a poll is a stretch of the chain, or empty. */
  lemma HandedIsStretch(c: seq<Tx>, s: Sys, pages: nat, b: nat, n: nat)
    requires ValidChain(c) && s.mem != 0 && n == Min(s.seen, |c|) && b == Min(n, Above(c, s.mem))
    ensures Above(Visible(c, s), s.mem) == b
    ensures Handed(c, s, pages) == if Poller.Batch(Visible(c, s), s.mem, pages).Some? then c[b..n] else []
  {
    AboveVisible(c, n, s.mem);
    if Poller.Batch(Visible(c, s), s.mem, pages).Some? {
      Poller.BatchIsTheGap(Visible(c, s), s.mem, pages);
      assert c[..n][b..] == c[b..n];
    }
  }

  /** What a poll does to the two checkpoints, in terms of the poller's outcome. */
  lemma PollStores(c: seq<Tx>, s: Sys, m: Move, o: Poller.Outcome, z: Sys)
    requires m.Poll? && z == Step(c, s, m)
    requires o == Poller.Cycle(Visible(c, s), s.mem, m.pages, Process(s.tables, Handed(c, s, m.pages), m.plans).accepted)
    requires o.saved.Some? ==> o.saved.value == o.cp
    ensures z.mem == o.cp && z.row.contract == s.row.contract && (z.row.lt == s.row.lt || z.row.lt == z.mem)
    ensures z.row.lt == if m.persisted && o.saved.Some? then Max(s.row.lt, z.mem) else s.row.lt
  {
  }

  /** A poll moves the checkpoint to the last transaction accepted, if there is one. */
  lemma OutcomeMoves(c: seq<Tx>, s: Sys, pages: nat, b: nat, n: nat, accepted: nat, o: Poller.Outcome)
    requires ValidChain(c) && s.mem != 0 && n == Min(s.seen, |c|) && b == Min(n, Above(c, s.mem))
    requires accepted <= |Handed(c, s, pages)| && o == Poller.Cycle(Visible(c, s), s.mem, pages, accepted)
    ensures b + accepted <= n && (o.saved.Some? ==> o.saved.value == o.cp) && o.saved.Some? == (accepted > 0)
    ensures o.cp == if accepted == 0 then s.mem else c[b + accepted - 1].lt
  {
    HandedIsStretch(c, s, pages, b, n);
    Poller.AcceptedMoves(Visible(c, s), s.mem, pages, accepted);
  }

  lemma PollEffect(c: seq<Tx>, s: Sys, m: Move, b: nat, n: nat, accepted: nat, z: Sys)
    requires ValidChain(c) && s.mem != 0 && m.Poll? && n == Min(s.seen, |c|) && b == Min(n, Above(c, s.mem))
    requires accepted == Process(s.tables, Handed(c, s, m.pages), m.plans).accepted && z == Step(c, s, m)
    ensures b + accepted <= n && z.mem == if accepted == 0 then s.mem else c[b + accepted - 1].lt
    ensures z.row.contract == s.row.contract && (z.row.lt == s.row.lt || z.row.lt == z.mem)
    ensures z.row.lt == if m.persisted && accepted > 0 then Max(s.row.lt, z.mem) else s.row.lt
  {
    var o := Poller.Cycle(Visible(c, s), s.mem, m.pages, accepted);
    OutcomeMoves(c, s, m.pages, b, n, accepted, o);
    PollStores(c, s, m, o, z);
  }

  /** A checkpoint at the last transaction accepted is covered. */
  lemma AcceptedIsCovered(c: seq<Tx>, start: nat, k: nat, next: nat, s: Sys, b: nat, n: nat, accepted: nat, z: Sys)
    requires ValidChain(c) && Guarded(c, start, k, s) && k <= next && b + accepted <= n <= |c| && b + accepted <= next
    requires b == Min(n, Above(c, s.mem)) && z.mem == if accepted == 0 then s.mem else c[b + accepted - 1].lt
    requires z.row.contract == s.row.contract && (z.row.lt == s.row.lt || z.row.lt == z.mem)
    ensures Guarded(c, start, next, z)
  {
    if accepted > 0 {
      AboveAtIndex(c, s.mem, b + accepted - 1);
      AboveAt(c, b + accepted - 1);
    }
  }

  lemma PollReaches(q: Scene, k: nat, s: Sys, m: Move, b: nat, n: nat, p: Progress) returns (next: nat)
    requires q.Valid() && InvAt(q, k, s) && m.Poll? && SafeMove(q.chain, s, m)
    requires n == Min(s.seen, |q.chain|) && b == Min(n, Above(q.chain, s.mem))
    requires p == Process(s.tables, Handed(q.chain, s, m.pages), m.plans)
    ensures k <= next <= |q.chain| && b + p.accepted <= next && Frontier(q, next, p.tables)
  {
    HandedIsStretch(q.chain, s, m.pages, b, n);
    AboveGrows(q.chain, q.start, s.mem);
    next := k;
    if Handed(q.chain, s, m.pages) != [] {
      next := ProcessKeeps(q, k, s.tables, b, n, m.plans);
    }
  }

  /** Both checkpoints stay behind any index the accepted transactions reach. */
  lemma PollGuards(c: seq<Tx>, start: nat, k: nat, next: nat, s: Sys, m: Move, b: nat, n: nat, p: Progress, z: Sys)
    requires ValidChain(c) && start != 0 && Guarded(c, start, k, s) && m.Poll? && z == Step(c, s, m)
    requires n == Min(s.seen, |c|) && b == Min(n, Above(c, s.mem))
    requires p == Process(s.tables, Handed(c, s, m.pages), m.plans) && k <= next && b + p.accepted <= next
    ensures Guarded(c, start, next, z) && z.tables == p.tables
  {
    PollEffect(c, s, m, b, n, p.accepted, z);
    AcceptedIsCovered(c, start, k, next, s, b, n, p.accepted, z);
  }

  lemma PollKeeps(q: Scene, k: nat, s: Sys, m: Move, z: Sys) returns (next: nat)
    requires q.Valid() && InvAt(q, k, s) && m.Poll? && SafeMove(q.chain, s, m) && z == Step(q.chain, s, m)
    ensures k <= next && InvAt(q, next, z)
  {
    var n := Min(s.seen, |q.chain|);
    var b: nat := Min(n, Above(q.chain, s.mem));
    var p := Process(s.tables, Handed(q.chain, s, m.pages), m.plans);
    next := PollReaches(q, k, s, m, b, n, p);
    PollGuards(q.chain, q.start, k, next, s, m, b, n, p, z);
  }

  /** A restart puts the poller back to the stored checkpoint and touches nothing else. */
  lemma RestartResumes(c: seq<Tx>, s: Sys)
    requires s.row.contract != ""
    ensures Step(c, s, Restart).mem == s.row.lt
    ensures Step(c, s, Restart).tables == s.tables && Step(c, s, Restart).row == s.row && Step(c, s, Restart).seen == s.seen
  {
  }

  lemma StepKeeps(q: Scene, k: nat, s: Sys, m: Move) returns (next: nat)
    requires q.Valid() && InvAt(q, k, s) && SafeMove(q.chain, s, m)
    ensures k <= next && InvAt(q, next, Step(q.chain, s, m))
  {
    next := k;
    if m.Poll? {
      next := PollKeeps(q, k, s, m, Step(q.chain, s, m));
    }
  }

  /** In every state of every safe run the tables are those of a prefix of the ideal run, up to a repairable part. */
  lemma {:induction false} RunKeeps(q: Scene, contract: string, seen: nat, ms: seq<Move>) returns (k: nat)
    requires q.Valid() && contract != "" && SafeRun(q.chain, q.Begin(contract, seen), ms)
    ensures InvAt(q, k, Run(q.chain, q.Begin(contract, seen), ms))
    decreases |ms|
  {
    if ms == [] {
      k := q.From();
    } else {
      var n := |ms| - 1;
      k := RunKeeps(q, contract, seen, ms[..n]);
      k := StepKeeps(q, k, Run(q.chain, q.Begin(contract, seen), ms[..n]), ms[n]);
    }
  }

  /**
   * Crash equivalence: whatever failed, died, was repeated or was not stored on
   * the way, once either checkpoint has reached the head of the chain the tables
   * are exactly those of the run without failures, and the ledger invariant holds.
   */
  lemma CrashEquivalence(q: Scene, contract: string, seen: nat, ms: seq<Move>)
    requires q.Valid() && contract != "" && SafeRun(q.chain, q.Begin(contract, seen), ms)
    ensures
      var s := Run(q.chain, q.Begin(contract, seen), ms);
      Above(q.chain, s.mem) == |q.chain| || Above(q.chain, s.row.lt) == |q.chain| ==>
        && s.tables == Base(q.tables, q.Events())
        && AdvanceAll(q.phases, q.Events()).Some?
        && Ledger.Inv(AdvanceAll(q.phases, q.Events()).value, s.tables)
  {
    var k := RunKeeps(q, contract, seen, ms);
    var s := Run(q.chain, q.Begin(contract, seen), ms);
    if Above(q.chain, s.mem) == |q.chain| || Above(q.chain, s.row.lt) == |q.chain| {
      HeadReached(q, k, s);
    }
  }

  lemma HeadReached(q: Scene, k: nat, s: Sys)
    requires q.Valid() && InvAt(q, k, s)
    requires Above(q.chain, s.mem) == |q.chain| || Above(q.chain, s.row.lt) == |q.chain|
    ensures s.tables == Base(q.tables, q.Events())
    ensures AdvanceAll(q.phases, q.Events()).Some? && Ledger.Inv(AdvanceAll(q.phases, q.Events()).value, s.tables)
  {
    assert k == |q.chain| && s.tables == q.Ideal(k);
    assert q.Events()[..|q.Events()|] == q.Events();
    LedgerHolds(q.phases, q.tables, q.Events(), |q.Events()|);
  }

  // ---------------------------------------------------------------- the condition is exact

  /** Every notification of a contract-ordered history has something to change. */
  lemma LegalIsEffective(ph: Phases, t: Tables, ev: Event)
    requires Legal(ph, t, ev) && Backed(t)
    ensures Effective(t, ev)
  {
    if ev.gameId in t.games {
      assert Matches(ph[ev.gameId], t.games[ev.gameId]) && PlayersIn(t.games[ev.gameId], t.users);
      assert RowBacked(ev.gameId, t.games[ev.gameId], t.events);
    }
  }

  lemma NextIsEffective(q: Scene, k: nat, ev: Event)
    requires q.Valid() && Backed(q.tables) && q.From() <= k < |q.chain| && q.chain[k].event == Some(ev)
    ensures Effective(q.Ideal(k), ev)
  {
    var c, a, evs := q.chain, q.From(), q.Events();
    var n := |EventsUpTo(c, a, k)|;
    EventIsListed(c, a, k, |c|);
    EventsPrefix(c, a, k, |c|);
    LedgerHolds(q.phases, q.tables, evs, n);
    NextIsLegal(q.phases, q.tables, evs, n);
    BaseIsBacked(q.tables, evs[..n]);
    LegalIsEffective(AdvanceAll(q.phases, evs[..n]).value, q.Ideal(k), ev);
  }

  /**
   * In the run without failures, cut short at any transaction by any faults, a
   * fault-free redelivery restores that run if and only if the delivery was safe.
   */
  lemma SafeDeliveryIff(q: Scene, k: nat, plan: Plan, clean: Plan)
    requires q.Valid() && Backed(q.tables) && q.From() <= k < |q.chain| && clean == [FAULT_FREE]
    ensures
      Handle(Handle(q.Ideal(k), q.chain[k], plan).tables, q.chain[k], clean).tables == q.Ideal(k + 1)
      <==> SafeDelivery(q.Ideal(k), q.chain[k], plan)
  {
    IdealNext(q, k);
    if q.chain[k].event.Some? {
      NextIsEffective(q, k, q.chain[k].event.value);
      RecoveryIff(q.Ideal(k), q.chain[k].event.value, plan);
    }
  }

  // ---------------------------------------------------------------- catching up

  ghost predicate AllClean(plans: seq<Plan>) {
    forall j :: 0 <= j < |plans| ==> plans[j] == [FAULT_FREE]
  }

  lemma CleanPassed(q: Scene, k: nat, t: Tables, i: nat, plan: Plan)
    requires q.Valid() && q.From() <= i < k <= |q.chain| && Frontier(q, k, t) && plan == [FAULT_FREE]
    ensures Handle(t, q.chain[i], plan).ok && Handle(t, q.chain[i], plan).tables == t
    ensures SafeDelivery(t, q.chain[i], plan)
  {
    HandlePassed(q, k, t, i, plan);
    PassedIsSafe(q, k, t, i, plan);
  }

  lemma CleanNext(q: Scene, k: nat, t: Tables, plan: Plan)
    requires q.Valid() && q.From() <= k < |q.chain| && Frontier(q, k, t) && plan == [FAULT_FREE]
    ensures Handle(t, q.chain[k], plan).ok && Frontier(q, k + 1, Handle(t, q.chain[k], plan).tables)
    ensures SafeDelivery(t, q.chain[k], plan)
  {
    CleanIsSafe(q, k, t, plan);
    HandleNext(q, k, t, plan);
  }

  lemma ProcessOne(t: Tables, c: seq<Tx>, i: nat, e: nat, plans: seq<Plan>, a: Attempt)
    requires i < e <= |c| && plans != [] && a == Handle(t, c[i], plans[0]) && a.ok && SafeDelivery(t, c[i], plans[0])
    ensures Process(t, c[i..e], plans).accepted == 1 + Process(a.tables, c[i + 1..e], plans[1..]).accepted
    ensures SafeProcess(t, c[i..e], plans) == SafeProcess(a.tables, c[i + 1..e], plans[1..])
  {
    assert c[i..e][0] == c[i] && c[i..e][1..] == c[i + 1..e];
  }

  /** Without faults everything is accepted, and nothing is unsafe. */
  lemma {:induction false} CleanProcess(q: Scene, k: nat, t: Tables, i: nat, e: nat, plans: seq<Plan>)
    requires q.Valid() && q.From() <= i <= e <= |q.chain| && i <= k <= |q.chain| && Frontier(q, k, t)
    requires e - i <= |plans| && AllClean(plans)
    ensures Process(t, q.chain[i..e], plans).accepted == e - i
    ensures SafeProcess(t, q.chain[i..e], plans)
    decreases e - i
  {
    if i < e {
      assert plans[0] == [FAULT_FREE];
      var a := Handle(t, q.chain[i], plans[0]);
      var next := CleanStep(q, k, t, i, plans[0], a);
      CleanProcess(q, next, a.tables, i + 1, e, plans[1..]);
      ProcessOne(t, q.chain, i, e, plans, a);
    }
  }

  lemma CleanStep(q: Scene, k: nat, t: Tables, i: nat, plan: Plan, a: Attempt) returns (next: nat)
    requires q.Valid() && q.From() <= i <= k <= |q.chain| && i < |q.chain| && Frontier(q, k, t)
    requires plan == [FAULT_FREE] && a == Handle(t, q.chain[i], plan)
    ensures a.ok && SafeDelivery(t, q.chain[i], plan)
    ensures i < next <= |q.chain| && Frontier(q, next, a.tables)
  {
    if i < k {
      CleanPassed(q, k, t, i, plan);
      assert a.tables == t;
      next := k;
    } else {
      CleanNext(q, k, t, plan);
      next := k + 1;
    }
  }

  lemma PassedIsSafe(q: Scene, k: nat, t: Tables, i: nat, plan: Plan)
    requires q.Valid() && q.From() <= i < k <= |q.chain| && Frontier(q, k, t)
    ensures SafeDelivery(t, q.chain[i], plan)
  {
    if q.chain[i].event.Some? {
      IdealAbsorbs(q, k, i);
      if t != q.Ideal(k) {
        PartialGrows(q.Ideal(k), q.chain[k].event.value, t, false);
      }
    }
  }

  lemma CleanIsSafe(q: Scene, k: nat, t: Tables, plan: Plan)
    requires q.Valid() && q.From() <= k < |q.chain| && Frontier(q, k, t) && plan == [FAULT_FREE]
    ensures SafeDelivery(t, q.chain[k], plan)
  {
    if q.chain[k].event.Some? {
      FaultFreeIsRecoverable(t, q.chain[k].event.value, plan);
    }
  }

  /**
   * After any safe run one poll of the whole chain without faults is safe and
   * brings the tables to those of the run without failures.
   */
  lemma OneCleanPollCatchesUp(q: Scene, contract: string, seen: nat, ms: seq<Move>, pages: nat, plans: seq<Plan>, persisted: bool)
    requires q.Valid() && contract != "" && SafeRun(q.chain, q.Begin(contract, seen), ms)
    requires Run(q.chain, q.Begin(contract, seen), ms).seen >= |q.chain|
    requires pages >= 1 && |q.chain| <= PAGE * pages && |q.chain| <= |plans|
    requires AllClean(plans)
    ensures Run(q.chain, q.Begin(contract, seen), ms + [Poll(pages, plans, persisted)]).tables == Base(q.tables, q.Events())
  {
    var all, m := ms + [Poll(pages, plans, persisted)], Poll(pages, plans, persisted);
    assert all[..|all| - 1] == ms;
    var k := RunKeeps(q, contract, seen, ms);
    var s := Run(q.chain, q.Begin(contract, seen), ms);
    CleanPoll(q, k, s, m);
    CrashEquivalence(q, contract, seen, all);
  }

  lemma CleanBatch(c: seq<Tx>, s: Sys, pages: nat)
    requires ValidChain(c) && s.mem != 0 && s.seen >= |c| && pages >= 1 && |c| <= PAGE * pages
    ensures Handed(c, s, pages) == c[Above(c, s.mem)..|c|]
  {
    assert Visible(c, s) == c;
    HandedIsStretch(c, s, pages, Above(c, s.mem), |c|);
    Poller.BatchArrives(c, s.mem, pages);
  }

  lemma CleanPollIsSafe(q: Scene, k: nat, s: Sys, m: Move)
    requires q.Valid() && InvAt(q, k, s) && s.seen >= |q.chain| && m.Poll?
    requires m.pages >= 1 && |q.chain| <= PAGE * m.pages && |q.chain| <= |m.plans| && AllClean(m.plans)
    ensures SafeMove(q.chain, s, m)
    ensures Process(s.tables, Handed(q.chain, s, m.pages), m.plans).accepted == |q.chain| - Above(q.chain, s.mem)
  {
    CleanBatch(q.chain, s, m.pages);
    AboveGrows(q.chain, q.start, s.mem);
    CleanProcess(q, k, s.tables, Above(q.chain, s.mem), |q.chain|, m.plans);
  }

  lemma AcceptingAllReachesHead(c: seq<Tx>, s: Sys, m: Move, z: Sys)
    requires ValidChain(c) && s.mem != 0 && s.seen >= |c| && m.Poll? && z == Step(c, s, m)
    requires Process(s.tables, Handed(c, s, m.pages), m.plans).accepted == |c| - Above(c, s.mem)
    ensures Above(c, z.mem) == |c|
  {
    var b := Above(c, s.mem);
    PollEffect(c, s, m, b, |c|, |c| - b, z);
    if b < |c| {
      AboveAt(c, |c| - 1);
    }
  }

  lemma CleanPoll(q: Scene, k: nat, s: Sys, m: Move)
    requires q.Valid() && InvAt(q, k, s) && s.seen >= |q.chain| && m.Poll?
    requires m.pages >= 1 && |q.chain| <= PAGE * m.pages && |q.chain| <= |m.plans| && AllClean(m.plans)
    ensures SafeMove(q.chain, s, m) && Above(q.chain, Step(q.chain, s, m).mem) == |q.chain|
  {
    CleanPollIsSafe(q, k, s, m);
    AcceptingAllReachesHead(q.chain, s, m, Step(q.chain, s, m));
  }
}
