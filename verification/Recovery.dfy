/**
 * When a redelivery can complete what an interrupted delivery began. The
 * condition is on the faults alone: how far each attempt got, compared with
 * the number of database calls the handler makes.
 */
module Recovery {
  import opened Prelude
  import opened Tables
  import opened Handlers
  import opened Delivery
  import Provenance

  // ---------------------------------------------------------------- the condition

  /** Database calls of a complete attempt at an event that is not on record. */
  function Needed(t: Tables, ev: Event): nat {
    match ev.body
    case Initialized(_, _, _, _) => 3
    case Started(_) => 4
    case Finished(winner, _, _) => if winner.Some? && ev.gameId in t.games then SettleCalls(t, ev) else 9
    case Cancelled => 3
    case Draw => if ev.gameId in t.games && t.games[ev.gameId].playerTwo.None? then 5 else 6
    case SecretOpened(_, _) => 4
    case InsufficientBalance => 2
  }

  /** Some attempt gets that many calls through. */
  predicate Reaches(plan: seq<nat>, calls: nat) {
    exists i :: 0 <= i < |plan| && plan[i] >= calls
  }

  /**
   * The handler writes its row last, or no attempt got as far as the row, or
   * one attempt got through and no draw was split before it.
   */
  ghost predicate Recoverable(t: Tables, ev: Event, plan: Plan) {
    RowLast(ev) || !Reaches(plan, 2) || (Reaches(plan, Needed(t, ev)) && NoSplit(t, ev, plan))
  }

  lemma ReachesLater(plan: seq<nat>, calls: nat)
    requires plan != [] && plan[0] < calls
    ensures Reaches(plan, calls) == Reaches(plan[1..], calls)
  {
    if i :| 0 <= i < |plan| && plan[i] >= calls {
      assert plan[1..][i - 1] >= calls;
    }
  }

  // ---------------------------------------------------------------- what a plan leads to

  /** Without the second call nothing is written. */
  lemma {:induction false} UntouchedChangesNothing(t: Tables, ev: Event, tagged: bool, plan: Plan)
    requires !RowLast(ev) && !Reaches(plan, 2)
    ensures Route(t, ev, tagged, plan) == Attempt(t, tagged, false)
    decreases |plan|
  {
    assert plan[0] < 2;
    if |plan| > 1 {
      ReachesLater(plan, 2);
      UntouchedChangesNothing(t, ev, tagged, plan[1..]);
    }
  }

  lemma SecondCallRecords(t: Tables, ev: Event, tagged: bool, budget: nat)
    requires !RowLast(ev) && ev.gameId in t.games && (ev.body.Started? ==> ev.body.playerTwo.Some?) && budget >= 2
    ensures ev.Key() in Try(t, ev, tagged, budget).tables.events
  {
  }

  /** With it the row is on record for good. */
  lemma {:induction false} TouchedIsRecorded(t: Tables, ev: Event, tagged: bool, plan: Plan)
    requires !RowLast(ev) && ev.gameId in t.games && (ev.body.Started? ==> ev.body.playerTwo.Some?)
    requires Reaches(plan, 2)
    ensures ev.Key() in Route(t, ev, tagged, plan).tables.events
    decreases |plan|
  {
    var a := Try(t, ev, tagged, plan[0]);
    if plan[0] >= 2 {
      SecondCallRecords(t, ev, tagged, plan[0]);
    } else {
      ReachesLater(plan, 2);
      TouchedIsRecorded(a.tables, ev, a.tagged, plan[1..]);
    }
  }

  lemma StartedFinishesAt(t: Tables, ev: Event, s: Tables, tagged: bool, budget: nat)
    requires ev.body.Started? && ev.Key() !in t.events && Partial(t, ev, s, tagged)
    requires ev.body.playerTwo.Some? && ev.gameId in t.games
    ensures TryStarted(s, ev, tagged, budget).ok == (budget >= 4)
  {
  }

  lemma DrawFinishesAt(t: Tables, ev: Event, s: Tables, tagged: bool, budget: nat)
    requires ev.body.Draw? && ev.Key() !in t.events && Partial(t, ev, s, tagged) && ev.gameId in t.games
    ensures TryDraw(s, ev, tagged, budget).ok == (budget >= Needed(t, ev))
  {
  }

  lemma OtherFinishesAt(t: Tables, ev: Event, s: Tables, tagged: bool, budget: nat)
    requires ev.body.Cancelled? || ev.body.SecretOpened?
    requires ev.Key() !in t.events && Partial(t, ev, s, tagged) && Apply(t, ev).ok
    ensures Try(s, ev, tagged, budget).ok == (budget >= Needed(t, ev))
  {
    assert Apply(t, ev) == Try(t, ev, false, FAULT_FREE);
  }

  /** From any partial state an attempt succeeds exactly when it gets all its calls through. */
  lemma FinishesAt(t: Tables, ev: Event, s: Tables, tagged: bool, budget: nat)
    requires !RowLast(ev) && ev.Key() !in t.events && Partial(t, ev, s, tagged) && Apply(t, ev).ok
    ensures Try(s, ev, tagged, budget).ok == (budget >= Needed(t, ev))
  {
    assert Apply(t, ev) == Try(t, ev, false, FAULT_FREE);
    match ev.body
    case Started(_) => StartedFinishesAt(t, ev, s, tagged, budget);
    case Draw => DrawFinishesAt(t, ev, s, tagged, budget);
    case _ => OtherFinishesAt(t, ev, s, tagged, budget);
  }

  /** So does the retry loop. */
  lemma {:induction false} RouteFinishesIff(t: Tables, ev: Event, s: Tables, tagged: bool, plan: Plan)
    requires !RowLast(ev) && ev.Key() !in t.events && Partial(t, ev, s, tagged) && Apply(t, ev).ok && NoSplit(t, ev, plan)
    ensures Route(s, ev, tagged, plan).ok == Reaches(plan, Needed(t, ev))
    decreases |plan|
  {
    FinishesAt(t, ev, s, tagged, plan[0]);
    var a := Try(s, ev, tagged, plan[0]);
    if !a.ok {
      ReachesLater(plan, Needed(t, ev));
      if |plan| > 1 {
        PartialStep(t, ev, s, tagged, plan[0]);
        NoSplitRest(t, ev, s, tagged, plan);
        RouteFinishesIff(t, ev, a.tables, a.tagged, plan[1..]);
      }
    }
  }

  // ---------------------------------------------------------------- recoverable deliveries

  /** A partial state without a tag: all of it is still to do, except for GameInitialized. */
  lemma UntaggedIsUntouched(t: Tables, ev: Event, s: Tables)
    requires Partial(t, ev, s, false)
    ensures ev.body.Initialized? || s == t
  {
  }

  /** A recoverable delivery from a partial state has the whole effect or leaves a partial state for the next. */
  lemma RecoverableDelivery(t: Tables, ev: Event, s: Tables, plan: Plan)
    requires ev.Key() !in t.events && Partial(t, ev, s, false) && Apply(t, ev).ok && Recoverable(t, ev, plan)
    ensures
      var a := Deliver(s, ev, plan);
      if a.ok then a.tables == Apply(t, ev).tables else Partial(t, ev, a.tables, false)
  {
    UntaggedIsUntouched(t, ev, s);
    if RowLast(ev) {
      RetriesRepair(t, ev, s, false, plan);
    } else if !Reaches(plan, 2) {
      UntouchedChangesNothing(s, ev, false, plan);
    } else {
      RouteFinishesIff(t, ev, s, false, plan);
      RetriesRepair(t, ev, s, false, plan);
    }
  }

  lemma FaultFreeFinishes(t: Tables, ev: Event, s: Tables)
    requires ev.Key() !in t.events && Partial(t, ev, s, false) && Apply(t, ev).ok
    ensures Apply(s, ev).ok
  {
    assert Apply(t, ev) == Try(t, ev, false, FAULT_FREE);
    assert Apply(s, ev) == Try(s, ev, false, FAULT_FREE);
    UntaggedIsUntouched(t, ev, s);
  }

  lemma FaultFreeIsRecoverable(t: Tables, ev: Event, plan: Plan)
    requires plan == [FAULT_FREE]
    ensures Recoverable(t, ev, plan)
  {
    assert plan[0] >= Needed(t, ev);
    assert Splits(plan) == 0;
  }

  /** Half of the exact condition: a fault-free redelivery completes a recoverable one. */
  lemma RedeliveryCompletes(t: Tables, ev: Event, plan: Plan)
    requires ev.Key() !in t.events && Apply(t, ev).ok && Recoverable(t, ev, plan)
    ensures Apply(Deliver(t, ev, plan).tables, ev).tables == Apply(t, ev).tables
  {
    var a := Deliver(t, ev, plan);
    assert Partial(t, ev, t, false);
    RecoverableDelivery(t, ev, t, plan);
    if a.ok {
      RedeliveryChangesNothing(a.tables, ev, [FAULT_FREE]);
    } else {
      FaultFreeFinishes(t, ev, a.tables);
      FaultFreeIsRecoverable(t, ev, [FAULT_FREE]);
      RecoverableDelivery(t, ev, a.tables, [FAULT_FREE]);
    }
  }

  // ---------------------------------------------------------------- and the others

  /**
   * The event has something to change: a join of a waiting game, a cancellation
   * of one that is not paid, a draw between known players, a reveal with a stamp
   * of its own. Contract-ordered histories hold no other.
   */
  ghost predicate Effective(t: Tables, ev: Event) {
    ev.gameId in t.games ==>
      var g := t.games[ev.gameId];
      && (ev.body.Started? ==> g.status == STATUS_WAITING)
      && (ev.body.Cancelled? ==> g.status != STATUS_PAID)
      && (ev.body.SecretOpened? ==> g.revealed != Some(StampOf(ev)))
      && (ev.body.Draw? ==>
            && g.playerOne in t.users
            && (g.playerTwo.Some? ==> g.playerTwo.value in t.users && g.playerTwo.value != g.playerOne))
  }

  /** The participants whose counters a draw has to raise by one. */
  ghost predicate AllCountedOnce(t: Tables, ev: Event, s: Tables) {
    ev.gameId in t.games ==>
      var g := t.games[ev.gameId];
      && PlayedBy(s, g.playerOne) == PlayedBy(t, g.playerOne) + 1
      && (g.playerTwo.Some? ==> PlayedBy(s, g.playerTwo.value) == PlayedBy(t, g.playerTwo.value) + 1)
  }

  lemma WholeDrawCounts(t: Tables, ev: Event)
    requires ev.body.Draw? && ev.Key() !in t.events && ev.gameId in t.games && Effective(t, ev)
    ensures AllCountedOnce(t, ev, TryDraw(t, ev, false, FAULT_FREE).tables)
  {
  }

  /** What is missing from the tables of an unfinished attempt. */
  ghost predicate Lost(t: Tables, ev: Event, s: Tables) {
    if ev.body.Draw? then !AllCountedOnce(t, ev, s) else s.games == t.games
  }

  lemma UnfinishedLoses(t: Tables, ev: Event, s: Tables)
    requires !RowLast(ev) && ev.Key() !in t.events && Effective(t, ev) && ev.gameId in t.games && Partial(t, ev, s, true)
    ensures Lost(t, ev, s)
  {
  }

  /** A split draw miscounts somebody, whether or not it completes. */
  lemma SplitLoses(t: Tables, ev: Event, plan: Plan)
    requires ev.body.Draw? && ev.Key() !in t.events && Effective(t, ev) && ev.gameId in t.games && !NoSplit(t, ev, plan)
    ensures Lost(t, ev, Deliver(t, ev, plan).tables)
  {
    var g := t.games[ev.gameId];
    DrawCounts(t, ev, false, plan, g.playerOne, g.playerTwo.value);
  }

  lemma {:induction false} SplitReachesRow(plan: seq<nat>)
    requires Splits(plan) > 0
    ensures Reaches(plan, 2)
    decreases |plan|
  {
    if plan[0] >= 2 {
      assert plan[0] >= 2;
    } else {
      SplitReachesRow(plan[1..]);
      ReachesLater(plan, 2);
    }
  }

  /** What is lost is part of what the event was to change. */
  lemma LostIsMissing(t: Tables, ev: Event, s: Tables)
    requires !RowLast(ev) && ev.Key() !in t.events && Effective(t, ev) && Apply(t, ev).ok && Lost(t, ev, s)
    ensures s != Apply(t, ev).tables
  {
    var whole := Apply(t, ev).tables;
    assert Apply(t, ev) == Try(t, ev, false, FAULT_FREE);
    if ev.body.Draw? {
      WholeDrawCounts(t, ev);
    } else {
      WholeChangesGame(t, ev);
    }
  }

  lemma WholeChangesGame(t: Tables, ev: Event)
    requires ev.body.Started? || ev.body.Cancelled? || ev.body.SecretOpened?
    requires ev.Key() !in t.events && Effective(t, ev) && Try(t, ev, false, FAULT_FREE).ok
    ensures Try(t, ev, false, FAULT_FREE).tables.games != t.games
  {
    var s := Try(t, ev, false, FAULT_FREE).tables;
    assert ev.gameId in t.games && s.games[ev.gameId] != t.games[ev.gameId];
  }

  /**
   * The other half: after a delivery that is not recoverable every redelivery of
   * the event is taken for a duplicate; a join, reveal or cancellation has not
   * reached the game, or a player of the draw is counted wrongly.
   */
  lemma UnrecoverableIsFinal(t: Tables, ev: Event, plan: Plan, later: Plan)
    requires ev.Key() !in t.events && Apply(t, ev).ok && Effective(t, ev) && !Recoverable(t, ev, plan)
    ensures
      var s := Deliver(t, ev, plan).tables;
      Deliver(s, ev, later).tables == s && Lost(t, ev, s) && s != Apply(t, ev).tables
  {
    var s := Deliver(t, ev, plan).tables;
    assert Apply(t, ev) == Try(t, ev, false, FAULT_FREE);
    TouchedIsRecorded(t, ev, false, plan);
    assert Absorbed(s, ev);
    RedeliveryChangesNothing(s, ev, later);
    if NoSplit(t, ev, plan) {
      RetriesRepair(t, ev, t, false, plan);
      RouteFinishesIff(t, ev, t, false, plan);
      UnfinishedLoses(t, ev, s);
    } else {
      SplitLoses(t, ev, plan);
    }
    LostIsMissing(t, ev, s);
  }

  /**
   * The exact condition, on the faults alone: a redelivery brings the tables to
   * those of an undisturbed delivery if and only if the first one was recoverable.
   */
  lemma RecoveryIff(t: Tables, ev: Event, plan: Plan)
    requires ev.Key() !in t.events && Apply(t, ev).ok && Effective(t, ev)
    ensures Apply(Deliver(t, ev, plan).tables, ev).tables == Apply(t, ev).tables <==> Recoverable(t, ev, plan)
  {
    if Recoverable(t, ev, plan) {
      RedeliveryCompletes(t, ev, plan);
    } else {
      UnrecoverableIsFinal(t, ev, plan, [FAULT_FREE]);
    }
  }

  // ---------------------------------------------------------------- for the rest of the run

  /** The two stamps of a row that show whether a join or an ending has reached it. */
  datatype Column = Joined | Completed

  function Read(g: Game, c: Column): Option<Stamp> {
    if c.Joined? then g.joined else g.completed
  }

  predicate Writes(ev: Event, id: int, c: Column) {
    ev.gameId == id && if c.Joined? then ev.body.Started? else ev.body.Finished? || ev.body.Draw? || ev.body.Cancelled?
  }

  ghost predicate ColumnKept(t: Tables, s: Tables, id: int, c: Column) {
    id in t.games && id in s.games && Read(s.games[id], c) == Read(t.games[id], c)
  }

  lemma CompletingKeepsJoined(t: Tables, s: Tables, id: int, other: int, winner: Wallet, payout: int, stamp: Stamp, c: Column)
    requires id in t.games && (id == other ==> c.Joined?)
    requires s.games == t.games || s.games == CompleteGame(t, other, winner, payout, stamp).games
    ensures ColumnKept(t, s, id, c)
  {
  }

  lemma FinishedKeepsColumn(t: Tables, ev: Event, tagged: bool, budget: nat, s: Tables, id: int, c: Column)
    requires ev.body.Finished? && id in t.games && !Writes(ev, id, c) && s == TryFinished(t, ev, tagged, budget).tables
    ensures ColumnKept(t, s, id, c)
  {
    if s != t {
      Provenance.SettleTouchesOneRow(InsertEvent(t, ev), ev);
      CompletingKeepsJoined(t, s, id, ev.gameId, ev.body.winner.value, PayoutOf(ev), StampOf(ev), c);
    }
  }

  lemma DrawKeepsColumn(t: Tables, ev: Event, tagged: bool, budget: nat, s: Tables, id: int, c: Column)
    requires ev.body.Draw? && id in t.games && !Writes(ev, id, c) && s == TryDraw(t, ev, tagged, budget).tables
    ensures ColumnKept(t, s, id, c)
  {
    Provenance.DrawShape(t, ev, tagged, budget);
    CompletingKeepsJoined(t, s, id, ev.gameId, NO_WALLET, 0, StampOf(ev), c);
  }

  lemma InitializedKeepsColumn(t: Tables, ev: Event, tagged: bool, budget: nat, s: Tables, id: int, c: Column)
    requires ev.body.Initialized? && id in t.games && s == TryInitialized(t, ev, tagged, budget).tables
    ensures ColumnKept(t, s, id, c)
  {
    Provenance.InitializedShape(t, ev, tagged, budget);
  }

  lemma OtherKeepsColumn(t: Tables, ev: Event, tagged: bool, budget: nat, s: Tables, id: int, c: Column)
    requires !ev.body.Finished? && !ev.body.Draw? && !ev.body.Initialized?
    requires id in t.games && !Writes(ev, id, c) && s == Try(t, ev, tagged, budget).tables
    ensures ColumnKept(t, s, id, c)
  {
  }

  /** A stamp is written by events of its own kind and game only. */
  lemma AttemptKeepsColumn(t: Tables, ev: Event, tagged: bool, budget: nat, s: Tables, id: int, c: Column)
    requires id in t.games && !Writes(ev, id, c) && s == Try(t, ev, tagged, budget).tables
    ensures ColumnKept(t, s, id, c)
  {
    match ev.body
    case Finished(_, _, _) => FinishedKeepsColumn(t, ev, tagged, budget, s, id, c);
    case Draw => DrawKeepsColumn(t, ev, tagged, budget, s, id, c);
    case Initialized(_, _, _, _) => InitializedKeepsColumn(t, ev, tagged, budget, s, id, c);
    case _ => OtherKeepsColumn(t, ev, tagged, budget, s, id, c);
  }

  lemma {:induction false} RouteKeepsColumn(t: Tables, ev: Event, tagged: bool, plan: Plan, id: int, c: Column)
    requires id in t.games && !Writes(ev, id, c)
    ensures ColumnKept(t, Route(t, ev, tagged, plan).tables, id, c)
    decreases |plan|
  {
    var a := Try(t, ev, tagged, plan[0]);
    AttemptKeepsColumn(t, ev, tagged, plan[0], a.tables, id, c);
    if !a.ok && |plan| > 1 {
      RouteKeepsColumn(a.tables, ev, a.tagged, plan[1..], id, c);
    }
  }

  /** A fresh delivery of an event on record changes nothing, whatever it says. */
  lemma {:induction false} RecordedIsIgnored(t: Tables, ev: Event, plan: Plan)
    requires ev.Key() in t.events && !ev.body.Initialized?
    ensures Route(t, ev, false, plan).tables == t
    decreases |plan|
  {
    var a := Try(t, ev, false, plan[0]);
    assert a.tables == t && !a.tagged;
    if !a.ok && |plan| > 1 {
      RecordedIsIgnored(t, ev, plan[1..]);
    }
  }

  /** Of the events of that game that write the column, only redeliveries of `ev` occur. */
  ghost predicate OnlyRedelivered(ds: seq<Attempted>, ev: Event, c: Column) {
    forall i :: 0 <= i < |ds| && Writes(ds[i].event, ev.gameId, c) ==> ds[i].event.Key() == ev.Key()
  }

  lemma {:induction false} RunKeepsColumn(t: Tables, ev: Event, ds: seq<Attempted>, c: Column)
    requires ev.Key() in t.events && ev.gameId in t.games && Planned(ds) && OnlyRedelivered(ds, ev, c)
    ensures ColumnKept(t, DeliverAll(t, ds), ev.gameId, c)
    decreases |ds|
  {
    if ds != [] {
      var d, s := ds[0], Deliver(t, ds[0].event, ds[0].plan).tables;
      assert Records(t, d.event, s);
      if Writes(d.event, ev.gameId, c) {
        RecordedIsIgnored(t, d.event, d.plan);
      } else {
        RouteKeepsColumn(t, d.event, false, d.plan, ev.gameId, c);
      }
      RunKeepsColumn(s, ev, ds[1..], c);
    }
  }

  /** The stamp an event leaves on its game. */
  function ColumnOf(ev: Event): Column {
    if ev.body.Started? then Joined else Completed
  }

  lemma WholeStamps(t: Tables, ev: Event)
    requires ev.body.Started? || ev.body.Cancelled?
    requires ev.Key() !in t.events && Apply(t, ev).ok
    ensures
      var s := Apply(t, ev).tables;
      ev.Key() in s.events && ev.gameId in s.games && Read(s.games[ev.gameId], ColumnOf(ev)) == Some(StampOf(ev))
  {
    assert Apply(t, ev) == Try(t, ev, false, FAULT_FREE);
  }

  /**
   * A lost join or cancellation is lost for the rest of the run. Let deliveries of
   * any kind and with any faults follow, redeliveries of the event included: as
   * long as no other event writes the same stamp of that game, the row never
   * shows it, while it does so for ever after an undisturbed delivery.
   */
  lemma LostForTheRun(t: Tables, ev: Event, plan: Plan, ds: seq<Attempted>)
    requires ev.body.Started? || ev.body.Cancelled?
    requires ev.Key() !in t.events && Apply(t, ev).ok && Effective(t, ev) && !Recoverable(t, ev, plan)
    requires ev.gameId in t.games && Read(t.games[ev.gameId], ColumnOf(ev)) != Some(StampOf(ev))
    requires Planned(ds) && OnlyRedelivered(ds, ev, ColumnOf(ev))
    ensures
      var cut, whole := DeliverAll(Deliver(t, ev, plan).tables, ds), DeliverAll(Apply(t, ev).tables, ds);
      && ColumnKept(t, cut, ev.gameId, ColumnOf(ev))
      && ev.gameId in whole.games && Read(whole.games[ev.gameId], ColumnOf(ev)) == Some(StampOf(ev))
      && cut != whole
  {
    var s := Deliver(t, ev, plan).tables;
    UnrecoverableIsFinal(t, ev, plan, plan);
    TouchedIsRecorded(t, ev, false, plan);
    RunKeepsColumn(s, ev, ds, ColumnOf(ev));
    WholeStamps(t, ev);
    RunKeepsColumn(Apply(t, ev).tables, ev, ds, ColumnOf(ev));
  }

  /** The failing family is not empty: for every waiting game a cut after the second call loses the join. */
  lemma LostJoin(t: Tables, ev: Event, plan: Plan, ds: seq<Attempted>)
    requires ev.body.Started? && ev.body.playerTwo.Some? && ev.Key() !in t.events && ev.gameId in t.games
    requires t.games[ev.gameId].status == STATUS_WAITING && t.games[ev.gameId].joined != Some(StampOf(ev))
    requires plan == [2] && Planned(ds) && OnlyRedelivered(ds, ev, Joined)
    ensures !Recoverable(t, ev, plan)
    ensures DeliverAll(Deliver(t, ev, plan).tables, ds) != DeliverAll(Apply(t, ev).tables, ds)
  {
    assert Apply(t, ev) == Try(t, ev, false, FAULT_FREE);
    assert plan[0] >= 2;
    assert Reaches(plan, 2);
    LostForTheRun(t, ev, plan, ds);
  }

  // ---------------------------------------------------------------- reveals and draws do not lift

  lemma RevealEffect(t: Tables, ev: Event)
    requires ev.body.SecretOpened? && ev.body.player.Some? && ev.body.coinSide.Some? && ev.Key() !in t.events
    requires ev.gameId in t.games && t.games[ev.gameId].HasPlayer(ev.body.player.value)
    ensures Apply(t, ev).tables == SetChoice(InsertEvent(t, ev), ev.gameId, ev.body.player.value, ev.body.coinSide.value, StampOf(ev))
  {
    assert Apply(t, ev) == Try(t, ev, false, FAULT_FREE);
  }

  /**
   * For a reveal the condition is exact for each delivery and not for a whole
   * run: a lost one leaves no trace once the same player reveals again.
   */
  lemma LaterRevealHidesLoss(t: Tables, a: Event, b: Event, plan: Plan)
    requires a.body.SecretOpened? && b.body.SecretOpened? && a.gameId == b.gameId && a.gameId in t.games
    requires a.body.player == b.body.player && a.body.player.Some? && a.body.coinSide.Some? && b.body.coinSide.Some?
    requires t.games[a.gameId].HasPlayer(a.body.player.value)
    requires a.Key() !in t.events && b.Key() !in t.events && a.Key() != b.Key() && plan == [2]
    ensures !Recoverable(t, a, plan)
    ensures Apply(Deliver(t, a, plan).tables, b).tables == Apply(Apply(t, a).tables, b).tables
  {
    assert plan[0] >= 2;
    assert Reaches(plan, 2);
    var cut, whole := InsertEvent(t, a), Apply(t, a).tables;
    assert Deliver(t, a, plan).tables == Try(t, a, false, 2).tables == cut;
    RevealEffect(t, a);
    RevealEffect(cut, b);
    RevealEffect(whole, b);
  }

  /** A draw with its row and its game written and nobody counted. */
  ghost function Closed(t: Tables, ev: Event): Tables {
    CompleteGame(InsertEvent(t, ev), ev.gameId, NO_WALLET, 0, StampOf(ev))
  }

  lemma DrawBumps(t: Tables, ev: Event, tagged: bool, one: Wallet, two: Wallet)
    requires DrawOf(t, ev, tagged, one, two)
    ensures Try(t, ev, tagged, 5) == Attempt(BumpPlayed(Closed(t, ev), one), true, false)
    ensures Try(t, ev, tagged, 6) == Attempt(BumpPlayed(BumpPlayed(Closed(t, ev), one), two), true, true)
    ensures Try(t, ev, tagged, FAULT_FREE) == Try(t, ev, tagged, 6)
  {
  }

  lemma ClosingAndCounting(t: Tables, ev: Event, w: Wallet)
    ensures Closed(BumpPlayed(t, w), ev) == BumpPlayed(Closed(t, ev), w)
  {
    assert InsertEvent(BumpPlayed(t, w), ev) == BumpPlayed(InsertEvent(t, ev), w);
  }

  lemma ClosingTwice(t: Tables, ev: Event)
    ensures Closed(Closed(t, ev), ev) == Closed(t, ev)
  {
    var c := Closed(t, ev);
    assert InsertEvent(c, ev) == c;
    assert ev.gameId in c.games ==> c.games[ev.gameId := c.games[ev.gameId]] == c.games;
  }

  lemma CountsCommute(t: Tables, x: Wallet, y: Wallet)
    ensures BumpPlayed(BumpPlayed(t, x), y) == BumpPlayed(BumpPlayed(t, y), x)
  {
  }

  /** A draw that is split once and then completes. */
  lemma SplitOnce(t: Tables, ev: Event, plan: Plan, one: Wallet, two: Wallet)
    requires DrawOf(t, ev, false, one, two) && plan == [5, 6]
    ensures Deliver(t, ev, plan).tables == BumpPlayed(BumpPlayed(BumpPlayed(Closed(t, ev), one), one), two)
  {
    var a := Try(t, ev, false, 5);
    DrawBumps(t, ev, false, one, two);
    DrawAttempt(t, ev, false, 5, one, two);
    DrawBumps(a.tables, ev, true, one, two);
    ClosingAndCounting(Closed(t, ev), ev, one);
    ClosingTwice(t, ev);
    var rest: Plan := plan[1..];
    assert rest == [6] && plan[0] == 5;
    assert Deliver(t, ev, plan) == Route(a.tables, ev, true, rest) == Try(a.tables, ev, true, 6);
  }

  /** A draw that is split and given up. */
  lemma SplitAndStop(t: Tables, ev: Event, plan: Plan, one: Wallet, two: Wallet)
    requires DrawOf(t, ev, false, one, two) && plan == [5]
    ensures Deliver(t, ev, plan).tables == BumpPlayed(Closed(t, ev), one)
  {
    DrawBumps(t, ev, false, one, two);
  }

  lemma SplitIsUnrecoverable(t: Tables, ev: Event, plan: Plan, one: Wallet, two: Wallet)
    requires DrawOf(t, ev, false, one, two) && plan[0] == 5
    ensures !Recoverable(t, ev, plan)
  {
    assert plan[0] >= 2;
    assert Reaches(plan, 2);
  }

  /**
   * Nor does it lift for draws: two lost ones with the players swapped can cancel
   * out, because one counts a player twice whom the other does not count.
   */
  lemma SplitDrawsCancelOut(t: Tables, a: Event, b: Event, x: Wallet, y: Wallet, once: Plan, stop: Plan)
    requires DrawOf(t, a, false, x, y) && DrawOf(t, b, false, y, x) && a.gameId != b.gameId
    requires once == [5, 6] && stop == [5]
    ensures
      var first := Deliver(t, a, once).tables;
      && !Recoverable(t, a, once) && !Recoverable(first, b, stop)
      && Deliver(first, b, stop).tables == Apply(Apply(t, a).tables, b).tables
  {
    var first, whole := Deliver(t, a, once).tables, Apply(t, a).tables;
    var c := Closed(t, a);
    SplitIsUnrecoverable(t, a, once, x, y);
    SplitOnce(t, a, once, x, y);
    DrawBumps(t, a, false, x, y);
    assert Apply(t, a) == Try(t, a, false, FAULT_FREE);
    OtherDrawStays(t, a, b, x, y, first);
    OtherDrawStays(t, a, b, x, y, whole);
    SplitIsUnrecoverable(first, b, stop, y, x);
    SplitAndStop(first, b, stop, y, x);
    DrawBumps(whole, b, false, y, x);
    assert Apply(whole, b) == Try(whole, b, false, FAULT_FREE);
    SameCounts(c, b, x, y);
  }

  lemma OtherDrawStays(t: Tables, a: Event, b: Event, x: Wallet, y: Wallet, s: Tables)
    requires DrawOf(t, a, false, x, y) && DrawOf(t, b, false, y, x) && a.gameId != b.gameId
    requires
      var c := Closed(t, a);
      s == BumpPlayed(BumpPlayed(BumpPlayed(c, x), x), y) || s == BumpPlayed(BumpPlayed(c, x), y)
    ensures DrawOf(s, b, false, y, x)
  {
  }

  lemma SameCounts(c: Tables, b: Event, x: Wallet, y: Wallet)
    ensures
      var first, whole := BumpPlayed(BumpPlayed(BumpPlayed(c, x), x), y), BumpPlayed(BumpPlayed(c, x), y);
      BumpPlayed(Closed(first, b), y) == BumpPlayed(BumpPlayed(Closed(whole, b), y), x)
  {
    var d := Closed(c, b);
    var dx := BumpPlayed(d, x);
    ClosingAndCounting(BumpPlayed(BumpPlayed(c, x), x), b, y);
    ClosingAndCounting(BumpPlayed(c, x), b, x);
    ClosingAndCounting(BumpPlayed(c, x), b, y);
    ClosingAndCounting(c, b, x);
    CountsCommute(dx, x, y);
    CountsCommute(BumpPlayed(dx, y), x, y);
  }
}
