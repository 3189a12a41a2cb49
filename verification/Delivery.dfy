/**
 * Retries, crashes and redeliveries of a single event: which intermediate
 * tables an interrupted handler can leave, when a later attempt repairs them,
 * and when it cannot.
 */
module Delivery {
  import opened Prelude
  import opened Tables
  import opened Handlers

  // ---------------------------------------------------------------- duplicates

  lemma AbsorbedStays(t: Tables, s: Tables, ev: Event)
    requires Absorbed(t, ev) && Grows(t, s)
    ensures Absorbed(s, ev)
  {
  }

  /**
   * Redelivering an absorbed event changes no table whatever faults interrupt
   * it, and it is acknowledged as soon as one attempt gets four calls through.
   */
  lemma {:induction false} RedeliveryChangesNothing(t: Tables, ev: Event, plan: Plan)
    requires Absorbed(t, ev)
    ensures Deliver(t, ev, plan).tables == t && !Deliver(t, ev, plan).tagged
    ensures (exists i :: 0 <= i < |plan| && plan[i] >= 4) ==> Deliver(t, ev, plan).ok
    decreases |plan|
  {
    var a := Try(t, ev, false, plan[0]);
    assert a.tables == t && !a.tagged;
    if !a.ok && |plan| > 1 {
      RedeliveryChangesNothing(t, ev, plan[1..]);
      if i :| 0 <= i < |plan| && plan[i] >= 4 {
        assert i > 0 && plan[1..][i - 1] >= 4;
      }
    }
  }

  // ---------------------------------------------------------------- interrupted handlers

  /**
   * Handlers whose effects are complete as soon as their event row is visible:
   * GameInitialized writes it last, GameFinished commits it with the rest, and
   * InsufficientBalance writes nothing else.
   */
  predicate RowLast(ev: Event) {
    ev.body.Initialized? || ev.body.Finished? || ev.body.InsufficientBalance?
  }

  /**
   * The tables (and tag) that interrupted attempts at `ev` can leave behind when
   * they started from `t`, provided no draw was cut between its two increments.
   */
  ghost predicate Partial(t: Tables, ev: Event, s: Tables, tagged: bool) {
    var row := InsertEvent(t, ev);
    match ev.body
    case Initialized(p, _, _, _) =>
      && !tagged
      && (s == t
          || (InitializedFieldsPresent(ev) && s == EnsureUser(t, p.value))
          || (InitializedAccepted(ev) && s == CreateOrIgnore(EnsureUser(t, p.value), ev.gameId, RowOf(ev))))
    case Started(p) =>
      || (s == t && !tagged)
      || (tagged && p.Some? && ev.gameId in t.games && (s == row || s == EnsureUser(row, p.value)))
    case Finished(_, _, _) => s == t
    case Draw =>
      || (s == t && !tagged)
      || (tagged && ev.gameId in t.games && (s == row || s == CompleteGame(row, ev.gameId, NO_WALLET, 0, StampOf(ev))))
    case InsufficientBalance => s == t && !tagged
    case _ =>
      || (s == t && !tagged)
      || (tagged && ev.gameId in t.games && s == row)
  }

  /** Attempts that count player one of a draw and are then cut off before player two. */
  function Splits(plan: seq<nat>): nat {
    if plan == [] || plan[0] >= 6 then 0 else (if plan[0] == 5 then 1 else 0) + Splits(plan[1..])
  }

  /** No attempt of a two-player draw stops between the two increments. */
  ghost predicate NoSplit(t: Tables, ev: Event, plan: Plan) {
    ev.body.Draw? && ev.gameId in t.games && t.games[ev.gameId].playerTwo.Some? ==> Splits(plan) == 0
  }

  lemma NoSplitRest(t: Tables, ev: Event, s: Tables, tagged: bool, plan: Plan)
    requires Partial(t, ev, s, tagged) && NoSplit(t, ev, plan) && |plan| > 1 && !Try(s, ev, tagged, plan[0]).ok
    ensures NoSplit(t, ev, plan[1..])
  {
  }

  /** What the next attempt may make of a partial state: finish the job exactly, or stay partial. */
  ghost predicate Continues(t: Tables, ev: Event, a: Attempt) {
    var whole := Try(t, ev, false, FAULT_FREE);
    if a.ok then whole.ok && a.tables == whole.tables else Partial(t, ev, a.tables, a.tagged)
  }

  /** Ensuring and creating again what exists changes nothing. */
  lemma CreateAgain(t: Tables, p: Wallet, id: int, row: Game)
    ensures
      var e := EnsureUser(t, p);
      var c := CreateOrIgnore(e, id, row);
      EnsureUser(e, p) == e && EnsureUser(c, p) == c && CreateOrIgnore(c, id, row) == c
  {
  }

  lemma PartialInitialized(t: Tables, ev: Event, s: Tables, budget: nat)
    requires ev.body.Initialized? && ev.Key() !in t.events && Partial(t, ev, s, false)
    ensures Continues(t, ev, TryInitialized(s, ev, false, budget))
  {
    if InitializedFieldsPresent(ev) {
      var p, row := ev.body.playerOne.value, RowOf(ev);
      var e := EnsureUser(t, p);
      var c := CreateOrIgnore(e, ev.gameId, row);
      CreateAgain(t, p, ev.gameId, row);
      assert ev.Key() !in e.events && ev.Key() !in c.events;
      assert EnsureUser(s, p) == e || (s == c && EnsureUser(s, p) == c);
      assert CreateOrIgnore(EnsureUser(s, p), ev.gameId, row) == c;
    }
  }

  lemma PartialStarted(t: Tables, ev: Event, s: Tables, tagged: bool, budget: nat)
    requires ev.body.Started? && ev.Key() !in t.events && Partial(t, ev, s, tagged)
    ensures Continues(t, ev, TryStarted(s, ev, tagged, budget))
  {
  }

  /** A draw that has its row, and perhaps its game completed, goes on as one that starts from nothing. */
  lemma DrawResumes(t: Tables, ev: Event, s: Tables, budget: nat)
    requires ev.body.Draw? && ev.Key() !in t.events && ev.gameId in t.games && budget >= 3
    requires s == InsertEvent(t, ev) || s == CompleteGame(InsertEvent(t, ev), ev.gameId, NO_WALLET, 0, StampOf(ev))
    ensures TryDraw(s, ev, true, budget) == TryDraw(t, ev, false, budget)
  {
    var row := InsertEvent(t, ev);
    assert InsertEvent(s, ev) == s && InsertEvent(row, ev) == row;
    assert CompleteGame(s, ev.gameId, NO_WALLET, 0, StampOf(ev)) == CompleteGame(row, ev.gameId, NO_WALLET, 0, StampOf(ev));
  }

  lemma DrawFromNothing(t: Tables, ev: Event, budget: nat)
    requires ev.body.Draw? && ev.Key() !in t.events
    requires budget == 5 && ev.gameId in t.games ==> t.games[ev.gameId].playerTwo.None?
    ensures Continues(t, ev, TryDraw(t, ev, false, budget))
  {
  }

  lemma PartialDraw(t: Tables, ev: Event, s: Tables, tagged: bool, budget: nat)
    requires ev.body.Draw? && ev.Key() !in t.events && Partial(t, ev, s, tagged)
    requires budget == 5 && ev.gameId in t.games ==> t.games[ev.gameId].playerTwo.None?
    ensures Continues(t, ev, TryDraw(s, ev, tagged, budget))
  {
    if !tagged {
      DrawFromNothing(t, ev, budget);
    } else if budget >= 3 {
      DrawResumes(t, ev, s, budget);
      DrawFromNothing(t, ev, budget);
    } else {
      assert InsertEvent(s, ev) == s;
    }
  }

  lemma PartialOther(t: Tables, ev: Event, s: Tables, tagged: bool, budget: nat)
    requires ev.body.Finished? || ev.body.Cancelled? || ev.body.SecretOpened? || ev.body.InsufficientBalance?
    requires ev.Key() !in t.events && Partial(t, ev, s, tagged)
    ensures Continues(t, ev, Try(s, ev, tagged, budget))
  {
  }

  lemma PartialStep(t: Tables, ev: Event, s: Tables, tagged: bool, budget: nat)
    requires ev.Key() !in t.events && Partial(t, ev, s, tagged)
    requires ev.body.Draw? && budget == 5 && ev.gameId in t.games ==> t.games[ev.gameId].playerTwo.None?
    ensures Continues(t, ev, Try(s, ev, tagged, budget))
  {
    match ev.body
    case Initialized(_, _, _, _) => PartialInitialized(t, ev, s, budget);
    case Started(_) => PartialStarted(t, ev, s, tagged, budget);
    case Draw => PartialDraw(t, ev, s, tagged, budget);
    case _ => PartialOther(t, ev, s, tagged, budget);
  }

  /**
   * A retry loop that ends in success has had exactly the effect of one
   * fault-free delivery, and one that does not leaves a partial state.
   */
  lemma {:induction false} RetriesRepair(t: Tables, ev: Event, s: Tables, tagged: bool, plan: Plan)
    requires ev.Key() !in t.events && Partial(t, ev, s, tagged) && NoSplit(t, ev, plan)
    ensures
      var a := Route(s, ev, tagged, plan);
      if a.ok then Apply(t, ev).ok && a.tables == Apply(t, ev).tables
      else Partial(t, ev, a.tables, a.tagged)
    decreases |plan|
  {
    PartialStep(t, ev, s, tagged, plan[0]);
    var a := Try(s, ev, tagged, plan[0]);
    if !a.ok && |plan| > 1 {
      NoSplitRest(t, ev, s, tagged, plan);
      RetriesRepair(t, ev, a.tables, a.tagged, plan[1..]);
    }
  }

  // ---------------------------------------------------------------- draws

  predicate Completes(plan: seq<nat>) {
    exists i :: 0 <= i < |plan| && plan[i] >= 6
  }

  ghost function PlayedBy(t: Tables, w: Wallet): nat {
    if w in t.users then t.users[w].played else 0
  }

  ghost predicate DrawOf(t: Tables, ev: Event, tagged: bool, one: Wallet, two: Wallet) {
    && ev.body.Draw? && (tagged || ev.Key() !in t.events) && ev.gameId in t.games
    && t.games[ev.gameId].playerOne == one && t.games[ev.gameId].playerTwo == Some(two)
    && one != two && one in t.users && two in t.users
  }

  lemma DrawAttempt(t: Tables, ev: Event, tagged: bool, budget: nat, one: Wallet, two: Wallet)
    requires DrawOf(t, ev, tagged, one, two)
    ensures
      var a := Try(t, ev, tagged, budget);
      && a.ok == (budget >= 6)
      && DrawOf(a.tables, ev, a.tagged, one, two)
      && PlayedBy(a.tables, one) == PlayedBy(t, one) + (if budget >= 5 then 1 else 0)
      && PlayedBy(a.tables, two) == PlayedBy(t, two) + (if budget >= 6 then 1 else 0)
  {
  }

  lemma CompletesLater(plan: seq<nat>)
    requires plan != [] && plan[0] < 6
    ensures Completes(plan) == Completes(plan[1..])
  {
    if i :| 0 <= i < |plan| && plan[i] >= 6 {
      assert plan[1..][i - 1] >= 6;
    }
  }

  /** How often a retried draw counts each player, for every plan. */
  lemma {:induction false} DrawCounts(t: Tables, ev: Event, tagged: bool, plan: Plan, one: Wallet, two: Wallet)
    requires DrawOf(t, ev, tagged, one, two)
    ensures
      var s := Route(t, ev, tagged, plan).tables;
      var once := if Completes(plan) then 1 else 0;
      && PlayedBy(s, one) == PlayedBy(t, one) + once + Splits(plan)
      && PlayedBy(s, two) == PlayedBy(t, two) + once
    decreases |plan|
  {
    DrawAttempt(t, ev, tagged, plan[0], one, two);
    var a := Try(t, ev, tagged, plan[0]);
    if plan[0] < 6 {
      CompletesLater(plan);
      if |plan| > 1 {
        DrawCounts(a.tables, ev, a.tagged, plan[1..], one, two);
      } else {
        assert plan[1..] == [];
      }
    }
  }

  /** A draw counts both players once exactly when some attempt completes and none was split before it. */
  lemma DrawCountedOnceIff(t: Tables, ev: Event, plan: Plan, one: Wallet, two: Wallet)
    requires DrawOf(t, ev, false, one, two)
    ensures
      var s := Deliver(t, ev, plan).tables;
      (PlayedBy(s, one) == PlayedBy(t, one) + 1 && PlayedBy(s, two) == PlayedBy(t, two) + 1)
      <==> (Completes(plan) && Splits(plan) == 0)
  {
    DrawCounts(t, ev, false, plan, one, two);
  }

  /** One in-process retry is enough to count player one twice. */
  lemma DrawCountedTwice(t: Tables, ev: Event, one: Wallet, two: Wallet)
    requires DrawOf(t, ev, false, one, two)
    ensures Deliver(t, ev, [5, 6]).ok
    ensures PlayedBy(Deliver(t, ev, [5, 6]).tables, one) == PlayedBy(t, one) + 2
  {
    DrawCounts(t, ev, false, [5, 6], one, two);
    assert [5, 6][1..] == [6] && [5, 6][1] >= 6;
    DrawAttempt(t, ev, false, 5, one, two);
    var a := Try(t, ev, false, 5);
    DrawAttempt(a.tables, ev, a.tagged, 6, one, two);
  }

  // ---------------------------------------------------------------- GameFinished is exactly-once

  datatype Attempted = Attempted(event: Event, plan: seq<nat>)

  /** Deliveries of events of any kind. */
  ghost predicate Planned(ds: seq<Attempted>) {
    forall i :: 0 <= i < |ds| ==> |ds[i].plan| > 0
  }

  /** Tables after a sequence of deliveries, however each of them ended. */
  function DeliverAll(t: Tables, ds: seq<Attempted>): Tables
    requires Planned(ds)
    decreases |ds|
  {
    if ds == [] then t else DeliverAll(Deliver(t, ds[0].event, ds[0].plan).tables, ds[1..])
  }

  /** Between `t` and `s` the event came on record. */
  ghost predicate NewlyRecorded(t: Tables, ev: Event, s: Tables) {
    ev.Key() in s.events && ev.Key() !in t.events
  }

  /** The deliveries that put a new row on record. */
  ghost function Recorded(t: Tables, ds: seq<Attempted>): seq<Event>
    requires Planned(ds)
    decreases |ds|
  {
    if ds == [] then [] else
    var s := Deliver(t, ds[0].event, ds[0].plan).tables;
    NewRow(t, ds[0].event, s) + Recorded(s, ds[1..])
  }

  ghost function NewRow(t: Tables, ev: Event, s: Tables): seq<Event> {
    if NewlyRecorded(t, ev, s) then [ev] else []
  }

  /** Each GameFinished delivery either does nothing at all or settles, and it settles only what is not on record. */
  lemma FinishedAllOrNothing(t: Tables, ev: Event, plan: Plan)
    requires ev.body.Finished?
    ensures
      var s := Deliver(t, ev, plan).tables;
      if NewlyRecorded(t, ev, s)
      then ev.body.winner.Some? && ev.gameId in t.games && s == Settle(InsertEvent(t, ev), ev)
      else s == t
    ensures Deliver(t, ev, plan).ok ==> ev.Key() in Deliver(t, ev, plan).tables.events
  {
    if ev.Key() in t.events {
      FinishedDuplicate(t, ev, plan);
    } else {
      RetriesRepair(t, ev, t, false, plan);
    }
  }

  lemma {:induction false} FinishedDuplicate(t: Tables, ev: Event, plan: Plan)
    requires ev.body.Finished? && ev.Key() in t.events
    ensures Route(t, ev, false, plan).tables == t
    decreases |plan|
  {
    if |plan| > 1 {
      FinishedDuplicate(t, ev, plan[1..]);
    }
  }

  // ---------------------------------------------------------------- the recorded events are the new rows

  ghost function KeysOf(evs: seq<Event>): set<EventKey> {
    set i | 0 <= i < |evs| :: evs[i].Key()
  }

  lemma KeysOfCons(ev: Event, rest: seq<Event>)
    ensures KeysOf([ev] + rest) == {ev.Key()} + KeysOf(rest)
  {
    var all := [ev] + rest;
    assert all[0].Key() in KeysOf(all);
    forall i | 0 <= i < |rest|
      ensures rest[i].Key() in KeysOf(all)
    {
      assert all[i + 1] == rest[i];
    }
  }

  /** What one delivery adds to the list of recorded events. */
  lemma RecordedHead(t: Tables, ds: seq<Attempted>, s: Tables, r: seq<Event>)
    requires Planned(ds) && ds != []
    requires s == Deliver(t, ds[0].event, ds[0].plan).tables && r == Recorded(s, ds[1..])
    ensures Recorded(t, ds) == if NewlyRecorded(t, ds[0].event, s) then [ds[0].event] + r else r
  {
    assert Recorded(t, ds) == NewRow(t, ds[0].event, s) + r;
    NoneInFront(r);
  }

  lemma NoneInFront(r: seq<Event>)
    ensures [] + r == r
  {
  }

  /** Keys after one more event `ev` in front of the events `r` recorded from `s` on. */
  lemma KeysStep(t: set<EventKey>, s: set<EventKey>, end: set<EventKey>, ev: Event, r: seq<Event>)
    requires ev.Key() !in t && s == t + {ev.Key()}
    requires end == s + KeysOf(r) && s !! KeysOf(r) && |KeysOf(r)| == |r|
    ensures end == t + KeysOf([ev] + r) && t !! KeysOf([ev] + r) && |KeysOf([ev] + r)| == |[ev] + r|
  {
    KeysOfCons(ev, r);
  }

  /** One delivery in front of the events `r` recorded from `s` on. */
  ghost predicate Prepends(t: set<EventKey>, s: set<EventKey>, ev: Event, r: seq<Event>, all: seq<Event>) {
    || (ev.Key() !in t && s == t + {ev.Key()} && all == [ev] + r)
    || (s == t && all == r)
  }

  /** The recorded events are exactly the new rows, each of them once. */
  ghost predicate NewRows(t: set<EventKey>, end: set<EventKey>, evs: seq<Event>) {
    end == t + KeysOf(evs) && t !! KeysOf(evs) && |KeysOf(evs)| == |evs|
  }

  lemma NewRowsStep(t: set<EventKey>, s: set<EventKey>, end: set<EventKey>, ev: Event, r: seq<Event>, all: seq<Event>)
    requires NewRows(s, end, r) && Prepends(t, s, ev, r, all)
    ensures NewRows(t, end, all)
  {
    if all != r || s != t {
      KeysStep(t, s, end, ev, r);
    }
  }

  lemma KeysAfterDelivery(t: Tables, ev: Event, plan: Plan, s: Tables)
    requires s == Deliver(t, ev, plan).tables
    ensures s.events.Keys == if NewlyRecorded(t, ev, s) then t.events.Keys + {ev.Key()} else t.events.Keys
  {
    assert Records(t, ev, s);
  }

  lemma RecordedPrepends(t: Tables, ds: seq<Attempted>, s: Tables)
    requires Planned(ds) && ds != [] && s == Deliver(t, ds[0].event, ds[0].plan).tables
    ensures Prepends(t.events.Keys, s.events.Keys, ds[0].event, Recorded(s, ds[1..]), Recorded(t, ds))
    ensures DeliverAll(t, ds) == DeliverAll(s, ds[1..])
  {
    RecordedHead(t, ds, s, Recorded(s, ds[1..]));
    KeysAfterDelivery(t, ds[0].event, ds[0].plan, s);
  }

  /** For deliveries of all kinds, with any faults: the recorded events are the new rows, each once. */
  lemma {:induction false} RecordedAreTheNewRows(t: Tables, ds: seq<Attempted>)
    requires Planned(ds)
    ensures NewRows(t.events.Keys, DeliverAll(t, ds).events.Keys, Recorded(t, ds))
    decreases |ds|
  {
    if ds == [] {
      assert KeysOf([]) == {};
    } else {
      var s := Deliver(t, ds[0].event, ds[0].plan).tables;
      RecordedPrepends(t, ds, s);
      RecordedAreTheNewRows(s, ds[1..]);
      NewRowsStep(t.events.Keys, s.events.Keys, DeliverAll(s, ds[1..]).events.Keys, ds[0].event, Recorded(s, ds[1..]), Recorded(t, ds));
    }
  }
}
