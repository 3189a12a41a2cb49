/**
 * What one call of each event handler does to the tables, for every point at
 * which the database may fail underneath it.
 *
 * `budget` is the number of database calls that succeed before one fails; the
 * handler stops there, and so does a process that crashes there. `tagged` says
 * whether the event object in memory carries a non-zero id, which is how the
 * handlers tell a fresh insert from a duplicate. An in-process retry passes the
 * same object again, so a tag set by one attempt is still there in the next.
 */
module Handlers {
  import opened Prelude
  import opened Tables

  datatype Attempt = Attempt(tables: Tables, tagged: bool, ok: bool)

  /** More calls than any handler makes. */
  const FAULT_FREE: nat := 9

  /** UpsertWithQuerier: a conflict returns no row and leaves the id as it was. */
  function Tag(t: Tables, ev: Event, tagged: bool): bool {
    tagged || ev.Key() !in t.events
  }

  function StampOf(ev: Event): Stamp {
    Stamp(ev.at, ev.txHash)
  }

  predicate InitializedFieldsPresent(ev: Event)
    requires ev.body.Initialized?
  {
    ev.body.playerOne.Some? && ev.body.bet.Some? && ev.body.terms.Some?
  }

  function ChoiceOf(ev: Event): int
    requires ev.body.Initialized?
  {
    ev.body.choice.GetOr(SIDE_CLOSED)
  }

  predicate InitializedAccepted(ev: Event)
    requires ev.body.Initialized?
  {
    && InitializedFieldsPresent(ev)
    && ValidNewGame(ev, ev.body.playerOne.value, ev.body.bet.value, ChoiceOf(ev))
  }

  function RowOf(ev: Event): Game
    requires ev.body.Initialized? && InitializedFieldsPresent(ev)
  {
    NewGame(ev, ev.body.playerOne.value, ev.body.bet.value, ChoiceOf(ev), ev.body.terms.value)
  }

  /** Rows are never removed and recorded events never change. */
  ghost predicate Grows(t: Tables, s: Tables) {
    && t.games.Keys <= s.games.Keys
    && t.users.Keys <= s.users.Keys
    && t.events.Keys <= s.events.Keys
    && forall k :: k in t.events ==> s.events[k] == t.events[k]
  }

  /** A handler adds at most the row of its own event. */
  ghost predicate Records(t: Tables, ev: Event, s: Tables) {
    Grows(t, s) && forall k :: k in s.events ==> k in t.events || k == ev.Key()
  }

  /** The event is on record and everything its handler touches before noticing exists. */
  ghost predicate Absorbed(t: Tables, ev: Event) {
    && ev.Key() in t.events
    && ev.gameId in t.games
    && (ev.body.Initialized? ==> InitializedAccepted(ev) && ev.body.playerOne.value in t.users)
    && (ev.body.Started? ==> ev.body.playerTwo.Some?)
    && (ev.body.Finished? ==> ev.body.winner.Some?)
  }

  // Calls: ensure player one, create or ignore the game, insert the event.
  function TryInitialized(t: Tables, ev: Event, tagged: bool, budget: nat): (a: Attempt)
    requires ev.body.Initialized?
    ensures Records(t, ev, a.tables) && (a.ok ==> Absorbed(a.tables, ev))
  {
    if !InitializedFieldsPresent(ev) || budget < 1 then Attempt(t, tagged, false) else
    var t1 := EnsureUser(t, ev.body.playerOne.value);
    if !InitializedAccepted(ev) || budget < 2 then Attempt(t1, tagged, false) else
    var t2 := CreateOrIgnore(t1, ev.gameId, RowOf(ev));
    if budget < 3 then Attempt(t2, tagged, false) else
    Attempt(InsertEvent(t2, ev), Tag(t2, ev, tagged), true)
  }

  // Calls: read the game, insert the event, ensure player two, join.
  function TryStarted(t: Tables, ev: Event, tagged: bool, budget: nat): (a: Attempt)
    requires ev.body.Started?
    ensures Records(t, ev, a.tables) && (a.ok ==> Absorbed(a.tables, ev))
  {
    if ev.body.playerTwo.None? || budget < 1 || ev.gameId !in t.games || budget < 2 then Attempt(t, tagged, false) else
    var t1, tag := InsertEvent(t, ev), Tag(t, ev, tagged);
    if !tag then Attempt(t1, tag, true) else
    if budget < 3 then Attempt(t1, tag, false) else
    var t2 := EnsureUser(t1, ev.body.playerTwo.value);
    if budget < 4 then Attempt(t2, tag, false) else
    Attempt(JoinGame(t2, ev.gameId, ev.body.playerTwo.value, StampOf(ev)), tag, true)
  }

  function PayoutOf(ev: Event): int
    requires ev.body.Finished?
  {
    if ev.body.totalGainings.Some? then ev.body.totalGainings.value else ev.body.legacyPayout.GetOr(0)
  }

  /** The other participant, or NO_WALLET when it is not known. */
  function LoserOf(g: Game, winner: Wallet): Wallet {
    if g.playerOne == winner then g.playerTwo.GetOr(NO_WALLET) else g.playerOne
  }

  /** The body of the GameFinished transaction after its event row is in. */
  function Settle(t: Tables, ev: Event): Tables
    requires ev.body.Finished? && ev.body.winner.Some? && ev.gameId in t.games
  {
    var winner := ev.body.winner.value;
    var loser := LoserOf(t.games[ev.gameId], winner);
    var t1 := CompleteGame(t, ev.gameId, winner, PayoutOf(ev), StampOf(ev));
    var t2 := BumpWins(BumpPlayed(t1, winner), winner);
    if loser == NO_WALLET then t2 else BumpLosses(BumpPlayed(t2, loser), loser)
  }

  /** Database calls of a GameFinished transaction that is not a duplicate, commit included. */
  function SettleCalls(t: Tables, ev: Event): nat
    requires ev.body.Finished? && ev.body.winner.Some? && ev.gameId in t.games
  {
    if LoserOf(t.games[ev.gameId], ev.body.winner.value) == NO_WALLET then 7 else 9
  }

  // Calls: read the game, begin, insert the event, complete, two or four increments, commit.
  // Everything after begin is undone unless the commit succeeds; the tag is not.
  function TryFinished(t: Tables, ev: Event, tagged: bool, budget: nat): (a: Attempt)
    requires ev.body.Finished?
    ensures Records(t, ev, a.tables) && (a.ok ==> Absorbed(a.tables, ev))
  {
    if budget < 1 || ev.gameId !in t.games || ev.body.winner.None? || budget < 3 then Attempt(t, tagged, false) else
    var t1, tag := InsertEvent(t, ev), Tag(t, ev, tagged);
    if !tag then Attempt(t, tag, budget >= 4) else
    if budget < SettleCalls(t, ev) then Attempt(t, tag, false) else
    Attempt(Settle(t1, ev), tag, true)
  }

  // Calls: read the game, insert the event, complete, read again, one or two increments.
  function TryDraw(t: Tables, ev: Event, tagged: bool, budget: nat): (a: Attempt)
    requires ev.body.Draw?
    ensures Records(t, ev, a.tables) && (a.ok ==> Absorbed(a.tables, ev))
  {
    if budget < 1 || ev.gameId !in t.games || budget < 2 then Attempt(t, tagged, false) else
    var t1, tag := InsertEvent(t, ev), Tag(t, ev, tagged);
    if !tag then Attempt(t1, tag, true) else
    if budget < 3 then Attempt(t1, tag, false) else
    var t2 := CompleteGame(t1, ev.gameId, NO_WALLET, 0, StampOf(ev));
    if budget < 5 then Attempt(t2, tag, false) else
    var g := t2.games[ev.gameId];
    var t3 := BumpPlayed(t2, g.playerOne);
    if g.playerTwo.None? then Attempt(t3, tag, true) else
    if budget < 6 then Attempt(t3, tag, false) else
    Attempt(BumpPlayed(t3, g.playerTwo.value), tag, true)
  }

  // Calls: read the game, insert the event, cancel.
  function TryCancelled(t: Tables, ev: Event, tagged: bool, budget: nat): (a: Attempt)
    requires ev.body.Cancelled?
    ensures Records(t, ev, a.tables) && (a.ok ==> Absorbed(a.tables, ev))
  {
    if budget < 1 || ev.gameId !in t.games || budget < 2 then Attempt(t, tagged, false) else
    var t1, tag := InsertEvent(t, ev), Tag(t, ev, tagged);
    if !tag then Attempt(t1, tag, true) else
    if budget < 3 then Attempt(t1, tag, false) else
    Attempt(CancelGame(t1, ev.gameId, StampOf(ev)), tag, true)
  }

  // Calls: read the game, insert the event, read again inside RevealChoice, update.
  // The player and the side are only looked at once the event row is in.
  function TrySecretOpened(t: Tables, ev: Event, tagged: bool, budget: nat): (a: Attempt)
    requires ev.body.SecretOpened?
    ensures Records(t, ev, a.tables) && (a.ok ==> Absorbed(a.tables, ev))
  {
    if budget < 1 || ev.gameId !in t.games || budget < 2 then Attempt(t, tagged, false) else
    var t1, tag := InsertEvent(t, ev), Tag(t, ev, tagged);
    if !tag then Attempt(t1, tag, true) else
    if ev.body.player.None? || ev.body.coinSide.None? || budget < 3 then Attempt(t1, tag, false) else
    if !t1.games[ev.gameId].HasPlayer(ev.body.player.value) || budget < 4 then Attempt(t1, tag, false) else
    Attempt(SetChoice(t1, ev.gameId, ev.body.player.value, ev.body.coinSide.value, StampOf(ev)), tag, true)
  }

  // Calls: read the game, insert the event.
  function TryInsufficientBalance(t: Tables, ev: Event, tagged: bool, budget: nat): (a: Attempt)
    requires ev.body.InsufficientBalance?
    ensures Records(t, ev, a.tables) && (a.ok ==> Absorbed(a.tables, ev))
  {
    if budget < 1 || ev.gameId !in t.games || budget < 2 then Attempt(t, tagged, false) else
    Attempt(InsertEvent(t, ev), Tag(t, ev, tagged), true)
  }

  /** routeEvent */
  function Try(t: Tables, ev: Event, tagged: bool, budget: nat): (a: Attempt)
    ensures Records(t, ev, a.tables) && (a.ok ==> Absorbed(a.tables, ev))
  {
    match ev.body
    case Initialized(_, _, _, _) => TryInitialized(t, ev, tagged, budget)
    case Started(_) => TryStarted(t, ev, tagged, budget)
    case Finished(_, _, _) => TryFinished(t, ev, tagged, budget)
    case Cancelled => TryCancelled(t, ev, tagged, budget)
    case Draw => TryDraw(t, ev, tagged, budget)
    case SecretOpened(_, _) => TrySecretOpened(t, ev, tagged, budget)
    case InsufficientBalance => TryInsufficientBalance(t, ev, tagged, budget)
  }

  /** One budget for each attempt the retry loop makes; a cancelled context is a shorter plan. */
  type Plan = p: seq<nat> | |p| > 0 witness [FAULT_FREE]

  /** routeEventWithRetry: stop at the first success, else go on with the same event object. */
  function Route(t: Tables, ev: Event, tagged: bool, plan: Plan): (r: Attempt)
    ensures Records(t, ev, r.tables) && (r.ok ==> Absorbed(r.tables, ev))
    decreases |plan|
  {
    var a := Try(t, ev, tagged, plan[0]);
    if a.ok || |plan| == 1 then a else Route(a.tables, ev, a.tagged, plan[1..])
  }

  /** One delivery of a transaction: parsing builds a fresh event, so its id is zero. */
  function Deliver(t: Tables, ev: Event, plan: Plan): Attempt {
    Route(t, ev, false, plan)
  }

  /** A delivery during which the database does not fail. */
  function Apply(t: Tables, ev: Event): Attempt {
    Deliver(t, ev, [FAULT_FREE])
  }
}
