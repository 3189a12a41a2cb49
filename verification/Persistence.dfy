/**
 * The repositories and event handlers in the form the program has: objects
 * whose fields are overwritten statement by statement. Every handler is proved
 * to compute exactly its counterpart in Handlers, faults and retries included.
 */
module Persistence {
  import opened Prelude
  import opened Tables
  import opened Handlers

  /** entity.GameEvent: the parsed notification and the row id written back by the insert. */
  class EventObject {
    const event: Event
    var id: nat

    constructor (event: Event)
      ensures this.event == event && id == 0
    {
      this.event := event;
      id := 0;
    }
  }

  /** The database behind the repositories. */
  class Store {
    var games: map<int, Game>
    var events: map<EventKey, Event>
    var users: map<Wallet, Stats>
    var lastEventId: nat
    var budget: nat

    constructor ()
      ensures View() == EMPTY && budget == 0
    {
      games, events, users, lastEventId, budget := map[], map[], map[], 0, 0;
    }

    function View(): Tables
      reads this
    {
      Tables(games, events, users)
    }

    /** A database call either fails and changes nothing, or leaves the tables at `result`. */
    twostate predicate Called(ok: bool, result: Tables)
      reads this
    {
      && ok == (old(budget) > 0)
      && budget == old(budget) - (if ok then 1 else 0)
      && View() == if ok then result else old(View())
    }

    method Reach() returns (ok: bool)
      modifies this
      ensures Called(ok, old(View()))
    {
      ok := budget > 0;
      if ok {
        budget := budget - 1;
      }
    }

    method EnsureUserByWallet(w: Wallet) returns (ok: bool)
      modifies this
      ensures Called(ok, EnsureUser(old(View()), w))
    {
      ok := Reach();
      if ok && w !in users {
        users := users[w := Stats(0, 0, 0)];
      }
    }

    method IncrementGamesPlayed(w: Wallet) returns (ok: bool)
      modifies this
      ensures Called(ok, BumpPlayed(old(View()), w))
    {
      ok := Reach();
      if ok && w in users {
        users := users[w := users[w].(played := users[w].played + 1)];
      }
    }

    method IncrementWins(w: Wallet) returns (ok: bool)
      modifies this
      ensures Called(ok, BumpWins(old(View()), w))
    {
      ok := Reach();
      if ok && w in users {
        users := users[w := users[w].(wins := users[w].wins + 1)];
      }
    }

    method IncrementLosses(w: Wallet) returns (ok: bool)
      modifies this
      ensures Called(ok, BumpLosses(old(View()), w))
    {
      ok := Reach();
      if ok && w in users {
        users := users[w := users[w].(losses := users[w].losses + 1)];
      }
    }

    /** UpsertWithQuerier: only a fresh row writes its id back. */
    method Upsert(e: EventObject) returns (ok: bool)
      modifies this, e`id
      ensures Called(ok, InsertEvent(old(View()), e.event))
      ensures (e.id != 0) == if ok then Tag(old(View()), e.event, old(e.id) != 0) else old(e.id) != 0
    {
      ok := Reach();
      if ok && e.event.Key() !in events {
        events := events[e.event.Key() := e.event];
        lastEventId := lastEventId + 1;
        e.id := lastEventId;
      }
    }

    method CreateGameOrIgnore(ev: Event, playerOne: Wallet, bet: int, choice: int, terms: Terms) returns (ok: bool)
      modifies this
      ensures !ValidNewGame(ev, playerOne, bet, choice) ==> !ok && View() == old(View()) && budget == old(budget)
      ensures ValidNewGame(ev, playerOne, bet, choice) ==>
        Called(ok, CreateOrIgnore(old(View()), ev.gameId, NewGame(ev, playerOne, bet, choice, terms)))
    {
      if !ValidNewGame(ev, playerOne, bet, choice) {
        return false;
      }
      ok := Reach();
      if ok && ev.gameId !in games {
        games := games[ev.gameId := NewGame(ev, playerOne, bet, choice, terms)];
      }
    }

    /** A missing row is an error, like a failed call. */
    method GetGame(id: int) returns (game: Option<Game>)
      modifies this
      ensures View() == old(View())
      ensures game == if old(budget) > 0 && id in games then Some(games[id]) else None
      ensures budget == old(budget) - (if old(budget) > 0 then 1 else 0)
    {
      var ok := Reach();
      game := if ok && id in games then Some(games[id]) else None;
    }

    method Join(id: int, playerTwo: Wallet, stamp: Stamp) returns (ok: bool)
      modifies this
      ensures Called(ok, JoinGame(old(View()), id, playerTwo, stamp))
    {
      ok := Reach();
      if ok && id in games {
        games := games[id := games[id].(
          playerTwo := Some(playerTwo), joined := Some(stamp), status := STATUS_OPEN_BIDS,
          choiceOne := SIDE_CLOSED, choiceTwo := Some(SIDE_CLOSED))];
      }
    }

    method Reveal(id: int, player: Wallet, side: int, stamp: Stamp) returns (ok: bool)
      modifies this
      ensures ok == (old(budget) >= 2 && id in old(games) && old(games)[id].HasPlayer(player))
      ensures View() == if ok then SetChoice(old(View()), id, player, side, stamp) else old(View())
    {
      var game := GetGame(id);
      if game.None? || !game.value.HasPlayer(player) {
        return false;
      }
      ok := Reach();
      if ok {
        var g := games[id].(revealed := Some(stamp));
        if g.playerOne == player {
          games := games[id := g.(choiceOne := side)];
        } else {
          games := games[id := g.(choiceTwo := Some(side))];
        }
      }
    }

    method Complete(id: int, winner: Wallet, payout: int, stamp: Stamp) returns (ok: bool)
      modifies this
      ensures Called(ok, CompleteGame(old(View()), id, winner, payout, stamp))
    {
      ok := Reach();
      if ok && id in games {
        var winnerValue := None;
        if winner != NO_WALLET {
          winnerValue := Some(winner);
        }
        var payoutValue := None;
        if payout > 0 {
          payoutValue := Some(payout);
        }
        games := games[id := games[id].(
          winner := winnerValue, payout := payoutValue, completed := Some(stamp), status := STATUS_PAID)];
      }
    }

    method Cancel(id: int, stamp: Stamp) returns (ok: bool)
      modifies this
      ensures Called(ok, CancelGame(old(View()), id, stamp))
    {
      ok := Reach();
      if ok && id in games {
        games := games[id := games[id].(
          status := STATUS_PAID, completed := Some(stamp), winner := None, payout := None)];
      }
    }

    method Restore(t: Tables)
      modifies this`games, this`events, this`users
      ensures View() == t
    {
      games, events, users := t.games, t.events, t.users;
    }
  }

  class GamePersistence {
    const store: Store

    constructor (store: Store)
      ensures this.store == store
    {
      this.store := store;
    }

    twostate predicate Did(e: EventObject, ok: bool, a: Attempt)
      reads store, e
    {
      store.View() == a.tables && (e.id != 0) == a.tagged && ok == a.ok
    }

    method HandleGameInitialized(e: EventObject) returns (ok: bool)
      requires e.event.body.Initialized?
      modifies store, e`id
      ensures Did(e, ok, TryInitialized(old(store.View()), e.event, old(e.id) != 0, old(store.budget)))
    {
      var ev := e.event;
      if ev.body.playerOne.None? || ev.body.bet.None? || ev.body.terms.None? {
        return false;
      }
      var choice := SIDE_CLOSED;
      if ev.body.choice.Some? {
        choice := ev.body.choice.value;
      }
      ok := store.EnsureUserByWallet(ev.body.playerOne.value);
      if !ok { return; }
      ok := store.CreateGameOrIgnore(ev, ev.body.playerOne.value, ev.body.bet.value, choice, ev.body.terms.value);
      if !ok { return; }
      ok := store.Upsert(e);
    }

    method HandleGameStarted(e: EventObject) returns (ok: bool)
      requires e.event.body.Started?
      modifies store, e`id
      ensures Did(e, ok, TryStarted(old(store.View()), e.event, old(e.id) != 0, old(store.budget)))
    {
      var ev := e.event;
      if ev.body.playerTwo.None? {
        return false;
      }
      var game := store.GetGame(ev.gameId);
      if game.None? { return false; }
      ok := store.Upsert(e);
      if !ok || e.id == 0 { return; }
      ok := store.EnsureUserByWallet(ev.body.playerTwo.value);
      if !ok { return; }
      ok := store.Join(ev.gameId, ev.body.playerTwo.value, Stamp(ev.at, ev.txHash));
    }

    /** The closure passed to WithTx. */
    method FinishInTx(e: EventObject, winner: Wallet, payout: int, loser: Wallet) returns (ok: bool)
      requires e.event.body.Finished? && e.event.body.winner == Some(winner)
      requires payout == PayoutOf(e.event)
      requires e.event.gameId in store.games && loser == LoserOf(store.games[e.event.gameId], winner)
      modifies store, e`id
      ensures
        var t, calls := old(store.View()), (if loser == NO_WALLET then 4 else 6);
        var tag := Tag(t, e.event, old(e.id) != 0);
        && (e.id != 0) == (if old(store.budget) > 0 then tag else old(e.id) != 0)
        && ok == (old(store.budget) >= if tag then calls else 1)
        && (ok ==> store.budget == old(store.budget) - if tag then calls else 1)
        && (ok ==> store.View() == if tag then Settle(InsertEvent(t, e.event), e.event) else t)
    {
      var ev := e.event;
      ok := store.Upsert(e);
      if !ok || e.id == 0 { return; }
      ok := store.Complete(ev.gameId, winner, payout, Stamp(ev.at, ev.txHash));
      if !ok { return; }
      ok := store.IncrementGamesPlayed(winner);
      if !ok { return; }
      ok := store.IncrementWins(winner);
      if !ok { return; }
      if loser != NO_WALLET {
        ok := store.IncrementGamesPlayed(loser);
        if !ok { return; }
        ok := store.IncrementLosses(loser);
      }
    }

    method HandleGameFinished(e: EventObject) returns (ok: bool)
      requires e.event.body.Finished?
      modifies store, e`id
      ensures Did(e, ok, TryFinished(old(store.View()), e.event, old(e.id) != 0, old(store.budget)))
    {
      var ev := e.event;
      var game := store.GetGame(ev.gameId);
      if game.None? || ev.body.winner.None? { return false; }
      var winner := ev.body.winner.value;
      var payout := ev.body.legacyPayout.GetOr(0);
      if ev.body.totalGainings.Some? {
        payout := ev.body.totalGainings.value;
      }
      var loser := NO_WALLET;
      if game.value.playerOne == winner {
        if game.value.playerTwo.Some? {
          loser := game.value.playerTwo.value;
        }
      } else {
        loser := game.value.playerOne;
      }

      // WithTx
      ok := store.Reach();
      if !ok { return; }
      var saved := store.View();
      ok := FinishInTx(e, winner, payout, loser);
      if ok {
        ok := store.Reach();
      }
      if !ok {
        store.Restore(saved);
      }
    }

    method HandleDraw(e: EventObject) returns (ok: bool)
      requires e.event.body.Draw?
      modifies store, e`id
      ensures Did(e, ok, TryDraw(old(store.View()), e.event, old(e.id) != 0, old(store.budget)))
    {
      var ev := e.event;
      var game := store.GetGame(ev.gameId);
      if game.None? { return false; }
      ok := store.Upsert(e);
      if !ok || e.id == 0 { return; }
      ok := store.Complete(ev.gameId, NO_WALLET, 0, Stamp(ev.at, ev.txHash));
      if !ok { return; }
      game := store.GetGame(ev.gameId);
      if game.None? { return false; }
      ok := store.IncrementGamesPlayed(game.value.playerOne);
      if !ok { return; }
      if game.value.playerTwo.Some? {
        ok := store.IncrementGamesPlayed(game.value.playerTwo.value);
      }
    }

    method HandleGameCancelled(e: EventObject) returns (ok: bool)
      requires e.event.body.Cancelled?
      modifies store, e`id
      ensures Did(e, ok, TryCancelled(old(store.View()), e.event, old(e.id) != 0, old(store.budget)))
    {
      var game := store.GetGame(e.event.gameId);
      if game.None? { return false; }
      ok := store.Upsert(e);
      if !ok || e.id == 0 { return; }
      ok := store.Cancel(e.event.gameId, Stamp(e.event.at, e.event.txHash));
    }

    method HandleSecretOpened(e: EventObject) returns (ok: bool)
      requires e.event.body.SecretOpened?
      modifies store, e`id
      ensures Did(e, ok, TrySecretOpened(old(store.View()), e.event, old(e.id) != 0, old(store.budget)))
    {
      var ev := e.event;
      var game := store.GetGame(ev.gameId);
      if game.None? { return false; }
      ok := store.Upsert(e);
      if !ok || e.id == 0 { return; }
      if ev.body.player.None? || ev.body.coinSide.None? {
        return false;
      }
      ok := store.Reveal(ev.gameId, ev.body.player.value, ev.body.coinSide.value, Stamp(ev.at, ev.txHash));
    }

    method HandleInsufficientBalance(e: EventObject) returns (ok: bool)
      requires e.event.body.InsufficientBalance?
      modifies store, e`id
      ensures Did(e, ok, TryInsufficientBalance(old(store.View()), e.event, old(e.id) != 0, old(store.budget)))
    {
      var game := store.GetGame(e.event.gameId);
      if game.None? { return false; }
      ok := store.Upsert(e);
    }

    method RouteEvent(e: EventObject) returns (ok: bool)
      modifies store, e`id
      ensures Did(e, ok, Try(old(store.View()), e.event, old(e.id) != 0, old(store.budget)))
    {
      match e.event.body
      case Initialized(_, _, _, _) => ok := HandleGameInitialized(e);
      case Started(_) => ok := HandleGameStarted(e);
      case Finished(_, _, _) => ok := HandleGameFinished(e);
      case Cancelled => ok := HandleGameCancelled(e);
      case Draw => ok := HandleDraw(e);
      case SecretOpened(_, _) => ok := HandleSecretOpened(e);
      case InsufficientBalance => ok := HandleInsufficientBalance(e);
    }

    /** routeEventWithRetry on a freshly parsed event. */
    method HandleTransaction(ev: Event, plan: Plan) returns (ok: bool)
      modifies store
      ensures store.View() == Deliver(old(store.View()), ev, plan).tables
      ensures ok == Deliver(old(store.View()), ev, plan).ok
    {
      var e := new EventObject(ev);
      var attempt := 0;
      ok := false;
      while attempt < |plan| && !ok
        invariant 0 <= attempt <= |plan|
        invariant fresh(e) && e.event == ev
        invariant !ok && attempt < |plan| ==>
          Route(store.View(), ev, e.id != 0, plan[attempt..]) == Deliver(old(store.View()), ev, plan)
        invariant ok || attempt == |plan| ==>
          store.View() == Deliver(old(store.View()), ev, plan).tables && ok == Deliver(old(store.View()), ev, plan).ok
        decreases |plan| - attempt
      {
        ghost var rest := plan[attempt..];
        assert rest[1..] == plan[attempt + 1..];
        store.budget := plan[attempt];
        ok := RouteEvent(e);
        attempt := attempt + 1;
      }
    }
  }
}
