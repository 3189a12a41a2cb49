/**
 * Results of games under any deliveries: every GameFinished event counts its
 * winner and its loser exactly once, whatever else is delivered in between.
 */
module Results {
  import opened Prelude
  import opened Tables
  import opened Handlers
  import opened Delivery
  import Provenance

  // ---------------------------------------------------------------- results are a fold over the recorded events

  predicate IsWinOf(ev: Event, w: Wallet) {
    ev.body.Finished? && ev.body.winner == Some(w)
  }

  function WinsIn(evs: seq<Event>, w: Wallet): nat {
    if evs == [] then 0 else (if IsWinOf(evs[0], w) then 1 else 0) + WinsIn(evs[1..], w)
  }

  function FinishedIn(evs: seq<Event>): nat {
    if evs == [] then 0 else (if evs[0].body.Finished? then 1 else 0) + FinishedIn(evs[1..])
  }

  /** The loser as the handler reads it from the game's row, if it is known. */
  ghost function LoserAt(t: Tables, ev: Event): Option<Wallet> {
    if ev.body.Finished? && ev.body.winner.Some? && ev.gameId in t.games
      && LoserOf(t.games[ev.gameId], ev.body.winner.value) != NO_WALLET
    then Some(LoserOf(t.games[ev.gameId], ev.body.winner.value)) else None
  }

  /** For each result newly recorded, in order, the loser read from the row at that moment. */
  ghost function Losers(t: Tables, ds: seq<Attempted>): seq<Option<Wallet>>
    requires Planned(ds)
    decreases |ds|
  {
    if ds == [] then [] else
    var ev, s := ds[0].event, Deliver(t, ds[0].event, ds[0].plan).tables;
    (if ev.body.Finished? && NewlyRecorded(t, ev, s) then [LoserAt(t, ev)] else []) + Losers(s, ds[1..])
  }

  function Count(ws: seq<Option<Wallet>>, w: Wallet): nat {
    if ws == [] then 0 else (if ws[0] == Some(w) then 1 else 0) + Count(ws[1..], w)
  }

  /** A counter of a wallet, zero when it has no row yet. */
  ghost function WinsOf(t: Tables, w: Wallet): nat {
    if w in t.users then t.users[w].wins else 0
  }

  ghost function LossesOf(t: Tables, w: Wallet): nat {
    if w in t.users then t.users[w].losses else 0
  }

  ghost predicate ResultsGrow(t: Tables, s: Tables, w: Wallet, wins: nat, losses: nat) {
    WinsOf(s, w) == WinsOf(t, w) + wins && LossesOf(s, w) == LossesOf(t, w) + losses
  }

  /** Newly recorded results won by `w`, of those that were recorded while `w` had a row. */
  ghost function WinsWhileKnown(t: Tables, ds: seq<Attempted>, w: Wallet): nat
    requires Planned(ds)
    decreases |ds|
  {
    if ds == [] then 0 else
    var ev, s := ds[0].event, Deliver(t, ds[0].event, ds[0].plan).tables;
    (if NewlyRecorded(t, ev, s) && IsWinOf(ev, w) && w in t.users then 1 else 0) + WinsWhileKnown(s, ds[1..], w)
  }

  lemma SettleCountsOneResult(t: Tables, ev: Event, w: Wallet)
    requires ev.body.Finished? && ev.body.winner.Some? && ev.gameId in t.games
    ensures ResultsGrow(t, Settle(InsertEvent(t, ev), ev), w,
                        if ev.body.winner.value == w && w in t.users then 1 else 0,
                        if LoserAt(t, ev) == Some(w) && w in t.users then 1 else 0)
  {
  }

  lemma CreationKeepsResults(t: Tables, ev: Event, tagged: bool, budget: nat, w: Wallet)
    requires ev.body.Initialized?
    ensures ResultsGrow(t, TryInitialized(t, ev, tagged, budget).tables, w, 0, 0)
  {
    var s := TryInitialized(t, ev, tagged, budget).tables;
    assert s.users == t.users || s.users == EnsureUser(t, ev.body.playerOne.value).users;
  }

  lemma DrawKeepsResults(t: Tables, ev: Event, tagged: bool, budget: nat, w: Wallet)
    requires ev.body.Draw?
    ensures ResultsGrow(t, TryDraw(t, ev, tagged, budget).tables, w, 0, 0)
  {
    if ev.gameId in t.games {
      var closed := CompleteGame(InsertEvent(t, ev), ev.gameId, NO_WALLET, 0, StampOf(ev));
      var g := closed.games[ev.gameId];
      var once := BumpPlayed(closed, g.playerOne);
      assert ResultsGrow(t, closed, w, 0, 0);
      PlayingIsNoResult(closed, g.playerOne, w);
      PlayingIsNoResult(once, g.playerTwo.GetOr(NO_WALLET), w);
    }
  }

  lemma PlayingIsNoResult(t: Tables, player: Wallet, w: Wallet)
    ensures ResultsGrow(t, BumpPlayed(t, player), w, 0, 0)
  {
  }

  lemma JoinKeepsResults(t: Tables, ev: Event, tagged: bool, budget: nat, w: Wallet)
    requires ev.body.Started?
    ensures ResultsGrow(t, TryStarted(t, ev, tagged, budget).tables, w, 0, 0)
  {
  }

  /** No other handler touches a result, at whatever call it stops; a new user starts at zero. */
  lemma OthersKeepResults(t: Tables, ev: Event, tagged: bool, budget: nat, w: Wallet)
    requires !ev.body.Finished?
    ensures ResultsGrow(t, Try(t, ev, tagged, budget).tables, w, 0, 0)
  {
    match ev.body
    case Initialized(_, _, _, _) => CreationKeepsResults(t, ev, tagged, budget, w);
    case Draw => DrawKeepsResults(t, ev, tagged, budget, w);
    case Started(_) => JoinKeepsResults(t, ev, tagged, budget, w);
    case _ =>
  }

  lemma {:induction false} OtherDeliveriesKeepResults(t: Tables, ev: Event, tagged: bool, plan: Plan, w: Wallet)
    requires !ev.body.Finished?
    ensures ResultsGrow(t, Route(t, ev, tagged, plan).tables, w, 0, 0)
    decreases |plan|
  {
    OthersKeepResults(t, ev, tagged, plan[0], w);
    var a := Try(t, ev, tagged, plan[0]);
    if !a.ok && |plan| > 1 {
      OtherDeliveriesKeepResults(a.tables, ev, a.tagged, plan[1..], w);
    }
  }

  // ---------------------------------------------------------------- every player is a user

  ghost predicate RowPlayersAreUsers(g: Game, users: map<Wallet, Stats>) {
    g.playerOne in users && (g.playerTwo.Some? ==> g.playerTwo.value in users)
  }

  ghost predicate PlayersAreUsers(t: Tables) {
    forall id :: id in t.games ==> RowPlayersAreUsers(t.games[id], t.users)
  }

  /** The same games with the same players. */
  ghost predicate SamePlayers(t: Tables, s: Tables) {
    forall id :: id in s.games ==>
      id in t.games && s.games[id].playerOne == t.games[id].playerOne && s.games[id].playerTwo == t.games[id].playerTwo
  }

  lemma SamePlayersStayUsers(t: Tables, s: Tables)
    requires PlayersAreUsers(t) && SamePlayers(t, s) && Grows(t, s)
    ensures PlayersAreUsers(s)
  {
    forall id | id in s.games
      ensures RowPlayersAreUsers(s.games[id], s.users)
    {
      assert RowPlayersAreUsers(t.games[id], t.users);
    }
  }

  lemma InitializedKeepsPlayers(t: Tables, ev: Event, tagged: bool, budget: nat)
    requires PlayersAreUsers(t) && ev.body.Initialized?
    ensures PlayersAreUsers(TryInitialized(t, ev, tagged, budget).tables)
  {
    var s := TryInitialized(t, ev, tagged, budget).tables;
    Provenance.InitializedShape(t, ev, tagged, budget);
    forall id | id in s.games
      ensures RowPlayersAreUsers(s.games[id], s.users)
    {
      if id in t.games {
        assert RowPlayersAreUsers(t.games[id], t.users) && s.games[id] == t.games[id];
      }
    }
  }

  lemma StartedKeepsPlayers(t: Tables, ev: Event, tagged: bool, budget: nat)
    requires PlayersAreUsers(t) && ev.body.Started?
    ensures PlayersAreUsers(TryStarted(t, ev, tagged, budget).tables)
  {
  }

  lemma CompletedSamePlayers(t: Tables, s: Tables, id: int, winner: Wallet, payout: int, stamp: Stamp)
    requires s.games == t.games || s.games == CompleteGame(t, id, winner, payout, stamp).games
    ensures SamePlayers(t, s)
  {
  }

  lemma FinishedSamePlayers(t: Tables, ev: Event, tagged: bool, budget: nat, s: Tables)
    requires ev.body.Finished? && s == TryFinished(t, ev, tagged, budget).tables
    ensures SamePlayers(t, s)
  {
    if s != t {
      Provenance.SettleTouchesOneRow(InsertEvent(t, ev), ev);
      CompletedSamePlayers(t, s, ev.gameId, ev.body.winner.value, PayoutOf(ev), StampOf(ev));
    }
  }

  lemma DrawSamePlayers(t: Tables, ev: Event, tagged: bool, budget: nat, s: Tables)
    requires ev.body.Draw? && s == TryDraw(t, ev, tagged, budget).tables
    ensures SamePlayers(t, s)
  {
    Provenance.DrawShape(t, ev, tagged, budget);
    CompletedSamePlayers(t, s, ev.gameId, NO_WALLET, 0, StampOf(ev));
  }

  lemma OtherSamePlayers(t: Tables, ev: Event, tagged: bool, budget: nat)
    requires ev.body.Cancelled? || ev.body.SecretOpened? || ev.body.InsufficientBalance?
    ensures SamePlayers(t, Try(t, ev, tagged, budget).tables)
  {
  }

  lemma AttemptKeepsPlayers(t: Tables, ev: Event, tagged: bool, budget: nat, s: Tables)
    requires PlayersAreUsers(t) && s == Try(t, ev, tagged, budget).tables
    ensures PlayersAreUsers(s)
  {
    match ev.body
    case Initialized(_, _, _, _) => InitializedKeepsPlayers(t, ev, tagged, budget);
    case Started(_) => StartedKeepsPlayers(t, ev, tagged, budget);
    case Finished(_, _, _) => FinishedSamePlayers(t, ev, tagged, budget, s); SamePlayersStayUsers(t, s);
    case Draw => DrawSamePlayers(t, ev, tagged, budget, s); SamePlayersStayUsers(t, s);
    case _ => OtherSamePlayers(t, ev, tagged, budget); SamePlayersStayUsers(t, s);
  }

  lemma {:induction false} RouteKeepsPlayers(t: Tables, ev: Event, tagged: bool, plan: Plan)
    requires PlayersAreUsers(t)
    ensures PlayersAreUsers(Route(t, ev, tagged, plan).tables)
    decreases |plan|
  {
    var a := Try(t, ev, tagged, plan[0]);
    AttemptKeepsPlayers(t, ev, tagged, plan[0], a.tables);
    if !a.ok && |plan| > 1 {
      RouteKeepsPlayers(a.tables, ev, a.tagged, plan[1..]);
    }
  }

  /** Whatever is delivered, in whatever order and with whatever faults, every player on a game row is a user. */
  lemma {:induction false} DeliveriesKeepPlayers(t: Tables, ds: seq<Attempted>)
    requires PlayersAreUsers(t) && Planned(ds)
    ensures PlayersAreUsers(DeliverAll(t, ds))
    decreases |ds|
  {
    if ds != [] {
      RouteKeepsPlayers(t, ds[0].event, false, ds[0].plan);
      DeliveriesKeepPlayers(Deliver(t, ds[0].event, ds[0].plan).tables, ds[1..]);
    }
  }

  /** So whoever is read as a loser has a row to count the loss in. */
  lemma LoserIsUser(t: Tables, ev: Event, w: Wallet)
    requires PlayersAreUsers(t) && LoserAt(t, ev) == Some(w)
    ensures w in t.users
  {
    assert RowPlayersAreUsers(t.games[ev.gameId], t.users);
  }

  /** A delivery of any kind adds a result exactly when it newly records one. */
  lemma DeliveryResults(t: Tables, ev: Event, plan: Plan, s: Tables, w: Wallet)
    requires PlayersAreUsers(t) && s == Deliver(t, ev, plan).tables
    ensures ResultsGrow(t, s, w,
                        if NewlyRecorded(t, ev, s) && IsWinOf(ev, w) && w in t.users then 1 else 0,
                        if NewlyRecorded(t, ev, s) && ev.body.Finished? && LoserAt(t, ev) == Some(w) then 1 else 0)
  {
    if ev.body.Finished? {
      FinishedAllOrNothing(t, ev, plan);
      if NewlyRecorded(t, ev, s) {
        SettleCountsOneResult(t, ev, w);
        if LoserAt(t, ev) == Some(w) {
          LoserIsUser(t, ev, w);
        }
      }
    } else {
      OtherDeliveriesKeepResults(t, ev, false, plan, w);
    }
  }

  lemma ListsCons(ev: Event, r: seq<Event>, loser: Option<Wallet>, ls: seq<Option<Wallet>>, w: Wallet)
    ensures WinsIn([ev] + r, w) == (if IsWinOf(ev, w) then 1 else 0) + WinsIn(r, w)
    ensures FinishedIn([ev] + r) == (if ev.body.Finished? then 1 else 0) + FinishedIn(r)
    ensures Count([loser] + ls, w) == (if loser == Some(w) then 1 else 0) + Count(ls, w)
  {
    assert ([ev] + r)[1..] == r && ([loser] + ls)[1..] == ls;
  }

  lemma LosersHead(t: Tables, ds: seq<Attempted>, s: Tables, ls: seq<Option<Wallet>>)
    requires Planned(ds) && ds != []
    requires s == Deliver(t, ds[0].event, ds[0].plan).tables && ls == Losers(s, ds[1..])
    ensures Losers(t, ds) ==
      if ds[0].event.body.Finished? && NewlyRecorded(t, ds[0].event, s) then [LoserAt(t, ds[0].event)] + ls else ls
  {
    assert [] + ls == ls;
  }

  /**
   * Exactly once, for every wallet and for deliveries of all seven kinds under any
   * mix of rollbacks, retries with stale ids, crashes and redeliveries: losses grow
   * by one for each newly recorded result whose row names the wallet as the loser,
   * wins by one for each that it won while it had a row, and by nothing else.
   */
  lemma {:induction false} ResultsAreAFold(t: Tables, ds: seq<Attempted>, w: Wallet)
    requires Planned(ds) && PlayersAreUsers(t)
    ensures ResultsGrow(t, DeliverAll(t, ds), w, WinsWhileKnown(t, ds, w), Count(Losers(t, ds), w))
    decreases |ds|
  {
    if ds != [] {
      var ev, s := ds[0].event, Deliver(t, ds[0].event, ds[0].plan).tables;
      var ls := Losers(s, ds[1..]);
      DeliveryResults(t, ev, ds[0].plan, s, w);
      RouteKeepsPlayers(t, ev, false, ds[0].plan);
      ResultsAreAFold(s, ds[1..], w);
      LosersHead(t, ds, s, ls);
      ListsCons(ev, [], LoserAt(t, ev), ls, w);
    }
  }

  /** In particular from empty tables: the counters of every wallet are the folds themselves. */
  lemma ResultsFromTheBeginning(ds: seq<Attempted>, w: Wallet)
    requires Planned(ds)
    ensures WinsOf(DeliverAll(EMPTY, ds), w) == WinsWhileKnown(EMPTY, ds, w)
    ensures LossesOf(DeliverAll(EMPTY, ds), w) == Count(Losers(EMPTY, ds), w)
  {
    ResultsAreAFold(EMPTY, ds, w);
  }

  /** For a wallet with a row the wins counted are all the results it won. */
  lemma {:induction false} KnownWinsAreAllWins(t: Tables, ds: seq<Attempted>, w: Wallet)
    requires Planned(ds) && w in t.users
    ensures WinsWhileKnown(t, ds, w) == WinsIn(Recorded(t, ds), w)
    decreases |ds|
  {
    if ds != [] {
      var ev, s := ds[0].event, Deliver(t, ds[0].event, ds[0].plan).tables;
      var r := Recorded(s, ds[1..]);
      KnownWinsAreAllWins(s, ds[1..], w);
      RecordedHead(t, ds, s, r);
      ListsCons(ev, r, None, [], w);
    }
  }

  /** One loser is read for each new row of a result, no more and no fewer. */
  lemma {:induction false} OneLoserPerResult(t: Tables, ds: seq<Attempted>)
    requires Planned(ds)
    ensures |Losers(t, ds)| == FinishedIn(Recorded(t, ds))
    decreases |ds|
  {
    if ds != [] {
      var ev, s := ds[0].event, Deliver(t, ds[0].event, ds[0].plan).tables;
      var r, ls := Recorded(s, ds[1..]), Losers(s, ds[1..]);
      OneLoserPerResult(s, ds[1..]);
      RecordedHead(t, ds, s, r);
      LosersHead(t, ds, s, ls);
      ListsCons(ev, r, LoserAt(t, ev), ls, NO_WALLET);
    }
  }

  // ---------------------------------------------------------------- results only: the whole tables

  ghost predicate OnlyResults(ds: seq<Attempted>) {
    forall i :: 0 <= i < |ds| ==> ds[i].event.body.Finished?
  }

  /** Complete the game and count its players, once for each event in the list. */
  ghost function SettleAll(t: Tables, evs: seq<Event>): Tables
    decreases |evs|
  {
    if evs == [] then t else
    if evs[0].body.Finished? && evs[0].body.winner.Some? && evs[0].gameId in t.games
    then SettleAll(Settle(InsertEvent(t, evs[0]), evs[0]), evs[1..])
    else SettleAll(t, evs[1..])
  }

  lemma SettleAllHead(t: Tables, ev: Event, r: seq<Event>)
    requires ev.body.Finished? && ev.body.winner.Some? && ev.gameId in t.games
    ensures SettleAll(t, [ev] + r) == SettleAll(Settle(InsertEvent(t, ev), ev), r)
  {
    assert ([ev] + r)[1..] == r;
  }

  /**
   * When only results are delivered even the whole tables are known: those of
   * settling each newly recorded event once, in order.
   */
  lemma {:induction false} FinishedExactlyOnce(t: Tables, ds: seq<Attempted>)
    requires Planned(ds) && OnlyResults(ds)
    ensures DeliverAll(t, ds) == SettleAll(t, Recorded(t, ds))
    decreases |ds|
  {
    if ds != [] {
      var ev, s := ds[0].event, Deliver(t, ds[0].event, ds[0].plan).tables;
      var r := Recorded(s, ds[1..]);
      FinishedExactlyOnce(s, ds[1..]);
      RecordedHead(t, ds, s, r);
      FinishedAllOrNothing(t, ev, ds[0].plan);
      if NewlyRecorded(t, ev, s) {
        SettleAllHead(t, ev, r);
      }
    }
  }
}
