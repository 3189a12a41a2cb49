/**
 * Histories in the order the game contract emits them, and what the tables
 * say after every such history: counters agree with the statistics query,
 * nothing is lost or counted twice in total, and a game only moves forward.
 */
module Ledger {
  import opened Prelude
  import opened Tables
  import opened Handlers

  // ---------------------------------------------------------------- the contract's own view of a game

  datatype Phase =
    | Waiting(one: Wallet)
    | Playing(one: Wallet, two: Wallet)
    | Closed
  {
    predicate Has(w: Wallet) {
      match this
      case Waiting(one) => w == one
      case Playing(one, two) => w == one || w == two
      case Closed => false
    }
  }

  type Phases = map<int, Phase>

  /** The next phases if the contract can emit `ev` now. */
  function Advance(ph: Phases, ev: Event): Option<Phases> {
    var id := ev.gameId;
    match ev.body
    case Initialized(one, _, _, _) =>
      if id !in ph && InitializedAccepted(ev) then Some(ph[id := Waiting(one.value)]) else None
    case Started(two) =>
      if id in ph && ph[id].Waiting? && two.Some? && two.value != NO_WALLET && two.value != ph[id].one
      then Some(ph[id := Playing(ph[id].one, two.value)]) else None
    case Finished(winner, _, _) =>
      if id in ph && winner.Some? && ph[id].Has(winner.value) then Some(ph[id := Closed]) else None
    case Cancelled => if id in ph && !ph[id].Closed? then Some(ph[id := Closed]) else None
    case Draw => if id in ph && !ph[id].Closed? then Some(ph[id := Closed]) else None
    case SecretOpened(player, side) =>
      if id in ph && ph[id].Playing? && player.Some? && ph[id].Has(player.value) && side in {Some(2), Some(3)}
      then Some(ph) else None
    case InsufficientBalance => if id in ph then Some(ph) else None
  }

  function AdvanceAll(ph: Phases, evs: seq<Event>): Option<Phases> {
    if evs == [] then Some(ph) else
    var before := AdvanceAll(ph, evs[..|evs| - 1]);
    if before.None? then None else Advance(before.value, evs[|evs| - 1])
  }

  /** A history the contract can emit from phases `ph`, every notification in a transaction of its own. */
  ghost predicate ContractOrdered(ph: Phases, t: Tables, evs: seq<Event>) {
    && AdvanceAll(ph, evs).Some?
    && (forall i :: 0 <= i < |evs| ==> evs[i].Key() !in t.events)
    && (forall i, j :: 0 <= i < j < |evs| ==> evs[i].Key() != evs[j].Key())
  }

  /** The crash-free run: one fault-free delivery of each event, in order. */
  function Base(t: Tables, evs: seq<Event>): Tables {
    if evs == [] then t else Apply(Base(t, evs[..|evs| - 1]), evs[|evs| - 1]).tables
  }

  // ---------------------------------------------------------------- the tables mirror the phases

  ghost predicate Matches(p: Phase, g: Game) {
    match p
    case Waiting(one) =>
      g.status == STATUS_WAITING && g.playerOne == one && g.playerTwo.None? && g.winner.None? && g.payout.None?
    case Playing(one, two) =>
      g.status == STATUS_OPEN_BIDS && g.playerOne == one && g.playerTwo == Some(two) && g.winner.None? && g.payout.None?
    case Closed => g.status == STATUS_PAID && (g.winner.None? ==> g.payout.None?)
  }

  ghost predicate Mirrors(ph: Phases, t: Tables) {
    && ph.Keys == t.games.Keys
    && forall id :: id in ph ==> Matches(ph[id], t.games[id])
  }

  ghost predicate PlayersIn(g: Game, users: map<Wallet, Stats>) {
    && g.playerOne in users && g.playerOne != NO_WALLET
    && (g.playerTwo.Some? ==>
          g.playerTwo.value in users && g.playerTwo.value != NO_WALLET && g.playerTwo.value != g.playerOne)
  }

  ghost predicate PlayersKnown(t: Tables) {
    forall id :: id in t.games ==> PlayersIn(t.games[id], t.users)
  }

  ghost predicate RowsSettled(t: Tables) {
    forall k :: k in t.events ==>
      && k.gameId in t.games
      && (k.kind == FinishedKind || k.kind == DrawKind ==> t.games[k.gameId].status == STATUS_PAID)
  }

  // ---------------------------------------------------------------- counters

  ghost function Drawn(t: Tables, w: Wallet): set<EventKey> {
    set k | k in t.events && k.kind == DrawKind && k.gameId in t.games && t.games[k.gameId].HasPlayer(w)
  }

  ghost predicate Balanced(t: Tables, w: Wallet)
    requires w in t.users
  {
    && t.users[w].wins == |WonGames(t, w)|
    && t.users[w].losses == |LostGames(t, w)|
    && t.users[w].played == |WonGames(t, w)| + |LostGames(t, w)| + |Drawn(t, w)|
  }

  ghost predicate AllBalanced(t: Tables) {
    forall w :: w in t.users ==> Balanced(t, w)
  }

  datatype Column = Wins | Losses

  function Read(s: Stats, c: Column): nat {
    if c.Wins? then s.wins else s.losses
  }

  ghost function Total(ws: set<Wallet>, users: map<Wallet, Stats>, c: Column): nat
    requires ws <= users.Keys
  {
    if ws == {} then 0 else
    var w :| w in ws;
    Read(users[w], c) + Total(ws - {w}, users, c)
  }

  ghost function FinishedRows(t: Tables): set<EventKey> {
    set k | k in t.events && k.kind == FinishedKind
  }

  ghost function RowsWithLoser(t: Tables): set<EventKey> {
    set k | k in t.events && k.kind == FinishedKind && k.gameId in t.games && t.games[k.gameId].playerTwo.Some?
  }

  ghost predicate Conserved(t: Tables) {
    && Total(t.users.Keys, t.users, Wins) == |FinishedRows(t)|
    && Total(t.users.Keys, t.users, Losses) == |RowsWithLoser(t)|
  }

  ghost predicate Inv(ph: Phases, t: Tables) {
    Mirrors(ph, t) && PlayersKnown(t) && RowsSettled(t) && AllBalanced(t) && Conserved(t)
  }

  // ---------------------------------------------------------------- sums over users

  lemma {:induction false} TotalTakeOut(ws: set<Wallet>, users: map<Wallet, Stats>, c: Column, w: Wallet)
    requires ws <= users.Keys && w in ws
    ensures Total(ws, users, c) == Read(users[w], c) + Total(ws - {w}, users, c)
    decreases ws
  {
    var x :| x in ws && Total(ws, users, c) == Read(users[x], c) + Total(ws - {x}, users, c);
    if x != w {
      TotalTakeOut(ws - {x}, users, c, w);
      TotalTakeOut(ws - {w}, users, c, x);
      assert ws - {x} - {w} == ws - {w} - {x};
    }
  }

  /** Raising column `c` of the wallets in `up` by one each raises the total by their number. */
  lemma {:induction false} TotalRaised(ws: set<Wallet>, a: map<Wallet, Stats>, b: map<Wallet, Stats>, c: Column, up: set<Wallet>)
    requires ws <= a.Keys && ws <= b.Keys && up <= ws
    requires forall w :: w in ws ==> Read(b[w], c) == Read(a[w], c) + if w in up then 1 else 0
    ensures Total(ws, b, c) == Total(ws, a, c) + |up|
    decreases ws
  {
    if ws != {} {
      var w :| w in ws;
      TotalTakeOut(ws, a, c, w);
      TotalTakeOut(ws, b, c, w);
      TotalRaised(ws - {w}, a, b, c, up - {w});
      assert |up - {w}| == |up| - if w in up then 1 else 0;
    } else {
      assert up == {};
    }
  }

  lemma EnsureUserTotal(t: Tables, w: Wallet, c: Column)
    ensures Total(EnsureUser(t, w).users.Keys, EnsureUser(t, w).users, c) == Total(t.users.Keys, t.users, c)
  {
    var s := EnsureUser(t, w);
    if w !in t.users {
      TotalTakeOut(s.users.Keys, s.users, c, w);
      assert s.users.Keys - {w} == t.users.Keys;
      TotalRaised(t.users.Keys, t.users, s.users, c, {});
    }
  }

  // ---------------------------------------------------------------- quiet steps

  /** Same results, same winners, same finished and drawn rows: a step that no counter depends on. */
  ghost predicate Quiet(t: Tables, s: Tables) {
    && (forall k :: k in t.events ==> k in s.events)
    && (forall k :: k in s.events && k !in t.events ==> k.kind != FinishedKind && k.kind != DrawKind)
    && (forall id :: id in t.games ==>
      && id in s.games
      && (|| s.games[id] == t.games[id]
          || (t.games[id].status != STATUS_PAID && t.games[id].winner.None? && s.games[id].winner.None?)))
    && (forall id :: id in s.games && id !in t.games ==> s.games[id].winner.None?)
  }

  lemma QuietSets(t: Tables, s: Tables, w: Wallet)
    requires Quiet(t, s) && RowsSettled(t)
    ensures WonGames(s, w) == WonGames(t, w) && LostGames(s, w) == LostGames(t, w)
    ensures Drawn(s, w) == Drawn(t, w)
  {
    assert forall id :: id in WonGames(s, w) <==> id in WonGames(t, w);
    assert forall id :: id in LostGames(s, w) <==> id in LostGames(t, w);
  }

  lemma QuietRows(t: Tables, s: Tables)
    requires Quiet(t, s) && RowsSettled(t)
    ensures FinishedRows(s) == FinishedRows(t) && RowsWithLoser(s) == RowsWithLoser(t)
  {
  }

  lemma NewcomerHasNoHistory(t: Tables, w: Wallet)
    requires PlayersKnown(t) && w !in t.users
    ensures WonGames(t, w) == {} && LostGames(t, w) == {} && Drawn(t, w) == {}
  {
    assert forall id :: id !in WonGames(t, w) && id !in LostGames(t, w);
  }

  lemma QuietKeepsBalance(t: Tables, s: Tables, newcomer: Wallet, w: Wallet)
    requires Quiet(t, s) && RowsSettled(t) && PlayersKnown(t) && AllBalanced(t) && w in s.users
    requires s.users == t.users || s.users == EnsureUser(t, newcomer).users
    ensures Balanced(s, w)
  {
    QuietSets(t, s, w);
    if w !in t.users {
      NewcomerHasNoHistory(t, w);
    }
  }

  lemma QuietConserves(t: Tables, s: Tables, newcomer: Wallet)
    requires Quiet(t, s) && RowsSettled(t) && PlayersKnown(t) && Conserved(t)
    requires s.users == t.users || s.users == EnsureUser(t, newcomer).users
    ensures Conserved(s)
  {
    QuietRows(t, s);
    EnsureUserTotal(t, newcomer, Wins);
    EnsureUserTotal(t, newcomer, Losses);
  }

  lemma QuietKeepsCounters(t: Tables, s: Tables, newcomer: Wallet)
    requires Quiet(t, s) && RowsSettled(t) && PlayersKnown(t) && AllBalanced(t) && Conserved(t)
    requires s.users == t.users || s.users == EnsureUser(t, newcomer).users
    ensures AllBalanced(s) && Conserved(s)
  {
    forall w | w in s.users
      ensures Balanced(s, w)
    {
      QuietKeepsBalance(t, s, newcomer, w);
    }
    QuietConserves(t, s, newcomer);
  }

  // ---------------------------------------------------------------- finished games

  function Credited(s: Stats): Stats {
    Stats(s.played + 1, s.wins + 1, s.losses)
  }

  function Debited(s: Stats): Stats {
    Stats(s.played + 1, s.wins, s.losses + 1)
  }

  ghost predicate Finishable(t: Tables, ev: Event) {
    && ev.body.Finished? && ev.body.winner.Some? && ev.Key() !in t.events && ev.gameId in t.games
    && t.games[ev.gameId].HasPlayer(ev.body.winner.value)
    && t.games[ev.gameId].winner.None? && t.games[ev.gameId].status != STATUS_PAID
  }

  /** The GameFinished transaction seen from outside. */
  ghost predicate SettledInto(t: Tables, ev: Event, s: Tables)
    requires PlayersKnown(t) && Finishable(t, ev)
  {
    var g, winner := t.games[ev.gameId], ev.body.winner.value;
    var loser := LoserOf(g, winner);
    && s.games == t.games[ev.gameId := g.(
         status := STATUS_PAID, winner := Some(winner), completed := Some(StampOf(ev)),
         payout := if PayoutOf(ev) > 0 then Some(PayoutOf(ev)) else None)]
    && s.events == t.events[ev.Key() := ev]
    && s.users == if loser == NO_WALLET then t.users[winner := Credited(t.users[winner])]
                  else t.users[winner := Credited(t.users[winner])][loser := Debited(t.users[loser])]
  }

  lemma SettleShape(t: Tables, ev: Event)
    requires PlayersKnown(t) && Finishable(t, ev)
    ensures Apply(t, ev).ok && SettledInto(t, ev, Apply(t, ev).tables)
  {
    var winner := ev.body.winner.value;
    var loser := LoserOf(t.games[ev.gameId], winner);
    var t0 := InsertEvent(t, ev);
    var t1 := CompleteGame(t0, ev.gameId, winner, PayoutOf(ev), StampOf(ev));
    var t2 := BumpWins(BumpPlayed(t1, winner), winner);
    assert t2.users == t.users[winner := Credited(t.users[winner])];
    if loser != NO_WALLET {
      var t3 := BumpLosses(BumpPlayed(t2, loser), loser);
      assert t3.users == t2.users[loser := Debited(t.users[loser])];
    }
    assert Apply(t, ev) == TryFinished(t, ev, false, FAULT_FREE);
  }

  lemma FinishedGames(t: Tables, ev: Event, s: Tables, w: Wallet)
    requires PlayersKnown(t) && Finishable(t, ev) && SettledInto(t, ev, s)
    ensures
      var id, winner := ev.gameId, ev.body.winner.value;
      var loser := LoserOf(t.games[id], winner);
      && id !in WonGames(t, w) && id !in LostGames(t, w)
      && WonGames(s, w) == (if w == winner then WonGames(t, w) + {id} else WonGames(t, w))
      && LostGames(s, w) == if w == loser && loser != NO_WALLET then LostGames(t, w) + {id} else LostGames(t, w)
  {
    var id, winner := ev.gameId, ev.body.winner.value;
    var loser := LoserOf(t.games[id], winner);
    var won := if w == winner then WonGames(t, w) + {id} else WonGames(t, w);
    var lost := if w == loser && loser != NO_WALLET then LostGames(t, w) + {id} else LostGames(t, w);
    assert forall x :: x in WonGames(s, w) <==> x in won;
    assert forall x :: x in LostGames(s, w) <==> x in lost;
  }

  lemma FinishedDrawn(t: Tables, ev: Event, s: Tables, w: Wallet)
    requires PlayersKnown(t) && RowsSettled(t) && Finishable(t, ev) && SettledInto(t, ev, s)
    ensures Drawn(s, w) == Drawn(t, w)
  {
    assert forall k :: k in Drawn(s, w) <==> k in Drawn(t, w);
  }

  lemma FinishedKeepsBalance(t: Tables, ev: Event, s: Tables, w: Wallet)
    requires PlayersKnown(t) && RowsSettled(t) && w in t.users && Balanced(t, w)
    requires Finishable(t, ev) && SettledInto(t, ev, s)
    ensures w in s.users && Balanced(s, w)
  {
    FinishedGames(t, ev, s, w);
    FinishedDrawn(t, ev, s, w);
  }

  lemma FinishedRowSets(t: Tables, ev: Event, s: Tables)
    requires PlayersKnown(t) && RowsSettled(t) && Finishable(t, ev) && SettledInto(t, ev, s)
    ensures ev.Key() !in FinishedRows(t) && FinishedRows(s) == FinishedRows(t) + {ev.Key()}
    ensures RowsWithLoser(s) ==
      if t.games[ev.gameId].playerTwo.None? then RowsWithLoser(t) else RowsWithLoser(t) + {ev.Key()}
  {
  }

  lemma FinishedTotals(t: Tables, ev: Event, s: Tables)
    requires PlayersKnown(t) && Finishable(t, ev) && SettledInto(t, ev, s)
    ensures Total(s.users.Keys, s.users, Wins) == Total(t.users.Keys, t.users, Wins) + 1
    ensures Total(s.users.Keys, s.users, Losses) ==
      Total(t.users.Keys, t.users, Losses) + if t.games[ev.gameId].playerTwo.None? then 0 else 1
  {
    var winner := ev.body.winner.value;
    var loser := LoserOf(t.games[ev.gameId], winner);
    assert s.users.Keys == t.users.Keys;
    TotalRaised(t.users.Keys, t.users, s.users, Wins, {winner});
    TotalRaised(t.users.Keys, t.users, s.users, Losses, if loser == NO_WALLET then {} else {loser});
  }

  lemma FinishedConserves(t: Tables, ev: Event, s: Tables)
    requires PlayersKnown(t) && RowsSettled(t) && Conserved(t)
    requires Finishable(t, ev) && SettledInto(t, ev, s)
    ensures Conserved(s)
  {
    FinishedRowSets(t, ev, s);
    FinishedTotals(t, ev, s);
  }

  // ---------------------------------------------------------------- draws

  ghost predicate Drawable(t: Tables, ev: Event) {
    && ev.body.Draw? && ev.Key() !in t.events && ev.gameId in t.games
    && t.games[ev.gameId].winner.None? && t.games[ev.gameId].status != STATUS_PAID
  }

  function Counted(s: Stats): Stats {
    s.(played := s.played + 1)
  }

  /** A fault-free draw seen from outside. */
  ghost predicate DrawnInto(t: Tables, ev: Event, s: Tables)
    requires PlayersKnown(t) && Drawable(t, ev)
  {
    var g := t.games[ev.gameId];
    var one := t.users[g.playerOne := Counted(t.users[g.playerOne])];
    && s.games == t.games[ev.gameId := g.(
         status := STATUS_PAID, winner := None, payout := None, completed := Some(StampOf(ev)))]
    && s.events == t.events[ev.Key() := ev]
    && s.users == if g.playerTwo.None? then one
                  else one[g.playerTwo.value := Counted(t.users[g.playerTwo.value])]
  }

  lemma DrawShape(t: Tables, ev: Event)
    requires PlayersKnown(t) && Drawable(t, ev)
    ensures Apply(t, ev).ok && DrawnInto(t, ev, Apply(t, ev).tables)
  {
    assert Apply(t, ev) == TryDraw(t, ev, false, FAULT_FREE);
  }

  lemma DrawGames(t: Tables, ev: Event, s: Tables, w: Wallet)
    requires PlayersKnown(t) && Drawable(t, ev) && DrawnInto(t, ev, s)
    ensures WonGames(s, w) == WonGames(t, w) && LostGames(s, w) == LostGames(t, w)
  {
    assert forall x :: x in WonGames(s, w) <==> x in WonGames(t, w);
    assert forall x :: x in LostGames(s, w) <==> x in LostGames(t, w);
  }

  lemma DrawDrawn(t: Tables, ev: Event, s: Tables, w: Wallet)
    requires PlayersKnown(t) && RowsSettled(t) && Drawable(t, ev) && DrawnInto(t, ev, s)
    ensures ev.Key() !in Drawn(t, w)
    ensures Drawn(s, w) == if t.games[ev.gameId].HasPlayer(w) then Drawn(t, w) + {ev.Key()} else Drawn(t, w)
  {
    var key := ev.Key();
    if t.games[ev.gameId].HasPlayer(w) {
      assert forall k :: k in Drawn(s, w) <==> k in Drawn(t, w) || k == key;
    } else {
      assert forall k :: k in Drawn(s, w) <==> k in Drawn(t, w);
    }
  }

  lemma DrawKeepsBalance(t: Tables, ev: Event, s: Tables, w: Wallet)
    requires PlayersKnown(t) && RowsSettled(t) && w in t.users && Balanced(t, w)
    requires Drawable(t, ev) && DrawnInto(t, ev, s)
    ensures w in s.users && Balanced(s, w)
  {
    DrawGames(t, ev, s, w);
    DrawDrawn(t, ev, s, w);
  }

  lemma DrawConserves(t: Tables, ev: Event, s: Tables)
    requires PlayersKnown(t) && RowsSettled(t) && Conserved(t)
    requires Drawable(t, ev) && DrawnInto(t, ev, s)
    ensures Conserved(s)
  {
    assert s.users.Keys == t.users.Keys;
    TotalRaised(t.users.Keys, t.users, s.users, Wins, {});
    TotalRaised(t.users.Keys, t.users, s.users, Losses, {});
    DrawRowSets(t, ev, s);
  }

  lemma DrawRowSets(t: Tables, ev: Event, s: Tables)
    requires PlayersKnown(t) && RowsSettled(t) && Drawable(t, ev) && DrawnInto(t, ev, s)
    ensures FinishedRows(s) == FinishedRows(t) && RowsWithLoser(s) == RowsWithLoser(t)
  {
    assert forall k :: k in FinishedRows(s) <==> k in FinishedRows(t);
    assert forall k :: k in RowsWithLoser(s) <==> k in RowsWithLoser(t);
  }

  // ---------------------------------------------------------------- a game only moves forward

  predicate Shown(choice: int) {
    choice == 2 || choice == 3
  }

  /** Status never falls, a paid row is final, what the game began with is kept, and a revealed choice stays revealed. */
  ghost predicate Forward(g: Game, h: Game) {
    && g.status <= h.status
    && h.playerOne == g.playerOne && h.bet == g.bet && h.terms == g.terms && h.initTx == g.initTx
    && (g.playerTwo.Some? ==> h.playerTwo == g.playerTwo)
    && (g.status == STATUS_PAID ==> h == g)
    && (Shown(g.choiceOne) && g.status >= STATUS_OPEN_BIDS ==> Shown(h.choiceOne))
    && (g.choiceTwo.Some? && Shown(g.choiceTwo.value) && g.status >= STATUS_OPEN_BIDS ==>
          h.choiceTwo.Some? && Shown(h.choiceTwo.value))
  }

  ghost predicate Evolves(t: Tables, s: Tables) {
    forall id :: id in t.games ==> id in s.games && Forward(t.games[id], s.games[id])
  }

  // ---------------------------------------------------------------- one step of a contract-ordered history

  ghost predicate Legal(ph: Phases, t: Tables, ev: Event) {
    Mirrors(ph, t) && PlayersKnown(t) && RowsSettled(t) && ev.Key() !in t.events && Advance(ph, ev).Some?
  }

  /** Everything but the counters. */
  ghost predicate Structured(ph: Phases, t: Tables, s: Tables) {
    Mirrors(ph, s) && PlayersKnown(s) && RowsSettled(s) && Evolves(t, s)
  }

  /** A step that records `ev` and writes the single game row `row`. */
  ghost predicate Wrote(t: Tables, ev: Event, row: Game, s: Tables) {
    && s.games == t.games[ev.gameId := row]
    && s.events == t.events[ev.Key() := ev]
    && forall w :: w in t.users ==> w in s.users
  }

  lemma OneRowMirrors(ph: Phases, t: Tables, ev: Event, row: Game, s: Tables)
    requires Legal(ph, t, ev) && Wrote(t, ev, row, s)
    requires ev.gameId in Advance(ph, ev).value && Matches(Advance(ph, ev).value[ev.gameId], row)
    ensures Mirrors(Advance(ph, ev).value, s)
  {
  }

  lemma OneRowSettles(t: Tables, ev: Event, row: Game, s: Tables)
    requires PlayersKnown(t) && RowsSettled(t) && Wrote(t, ev, row, s) && PlayersIn(row, s.users)
    requires ev.gameId in t.games ==> Forward(t.games[ev.gameId], row)
    requires ev.body.Finished? || ev.body.Draw? ==> row.status == STATUS_PAID
    ensures PlayersKnown(s) && RowsSettled(s) && Evolves(t, s)
  {
  }

  lemma OneRow(ph: Phases, t: Tables, ev: Event, row: Game, s: Tables)
    requires Legal(ph, t, ev) && Wrote(t, ev, row, s) && PlayersIn(row, s.users)
    requires ev.gameId in Advance(ph, ev).value && Matches(Advance(ph, ev).value[ev.gameId], row)
    requires ev.gameId in t.games ==> Forward(t.games[ev.gameId], row)
    requires ev.body.Finished? || ev.body.Draw? ==> row.status == STATUS_PAID
    ensures Structured(Advance(ph, ev).value, t, s)
  {
    OneRowMirrors(ph, t, ev, row, s);
    OneRowSettles(t, ev, row, s);
  }

  lemma QuietRow(t: Tables, ev: Event, row: Game, s: Tables)
    requires Wrote(t, ev, row, s) && row.winner.None? && !ev.body.Finished? && !ev.body.Draw?
    requires ev.gameId in t.games ==> t.games[ev.gameId].status != STATUS_PAID && t.games[ev.gameId].winner.None?
    ensures Quiet(t, s)
  {
  }

  lemma StepInitialized(ph: Phases, t: Tables, ev: Event)
    requires Legal(ph, t, ev) && ev.body.Initialized?
    ensures
      var a := TryInitialized(t, ev, false, FAULT_FREE);
      && a.ok && Structured(Advance(ph, ev).value, t, a.tables) && Quiet(t, a.tables)
      && a.tables.users == EnsureUser(t, ev.body.playerOne.value).users
  {
    var s := TryInitialized(t, ev, false, FAULT_FREE).tables;
    OneRow(ph, t, ev, RowOf(ev), s);
    QuietRow(t, ev, RowOf(ev), s);
  }

  lemma StepStarted(ph: Phases, t: Tables, ev: Event)
    requires Legal(ph, t, ev) && ev.body.Started?
    ensures
      var a := TryStarted(t, ev, false, FAULT_FREE);
      && a.ok && Structured(Advance(ph, ev).value, t, a.tables) && Quiet(t, a.tables)
      && a.tables.users == EnsureUser(t, ev.body.playerTwo.value).users
  {
    var s := TryStarted(t, ev, false, FAULT_FREE).tables;
    assert Matches(ph[ev.gameId], t.games[ev.gameId]);
    assert PlayersIn(t.games[ev.gameId], t.users);
    var row := s.games[ev.gameId];
    OneRow(ph, t, ev, row, s);
    QuietRow(t, ev, row, s);
  }

  lemma StepCancelled(ph: Phases, t: Tables, ev: Event)
    requires Legal(ph, t, ev) && ev.body.Cancelled?
    ensures
      var a := TryCancelled(t, ev, false, FAULT_FREE);
      && a.ok && Structured(Advance(ph, ev).value, t, a.tables) && Quiet(t, a.tables)
      && a.tables.users == t.users
  {
    var s := TryCancelled(t, ev, false, FAULT_FREE).tables;
    assert Matches(ph[ev.gameId], t.games[ev.gameId]);
    assert PlayersIn(t.games[ev.gameId], t.users);
    var row := s.games[ev.gameId];
    OneRow(ph, t, ev, row, s);
    QuietRow(t, ev, row, s);
  }

  lemma StepSecretOpened(ph: Phases, t: Tables, ev: Event)
    requires Legal(ph, t, ev) && ev.body.SecretOpened?
    ensures
      var a := TrySecretOpened(t, ev, false, FAULT_FREE);
      && a.ok && Structured(Advance(ph, ev).value, t, a.tables) && Quiet(t, a.tables)
      && a.tables.users == t.users
  {
    var s := TrySecretOpened(t, ev, false, FAULT_FREE).tables;
    assert Matches(ph[ev.gameId], t.games[ev.gameId]);
    assert PlayersIn(t.games[ev.gameId], t.users);
    var row := s.games[ev.gameId];
    OneRow(ph, t, ev, row, s);
    QuietRow(t, ev, row, s);
  }

  lemma StepInsufficientBalance(ph: Phases, t: Tables, ev: Event)
    requires Legal(ph, t, ev) && ev.body.InsufficientBalance?
    ensures
      var a := TryInsufficientBalance(t, ev, false, FAULT_FREE);
      && a.ok && Structured(Advance(ph, ev).value, t, a.tables) && Quiet(t, a.tables)
      && a.tables.users == t.users
  {
  }

  lemma StepFinished(ph: Phases, t: Tables, ev: Event, s: Tables)
    requires Legal(ph, t, ev) && Finishable(t, ev) && SettledInto(t, ev, s)
    ensures Structured(Advance(ph, ev).value, t, s)
  {
    assert Matches(ph[ev.gameId], t.games[ev.gameId]);
    assert PlayersIn(t.games[ev.gameId], t.users);
    OneRow(ph, t, ev, s.games[ev.gameId], s);
  }

  lemma StepDraw(ph: Phases, t: Tables, ev: Event, s: Tables)
    requires Legal(ph, t, ev) && Drawable(t, ev) && DrawnInto(t, ev, s)
    ensures Structured(Advance(ph, ev).value, t, s)
  {
    assert Matches(ph[ev.gameId], t.games[ev.gameId]);
    assert PlayersIn(t.games[ev.gameId], t.users);
    OneRow(ph, t, ev, s.games[ev.gameId], s);
  }

  /** Each notification the contract can emit is accepted and keeps the whole invariant. */
  lemma InvStep(ph: Phases, t: Tables, ev: Event)
    requires Inv(ph, t) && ev.Key() !in t.events && Advance(ph, ev).Some?
    ensures Apply(t, ev).ok && Inv(Advance(ph, ev).value, Apply(t, ev).tables) && Evolves(t, Apply(t, ev).tables)
  {
    var s := Apply(t, ev).tables;
    assert Apply(t, ev) == Try(t, ev, false, FAULT_FREE);
    match ev.body
    case Initialized(one, _, _, _) => StepInitialized(ph, t, ev); QuietKeepsCounters(t, s, one.value);
    case Started(two) => StepStarted(ph, t, ev); QuietKeepsCounters(t, s, two.value);
    case Cancelled => StepCancelled(ph, t, ev); QuietKeepsCounters(t, s, NO_WALLET);
    case SecretOpened(_, _) => StepSecretOpened(ph, t, ev); QuietKeepsCounters(t, s, NO_WALLET);
    case InsufficientBalance => StepInsufficientBalance(ph, t, ev); QuietKeepsCounters(t, s, NO_WALLET);
    case Finished(_, _, _) => FinishedInvStep(ph, t, ev);
    case Draw => DrawInvStep(ph, t, ev);
  }

  lemma FinishedInvStep(ph: Phases, t: Tables, ev: Event)
    requires Inv(ph, t) && ev.Key() !in t.events && Advance(ph, ev).Some? && ev.body.Finished?
    ensures Apply(t, ev).ok && Inv(Advance(ph, ev).value, Apply(t, ev).tables) && Evolves(t, Apply(t, ev).tables)
  {
    assert Matches(ph[ev.gameId], t.games[ev.gameId]);
    SettleShape(t, ev);
    FinishedKeepsInv(ph, t, ev, Apply(t, ev).tables);
  }

  lemma FinishedKeepsInv(ph: Phases, t: Tables, ev: Event, s: Tables)
    requires Inv(ph, t) && Legal(ph, t, ev) && Finishable(t, ev) && SettledInto(t, ev, s)
    ensures Inv(Advance(ph, ev).value, s) && Evolves(t, s)
  {
    StepFinished(ph, t, ev, s);
    forall w | w in s.users
      ensures Balanced(s, w)
    {
      FinishedKeepsBalance(t, ev, s, w);
    }
    FinishedConserves(t, ev, s);
  }

  lemma DrawInvStep(ph: Phases, t: Tables, ev: Event)
    requires Inv(ph, t) && ev.Key() !in t.events && Advance(ph, ev).Some? && ev.body.Draw?
    ensures Apply(t, ev).ok && Inv(Advance(ph, ev).value, Apply(t, ev).tables) && Evolves(t, Apply(t, ev).tables)
  {
    assert Matches(ph[ev.gameId], t.games[ev.gameId]);
    DrawShape(t, ev);
    DrawKeepsInv(ph, t, ev, Apply(t, ev).tables);
  }

  lemma DrawKeepsInv(ph: Phases, t: Tables, ev: Event, s: Tables)
    requires Inv(ph, t) && Legal(ph, t, ev) && Drawable(t, ev) && DrawnInto(t, ev, s)
    ensures Inv(Advance(ph, ev).value, s) && Evolves(t, s)
  {
    StepDraw(ph, t, ev, s);
    forall w | w in s.users
      ensures Balanced(s, w)
    {
      DrawKeepsBalance(t, ev, s, w);
    }
    DrawConserves(t, ev, s);
  }

  // ---------------------------------------------------------------- whole histories

  lemma EmptyTablesAreConsistent()
    ensures Inv(map[], EMPTY)
  {
  }

  lemma {:induction false} BaseRows(t: Tables, evs: seq<Event>)
    ensures forall k :: k in Base(t, evs).events ==>
      k in t.events || exists i :: 0 <= i < |evs| && evs[i].Key() == k
    decreases |evs|
  {
    if evs != [] {
      var n := |evs| - 1;
      BaseRows(t, evs[..n]);
      var b, s := Base(t, evs[..n]), Base(t, evs);
      forall k | k in s.events && k !in t.events
        ensures exists i :: 0 <= i < |evs| && evs[i].Key() == k
      {
        if k in b.events {
          var i :| 0 <= i < n && evs[..n][i].Key() == k;
          assert evs[i].Key() == k;
        } else {
          assert evs[n].Key() == k;
        }
      }
    }
  }

  lemma PrefixOrdered(ph: Phases, t: Tables, evs: seq<Event>, n: nat)
    requires ContractOrdered(ph, t, evs) && n <= |evs|
    ensures ContractOrdered(ph, t, evs[..n])
    decreases |evs|
  {
    if n < |evs| {
      var shorter := evs[..|evs| - 1];
      assert ContractOrdered(ph, t, shorter);
      PrefixOrdered(ph, t, shorter, n);
      assert shorter[..n] == evs[..n];
    } else {
      assert evs[..n] == evs;
    }
  }

  /** The next event of an ordered history is legal in the state the events before it led to. */
  lemma NextIsLegal(ph: Phases, t: Tables, evs: seq<Event>, n: nat)
    requires ContractOrdered(ph, t, evs) && n < |evs|
    ensures AdvanceAll(ph, evs[..n]).Some? && Advance(AdvanceAll(ph, evs[..n]).value, evs[n]).Some?
    ensures AdvanceAll(ph, evs[..n + 1]) == Advance(AdvanceAll(ph, evs[..n]).value, evs[n])
    ensures Base(t, evs[..n + 1]) == Apply(Base(t, evs[..n]), evs[n]).tables
    ensures evs[n].Key() !in Base(t, evs[..n]).events
  {
    PrefixOrdered(ph, t, evs, n + 1);
    var upTo := evs[..n + 1];
    assert upTo[..n] == evs[..n] && upTo[n] == evs[n];
    BaseRows(t, evs[..n]);
  }

  /**
   * After every contract-ordered history: stored wins and losses equal those the
   * statistics query derives, games played are wins plus losses plus draws, and
   * the totals match the recorded results.
   */
  lemma {:induction false} LedgerHolds(ph: Phases, t: Tables, evs: seq<Event>, n: nat)
    requires Inv(ph, t) && ContractOrdered(ph, t, evs) && n <= |evs|
    ensures AdvanceAll(ph, evs[..n]).Some? && Inv(AdvanceAll(ph, evs[..n]).value, Base(t, evs[..n]))
    decreases n
  {
    if n > 0 {
      LedgerHolds(ph, t, evs, n - 1);
      NextIsLegal(ph, t, evs, n - 1);
      InvStep(AdvanceAll(ph, evs[..n - 1]).value, Base(t, evs[..n - 1]), evs[n - 1]);
    } else {
      assert evs[..0] == [];
    }
  }

  /** Every notification of such a history is accepted. */
  lemma NextIsAccepted(ph: Phases, t: Tables, evs: seq<Event>, n: nat)
    requires Inv(ph, t) && ContractOrdered(ph, t, evs) && n < |evs|
    ensures Apply(Base(t, evs[..n]), evs[n]).ok
    ensures evs[n].Key() !in Base(t, evs[..n]).events
    ensures Base(t, evs[..n + 1]) == Apply(Base(t, evs[..n]), evs[n]).tables
  {
    LedgerHolds(ph, t, evs, n);
    NextIsLegal(ph, t, evs, n);
    InvStep(AdvanceAll(ph, evs[..n]).value, Base(t, evs[..n]), evs[n]);
  }

  lemma NextMovesForward(ph: Phases, t: Tables, evs: seq<Event>, n: nat, b: Tables, s: Tables)
    requires Inv(ph, t) && ContractOrdered(ph, t, evs) && n < |evs|
    requires b == Base(t, evs[..n]) && s == Base(t, evs[..n + 1])
    ensures Evolves(b, s)
  {
    LedgerHolds(ph, t, evs, n);
    NextIsLegal(ph, t, evs, n);
    InvStep(AdvanceAll(ph, evs[..n]).value, b, evs[n]);
  }

  lemma EvolvesTransitive(a: Tables, b: Tables, c: Tables)
    requires Evolves(a, b) && Evolves(b, c)
    ensures Evolves(a, c)
  {
    forall id | id in a.games
      ensures id in c.games && Forward(a.games[id], c.games[id])
    {
      assert Forward(a.games[id], b.games[id]) && Forward(b.games[id], c.games[id]);
    }
  }

  lemma {:induction false} EvolvesChain(states: seq<Tables>, m: nat, n: nat)
    requires m <= n < |states|
    requires forall i :: 0 <= i < |states| - 1 ==> Evolves(states[i], states[i + 1])
    ensures Evolves(states[m], states[n])
    decreases n
  {
    if m < n {
      EvolvesChain(states, m, n - 1);
      assert Evolves(states[n - 1], states[n - 1 + 1]);
      EvolvesTransitive(states[m], states[n - 1], states[n]);
    }
  }

  /** Between any two moments of a contract-ordered history every game has moved forward. */
  lemma Lifecycle(ph: Phases, t: Tables, evs: seq<Event>, m: nat, n: nat)
    requires Inv(ph, t) && ContractOrdered(ph, t, evs) && m <= n <= |evs|
    ensures Evolves(Base(t, evs[..m]), Base(t, evs[..n]))
  {
    var states := seq(|evs| + 1, i requires 0 <= i <= |evs| => Base(t, evs[..i]));
    forall i | 0 <= i < |states| - 1
      ensures Evolves(states[i], states[i + 1])
    {
      NextMovesForward(ph, t, evs, i, states[i], states[i + 1]);
    }
    EvolvesChain(states, m, n);
  }

  /** The row says what the event that created the game said. */
  ghost predicate CreatedBy(ev: Event, g: Game) {
    && ev.body.Initialized? && InitializedFieldsPresent(ev)
    && g.playerOne == ev.body.playerOne.value && g.bet == ev.body.bet.value
    && g.terms == ev.body.terms.value && g.initTx == ev.txHash
  }

  lemma CreationWrites(ph: Phases, t: Tables, ev: Event, s: Tables)
    requires Legal(ph, t, ev) && ev.body.Initialized? && s == TryInitialized(t, ev, false, FAULT_FREE).tables
    ensures ev.gameId in s.games && CreatedBy(ev, s.games[ev.gameId])
  {
  }

  /** Creator, stake, terms and creating transaction of a game stay those announced, for the rest of the history. */
  lemma OriginIsKept(ph: Phases, t: Tables, evs: seq<Event>, i: nat, n: nat)
    requires Inv(ph, t) && ContractOrdered(ph, t, evs) && i < n <= |evs| && evs[i].body.Initialized?
    ensures evs[i].gameId in Base(t, evs[..n]).games && CreatedBy(evs[i], Base(t, evs[..n]).games[evs[i].gameId])
  {
    var ev, b := evs[i], Base(t, evs[..i]);
    LedgerHolds(ph, t, evs, i);
    NextIsLegal(ph, t, evs, i);
    var s := TryInitialized(b, ev, false, FAULT_FREE).tables;
    assert Base(t, evs[..i + 1]) == s;
    CreationWrites(AdvanceAll(ph, evs[..i]).value, b, ev, s);
    Lifecycle(ph, t, evs, i + 1, n);
    KeptAlong(ev, s, Base(t, evs[..n]));
  }

  lemma KeptAlong(ev: Event, s: Tables, z: Tables)
    requires ev.gameId in s.games && CreatedBy(ev, s.games[ev.gameId]) && Evolves(s, z)
    ensures ev.gameId in z.games && CreatedBy(ev, z.games[ev.gameId])
  {
    assert Forward(s.games[ev.gameId], z.games[ev.gameId]);
  }

  /**
   * Games played are the one statistic on which the stored counter and the
   * query part: the query cannot see draws, so they agree exactly without any.
   */
  lemma PlayedAgreesIffNoDraws(ph: Phases, t: Tables, w: Wallet)
    requires Inv(ph, t) && w in t.users
    ensures t.users[w].played == |PlayedGames(t, w)| + |Drawn(t, w)|
    ensures t.users[w].played == |PlayedGames(t, w)| <==> Drawn(t, w) == {}
  {
    var won, lost := WonGames(t, w), LostGames(t, w);
    assert forall id :: id in t.games ==> id in ph && Matches(ph[id], t.games[id]);
    assert forall id :: id in PlayedGames(t, w) <==> id in won + lost;
    assert PlayedGames(t, w) == won + lost;
    assert won !! lost;
    assert Balanced(t, w);
  }
}
