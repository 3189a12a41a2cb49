/**
 * Where the columns of a game come from. Whatever is delivered, in whatever
 * order and with whatever faults, a second player, a winner or an opened side
 * on a row is backed by a recorded event that says so of that game and player.
 */
module Provenance {
  import opened Prelude
  import opened Tables
  import opened Handlers
  import opened Delivery
  import opened Ledger

  type Events = map<EventKey, Event>

  ghost predicate JoinBacked(id: int, two: Option<Wallet>, events: Events) {
    exists k :: k in events && events[k].gameId == id && events[k].body.Started? && events[k].body.playerTwo == two
  }

  ghost predicate WinBacked(id: int, winner: Option<Wallet>, events: Events) {
    exists k :: k in events && events[k].gameId == id && events[k].body.Finished? && events[k].body.winner == winner
  }

  ghost predicate SideBacked(id: int, player: Wallet, side: int, events: Events) {
    exists k :: k in events && events[k].gameId == id && events[k].body.SecretOpened?
      && events[k].body.player == Some(player) && events[k].body.coinSide == Some(side)
  }

  /** A result of that game announced the amount, or left it to the older field. */
  ghost predicate PayoutBacked(id: int, amount: Option<int>, events: Events) {
    exists k :: k in events && events[k].gameId == id && events[k].body.Finished?
      && (events[k].body.totalGainings == amount
          || (events[k].body.totalGainings.None? && events[k].body.legacyPayout == amount))
  }

  ghost predicate RowBacked(id: int, g: Game, events: Events) {
    && (g.playerTwo.Some? ==> JoinBacked(id, g.playerTwo, events))
    && (g.winner.Some? ==> WinBacked(id, g.winner, events))
    && (g.playerTwo.Some? && Shown(g.choiceOne) ==> SideBacked(id, g.playerOne, g.choiceOne, events))
    && (g.playerTwo.Some? && g.choiceTwo.Some? && Shown(g.choiceTwo.value) ==>
          SideBacked(id, g.playerTwo.value, g.choiceTwo.value, events))
    && (g.payout.Some? ==> PayoutBacked(id, g.payout, events))
    && (g.revealed.Some? ==> EventKey(id, g.revealed.value.txHash, SecretOpenedKind) in events)
  }

  ghost predicate Backed(t: Tables) {
    forall id :: id in t.games ==> RowBacked(id, t.games[id], t.events)
  }

  /** A tag was earned by inserting this very event. */
  ghost predicate TagEarned(t: Tables, ev: Event, tagged: bool) {
    tagged && ev.Key() in t.events ==> t.events[ev.Key()] == ev
  }

  ghost predicate Extends(a: Events, b: Events) {
    forall k :: k in a ==> k in b && b[k] == a[k]
  }

  lemma RowStaysBacked(id: int, g: Game, a: Events, b: Events)
    requires RowBacked(id, g, a) && Extends(a, b)
    ensures RowBacked(id, g, b)
  {
    if g.playerTwo.Some? {
      var k :| k in a && a[k].gameId == id && a[k].body.Started? && a[k].body.playerTwo == g.playerTwo;
      assert k in b && b[k] == a[k];
    }
    if g.winner.Some? {
      var k :| k in a && a[k].gameId == id && a[k].body.Finished? && a[k].body.winner == g.winner;
      assert k in b && b[k] == a[k];
    }
    if g.payout.Some? {
      PayoutStaysBacked(id, g.payout, a, b);
    }
    if g.playerTwo.Some? && Shown(g.choiceOne) {
      SideStaysBacked(id, g.playerOne, g.choiceOne, a, b);
    }
    if g.playerTwo.Some? && g.choiceTwo.Some? && Shown(g.choiceTwo.value) {
      SideStaysBacked(id, g.playerTwo.value, g.choiceTwo.value, a, b);
    }
  }

  lemma PayoutStaysBacked(id: int, amount: Option<int>, a: Events, b: Events)
    requires PayoutBacked(id, amount, a) && Extends(a, b)
    ensures PayoutBacked(id, amount, b)
  {
    var k :| k in a && a[k].gameId == id && a[k].body.Finished?
      && (a[k].body.totalGainings == amount || (a[k].body.totalGainings.None? && a[k].body.legacyPayout == amount));
    assert k in b && b[k] == a[k];
  }

  lemma SideStaysBacked(id: int, player: Wallet, side: int, a: Events, b: Events)
    requires SideBacked(id, player, side, a) && Extends(a, b)
    ensures SideBacked(id, player, side, b)
  {
    var k :| k in a && a[k].gameId == id && a[k].body.SecretOpened?
      && a[k].body.player == Some(player) && a[k].body.coinSide == Some(side);
    assert k in b && b[k] == a[k];
  }

  /** One row changes, the rest stay, and events are only added. */
  lemma OneRowChanges(t: Tables, s: Tables, id: int)
    requires Backed(t) && Extends(t.events, s.events)
    requires forall x :: x in s.games && x != id ==> x in t.games && s.games[x] == t.games[x]
    requires id in s.games ==> RowBacked(id, s.games[id], s.events)
    ensures Backed(s)
  {
    forall x | x in s.games
      ensures RowBacked(x, s.games[x], s.events)
    {
      if x != id {
        RowStaysBacked(x, t.games[x], t.events, s.events);
      }
    }
  }

  lemma SameGames(t: Tables, s: Tables)
    requires Backed(t) && Extends(t.events, s.events) && s.games == t.games
    ensures Backed(s)
  {
    forall x | x in s.games
      ensures RowBacked(x, s.games[x], s.events)
    {
      RowStaysBacked(x, t.games[x], t.events, s.events);
    }
  }

  lemma RecordBacks(t: Tables, ev: Event, tagged: bool)
    requires TagEarned(t, ev, tagged)
    ensures var row := InsertEvent(t, ev);
      && Extends(t.events, row.events) && ev.Key() in row.events
      && (Tag(t, ev, tagged) ==> row.events[ev.Key()] == ev)
  {
  }

  // ---------------------------------------------------------------- handler by handler

  lemma InitializedShape(t: Tables, ev: Event, tagged: bool, budget: nat)
    requires ev.body.Initialized?
    ensures
      var s := TryInitialized(t, ev, tagged, budget).tables;
      && Extends(t.events, s.events)
      && (s.games == t.games
          || (InitializedFieldsPresent(ev) && ev.gameId !in t.games && s.games == t.games[ev.gameId := RowOf(ev)]))
  {
  }

  lemma BackedInitialized(t: Tables, ev: Event, tagged: bool, budget: nat, s: Tables)
    requires Backed(t) && ev.body.Initialized? && s == TryInitialized(t, ev, tagged, budget).tables
    ensures Backed(s)
  {
    InitializedShape(t, ev, tagged, budget);
    if s.games == t.games {
      SameGames(t, s);
    } else {
      OneRowChanges(t, s, ev.gameId);
    }
  }

  lemma JoinedRowBacked(id: int, g: Game, two: Wallet, stamp: Stamp, events: Events)
    requires RowBacked(id, g, events) && JoinBacked(id, Some(two), events)
    ensures RowBacked(id, g.(playerTwo := Some(two), joined := Some(stamp), status := STATUS_OPEN_BIDS,
                             choiceOne := SIDE_CLOSED, choiceTwo := Some(SIDE_CLOSED)), events)
  {
  }

  lemma StartedShape(t: Tables, ev: Event, tagged: bool, budget: nat)
    requires TagEarned(t, ev, tagged) && ev.body.Started?
    ensures
      var s := TryStarted(t, ev, tagged, budget).tables;
      && Extends(t.events, s.events)
      && (s.games == t.games
          || (&& ev.body.playerTwo.Some? && ev.gameId in t.games && ev.Key() in s.events && s.events[ev.Key()] == ev
              && s.games == JoinGame(t, ev.gameId, ev.body.playerTwo.value, StampOf(ev)).games))
  {
  }

  lemma BackedStarted(t: Tables, ev: Event, tagged: bool, budget: nat, s: Tables)
    requires Backed(t) && TagEarned(t, ev, tagged) && ev.body.Started? && s == TryStarted(t, ev, tagged, budget).tables
    ensures Backed(s)
  {
    StartedShape(t, ev, tagged, budget);
    if s.games == t.games {
      SameGames(t, s);
    } else {
      var g := t.games[ev.gameId];
      RowStaysBacked(ev.gameId, g, t.events, s.events);
      JoinedRowBacked(ev.gameId, g, ev.body.playerTwo.value, StampOf(ev), s.events);
      OneRowChanges(t, s, ev.gameId);
    }
  }

  lemma BackedFinished(t: Tables, ev: Event, tagged: bool, budget: nat)
    requires Backed(t) && TagEarned(t, ev, tagged) && ev.body.Finished?
    ensures Backed(TryFinished(t, ev, tagged, budget).tables)
  {
    var s := TryFinished(t, ev, tagged, budget).tables;
    RecordBacks(t, ev, tagged);
    if s != t {
      var row := InsertEvent(t, ev);
      assert s == Settle(row, ev);
      SettleTouchesOneRow(row, ev);
      var g, h := t.games[ev.gameId], s.games[ev.gameId];
      assert RowBacked(ev.gameId, g, t.events);
      RowStaysBacked(ev.gameId, g, t.events, s.events);
      assert s.events[ev.Key()] == ev;
      assert WinBacked(ev.gameId, ev.body.winner, s.events);
      assert h.payout.Some? ==> PayoutBacked(ev.gameId, h.payout, s.events);
      OneRowChanges(t, s, ev.gameId);
    }
  }

  lemma SettleTouchesOneRow(t: Tables, ev: Event)
    requires ev.body.Finished? && ev.body.winner.Some? && ev.gameId in t.games
    ensures
      var s := Settle(t, ev);
      && s.events == t.events
      && s.games == CompleteGame(t, ev.gameId, ev.body.winner.value, PayoutOf(ev), StampOf(ev)).games
  {
  }

  lemma DrawShape(t: Tables, ev: Event, tagged: bool, budget: nat)
    requires ev.body.Draw?
    ensures
      var s := TryDraw(t, ev, tagged, budget).tables;
      && Extends(t.events, s.events)
      && (s.games == t.games
          || (ev.gameId in t.games && s.games == CompleteGame(t, ev.gameId, NO_WALLET, 0, StampOf(ev)).games))
  {
  }

  lemma BackedDraw(t: Tables, ev: Event, tagged: bool, budget: nat, s: Tables)
    requires Backed(t) && ev.body.Draw? && s == TryDraw(t, ev, tagged, budget).tables
    ensures Backed(s)
  {
    DrawShape(t, ev, tagged, budget);
    if s.games == t.games {
      SameGames(t, s);
    } else {
      RowStaysBacked(ev.gameId, t.games[ev.gameId], t.events, s.events);
      OneRowChanges(t, s, ev.gameId);
    }
  }

  lemma BackedCancelled(t: Tables, ev: Event, tagged: bool, budget: nat)
    requires Backed(t) && TagEarned(t, ev, tagged) && ev.body.Cancelled?
    ensures Backed(TryCancelled(t, ev, tagged, budget).tables)
  {
    var s := TryCancelled(t, ev, tagged, budget).tables;
    RecordBacks(t, ev, tagged);
    if s.games == t.games {
      SameGames(t, s);
    } else {
      RowStaysBacked(ev.gameId, t.games[ev.gameId], t.events, s.events);
      OneRowChanges(t, s, ev.gameId);
    }
  }

  lemma RevealedRowBacked(id: int, g: Game, h: Game, player: Wallet, side: int, stamp: Stamp, events: Events)
    requires RowBacked(id, g, events) && SideBacked(id, player, side, events) && g.HasPlayer(player)
    requires EventKey(id, stamp.txHash, SecretOpenedKind) in events
    requires h == if g.playerOne == player then g.(revealed := Some(stamp), choiceOne := side)
                  else g.(revealed := Some(stamp), choiceTwo := Some(side))
    ensures RowBacked(id, h, events)
  {
  }

  lemma BackedSecretOpened(t: Tables, ev: Event, tagged: bool, budget: nat)
    requires Backed(t) && TagEarned(t, ev, tagged) && ev.body.SecretOpened?
    ensures Backed(TrySecretOpened(t, ev, tagged, budget).tables)
  {
    var s := TrySecretOpened(t, ev, tagged, budget).tables;
    RecordBacks(t, ev, tagged);
    if s.games == t.games {
      SameGames(t, s);
    } else {
      var g, h := t.games[ev.gameId], s.games[ev.gameId];
      RowStaysBacked(ev.gameId, g, t.events, s.events);
      assert s.events[ev.Key()] == ev;
      RevealedRowBacked(ev.gameId, g, h, ev.body.player.value, ev.body.coinSide.value, StampOf(ev), s.events);
      OneRowChanges(t, s, ev.gameId);
    }
  }

  lemma AttemptKeepsBacking(t: Tables, ev: Event, tagged: bool, budget: nat)
    requires Backed(t) && TagEarned(t, ev, tagged)
    ensures Backed(Try(t, ev, tagged, budget).tables)
  {
    match ev.body
    case Initialized(_, _, _, _) => BackedInitialized(t, ev, tagged, budget, Try(t, ev, tagged, budget).tables);
    case Started(_) => BackedStarted(t, ev, tagged, budget, Try(t, ev, tagged, budget).tables);
    case Finished(_, _, _) => BackedFinished(t, ev, tagged, budget);
    case Cancelled => BackedCancelled(t, ev, tagged, budget);
    case Draw => BackedDraw(t, ev, tagged, budget, Try(t, ev, tagged, budget).tables);
    case SecretOpened(_, _) => BackedSecretOpened(t, ev, tagged, budget);
    case InsufficientBalance => SameGames(t, Try(t, ev, tagged, budget).tables);
  }

  lemma DrawEarnsTag(t: Tables, ev: Event, tagged: bool, budget: nat, a: Attempt)
    requires TagEarned(t, ev, tagged) && ev.body.Draw? && a == TryDraw(t, ev, tagged, budget)
    ensures TagEarned(a.tables, ev, a.tagged)
  {
  }

  lemma FinishedEarnsTag(t: Tables, ev: Event, tagged: bool, budget: nat, a: Attempt)
    requires TagEarned(t, ev, tagged) && ev.body.Finished? && a == TryFinished(t, ev, tagged, budget)
    ensures TagEarned(a.tables, ev, a.tagged)
  {
    if a.tables != t {
      SettleTouchesOneRow(InsertEvent(t, ev), ev);
    }
  }

  lemma StartedEarnsTag(t: Tables, ev: Event, tagged: bool, budget: nat, a: Attempt)
    requires TagEarned(t, ev, tagged) && ev.body.Started? && a == TryStarted(t, ev, tagged, budget)
    ensures TagEarned(a.tables, ev, a.tagged)
  {
  }

  lemma AttemptEarnsTag(t: Tables, ev: Event, tagged: bool, budget: nat, a: Attempt)
    requires TagEarned(t, ev, tagged) && a == Try(t, ev, tagged, budget)
    ensures TagEarned(a.tables, ev, a.tagged)
  {
    match ev.body
    case Draw => DrawEarnsTag(t, ev, tagged, budget, a);
    case Finished(_, _, _) => FinishedEarnsTag(t, ev, tagged, budget, a);
    case Started(_) => StartedEarnsTag(t, ev, tagged, budget, a);
    case _ =>
  }

  lemma {:induction false} RouteKeepsBacking(t: Tables, ev: Event, tagged: bool, plan: Plan)
    requires Backed(t) && TagEarned(t, ev, tagged)
    ensures Backed(Route(t, ev, tagged, plan).tables)
    decreases |plan|
  {
    AttemptKeepsBacking(t, ev, tagged, plan[0]);
    var a := Try(t, ev, tagged, plan[0]);
    if !a.ok && |plan| > 1 {
      AttemptEarnsTag(t, ev, tagged, plan[0], a);
      RouteKeepsBacking(a.tables, ev, a.tagged, plan[1..]);
    }
  }

  /** After any deliveries whatever, every second player, winner and opened side is backed by a recorded event. */
  lemma {:induction false} DeliveriesKeepBacking(t: Tables, ds: seq<Attempted>)
    requires Backed(t) && Planned(ds)
    ensures Backed(DeliverAll(t, ds))
    decreases |ds|
  {
    if ds != [] {
      RouteKeepsBacking(t, ds[0].event, false, ds[0].plan);
      DeliveriesKeepBacking(Deliver(t, ds[0].event, ds[0].plan).tables, ds[1..]);
    }
  }

  /** In particular along a run without failures. */
  lemma {:induction false} BaseIsBacked(t: Tables, evs: seq<Event>)
    requires Backed(t)
    ensures Backed(Base(t, evs))
    decreases |evs|
  {
    if evs != [] {
      var n := |evs| - 1;
      BaseIsBacked(t, evs[..n]);
      RouteKeepsBacking(Base(t, evs[..n]), evs[n], false, [FAULT_FREE]);
    }
  }

  // ---------------------------------------------------------------- what a row cannot say

  predicate UrlSafe(c: char) {
    'A' <= c <= 'Z' || 'a' <= c <= 'z' || '0' <= c <= '9' || c == '_' || c == '-'
  }

  /** "EQ" and 46 more characters of the URL-safe alphabet. */
  ghost predicate WellFormed(w: Wallet) {
    |w.text| == 48 && w.text[..2] == "EQ" && forall c :: c in w.text[2..] ==> UrlSafe(c)
  }

  /** Created from a notification that passed validation. */
  ghost predicate Sound(id: int, g: Game) {
    id > 0 && g.bet > 0 && g.initTx != "" && WellFormed(g.playerOne)
  }

  ghost predicate RowsAreSound(t: Tables) {
    forall id :: id in t.games ==> Sound(id, t.games[id])
  }

  /** What a handler may do to the rows: create a sound one, or leave the columns of its creation alone. */
  ghost predicate CreationKept(t: Tables, s: Tables) {
    forall id :: id in s.games ==>
      if id in t.games
      then s.games[id].playerOne == t.games[id].playerOne && s.games[id].bet == t.games[id].bet
           && s.games[id].initTx == t.games[id].initTx
      else Sound(id, s.games[id])
  }

  /** The pattern the validation matches addresses against. */
  lemma WellFormedIffMatched(w: Wallet)
    ensures WellFormed(w) <==> IsTonAddress(w)
  {
    var s := w.text;
    if WellFormed(w) {
      assert s[0] == s[..2][0] && s[1] == s[..2][1];
      forall i | 2 <= i < |s|
        ensures UrlSafe(s[i])
      {
        assert s[i] == s[2..][i - 2];
      }
    }
    if IsTonAddress(w) {
      assert s[..2] == "EQ";
      forall c | c in s[2..]
        ensures UrlSafe(c)
      {
        var j :| 0 <= j < |s[2..]| && s[2..][j] == c;
        assert s[j + 2] == c;
      }
    }
  }

  lemma AcceptedIsSound(ev: Event)
    requires ev.body.Initialized? && InitializedAccepted(ev)
    ensures Sound(ev.gameId, RowOf(ev))
  {
    WellFormedIffMatched(ev.body.playerOne.value);
  }

  lemma CreationKeptInitialized(t: Tables, ev: Event, tagged: bool, budget: nat, s: Tables)
    requires ev.body.Initialized? && s == TryInitialized(t, ev, tagged, budget).tables
    ensures CreationKept(t, s)
  {
    InitializedShape(t, ev, tagged, budget);
    if s.games != t.games {
      AcceptedIsSound(ev);
    }
  }

  lemma CreationKeptFinished(t: Tables, ev: Event, tagged: bool, budget: nat, s: Tables)
    requires ev.body.Finished? && s == TryFinished(t, ev, tagged, budget).tables
    ensures CreationKept(t, s)
  {
    if s != t {
      SettleTouchesOneRow(InsertEvent(t, ev), ev);
    }
  }

  lemma CreationKeptDraw(t: Tables, ev: Event, tagged: bool, budget: nat, s: Tables)
    requires ev.body.Draw? && s == TryDraw(t, ev, tagged, budget).tables
    ensures CreationKept(t, s)
  {
    DrawShape(t, ev, tagged, budget);
  }

  lemma CreationKeptStarted(t: Tables, ev: Event, tagged: bool, budget: nat, s: Tables)
    requires ev.body.Started? && s == TryStarted(t, ev, tagged, budget).tables
    ensures CreationKept(t, s)
  {
  }

  lemma CreationKeptReveal(t: Tables, ev: Event, tagged: bool, budget: nat, s: Tables)
    requires ev.body.SecretOpened? && s == TrySecretOpened(t, ev, tagged, budget).tables
    ensures CreationKept(t, s)
  {
  }

  lemma CreationKeptCancelled(t: Tables, ev: Event, tagged: bool, budget: nat, s: Tables)
    requires ev.body.Cancelled? && s == TryCancelled(t, ev, tagged, budget).tables
    ensures CreationKept(t, s)
  {
  }

  lemma {:induction false} RouteKeepsSound(t: Tables, ev: Event, tagged: bool, plan: Plan)
    requires RowsAreSound(t)
    ensures RowsAreSound(Route(t, ev, tagged, plan).tables)
    decreases |plan|
  {
    var a := Try(t, ev, tagged, plan[0]);
    AttemptKeepsSound(t, ev, tagged, plan[0], a.tables);
    if !a.ok && |plan| > 1 {
      RouteKeepsSound(a.tables, ev, a.tagged, plan[1..]);
    }
  }

  lemma AttemptKeepsSound(t: Tables, ev: Event, tagged: bool, budget: nat, s: Tables)
    requires RowsAreSound(t) && s == Try(t, ev, tagged, budget).tables
    ensures RowsAreSound(s)
  {
    match ev.body
    case Initialized(_, _, _, _) => CreationKeptInitialized(t, ev, tagged, budget, s); SoundAfter(t, s);
    case Finished(_, _, _) => CreationKeptFinished(t, ev, tagged, budget, s); SoundAfter(t, s);
    case Draw => CreationKeptDraw(t, ev, tagged, budget, s); SoundAfter(t, s);
    case Started(_) => CreationKeptStarted(t, ev, tagged, budget, s); SoundAfter(t, s);
    case SecretOpened(_, _) => CreationKeptReveal(t, ev, tagged, budget, s); SoundAfter(t, s);
    case Cancelled => CreationKeptCancelled(t, ev, tagged, budget, s); SoundAfter(t, s);
    case InsufficientBalance =>
  }

  lemma SoundAfter(t: Tables, s: Tables)
    requires RowsAreSound(t) && CreationKept(t, s)
    ensures RowsAreSound(s)
  {
    forall id | id in s.games
      ensures Sound(id, s.games[id])
    {
      assert id in t.games ==> Sound(id, t.games[id]);
    }
  }

  /** Under any deliveries no row has a bad id, creator, stake or creating transaction. */
  lemma {:induction false} DeliveriesKeepRowsSound(t: Tables, ds: seq<Attempted>)
    requires RowsAreSound(t) && Planned(ds)
    ensures RowsAreSound(DeliverAll(t, ds))
    decreases |ds|
  {
    if ds != [] {
      RouteKeepsSound(t, ds[0].event, false, ds[0].plan);
      DeliveriesKeepRowsSound(Deliver(t, ds[0].event, ds[0].plan).tables, ds[1..]);
    }
  }

  /** And every announcement without such a fault is accepted, whatever the tables hold, and no other. */
  lemma AcceptedIffSound(t: Tables, ev: Event)
    requires ev.body.Initialized?
    ensures Apply(t, ev).ok <==>
      && ev.body.playerOne.Some? && ev.body.bet.Some? && ev.body.terms.Some?
      && ev.gameId > 0 && ev.body.bet.value > 0 && ev.txHash != "" && WellFormed(ev.body.playerOne.value)
      && (ev.body.choice.Some? ==> 0 <= ev.body.choice.value <= 3)
  {
    assert Apply(t, ev) == Try(t, ev, false, FAULT_FREE);
    if ev.body.playerOne.Some? {
      WellFormedIffMatched(ev.body.playerOne.value);
    }
  }
}
