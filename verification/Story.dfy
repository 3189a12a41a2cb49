/**
 * What a game row says, told from the events alone: every column is a field of
 * the last event of the game that concerns it.
 */
module Story {
  import opened Prelude
  import opened Tables
  import opened Handlers
  import opened Ledger

  // ---------------------------------------------------------------- the last word on each subject

  datatype Role = Opening | Joining | Revealing | Ending

  predicate Plays(ev: Event, role: Role) {
    match role
    case Opening => ev.body.Initialized?
    case Joining => ev.body.Started?
    case Revealing => ev.body.SecretOpened?
    case Ending => ev.body.Finished? || ev.body.Draw? || ev.body.Cancelled?
  }

  /** The last event of the game in that role. */
  function LastOf(evs: seq<Event>, id: int, role: Role): (r: Option<Event>)
    ensures r.Some? ==> r.value in evs && r.value.gameId == id && Plays(r.value, role)
  {
    if evs == [] then None else
    var ev := evs[|evs| - 1];
    if ev.gameId == id && Plays(ev, role) then Some(ev) else LastOf(evs[..|evs| - 1], id, role)
  }

  /** The side the player last opened in this game since it was joined. */
  function SideShown(evs: seq<Event>, id: int, w: Wallet): Option<int> {
    if evs == [] then None else
    var ev := evs[|evs| - 1];
    if ev.gameId == id && ev.body.Started? then None
    else if ev.gameId == id && ev.body.SecretOpened? && ev.body.player == Some(w) then ev.body.coinSide
    else SideShown(evs[..|evs| - 1], id, w)
  }

  function When(ev: Event): Stamp {
    Stamp(ev.at, ev.txHash)
  }

  function Positive(amount: Option<int>): Option<int> {
    if amount.Some? && amount.value > 0 then amount else None
  }

  function WinnerTold(ending: Event): Option<Wallet> {
    if ending.body.Finished? then ending.body.winner else None
  }

  /** The gainings announced, or the older field where they are not. */
  function PayoutTold(ending: Event): Option<int> {
    if !ending.body.Finished? then None
    else if ending.body.totalGainings.Some? then Positive(ending.body.totalGainings)
    else Positive(ending.body.legacyPayout)
  }

  /** The row of a game that has just been announced. */
  function Born(ev: Event): Option<Game> {
    if ev.body.Initialized? && ev.body.playerOne.Some? && ev.body.bet.Some? && ev.body.terms.Some?
    then Some(Game(
      1, ev.body.playerOne.value, None, if ev.body.choice.Some? then ev.body.choice.value else 1, None,
      ev.body.bet.value, ev.body.terms.value, None, None, ev.txHash, None, None, None))
    else None
  }

  /** The row before anybody joins: as announced, or as it was when the history began. */
  function Beginning(base: Option<Game>, evs: seq<Event>, id: int): Option<Game> {
    var opening := LastOf(evs, id, Opening);
    if opening.Some? then Born(opening.value) else base
  }

  /** The whole row as the events tell it. */
  function Told(base: Option<Game>, evs: seq<Event>, id: int): Option<Game> {
    var start := Beginning(base, evs, id);
    if start.None? then None else
    Some(ToldFrom(
      start.value, LastOf(evs, id, Joining), LastOf(evs, id, Revealing), LastOf(evs, id, Ending),
      SideShown(evs, id, start.value.playerOne),
      SideShown(evs, id, SecondTold(start.value, LastOf(evs, id, Joining)).GetOr(NO_WALLET))))
  }

  function SecondTold(g: Game, joining: Option<Event>): Option<Wallet> {
    if joining.Some? && joining.value.body.Started? then joining.value.body.playerTwo else g.playerTwo
  }

  function ToldFrom(
    g: Game, joining: Option<Event>, revealing: Option<Event>, ending: Option<Event>, one: Option<int>, two: Option<int>): Game
  {
    Game(
      if ending.Some? then 4 else if joining.Some? then 2 else g.status,
      g.playerOne,
      SecondTold(g, joining),
      if one.Some? then one.value else if joining.Some? then 1 else g.choiceOne,
      if two.Some? then two else if joining.Some? then Some(1) else g.choiceTwo,
      g.bet,
      g.terms,
      if ending.Some? then WinnerTold(ending.value) else g.winner,
      if ending.Some? then PayoutTold(ending.value) else g.payout,
      g.initTx,
      if joining.Some? then Some(When(joining.value)) else g.joined,
      if revealing.Some? then Some(When(revealing.value)) else g.revealed,
      if ending.Some? then Some(When(ending.value)) else g.completed)
  }

  // ---------------------------------------------------------------- one more event

  lemma OneMoreWord(evs: seq<Event>, ev: Event, id: int, role: Role)
    ensures LastOf(evs + [ev], id, role) == if ev.gameId == id && Plays(ev, role) then Some(ev) else LastOf(evs, id, role)
  {
    var all := evs + [ev];
    assert all[..|all| - 1] == evs;
  }

  lemma OneMoreSide(evs: seq<Event>, ev: Event, id: int, w: Wallet)
    ensures SideShown(evs + [ev], id, w) ==
      if ev.gameId != id then SideShown(evs, id, w)
      else if ev.body.Started? then None
      else if ev.body.SecretOpened? && ev.body.player == Some(w) then ev.body.coinSide
      else SideShown(evs, id, w)
  {
    var all := evs + [ev];
    assert all[..|all| - 1] == evs;
  }

  /** The words on a game after one more event. */
  lemma WordsAfter(evs: seq<Event>, ev: Event, id: int)
    ensures LastOf(evs + [ev], id, Opening) == if ev.gameId == id && ev.body.Initialized? then Some(ev) else LastOf(evs, id, Opening)
    ensures LastOf(evs + [ev], id, Joining) == if ev.gameId == id && ev.body.Started? then Some(ev) else LastOf(evs, id, Joining)
    ensures LastOf(evs + [ev], id, Revealing) ==
      if ev.gameId == id && ev.body.SecretOpened? then Some(ev) else LastOf(evs, id, Revealing)
    ensures LastOf(evs + [ev], id, Ending) ==
      if ev.gameId == id && (ev.body.Finished? || ev.body.Draw? || ev.body.Cancelled?) then Some(ev) else LastOf(evs, id, Ending)
  {
    OneMoreWord(evs, ev, id, Opening);
    OneMoreWord(evs, ev, id, Joining);
    OneMoreWord(evs, ev, id, Revealing);
    OneMoreWord(evs, ev, id, Ending);
  }

  /** Nothing has been said of the game. */
  ghost predicate Untold(evs: seq<Event>, id: int) {
    && LastOf(evs, id, Opening).None? && LastOf(evs, id, Joining).None?
    && LastOf(evs, id, Revealing).None? && LastOf(evs, id, Ending).None?
    && forall w :: SideShown(evs, id, w).None?
  }

  lemma StillUntold(evs: seq<Event>, ev: Event, id: int)
    requires Untold(evs, id) && ev.gameId != id
    ensures Untold(evs + [ev], id)
  {
    WordsAfter(evs, ev, id);
    forall w
      ensures SideShown(evs + [ev], id, w).None?
    {
      OneMoreSide(evs, ev, id, w);
    }
  }

  // ---------------------------------------------------------------- the row keeps up with the story

  /** The table says of the game what the events say. */
  ghost predicate Tells(base: Option<Game>, evs: seq<Event>, id: int, t: Tables) {
    if id in t.games then Told(base, evs, id) == Some(t.games[id])
    else base.None? && Untold(evs, id)
  }

  lemma TellsElsewhere(base: Option<Game>, evs: seq<Event>, ev: Event, id: int, t: Tables, s: Tables)
    requires Tells(base, evs, id, t) && (ev.gameId != id || ev.body.InsufficientBalance?)
    requires (id in t.games <==> id in s.games) && (id in t.games ==> s.games[id] == t.games[id])
    requires ev.gameId == id ==> id in t.games
    ensures Tells(base, evs + [ev], id, s)
  {
    WordsAfter(evs, ev, id);
    if id in t.games {
      var start := Beginning(base, evs, id).value;
      OneMoreSide(evs, ev, id, start.playerOne);
      OneMoreSide(evs, ev, id, SecondTold(start, LastOf(evs, id, Joining)).GetOr(NO_WALLET));
    } else {
      StillUntold(evs, ev, id);
    }
  }

  lemma TellsInitialized(base: Option<Game>, evs: seq<Event>, ev: Event, t: Tables, s: Tables)
    requires ev.body.Initialized? && InitializedAccepted(ev) && ev.gameId !in t.games && Tells(base, evs, ev.gameId, t)
    requires s == TryInitialized(t, ev, false, FAULT_FREE).tables
    ensures Tells(base, evs + [ev], ev.gameId, s)
  {
    WordsAfter(evs, ev, ev.gameId);
    OneMoreSide(evs, ev, ev.gameId, ev.body.playerOne.value);
    OneMoreSide(evs, ev, ev.gameId, NO_WALLET);
  }

  lemma TellsStarted(base: Option<Game>, evs: seq<Event>, ev: Event, t: Tables, s: Tables)
    requires ev.body.Started? && ev.body.playerTwo.Some? && ev.Key() !in t.events && ev.gameId in t.games
    requires t.games[ev.gameId].status == STATUS_WAITING && Tells(base, evs, ev.gameId, t)
    requires s == TryStarted(t, ev, false, FAULT_FREE).tables
    ensures Tells(base, evs + [ev], ev.gameId, s)
  {
    WordsAfter(evs, ev, ev.gameId);
    var start := Beginning(base, evs, ev.gameId).value;
    OneMoreSide(evs, ev, ev.gameId, start.playerOne);
    OneMoreSide(evs, ev, ev.gameId, ev.body.playerTwo.value);
  }

  lemma TellsSecretOpened(base: Option<Game>, evs: seq<Event>, ev: Event, t: Tables, s: Tables)
    requires ev.body.SecretOpened? && ev.body.player.Some? && ev.body.coinSide.Some? && ev.Key() !in t.events
    requires ev.gameId in t.games && t.games[ev.gameId].HasPlayer(ev.body.player.value)
    requires t.games[ev.gameId].playerTwo.Some? && t.games[ev.gameId].playerTwo.value != t.games[ev.gameId].playerOne
    requires Tells(base, evs, ev.gameId, t) && s == TrySecretOpened(t, ev, false, FAULT_FREE).tables
    ensures Tells(base, evs + [ev], ev.gameId, s)
  {
    WordsAfter(evs, ev, ev.gameId);
    OneMoreSide(evs, ev, ev.gameId, t.games[ev.gameId].playerOne);
    OneMoreSide(evs, ev, ev.gameId, t.games[ev.gameId].playerTwo.value);
  }

  /** An ending as far as the game's own row is concerned. */
  ghost predicate EndsWith(t: Tables, ev: Event, s: Tables) {
    && ev.gameId in t.games && ev.gameId in s.games
    && s.games[ev.gameId] == t.games[ev.gameId].(
         status := 4, winner := WinnerTold(ev), payout := PayoutTold(ev), completed := Some(When(ev)))
  }

  lemma TellsEnding(base: Option<Game>, evs: seq<Event>, ev: Event, t: Tables, s: Tables)
    requires Plays(ev, Ending) && EndsWith(t, ev, s) && Tells(base, evs, ev.gameId, t)
    ensures Tells(base, evs + [ev], ev.gameId, s)
  {
    WordsAfter(evs, ev, ev.gameId);
    var start := Beginning(base, evs, ev.gameId).value;
    OneMoreSide(evs, ev, ev.gameId, start.playerOne);
    OneMoreSide(evs, ev, ev.gameId, SecondTold(start, LastOf(evs, ev.gameId, Joining)).GetOr(NO_WALLET));
  }

  lemma FinishedEnds(t: Tables, ev: Event)
    requires ev.body.Finished? && ev.body.winner.Some? && ev.body.winner.value != NO_WALLET
    requires ev.Key() !in t.events && ev.gameId in t.games
    ensures EndsWith(t, ev, TryFinished(t, ev, false, FAULT_FREE).tables)
  {
  }

  lemma DrawEnds(t: Tables, ev: Event)
    requires ev.body.Draw? && ev.Key() !in t.events && ev.gameId in t.games
    ensures EndsWith(t, ev, TryDraw(t, ev, false, FAULT_FREE).tables)
  {
  }

  lemma CancelEnds(t: Tables, ev: Event)
    requires ev.body.Cancelled? && ev.Key() !in t.events && ev.gameId in t.games
    ensures EndsWith(t, ev, TryCancelled(t, ev, false, FAULT_FREE).tables)
  {
  }

  lemma FinishedRowsStay(t: Tables, ev: Event, s: Tables, id: int)
    requires ev.body.Finished? && s == TryFinished(t, ev, false, FAULT_FREE).tables && ev.gameId != id
    ensures (id in t.games <==> id in s.games) && (id in t.games ==> s.games[id] == t.games[id])
  {
  }

  /** Whatever happens to one game, the rows of the others stay. */
  lemma OtherRowsStay(t: Tables, ev: Event, s: Tables, id: int)
    requires s == Try(t, ev, false, FAULT_FREE).tables && ev.gameId != id
    ensures (id in t.games <==> id in s.games) && (id in t.games ==> s.games[id] == t.games[id])
  {
    match ev.body
    case Finished(_, _, _) => FinishedRowsStay(t, ev, s, id);
    case Draw => DrawRowsStay(t, ev, s, id);
    case _ =>
  }

  lemma DrawRowsStay(t: Tables, ev: Event, s: Tables, id: int)
    requires ev.body.Draw? && s == TryDraw(t, ev, false, FAULT_FREE).tables && ev.gameId != id
    ensures (id in t.games <==> id in s.games) && (id in t.games ==> s.games[id] == t.games[id])
  {
  }

  /** One notification of a contract-ordered history. */
  lemma StoryStep(ph: Phases, t: Tables, ev: Event, base: Option<Game>, evs: seq<Event>, id: int, s: Tables)
    requires Legal(ph, t, ev) && Tells(base, evs, id, t) && s == Try(t, ev, false, FAULT_FREE).tables
    ensures Tells(base, evs + [ev], id, s)
  {
    if ev.gameId != id {
      OtherRowsStay(t, ev, s, id);
      TellsElsewhere(base, evs, ev, id, t, s);
    } else if ev.body.Initialized? {
      TellsInitialized(base, evs, ev, t, s);
    } else {
      assert Matches(ph[id], t.games[id]) && PlayersIn(t.games[id], t.users);
      StoryStepOwn(ph, t, ev, base, evs, s);
    }
  }

  lemma StoryStepOwn(ph: Phases, t: Tables, ev: Event, base: Option<Game>, evs: seq<Event>, s: Tables)
    requires Advance(ph, ev).Some? && !ev.body.Initialized? && ev.Key() !in t.events
    requires ev.gameId in ph && ev.gameId in t.games
    requires Matches(ph[ev.gameId], t.games[ev.gameId]) && PlayersIn(t.games[ev.gameId], t.users)
    requires Tells(base, evs, ev.gameId, t) && s == Try(t, ev, false, FAULT_FREE).tables
    ensures Tells(base, evs + [ev], ev.gameId, s)
  {
    match ev.body
    case Started(_) => TellsStarted(base, evs, ev, t, s);
    case SecretOpened(_, _) => TellsSecretOpened(base, evs, ev, t, s);
    case Finished(_, _, _) => FinishedEnds(t, ev); TellsEnding(base, evs, ev, t, s);
    case Draw => DrawEnds(t, ev); TellsEnding(base, evs, ev, t, s);
    case Cancelled => CancelEnds(t, ev); TellsEnding(base, evs, ev, t, s);
    case InsufficientBalance => TellsElsewhere(base, evs, ev, ev.gameId, t, s);
  }

  function Row(t: Tables, id: int): Option<Game> {
    if id in t.games then Some(t.games[id]) else None
  }

  lemma NothingSaid(id: int)
    ensures Untold([], id)
  {
  }

  lemma StoryNext(ph: Phases, t: Tables, evs: seq<Event>, n: nat, id: int, b: Tables, s: Tables)
    requires Inv(ph, t) && ContractOrdered(ph, t, evs) && n < |evs|
    requires b == Base(t, evs[..n]) && s == Base(t, evs[..n + 1]) && Tells(Row(t, id), evs[..n], id, b)
    ensures Tells(Row(t, id), evs[..n + 1], id, s)
  {
    LedgerHolds(ph, t, evs, n);
    NextIsLegal(ph, t, evs, n);
    assert Apply(b, evs[n]) == Try(b, evs[n], false, FAULT_FREE);
    StoryStep(AdvanceAll(ph, evs[..n]).value, b, evs[n], Row(t, id), evs[..n], id, s);
    assert evs[..n + 1] == evs[..n] + [evs[n]];
  }

  lemma {:induction false} StoryKeeps(ph: Phases, t: Tables, evs: seq<Event>, n: nat, id: int)
    requires Inv(ph, t) && ContractOrdered(ph, t, evs) && n <= |evs|
    ensures Tells(Row(t, id), evs[..n], id, Base(t, evs[..n]))
    decreases n
  {
    if n == 0 {
      assert evs[..0] == [];
      NothingSaid(id);
    } else {
      StoryKeeps(ph, t, evs, n - 1, id);
      StoryNext(ph, t, evs, n - 1, id, Base(t, evs[..n - 1]), Base(t, evs[..n]));
    }
  }

  /**
   * After every prefix of every contract-ordered history every row is told by the
   * events: players, stake and terms by the announcement, the second player by the
   * join, each side by that player's last reveal since the join, winner, payout and
   * status by the ending, and the stamps by the last event that sets them.
   */
  lemma RowsTellTheStory(ph: Phases, t: Tables, evs: seq<Event>, n: nat, id: int)
    requires Inv(ph, t) && ContractOrdered(ph, t, evs) && n <= |evs|
    ensures Row(Base(t, evs[..n]), id) == Told(Row(t, id), evs[..n], id)
  {
    StoryKeeps(ph, t, evs, n, id);
  }

  // ---------------------------------------------------------------- reveals

  predicate Reveals(ev: Event, id: int, w: Wallet) {
    ev.gameId == id && ev.body.SecretOpened? && ev.body.player == Some(w)
  }

  /** The column of a player. */
  ghost predicate Shows(g: Game, w: Wallet, side: int) {
    if g.playerOne == w then g.choiceOne == side else g.playerTwo == Some(w) && g.choiceTwo == Some(side)
  }

  lemma {:induction false} SidePersists(evs: seq<Event>, i: nat, n: nat, id: int, w: Wallet)
    requires i < n <= |evs| && Reveals(evs[i], id, w)
    requires forall j :: i < j < n ==> !Reveals(evs[j], id, w) && !(evs[j].gameId == id && evs[j].body.Started?)
    ensures SideShown(evs[..n], id, w) == evs[i].body.coinSide
    decreases n
  {
    assert evs[..n] == evs[..n - 1] + [evs[n - 1]];
    OneMoreSide(evs[..n - 1], evs[n - 1], id, w);
    if i < n - 1 {
      SidePersists(evs, i, n - 1, id, w);
    }
  }

  /** The state each event of an ordered history meets, and what it makes of it. */
  lemma MeetsLegally(ph: Phases, t: Tables, evs: seq<Event>, i: nat, b: Tables) returns (p: Phases)
    requires Inv(ph, t) && ContractOrdered(ph, t, evs) && i < |evs| && b == Base(t, evs[..i])
    ensures Legal(p, b, evs[i]) && Base(t, evs[..i + 1]) == Try(b, evs[i], false, FAULT_FREE).tables
  {
    LedgerHolds(ph, t, evs, i);
    NextIsLegal(ph, t, evs, i);
    p := AdvanceAll(ph, evs[..i]).value;
    assert Apply(b, evs[i]) == Try(b, evs[i], false, FAULT_FREE);
  }

  ghost predicate Playing(b: Tables, ev: Event) {
    && ev.body.SecretOpened? && ev.body.player.Some? && ev.body.coinSide.Some? && ev.gameId in b.games
    && var g := b.games[ev.gameId];
       && g.status == STATUS_OPEN_BIDS && g.HasPlayer(ev.body.player.value)
       && g.playerTwo.Some? && g.playerTwo.value != g.playerOne
  }

  lemma LegalRevealIsPlaying(p: Phases, b: Tables, ev: Event)
    requires Legal(p, b, ev) && ev.body.SecretOpened?
    ensures Playing(b, ev)
  {
    assert Matches(p[ev.gameId], b.games[ev.gameId]) && PlayersIn(b.games[ev.gameId], b.users);
  }

  /** What is known of a game that is revealed in. */
  lemma RevealIsPlaying(ph: Phases, t: Tables, evs: seq<Event>, i: nat, b: Tables)
    requires Inv(ph, t) && ContractOrdered(ph, t, evs) && i < |evs| && evs[i].body.SecretOpened? && b == Base(t, evs[..i])
    ensures Playing(b, evs[i])
  {
    var p := MeetsLegally(ph, t, evs, i, b);
    LegalRevealIsPlaying(p, b, evs[i]);
  }

  /** A game that has been revealed in is not joined again. */
  lemma NoJoinAfterReveal(ph: Phases, t: Tables, evs: seq<Event>, i: nat, j: nat)
    requires Inv(ph, t) && ContractOrdered(ph, t, evs) && i < j < |evs|
    requires evs[i].body.SecretOpened? && evs[i].gameId == evs[j].gameId
    ensures !evs[j].body.Started?
  {
    var b, c := Base(t, evs[..i]), Base(t, evs[..j]);
    RevealIsPlaying(ph, t, evs, i, b);
    Lifecycle(ph, t, evs, i, j);
    assert Forward(b.games[evs[i].gameId], c.games[evs[i].gameId]);
    LedgerHolds(ph, t, evs, j);
    NextIsLegal(ph, t, evs, j);
    var p := AdvanceAll(ph, evs[..j]).value;
    assert Matches(p[evs[j].gameId], c.games[evs[j].gameId]);
  }

  lemma ToldSide(base: Option<Game>, evs: seq<Event>, id: int, w: Wallet, side: int, g: Game)
    requires Told(base, evs, id) == Some(g) && g.HasPlayer(w) && SideShown(evs, id, w) == Some(side)
    ensures Shows(g, w, side)
  {
  }

  /** A revealed side is on the row from the reveal until that player reveals again. */
  lemma RevealIsShown(ph: Phases, t: Tables, evs: seq<Event>, i: nat, n: nat)
    requires Inv(ph, t) && ContractOrdered(ph, t, evs) && i < n <= |evs|
    requires evs[i].body.SecretOpened? && evs[i].body.player.Some?
    requires forall j :: i < j < n ==> !Reveals(evs[j], evs[i].gameId, evs[i].body.player.value)
    ensures
      var id, g := evs[i].gameId, Base(t, evs[..n]).games;
      id in g && evs[i].body.coinSide.Some? && Shows(g[id], evs[i].body.player.value, evs[i].body.coinSide.value)
  {
    var id, w, b, z := evs[i].gameId, evs[i].body.player.value, Base(t, evs[..i]), Base(t, evs[..n]);
    RevealIsPlaying(ph, t, evs, i, b);
    Lifecycle(ph, t, evs, i, n);
    assert Forward(b.games[id], z.games[id]);
    forall j | i < j < n
      ensures !(evs[j].gameId == id && evs[j].body.Started?)
    {
      if evs[j].gameId == id {
        NoJoinAfterReveal(ph, t, evs, i, j);
      }
    }
    SidePersists(evs, i, n, id, w);
    RowsTellTheStory(ph, t, evs, n, id);
    ToldSide(Row(t, id), evs[..n], id, w, evs[i].body.coinSide.value, z.games[id]);
  }

  /** A reveal changes the column of its player and the stamp, and nothing else of the row. */
  ghost predicate OneSideMoved(g: Game, h: Game, ev: Event, w: Wallet) {
    && (w != g.playerOne ==> h.choiceOne == g.choiceOne)
    && (w == g.playerOne ==> h.choiceTwo == g.choiceTwo)
    && h == g.(choiceOne := h.choiceOne, choiceTwo := h.choiceTwo, revealed := Some(When(ev)))
  }

  lemma RevealMovesOneSide(b: Tables, ev: Event, s: Tables)
    requires Playing(b, ev) && ev.Key() !in b.events && s == TrySecretOpened(b, ev, false, FAULT_FREE).tables
    ensures ev.gameId in s.games && OneSideMoved(b.games[ev.gameId], s.games[ev.gameId], ev, ev.body.player.value)
    ensures Shows(s.games[ev.gameId], ev.body.player.value, ev.body.coinSide.value)
  {
  }

  /** In every ordered history: the other player's column is as it was. */
  lemma RevealTouchesOneSide(ph: Phases, t: Tables, evs: seq<Event>, i: nat, b: Tables, s: Tables)
    requires Inv(ph, t) && ContractOrdered(ph, t, evs) && i < |evs| && evs[i].body.SecretOpened?
    requires b == Base(t, evs[..i]) && s == Base(t, evs[..i + 1])
    ensures
      var ev := evs[i];
      && ev.gameId in b.games && ev.gameId in s.games && ev.body.player.Some?
      && OneSideMoved(b.games[ev.gameId], s.games[ev.gameId], ev, ev.body.player.value)
  {
    var p := MeetsLegally(ph, t, evs, i, b);
    LegalRevealIsPlaying(p, b, evs[i]);
    RevealMovesOneSide(b, evs[i], s);
  }

  // ---------------------------------------------------------------- payouts

  /** The winner is on the row, and with it the amount its event announced. */
  ghost predicate PaidAsTold(g: Game, ev: Event)
    requires ev.body.Finished?
  {
    && g.status == STATUS_PAID && g.winner == ev.body.winner
    && (ev.body.totalGainings.Some? && ev.body.totalGainings.value > 0 ==> g.payout == ev.body.totalGainings)
    && (ev.body.totalGainings.None? && ev.body.legacyPayout.Some? && ev.body.legacyPayout.value > 0 ==>
          g.payout == ev.body.legacyPayout)
    && (ev.body.totalGainings.GetOr(0) <= 0 && ev.body.legacyPayout.GetOr(0) <= 0 ==> g.payout.None?)
  }

  lemma FinishPays(p: Phases, b: Tables, ev: Event, s: Tables)
    requires Legal(p, b, ev) && ev.body.Finished? && s == Try(b, ev, false, FAULT_FREE).tables
    ensures ev.gameId in s.games && PaidAsTold(s.games[ev.gameId], ev)
  {
    assert Matches(p[ev.gameId], b.games[ev.gameId]) && PlayersIn(b.games[ev.gameId], b.users);
    FinishedEnds(b, ev);
  }

  lemma PaidStays(s: Tables, z: Tables, ev: Event)
    requires ev.body.Finished? && ev.gameId in s.games && PaidAsTold(s.games[ev.gameId], ev) && Evolves(s, z)
    ensures ev.gameId in z.games && PaidAsTold(z.games[ev.gameId], ev)
  {
    assert Forward(s.games[ev.gameId], z.games[ev.gameId]);
  }

  /** A winner and the amount announced with it stay on the row for the rest of the history. */
  lemma PayoutIsKept(ph: Phases, t: Tables, evs: seq<Event>, i: nat, n: nat)
    requires Inv(ph, t) && ContractOrdered(ph, t, evs) && i < n <= |evs| && evs[i].body.Finished?
    ensures
      var g := Base(t, evs[..n]).games;
      evs[i].gameId in g && PaidAsTold(g[evs[i].gameId], evs[i])
  {
    var b, s := Base(t, evs[..i]), Base(t, evs[..i + 1]);
    var p := MeetsLegally(ph, t, evs, i, b);
    FinishPays(p, b, evs[i], s);
    Lifecycle(ph, t, evs, i + 1, n);
    PaidStays(s, Base(t, evs[..n]), evs[i]);
  }
}
