/**
 * The three tables written by blockchain ingestion (games, game_events, users)
 * and the SQL statements the repositories issue against them.
 *
 * A statement is a function from tables to tables. Row ids of game_events are
 * not part of a row here: handlers only ask whether the id written back into
 * the event is zero, so equality of tables is equality up to row ids.
 */
module Tables {
  import opened Prelude

  /** A wallet address as text; the empty text stands for "no wallet". */
  datatype Wallet = Address(text: string)

  const NO_WALLET := Address("")

  const STATUS_WAITING := 1
  const STATUS_OPEN_BIDS := 2
  const STATUS_ENDED := 3
  const STATUS_PAID := 4

  const SIDE_CLOSED := 1

  /** The protocol parameters copied from GameInitializedNotify. */
  datatype Terms = Terms(
    serviceFee: int, referrerFee: int, openBidSeconds: int, lowestBid: int,
    highestBid: int, minReferrerPayout: int, protocol: int, feeReceiver: string)

  /** Contents of a parsed notification; an absent field is None. */
  datatype Body =
    | Initialized(playerOne: Option<Wallet>, bet: Option<int>, choice: Option<int>, terms: Option<Terms>)
    | Started(playerTwo: Option<Wallet>)
    | Finished(winner: Option<Wallet>, totalGainings: Option<int>, legacyPayout: Option<int>)
    | Cancelled
    | Draw
    | SecretOpened(player: Option<Wallet>, coinSide: Option<int>)
    | InsufficientBalance

  datatype Kind =
    | InitializedKind | StartedKind | FinishedKind | CancelledKind
    | DrawKind | SecretOpenedKind | InsufficientBalanceKind

  /** The columns of constraint unique_event_per_tx. */
  datatype EventKey = EventKey(gameId: int, txHash: string, kind: Kind)

  datatype Event = Event(gameId: int, txHash: string, at: int, body: Body) {
    function Kind(): Kind {
      match body
      case Initialized(_, _, _, _) => InitializedKind
      case Started(_) => StartedKind
      case Finished(_, _, _) => FinishedKind
      case Cancelled => CancelledKind
      case Draw => DrawKind
      case SecretOpened(_, _) => SecretOpenedKind
      case InsufficientBalance => InsufficientBalanceKind
    }

    function Key(): EventKey {
      EventKey(gameId, txHash, Kind())
    }
  }

  /** When a column group was last written, and by which transaction. */
  datatype Stamp = Stamp(at: int, txHash: string)

  datatype Game = Game(
    status: int,
    playerOne: Wallet,
    playerTwo: Option<Wallet>,
    choiceOne: int,
    choiceTwo: Option<int>,
    bet: int,
    terms: Terms,
    winner: Option<Wallet>,
    payout: Option<int>,
    initTx: string,
    joined: Option<Stamp>,
    revealed: Option<Stamp>,
    completed: Option<Stamp>)
  {
    predicate HasPlayer(w: Wallet) {
      playerOne == w || playerTwo == Some(w)
    }

    predicate Over() {
      status == STATUS_ENDED || status == STATUS_PAID
    }
  }

  datatype Stats = Stats(played: nat, wins: nat, losses: nat)

  datatype Tables = Tables(
    games: map<int, Game>,
    events: map<EventKey, Event>,
    users: map<Wallet, Stats>)

  const EMPTY := Tables(map[], map[], map[])

  /** The pattern EQ followed by 46 URL-safe base64 characters. */
  predicate IsTonAddress(w: Wallet) {
    var s := w.text;
    && |s| == 48
    && s[0] == 'E' && s[1] == 'Q'
    && forall i :: 2 <= i < |s| ==>
      'A' <= s[i] <= 'Z' || 'a' <= s[i] <= 'z' || '0' <= s[i] <= '9' || s[i] == '_' || s[i] == '-'
  }

  // ---------------------------------------------------------------- users

  /** INSERT ... ON CONFLICT (wallet_address) DO NOTHING */
  function EnsureUser(t: Tables, w: Wallet): Tables {
    if w in t.users then t else t.(users := t.users[w := Stats(0, 0, 0)])
  }

  /** The three increments; an UPDATE of a wallet without a row touches nothing. */
  function BumpPlayed(t: Tables, w: Wallet): Tables {
    if w in t.users then t.(users := t.users[w := t.users[w].(played := t.users[w].played + 1)]) else t
  }

  function BumpWins(t: Tables, w: Wallet): Tables {
    if w in t.users then t.(users := t.users[w := t.users[w].(wins := t.users[w].wins + 1)]) else t
  }

  function BumpLosses(t: Tables, w: Wallet): Tables {
    if w in t.users then t.(users := t.users[w := t.users[w].(losses := t.users[w].losses + 1)]) else t
  }

  // ---------------------------------------------------------------- game_events

  /** ON CONFLICT ON CONSTRAINT unique_event_per_tx DO NOTHING */
  function InsertEvent(t: Tables, ev: Event): Tables {
    if ev.Key() in t.events then t else t.(events := t.events[ev.Key() := ev])
  }

  // ---------------------------------------------------------------- games

  /** What Game.Validate demands of the row built from a GameInitialized event. */
  predicate ValidNewGame(ev: Event, playerOne: Wallet, bet: int, choice: int) {
    && ev.gameId > 0
    && IsTonAddress(playerOne)
    && bet > 0
    && 0 <= choice <= 3
    && ev.txHash != ""
  }

  /** INSERT ... ON CONFLICT (game_id) DO NOTHING */
  function CreateOrIgnore(t: Tables, id: int, row: Game): Tables {
    if id in t.games then t else t.(games := t.games[id := row])
  }

  function NewGame(ev: Event, playerOne: Wallet, bet: int, choice: int, terms: Terms): Game {
    Game(STATUS_WAITING, playerOne, None, choice, None, bet, terms, None, None, ev.txHash, None, None, None)
  }

  function JoinGame(t: Tables, id: int, playerTwo: Wallet, stamp: Stamp): Tables {
    if id !in t.games then t else
    t.(games := t.games[id := t.games[id].(
      playerTwo := Some(playerTwo),
      joined := Some(stamp),
      status := STATUS_OPEN_BIDS,
      choiceOne := SIDE_CLOSED,
      choiceTwo := Some(SIDE_CLOSED))])
  }

  /** The UPDATE issued by RevealChoice once the player has been recognised. */
  function SetChoice(t: Tables, id: int, player: Wallet, side: int, stamp: Stamp): Tables {
    if id !in t.games then t else
    var g := t.games[id].(revealed := Some(stamp));
    t.(games := t.games[id :=
      if g.playerOne == player then g.(choiceOne := side) else g.(choiceTwo := Some(side))])
  }

  /** An empty winner and a payout that is not positive are written as NULL. */
  function CompleteGame(t: Tables, id: int, winner: Wallet, payout: int, stamp: Stamp): Tables {
    if id !in t.games then t else
    t.(games := t.games[id := t.games[id].(
      winner := if winner != NO_WALLET then Some(winner) else None,
      payout := if payout > 0 then Some(payout) else None,
      completed := Some(stamp),
      status := STATUS_PAID)])
  }

  function CancelGame(t: Tables, id: int, stamp: Stamp): Tables {
    if id !in t.games then t else
    t.(games := t.games[id := t.games[id].(
      status := STATUS_PAID,
      completed := Some(stamp),
      winner := None,
      payout := None)])
  }

  // ---------------------------------------------------------------- the statistics query

  /** Games counted by the FILTER clauses of GetByWalletAddress. */
  ghost function WonGames(t: Tables, w: Wallet): set<int> {
    set g | g in t.games && t.games[g].HasPlayer(w)
      && t.games[g].Over() && t.games[g].winner == Some(w)
  }

  ghost function LostGames(t: Tables, w: Wallet): set<int> {
    set g | g in t.games && t.games[g].HasPlayer(w)
      && t.games[g].Over()
      && t.games[g].winner.Some? && t.games[g].winner != Some(w)
  }

  ghost function PlayedGames(t: Tables, w: Wallet): set<int> {
    set g | g in t.games && t.games[g].HasPlayer(w)
      && t.games[g].Over()
      && !(t.games[g].winner.None? && t.games[g].payout.None?)
  }
}
