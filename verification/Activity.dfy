/**
 * The activity queues: every game a wallet should see is classified into one
 * of five queues, each sorted by latest activity and served in pages.
 */
module Activity {
  import opened Prelude
  import opened Tables
  import Handlers
  import Ledger
  import Story

  /** A game row with its id and the time of its latest activity. */
  datatype Row = Row(id: int, game: Game, latest: int)

  datatype Queue = Joinable | MyActive | RevealRequired | ExpiredAttention | History

  const SIDE_UNKNOWN := 0

  /** A request: the wallet, the normal form of addresses, and the spellings the repository looks for. */
  datatype View = View(wallet: Wallet, norm: Wallet -> Wallet, variants: set<Wallet>) {
    predicate Anonymous() {
      norm(wallet) == NO_WALLET
    }

    predicate Same(w: Wallet) {
      norm(w) == norm(wallet)
    }

    /** belongsToWallet: by normal form. */
    predicate Owns(g: Game) {
      Same(g.playerOne) || (g.playerTwo.Some? && Same(g.playerTwo.value))
    }

    /** buildPlayerAddressPredicate: by spelling. */
    predicate Finds(g: Game) {
      g.playerOne in variants || (g.playerTwo.Some? && g.playerTwo.value in variants)
    }

    predicate NeedsReveal(g: Game) {
      if Same(g.playerOne) then g.choiceOne == SIDE_CLOSED || g.choiceOne == SIDE_UNKNOWN
      else
        && g.playerTwo.Some? && Same(g.playerTwo.value)
        && (g.choiceTwo.None? || g.choiceTwo.value == SIDE_CLOSED || g.choiceTwo.value == SIDE_UNKNOWN)
    }

    /** buildPlayerItem */
    function PlayerQueue(g: Game): Option<Queue> {
      if g.status == STATUS_WAITING then Some(MyActive)
      else if g.status == STATUS_OPEN_BIDS then Some(if NeedsReveal(g) then RevealRequired else MyActive)
      else if g.status == STATUS_ENDED then Some(ExpiredAttention)
      else if g.status == STATUS_PAID then Some(History)
      else None
    }
  }

  predicate Live(g: Game) {
    STATUS_WAITING <= g.status <= STATUS_PAID
  }

  predicate Listed(v: View, r: Row, q: Queue) {
    if q.Joinable? then r.game.status == STATUS_WAITING && (v.Anonymous() || !v.Owns(r.game))
    else !v.Anonymous() && v.Finds(r.game) && v.PlayerQueue(r.game) == Some(q)
  }

  /** The rows of a queue in the order of the snapshot. */
  function Listing(v: View, rows: seq<Row>, q: Queue): seq<Row> {
    if rows == [] then [] else
    var n := |rows| - 1;
    Listing(v, rows[..n], q) + if Listed(v, rows[n], q) then [rows[n]] else []
  }

  /** A queue keeps the order in which the repository returned its games. */
  lemma {:induction false} ListingKeepsOrder(v: View, a: seq<Row>, b: seq<Row>, q: Queue)
    ensures Listing(v, a + b, q) == Listing(v, a, q) + Listing(v, b, q)
    decreases |b|
  {
    if b == [] {
      assert a + b == a;
    } else {
      var n, all := |b| - 1, a + b;
      ListingKeepsOrder(v, a, b[..n], q);
      assert all[..|all| - 1] == a + b[..n] && all[|all| - 1] == b[n];
    }
  }

  // ---------------------------------------------------------------- one queue for each game

  /** A live game of the wallet, or another game that waits for an opponent. */
  predicate Relevant(v: View, r: Row) {
    || (!v.Anonymous() && v.Owns(r.game) && Live(r.game))
    || (r.game.status == STATUS_WAITING && (v.Anonymous() || !v.Owns(r.game)))
  }

  /** In how many queues a row is. */
  function Copies(v: View, r: Row): nat {
    (if Listed(v, r, Joinable) then 1 else 0) + (if Listed(v, r, MyActive) then 1 else 0)
    + (if Listed(v, r, RevealRequired) then 1 else 0) + (if Listed(v, r, ExpiredAttention) then 1 else 0)
    + (if Listed(v, r, History) then 1 else 0)
  }

  /** The repository and the use case agree on whose game it is. */
  predicate Agrees(v: View, r: Row) {
    !v.Anonymous() && Live(r.game) ==> (v.Finds(r.game) <==> v.Owns(r.game))
  }

  lemma CopiesOfRow(v: View, r: Row)
    ensures Copies(v, r) == (if Relevant(v, r) then 1 else 0) <==> Agrees(v, r)
  {
  }

  /**
   * The queues partition the relevant games exactly when the repository finds
   * the same live games by spelling as the use case recognises by normal form.
   */
  lemma PartitionIff(v: View, rows: seq<Row>)
    ensures (forall i :: 0 <= i < |rows| ==> Copies(v, rows[i]) == if Relevant(v, rows[i]) then 1 else 0)
      <==> (forall i :: 0 <= i < |rows| ==> Agrees(v, rows[i]))
  {
    forall i | 0 <= i < |rows|
      ensures Copies(v, rows[i]) == (if Relevant(v, rows[i]) then 1 else 0) <==> Agrees(v, rows[i])
    {
      CopiesOfRow(v, rows[i]);
    }
  }

  function RelevantCount(v: View, rows: seq<Row>): nat {
    if rows == [] then 0 else
    RelevantCount(v, rows[..|rows| - 1]) + if Relevant(v, rows[|rows| - 1]) then 1 else 0
  }

  /** The five counts of the summary. */
  function TotalListed(v: View, rows: seq<Row>): nat {
    |Listing(v, rows, Joinable)| + |Listing(v, rows, MyActive)| + |Listing(v, rows, RevealRequired)|
    + |Listing(v, rows, ExpiredAttention)| + |Listing(v, rows, History)|
  }

  lemma {:induction false} CountsAddUp(v: View, rows: seq<Row>)
    requires forall i :: 0 <= i < |rows| ==> Agrees(v, rows[i])
    ensures TotalListed(v, rows) == RelevantCount(v, rows)
    decreases |rows|
  {
    if rows != [] {
      var n := |rows| - 1;
      CountsAddUp(v, rows[..n]);
      CopiesOfRow(v, rows[n]);
      assert TotalListed(v, rows) == TotalListed(v, rows[..n]) + Copies(v, rows[n]);
    }
  }

  // ---------------------------------------------------------------- where a game is during its life

  /** A new game waits in everybody else's joinable queue and among its creator's active games. */
  lemma AnnouncedGameQueues(v: View, ph: Ledger.Phases, t: Tables, ev: Event, r: Row)
    requires Ledger.Legal(ph, t, ev) && ev.body.Initialized? && ev.gameId in Handlers.Apply(t, ev).tables.games
    requires r.game == Handlers.Apply(t, ev).tables.games[ev.gameId]
    ensures
      var one := ev.body.playerOne.value;
      && (Listed(v, r, Joinable) <==> v.Anonymous() || v.norm(one) != v.norm(v.wallet))
      && (Listed(v, r, MyActive) <==> !v.Anonymous() && one in v.variants)
      && !Listed(v, r, RevealRequired) && !Listed(v, r, ExpiredAttention) && !Listed(v, r, History)
  {
    assert Handlers.Apply(t, ev) == Handlers.Try(t, ev, false, Handlers.FAULT_FREE);
  }

  /** Once joined it asks both players to reveal. */
  lemma JoinedGameQueues(v: View, ph: Ledger.Phases, t: Tables, ev: Event, r: Row, w: Wallet)
    requires Ledger.Legal(ph, t, ev) && ev.body.Started? && ev.gameId in Handlers.Apply(t, ev).tables.games
    requires r.game == Handlers.Apply(t, ev).tables.games[ev.gameId]
    requires w == r.game.playerOne || Some(w) == ev.body.playerTwo
    requires w in v.variants && v.norm(w) == v.norm(v.wallet) && v.norm(v.wallet) != NO_WALLET
    ensures Listed(v, r, RevealRequired) && !Listed(v, r, Joinable) && !Listed(v, r, MyActive) && !Listed(v, r, History)
  {
    assert Handlers.Apply(t, ev) == Handlers.Try(t, ev, false, Handlers.FAULT_FREE);
    assert Ledger.Matches(ph[ev.gameId], t.games[ev.gameId]);
  }

  /** A player who has revealed waits for the other one; only two players of one normal form are confused. */
  lemma RevealedGameQueues(v: View, ph: Ledger.Phases, t: Tables, ev: Event, r: Row, w: Wallet)
    requires Ledger.Legal(ph, t, ev) && ev.body.SecretOpened? && ev.gameId in Handlers.Apply(t, ev).tables.games
    requires r.game == Handlers.Apply(t, ev).tables.games[ev.gameId] && ev.body.player == Some(w)
    requires w in v.variants && v.norm(w) == v.norm(v.wallet) && v.norm(v.wallet) != NO_WALLET
    requires w != r.game.playerOne ==> v.norm(r.game.playerOne) != v.norm(w)
    ensures Listed(v, r, MyActive) && !Listed(v, r, RevealRequired) && !Listed(v, r, Joinable) && !Listed(v, r, History)
  {
    assert Handlers.Apply(t, ev) == Handlers.Try(t, ev, false, Handlers.FAULT_FREE);
    assert Ledger.Matches(ph[ev.gameId], t.games[ev.gameId]);
  }

  /** A result, a draw or a cancellation leaves the game paid. */
  lemma EndedIsPaid(ph: Ledger.Phases, t: Tables, ev: Event)
    requires Ledger.Legal(ph, t, ev) && (ev.body.Finished? || ev.body.Draw? || ev.body.Cancelled?)
    ensures
      var games := Handlers.Apply(t, ev).tables.games;
      ev.gameId in games && games[ev.gameId].status == 4
  {
    assert Handlers.Apply(t, ev) == Handlers.Try(t, ev, false, Handlers.FAULT_FREE);
    assert Ledger.Matches(ph[ev.gameId], t.games[ev.gameId]) && Ledger.PlayersIn(t.games[ev.gameId], t.users);
    match ev.body
    case Finished(_, _, _) => Story.FinishedEnds(t, ev);
    case Draw => Story.DrawEnds(t, ev);
    case Cancelled => Story.CancelEnds(t, ev);
  }

  /** Then it is history for whoever finds it, and for nobody anything else. */
  lemma PaidGameQueues(v: View, r: Row)
    requires r.game.status == 4
    ensures Listed(v, r, History) <==> !v.Anonymous() && v.Finds(r.game)
    ensures !Listed(v, r, Joinable) && !Listed(v, r, MyActive) && !Listed(v, r, RevealRequired) && !Listed(v, r, ExpiredAttention)
  {
  }

  /** No event marks a game as ended without paying it out, so no such history puts one up for attention. */
  lemma NothingExpires(v: View, ph: Ledger.Phases, t: Tables, r: Row)
    requires Ledger.Inv(ph, t) && r.id in t.games && r.game == t.games[r.id]
    ensures !Listed(v, r, ExpiredAttention)
  {
    assert Ledger.Matches(ph[r.id], t.games[r.id]);
  }

  /** A game with that status, from wherever it comes, does ask for attention. */
  lemma EndedUnpaidAsksForAttention(v: View, r: Row)
    requires r.game.status == 3 && !v.Anonymous() && v.Finds(r.game)
    ensures Listed(v, r, ExpiredAttention) && Copies(v, r) == 1
  {
  }

  /** Whose game it is does not depend on who came first. */
  lemma BothPlayersOwn(v: View, g: Game, w: Wallet)
    requires v.norm(w) == v.norm(v.wallet) && (g.playerOne == w || g.playerTwo == Some(w))
    ensures v.Owns(g) && (w in v.variants ==> v.Finds(g))
  {
  }

  // ---------------------------------------------------------------- the two queries

  datatype Query = ByStatus | ByPlayer

  /** GetByStatus(waiting) and GetByPlayerAndStatuses(all four). */
  predicate Selected(v: View, q: Query, r: Row) {
    if q.ByStatus? then r.game.status == STATUS_WAITING else v.Finds(r.game) && Live(r.game)
  }

  function Select(v: View, q: Query, rows: seq<Row>): seq<Row> {
    if rows == [] then [] else
    var n := |rows| - 1;
    Select(v, q, rows[..n]) + if Selected(v, q, rows[n]) then [rows[n]] else []
  }

  lemma {:induction false} SelectLosesNothing(v: View, q: Query, rows: seq<Row>, queue: Queue)
    requires q.ByStatus? <==> queue.Joinable?
    ensures Listing(v, Select(v, q, rows), queue) == Listing(v, rows, queue)
    decreases |rows|
  {
    if rows != [] {
      var n := |rows| - 1;
      SelectLosesNothing(v, q, rows[..n], queue);
      if Selected(v, q, rows[n]) {
        var s := Select(v, q, rows[..n]);
        assert (s + [rows[n]])[..|s|] == s;
      } else {
        assert Select(v, q, rows) == Select(v, q, rows[..n]) && !Listed(v, rows[n], queue);
      }
    }
  }

  type Queues = map<Queue, seq<Row>>

  const NO_QUEUES: Queues := map[Joinable := [], MyActive := [], RevealRequired := [], ExpiredAttention := [], History := []]

  ghost predicate Complete(queues: Queues) {
    forall q: Queue :: q in queues
  }

  lemma NoQueuesIsComplete()
    ensures Complete(NO_QUEUES) && forall q: Queue :: NO_QUEUES[q] == []
  {
    forall q: Queue
      ensures q in NO_QUEUES && NO_QUEUES[q] == []
    {
      match q {
        case Joinable =>
        case MyActive =>
        case RevealRequired =>
        case ExpiredAttention =>
        case History =>
      }
    }
  }

  method PopulateJoinable(v: View, rows: seq<Row>, queues: Queues) returns (r: Queues)
    requires Complete(queues)
    ensures Complete(r) && r[Joinable] == queues[Joinable] + Listing(v, rows, Joinable)
    ensures forall q :: q != Joinable ==> r[q] == queues[q]
  {
    var games := Select(v, ByStatus, rows);
    r := queues;
    for i := 0 to |games|
      invariant Complete(r) && r[Joinable] == queues[Joinable] + Listing(v, games[..i], Joinable)
      invariant forall q :: q != Joinable ==> r[q] == queues[q]
    {
      SelectedByStatus(v, rows, i);
      if v.Anonymous() || !v.Owns(games[i].game) {
        r := r[Joinable := r[Joinable] + [games[i]]];
      }
      assert games[..i + 1][..i] == games[..i];
    }
    assert games[..|games|] == games;
    SelectLosesNothing(v, ByStatus, rows, Joinable);
  }

  lemma {:induction false} AllSelected(v: View, q: Query, rows: seq<Row>, i: nat)
    requires i < |Select(v, q, rows)|
    ensures Selected(v, q, Select(v, q, rows)[i])
    decreases |rows|
  {
    if i < |Select(v, q, rows[..|rows| - 1])| {
      AllSelected(v, q, rows[..|rows| - 1], i);
    }
  }

  lemma SelectedByStatus(v: View, rows: seq<Row>, i: nat)
    requires i < |Select(v, ByStatus, rows)|
    ensures Select(v, ByStatus, rows)[i].game.status == STATUS_WAITING
  {
    AllSelected(v, ByStatus, rows, i);
  }

  method PopulatePlayer(v: View, rows: seq<Row>, queues: Queues) returns (r: Queues)
    requires Complete(queues)
    ensures Complete(r) && r[Joinable] == queues[Joinable]
    ensures forall q :: q != Joinable ==> r[q] == queues[q] + Listing(v, rows, q)
  {
    r := queues;
    if v.Anonymous() {
      NothingForAnonymous(v, rows);
      return;
    }
    var games := Select(v, ByPlayer, rows);
    for i := 0 to |games|
      invariant Complete(r) && r[Joinable] == queues[Joinable]
      invariant forall q :: q != Joinable ==> r[q] == queues[q] + Listing(v, games[..i], q)
    {
      AllSelected(v, ByPlayer, rows, i);
      var q := v.PlayerQueue(games[i].game);
      if q.Some? {
        r := r[q.value := r[q.value] + [games[i]]];
      }
      assert games[..i + 1][..i] == games[..i];
    }
    assert games[..|games|] == games;
    forall q | q != Joinable
      ensures Listing(v, games, q) == Listing(v, rows, q)
    {
      SelectLosesNothing(v, ByPlayer, rows, q);
    }
  }

  lemma {:induction false} NothingForAnonymous(v: View, rows: seq<Row>)
    requires v.Anonymous()
    ensures forall q :: q != Joinable ==> Listing(v, rows, q) == []
    decreases |rows|
  {
    if rows != [] {
      NothingForAnonymous(v, rows[..|rows| - 1]);
    }
  }

  // ---------------------------------------------------------------- stable sort

  ghost predicate NewestFirst(s: seq<Row>) {
    forall i, j :: 0 <= i < j < |s| ==> s[i].latest >= s[j].latest
  }

  /** The rows of one moment, in order. */
  function At(s: seq<Row>, t: int): seq<Row> {
    if s == [] then [] else (if s[0].latest == t then [s[0]] else []) + At(s[1..], t)
  }

  /** Sorted, and rows of the same moment keep the order they had. */
  ghost predicate StablySorted(s: seq<Row>, original: seq<Row>) {
    NewestFirst(s) && forall t :: At(s, t) == At(original, t)
  }

  lemma {:induction false} AtJoin(a: seq<Row>, b: seq<Row>, t: int)
    ensures At(a + b, t) == At(a, t) + At(b, t)
    decreases |a|
  {
    if a == [] {
      assert a + b == b;
    } else {
      var head := if a[0].latest == t then [a[0]] else [];
      AtJoin(a[1..], b, t);
      assert (a + b)[1..] == a[1..] + b && (a + b)[0] == a[0];
      assert At(a + b, t) == head + (At(a[1..], t) + At(b, t));
    }
  }

  lemma AtOne(x: Row, t: int)
    ensures At([x], t) == if x.latest == t then [x] else []
  {
    assert [x][1..] == [];
  }

  lemma {:induction false} AtCounts(s: seq<Row>, x: Row)
    ensures multiset(s)[x] == multiset(At(s, x.latest))[x]
    decreases |s|
  {
    if s != [] {
      AtCounts(s[1..], x);
      assert s == [s[0]] + s[1..];
    }
  }

  /** Nothing is lost or invented by the sort. */
  lemma StableSortPermutes(s: seq<Row>, original: seq<Row>)
    requires StablySorted(s, original)
    ensures multiset(s) == multiset(original)
  {
    forall x: Row
      ensures multiset(s)[x] == multiset(original)[x]
    {
      AtCounts(s, x);
      AtCounts(original, x);
    }
  }

  /** The first item of a queue is one with the latest activity. */
  lemma LatestComesFirst(s: seq<Row>, original: seq<Row>, x: Row)
    requires StablySorted(s, original) && x in original
    ensures s != [] && s[0].latest >= x.latest
  {
    StableSortPermutes(s, original);
    assert x in multiset(original);
    assert x in s;
    var i :| 0 <= i < |s| && s[i] == x;
  }

  lemma {:induction false} NewestIsFirst(s: seq<Row>, t: int)
    requires NewestFirst(s) && At(s, t) != []
    ensures s != [] && s[0].latest >= t
    ensures s[0].latest == t ==> At(s, t)[0] == s[0]
    decreases |s|
  {
    if s[0].latest != t {
      NewestIsFirst(s[1..], t);
      assert s[1..][0] == s[1];
    }
  }

  /** The order of a queue is determined by the snapshot. */
  lemma {:induction false} StableSortUnique(a: seq<Row>, b: seq<Row>)
    requires NewestFirst(a) && NewestFirst(b) && forall t :: At(a, t) == At(b, t)
    ensures a == b
    decreases |a|
  {
    assert b != [] ==> At(b, b[0].latest) != [] && At(a, b[0].latest) != [];
    if a != [] {
      NewestIsFirst(b, a[0].latest);
      assert At(b, b[0].latest) != [];
      NewestIsFirst(a, b[0].latest);
      assert a[0].latest == b[0].latest;
      assert a[0] == b[0];
      forall t
        ensures At(a[1..], t) == At(b[1..], t)
      {
        assert At(a, t) == At(b, t);
        var n := if a[0].latest == t then 1 else 0;
        assert At(a[1..], t) == At(a, t)[n..] && At(b[1..], t) == At(b, t)[n..];
      }
      StableSortUnique(a[1..], b[1..]);
    }
  }

  function Inserted(s: seq<Row>, k: nat, x: Row): seq<Row>
    requires k <= |s|
  {
    s[..k] + [x] + s[k..]
  }

  lemma SwapEmpty(a: seq<Row>, b: seq<Row>, c: seq<Row>)
    requires b == [] || c == []
    ensures a + b + c == a + c + b
  {
  }

  lemma InsertedBetween(a: seq<Row>, x: Row, b: seq<Row>, t: int)
    requires forall i :: 0 <= i < |b| ==> b[i].latest < x.latest
    ensures At(a + [x] + b, t) == At(a, t) + At(b, t) + At([x], t)
  {
    AtJoin(a + [x], b, t);
    AtJoin(a, [x], t);
    AtOne(x, t);
    if t == x.latest {
      OlderHaveNone(b, t);
    }
    SwapEmpty(At(a, t), At([x], t), At(b, t));
  }

  lemma InsertedAt(s: seq<Row>, k: nat, x: Row, t: int)
    requires k <= |s| && forall i :: k <= i < |s| ==> s[i].latest < x.latest
    ensures At(Inserted(s, k, x), t) == At(s, t) + At([x], t)
  {
    var a, b := s[..k], s[k..];
    InsertedBetween(a, x, b, t);
    AtJoin(a, b, t);
    assert s == a + b;
  }

  lemma InsertedIsSorted(s: seq<Row>, k: nat, x: Row)
    requires NewestFirst(s) && k <= |s|
    requires forall i :: 0 <= i < k ==> s[i].latest >= x.latest
    requires forall i :: k <= i < |s| ==> s[i].latest < x.latest
    ensures NewestFirst(Inserted(s, k, x))
  {
    var r := Inserted(s, k, x);
    forall i, j | 0 <= i < j < |r|
      ensures r[i].latest >= r[j].latest
    {
      assert r[i] == if i < k then s[i] else if i == k then x else s[i - 1];
      assert r[j] == if j < k then s[j] else if j == k then x else s[j - 1];
    }
  }

  /** Insert behind everything at least as recent. */
  method InsertStable(s: seq<Row>, x: Row) returns (r: seq<Row>)
    requires NewestFirst(s)
    ensures NewestFirst(r) && forall t :: At(r, t) == At(s, t) + At([x], t)
  {
    var k := 0;
    while k < |s| && s[k].latest >= x.latest
      invariant 0 <= k <= |s| && forall i :: 0 <= i < k ==> s[i].latest >= x.latest
    {
      k := k + 1;
    }
    r := Inserted(s, k, x);
    InsertedIsSorted(s, k, x);
    forall t
      ensures At(r, t) == At(s, t) + At([x], t)
    {
      InsertedAt(s, k, x, t);
    }
  }

  lemma {:induction false} OlderHaveNone(s: seq<Row>, t: int)
    requires forall i :: 0 <= i < |s| ==> s[i].latest < t
    ensures At(s, t) == []
    decreases |s|
  {
    if s != [] {
      OlderHaveNone(s[1..], t);
    }
  }

  /** sortActivityItems */
  method SortItems(items: seq<Row>) returns (r: seq<Row>)
    ensures StablySorted(r, items)
  {
    r := [];
    for i := 0 to |items|
      invariant StablySorted(r, items[..i])
    {
      ghost var before := r;
      r := InsertStable(r, items[i]);
      assert items[..i + 1] == items[..i] + [items[i]];
      forall t
        ensures At(r, t) == At(items[..i + 1], t)
      {
        AtJoin(items[..i], [items[i]], t);
        assert At(before, t) == At(items[..i], t);
      }
    }
    assert items[..|items|] == items;
  }

  // ---------------------------------------------------------------- pages

  function Page(items: seq<Row>, limit: nat, offset: nat): seq<Row> {
    if offset >= |items| then [] else items[offset..Min(offset + limit, |items|)]
  }

  function PagesFrom(items: seq<Row>, limit: nat, offset: nat): seq<Row>
    requires limit >= 1
    decreases |items| - offset
  {
    if offset >= |items| then [] else Page(items, limit, offset) + PagesFrom(items, limit, offset + limit)
  }

  /** The pages at offsets 0, L, 2L, ... together are the queue. */
  lemma {:induction false} PagesCoverQueue(items: seq<Row>, limit: nat, offset: nat)
    requires limit >= 1 && offset <= |items|
    ensures PagesFrom(items, limit, offset) == items[offset..]
    decreases |items| - offset
  {
    if offset + limit <= |items| && offset < |items| {
      PagesCoverQueue(items, limit, offset + limit);
    }
  }

  datatype Limits = Limits(default: int, max: int)

  /** The constructor's defaults, then the clamping of a request. */
  function NormalizeLimit(configured: Limits, limit: int): (r: nat)
    ensures r >= 1 && (configured.max >= configured.default >= 1 ==> r <= configured.max)
    ensures 1 <= limit <= configured.max ==> r == limit
    ensures limit <= 0 ==> r == configured.default || (configured.default <= 0 && r == 20)
    ensures limit > 0 ==> r <= limit && (r == limit || r == configured.max || (configured.max <= 0 && r == 100))
  {
    var default := if configured.default <= 0 then 20 else configured.default;
    var max := if configured.max <= 0 then 100 else configured.max;
    if limit <= 0 then default else if limit > max then max else limit
  }

  // ---------------------------------------------------------------- the calls

  method SortAll(filled: Queues) returns (queues: Queues)
    requires Complete(filled)
    ensures Complete(queues) && forall q :: StablySorted(queues[q], filled[q])
  {
    var a := SortItems(filled[Joinable]);
    var b := SortItems(filled[MyActive]);
    var c := SortItems(filled[RevealRequired]);
    var d := SortItems(filled[ExpiredAttention]);
    var e := SortItems(filled[History]);
    queues := map[Joinable := a, MyActive := b, RevealRequired := c, ExpiredAttention := d, History := e];
    forall q: Queue
      ensures q in queues && StablySorted(queues[q], filled[q])
    {
      match q {
        case Joinable =>
        case MyActive =>
        case RevealRequired =>
        case ExpiredAttention =>
        case History =>
      }
    }
  }

  /** buildQueues: each queue is the stable sort of its listing. */
  method BuildQueues(v: View, rows: seq<Row>) returns (queues: Queues)
    ensures Complete(queues)
    ensures forall q :: StablySorted(queues[q], Listing(v, rows, q))
  {
    NoQueuesIsComplete();
    var filled := PopulateJoinable(v, rows, NO_QUEUES);
    filled := PopulatePlayer(v, rows, filled);
    assert forall q :: filled[q] == Listing(v, rows, q);
    queues := SortAll(filled);
  }

  datatype Summary = Summary(joinable: nat, myActive: nat, revealRequired: nat, expired: nat, history: nat) {
    function Sum(): nat {
      joinable + myActive + revealRequired + expired + history
    }

    function Of(q: Queue): nat {
      match q
      case Joinable => joinable
      case MyActive => myActive
      case RevealRequired => revealRequired
      case ExpiredAttention => expired
      case History => history
    }
  }

  method Summarize(v: View, rows: seq<Row>, queues: Queues) returns (s: Summary)
    requires Complete(queues) && forall q :: StablySorted(queues[q], Listing(v, rows, q))
    ensures forall q :: s.Of(q) == |Listing(v, rows, q)|
    ensures s.Sum() == TotalListed(v, rows)
    ensures (forall i :: 0 <= i < |rows| ==> Agrees(v, rows[i])) ==> s.Sum() == RelevantCount(v, rows)
  {
    s := Summary(|queues[Joinable]|, |queues[MyActive]|, |queues[RevealRequired]|, |queues[ExpiredAttention]|, |queues[History]|);
    forall q: Queue
      ensures |queues[q]| == |Listing(v, rows, q)| == s.Of(q)
    {
      StableSortPermutes(queues[q], Listing(v, rows, q));
      assert |multiset(queues[q])| == |multiset(Listing(v, rows, q))|;
    }
    assert s.Sum() == s.Of(Joinable) + s.Of(MyActive) + s.Of(RevealRequired) + s.Of(ExpiredAttention) + s.Of(History);
    if forall i :: 0 <= i < |rows| ==> Agrees(v, rows[i]) {
      CountsAddUp(v, rows);
    }
  }

  datatype Reply = BadOffset | Reply(items: seq<Row>, total: nat, summary: Summary)

  /** GetQueue */
  method GetQueue(v: View, rows: seq<Row>, q: Queue, configured: Limits, limit: int, offset: int) returns (r: Reply)
    ensures r.BadOffset? <==> offset < 0
    ensures r.Reply? ==> r.total == |Listing(v, rows, q)|
    ensures r.Reply? ==> forall queue :: r.summary.Of(queue) == |Listing(v, rows, queue)|
    ensures r.Reply? ==> forall sorted :: StablySorted(sorted, Listing(v, rows, q)) ==>
      r.items == Page(sorted, NormalizeLimit(configured, limit), offset)
  {
    if offset < 0 {
      return BadOffset;
    }
    var queues := BuildQueues(v, rows);
    var summary := Summarize(v, rows, queues);
    var items := queues[q];
    StableSortPermutes(items, Listing(v, rows, q));
    assert |multiset(items)| == |multiset(Listing(v, rows, q))|;
    forall sorted | StablySorted(sorted, Listing(v, rows, q))
      ensures sorted == items
    {
      assert forall t :: At(items, t) == At(Listing(v, rows, q), t) == At(sorted, t);
      StableSortUnique(sorted, items);
    }
    r := Reply(Page(items, NormalizeLimit(configured, limit), offset), |items|, summary);
  }
}
