/**
 * The advisory lock tables: join, cancel and reveal reservations and expired
 * claims. All four keep entries by game and, beside them, a list of game ids
 * by wallet. The list is not exact, and the cap on a wallet's active entries
 * is enforced by counting along it.
 */
module Locks {
  import opened Prelude
  import opened Tables

  datatype Status = Active | Released | Expired

  datatype Entry = Entry(holder: Wallet, createdAt: int, expiresAt: int, status: Status) {
    predicate ExpiredAt(now: int) {
      now > expiresAt
    }

    predicate ActiveAt(now: int) {
      status.Active? && !ExpiredAt(now)
    }
  }

  datatype Table = Table(entries: map<int, Entry>, index: map<Wallet, seq<int>>) {
    predicate ActiveAt(g: int, now: int) {
      g in entries && entries[g].ActiveAt(now)
    }

    function Ids(key: Wallet): seq<int> {
      if key in index then index[key] else []
    }
  }

  const EMPTY_TABLE := Table(map[], map[])

  /**
   * `norm` is the normal form of an address; `keeps` says whether a release
   * leaves the entry in place with a new status (all but the cancel table).
   */
  datatype Policy = Policy(norm: Wallet -> Wallet, cap: nat, ttl: nat, keeps: bool)

  /** The active entries a wallet holds. */
  ghost function Held(p: Policy, t: Table, key: Wallet, now: int): set<int> {
    set g | g in t.entries && t.entries[g].ActiveAt(now) && p.norm(t.entries[g].holder) == key
  }

  /** Active entries along a list of ids, repeated ids and other wallets' entries included. */
  function CountActive(t: Table, ids: seq<int>, now: int): nat {
    if ids == [] then 0 else
    CountActive(t, ids[..|ids| - 1], now) + if t.ActiveAt(ids[|ids| - 1], now) then 1 else 0
  }

  // ---------------------------------------------------------------- elementary changes

  function PutOne(p: Policy, t: Table, g: int, holder: Wallet, at: int): Table {
    var key := p.norm(holder);
    Table(t.entries[g := Entry(holder, at, at + p.ttl, Active)], t.index[key := t.Ids(key) + [g]])
  }

  function PutAll(p: Policy, t: Table, games: seq<int>, holder: Wallet, at: int): Table {
    if games == [] then t
    else PutOne(p, PutAll(p, t, games[..|games| - 1], holder, at), games[|games| - 1], holder, at)
  }

  function RemoveFirst(ids: seq<int>, g: int): seq<int> {
    if ids == [] then [] else if ids[0] == g then ids[1..] else [ids[0]] + RemoveFirst(ids[1..], g)
  }

  /** removeFromWalletIndex: one occurrence goes, and an emptied list is dropped. */
  function Unindex(index: map<Wallet, seq<int>>, key: Wallet, g: int): map<Wallet, seq<int>> {
    var ids := RemoveFirst(if key in index then index[key] else [], g);
    if ids == [] then index - {key} else index[key := ids]
  }

  datatype Cause = ByHolder(wallet: Wallet) | ByAuthority | ByExpiry

  /**
   * Everything that ever happens to a table. Release with `keep` marks the
   * entry, without it deletes the entry; Purge deletes an entry that is no
   * longer active and leaves the index alone.
   */
  datatype Act =
    | Put(games: seq<int>, holder: Wallet)
    | Release(game: int, cause: Cause, keep: bool)
    | Purge(game: int)

  /** Room for all of `games` under the cap, and none of them taken. */
  predicate CanPut(p: Policy, t: Table, games: seq<int>, holder: Wallet, at: int) {
    && CountActive(t, t.Ids(p.norm(holder)), at) + |games| <= p.cap
    && forall i :: 0 <= i < |games| ==> !t.ActiveAt(games[i], at)
  }

  predicate Legal(p: Policy, t: Table, act: Act, at: int) {
    match act
    case Put(games, holder) => CanPut(p, t, games, holder, at)
    case Release(g, ByHolder(w), _) => t.ActiveAt(g, at) && p.norm(t.entries[g].holder) == p.norm(w)
    case Release(g, ByAuthority, _) => g in t.entries
    case Release(g, ByExpiry, _) => g in t.entries && t.entries[g].status.Active? && t.entries[g].ExpiredAt(at)
    case Purge(g) => g in t.entries && !t.entries[g].ActiveAt(at)
  }

  function Perform(p: Policy, t: Table, act: Act, at: int): Table {
    match act
    case Put(games, holder) => PutAll(p, t, games, holder, at)
    case Release(g, cause, keep) =>
      if g !in t.entries then t else
      Table(
        if keep then t.entries[g := t.entries[g].(status := if cause.ByExpiry? then Expired else Released)]
        else t.entries - {g},
        Unindex(t.index, p.norm(t.entries[g].holder), g))
    case Purge(g) => t.(entries := t.entries - {g})
  }

  // ---------------------------------------------------------------- runs

  datatype Timed = Timed(act: Act, at: int)

  function Run(p: Policy, t: Table, steps: seq<Timed>): Table {
    if steps == [] then t else
    var last := steps[|steps| - 1];
    Perform(p, Run(p, t, steps[..|steps| - 1]), last.act, last.at)
  }

  /** A run from time `now` to time `end`; the clock never goes back. */
  predicate LegalRun(p: Policy, t: Table, now: int, steps: seq<Timed>, end: int) {
    if steps == [] then now <= end else
    var last := steps[|steps| - 1];
    && LegalRun(p, t, now, steps[..|steps| - 1], last.at)
    && Legal(p, Run(p, t, steps[..|steps| - 1]), last.act, last.at)
    && last.at <= end
  }

  lemma WaitMore(p: Policy, t: Table, now: int, steps: seq<Timed>, end: int, later: int)
    requires LegalRun(p, t, now, steps, end) && end <= later
    ensures LegalRun(p, t, now, steps, later)
  {
  }

  lemma OneMore(p: Policy, t: Table, now: int, steps: seq<Timed>, end: int, act: Act, at: int)
    requires LegalRun(p, t, now, steps, end) && end <= at && Legal(p, Run(p, t, steps), act, at)
    ensures LegalRun(p, t, now, steps + [Timed(act, at)], at)
    ensures Run(p, t, steps + [Timed(act, at)]) == Perform(p, Run(p, t, steps), act, at)
  {
    var all := steps + [Timed(act, at)];
    assert all[..|all| - 1] == steps;
    WaitMore(p, t, now, steps, end, at);
  }

  // ---------------------------------------------------------------- the invariant

  /** The list of its holder covers every entry whose status is active, expired or not. */
  ghost predicate Covered(p: Policy, t: Table) {
    forall g :: g in t.entries && t.entries[g].status.Active? ==> g in t.Ids(p.norm(t.entries[g].holder))
  }

  ghost predicate Capped(p: Policy, t: Table, now: int) {
    forall key :: |Held(p, t, key, now)| <= p.cap
  }

  ghost predicate Inv(p: Policy, t: Table, now: int) {
    Covered(p, t) && Capped(p, t, now)
  }

  lemma SubsetSize<T>(a: set<T>, b: set<T>)
    requires a <= b
    ensures |a| <= |b|
  {
    assert b == a + (b - a);
  }

  ghost function ActiveIds(t: Table, ids: seq<int>, now: int): set<int> {
    set g | g in ids && t.ActiveAt(g, now)
  }

  lemma {:induction false} DistinctAtMostCounted(t: Table, ids: seq<int>, now: int)
    ensures |ActiveIds(t, ids, now)| <= CountActive(t, ids, now)
    decreases |ids|
  {
    if ids != [] {
      var n := |ids| - 1;
      DistinctAtMostCounted(t, ids[..n], now);
      assert ids == ids[..n] + [ids[n]];
      var before := ActiveIds(t, ids[..n], now);
      SubsetSize(ActiveIds(t, ids, now), if t.ActiveAt(ids[n], now) then before + {ids[n]} else before);
    }
  }

  /** Counting along the list never misses an entry the wallet holds. */
  lemma HeldIsCounted(p: Policy, t: Table, key: Wallet, now: int)
    requires Covered(p, t)
    ensures Held(p, t, key, now) <= ActiveIds(t, t.Ids(key), now)
    ensures |Held(p, t, key, now)| <= CountActive(t, t.Ids(key), now)
  {
    DistinctAtMostCounted(t, t.Ids(key), now);
    assert forall g :: g in Held(p, t, key, now) ==> g in ActiveIds(t, t.Ids(key), now);
    SubsetSize(Held(p, t, key, now), ActiveIds(t, t.Ids(key), now));
  }

  lemma HeldShrinks(p: Policy, t: Table, key: Wallet, now: int, later: int)
    requires now <= later
    ensures Held(p, t, key, later) <= Held(p, t, key, now)
  {
    assert forall g :: g in Held(p, t, key, later) ==> g in Held(p, t, key, now);
  }

  lemma WaitingKeeps(p: Policy, t: Table, now: int, later: int)
    requires Inv(p, t, now) && now <= later
    ensures Inv(p, t, later)
  {
    forall key
      ensures |Held(p, t, key, later)| <= p.cap
    {
      HeldShrinks(p, t, key, now, later);
      SubsetSize(Held(p, t, key, later), Held(p, t, key, now));
    }
  }

  // ---------------------------------------------------------------- reserving

  ghost predicate Reserved(p: Policy, t: Table, games: seq<int>, holder: Wallet, at: int, s: Table) {
    && (forall g :: g in s.entries <==> g in t.entries || g in games)
    && (forall g :: g in s.entries ==>
          s.entries[g] == if g in games then Entry(holder, at, at + p.ttl, Active) else t.entries[g])
    && (forall key :: key != p.norm(holder) ==> s.Ids(key) == t.Ids(key))
    && s.Ids(p.norm(holder)) == t.Ids(p.norm(holder)) + games
  }

  /** A batch, repeated ids included, makes every requested game the caller's and touches no other entry. */
  lemma {:induction false} PutAllReserves(p: Policy, t: Table, games: seq<int>, holder: Wallet, at: int)
    ensures Reserved(p, t, games, holder, at, PutAll(p, t, games, holder, at))
    decreases |games|
  {
    if games != [] {
      var n := |games| - 1;
      PutAllReserves(p, t, games[..n], holder, at);
      assert games == games[..n] + [games[n]];
    }
  }

  /** A reservation lasts for the configured time, the last instant included, and no longer. */
  lemma ReservedExactlyUntil(p: Policy, t: Table, games: seq<int>, holder: Wallet, at: int, g: int, now: int)
    requires g in games
    ensures PutAll(p, t, games, holder, at).ActiveAt(g, now) <==> now <= at + p.ttl
  {
    PutAllReserves(p, t, games, holder, at);
  }

  ghost function IdsOf(games: seq<int>): set<int> {
    set g | g in games
  }

  lemma {:induction false} IdsOfSize(games: seq<int>)
    ensures |IdsOf(games)| <= |games|
    decreases |games|
  {
    if games != [] {
      var n := |games| - 1;
      IdsOfSize(games[..n]);
      assert games == games[..n] + [games[n]];
      SubsetSize(IdsOf(games), IdsOf(games[..n]) + {games[n]});
    }
  }

  lemma PutCovers(p: Policy, t: Table, games: seq<int>, holder: Wallet, at: int, s: Table)
    requires Covered(p, t) && Reserved(p, t, games, holder, at, s)
    ensures Covered(p, s)
  {
    forall g | g in s.entries && s.entries[g].status.Active?
      ensures g in s.Ids(p.norm(s.entries[g].holder))
    {
    }
  }

  lemma PutCaps(p: Policy, t: Table, games: seq<int>, holder: Wallet, at: int, s: Table, key: Wallet)
    requires Inv(p, t, at) && CanPut(p, t, games, holder, at) && Reserved(p, t, games, holder, at, s)
    ensures |Held(p, s, key, at)| <= p.cap
  {
    var before, after := Held(p, t, key, at), Held(p, s, key, at);
    if key == p.norm(holder) {
      HeldIsCounted(p, t, key, at);
      IdsOfSize(games);
      assert forall g :: g in after ==> g in before + IdsOf(games);
      SubsetSize(after, before + IdsOf(games));
    } else {
      assert forall g :: g in after ==> g in before;
      SubsetSize(after, before);
    }
  }

  lemma PutKeeps(p: Policy, t: Table, games: seq<int>, holder: Wallet, at: int)
    requires Inv(p, t, at) && CanPut(p, t, games, holder, at)
    ensures Inv(p, PutAll(p, t, games, holder, at), at)
  {
    var s := PutAll(p, t, games, holder, at);
    PutAllReserves(p, t, games, holder, at);
    PutCovers(p, t, games, holder, at, s);
    forall key
      ensures |Held(p, s, key, at)| <= p.cap
    {
      PutCaps(p, t, games, holder, at, s, key);
    }
  }

  // ---------------------------------------------------------------- releasing

  lemma {:induction false} RemoveFirstKeepsOthers(ids: seq<int>, g: int, other: int)
    requires other != g && other in ids
    ensures other in RemoveFirst(ids, g)
  {
    if ids[0] != g && ids[0] != other {
      RemoveFirstKeepsOthers(ids[1..], g, other);
    }
  }

  /** One occurrence goes, the others stay, and so does their order. */
  lemma {:induction false} RemoveFirstTakesOne(ids: seq<int>, g: int)
    ensures multiset(RemoveFirst(ids, g)) == multiset(ids) - multiset{g}
    ensures g !in ids ==> RemoveFirst(ids, g) == ids
  {
    if ids != [] {
      assert ids == [ids[0]] + ids[1..];
      if ids[0] != g {
        RemoveFirstTakesOne(ids[1..], g);
      }
    }
  }

  /** Taking an id out of a wallet's list: one occurrence less, other lists untouched, and no list left empty. */
  lemma UnindexTakesOne(t: Table, key: Wallet, g: int, k: Wallet)
    ensures
      var s := Table(t.entries, Unindex(t.index, key, g));
      && multiset(s.Ids(k)) == (if k == key then multiset(t.Ids(k)) - multiset{g} else multiset(t.Ids(k)))
      && (key in s.index ==> s.index[key] != [])
  {
    RemoveFirstTakesOne(t.Ids(key), g);
  }

  lemma UnindexKeepsOthers(t: Table, key: Wallet, g: int, other: int, k: Wallet)
    requires other != g && other in t.Ids(k)
    ensures other in Table(t.entries, Unindex(t.index, key, g)).Ids(k)
  {
    if k == key {
      RemoveFirstKeepsOthers(t.Ids(key), g, other);
    }
  }

  /** Removing an id from one list can only uncover the entry that is released. */
  lemma ReleaseKeeps(p: Policy, t: Table, g: int, cause: Cause, keep: bool, at: int)
    requires Inv(p, t, at)
    ensures Inv(p, Perform(p, t, Release(g, cause, keep), at), at)
  {
    if g in t.entries {
      var s := Perform(p, t, Release(g, cause, keep), at);
      forall x | x in s.entries && s.entries[x].status.Active?
        ensures x in s.Ids(p.norm(s.entries[x].holder))
      {
        UnindexKeepsOthers(t, p.norm(t.entries[g].holder), g, x, p.norm(t.entries[x].holder));
      }
      forall key
        ensures |Held(p, s, key, at)| <= p.cap
      {
        SubsetSize(Held(p, s, key, at), Held(p, t, key, at));
      }
    }
  }

  lemma PurgeKeeps(p: Policy, t: Table, g: int, at: int)
    requires Inv(p, t, at)
    ensures Inv(p, Perform(p, t, Purge(g), at), at)
  {
    var s := Perform(p, t, Purge(g), at);
    assert forall x :: x in s.entries ==> t.entries[x] == s.entries[x] && s.Ids(p.norm(s.entries[x].holder)) == t.Ids(p.norm(t.entries[x].holder));
    forall key
      ensures |Held(p, s, key, at)| <= p.cap
    {
      SubsetSize(Held(p, s, key, at), Held(p, t, key, at));
    }
  }

  lemma ActKeeps(p: Policy, t: Table, act: Act, at: int)
    requires Inv(p, t, at) && Legal(p, t, act, at)
    ensures Inv(p, Perform(p, t, act, at), at)
  {
    match act
    case Put(games, holder) => PutKeeps(p, t, games, holder, at);
    case Release(g, cause, keep) => ReleaseKeeps(p, t, g, cause, keep, at);
    case Purge(g) => PurgeKeeps(p, t, g, at);
  }

  /**
   * In every reachable state of a lock table no wallet holds more active entries
   * than the cap, and the list of each wallet covers the entries it holds.
   */
  lemma {:induction false} CapHolds(p: Policy, t: Table, now: int, steps: seq<Timed>, end: int)
    requires Inv(p, t, now) && LegalRun(p, t, now, steps, end)
    ensures Inv(p, Run(p, t, steps), end)
    decreases |steps|
  {
    if steps == [] {
      WaitingKeeps(p, t, now, end);
    } else {
      var n := |steps| - 1;
      CapHolds(p, t, now, steps[..n], steps[n].at);
      ActKeeps(p, Run(p, t, steps[..n]), steps[n].act, steps[n].at);
      WaitingKeeps(p, Run(p, t, steps), steps[n].at, end);
    }
  }

  lemma EmptyTableIsConsistent(p: Policy, now: int)
    ensures Inv(p, EMPTY_TABLE, now)
  {
    forall key
      ensures |Held(p, EMPTY_TABLE, key, now)| <= p.cap
    {
      assert Held(p, EMPTY_TABLE, key, now) == {};
    }
  }

  // ---------------------------------------------------------------- the index is not exact

  /** The second wallet reserves the game after the first has expired but before a cleanup. */
  lemma Takeover(p: Policy, g: int, first: Wallet, second: Wallet, late: int) returns (steps: seq<Timed>, t: Table)
    requires p.cap >= 1 && p.norm(first) != p.norm(second) && late > p.ttl
    ensures LegalRun(p, EMPTY_TABLE, 0, steps, late) && Run(p, EMPTY_TABLE, steps) == t
    ensures t.entries == map[g := Entry(second, late, late + p.ttl, Active)]
    ensures t.index == map[p.norm(first) := [g], p.norm(second) := [g]]
  {
    var a, b := Put([g], first), Put([g], second);
    var t1 := PutOne(p, EMPTY_TABLE, g, first, 0);
    assert [g][..0] == [];
    assert PutAll(p, EMPTY_TABLE, [g], first, 0) == t1;
    OneMore(p, EMPTY_TABLE, 0, [], 0, a, 0);
    steps := [] + [Timed(a, 0)];
    assert [] + [g] == [g] && t1.Ids(p.norm(second)) == [];
    assert PutAll(p, t1, [g], second, late) == PutOne(p, t1, g, second, late);
    assert CountActive(t1, [], late) == 0;
    OneMore(p, EMPTY_TABLE, 0, steps, 0, b, late);
    steps := steps + [Timed(b, late)];
    t := PutOne(p, t1, g, second, late);
  }

  /**
   * The index is not exact: in a reachable state a wallet's list names an active
   * entry of somebody else, which listings return and which counts against its cap.
   */
  lemma IndexIsNotExact(p: Policy, g: int, first: Wallet, second: Wallet) returns (steps: seq<Timed>)
    requires p.cap >= 1 && p.norm(first) != p.norm(second)
    ensures
      var t, now := Run(p, EMPTY_TABLE, steps), p.ttl + 1;
      && LegalRun(p, EMPTY_TABLE, 0, steps, now)
      && g in t.Ids(p.norm(first)) && t.ActiveAt(g, now) && t.entries[g].holder == second
      && g !in Held(p, t, p.norm(first), now)
      && CountActive(t, t.Ids(p.norm(first)), now) == 1
  {
    var t: Table;
    steps, t := Takeover(p, g, first, second, p.ttl + 1);
    assert t.Ids(p.norm(first)) == [g] && [g][..0] == [];
    assert CountActive(t, [], p.ttl + 1) == 0;
  }

  // ---------------------------------------------------------------- when it is exact

  ghost predicate Distinct(ids: seq<int>) {
    forall i, j :: 0 <= i < j < |ids| ==> ids[i] != ids[j]
  }

  /** Every id on a list stands for one status-active entry of that wallet. */
  ghost predicate Exact(p: Policy, t: Table) {
    && (forall key :: Distinct(t.Ids(key)))
    && (forall key, g :: g in t.Ids(key) ==>
          g in t.entries && t.entries[g].status.Active? && p.norm(t.entries[g].holder) == key)
  }

  /** No reservation over an entry that is still marked active, no id requested twice, no purge of a marked entry. */
  ghost predicate Tidy(t: Table, act: Act) {
    match act
    case Put(games, _) => Distinct(games) && forall g :: g in games && g in t.entries ==> !t.entries[g].status.Active?
    case Release(_, _, _) => true
    case Purge(g) => g in t.entries ==> !t.entries[g].status.Active?
  }

  lemma DistinctJoin(a: seq<int>, b: seq<int>)
    requires Distinct(a) && Distinct(b) && forall x :: x in a ==> x !in b
    ensures Distinct(a + b)
  {
    var s := a + b;
    forall i, j | 0 <= i < j < |s|
      ensures s[i] != s[j]
    {
      if i < |a| <= j {
        assert s[i] in a && s[j] in b;
      }
    }
  }

  lemma {:induction false} RemoveFirstFromDistinct(ids: seq<int>, g: int)
    requires Distinct(ids)
    ensures Distinct(RemoveFirst(ids, g))
    ensures forall x :: x in RemoveFirst(ids, g) <==> x in ids && x != g
  {
    if ids != [] {
      assert ids == [ids[0]] + ids[1..];
      RemoveFirstFromDistinct(ids[1..], g);
      DistinctJoin([ids[0]], RemoveFirst(ids[1..], g));
    }
  }

  lemma TidyPut(p: Policy, t: Table, games: seq<int>, holder: Wallet, at: int, s: Table)
    requires Exact(p, t) && Tidy(t, Put(games, holder)) && Reserved(p, t, games, holder, at, s)
    ensures Exact(p, s)
  {
    forall key
      ensures Distinct(s.Ids(key))
    {
      assert Distinct(t.Ids(key));
      if key == p.norm(holder) {
        DistinctJoin(t.Ids(key), games);
      }
    }
  }

  lemma ReleasedIds(t: Table, key: Wallet, g: int, entries: map<int, Entry>, k: Wallet)
    requires Distinct(t.Ids(key))
    ensures
      var ids := Table(entries, Unindex(t.index, key, g)).Ids(k);
      if k == key then Distinct(ids) && (forall x :: x in ids <==> x in t.Ids(k) && x != g) else ids == t.Ids(k)
  {
    RemoveFirstFromDistinct(t.Ids(key), g);
  }

  /** Lists that only shrank, all of them without `g`, over entries that differ at `g` only. */
  lemma StillExact(p: Policy, t: Table, g: int, s: Table)
    requires Exact(p, t)
    requires forall k :: Distinct(s.Ids(k))
    requires forall k, x :: x in s.Ids(k) ==> x in t.Ids(k) && x != g
    requires forall x :: x in t.entries && x != g ==> x in s.entries && s.entries[x] == t.entries[x]
    ensures Exact(p, s)
  {
    forall k, x | x in s.Ids(k)
      ensures x in s.entries && s.entries[x].status.Active? && p.norm(s.entries[x].holder) == k
    {
      assert x in t.Ids(k) && x != g;
    }
  }

  lemma TidyRelease(p: Policy, t: Table, g: int, cause: Cause, keep: bool, at: int)
    requires Exact(p, t) && g in t.entries
    ensures Exact(p, Perform(p, t, Release(g, cause, keep), at))
  {
    var s := Perform(p, t, Release(g, cause, keep), at);
    var key := p.norm(t.entries[g].holder);
    assert s == Table(s.entries, Unindex(t.index, key, g));
    forall k
      ensures Distinct(s.Ids(k)) && forall x :: x in s.Ids(k) ==> x in t.Ids(k) && x != g
    {
      assert Distinct(t.Ids(key)) && Distinct(t.Ids(k));
      ReleasedIds(t, key, g, s.entries, k);
    }
    StillExact(p, t, g, s);
  }

  lemma TidyPurge(p: Policy, t: Table, g: int, at: int)
    requires Exact(p, t) && Tidy(t, Purge(g))
    ensures Exact(p, Perform(p, t, Purge(g), at))
  {
    var s := Perform(p, t, Purge(g), at);
    assert forall key :: s.Ids(key) == t.Ids(key);
  }

  // ---------------------------------------------------------------- and only then

  lemma RepeatsBreak(p: Policy, t: Table, games: seq<int>, holder: Wallet, at: int, s: Table)
    requires Reserved(p, t, games, holder, at, s) && !Distinct(games)
    ensures !Exact(p, s)
  {
    var key, n := p.norm(holder), |t.Ids(p.norm(holder))|;
    var i, j :| 0 <= i < j < |games| && games[i] == games[j];
    assert s.Ids(key)[n + i] == s.Ids(key)[n + j];
    assert !Distinct(s.Ids(key));
  }

  /** Whoever held the entry keeps an id that is no longer its own, or gets it twice. */
  lemma TakeoverBreaks(p: Policy, t: Table, games: seq<int>, holder: Wallet, at: int, s: Table, g: int)
    requires Covered(p, t) && Reserved(p, t, games, holder, at, s)
    requires g in games && g in t.entries && t.entries[g].status.Active?
    ensures !Exact(p, s)
  {
    var was, key := p.norm(t.entries[g].holder), p.norm(holder);
    assert g in t.Ids(was);
    if was == key {
      var i :| 0 <= i < |t.Ids(key)| && t.Ids(key)[i] == g;
      var j :| 0 <= j < |games| && games[j] == g;
      assert s.Ids(key)[i] == s.Ids(key)[|t.Ids(key)| + j];
      assert !Distinct(s.Ids(key));
    } else {
      assert g in s.Ids(was) && p.norm(s.entries[g].holder) == key;
    }
  }

  lemma PurgeBreaks(p: Policy, t: Table, g: int, at: int)
    requires Covered(p, t) && g in t.entries && t.entries[g].status.Active?
    ensures !Exact(p, Perform(p, t, Purge(g), at))
  {
    var s, key := Perform(p, t, Purge(g), at), p.norm(t.entries[g].holder);
    assert g in t.Ids(key) && s.Ids(key) == t.Ids(key) && g !in s.entries;
  }

  /** The exact condition for one step: a tidy step keeps the lists exact, any other breaks them. */
  lemma StepExactIff(p: Policy, t: Table, act: Act, at: int)
    requires Exact(p, t) && Covered(p, t) && Legal(p, t, act, at)
    ensures Exact(p, Perform(p, t, act, at)) <==> Tidy(t, act)
  {
    match act
    case Put(games, holder) =>
      var s := PutAll(p, t, games, holder, at);
      PutAllReserves(p, t, games, holder, at);
      if Tidy(t, act) {
        TidyPut(p, t, games, holder, at, s);
      } else if !Distinct(games) {
        RepeatsBreak(p, t, games, holder, at, s);
      } else {
        var g :| g in games && g in t.entries && t.entries[g].status.Active?;
        TakeoverBreaks(p, t, games, holder, at, s, g);
      }
    case Release(g, cause, keep) => TidyRelease(p, t, g, cause, keep, at);
    case Purge(g) =>
      if Tidy(t, act) {
        TidyPurge(p, t, g, at);
      } else {
        PurgeBreaks(p, t, g, at);
      }
  }

  /** Every step of the run is tidy in the state it meets. */
  ghost predicate TidyRun(p: Policy, t: Table, steps: seq<Timed>) {
    forall i :: 0 <= i < |steps| ==> Tidy(Run(p, t, steps[..i]), steps[i].act)
  }

  /** The lists are exact in every state of the run. */
  ghost predicate ExactThroughout(p: Policy, t: Table, steps: seq<Timed>) {
    forall i :: 0 <= i <= |steps| ==> Exact(p, Run(p, t, steps[..i]))
  }

  /** What the predicates on runs say of a run and the run without its last step. */
  lemma TidyRunSplits(p: Policy, t: Table, steps: seq<Timed>)
    requires steps != []
    ensures
      var before := steps[..|steps| - 1];
      TidyRun(p, t, steps) <==> TidyRun(p, t, before) && Tidy(Run(p, t, before), steps[|steps| - 1].act)
  {
    var before := steps[..|steps| - 1];
    assert forall i :: 0 <= i < |before| ==> before[..i] == steps[..i] && before[i] == steps[i];
  }

  lemma ExactThroughoutSplits(p: Policy, t: Table, steps: seq<Timed>)
    requires steps != []
    ensures
      var before := steps[..|steps| - 1];
      ExactThroughout(p, t, steps) <==> ExactThroughout(p, t, before) && Exact(p, Run(p, t, steps))
  {
    var before := steps[..|steps| - 1];
    assert forall i :: 0 <= i <= |before| ==> before[..i] == steps[..i];
    assert steps[..|steps|] == steps;
  }

  /**
   * Over whole runs: the lists are exact in every state if and only if nothing is
   * reserved over or purged while still marked active, and no id is requested
   * twice in a batch. The first step that is not tidy breaks them.
   */
  lemma {:induction false} ExactIffTidy(p: Policy, t: Table, now: int, steps: seq<Timed>, end: int)
    requires Exact(p, t) && Inv(p, t, now) && LegalRun(p, t, now, steps, end)
    ensures ExactThroughout(p, t, steps) <==> TidyRun(p, t, steps)
    decreases |steps|
  {
    if steps == [] {
      assert steps[..0] == [];
    } else {
      var n := |steps| - 1;
      var before := steps[..n];
      ExactIffTidy(p, t, now, before, steps[n].at);
      TidyRunSplits(p, t, steps);
      ExactThroughoutSplits(p, t, steps);
      if ExactThroughout(p, t, before) {
        assert before[..n] == before;
        assert Exact(p, Run(p, t, before));
        CapHolds(p, t, now, before, steps[n].at);
        StepExactIff(p, Run(p, t, before), steps[n].act, steps[n].at);
      }
    }
  }

  lemma EmptyTableIsExact(p: Policy)
    ensures Exact(p, EMPTY_TABLE)
  {
  }

  /** From the empty table on, the first step that is not tidy is the one that breaks the lists. */
  lemma FirstUntidyStepBreaks(p: Policy, now: int, steps: seq<Timed>, end: int)
    requires LegalRun(p, EMPTY_TABLE, now, steps, end) && steps != []
    requires
      var before := steps[..|steps| - 1];
      TidyRun(p, EMPTY_TABLE, before) && !Tidy(Run(p, EMPTY_TABLE, before), steps[|steps| - 1].act)
    ensures ExactThroughout(p, EMPTY_TABLE, steps[..|steps| - 1]) && !Exact(p, Run(p, EMPTY_TABLE, steps))
  {
    var n := |steps| - 1;
    EmptyTableIsExact(p);
    EmptyTableIsConsistent(p, now);
    ExactIffTidy(p, EMPTY_TABLE, now, steps[..n], steps[n].at);
    ExactIffTidy(p, EMPTY_TABLE, now, steps, end);
    TidyRunSplits(p, EMPTY_TABLE, steps);
    ExactThroughoutSplits(p, EMPTY_TABLE, steps);
  }

  /** With exact lists a listing is precisely what the wallet holds, and so is the count behind the cap. */
  lemma ExactListsAreHoldings(p: Policy, t: Table, key: Wallet, now: int)
    requires Covered(p, t) && Exact(p, t)
    ensures ActiveIds(t, t.Ids(key), now) == Held(p, t, key, now)
    ensures CountActive(t, t.Ids(key), now) == |Held(p, t, key, now)|
  {
    HeldIsCounted(p, t, key, now);
    assert forall g :: g in ActiveIds(t, t.Ids(key), now) ==> g in Held(p, t, key, now);
    assert ActiveIds(t, t.Ids(key), now) == Held(p, t, key, now);
    assert Distinct(t.Ids(key));
    CountOfDistinct(t, t.Ids(key), now);
  }

  lemma {:induction false} CountOfDistinct(t: Table, ids: seq<int>, now: int)
    requires Distinct(ids)
    ensures CountActive(t, ids, now) == |ActiveIds(t, ids, now)|
    decreases |ids|
  {
    if ids != [] {
      var n := |ids| - 1;
      CountOfDistinct(t, ids[..n], now);
      assert ids == ids[..n] + [ids[n]];
      var before, after := ActiveIds(t, ids[..n], now), ActiveIds(t, ids, now);
      if t.ActiveAt(ids[n], now) {
        assert forall g :: g in after <==> g in before + {ids[n]};
        assert after == before + {ids[n]};
      } else {
        assert forall g :: g in after <==> g in before;
        assert after == before;
      }
    }
  }

  // ---------------------------------------------------------------- the cancel table has no leftovers

  ghost predicate OnlyActive(t: Table) {
    forall g :: g in t.entries ==> t.entries[g].status.Active?
  }

  lemma {:induction false} NoLeftovers(p: Policy, t: Table, steps: seq<Timed>)
    requires OnlyActive(t) && forall i :: 0 <= i < |steps| ==> steps[i].act.Release? ==> !steps[i].act.keep
    ensures OnlyActive(Run(p, t, steps))
    decreases |steps|
  {
    if steps != [] {
      var n := |steps| - 1;
      assert forall i :: 0 <= i < n ==> steps[..n][i] == steps[i];
      NoLeftovers(p, t, steps[..n]);
      if steps[n].act.Put? {
        PutAllReserves(p, Run(p, t, steps[..n]), steps[n].act.games, steps[n].act.holder, steps[n].at);
      }
    }
  }

  // ---------------------------------------------------------------- exclusivity

  /** Released by its holder or by authority, not by expiry. */
  predicate Frees(act: Act, g: int) {
    act.Release? && act.game == g && !act.cause.ByExpiry?
  }

  predicate Takes(act: Act, g: int) {
    act.Put? && g in act.games
  }

  lemma HeldThroughAct(p: Policy, t: Table, act: Act, at: int, g: int)
    requires t.ActiveAt(g, at) && Legal(p, t, act, at) && !Frees(act, g)
    ensures !Takes(act, g)
    ensures g in Perform(p, t, act, at).entries && Perform(p, t, act, at).entries[g] == t.entries[g]
  {
    if act.Put? {
      PutAllReserves(p, t, act.games, act.holder, at);
    }
  }

  /**
   * From a reservation until it expires or is freed, through any other calls and
   * any cleanup, lookups return the same entry and nobody else can reserve the game.
   */
  lemma {:induction false} ExclusiveUntilRelease(p: Policy, t: Table, now: int, steps: seq<Timed>, end: int, g: int)
    requires LegalRun(p, t, now, steps, end) && t.ActiveAt(g, end)
    requires forall i :: 0 <= i < |steps| ==> !Frees(steps[i].act, g)
    ensures forall i :: 0 <= i < |steps| ==> !Takes(steps[i].act, g)
    ensures Run(p, t, steps).ActiveAt(g, end) && Run(p, t, steps).entries[g] == t.entries[g]
    decreases |steps|
  {
    if steps != [] {
      var n := |steps| - 1;
      assert t.ActiveAt(g, steps[n].at);
      ExclusiveUntilRelease(p, t, now, steps[..n], steps[n].at, g);
      HeldThroughAct(p, Run(p, t, steps[..n]), steps[n].act, steps[n].at, g);
      assert forall i :: 0 <= i < n ==> steps[..n][i] == steps[i];
    }
  }
}
