/**
 * The lock tables as programs: two maps changed in place under a mutex, with a
 * clock that may move between any two looks at it. Every call is a legal run of
 * elementary changes, so what Locks proves of all runs holds of all calls.
 */
module LockTable {
  import opened Prelude
  import opened Tables
  import opened Locks

  datatype Error = AlreadyReserved | TooMany | NotFound | NotHolder | WalletRequired | NothingRequested

  datatype Result<+T> = Ok(value: T) | Err(error: Error)

  /** time.Now, as seen by successive callers. */
  class Clock {
    var now: int

    constructor (now: int)
      ensures this.now == now
    {
      this.now := now;
    }

    method Read() returns (t: int)
      modifies this
      ensures old(now) <= now == t
    {
      var elapsed: int := *;
      if elapsed > 0 {
        now := now + elapsed;
      }
      t := now;
    }
  }

  // ---------------------------------------------------------------- counting while time passes

  lemma {:induction false} CountShrinks(t: Table, ids: seq<int>, now: int, later: int)
    requires now <= later
    ensures CountActive(t, ids, later) <= CountActive(t, ids, now)
    decreases |ids|
  {
    if ids != [] {
      CountShrinks(t, ids[..|ids| - 1], now, later);
    }
  }

  /** A removal loop that found the first occurrence at `i` has computed RemoveFirst. */
  lemma {:induction false} RemoveFirstAt(ids: seq<int>, g: int, i: nat)
    requires i <= |ids| && (forall j :: 0 <= j < i ==> ids[j] != g) && (i < |ids| ==> ids[i] == g)
    ensures RemoveFirst(ids, g) == if i == |ids| then ids else ids[..i] + ids[i + 1..]
    decreases |ids|
  {
    if i > 0 {
      RemoveFirstAt(ids[1..], g, i - 1);
      assert ids == [ids[0]] + ids[1..];
    }
  }

  /** Nothing but expiries and purges: no entry is freed early and none is taken. */
  ghost predicate Sweeping(steps: seq<Timed>) {
    forall i :: 0 <= i < |steps| ==>
      steps[i].act.Purge? || (steps[i].act.Release? && steps[i].act.cause.ByExpiry?)
  }

  /**
   * With `keys` still to visit: of what has been visited, everything inactive at
   * the start is gone and everything active now is untouched.
   */
  ghost predicate Swept(t: Table, keys: set<int>, start: int, s: Table, end: int) {
    && (forall g :: g in keys ==> g in s.entries)
    && (forall g :: g in s.entries ==> g in t.entries && s.entries[g] == t.entries[g])
    && (forall g :: g in s.entries && g !in keys ==> t.entries[g].ActiveAt(start))
    && (forall g :: t.ActiveAt(g, end) ==> g in s.entries)
  }

  /** The entry was taken out of its holder's list for having expired. */
  ghost predicate ReleasedIn(steps: seq<Timed>, g: int) {
    exists i :: 0 <= i < |steps| && steps[i].act.Release? && steps[i].act.game == g && steps[i].act.cause.ByExpiry?
  }

  /** With `keys` still to visit: every entry that was marked active and past its time when the cleanup began. */
  ghost predicate Unlisted(t: Table, keys: set<int>, start: int, steps: seq<Timed>) {
    forall g :: g in t.entries && g !in keys && t.entries[g].status.Active? && t.entries[g].ExpiredAt(start) ==>
      ReleasedIn(steps, g)
  }

  lemma ReleasedStays(steps: seq<Timed>, more: seq<Timed>, g: int)
    requires ReleasedIn(steps, g) || ReleasedIn(more, g)
    ensures ReleasedIn(steps + more, g)
  {
    var all := steps + more;
    if ReleasedIn(steps, g) {
      var i :| 0 <= i < |steps| && steps[i].act.Release? && steps[i].act.game == g && steps[i].act.cause.ByExpiry?;
      assert all[i] == steps[i];
    } else {
      var i :| 0 <= i < |more| && more[i].act.Release? && more[i].act.game == g && more[i].act.cause.ByExpiry?;
      assert all[|steps| + i] == more[i];
    }
  }

  lemma UnlistedOn(t: Table, keys: set<int>, g: int, start: int, steps: seq<Timed>, more: seq<Timed>)
    requires Unlisted(t, keys, start, steps) && g in t.entries
    requires t.entries[g].status.Active? && t.entries[g].ExpiredAt(start) ==> ReleasedIn(more, g)
    ensures Unlisted(t, keys - {g}, start, steps + more)
  {
    forall x | ReleasedIn(steps, x) || ReleasedIn(more, x)
      ensures ReleasedIn(steps + more, x)
    {
      ReleasedStays(steps, more, x);
    }
  }

  lemma UnlistedStays(t: Table, start: int, steps: seq<Timed>, more: seq<Timed>)
    requires Unlisted(t, {}, start, steps)
    ensures Unlisted(t, {}, start, steps + more)
  {
    forall x | ReleasedIn(steps, x)
      ensures ReleasedIn(steps + more, x)
    {
      ReleasedStays(steps, more, x);
    }
  }

  /** One turn of a cleanup: at most the visited entry goes, and only if it is not active. */
  ghost predicate Turned(v: Table, g: int, before: int, s: Table, end: int) {
    && (s.entries == v.entries || s.entries == v.entries - {g})
    && (v.ActiveAt(g, end) ==> g in s.entries)
    && (g in s.entries ==> v.ActiveAt(g, before))
  }

  lemma SweptOn(t: Table, keys: set<int>, g: int, start: int, v: Table, before: int, s: Table, end: int)
    requires Swept(t, keys, start, v, before) && g in keys && start <= before <= end && Turned(v, g, before, s, end)
    ensures Swept(t, keys - {g}, start, s, end)
  {
  }

  /** The first pass of the two-pass cleanup, with `keys` still to visit. */
  ghost predicate Marked(t: Table, keys: set<int>, start: int, stale: seq<int>, s: Table, end: int) {
    && s.entries.Keys == t.entries.Keys
    && (forall g :: g in keys ==> g in s.entries && s.entries[g] == t.entries[g])
    && (forall g :: g in stale ==> g in s.entries && g !in keys && !s.entries[g].ActiveAt(end) && !t.ActiveAt(g, end))
    && (forall g :: g in s.entries && g !in keys && g !in stale ==> s.entries[g] == t.entries[g] && t.ActiveAt(g, start))
  }

  lemma MarkedOn(
    t: Table, keys: set<int>, g: int, start: int, stale: seq<int>, v: Table, before: int, idle: bool, s: Table, end: int)
    requires Marked(t, keys, start, stale, v, before) && g in keys && start <= before <= end
    requires g in s.entries && s.entries == v.entries[g := s.entries[g]]
    requires idle ==> !s.entries[g].ActiveAt(end) && !v.entries[g].ActiveAt(end)
    requires !idle ==> s.entries[g] == v.entries[g] && s.entries[g].ActiveAt(end)
    ensures Marked(t, keys - {g}, start, if idle then stale + [g] else stale, s, end)
  {
  }

  lemma {:induction false} RunsCompose(p: Policy, t: Table, now: int, a: seq<Timed>, middle: int, b: seq<Timed>, end: int)
    requires LegalRun(p, t, now, a, middle) && LegalRun(p, Run(p, t, a), middle, b, end)
    ensures LegalRun(p, t, now, a + b, end) && Run(p, t, a + b) == Run(p, Run(p, t, a), b)
    decreases |b|
  {
    if b == [] {
      assert a + b == a;
      WaitMore(p, t, now, a, middle, end);
    } else {
      var n := |b| - 1;
      RunsCompose(p, t, now, a, middle, b[..n], b[n].at);
      assert (a + b)[..|a + b| - 1] == a + b[..n] && (a + b)[|a + b| - 1] == b[n];
    }
  }

  /** The steps of a cleanup so far. */
  ghost predicate Traced(p: Policy, t: Table, start: int, steps: seq<Timed>, s: Table, end: int) {
    LegalRun(p, t, start, steps, end) && s == Run(p, t, steps) && Sweeping(steps) && start <= end
  }

  lemma TracedOn(
    p: Policy, t: Table, start: int, steps: seq<Timed>, v: Table, before: int, more: seq<Timed>, s: Table, end: int)
    requires Traced(p, t, start, steps, v, before) && before <= end
    requires LegalRun(p, v, before, more, end) && s == Run(p, v, more) && Sweeping(more)
    ensures Traced(p, t, start, steps + more, s, end)
  {
    RunsCompose(p, t, start, steps, before, more, end);
  }

  lemma PutOneIsPutAll(p: Policy, t: Table, g: int, wallet: Wallet, at: int)
    ensures PutAll(p, t, [g], wallet, at) == PutOne(p, t, g, wallet, at)
  {
    assert [g][..0] == [];
  }

  /** The run that consists of one reservation. */
  lemma PutStep(p: Policy, t: Table, start: int, g: int, wallet: Wallet, at: int) returns (steps: seq<Timed>)
    requires start <= at && CanPut(p, t, [g], wallet, at)
    ensures steps == [Timed(Put([g], wallet), at)]
    ensures LegalRun(p, t, start, steps, at) && Run(p, t, steps) == PutOne(p, t, g, wallet, at)
  {
    PutOneIsPutAll(p, t, g, wallet, at);
    OneMore(p, t, start, [], at, Put([g], wallet), at);
    steps := [] + [Timed(Put([g], wallet), at)];
  }

  class LockTable {
    const policy: Policy
    const clock: Clock
    var entries: map<int, Entry>
    var index: map<Wallet, seq<int>>

    constructor (policy: Policy, clock: Clock)
      ensures this.policy == policy && this.clock == clock && Value() == EMPTY_TABLE
    {
      this.policy, this.clock, entries, index := policy, clock, map[], map[];
    }

    function Value(): Table
      reads this
    {
      Table(entries, index)
    }

    /** The call behaved as the run `steps` of elementary changes. */
    twostate predicate Ran(steps: seq<Timed>)
      reads this, clock
    {
      && LegalRun(policy, old(Value()), old(clock.now), steps, clock.now)
      && Value() == Run(policy, old(Value()), steps)
    }

    method IsExpired(e: Entry) returns (expired: bool)
      modifies clock
      ensures old(clock.now) <= clock.now && expired == e.ExpiredAt(clock.now)
    {
      var t := clock.Read();
      expired := t > e.expiresAt;
    }

    method IsActive(g: int) returns (active: bool)
      modifies clock
      ensures old(clock.now) <= clock.now && active == Value().ActiveAt(g, clock.now)
    {
      if g !in entries || !entries[g].status.Active? {
        return false;
      }
      var expired := IsExpired(entries[g]);
      active := !expired;
    }

    /** Walk a wallet's list; entries may expire while we count. */
    method ActiveCount(key: Wallet) returns (n: nat)
      modifies clock
      ensures old(clock.now) <= clock.now
      ensures CountActive(Value(), Value().Ids(key), clock.now) <= n
      ensures n <= CountActive(Value(), Value().Ids(key), old(clock.now))
    {
      var ids := if key in index then index[key] else [];
      n := 0;
      for i := 0 to |ids|
        invariant old(clock.now) <= clock.now
        invariant CountActive(Value(), ids[..i], clock.now) <= n <= CountActive(Value(), ids[..i], old(clock.now))
      {
        ghost var before := clock.now;
        var active := IsActive(ids[i]);
        if active {
          n := n + 1;
        }
        CountShrinks(Value(), ids[..i], before, clock.now);
        assert ids[..i + 1][..i] == ids[..i];
      }
      assert ids[..|ids|] == ids;
    }

    /** removeFromWalletIndex */
    method RemoveFromIndex(holder: Wallet, g: int)
      modifies this`index
      ensures index == Unindex(old(index), policy.norm(holder), g)
    {
      var key := policy.norm(holder);
      var ids := if key in index then index[key] else [];
      var i := 0;
      while i < |ids| && ids[i] != g
        invariant 0 <= i <= |ids| && forall j :: 0 <= j < i ==> ids[j] != g
      {
        i := i + 1;
      }
      RemoveFirstAt(ids, g, i);
      if i < |ids| {
        index := index[key := ids[..i] + ids[i + 1..]];
      }
      if key !in index || index[key] == [] {
        index := index - {key};
      }
    }

    // -------------------------------------------------------------- reserving

    /** The count along the wallet's list has reached the cap. */
    ghost predicate FullAt(wallet: Wallet, now: int)
      reads this
    {
      CountActive(Value(), Value().Ids(policy.norm(wallet)), now) >= policy.cap
    }

    /** The insertion shared by all tables: overwrite the entry, append to the wallet's list. */
    method Insert(g: int, wallet: Wallet, at: int)
      modifies this`entries, this`index
      ensures Value() == PutOne(policy, old(Value()), g, wallet, at)
    {
      var key := policy.norm(wallet);
      entries := entries[g := Entry(wallet, at, at + policy.ttl, Active)];
      index := index[key := (if key in index then index[key] else []) + [g]];
    }

    /** The cap check and the insertion that follow once the game is found free. */
    method Admit(g: int, wallet: Wallet) returns (ok: bool)
      modifies this`entries, this`index, clock
      ensures old(clock.now) <= clock.now
      ensures ok ==> Value() == PutOne(policy, old(Value()), g, wallet, clock.now)
      ensures ok ==> CountActive(old(Value()), old(Value()).Ids(policy.norm(wallet)), clock.now) < policy.cap
      ensures !ok ==> Value() == old(Value())
      ensures !ok ==> CountActive(Value(), Value().Ids(policy.norm(wallet)), old(clock.now)) >= policy.cap
    {
      var n := ActiveCount(policy.norm(wallet));
      ok := n < policy.cap;
      if ok {
        ghost var counted := clock.now;
        var now := clock.Read();
        CountShrinks(Value(), Value().Ids(policy.norm(wallet)), counted, now);
        Insert(g, wallet, now);
      }
    }

    /** The critical section of Reserve in the join and cancel tables. */
    method Reserve(g: int, wallet: Wallet) returns (r: Result<Entry>, ghost steps: seq<Timed>)
      modifies this`entries, this`index, clock
      ensures Ran(steps) && old(clock.now) <= clock.now
      ensures r.Ok? ==> CanPut(policy, old(Value()), [g], wallet, clock.now) && steps == [Timed(Put([g], wallet), clock.now)]
      ensures r.Ok? ==> g in entries && entries[g] == r.value == Entry(wallet, clock.now, clock.now + policy.ttl, Active)
      ensures r.Err? ==> !CanPut(policy, Value(), [g], wallet, old(clock.now)) && Value() == old(Value()) && steps == []
      ensures r.Err? ==> r.error.AlreadyReserved? || r.error.TooMany?
      ensures r == Err(AlreadyReserved) <==> old(Value()).ActiveAt(g, clock.now)
      ensures r == Err(TooMany) ==> FullAt(wallet, old(clock.now))
    {
      ghost var t, start := Value(), clock.now;
      steps := [];
      var taken := IsActive(g);
      ghost var looked := clock.now;
      if taken {
        assert [g][0] == g;
        return Err(AlreadyReserved), [];
      }
      var ok := Admit(g, wallet);
      if !ok {
        CountShrinks(t, t.Ids(policy.norm(wallet)), start, looked);
        return Err(TooMany), [];
      }
      steps := PutStep(policy, t, start, g, wallet, clock.now);
      r := Ok(entries[g]);
    }

    /** Are all of the games free? */
    method NoneActive(games: seq<int>) returns (free: bool)
      modifies clock
      ensures old(clock.now) <= clock.now
      ensures free ==> forall i :: 0 <= i < |games| ==> !Value().ActiveAt(games[i], clock.now)
      ensures !free ==> exists i :: 0 <= i < |games| && Value().ActiveAt(games[i], clock.now)
    {
      for i := 0 to |games|
        invariant old(clock.now) <= clock.now
        invariant forall j :: 0 <= j < i ==> !Value().ActiveAt(games[j], clock.now)
      {
        var active := IsActive(games[i]);
        if active {
          return false;
        }
      }
      free := true;
    }

    /** Create an entry for each game, all with the same time. */
    method InsertAll(games: seq<int>, wallet: Wallet, at: int)
      modifies this`entries, this`index
      ensures Value() == PutAll(policy, old(Value()), games, wallet, at)
    {
      for i := 0 to |games|
        invariant Value() == PutAll(policy, old(Value()), games[..i], wallet, at)
      {
        Insert(games[i], wallet, at);
        assert games[..i + 1][..i] == games[..i];
      }
      assert games[..|games|] == games;
    }

    /**
     * ReserveBatch of the reveal table. All or nothing: an error leaves both maps
     * as they were; success gives every requested game to the caller, leaves every
     * other entry alone and has displaced no active one.
     */
    method ReserveBatch(games: seq<int>, wallet: Wallet) returns (r: Result<seq<int>>, ghost steps: seq<Timed>)
      modifies this`entries, this`index, clock
      ensures Ran(steps) && old(clock.now) <= clock.now
      ensures r.Err? ==> Value() == old(Value()) && steps == []
      ensures r.Err? ==> games == [] || policy.norm(wallet) == NO_WALLET || !CanPut(policy, Value(), games, wallet, old(clock.now))
      ensures r.Ok? ==> CanPut(policy, old(Value()), games, wallet, clock.now)
      ensures r.Ok? ==> Reserved(policy, old(Value()), games, wallet, clock.now, Value())
      ensures r.Ok? ==> steps == [Timed(Put(games, wallet), clock.now)]
      ensures r.Ok? ==> r.value == games
      ensures r == Err(NothingRequested) <==> games == []
      ensures r == Err(WalletRequired) <==> games != [] && policy.norm(wallet) == NO_WALLET
      ensures r.Err? ==> !r.error.NotFound? && !r.error.NotHolder?
      ensures r == Err(TooMany) ==>
        CountActive(Value(), Value().Ids(policy.norm(wallet)), old(clock.now)) + |games| > policy.cap
      ensures r == Err(AlreadyReserved) ==> exists i :: 0 <= i < |games| && Value().ActiveAt(games[i], clock.now)
      ensures r == Err(AlreadyReserved) ==>
        CountActive(Value(), Value().Ids(policy.norm(wallet)), clock.now) + |games| <= policy.cap
    {
      ghost var t, start := Value(), clock.now;
      steps := [];
      if games == [] {
        return Err(NothingRequested), [];
      }
      if policy.norm(wallet) == NO_WALLET {
        return Err(WalletRequired), [];
      }
      var n := ActiveCount(policy.norm(wallet));
      if n + |games| > policy.cap {
        return Err(TooMany), [];
      }
      ghost var counted := clock.now;
      var free := NoneActive(games);
      CountShrinks(t, t.Ids(policy.norm(wallet)), counted, clock.now);
      if !free {
        return Err(AlreadyReserved), [];
      }
      var now := clock.Read();
      CountShrinks(t, t.Ids(policy.norm(wallet)), counted, now);
      InsertAll(games, wallet, now);
      PutAllReserves(policy, t, games, wallet, now);
      OneMore(policy, t, start, [], now, Put(games, wallet), now);
      steps := [] + [Timed(Put(games, wallet), now)];
      r := Ok(games);
    }

    /** Claim of the expired-claim table: as Reserve, but the holder gets its active claim back. */
    method Claim(g: int, wallet: Wallet) returns (r: Result<Entry>, ghost steps: seq<Timed>)
      modifies this`entries, this`index, clock
      ensures Ran(steps) && old(clock.now) <= clock.now
      ensures steps == [] ==> Value() == old(Value())
      ensures r.Ok? ==> g in entries && entries[g] == r.value && r.value.status.Active?
      ensures r.Ok? ==> policy.norm(r.value.holder) == policy.norm(wallet)
      ensures r.Ok? && steps == [] ==> old(Value()).ActiveAt(g, old(clock.now))
      ensures r.Ok? && steps != [] ==>
        steps == [Timed(Put([g], wallet), clock.now)] && !old(Value()).ActiveAt(g, clock.now)
      ensures r.Err? ==> steps == []
      ensures policy.norm(wallet) != NO_WALLET && old(Value()).ActiveAt(g, clock.now) ==>
        && steps == []
        && r == if policy.norm(old(entries)[g].holder) == policy.norm(wallet) then Ok(old(entries)[g]) else Err(AlreadyReserved)
      ensures r == Err(AlreadyReserved) ==> old(Value()).ActiveAt(g, clock.now)
      ensures r == Err(TooMany) ==> !old(Value()).ActiveAt(g, clock.now) && FullAt(wallet, old(clock.now))
      ensures r == Err(WalletRequired) <==> policy.norm(wallet) == NO_WALLET
      ensures r.Err? ==> r.error.AlreadyReserved? || r.error.TooMany? || r.error.WalletRequired?
    {
      steps := [];
      if policy.norm(wallet) == NO_WALLET {
        return Err(WalletRequired), [];
      }
      ghost var t, start := Value(), clock.now;
      var taken := IsActive(g);
      ghost var looked := clock.now;
      if taken {
        var same := policy.norm(entries[g].holder) == policy.norm(wallet);
        r := if same then Ok(entries[g]) else Err(AlreadyReserved);
        return;
      }
      var ok := Admit(g, wallet);
      if !ok {
        CountShrinks(t, t.Ids(policy.norm(wallet)), start, looked);
        return Err(TooMany), [];
      }
      steps := PutStep(policy, t, start, g, wallet, clock.now);
      r := Ok(entries[g]);
    }

    // -------------------------------------------------------------- releasing

    /** Mark or delete the entry and take one occurrence out of its holder's list. */
    method Drop(g: int, cause: Cause, keep: bool)
      requires g in entries
      modifies this`entries, this`index
      ensures Value() == Perform(policy, old(Value()), Release(g, cause, keep), clock.now)
      ensures entries == if keep
        then old(entries)[g := old(entries)[g].(status := if cause.ByExpiry? then Locks.Expired else Released)]
        else old(entries) - {g}
    {
      var e := entries[g];
      RemoveFromIndex(e.holder, g);
      if keep {
        entries := entries[g := e.(status := if cause.ByExpiry? then Locks.Expired else Released)];
      } else {
        entries := entries - {g};
      }
    }

    /** Cancel (Release for claims): only the holder of an active entry. */
    method Cancel(g: int, wallet: Wallet) returns (r: Result<()>, ghost steps: seq<Timed>)
      modifies this`entries, this`index, clock
      ensures Ran(steps) && old(clock.now) <= clock.now
      ensures r.Ok? ==> steps == [Timed(Release(g, ByHolder(wallet), policy.keeps), clock.now)] && !Value().ActiveAt(g, clock.now)
      ensures r.Err? ==> steps == [] && Value() == old(Value())
      ensures r.Err? ==> r.error.NotFound? || r.error.NotHolder?
      ensures r == Err(NotFound) <==> !old(Value()).ActiveAt(g, clock.now)
      ensures r == Err(NotHolder) <==>
        old(Value()).ActiveAt(g, clock.now) && policy.norm(old(entries)[g].holder) != policy.norm(wallet)
    {
      ghost var t, start := Value(), clock.now;
      steps := [];
      var active := IsActive(g);
      if !active {
        return Err(NotFound), [];
      }
      if policy.norm(entries[g].holder) != policy.norm(wallet) {
        return Err(NotHolder), [];
      }
      ghost var act, now := Release(g, ByHolder(wallet), policy.keeps), clock.now;
      assert Legal(policy, t, act, now);
      Drop(g, ByHolder(wallet), policy.keeps);
      OneMore(policy, t, start, [], now, act, now);
      steps := [] + [Timed(act, now)];
      r := Ok(());
    }

    /** ReleaseOnJoin, ReleaseOnUnavailable, ReleaseOnTerminal, ReleaseOnResolved. */
    method ReleaseOnProgress(g: int) returns (ghost steps: seq<Timed>)
      modifies this`entries, this`index, clock
      ensures Ran(steps) && old(clock.now) <= clock.now
      ensures !Value().ActiveAt(g, clock.now)
      ensures old(Value()).ActiveAt(g, clock.now) ==> steps == [Timed(Release(g, ByAuthority, policy.keeps), clock.now)]
      ensures !old(Value()).ActiveAt(g, clock.now) ==> steps == [] && Value() == old(Value())
    {
      ghost var t, start := Value(), clock.now;
      steps := [];
      var active := IsActive(g);
      if active {
        ghost var act := Release(g, ByAuthority, policy.keeps);
        assert Legal(policy, t, act, clock.now);
        Drop(g, ByAuthority, policy.keeps);
        OneMore(policy, t, start, [], clock.now, act, clock.now);
        steps := [] + [Timed(act, clock.now)];
      }
    }

    /** releaseStaleReservation: delete whatever is there. */
    method ReleaseStale(g: int) returns (ghost steps: seq<Timed>)
      modifies this`entries, this`index
      ensures Ran(steps) && g !in entries
      ensures g in old(entries) ==> steps == [Timed(Release(g, ByAuthority, false), clock.now)]
      ensures g !in old(entries) ==> steps == [] && Value() == old(Value())
    {
      ghost var t := Value();
      steps := [];
      if g in entries {
        ghost var act := Release(g, ByAuthority, false);
        assert Legal(policy, t, act, clock.now);
        Drop(g, ByAuthority, false);
        OneMore(policy, t, clock.now, [], clock.now, act, clock.now);
        steps := [] + [Timed(act, clock.now)];
      }
    }

    // -------------------------------------------------------------- cleanup

    /** Mark or delete the entry if its time is up. */
    method Expire(g: int, keep: bool) returns (due: bool, ghost steps: seq<Timed>)
      requires g in entries
      modifies this`entries, this`index, clock
      ensures Ran(steps) && old(clock.now) <= clock.now && Sweeping(steps)
      ensures due == (old(entries)[g].status.Active? && old(entries)[g].ExpiredAt(clock.now))
      ensures due && keep ==> entries == old(entries)[g := old(entries)[g].(status := Locks.Expired)]
      ensures due && !keep ==> entries == old(entries) - {g}
      ensures !due ==> Value() == old(Value())
      ensures due ==> ReleasedIn(steps, g)
    {
      ghost var t, start := Value(), clock.now;
      steps := [];
      due := false;
      if entries[g].status.Active? {
        due := IsExpired(entries[g]);
        if due {
          ghost var act := Release(g, ByExpiry, keep);
          assert Legal(policy, t, act, clock.now);
          Drop(g, ByExpiry, keep);
          OneMore(policy, t, start, [], clock.now, act, clock.now);
          steps := [] + [Timed(act, clock.now)];
          assert steps[0].act == act;
        }
      }
    }

    /** Delete the entry if it is not active. */
    method Reclaim(g: int) returns (ghost steps: seq<Timed>)
      requires g in entries
      modifies this`entries, clock
      ensures Ran(steps) && old(clock.now) <= clock.now && Sweeping(steps)
      ensures index == old(index)
      ensures entries == if old(entries)[g].ActiveAt(clock.now) then old(entries) else old(entries) - {g}
    {
      ghost var t, start := Value(), clock.now;
      steps := [];
      var active := IsActive(g);
      if !active {
        entries := entries - {g};
        OneMore(policy, t, start, [], clock.now, Purge(g), clock.now);
        steps := [] + [Timed(Purge(g), clock.now)];
      }
    }

    /** One turn of the cleanup loop of the reveal and claim tables. */
    method ExpireAndReclaim(g: int) returns (ghost steps: seq<Timed>)
      requires g in entries
      modifies this`entries, this`index, clock
      ensures Ran(steps) && old(clock.now) <= clock.now && Sweeping(steps)
      ensures Turned(old(Value()), g, old(clock.now), Value(), clock.now)
      ensures old(entries)[g].status.Active? && old(entries)[g].ExpiredAt(old(clock.now)) ==> ReleasedIn(steps, g)
    {
      ghost var t, start := Value(), clock.now;
      var due, expiring := Expire(g, true);
      ghost var between := clock.now;
      var reclaiming := Reclaim(g);
      RunsCompose(policy, t, start, expiring, between, reclaiming, clock.now);
      steps := expiring + reclaiming;
      if due {
        ReleasedStays(expiring, reclaiming, g);
      }
    }

    /** cleanupExpired of the reveal and claim tables: one pass, in whatever order the map is walked. */
    method Cleanup() returns (ghost steps: seq<Timed>)
      modifies this`entries, this`index, clock
      ensures Ran(steps) && Sweeping(steps)
      ensures Unlisted(old(Value()), {}, old(clock.now), steps)
      ensures Swept(old(Value()), {}, old(clock.now), Value(), clock.now)
    {
      ghost var t, start := Value(), clock.now;
      steps := [];
      var keys := entries.Keys;
      while keys != {}
        invariant Traced(policy, t, start, steps, Value(), clock.now)
        invariant Swept(t, keys, start, Value(), clock.now)
        invariant Unlisted(t, keys, start, steps)
        decreases |keys|
      {
        var g := Pick(keys);
        ghost var before, v := clock.now, Value();
        var more := ExpireAndReclaim(g);
        TracedOn(policy, t, start, steps, v, before, more, Value(), clock.now);
        SweptOn(t, keys, g, start, v, before, Value(), clock.now);
        UnlistedOn(t, keys, g, start, steps, more);
        steps := steps + more;
        keys := keys - {g};
      }
    }

    /** CleanupExpired of the cancel table: an expired entry is deleted at once; that table has no others to remove. */
    method CleanupByDeleting() returns (ghost steps: seq<Timed>)
      modifies this`entries, this`index, clock
      ensures Ran(steps) && Sweeping(steps)
      ensures Unlisted(old(Value()), {}, old(clock.now), steps)
      ensures OnlyActive(old(Value())) ==> Swept(old(Value()), {}, old(clock.now), Value(), clock.now)
    {
      ghost var t, start := Value(), clock.now;
      steps := [];
      var keys := entries.Keys;
      while keys != {}
        invariant Traced(policy, t, start, steps, Value(), clock.now)
        invariant keys <= entries.Keys && (OnlyActive(t) ==> Swept(t, keys, start, Value(), clock.now))
        invariant keys <= t.entries.Keys && forall x :: x in keys ==> x in entries && entries[x] == t.entries[x]
        invariant Unlisted(t, keys, start, steps)
        decreases |keys|
      {
        var g := Pick(keys);
        ghost var before, v := clock.now, Value();
        var due, more := Expire(g, false);
        TracedOn(policy, t, start, steps, v, before, more, Value(), clock.now);
        if OnlyActive(t) {
          SweptOn(t, keys, g, start, v, before, Value(), clock.now);
        }
        UnlistedOn(t, keys, g, start, steps, more);
        steps := steps + more;
        keys := keys - {g};
      }
    }

    /** CleanupExpired of the join table: mark and collect in one pass, delete in a second. */
    method CleanupInTwoPasses() returns (ghost steps: seq<Timed>)
      modifies this`entries, this`index, clock
      ensures Ran(steps) && Sweeping(steps)
      ensures Unlisted(old(Value()), {}, old(clock.now), steps)
      ensures Swept(old(Value()), {}, old(clock.now), Value(), clock.now)
    {
      ghost var t, start := Value(), clock.now;
      var stale: seq<int>;
      stale, steps := MarkAndCollect();
      ghost var marked, now := Value(), clock.now;
      var purging := Delete(stale);
      TracedOn(policy, t, start, steps, marked, now, purging, Value(), now);
      UnlistedStays(t, start, steps, purging);
      steps := steps + purging;
    }

    method Delete(stale: seq<int>) returns (ghost steps: seq<Timed>)
      requires forall g :: g in stale && g in entries ==> !entries[g].ActiveAt(clock.now)
      modifies this`entries
      ensures Ran(steps) && Sweeping(steps)
      ensures index == old(index) && entries == old(entries) - IdsOf(stale)
    {
      ghost var t := Value();
      steps := [];
      for i := 0 to |stale|
        invariant Traced(policy, t, clock.now, steps, Value(), clock.now)
        invariant index == old(index) && entries == old(entries) - IdsOf(stale[..i])
      {
        assert IdsOf(stale[..i + 1]) == IdsOf(stale[..i]) + {stale[i]};
        if stale[i] in entries {
          OneMore(policy, t, clock.now, steps, clock.now, Purge(stale[i]), clock.now);
          steps := steps + [Timed(Purge(stale[i]), clock.now)];
        }
        entries := entries - {stale[i]};
      }
      assert stale[..|stale|] == stale;
    }

    /** One turn of the marking pass: is the entry stale? */
    method ExpireAndJudge(g: int) returns (stale: bool, ghost steps: seq<Timed>)
      requires g in entries
      modifies this`entries, this`index, clock
      ensures Ran(steps) && old(clock.now) <= clock.now && Sweeping(steps)
      ensures g in entries && entries == old(entries)[g := entries[g]]
      ensures old(entries)[g].status.Active? && old(entries)[g].ExpiredAt(old(clock.now)) ==> ReleasedIn(steps, g)
      ensures stale ==> !entries[g].ActiveAt(clock.now) && !old(entries)[g].ActiveAt(clock.now)
      ensures !stale ==> entries[g] == old(entries)[g] && entries[g].ActiveAt(clock.now)
    {
      ghost var t, start := Value(), clock.now;
      var due: bool;
      due, steps := Expire(g, true);
      ghost var between := clock.now;
      var active := IsActive(g);
      WaitMore(policy, t, start, steps, between, clock.now);
      stale := !active;
    }

    method MarkAndCollect() returns (stale: seq<int>, ghost steps: seq<Timed>)
      modifies this`entries, this`index, clock
      ensures Ran(steps) && Sweeping(steps) && old(clock.now) <= clock.now
      ensures Unlisted(old(Value()), {}, old(clock.now), steps)
      ensures Marked(old(Value()), {}, old(clock.now), stale, Value(), clock.now)
    {
      ghost var t, start := Value(), clock.now;
      stale, steps := [], [];
      var keys := entries.Keys;
      while keys != {}
        invariant Traced(policy, t, start, steps, Value(), clock.now)
        invariant Marked(t, keys, start, stale, Value(), clock.now)
        invariant Unlisted(t, keys, start, steps)
        decreases |keys|
      {
        var g := Pick(keys);
        ghost var before, v, was := clock.now, Value(), stale;
        var idle, more := ExpireAndJudge(g);
        TracedOn(policy, t, start, steps, v, before, more, Value(), clock.now);
        if idle {
          stale := stale + [g];
        }
        MarkedOn(t, keys, g, start, was, v, before, idle, Value(), clock.now);
        UnlistedOn(t, keys, g, start, steps, more);
        steps := steps + more;
        keys := keys - {g};
      }
    }

    // -------------------------------------------------------------- reading

    /** Get: the entry if it is active now. */
    method Get(g: int) returns (e: Option<Entry>)
      modifies clock
      ensures old(clock.now) <= clock.now
      ensures e == if Value().ActiveAt(g, clock.now) then Some(entries[g]) else None
    {
      var active := IsActive(g);
      e := if active then Some(entries[g]) else None;
    }

    /** The active entries along a wallet's list: all the wallet holds, and perhaps somebody else's. */
    method ListByWallet(wallet: Wallet) returns (games: seq<int>)
      requires Covered(policy, Value())
      modifies clock
      ensures old(clock.now) <= clock.now
      ensures forall g :: g in Held(policy, Value(), policy.norm(wallet), clock.now) ==> g in games
      ensures forall g :: g in games ==> g in Value().Ids(policy.norm(wallet)) && Value().ActiveAt(g, old(clock.now))
      ensures forall g :: g in Value().Ids(policy.norm(wallet)) && Value().ActiveAt(g, clock.now) ==> g in games
      ensures CountActive(Value(), Value().Ids(policy.norm(wallet)), clock.now) <= |games|
      ensures |games| <= CountActive(Value(), Value().Ids(policy.norm(wallet)), old(clock.now))
    {
      var ids := if policy.norm(wallet) in index then index[policy.norm(wallet)] else [];
      games := [];
      for i := 0 to |ids|
        invariant old(clock.now) <= clock.now
        invariant forall j :: 0 <= j < i && Value().ActiveAt(ids[j], clock.now) ==> ids[j] in games
        invariant forall g :: g in games ==> g in ids && Value().ActiveAt(g, old(clock.now))
        invariant CountActive(Value(), ids[..i], clock.now) <= |games| <= CountActive(Value(), ids[..i], old(clock.now))
      {
        ghost var before := clock.now;
        var active := IsActive(ids[i]);
        if active {
          games := games + [ids[i]];
        }
        CountShrinks(Value(), ids[..i], before, clock.now);
        assert ids[..i + 1][..i] == ids[..i];
      }
      assert ids[..|ids|] == ids;
      HeldIsCounted(policy, Value(), policy.norm(wallet), clock.now);
    }
  }
}
