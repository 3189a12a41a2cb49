/**
 * Join and cancel reservations of one game must exclude each other. Each
 * Reserve looks at the other table first and then inserts into its own, and
 * the two tables have separate locks.
 */
module JoinCancel {
  import opened Prelude
  import opened Tables
  import opened Locks
  import LockTable

  datatype Side = Join | Cancel

  /** A Reserve call that has looked at the other table and has not inserted yet. */
  datatype Window = Window(caller: int, side: Side, game: int, holder: Wallet)

  datatype State = State(join: Table, cancel: Table, now: int, open: set<Window>) {
    function Own(side: Side): Table {
      if side.Join? then join else cancel
    }

    function Other(side: Side): Table {
      if side.Join? then cancel else join
    }

    function With(side: Side, t: Table): State {
      if side.Join? then this.(join := t) else this.(cancel := t)
    }

    ghost predicate Clash(g: int) {
      join.ActiveAt(g, now) && cancel.ActiveAt(g, now)
    }
  }

  const BEGIN := State(EMPTY_TABLE, EMPTY_TABLE, 0, {})

  /** The policies of the two tables. */
  datatype Rules = Rules(join: Policy, cancel: Policy) {
    function Of(side: Side): Policy {
      if side.Join? then join else cancel
    }
  }

  /** Check: the look at the other table. Insert: the critical section. Abandon: refused there. */
  datatype Step =
    | Check(window: Window, at: int)
    | Insert(window: Window, at: int)
    | Abandon(window: Window, at: int)
    | Elsewhere(side: Side, act: Act, at: int)

  predicate Allowed(r: Rules, s: State, step: Step) {
    && s.now <= step.at
    && match step
       case Check(w, at) => !s.Other(w.side).ActiveAt(w.game, at)
       case Insert(w, at) => w in s.open && CanPut(r.Of(w.side), s.Own(w.side), [w.game], w.holder, at)
       case Abandon(w, _) => w in s.open
       case Elsewhere(side, act, at) => !act.Put? && Legal(r.Of(side), s.Own(side), act, at)
  }

  function Next(r: Rules, s: State, step: Step): State {
    var s1 := s.(now := step.at);
    match step
    case Check(w, _) => s1.(open := s.open + {w})
    case Insert(w, at) => s1.With(w.side, PutAll(r.Of(w.side), s.Own(w.side), [w.game], w.holder, at)).(open := s.open - {w})
    case Abandon(w, _) => s1.(open := s.open - {w})
    case Elsewhere(side, act, at) => s1.With(side, Perform(r.Of(side), s.Own(side), act, at))
  }

  function Run(r: Rules, s: State, steps: seq<Step>): State {
    if steps == [] then s else Next(r, Run(r, s, steps[..|steps| - 1]), steps[|steps| - 1])
  }

  ghost predicate AllowedRun(r: Rules, s: State, steps: seq<Step>) {
    forall i :: 0 <= i < |steps| ==> Allowed(r, Run(r, s, steps[..i]), steps[i])
  }

  // ---------------------------------------------------------------- exclusion

  /** No call on the other side of the same game is under way. */
  ghost predicate Serial(s: State, step: Step) {
    step.Check? ==> forall w :: w in s.open && w.game == step.window.game ==> w.side == step.window.side
  }

  ghost predicate SerialRun(r: Rules, s: State, steps: seq<Step>) {
    forall i :: 0 <= i < |steps| ==> Serial(Run(r, s, steps[..i]), steps[i])
  }

  /** What an open window may rely on. */
  ghost predicate Inv(s: State) {
    && (forall g :: !s.Clash(g))
    && (forall w :: w in s.open ==> !s.Other(w.side).ActiveAt(w.game, s.now))
    && (forall v, w :: v in s.open && w in s.open && v.game == w.game ==> v.side == w.side)
  }

  /** The games active in `t` at time `now` include all those active in `u` later. */
  ghost predicate Fewer(t: Table, now: int, u: Table, later: int, except: int) {
    forall g :: g != except && u.ActiveAt(g, later) ==> t.ActiveAt(g, now)
  }

  lemma InsertAddsOne(p: Policy, t: Table, now: int, g: int, holder: Wallet, at: int)
    requires now <= at
    ensures Fewer(t, now, PutAll(p, t, [g], holder, at), at, g)
    ensures PutAll(p, t, [g], holder, at).ActiveAt(g, at)
  {
    PutAllReserves(p, t, [g], holder, at);
    assert [g][0] in [g];
  }

  lemma OthersOnlyShrink(p: Policy, t: Table, now: int, act: Act, at: int, g: int)
    requires now <= at && !act.Put? && Perform(p, t, act, at).ActiveAt(g, at)
    ensures t.ActiveAt(g, now)
  {
  }

  lemma InsertKeeps(r: Rules, s: State, w: Window, at: int)
    requires Inv(s) && Allowed(r, s, Insert(w, at))
    ensures Inv(Next(r, s, Insert(w, at)))
  {
    var s2 := Next(r, s, Insert(w, at));
    InsertAddsOne(r.Of(w.side), s.Own(w.side), s.now, w.game, w.holder, at);
    forall g
      ensures !s2.Clash(g)
    {
      assert !s.Clash(g);
      assert g == w.game ==> !s.Other(w.side).ActiveAt(g, s.now);
    }
    forall v | v in s2.open
      ensures !s2.Other(v.side).ActiveAt(v.game, at)
    {
      assert v in s.open && !s.Other(v.side).ActiveAt(v.game, s.now);
    }
  }

  lemma ElsewhereKeeps(r: Rules, s: State, side: Side, act: Act, at: int)
    requires Inv(s) && Allowed(r, s, Elsewhere(side, act, at))
    ensures Inv(Next(r, s, Elsewhere(side, act, at)))
  {
    var s2 := Next(r, s, Elsewhere(side, act, at));
    forall g | s2.Own(side).ActiveAt(g, at)
      ensures s.Own(side).ActiveAt(g, s.now)
    {
      OthersOnlyShrink(r.Of(side), s.Own(side), s.now, act, at, g);
    }
    forall g
      ensures !s2.Clash(g)
    {
      assert !s.Clash(g);
    }
    forall v | v in s2.open
      ensures !s2.Other(v.side).ActiveAt(v.game, at)
    {
      assert v in s.open && !s.Other(v.side).ActiveAt(v.game, s.now);
    }
  }

  lemma StepKeeps(r: Rules, s: State, step: Step)
    requires Inv(s) && Allowed(r, s, step) && Serial(s, step)
    ensures Inv(Next(r, s, step))
  {
    match step
    case Insert(w, at) => InsertKeeps(r, s, w, at);
    case Elsewhere(side, act, at) => ElsewhereKeeps(r, s, side, act, at);
    case _ =>
      var s2 := Next(r, s, step);
      forall g
        ensures !s2.Clash(g)
      {
        assert !s.Clash(g);
      }
      forall v | v in s2.open
        ensures !s2.Other(v.side).ActiveAt(v.game, s2.now)
      {
        assert v in s.open ==> !s.Other(v.side).ActiveAt(v.game, s.now);
      }
  }

  lemma EarlierSteps(r: Rules, s: State, steps: seq<Step>, n: nat)
    requires n < |steps| && AllowedRun(r, s, steps) && SerialRun(r, s, steps)
    ensures AllowedRun(r, s, steps[..n]) && SerialRun(r, s, steps[..n])
    ensures Allowed(r, Run(r, s, steps[..n]), steps[n]) && Serial(Run(r, s, steps[..n]), steps[n])
  {
    var before := steps[..n];
    forall i | 0 <= i < n
      ensures Allowed(r, Run(r, s, before[..i]), before[i]) && Serial(Run(r, s, before[..i]), before[i])
    {
      assert before[..i] == steps[..i] && before[i] == steps[i];
    }
  }

  lemma {:induction false} SerialRunKeeps(r: Rules, s: State, steps: seq<Step>)
    requires Inv(s) && AllowedRun(r, s, steps) && SerialRun(r, s, steps)
    ensures Inv(Run(r, s, steps))
    decreases |steps|
  {
    if steps != [] {
      var n := |steps| - 1;
      EarlierSteps(r, s, steps, n);
      SerialRunKeeps(r, s, steps[..n]);
      StepKeeps(r, Run(r, s, steps[..n]), steps[n]);
    }
  }

  /** If opposite calls on one game never overlap, no state has both reservations active. */
  lemma SerialWindowsExclude(r: Rules, steps: seq<Step>, g: int)
    requires AllowedRun(r, BEGIN, steps) && SerialRun(r, BEGIN, steps)
    ensures !Run(r, BEGIN, steps).Clash(g)
  {
    SerialRunKeeps(r, BEGIN, steps);
  }

  /** In particular when every call is atomic: it begins only when no other is under way. */
  lemma AtomicCallsExclude(r: Rules, steps: seq<Step>, g: int)
    requires AllowedRun(r, BEGIN, steps)
    requires forall i :: 0 <= i < |steps| && steps[i].Check? ==> Run(r, BEGIN, steps[..i]).open == {}
    ensures !Run(r, BEGIN, steps).Clash(g)
  {
    SerialWindowsExclude(r, steps, g);
  }

  // ---------------------------------------------------------------- and only then

  /** Some allowed continuation in which no further call begins ends with both reservations of a game active. */
  ghost predicate CanClash(r: Rules, s: State) {
    exists steps, g :: AllowedRun(r, s, steps) && NoChecks(steps) && Run(r, s, steps).Clash(g)
  }

  ghost predicate NoChecks(steps: seq<Step>) {
    forall i :: 0 <= i < |steps| ==> !steps[i].Check?
  }

  /** Calls under way that do not overlap cannot clash, whatever else happens. */
  lemma SerialCannotClash(r: Rules, s: State)
    requires Inv(s)
    ensures !CanClash(r, s)
  {
    forall steps, g | AllowedRun(r, s, steps) && NoChecks(steps)
      ensures !Run(r, s, steps).Clash(g)
    {
      SerialRunKeeps(r, s, steps);
    }
  }

  lemma {:induction false} ExpiriesAreBounded(entries: map<int, Entry>, games: set<int>) returns (last: int)
    requires games <= entries.Keys
    ensures forall g :: g in games ==> entries[g].expiresAt <= last
    decreases games
  {
    last := 0;
    if g :| g in games {
      last := ExpiriesAreBounded(entries, games - {g});
      last := Max(last, entries[g].expiresAt);
    }
  }

  lemma {:induction false} NothingActiveNothingCounted(t: Table, ids: seq<int>, now: int)
    requires forall g :: !t.ActiveAt(g, now)
    ensures CountActive(t, ids, now) == 0
    decreases |ids|
  {
    if ids != [] {
      NothingActiveNothingCounted(t, ids[..|ids| - 1], now);
    }
  }

  /** Once everything has expired there is room for anybody. */
  lemma RoomAfterExpiry(p: Policy, t: Table, last: int, late: int, g: int, holder: Wallet)
    requires p.cap >= 1 && late > last && forall x :: x in t.entries ==> t.entries[x].expiresAt <= last
    ensures CanPut(p, t, [g], holder, late)
  {
    assert forall x :: !t.ActiveAt(x, late);
    NothingActiveNothingCounted(t, t.Ids(p.norm(holder)), late);
  }

  /** Two calls on opposite sides of a game that both find room at the same moment. */
  lemma BothInsert(r: Rules, s: State, j: Window, c: Window, at: int) returns (steps: seq<Step>)
    requires j in s.open && c in s.open && j.side.Join? && c.side.Cancel? && j.game == c.game && s.now <= at
    requires CanPut(r.join, s.join, [j.game], j.holder, at) && CanPut(r.cancel, s.cancel, [c.game], c.holder, at)
    ensures |steps| == 2 && steps[0] == Insert(j, at) && steps[1] == Insert(c, at)
    ensures AllowedRun(r, s, steps) && Run(r, s, steps).Clash(j.game)
  {
    steps := [];
    RunExtends(r, s, steps, Insert(j, at));
    steps := steps + [Insert(j, at)];
    RunExtends(r, s, steps, Insert(c, at));
    steps := steps + [Insert(c, at)];
    InsertAddsOne(r.join, s.join, s.now, j.game, j.holder, at);
    InsertAddsOne(r.cancel, s.cancel, s.now, c.game, c.holder, at);
  }

  /** Any two open calls on opposite sides of a game can clash, however full the tables are now. */
  lemma OverlapCanClash(r: Rules, s: State, j: Window, c: Window)
    requires r.join.cap >= 1 && r.cancel.cap >= 1
    requires j in s.open && c in s.open && j.side.Join? && c.side.Cancel? && j.game == c.game
    ensures CanClash(r, s)
  {
    var a := ExpiriesAreBounded(s.join.entries, s.join.entries.Keys);
    var b := ExpiriesAreBounded(s.cancel.entries, s.cancel.entries.Keys);
    var late := Max(s.now, Max(a, b) + 1);
    RoomAfterExpiry(r.join, s.join, a, late, j.game, j.holder);
    RoomAfterExpiry(r.cancel, s.cancel, b, late, c.game, c.holder);
    var steps := BothInsert(r, s, j, c, late);
    assert NoChecks(steps);
  }

  /** A call that begins makes a clash possible exactly when it overlaps one on the other side of its game. */
  lemma ClashIffOverlap(r: Rules, s: State, w: Window, at: int)
    requires r.join.cap >= 1 && r.cancel.cap >= 1 && Inv(s) && Allowed(r, s, Check(w, at))
    ensures CanClash(r, Next(r, s, Check(w, at))) <==> !Serial(s, Check(w, at))
  {
    var s2 := Next(r, s, Check(w, at));
    if Serial(s, Check(w, at)) {
      StepKeeps(r, s, Check(w, at));
      SerialCannotClash(r, s2);
    } else {
      var v :| v in s.open && v.game == w.game && v.side != w.side;
      if w.side.Join? {
        OverlapCanClash(r, s2, w, v);
      } else {
        OverlapCanClash(r, s2, v, w);
      }
    }
  }

  /** No state of the run, from its last back to its first, can still end in a clash. */
  ghost predicate SafeThroughout(r: Rules, s: State, steps: seq<Step>) {
    !CanClash(r, Run(r, s, steps)) && (steps == [] || SafeThroughout(r, s, steps[..|steps| - 1]))
  }

  lemma SerialRunSplits(r: Rules, s: State, steps: seq<Step>)
    requires steps != []
    ensures
      var before := steps[..|steps| - 1];
      SerialRun(r, s, steps) <==> SerialRun(r, s, before) && Serial(Run(r, s, before), steps[|steps| - 1])
  {
    var before := steps[..|steps| - 1];
    assert forall i :: 0 <= i < |before| ==> before[..i] == steps[..i] && before[i] == steps[i];
  }

  lemma AllowedRunSplits(r: Rules, s: State, steps: seq<Step>)
    requires steps != [] && AllowedRun(r, s, steps)
    ensures
      var before := steps[..|steps| - 1];
      AllowedRun(r, s, before) && Allowed(r, Run(r, s, before), steps[|steps| - 1])
  {
    var before := steps[..|steps| - 1];
    assert forall i :: 0 <= i < |before| ==> before[..i] == steps[..i] && before[i] == steps[i];
  }

  /**
   * The exact condition over whole runs: exclusion is never in danger if and only
   * if opposite calls on one game never overlap between their look and their insertion.
   */
  lemma {:induction false} ExclusionIffSerial(r: Rules, steps: seq<Step>)
    requires r.join.cap >= 1 && r.cancel.cap >= 1 && AllowedRun(r, BEGIN, steps)
    ensures SafeThroughout(r, BEGIN, steps) <==> SerialRun(r, BEGIN, steps)
    decreases |steps|
  {
    if steps == [] {
      SerialCannotClash(r, BEGIN);
    } else {
      var n := |steps| - 1;
      var before, s := steps[..n], Run(r, BEGIN, steps[..n]);
      AllowedRunSplits(r, BEGIN, steps);
      ExclusionIffSerial(r, before);
      SerialRunSplits(r, BEGIN, steps);
      if SerialRun(r, BEGIN, before) {
        SerialRunKeeps(r, BEGIN, before);
        LastStepDecides(r, s, steps[n]);
      }
    }
  }

  lemma LastStepDecides(r: Rules, s: State, step: Step)
    requires r.join.cap >= 1 && r.cancel.cap >= 1 && Inv(s) && Allowed(r, s, step)
    ensures CanClash(r, Next(r, s, step)) <==> !Serial(s, step)
  {
    if step.Check? {
      ClashIffOverlap(r, s, step.window, step.at);
    } else {
      StepKeeps(r, s, step);
      SerialCannotClash(r, Next(r, s, step));
    }
  }

  lemma RunExtends(r: Rules, s: State, steps: seq<Step>, step: Step)
    requires AllowedRun(r, s, steps) && Allowed(r, Run(r, s, steps), step)
    ensures AllowedRun(r, s, steps + [step]) && Run(r, s, steps + [step]) == Next(r, Run(r, s, steps), step)
  {
    var all := steps + [step];
    assert all[..|steps|] == steps;
    assert forall i :: 0 <= i < |steps| ==> all[..i] == steps[..i] && all[i] == steps[i];
  }

  /** Each side looks before either inserts. */
  lemma BothLook(r: Rules, j: Window, c: Window) returns (steps: seq<Step>)
    requires j.side.Join? && c.side.Cancel?
    ensures |steps| == 2 && steps[0] == Check(j, 0) && steps[1] == Check(c, 0)
    ensures AllowedRun(r, BEGIN, steps) && Run(r, BEGIN, steps) == BEGIN.(open := {j, c})
  {
    steps := [];
    RunExtends(r, BEGIN, steps, Check(j, 0));
    steps := steps + [Check(j, 0)];
    assert Run(r, BEGIN, steps) == BEGIN.(open := {j});
    RunExtends(r, BEGIN, steps, Check(c, 0));
    steps := steps + [Check(c, 0)];
    assert {j} + {c} == {j, c};
  }

  /** The separate locks do allow it: a run of the code's own steps from empty tables to a clash. */
  lemma RaceReachesClash(r: Rules, g: int, opponent: Wallet, creator: Wallet) returns (steps: seq<Step>)
    requires r.join.cap >= 1 && r.cancel.cap >= 1
    ensures AllowedRun(r, BEGIN, steps) && Run(r, BEGIN, steps).Clash(g)
    ensures
      var j, c := Window(1, Join, g, opponent), Window(2, Cancel, g, creator);
      |steps| == 4 && steps[0] == Check(j, 0) && steps[1] == Check(c, 0) && steps[2] == Insert(j, 0) && steps[3] == Insert(c, 0)
  {
    var j, c := Window(1, Join, g, opponent), Window(2, Cancel, g, creator);
    steps := BothLook(r, j, c);
    assert CountActive(EMPTY_TABLE, [], 0) == 0;
    InsertAddsOne(r.join, EMPTY_TABLE, 0, g, opponent, 0);
    InsertAddsOne(r.cancel, EMPTY_TABLE, 0, g, creator, 0);
    RunExtends(r, BEGIN, steps, Insert(j, 0));
    steps := steps + [Insert(j, 0)];
    RunExtends(r, BEGIN, steps, Insert(c, 0));
    steps := steps + [Insert(c, 0)];
  }

  // ---------------------------------------------------------------- the calls

  datatype Refusal = NotAvailable | OwnGame | NotCreator | OtherSidePending | Refused(error: LockTable.Error)

  datatype Answer = Granted(entry: Entry) | Denied(why: Refusal)

  ghost predicate Apart(a: Table, b: Table, now: int) {
    forall g :: !(a.ActiveAt(g, now) && b.ActiveAt(g, now))
  }

  lemma ApartLater(a: Table, b: Table, now: int, later: int)
    requires Apart(a, b, now) && now <= later
    ensures Apart(a, b, later)
  {
    forall g
      ensures !(a.ActiveAt(g, later) && b.ActiveAt(g, later))
    {
      assert !(a.ActiveAt(g, now) && b.ActiveAt(g, now));
    }
  }

  lemma ApartAfterPut(p: Policy, a: Table, b: Table, g: int, wallet: Wallet, now: int)
    requires Apart(a, b, now) && !b.ActiveAt(g, now)
    ensures Apart(PutOne(p, a, g, wallet, now), b, now)
  {
    forall x
      ensures !(PutOne(p, a, g, wallet, now).ActiveAt(x, now) && b.ActiveAt(x, now))
    {
      assert !(a.ActiveAt(x, now) && b.ActiveAt(x, now));
    }
  }

  /** The other side holds the game, or there is no room or the game is taken on this side. */
  ghost predicate Blocked(p: Policy, own: Table, other: Table, g: int, wallet: Wallet, at: int) {
    other.ActiveAt(g, at) || !CanPut(p, own, [g], wallet, at)
  }

  lemma KeptApart(a: Table, b: Table, start: int, later: int)
    requires start <= later
    ensures Apart(a, b, start) ==> Apart(a, b, later)
  {
    if Apart(a, b, start) {
      ApartLater(a, b, start, later);
    }
  }

  /** A call that was blocked at some moment was blocked at every earlier one. */
  lemma BlockedEarlier(p: Policy, own: Table, other: Table, g: int, wallet: Wallet, start: int, later: int)
    requires start <= later && Blocked(p, own, other, g, wallet, later)
    ensures Blocked(p, own, other, g, wallet, start)
  {
    LockTable.CountShrinks(own, own.Ids(p.norm(wallet)), start, later);
  }

  /**
   * What the two Reserve calls have in common once the game itself has been
   * checked: refused only if blocked when the call began, granted only if not
   * blocked when the entry is made.
   */
  method ReserveUnless(own: LockTable.LockTable, other: LockTable.LockTable, g: int, wallet: Wallet) returns (r: Answer)
    requires own != other && own.clock == other.clock
    modifies own`entries, own`index, own.clock
    ensures old(Apart(own.Value(), other.Value(), own.clock.now)) ==> Apart(own.Value(), other.Value(), own.clock.now)
    ensures r.Denied? ==> r.why.OtherSidePending? || r.why.Refused?
    ensures r.Denied? ==> Blocked(own.policy, own.Value(), other.Value(), g, wallet, old(own.clock.now))
    ensures r.Denied? ==> own.Value() == old(own.Value())
    ensures r.Granted? ==> !Blocked(own.policy, old(own.Value()), other.Value(), g, wallet, own.clock.now)
    ensures r.Granted? ==> own.Value() == PutOne(own.policy, old(own.Value()), g, wallet, own.clock.now)
    ensures r.Granted? ==> g in own.entries && own.entries[g] == r.entry
  {
    ghost var t, start := own.Value(), own.clock.now;
    var pending := other.Get(g);
    ghost var seen := own.clock.now;
    KeptApart(t, other.Value(), start, seen);
    if pending.Some? {
      return Denied(OtherSidePending);
    }
    var reserved, steps := own.Reserve(g, wallet);
    KeptApart(t, other.Value(), seen, own.clock.now);
    if reserved.Err? {
      BlockedEarlier(own.policy, t, other.Value(), g, wallet, start, seen);
      return Denied(Refused(reserved.error));
    }
    LockTable.PutOneIsPutAll(own.policy, t, g, wallet, own.clock.now);
    assert steps[..0] == [];
    assert own.Value() == PutOne(own.policy, t, g, wallet, own.clock.now);
    if Apart(t, other.Value(), own.clock.now) {
      ApartAfterPut(own.policy, t, other.Value(), g, wallet, own.clock.now);
    }
    r := Granted(reserved.value);
  }

  predicate WaitsForOpponent(row: Option<Game>) {
    row.Some? && row.value.status == STATUS_WAITING
  }

  /** Reserve of the join table, called atomically. */
  method ReserveJoin(join: LockTable.LockTable, cancel: LockTable.LockTable, row: Option<Game>, g: int, wallet: Wallet)
    returns (r: Answer)
    requires join != cancel && join.clock == cancel.clock
    modifies join`entries, join`index, join.clock
    ensures old(Apart(join.Value(), cancel.Value(), join.clock.now)) ==> Apart(join.Value(), cancel.Value(), join.clock.now)
    ensures r == Denied(NotAvailable) <==> !WaitsForOpponent(row)
    ensures r == Denied(OwnGame) <==> WaitsForOpponent(row) && join.policy.norm(row.value.playerOne) == join.policy.norm(wallet)
    ensures r.Denied? && !r.why.NotAvailable? && !r.why.OwnGame? ==>
      Blocked(join.policy, join.Value(), cancel.Value(), g, wallet, old(join.clock.now))
    ensures r.Denied? ==> join.Value() == old(join.Value())
    ensures r.Granted? ==> !Blocked(join.policy, old(join.Value()), cancel.Value(), g, wallet, join.clock.now)
    ensures r.Granted? ==> join.Value() == PutOne(join.policy, old(join.Value()), g, wallet, join.clock.now)
  {
    if row.None? || row.value.status != STATUS_WAITING {
      return Denied(NotAvailable);
    }
    if join.policy.norm(row.value.playerOne) == join.policy.norm(wallet) {
      return Denied(OwnGame);
    }
    r := ReserveUnless(join, cancel, g, wallet);
  }

  /** Reserve of the cancel table, called atomically. */
  method ReserveCancel(join: LockTable.LockTable, cancel: LockTable.LockTable, row: Option<Game>, g: int, wallet: Wallet)
    returns (r: Answer)
    requires join != cancel && join.clock == cancel.clock
    modifies cancel`entries, cancel`index, cancel.clock
    ensures old(Apart(cancel.Value(), join.Value(), cancel.clock.now)) ==> Apart(cancel.Value(), join.Value(), cancel.clock.now)
    ensures r == Denied(NotAvailable) <==> !WaitsForOpponent(row)
    ensures r == Denied(NotCreator) <==>
      WaitsForOpponent(row) && cancel.policy.norm(row.value.playerOne) != cancel.policy.norm(wallet)
    ensures r.Denied? && !r.why.NotAvailable? && !r.why.NotCreator? ==>
      Blocked(cancel.policy, cancel.Value(), join.Value(), g, wallet, old(cancel.clock.now))
    ensures r.Denied? ==> cancel.Value() == old(cancel.Value())
    ensures r.Granted? ==> !Blocked(cancel.policy, old(cancel.Value()), join.Value(), g, wallet, cancel.clock.now)
    ensures r.Granted? ==> cancel.Value() == PutOne(cancel.policy, old(cancel.Value()), g, wallet, cancel.clock.now)
  {
    if row.None? || row.value.status != STATUS_WAITING {
      return Denied(NotAvailable);
    }
    if cancel.policy.norm(row.value.playerOne) != cancel.policy.norm(wallet) {
      return Denied(NotCreator);
    }
    r := ReserveUnless(cancel, join, g, wallet);
  }
}
