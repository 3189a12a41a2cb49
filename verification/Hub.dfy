/**
 * The broadcast hub: subscribers by game and client id in nested maps, beside
 * a counter of active connections that is kept separately. A broadcast works
 * on a snapshot, so the list of failed clients it cleans up may be stale.
 */
module Hub {
  import opened Prelude

  /** Subscribers to all games are filed under this id. */
  const GLOBAL := 0

  datatype Conn = Conn(id: nat)

  datatype Client = Client(id: string)

  datatype Key = Key(game: int, client: Client)

  /** Who is subscribed to what, without the nesting. */
  type Flat = map<Key, Conn>

  datatype Hub = Hub(flat: Flat, count: int)

  const EMPTY_HUB := Hub(map[], 0)

  function Add(h: Hub, g: int, client: Client, conn: Conn): Hub {
    Hub(h.flat[Key(g, client) := conn], h.count + 1)
  }

  function Drop(h: Hub, g: int, client: Client): Hub {
    if Key(g, client) in h.flat then Hub(h.flat - {Key(g, client)}, h.count - 1) else h
  }

  function DropAll(h: Hub, g: int, clients: seq<Client>): Hub {
    if clients == [] then h else Drop(DropAll(h, g, clients[..|clients| - 1]), g, clients[|clients| - 1])
  }

  // ---------------------------------------------------------------- runs

  /** Cleanup carries whatever failure lists an earlier snapshot led to. */
  datatype Op =
    | Subscribe(game: int, client: Client, conn: Conn)
    | Unsubscribe(game: int, client: Client)
    | Cleanup(game: int, failed: seq<Client>, failedGlobal: seq<Client>)
    | CloseAll

  function Next(h: Hub, op: Op): Hub {
    match op
    case Subscribe(g, c, conn) => Add(h, g, c, conn)
    case Unsubscribe(g, c) => Drop(h, g, c)
    case Cleanup(g, failed, failedGlobal) => DropAll(DropAll(h, g, failed), GLOBAL, failedGlobal)
    case CloseAll => EMPTY_HUB
  }

  function Run(h: Hub, ops: seq<Op>): Hub {
    if ops == [] then h else Next(Run(h, ops[..|ops| - 1]), ops[|ops| - 1])
  }

  /** Subscriptions since the last shutdown that replaced one with the same game and client id. */
  function Overwrites(h: Hub, ops: seq<Op>): nat {
    if ops == [] then 0 else
    var op, before := ops[|ops| - 1], ops[..|ops| - 1];
    if op.CloseAll? then 0
    else Overwrites(h, before) + if op.Subscribe? && Key(op.game, op.client) in Run(h, before).flat then 1 else 0
  }

  // ---------------------------------------------------------------- the counter

  lemma {:induction false} DropAllKeepsGap(h: Hub, g: int, clients: seq<Client>)
    ensures DropAll(h, g, clients).count - |DropAll(h, g, clients).flat.Keys| == h.count - |h.flat.Keys|
    ensures DropAll(h, g, clients).flat.Keys <= h.flat.Keys
    ensures forall k :: k in DropAll(h, g, clients).flat ==> DropAll(h, g, clients).flat[k] == h.flat[k]
    decreases |clients|
  {
    if clients != [] {
      var v, c := DropAll(h, g, clients[..|clients| - 1]), clients[|clients| - 1];
      DropAllKeepsGap(h, g, clients[..|clients| - 1]);
      assert Key(g, c) in v.flat ==> (v.flat - {Key(g, c)}).Keys == v.flat.Keys - {Key(g, c)};
    }
  }

  /** A cleanup removes exactly the listed clients of that game. */
  lemma {:induction false} DroppedAre(h: Hub, g: int, clients: seq<Client>, k: Key)
    ensures k in DropAll(h, g, clients).flat <==> k in h.flat && !(k.game == g && k.client in clients)
    decreases |clients|
  {
    if clients != [] {
      var n := |clients| - 1;
      DroppedAre(h, g, clients[..n], k);
      assert clients == clients[..n] + [clients[n]];
    }
  }

  lemma AddGap(h: Hub, g: int, c: Client, conn: Conn)
    ensures Add(h, g, c, conn).count - |Add(h, g, c, conn).flat.Keys|
      == h.count - |h.flat.Keys| + if Key(g, c) in h.flat then 1 else 0
  {
    assert h.flat[Key(g, c) := conn].Keys == h.flat.Keys + {Key(g, c)};
  }

  lemma DropGap(h: Hub, g: int, c: Client)
    ensures Drop(h, g, c).count - |Drop(h, g, c).flat.Keys| == h.count - |h.flat.Keys|
  {
    assert Key(g, c) in h.flat ==> (h.flat - {Key(g, c)}).Keys == h.flat.Keys - {Key(g, c)};
  }

  lemma StepGap(h: Hub, op: Op)
    requires !op.CloseAll?
    ensures Next(h, op).count - |Next(h, op).flat.Keys|
      == h.count - |h.flat.Keys| + if op.Subscribe? && Key(op.game, op.client) in h.flat then 1 else 0
  {
    match op
    case Subscribe(g, c, conn) => AddGap(h, g, c, conn);
    case Unsubscribe(g, c) => DropGap(h, g, c);
    case Cleanup(g, failed, failedGlobal) =>
      DropAllKeepsGap(h, g, failed);
      DropAllKeepsGap(DropAll(h, g, failed), GLOBAL, failedGlobal);
  }

  /** Over every run the counter exceeds the number of subscriptions by exactly the overwriting ones. */
  lemma {:induction false} CounterCountsOverwritesTwice(ops: seq<Op>)
    ensures Run(EMPTY_HUB, ops).count == |Run(EMPTY_HUB, ops).flat.Keys| + Overwrites(EMPTY_HUB, ops)
    decreases |ops|
  {
    if ops != [] {
      var n := |ops| - 1;
      CounterCountsOverwritesTwice(ops[..n]);
      if !ops[n].CloseAll? {
        StepGap(Run(EMPTY_HUB, ops[..n]), ops[n]);
      }
    }
  }

  /** Every Subscribe uses a game and client id that no earlier one used. */
  ghost predicate FreshIds(ops: seq<Op>) {
    forall i, j :: 0 <= i < j < |ops| && ops[i].Subscribe? && ops[j].Subscribe? ==>
      ops[i].game != ops[j].game || ops[i].client != ops[j].client
  }

  lemma FreshBefore(ops: seq<Op>)
    requires ops != [] && FreshIds(ops)
    ensures FreshIds(ops[..|ops| - 1])
  {
  }

  predicate Subscribes(op: Op, k: Key) {
    op.Subscribe? && op.game == k.game && op.client == k.client
  }

  /** What is subscribed was subscribed by some step, with that connection, and by no step after it. */
  lemma {:induction false} SubscribedBySomeone(ops: seq<Op>, k: Key) returns (i: nat)
    requires k in Run(EMPTY_HUB, ops).flat
    ensures i < |ops| && ops[i] == Subscribe(k.game, k.client, Run(EMPTY_HUB, ops).flat[k])
    ensures forall j :: i < j < |ops| ==> !Subscribes(ops[j], k)
    decreases |ops|
  {
    var n := |ops| - 1;
    var h := Run(EMPTY_HUB, ops[..n]);
    if Subscribes(ops[n], k) {
      i := n;
    } else {
      if ops[n].Cleanup? {
        DropAllKeepsGap(h, ops[n].game, ops[n].failed);
        DropAllKeepsGap(DropAll(h, ops[n].game, ops[n].failed), GLOBAL, ops[n].failedGlobal);
      }
      i := SubscribedBySomeone(ops[..n], k);
      assert forall j :: 0 <= j < n ==> ops[..n][j] == ops[j];
    }
  }

  /** The step takes the subscription away. */
  predicate Removes(op: Op, k: Key) {
    match op
    case Subscribe(_, _, _) => false
    case Unsubscribe(g, c) => k == Key(g, c)
    case Cleanup(g, failed, failedGlobal) => (k.game == g && k.client in failed) || (k.game == 0 && k.client in failedGlobal)
    case CloseAll => true
  }

  /** What one step does to one subscription. */
  lemma StepOnKey(h: Hub, op: Op, k: Key)
    ensures k in Next(h, op).flat <==> Subscribes(op, k) || (k in h.flat && !Removes(op, k))
    ensures k in Next(h, op).flat ==> Next(h, op).flat[k] == if Subscribes(op, k) then op.conn else h.flat[k]
  {
    if op.Cleanup? {
      DroppedAre(h, op.game, op.failed, k);
      DroppedAre(DropAll(h, op.game, op.failed), GLOBAL, op.failedGlobal, k);
      DropAllKeepsGap(h, op.game, op.failed);
      DropAllKeepsGap(DropAll(h, op.game, op.failed), GLOBAL, op.failedGlobal);
    }
  }

  /** Subscribed at step `i`, and neither removed nor subscribed anew since. */
  ghost predicate StandsSince(ops: seq<Op>, k: Key, i: nat) {
    i < |ops| && Subscribes(ops[i], k) && forall j :: i < j < |ops| ==> !Removes(ops[j], k) && !Subscribes(ops[j], k)
  }

  lemma StandsOneMore(ops: seq<Op>, k: Key, i: nat)
    requires ops != []
    ensures StandsSince(ops, k, i) <==>
      || (i == |ops| - 1 && Subscribes(ops[i], k))
      || (StandsSince(ops[..|ops| - 1], k, i) && !Removes(ops[|ops| - 1], k) && !Subscribes(ops[|ops| - 1], k))
  {
    var before := ops[..|ops| - 1];
    assert forall j :: 0 <= j < |before| ==> before[j] == ops[j];
  }

  /**
   * Over every run a client is subscribed if and only if some step subscribed it
   * and no later one unsubscribed it, listed it as failed or closed everything; its
   * connection is that of the last such step.
   */
  lemma {:induction false} SubscribedIff(ops: seq<Op>, k: Key)
    ensures k in Run(EMPTY_HUB, ops).flat <==> exists i: nat :: StandsSince(ops, k, i)
    ensures forall i: nat :: StandsSince(ops, k, i) ==>
      k in Run(EMPTY_HUB, ops).flat && Run(EMPTY_HUB, ops).flat[k] == ops[i].conn
    decreases |ops|
  {
    if ops != [] {
      var n := |ops| - 1;
      SubscribedIff(ops[..n], k);
      StepOnKey(Run(EMPTY_HUB, ops[..n]), ops[n], k);
      forall i: nat
        ensures StandsSince(ops, k, i) <==>
          || (i == n && Subscribes(ops[i], k))
          || (StandsSince(ops[..n], k, i) && !Removes(ops[n], k) && !Subscribes(ops[n], k))
      {
        StandsOneMore(ops, k, i);
      }
      if Subscribes(ops[n], k) {
        assert StandsSince(ops, k, n);
      } else if k in Run(EMPTY_HUB, ops).flat {
        var i: nat :| StandsSince(ops[..n], k, i);
        assert StandsSince(ops, k, i);
      }
    }
  }

  /** With fresh client ids the counter is the number of subscriptions in every reachable state. */
  lemma {:induction false} FreshIdsKeepCounter(ops: seq<Op>)
    requires FreshIds(ops)
    ensures Overwrites(EMPTY_HUB, ops) == 0
    ensures Run(EMPTY_HUB, ops).count == |Run(EMPTY_HUB, ops).flat.Keys|
    decreases |ops|
  {
    CounterCountsOverwritesTwice(ops);
    if ops != [] {
      var n := |ops| - 1;
      FreshBefore(ops);
      FreshIdsKeepCounter(ops[..n]);
      if ops[n].Subscribe? && Key(ops[n].game, ops[n].client) in Run(EMPTY_HUB, ops[..n]).flat {
        var i := SubscribedBySomeone(ops[..n], Key(ops[n].game, ops[n].client));
        assert false;
      }
    }
  }

  /**
   * With fresh ids a stale failure list is precise: whatever of an old snapshot is
   * still subscribed has the connection it had then, so a cleanup never closes another.
   */
  lemma StaleListsArePrecise(ops: seq<Op>, n: nat, k: Key)
    requires FreshIds(ops) && n <= |ops|
    requires k in Run(EMPTY_HUB, ops[..n]).flat && k in Run(EMPTY_HUB, ops).flat
    ensures Run(EMPTY_HUB, ops).flat[k] == Run(EMPTY_HUB, ops[..n]).flat[k]
  {
    var i := SubscribedBySomeone(ops[..n], k);
    var j := SubscribedBySomeone(ops, k);
    assert ops[i] == ops[..n][i];
  }

  /** Every Subscribe brings a connection of its own. */
  ghost predicate OwnConnections(ops: seq<Op>) {
    forall i, j :: 0 <= i < j < |ops| && ops[i].Subscribe? && ops[j].Subscribe? ==> ops[i].conn != ops[j].conn
  }

  /**
   * The exact condition: what a snapshot taken at step `n` says of a subscription
   * that is there now is still true if and only if it was not subscribed anew since.
   */
  lemma StaleEntryIff(ops: seq<Op>, n: nat, k: Key)
    requires OwnConnections(ops) && n <= |ops|
    requires k in Run(EMPTY_HUB, ops[..n]).flat && k in Run(EMPTY_HUB, ops).flat
    ensures Run(EMPTY_HUB, ops).flat[k] == Run(EMPTY_HUB, ops[..n]).flat[k]
      <==> forall j :: n <= j < |ops| ==> !Subscribes(ops[j], k)
  {
    var early := SubscribedBySomeone(ops[..n], k);
    var last := SubscribedBySomeone(ops, k);
    assert ops[early] == ops[..n][early];
    assert Subscribes(ops[last], k);
    if last < n {
      assert ops[..n][last] == ops[last];
      assert last == early;
    }
  }

  /** A reused id breaks both: the counter is off, and a stale list removes the new connection. */
  lemma ReusedIdBreaksBoth(g: int, c: Client, earlier: Conn, later: Conn)
    requires g != GLOBAL && earlier != later
    ensures
      var ops := [Subscribe(g, c, earlier), Subscribe(g, c, later)];
      var h := Run(EMPTY_HUB, ops);
      && h.count == 2 && h.flat == map[Key(g, c) := later]
      && Next(h, Cleanup(g, [c], [])).flat == map[]
  {
    var a, b := Subscribe(g, c, earlier), Subscribe(g, c, later);
    assert [a, b][..1] == [a] && [a][..0] == [] && [c][..0] == [];
    var h1 := Add(EMPTY_HUB, g, c, earlier);
    assert Run(EMPTY_HUB, [a]) == h1;
    var h := Add(h1, g, c, later);
    assert Run(EMPTY_HUB, [a, b]) == h;
    assert h.flat == map[Key(g, c) := later];
    assert DropAll(h, g, []) == h;
    assert h.flat - {Key(g, c)} == map[];
  }

  // ---------------------------------------------------------------- the program

  type Nested = map<int, map<Client, Conn>>

  function Inner(subs: Nested, g: int): map<Client, Conn> {
    if g in subs then subs[g] else map[]
  }

  /** The nested maps hold exactly the subscriptions of `flat`. */
  ghost predicate Mirrors(subs: Nested, flat: Flat) {
    forall g, c :: (Key(g, c) in flat <==> c in Inner(subs, g)) && (c in Inner(subs, g) ==> flat[Key(g, c)] == Inner(subs, g)[c])
  }

  lemma MirrorsPut(subs: Nested, flat: Flat, g: int, c: Client, conn: Conn)
    requires Mirrors(subs, flat)
    ensures Mirrors(subs[g := Inner(subs, g)[c := conn]], flat[Key(g, c) := conn])
  {
  }

  lemma MirrorsRemove(subs: Nested, flat: Flat, g: int, c: Client)
    requires Mirrors(subs, flat)
    ensures Mirrors(subs[g := Inner(subs, g) - {c}], flat - {Key(g, c)})
  {
  }

  /** A game without subscribers may be in the map or not. */
  lemma MirrorsEmpty(subs: Nested, flat: Flat, g: int)
    requires Mirrors(subs, flat) && Inner(subs, g) == map[]
    ensures Mirrors(subs - {g}, flat) && Mirrors(subs[g := map[]], flat)
  {
    assert forall x :: Inner(subs - {g}, x) == Inner(subs, x);
    assert forall x :: Inner(subs[g := map[]], x) == Inner(subs, x);
  }

  class GameBroadcast {
    var subscribers: Nested
    var activeConnections: int
    ghost var flat: Flat

    ghost predicate Valid()
      reads this
    {
      Mirrors(subscribers, flat)
    }

    constructor ()
      ensures Valid() && Value() == EMPTY_HUB
    {
      subscribers, activeConnections, flat := map[], 0, map[];
    }

    ghost function Value(): Hub
      reads this
    {
      Hub(flat, activeConnections)
    }

    method SubscribeTo(g: int, client: Client, conn: Conn)
      requires Valid()
      modifies this
      ensures Valid() && Value() == Next(old(Value()), Subscribe(g, client, conn))
      ensures flat == old(flat)[Key(g, client) := conn] && activeConnections == old(activeConnections) + 1
    {
      if g !in subscribers {
        MirrorsEmpty(subscribers, flat, g);
        subscribers := subscribers[g := map[]];
      }
      MirrorsPut(subscribers, flat, g, client, conn);
      subscribers := subscribers[g := subscribers[g][client := conn]];
      activeConnections := activeConnections + 1;
      flat := flat[Key(g, client) := conn];
    }

    method UnsubscribeFrom(g: int, client: Client)
      requires Valid()
      modifies this
      ensures Valid() && Value() == Next(old(Value()), Unsubscribe(g, client))
      ensures Key(g, client) !in flat
      ensures forall k :: k != Key(g, client) ==> (k in flat <==> k in old(flat)) && (k in flat ==> flat[k] == old(flat)[k])
      ensures activeConnections == old(activeConnections) - if Key(g, client) in old(flat) then 1 else 0
    {
      var there := RemoveIfThere(g, client);
      if there {
        DropIfEmpty(g);
      }
    }

    method RemoveIfThere(g: int, client: Client) returns (there: bool)
      requires Valid()
      modifies this
      ensures there == (Key(g, client) in old(flat))
      ensures Valid() && Value() == Drop(old(Value()), g, client)
    {
      assert Key(g, client) in flat <==> client in Inner(subscribers, g);
      there := g in subscribers && client in subscribers[g];
      if there {
        MirrorsRemove(subscribers, flat, g, client);
        subscribers := subscribers[g := subscribers[g] - {client}];
        activeConnections := activeConnections - 1;
        flat := flat - {Key(g, client)};
      }
    }

    /** An emptied inner map is removed; no subscription goes with it. */
    method DropIfEmpty(g: int)
      requires Valid()
      modifies this`subscribers
      ensures Valid() && (g in subscribers ==> subscribers[g] != map[])
    {
      if g in subscribers && subscribers[g] == map[] {
        MirrorsEmpty(subscribers, flat, g);
        subscribers := subscribers - {g};
      }
    }

    /** Remove those of the clients that are still there. */
    method RemoveClients(g: int, clients: seq<Client>)
      requires Valid()
      modifies this
      ensures Valid() && Value() == DropAll(old(Value()), g, clients)
    {
      for i := 0 to |clients|
        invariant Valid() && Value() == DropAll(old(Value()), g, clients[..i])
      {
        var _ := RemoveIfThere(g, clients[i]);
        assert clients[..i + 1][..i] == clients[..i];
      }
      assert clients[..|clients|] == clients;
    }

    /** cleanupFailedConnections */
    method CleanupFailed(g: int, failed: seq<Client>, failedGlobal: seq<Client>)
      requires Valid()
      modifies this
      ensures Valid() && Value() == Next(old(Value()), Cleanup(g, failed, failedGlobal))
    {
      if failed == [] && failedGlobal == [] {
        return;
      }
      RemoveClients(g, failed);
      DropIfEmpty(g);
      RemoveClients(GLOBAL, failedGlobal);
    }

    method CloseAllConnections()
      modifies this
      ensures Valid() && Value() == Next(old(Value()), CloseAll)
    {
      subscribers, activeConnections, flat := map[], 0, map[];
    }

    /** snapshotSubscribers: those of the game and those of all games, the latter winning a shared id. */
    method Snapshot(g: int) returns (all: map<Client, Conn>, global: set<Client>)
      requires Valid()
      ensures forall c :: c in global <==> Key(GLOBAL, c) in flat
      ensures forall c :: c in all <==> Key(g, c) in flat || c in global
      ensures forall c :: c in all ==> all[c] == flat[Key(if c in global then GLOBAL else g, c)]
    {
      var own, everywhere := Inner(subscribers, g), Inner(subscribers, GLOBAL);
      all, global := Overlay(own, everywhere);
      assert forall c :: c in own <==> Key(g, c) in flat;
      assert forall c :: c in everywhere <==> Key(GLOBAL, c) in flat;
    }

    /** Copy one map over another, noting which keys it wrote. */
    static method Overlay(own: map<Client, Conn>, everywhere: map<Client, Conn>) returns (all: map<Client, Conn>, global: set<Client>)
      ensures global == everywhere.Keys
      ensures forall c :: c in all <==> c in own || c in global
      ensures forall c :: c in all ==> all[c] == if c in global then everywhere[c] else own[c]
    {
      all, global := own, {};
      var rest := everywhere.Keys;
      while rest != {}
        invariant rest <= everywhere.Keys && global == everywhere.Keys - rest
        invariant forall c :: c in all <==> c in own || c in global
        invariant forall c :: c in all ==> all[c] == if c in global then everywhere[c] else own[c]
        decreases |rest|
      {
        var c := Pick(rest);
        all := all[c := everywhere[c]];
        global := global + {c};
        rest := rest - {c};
      }
    }

    /** broadcastSerializedMessage: writes to the clients in `dead` fail; each of them ends up on one list. */
    static method Send(all: map<Client, Conn>, global: set<Client>, dead: set<Client>)
      returns (failed: seq<Client>, failedGlobal: seq<Client>)
      ensures forall c :: c in failed <==> c in all && c in dead && c !in global
      ensures forall c :: c in failedGlobal <==> c in all && c in dead && c in global
      ensures |failed| + |failedGlobal| == |all.Keys * dead|
    {
      failed, failedGlobal := [], [];
      var rest := all.Keys;
      while rest != {}
        invariant rest <= all.Keys
        invariant forall c :: c in failed <==> c in all && c !in rest && c in dead && c !in global
        invariant forall c :: c in failedGlobal <==> c in all && c !in rest && c in dead && c in global
        invariant |failed| + |failedGlobal| + |rest * dead| == |all.Keys * dead|
        decreases |rest|
      {
        var c := Pick(rest);
        if c in dead {
          if c in global {
            failedGlobal := failedGlobal + [c];
          } else {
            failed := failed + [c];
          }
          assert rest * dead == (rest - {c}) * dead + {c};
        } else {
          assert rest * dead == (rest - {c}) * dead;
        }
        rest := rest - {c};
      }
    }

    /**
     * BroadcastGameUpdateWithEvent when nothing intervenes: exactly the dead
     * subscriptions go, except that of the game when the client follows all games too.
     */
    method Broadcast(g: int, dead: set<Client>)
      requires Valid()
      modifies this
      ensures Valid()
      ensures forall c :: Key(GLOBAL, c) in flat <==> Key(GLOBAL, c) in old(flat) && c !in dead
      ensures g != GLOBAL ==> forall c :: Key(g, c) in flat <==>
        Key(g, c) in old(flat) && (c !in dead || Key(GLOBAL, c) in old(flat))
      ensures forall k: Key :: k.game != g && k.game != GLOBAL ==> (k in flat <==> k in old(flat))
      ensures forall k :: k in flat ==> k in old(flat) && flat[k] == old(flat)[k]
      ensures activeConnections - |flat.Keys| == old(activeConnections - |flat.Keys|)
    {
      ghost var h := Value();
      var all, global := Snapshot(g);
      var failed, failedGlobal := Send(all, global, dead);
      CleanupFailed(g, failed, failedGlobal);
      DropAllKeepsGap(h, g, failed);
      DropAllKeepsGap(DropAll(h, g, failed), GLOBAL, failedGlobal);
      forall k: Key
        ensures k in flat <==> k in h.flat && !(k.game == g && k.client in failed) && !(k.game == GLOBAL && k.client in failedGlobal)
      {
        DroppedAre(h, g, failed, k);
        DroppedAre(DropAll(h, g, failed), GLOBAL, failedGlobal, k);
      }
    }
  }
}
