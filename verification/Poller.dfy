/**
 * One cycle of the HTTP poller: fetch the newest page, walk back over the gap,
 * hand the transactions over oldest first, stop at the first failure.
 */
module Poller {
  import opened Prelude
  import opened Chain
  import Interval

  // ---------------------------------------------------------------- what a cycle does

  /** The start of the first page once transactions at or before the checkpoint are dropped. */
  function FirstPageStart(c: seq<Tx>, cp: nat): (i: nat)
    ensures Above(c, cp) <= i <= |c|
  {
    Max(Above(c, cp), |c| - PAGE)
  }

  /**
   * Walk back from index `i` a page at a time until nothing newer than the
   * checkpoint is missing. None: a request failed after `pages` answers. The
   * walk ends at the first missing transaction, after one request for each page
   * of the gap and no fewer.
   */
  function Bridge(c: seq<Tx>, cp: nat, i: nat, pages: nat): (start: Option<nat>)
    requires Above(c, cp) <= i <= |c|
    ensures start.Some? ==> start.value == Above(c, cp)
    ensures start.Some? <==> i - Above(c, cp) <= PAGE * pages
    decreases pages
  {
    if i == Above(c, cp) then Some(i)
    else if pages == 0 then None
    else Bridge(c, cp, Max(Above(c, cp), i - PAGE), pages - 1)
  }

  /** Where the batch of a cycle starts in the chain; None when a request fails. */
  function BatchStart(c: seq<Tx>, cp: nat, pages: nat): (start: Option<nat>)
    ensures start.Some? ==> Above(c, cp) <= start.value <= |c| && (cp != 0 ==> start.value == Above(c, cp))
  {
    if pages == 0 then None else
    var i := FirstPageStart(c, cp);
    if cp == 0 || i == |c| then Some(i) else Bridge(c, cp, i, pages - 1)
  }

  /** The transactions handed to the handler, oldest first. */
  function Batch(c: seq<Tx>, cp: nat, pages: nat): Option<seq<Tx>> {
    var start := BatchStart(c, cp, pages);
    if start.None? then None else Some(c[start.value..])
  }

  datatype Mood = FetchError | IdlePoll | Worked | Refused

  /** `saved` is the logical time passed to the checkpoint callback, if it is called. */
  datatype Outcome = Outcome(cp: nat, handled: seq<Tx>, saved: Option<nat>, mood: Mood)

  /** A cycle in which `pages` requests are answered and the handler accepts `accepts` transactions. */
  function Cycle(c: seq<Tx>, cp: nat, pages: nat, accepts: nat): Outcome {
    var batch := Batch(c, cp, pages);
    if batch.None? then Outcome(cp, [], None, FetchError) else
    var txs := batch.value;
    if txs == [] then Outcome(cp, [], None, IdlePoll) else
    var n := Min(accepts, |txs|);
    var mood := if n < |txs| then Refused else Worked;
    if n == 0 then Outcome(cp, [], None, mood)
    else Outcome(txs[n - 1].lt, txs[..n], Some(txs[n - 1].lt), mood)
  }

  // ---------------------------------------------------------------- the gap is always bridged

  /** From a non-zero checkpoint the batch is exactly what the chain holds beyond it. */
  lemma BatchIsTheGap(c: seq<Tx>, cp: nat, pages: nat)
    requires ValidChain(c) && cp != 0 && Batch(c, cp, pages).Some?
    ensures Batch(c, cp, pages).value == c[Above(c, cp)..]
    ensures forall x :: x in Batch(c, cp, pages).value <==> x in c && x.lt > cp
  {
    AboveSplits(c, cp);
    forall x | x in c && x.lt > cp
      ensures x in c[Above(c, cp)..]
    {
      var k :| 0 <= k < |c| && c[k] == x;
      assert c[Above(c, cp)..][k - Above(c, cp)] == x;
    }
  }

  /** Enough answered requests always produce a batch: the walk terminates. */
  lemma BatchArrives(c: seq<Tx>, cp: nat, pages: nat)
    requires pages >= 1 && |c| - Above(c, cp) <= PAGE * pages
    ensures Batch(c, cp, pages).Some?
  {
  }

  /** From checkpoint zero there is no walking back: the batch is complete exactly for chains of one page. */
  lemma ZeroCheckpointIff(c: seq<Tx>, pages: nat)
    requires ValidChain(c) && pages >= 1
    ensures Batch(c, 0, pages).Some?
    ensures Batch(c, 0, pages).value == c <==> |c| <= 100
  {
    if c != [] {
      ChainFacts(c);
      assert c[0].lt > 0;
    }
    AboveIs(c, 0, 0);
    var i := Max(0, |c| - PAGE);
    assert Batch(c, 0, pages).value == c[i..];
    assert i == 0 ==> c[i..] == c;
  }

  // ---------------------------------------------------------------- whole runs

  /** One tick: the chain has grown by `grown`, then a cycle runs. */
  datatype Tick = Tick(grown: seq<Tx>, pages: nat, accepts: nat)

  /** `log` lists the transactions handled successfully since the start, in the order they were handled. */
  datatype State = State(chain: seq<Tx>, cp: nat, log: seq<Tx>)

  function Step(s: State, tick: Tick): State {
    var c := s.chain + tick.grown;
    var o := Cycle(c, s.cp, tick.pages, tick.accepts);
    State(c, o.cp, s.log + o.handled)
  }

  function Run(s: State, ticks: seq<Tick>): State {
    if ticks == [] then s else Step(Run(s, ticks[..|ticks| - 1]), ticks[|ticks| - 1])
  }

  /** Everything handled since `start` is the stretch of the chain between the checkpoints, once and in order. */
  ghost predicate HandledPrefix(start: nat, s: State) {
    var a, b := Above(s.chain, start), Above(s.chain, s.cp);
    && ValidChain(s.chain) && 0 != start <= s.cp
    && a <= b && s.log == s.chain[a..b]
    && (s.cp == start || (b > 0 && s.chain[b - 1].lt == s.cp))
  }

  /** A position with a transaction after it is not moved by growth. */
  lemma AbovePassed(c: seq<Tx>, grown: seq<Tx>, lt: nat)
    requires ValidChain(c + grown) && Above(c, lt) < |c|
    ensures Above(c + grown, lt) == Above(c, lt)
  {
    var a := Above(c, lt);
    assert (c + grown)[a] == c[a];
    AboveIs(c + grown, lt, a);
  }

  lemma SameStretch(c: seq<Tx>, grown: seq<Tx>, i: nat, j: nat)
    requires i <= j <= |c|
    ensures (c + grown)[i..j] == c[i..j]
  {
  }

  lemma GrowthKeepsPrefix(start: nat, s: State, grown: seq<Tx>)
    requires HandledPrefix(start, s) && ValidChain(s.chain + grown)
    ensures HandledPrefix(start, s.(chain := s.chain + grown))
  {
    var c, d := s.chain, s.chain + grown;
    var a, b := Above(c, start), Above(c, s.cp);
    if s.cp == start {
      assert s.log == [];
    } else {
      assert d[b - 1] == c[b - 1];
      AboveAt(d, b - 1);
      AbovePassed(c, grown, start);
      SameStretch(c, grown, a, b);
    }
  }

  /** Handling the next `n` transactions after position `b`. */
  lemma HandledMore(start: nat, s: State, b: nat, n: nat, next: State)
    requires HandledPrefix(start, s) && b == Above(s.chain, s.cp) && 0 < n <= |s.chain| - b
    requires next == State(s.chain, s.chain[b + n - 1].lt, s.log + s.chain[b..b + n])
    ensures s.cp < next.cp && HandledPrefix(start, next)
  {
    MovesTo(s.chain, s.cp, n);
    Adjacent(s.chain, Above(s.chain, start), b, b + n);
    assert Above(s.chain, next.cp) == b + n;
  }

  lemma MovesTo(c: seq<Tx>, cp: nat, n: nat)
    requires ValidChain(c) && 0 < n <= |c| - Above(c, cp)
    ensures var last := Above(c, cp) + n - 1; cp < c[last].lt && Above(c, c[last].lt) == last + 1
  {
    AboveAtIndex(c, cp, Above(c, cp) + n - 1);
    AboveAt(c, Above(c, cp) + n - 1);
  }

  lemma Adjacent(c: seq<Tx>, i: nat, j: nat, k: nat)
    requires i <= j <= k <= |c|
    ensures c[i..j] + c[j..k] == c[i..k]
  {
  }

  /** A cycle leaves everything as it was or handles a stretch that starts right after the checkpoint. */
  lemma CycleShape(c: seq<Tx>, cp: nat, pages: nat, accepts: nat)
    requires cp != 0
    ensures
      var o, b := Cycle(c, cp, pages, accepts), Above(c, cp);
      var n := |o.handled|;
      && n <= |c| - b && o.handled == c[b..b + n]
      && o.cp == (if n == 0 then cp else c[b + n - 1].lt)
  {
  }

  /** When all of `accepts` transactions exist, the checkpoint moves to the last of them and is reported. */
  lemma AcceptedMoves(c: seq<Tx>, cp: nat, pages: nat, accepts: nat)
    requires cp != 0 && accepts <= |Batch(c, cp, pages).GetOr([])|
    ensures
      var o := Cycle(c, cp, pages, accepts);
      && Above(c, cp) + accepts <= |c|
      && if accepts == 0 then o.cp == cp && o.saved.None?
         else o.cp == c[Above(c, cp) + accepts - 1].lt && o.saved == Some(o.cp)
  {
  }

  /** A cycle on a chain that has already grown. */
  lemma CycleExtendsPrefix(start: nat, g: State, o: Outcome, pages: nat, accepts: nat, next: State)
    requires HandledPrefix(start, g) && o == Cycle(g.chain, g.cp, pages, accepts)
    requires next == State(g.chain, o.cp, g.log + o.handled)
    ensures HandledPrefix(start, next) && g.cp <= next.cp
  {
    CycleShape(g.chain, g.cp, pages, accepts);
    if o.handled != [] {
      HandledMore(start, g, Above(g.chain, g.cp), |o.handled|, next);
    } else {
      assert g.log + [] == g.log;
    }
  }

  /** How a tick went, from what was fetched and how much of it was accepted. */
  lemma MoodTells(c: seq<Tx>, cp: nat, pages: nat, accepts: nat)
    ensures
      var o, b := Cycle(c, cp, pages, accepts), Batch(c, cp, pages);
      && (o.mood.FetchError? <==> b.None?)
      && (o.mood.IdlePoll? <==> b == Some([]))
      && (o.mood.Worked? <==> b.Some? && b.value != [] && o.handled == b.value)
      && (o.mood.Refused? <==> b.Some? && |o.handled| < |b.value|)
      && |o.handled| == if b.None? then 0 else Min(accepts, |b.value|)
  {
  }

  lemma StepExtendsPrefix(start: nat, s: State, tick: Tick)
    requires HandledPrefix(start, s) && ValidChain(s.chain + tick.grown)
    ensures HandledPrefix(start, Step(s, tick)) && s.cp <= Step(s, tick).cp
  {
    var c := s.chain + tick.grown;
    GrowthKeepsPrefix(start, s, tick.grown);
    CycleExtendsPrefix(start, s.(chain := c), Cycle(c, s.cp, tick.pages, tick.accepts), tick.pages, tick.accepts, Step(s, tick));
  }

  ghost predicate ChainStaysValid(s: State, ticks: seq<Tick>) {
    forall n :: 0 <= n < |ticks| ==> ValidChain(Run(s, ticks[..n]).chain + ticks[n].grown)
  }

  lemma StaysValidBefore(s: State, ticks: seq<Tick>)
    requires ticks != [] && ChainStaysValid(s, ticks)
    ensures ChainStaysValid(s, ticks[..|ticks| - 1])
  {
    var before := ticks[..|ticks| - 1];
    forall m | 0 <= m < |before|
      ensures ValidChain(Run(s, before[..m]).chain + before[m].grown)
    {
      assert before[..m] == ticks[..m] && before[m] == ticks[m];
    }
  }

  /**
   * Over every run, under any mix of growth, failed requests and refused
   * transactions: the checkpoint never falls, and what has been handled is
   * exactly the chain between the first checkpoint and the current one.
   */
  lemma {:induction false} PrefixSafety(s: State, ticks: seq<Tick>)
    requires ValidChain(s.chain) && s.cp != 0 && s.log == [] && ChainStaysValid(s, ticks)
    ensures HandledPrefix(s.cp, Run(s, ticks))
    ensures ticks != [] ==> Run(s, ticks[..|ticks| - 1]).cp <= Run(s, ticks).cp
    decreases |ticks|
  {
    if ticks == [] {
      assert s.chain[Above(s.chain, s.cp)..Above(s.chain, s.cp)] == [];
    } else {
      var n := |ticks| - 1;
      StaysValidBefore(s, ticks);
      PrefixSafety(s, ticks[..n]);
      StepExtendsPrefix(s.cp, Run(s, ticks[..n]), ticks[n]);
    }
  }

  /** The first batch fetched after a refusal starts with the refused transaction, however the chain has grown. */
  lemma RefusedComesFirst(c: seq<Tx>, cp: nat, pages: nat, accepts: nat, grown: seq<Tx>, later: nat)
    requires ValidChain(c + grown) && cp != 0 && Cycle(c, cp, pages, accepts).mood.Refused?
    requires Batch(c + grown, Cycle(c, cp, pages, accepts).cp, later).Some?
    ensures
      var again := Batch(c + grown, Cycle(c, cp, pages, accepts).cp, later).value;
      again != [] && again[0] == Batch(c, cp, pages).value[accepts]
  {
    var at, next := Cycle(c, cp, pages, accepts).cp, Above(c, cp) + accepts;
    PrefixValid(c, grown);
    StopsAt(c, cp, pages, accepts);
    AbovePassed(c, grown, at);
    BatchIsTheGap(c + grown, at, later);
    assert (c + grown)[next] == c[next];
  }

  /** A refusal leaves the checkpoint right before the refused transaction. */
  lemma StopsAt(c: seq<Tx>, cp: nat, pages: nat, accepts: nat)
    requires ValidChain(c) && cp != 0 && Cycle(c, cp, pages, accepts).mood.Refused?
    ensures
      var at, next := Cycle(c, cp, pages, accepts).cp, Above(c, cp) + accepts;
      && at != 0 && next < |c| && Above(c, at) == next && Batch(c, cp, pages).value[accepts] == c[next]
  {
    BatchIsTheGap(c, cp, pages);
    if accepts > 0 {
      ChainFacts(c);
      AboveAt(c, Above(c, cp) + accepts - 1);
    }
  }

  // ---------------------------------------------------------------- the program

  /** The API client: answers `pages` requests about the current chain, then fails. */
  class Client {
    var chain: seq<Tx>
    var pages: nat

    constructor (chain: seq<Tx>, pages: nat)
      ensures this.chain == chain && this.pages == pages
    {
      this.chain, this.pages := chain, pages;
    }

    /** The server's answer: any of the page's transactions any number of times, in any order, then the page. */
    static method Serve(page: seq<Tx>) returns (raw: seq<Tx>)
      ensures SameElements(raw, page)
    {
      raw := page;
      var repeats: int := *;
      while repeats > 0
        invariant SameElements(raw, page)
      {
        var i: int := *;
        if 0 <= i < |page| {
          raw := [page[i]] + raw;
        }
        repeats := repeats - 1;
      }
    }

    /** The answer lists the transactions of a page in any order, possibly repeated; it is normalised newest first. */
    method GetTransactions(at: Option<nat>) returns (txs: Option<seq<Tx>>)
      requires ValidChain(chain)
      modifies this`pages
      ensures txs.Some? == (old(pages) > 0) && pages == old(pages) - (if txs.Some? then 1 else 0)
      ensures
        var n := if at.None? then |chain| else Above(chain, at.value);
        txs.Some? ==> SameElements(txs.value, Page(chain, n))
    {
      if pages == 0 {
        return None;
      }
      pages := pages - 1;
      var n := if at.None? then |chain| else Above(chain, at.value);
      var page := Page(chain, n);
      var raw := Serve(page);
      var normalized, _ := NormalizeTransactions(raw, false);
      forall x | x in page
        ensures x in normalized
      {
        FirstInBatch(chain, Max(0, n - PAGE), n, raw, x);
      }
      txs := Some(normalized);
    }
  }

  /** The transaction handler: accepts `accepts` transactions, then refuses. */
  class Handler {
    var accepts: nat
    var handled: seq<Tx>

    constructor (accepts: nat)
      ensures this.accepts == accepts && handled == []
    {
      this.accepts, handled := accepts, [];
    }

    method HandleTransaction(tx: Tx) returns (ok: bool)
      modifies this
      ensures ok == (old(accepts) > 0)
      ensures accepts == old(accepts) - (if ok then 1 else 0)
      ensures handled == old(handled) + if ok then [tx] else []
    {
      ok := accepts > 0;
      if ok {
        accepts := accepts - 1;
        handled := handled + [tx];
      }
    }
  }

  const BACKOFF_INITIAL: nat := 1_000_000_000
  const BACKOFF_MAX: nat := 16_000_000_000

  function NextBackoff(backoff: nat): nat {
    if backoff == 0 then BACKOFF_INITIAL else Min(2 * backoff, BACKOFF_MAX)
  }

  /** The backoff after so many failed requests in a row. */
  function BackoffAfter(start: nat, failures: nat): nat {
    if failures == 0 then start else NextBackoff(BackoffAfter(start, failures - 1))
  }

  /** Seconds double from one to sixteen; after a success the doubling starts from the first second already. */
  lemma {:induction false} BackoffDoubles(n: nat)
    ensures BackoffAfter(0, n + 1) == Min(Interval.Pow2(n), 16) * 1_000_000_000
    ensures BackoffAfter(1_000_000_000, n) == Min(Interval.Pow2(n), 16) * 1_000_000_000
  {
    if n > 0 {
      BackoffDoubles(n - 1);
      assert Interval.Pow2(n) == 2 * Interval.Pow2(n - 1);
    }
  }

  /** The logical time before transaction `n` of a batch: that of the one before it, or the checkpoint. */
  function Preceding(txs: seq<Tx>, cp: nat, n: nat): nat
    requires n <= |txs|
  {
    if n == 0 then cp else txs[n - 1].lt
  }

  ghost predicate Rises(txs: seq<Tx>, cp: nat) {
    forall n :: 0 <= n < |txs| ==> txs[n].lt > Preceding(txs, cp, n)
  }

  class Poller {
    var lastProcessedLt: nat
    var currentInterval: int
    const minInterval: int
    const maxInterval: int
    var backoff: nat
    var consecutiveErrors: nat

    constructor (start: nat, min: int, max: int)
      ensures lastProcessedLt == start
      ensures (minInterval, maxInterval) == Interval.Normalize(min, max) && currentInterval == maxInterval
      ensures backoff == 0 && consecutiveErrors == 0
    {
      var (lo, hi) := Interval.Normalize(min, max);
      lastProcessedLt, minInterval, maxInterval, currentInterval := start, lo, hi, hi;
      backoff, consecutiveErrors := 0, 0;
    }

    method AdjustInterval(active: bool)
      modifies this`currentInterval
      ensures currentInterval == Interval.Adjust(old(currentInterval), minInterval, maxInterval, active)
    {
      if active {
        currentInterval := Interval.Quotient(Interval.Wrap(currentInterval * 2), 3);
        if currentInterval < minInterval {
          currentInterval := minInterval;
        }
      } else {
        currentInterval := Interval.Quotient(Interval.Wrap(currentInterval * 3), 2);
        if currentInterval > maxInterval {
          currentInterval := maxInterval;
        }
      }
    }

    method HandleError()
      modifies this`currentInterval, this`backoff, this`consecutiveErrors
      ensures consecutiveErrors == old(consecutiveErrors) + 1
      ensures backoff == NextBackoff(old(backoff))
      ensures currentInterval == Interval.Adjust(old(currentInterval), minInterval, maxInterval, false)
    {
      consecutiveErrors := consecutiveErrors + 1;
      if backoff == 0 {
        backoff := BACKOFF_INITIAL;
      } else {
        backoff := backoff * 2;
        if backoff > BACKOFF_MAX {
          backoff := BACKOFF_MAX;
        }
      }
      AdjustInterval(false);
    }

    /** The transactions newer than the checkpoint. */
    method Newer(txs: seq<Tx>) returns (newer: seq<Tx>)
      ensures forall x :: x in newer <==> x in txs && x.lt > lastProcessedLt
    {
      newer := [];
      for i := 0 to |txs|
        invariant forall x :: x in newer <==> x in txs[..i] && x.lt > lastProcessedLt
      {
        assert txs[..i + 1] == txs[..i] + [txs[i]];
        if txs[i].lt > lastProcessedLt {
          newer := newer + [txs[i]];
        }
      }
      assert txs[..|txs|] == txs;
    }

    /** The newest page, cut at the checkpoint. */
    method FetchNewest(client: Client) returns (txs: Option<seq<Tx>>)
      requires ValidChain(client.chain)
      modifies client`pages
      ensures txs.Some? == (old(client.pages) > 0) && client.pages == Max(0, old(client.pages) - 1)
      ensures txs.Some? ==> txs.value == client.chain[FirstPageStart(client.chain, lastProcessedLt)..]
    {
      ghost var c, cp := client.chain, lastProcessedLt;
      var page := client.GetTransactions(None);
      if page.None? {
        return None;
      }
      var newTxs := Newer(page.value);
      NewerIsSegment(c, cp, Max(0, |c| - PAGE), |c|, page.value, newTxs);
      newTxs := Merge(c, FirstPageStart(c, cp), |c|, newTxs);
      txs := Some(newTxs);
    }

    /** One more page, from the link of the oldest transaction known, merged in front. */
    method FetchOlder(client: Client, newTxs: seq<Tx>, ghost i: nat) returns (txs: Option<seq<Tx>>)
      requires ValidChain(client.chain) && Above(client.chain, lastProcessedLt) < i < |client.chain|
      requires newTxs == client.chain[i..]
      modifies client`pages
      ensures txs.Some? == (old(client.pages) > 0) && client.pages == Max(0, old(client.pages) - 1)
      ensures txs.Some? ==> txs.value == client.chain[Max(Above(client.chain, lastProcessedLt), i - PAGE)..]
    {
      ghost var c, cp := client.chain, lastProcessedLt;
      ChainLinks(c, i);
      AboveAt(c, i - 1);
      var page := client.GetTransactions(Some(newTxs[0].prevLt));
      if page.None? {
        return None;
      }
      var added := Newer(page.value);
      ghost var j: nat := Max(Above(c, cp), i - PAGE);
      NewerIsSegment(c, cp, Max(0, i - PAGE), i, page.value, added);
      // An honest page is never empty here, so the two early exits of the source loop are not taken.
      assert c[j..i] != [] ==> c[j..i][0] in added;
      MergedSegments(c, j, i, newTxs, added);
      var merged := Merge(c, j, |c|, newTxs + added);
      txs := Some(merged);
    }

    /** Walk back from the oldest transaction known until its link reaches the checkpoint. */
    method BridgeGap(client: Client, newest: seq<Tx>, ghost start: nat) returns (batch: Option<seq<Tx>>)
      requires ValidChain(client.chain) && Above(client.chain, lastProcessedLt) <= start < |client.chain|
      requires newest == client.chain[start..]
      modifies client`pages
      ensures batch.Some? == Bridge(client.chain, lastProcessedLt, start, old(client.pages)).Some?
      ensures batch.Some? ==> batch.value == client.chain[Above(client.chain, lastProcessedLt)..]
    {
      ghost var c, cp, i := client.chain, lastProcessedLt, start;
      var newTxs := newest;
      var oldest := newTxs[0];
      while oldest.prevLt != 0 && oldest.prevLt > lastProcessedLt
        invariant client.chain == c && Above(c, cp) <= i < |c| && newTxs == c[i..] && oldest == c[i]
        invariant Bridge(c, cp, i, client.pages) == Bridge(c, cp, start, old(client.pages))
        decreases i
      {
        ChainLinks(c, i);
        AboveAtIndex(c, cp, i - 1);
        var longer := FetchOlder(client, newTxs, i);
        if longer.None? {
          return None;
        }
        newTxs := longer.value;
        i := Max(Above(c, cp), i - PAGE);
        oldest := newTxs[0];
      }
      ChainLinks(c, i);
      if i > 0 {
        AboveAtIndex(c, cp, i - 1);
      }
      batch := Some(newTxs);
    }

    /** Fetch and merge pages until the batch reaches the checkpoint; None when a request fails. */
    method CollectBatch(client: Client) returns (batch: Option<seq<Tx>>)
      requires ValidChain(client.chain)
      modifies client`pages, this`consecutiveErrors, this`backoff
      ensures batch == Batch(client.chain, lastProcessedLt, old(client.pages))
      ensures if old(client.pages) == 0 then backoff == old(backoff) && consecutiveErrors == old(consecutiveErrors)
              else backoff == BACKOFF_INITIAL && consecutiveErrors == 0
    {
      batch := FetchNewest(client);
      if batch.None? {
        return;
      }
      consecutiveErrors := 0;
      backoff := BACKOFF_INITIAL;
      if batch.value != [] && lastProcessedLt != 0 {
        batch := BridgeGap(client, batch.value, FirstPageStart(client.chain, lastProcessedLt));
      }
    }

    /** Normalise a batch that holds the transactions of one stretch of the chain. */
    method Merge(ghost c: seq<Tx>, ghost i: nat, ghost j: nat, txs: seq<Tx>) returns (merged: seq<Tx>)
      requires ValidChain(c) && i <= j <= |c| && SameElements(txs, c[i..j])
      ensures merged == c[i..j] && (j == |c| ==> merged == c[i..])
    {
      var duplicates: nat;
      merged, duplicates := NormalizeTransactions(txs, true);
      NormalizedSegment(c, i, j, txs, merged);
    }

    /** The handling loop: oldest first, stop at the first refusal. */
    method HandleBatch(handler: Handler, txs: seq<Tx>) returns (failed: bool, saved: Option<nat>)
      requires Rises(txs, lastProcessedLt)
      modifies this`lastProcessedLt, handler
      ensures
        var n := Min(old(handler.accepts), |txs|);
        && failed == (n < |txs|)
        && handler.handled == old(handler.handled) + txs[..n]
        && lastProcessedLt == (if n == 0 then old(lastProcessedLt) else txs[n - 1].lt)
        && saved == (if n == 0 then None else Some(txs[n - 1].lt))
    {
      ghost var cp, accepts := lastProcessedLt, handler.accepts;
      saved := None;
      failed := false;
      var n := 0;
      while n < |txs| && !failed
        invariant 0 <= n <= |txs|
        invariant handler.accepts == accepts - n && n <= accepts
        invariant handler.handled == old(handler.handled) + txs[..n]
        invariant lastProcessedLt == if n == 0 then cp else txs[n - 1].lt
        invariant saved == if n == 0 then None else Some(txs[n - 1].lt)
        invariant failed ==> n == accepts && n < |txs|
        decreases |txs| - n, !failed
      {
        assert txs[n].lt > Preceding(txs, cp, n);
        var ok := handler.HandleTransaction(txs[n]);
        if !ok {
          failed := true;
        } else {
          if txs[n].lt > lastProcessedLt {
            lastProcessedLt := txs[n].lt;
            saved := Some(txs[n].lt);
          }
          n := n + 1;
        }
      }
    }

    /** One tick of the polling loop; `saved` is what the checkpoint callback receives. */
    method Poll(client: Client, handler: Handler) returns (saved: Option<nat>)
      requires ValidChain(client.chain)
      modifies this, client`pages, handler
      ensures
        var o := Cycle(client.chain, old(lastProcessedLt), old(client.pages), old(handler.accepts));
        && lastProcessedLt == o.cp
        && handler.handled == old(handler.handled) + o.handled
        && saved == o.saved
        && currentInterval == Interval.Adjust(old(currentInterval), minInterval, maxInterval, o.mood.Worked?)
        && var reached := if old(client.pages) == 0 then old(backoff) else BACKOFF_INITIAL;
           backoff == if o.mood.FetchError? then NextBackoff(reached) else reached
    {
      ghost var c, cp := client.chain, lastProcessedLt;
      var batch := CollectBatch(client);
      if batch.None? {
        HandleError();
        return None;
      }
      var txs := batch.value;
      if txs == [] {
        AdjustInterval(false);
        return None;
      }
      BatchRises(c, cp, old(client.pages));
      var failed: bool;
      failed, saved := HandleBatch(handler, txs);
      AdjustInterval(!failed);
    }
  }

  // ---------------------------------------------------------------- batches inside the cycle

  /** Each transaction of a batch is newer than the checkpoint and the one before it. */
  lemma BatchRises(c: seq<Tx>, cp: nat, pages: nat)
    requires ValidChain(c) && Batch(c, cp, pages).Some?
    ensures Rises(Batch(c, cp, pages).value, cp)
  {
    var i := BatchStart(c, cp, pages).value;
    StretchRises(c, cp, i);
  }

  lemma StretchRises(c: seq<Tx>, cp: nat, i: nat)
    requires ValidChain(c) && Above(c, cp) <= i <= |c|
    ensures Rises(c[i..], cp)
  {
    forall n | 0 <= n < |c| - i
      ensures c[i..][n].lt > Preceding(c[i..], cp, n)
    {
      AboveAtIndex(c, cp, i + n);
      if n > 0 {
        Later(c, i + n - 1, i + n);
      }
    }
  }

  /** The elements of a stretch are those at its positions. */
  lemma InStretch(c: seq<Tx>, i: nat, j: nat, x: Tx)
    requires i <= j <= |c|
    ensures x in c[i..j] <==> exists n :: i <= n < j && c[n] == x
  {
    if x in c[i..j] {
      var m :| 0 <= m < j - i && c[i..j][m] == x;
      assert c[i + m] == x;
    }
    if n :| i <= n < j && c[n] == x {
      assert c[i..j][n - i] == x;
    }
  }

  /** Dropping what the checkpoint covers from a page leaves a stretch of the chain. */
  lemma NewerIsSegment(c: seq<Tx>, cp: nat, i: nat, j: nat, page: seq<Tx>, newer: seq<Tx>)
    requires ValidChain(c) && i <= j <= |c| && Above(c, cp) <= j
    requires SameElements(page, c[i..j]) && forall x :: x in newer <==> x in page && x.lt > cp
    ensures SameElements(newer, c[Max(Above(c, cp), i)..j])
  {
    forall x
      ensures x in newer <==> x in c[Max(Above(c, cp), i)..j]
    {
      NewerInSegment(c, cp, i, j, x);
    }
  }

  lemma NewerInSegment(c: seq<Tx>, cp: nat, i: nat, j: nat, x: Tx)
    requires ValidChain(c) && i <= j <= |c| && Above(c, cp) <= j
    ensures x in c[i..j] && x.lt > cp <==> x in c[Max(Above(c, cp), i)..j]
  {
    var k := Max(Above(c, cp), i);
    InStretch(c, i, j, x);
    InStretch(c, k, j, x);
    AboveSplits(c, cp);
  }

  lemma MergedSegments(c: seq<Tx>, j: nat, i: nat, late: seq<Tx>, early: seq<Tx>)
    requires j <= i <= |c| && late == c[i..] && SameElements(early, c[j..i])
    ensures SameElements(late + early, c[j..|c|])
  {
    assert c[j..|c|] == c[j..i] + c[i..];
  }
}
