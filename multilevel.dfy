/**
 * The multi-level bucket cache: N ordered tiers behind one Fetch / Store /
 * Name interface, writing back to the faster tiers through an
 * asynchronous processor.
 */
module MultiLevel {
  import opened Wrappers
  import opened Tiers
  import opened Config
  import opened Async
  import opened Naming
  import opened Cascade

  // ---------------------------------------------------------------------
  // The write plans of Store and of the backfill pass

  /** Store's attempts: one per tier, in tier order, all with the same data and TTL. */
  function StoreWrites(n: nat, data: map<Key, Value>, ttl: Duration): (r: seq<Write>)
    ensures |r| == n && InTierOrder(r)
    ensures forall w :: w in r ==> w.tier < n && w.items == data && w.ttl == ttl
  {
    seq(n, i requires 0 <= i < n => Write(i, data, ttl))
  }

  lemma StoreWritesShape(n: nat, data: map<Key, Value>, ttl: Duration)
    ensures var ws := StoreWrites(n, data, ttl);
      && |ws| == n
      && InTierOrder(ws)
      && (forall i :: 0 <= i < n ==> ws[i].tier == i && ws[i].items == data && ws[i].ttl == ttl)
  {
  }

  /** One more tier, one more write at the end. */
  lemma StoreWritesSnoc(n: nat, data: map<Key, Value>, ttl: Duration)
    ensures StoreWrites(n + 1, data, ttl) == StoreWrites(n, data, ttl) + [Write(n, data, ttl)]
  {
    assert StoreWrites(n + 1, data, ttl)[..n] == StoreWrites(n, data, ttl);
  }

  /**
   * The backfill pass's attempts over the first `j` slots: one per
   * non-empty slot, in slot order, to the tier of the slot's index.
   */
  function BackfillUpTo(slots: seq<map<Key, Value>>, j: nat, ttl: Duration): seq<Write>
    requires j <= |slots|
  {
    if j == 0 then []
    else BackfillUpTo(slots, j - 1, ttl) + (if |slots[j - 1]| > 0 then [Write(j - 1, slots[j - 1], ttl)] else [])
  }

  /** The whole backfill pass; its writes go out in tier order. */
  function BackfillWrites(slots: seq<map<Key, Value>>, ttl: Duration): (r: seq<Write>)
    ensures InTierOrder(r)
  {
    BackfillUpToOrder(slots, |slots|, ttl);
    BackfillUpTo(slots, |slots|, ttl)
  }

  /**
   * A backfill write is scheduled for tier `t` exactly when slot `t` is
   * non-empty, and it carries that slot and the backfill TTL.
   */
  lemma {:induction false} BackfillUpToMembers(slots: seq<map<Key, Value>>, j: nat, ttl: Duration, w: Write)
    requires j <= |slots|
    ensures w in BackfillUpTo(slots, j, ttl) <==>
      w.tier < j && |slots[w.tier]| > 0 && w == Write(w.tier, slots[w.tier], ttl)
  {
    if j > 0 {
      BackfillUpToMembers(slots, j - 1, ttl, w);
    }
  }

  /** The backfill writes go out in tier order. */
  lemma {:induction false} BackfillUpToOrder(slots: seq<map<Key, Value>>, j: nat, ttl: Duration)
    requires j <= |slots|
    ensures InTierOrder(BackfillUpTo(slots, j, ttl))
  {
    if j > 0 {
      var prev := BackfillUpTo(slots, j - 1, ttl);
      BackfillUpToOrder(slots, j - 1, ttl);
      forall v | v in prev ensures v.tier < j - 1 {
        BackfillUpToMembers(slots, j - 1, ttl, v);
      }
    }
  }

  /**
   * The whole backfill pass: one write per non-empty slot, in tier order,
   * never to the last tier (there are only N - 1 slots).
   */
  lemma BackfillMembers(slots: seq<map<Key, Value>>, ttl: Duration, w: Write)
    ensures w in BackfillWrites(slots, ttl) <==>
      w.tier < |slots| && |slots[w.tier]| > 0 && w == Write(w.tier, slots[w.tier], ttl)
    ensures InTierOrder(BackfillWrites(slots, ttl))
  {
    BackfillUpToMembers(slots, |slots|, ttl, w);
    BackfillUpToOrder(slots, |slots|, ttl);
  }

  /** No slot filled, nothing to backfill. */
  lemma {:induction false} NoBackfill(slots: seq<map<Key, Value>>, j: nat, ttl: Duration)
    requires j <= |slots|
    requires forall t :: 0 <= t < j ==> slots[t] == map[]
    ensures BackfillUpTo(slots, j, ttl) == []
  {
    if j > 0 {
      NoBackfill(slots, j - 1, ttl);
    }
  }

  /**
   * Hits found at the first tier never cause a backfill: when no later
   * consulted tier returned anything, every slot is empty and the backfill
   * pass makes no attempt.
   */
  lemma FirstTierHitsNoBackfill(T: seq<map<Key, Value>>, K: seq<Key>, ctx: Context, ttl: Duration)
    requires |T| >= 1
    requires var qs := CascadeOf(T, K, ctx).st.queries;
      forall i :: 1 <= i < |qs| ==> |Restrict(T[i], qs[i])| == 0
    ensures BackfillWrites(CascadeOf(T, K, ctx).st.slots, ttl) == []
  {
    var st := CascadeOf(T, K, ctx).st;
    forall j | 0 <= j < |st.slots| ensures st.slots[j] == map[] {
      CascadeSlots(T, K, ctx, j, []);
    }
    NoBackfill(st.slots, |st.slots|, ttl);
  }

  // ---------------------------------------------------------------------
  // The loops inside Fetch

  /** `for k, v := range from { into[k] = v }`. */
  method Merge(into: map<Key, Value>, from: map<Key, Value>) returns (r: map<Key, Value>)
    ensures r.Keys == into.Keys + from.Keys
    ensures forall k :: k in from ==> r[k] == from[k]
    ensures forall k :: k in into && k !in from ==> r[k] == into[k]
  {
    r := into;
    var rest := from.Keys;
    while rest != {}
      invariant rest <= from.Keys
      invariant r.Keys == into.Keys + (from.Keys - rest)
      invariant forall k :: k in from && k !in rest ==> r[k] == from[k]
      invariant forall k :: k in into && k !in from ==> r[k] == into[k]
      invariant forall k :: k in into && k in rest ==> r[k] == into[k]
      decreases rest
    {
      var k :| k in rest;
      r := r[k := from[k]];
      rest := rest - {k};
    }
  }

  /** A merge is the map union, later entries winning. */
  lemma MergeIsUnion(into: map<Key, Value>, from: map<Key, Value>, r: map<Key, Value>)
    requires r.Keys == into.Keys + from.Keys
    requires forall k :: k in from ==> r[k] == from[k]
    requires forall k :: k in into && k !in from ==> r[k] == into[k]
    ensures r == into + from
  {
  }

  /**
   * `m := missingKeys[:0]; for _, key := range missingKeys { if not a hit
   * { m = append(m, key) } }`: the surviving keys are compacted to the
   * front of the array they were read from; the rest of it is untouched.
   */
  method CompactMissing(keys: array<Key>, n: nat, hits: map<Key, Value>) returns (w: nat)
    requires n <= keys.Length
    modifies keys
    ensures w <= n
    ensures keys[..w] == Filter(old(keys[..n]), hits)
    ensures keys[w..] == old(keys[w..])
  {
    ghost var orig := keys[..];
    w := 0;
    var r := 0;
    while r < n
      invariant w <= r <= n
      invariant keys[..w] == Filter(orig[..r], hits)
      invariant keys[w..] == orig[w..]
    {
      var key := keys[r];
      assert key == orig[r];
      assert orig[..r + 1] == orig[..r] + [key];
      FilterSnoc(orig[..r], key, hits);
      if key !in hits {
        ghost var before := keys[..];
        keys[w] := key;
        assert keys[..] == before[w := key];
        assert keys[..w + 1] == before[..w] + [key];
        assert keys[w + 1..] == before[w + 1..];
        w := w + 1;
      }
      r := r + 1;
    }
    assert orig[..r] == old(keys[..n]);
  }

  // ---------------------------------------------------------------------
  // The coordinator

  class MultiLevelBucketCache {
    const name: string
    const caches: seq<Tier>
    const processor: AsyncOperationProcessor
    /** Stored from the configuration and never consulted. */
    const maxBackfillItems: int
    const backfillTTL: Duration
    /** The two drop counters: attempts that found the processor's buffer full. */
    var storeDroppedItems: nat
    var backfillDroppedItems: nat

    /** A coordinator has at least two tiers; one tier is returned bare. */
    predicate Valid()
    {
      |caches| >= 2
    }

    constructor (name: string, cfg: MultiLevelBucketCacheConfig, admit: nat -> bool, caches: seq<Tier>)
      requires |caches| >= 2
      ensures Valid()
      ensures this.name == name && this.caches == caches
      ensures fresh(processor)
      ensures processor.bufferSize == cfg.maxAsyncBufferSize
      ensures processor.concurrency == cfg.maxAsyncConcurrency
      ensures processor.admit == admit
      ensures processor.attempts == 0 && processor.scheduled == []
      ensures maxBackfillItems == cfg.maxBackfillItems && backfillTTL == cfg.backfillTTL
      ensures storeDroppedItems == 0 && backfillDroppedItems == 0
    {
      this.name := name;
      this.caches := caches;
      processor := new AsyncOperationProcessor(cfg.maxAsyncBufferSize, cfg.maxAsyncConcurrency, admit);
      maxBackfillItems := cfg.maxBackfillItems;
      backfillTTL := cfg.backfillTTL;
      storeDroppedItems := 0;
      backfillDroppedItems := 0;
    }

    /** The logical name the coordinator was built with. */
    function Name(): (r: string)
      ensures r == name
    {
      name
    }

    /** Names and help texts of the four metrics registered at construction; the four names differ. */
    function Metrics(): (r: Instruments)
      ensures r == InstrumentsFor(name)
      ensures && r.fetchLatency.name != r.backfillLatency.name
              && r.fetchLatency.name != r.storeDroppedItems.name
              && r.fetchLatency.name != r.backfillDroppedItems.name
              && r.backfillLatency.name != r.storeDroppedItems.name
              && r.backfillLatency.name != r.backfillDroppedItems.name
              && r.storeDroppedItems.name != r.backfillDroppedItems.name
    {
      InstrumentNamesDistinct(name);
      InstrumentsFor(name)
    }

    /**
     * Write `data` to every tier through the processor: one enqueue
     * attempt per tier in tier order; each buffer-full rejection is
     * counted, nothing is returned and nothing else changes.
     */
    method Store(data: map<Key, Value>, ttl: Duration)
      modifies processor, this`storeDroppedItems
      ensures processor.attempts == old(processor.attempts) + |caches|
      ensures processor.scheduled == old(processor.scheduled) +
        Accepted(processor.admit, old(processor.attempts), StoreWrites(|caches|, data, ttl))
      ensures storeDroppedItems ==
        old(storeDroppedItems) + Rejected(processor.admit, old(processor.attempts), |caches|)
    {
      ghost var start := processor.attempts;
      ghost var scheduled0 := processor.scheduled;
      ghost var dropped0 := storeDroppedItems;
      var i := 0;
      while i < |caches|
        invariant i <= |caches|
        invariant processor.attempts == start + i
        invariant processor.scheduled == scheduled0 + Accepted(processor.admit, start, StoreWrites(i, data, ttl))
        invariant storeDroppedItems == dropped0 + Rejected(processor.admit, start, i)
      {
        StoreAttempt(i, data, ttl, start, scheduled0, dropped0);
        i := i + 1;
      }
    }

    /** Store's attempt for tier `i`, after the attempts for the tiers before it. */
    method StoreAttempt(i: nat, data: map<Key, Value>, ttl: Duration,
                        ghost start: nat, ghost scheduled0: seq<Write>, ghost dropped0: nat)
      requires processor.attempts == start + i
      requires processor.scheduled == scheduled0 + Accepted(processor.admit, start, StoreWrites(i, data, ttl))
      requires storeDroppedItems == dropped0 + Rejected(processor.admit, start, i)
      modifies processor, this`storeDroppedItems
      ensures processor.attempts == start + i + 1
      ensures processor.scheduled == scheduled0 + Accepted(processor.admit, start, StoreWrites(i + 1, data, ttl))
      ensures storeDroppedItems == dropped0 + Rejected(processor.admit, start, i + 1)
    {
      var w := Write(i, data, ttl);
      StoreWritesSnoc(i, data, ttl);
      AcceptedSnoc(processor.admit, start, StoreWrites(i, data, ttl), w);
      var res := processor.EnqueueAsync(w);
      if res == ErrAsyncBufferFull {
        storeDroppedItems := storeDroppedItems + 1;
      }
    }

    /**
     * One pass of Fetch's loop body after the cancellation check: ask tier
     * `i` for the missing keys, merge its answer into the hits and, past the
     * first tier, compact the missing keys and fill slot `i - 1`. The new
     * state is the cascade's `Step` from the old one.
     */
    method Consult(ghost T: seq<map<Key, Value>>, i: nat, keys: array<Key>, missLen: nat,
                   hits: map<Key, Value>, backfill: array<map<Key, Value>>, ghost st: Loop)
      returns (data: map<Key, Value>, hits': map<Key, Value>, missLen': nat)
      requires i < |caches| == |T| && backfill.Length + 1 == |caches| && T[i] == caches[i].contents
      requires missLen <= keys.Length
      requires st == Loop(hits, keys[..], missLen, backfill[..], st.data, st.queries)
      requires |st.queries| == i
      modifies keys, backfill
      ensures backfill[i..] == old(backfill[i..])
      ensures Step(T, st) == Loop(hits', keys[..], missLen', backfill[..], data, st.queries + [old(keys[..missLen])])
    {
      var q := keys[..missLen];
      data := caches[i].Fetch(q);
      assert data == Answer(T, st);
      hits' := hits;
      missLen' := missLen;
      if |data| == 0 {
        StepNothing(T, st);
      } else {
        hits' := Merge(hits, data);
        MergeIsUnion(hits, data, hits');
        if i > 0 && |hits'| > 0 {
          StepLater(T, st);
          missLen' := Narrow(i, keys, missLen, hits', backfill);
        } else {
          StepFirst(T, st);
        }
      }
    }

    /**
     * Past the first tier: compact the missing keys in place and copy the
     * whole hit map into slot `i - 1`.
     */
    method Narrow(i: nat, keys: array<Key>, missLen: nat, hits: map<Key, Value>,
                  backfill: array<map<Key, Value>>) returns (missLen': nat)
      requires 0 < i <= backfill.Length && missLen <= keys.Length
      modifies keys, backfill
      ensures var m := Filter(old(keys[..missLen]), hits);
        && missLen' == |m|
        && keys[..] == m + old(keys[..])[|m|..]
        && backfill[..] == old(backfill[..])[i - 1 := old(backfill[i - 1]) + hits]
        && backfill[i..] == old(backfill[i..])
    {
      missLen' := CompactMissing(keys, missLen, hits);
      assert keys[..] == keys[..missLen'] + keys[missLen'..];
      var slot := Merge(backfill[i - 1], hits);
      MergeIsUnion(backfill[i - 1], hits, slot);
      backfill[i - 1] := slot;
    }

    /**
     * The deferred backfill pass: one enqueue attempt per non-empty slot,
     * in slot order, writing the slot to the tier of the same index with
     * the backfill TTL; each buffer-full rejection is counted.
     */
    method ScheduleBackfill(slots: seq<map<Key, Value>>)
      modifies processor, this`backfillDroppedItems
      ensures var ws := BackfillWrites(slots, backfillTTL);
        && processor.attempts == old(processor.attempts) + |ws|
        && processor.scheduled == old(processor.scheduled) + Accepted(processor.admit, old(processor.attempts), ws)
        && backfillDroppedItems ==
             old(backfillDroppedItems) + Rejected(processor.admit, old(processor.attempts), |ws|)
    {
      ghost var start := processor.attempts;
      ghost var admit := processor.admit;
      ghost var scheduled0 := processor.scheduled;
      ghost var dropped0 := backfillDroppedItems;
      ghost var ws: seq<Write> := [];
      var j := 0;
      while j < |slots|
        invariant j <= |slots|
        invariant ws == BackfillUpTo(slots, j, backfillTTL)
        invariant processor.attempts == start + |ws|
        invariant processor.scheduled == scheduled0 + Accepted(admit, start, ws)
        invariant backfillDroppedItems == dropped0 + Rejected(admit, start, |ws|)
      {
        ws := BackfillSlot(slots, j, start, scheduled0, dropped0, ws);
        j := j + 1;
      }
    }

    /** The backfill pass at slot `j`: one write, attempted only when the slot is non-empty. */
    method BackfillSlot(slots: seq<map<Key, Value>>, j: nat, ghost start: nat, ghost scheduled0: seq<Write>,
                        ghost dropped0: nat, ghost ws: seq<Write>) returns (ghost ws': seq<Write>)
      requires j < |slots| && ws == BackfillUpTo(slots, j, backfillTTL)
      requires processor.attempts == start + |ws|
      requires processor.scheduled == scheduled0 + Accepted(processor.admit, start, ws)
      requires backfillDroppedItems == dropped0 + Rejected(processor.admit, start, |ws|)
      modifies processor, this`backfillDroppedItems
      ensures ws' == BackfillUpTo(slots, j + 1, backfillTTL)
      ensures processor.attempts == start + |ws'|
      ensures processor.scheduled == scheduled0 + Accepted(processor.admit, start, ws')
      ensures backfillDroppedItems == dropped0 + Rejected(processor.admit, start, |ws'|)
    {
      if |slots[j]| > 0 {
        var w := Write(j, slots[j], backfillTTL);
        EnqueueBackfill(w, start, scheduled0, dropped0, ws);
        ws' := ws + [w];
      } else {
        ws' := ws;
      }
      assert ws' == BackfillUpTo(slots, j + 1, backfillTTL);
    }

    /**
     * One backfill attempt, the next after the attempts `ws` numbered from
     * `start`: its write is logged when admitted, and a buffer-full
     * rejection is counted.
     */
    method EnqueueBackfill(w: Write, ghost start: nat, ghost scheduled0: seq<Write>, ghost dropped0: nat,
                           ghost ws: seq<Write>)
      requires processor.attempts == start + |ws|
      requires processor.scheduled == scheduled0 + Accepted(processor.admit, start, ws)
      requires backfillDroppedItems == dropped0 + Rejected(processor.admit, start, |ws|)
      modifies processor, this`backfillDroppedItems
      ensures processor.attempts == start + |ws| + 1
      ensures processor.scheduled == scheduled0 + Accepted(processor.admit, start, ws + [w])
      ensures backfillDroppedItems == dropped0 + Rejected(processor.admit, start, |ws| + 1)
    {
      AcceptedSnoc(processor.admit, start, ws, w);
      var res := processor.EnqueueAsync(w);
      if res == ErrAsyncBufferFull {
        backfillDroppedItems := backfillDroppedItems + 1;
      }
    }

    /**
     * Look `keys` up tier by tier (see the Cascade module), then schedule
     * one backfill write per non-empty slot. A cancelled fetch returns
     * `None` (Go's nil) and schedules nothing; `keys` is compacted in place
     * as the cascade goes.
     */
    method Fetch(ctx: Context, keys: array<Key>) returns (r: Option<map<Key, Value>>)
      requires Valid()
      modifies keys, processor, this`backfillDroppedItems
      ensures var o := CascadeOf(Snapshot(caches), old(keys[..]), ctx);
        && keys[..] == o.st.buf
        && (o.cancelled ==>
              && r == None
              && processor.attempts == old(processor.attempts)
              && processor.scheduled == old(processor.scheduled)
              && backfillDroppedItems == old(backfillDroppedItems))
        && (!o.cancelled ==>
              var ws := BackfillWrites(o.st.slots, backfillTTL);
              && r == Some(o.st.hits)
              && processor.attempts == old(processor.attempts) + |ws|
              && processor.scheduled == old(processor.scheduled) +
                   Accepted(processor.admit, old(processor.attempts), ws)
              && backfillDroppedItems ==
                   old(backfillDroppedItems) + Rejected(processor.admit, old(processor.attempts), |ws|))
    {
      var cancelled, hits, slots := Lookup(ctx, keys);
      if cancelled {
        return None;
      }
      ScheduleBackfill(slots);
      r := Some(hits);
    }

    /**
     * The tier loop of Fetch: the cancellation check, then one `Consult`
     * per tier until the hit count reaches `len(keys)` or the tiers run
     * out. Its outcome is the cascade's.
     */
    method Lookup(ctx: Context, keys: array<Key>)
      returns (cancelled: bool, hits: map<Key, Value>, slots: seq<map<Key, Value>>)
      requires Valid()
      modifies keys
      ensures var o := CascadeOf(Snapshot(caches), old(keys[..]), ctx);
        cancelled == o.cancelled && keys[..] == o.st.buf && hits == o.st.hits && slots == o.st.slots
    {
      ghost var T := Snapshot(caches);
      ghost var K := keys[..];
      ghost var o := CascadeOf(T, K, ctx);
      var n: nat := keys.Length;
      hits := map[];
      var missLen: nat := n;
      var backfill := new map<Key, Value>[|caches| - 1](_ => map[]);
      var data: map<Key, Value> := map[];
      ghost var queries: seq<seq<Key>> := [];
      assert backfill[..] == Init(T, K).slots;

      var i := 0;
      while i < |caches|
        invariant i == |queries| <= |caches|
        invariant missLen <= keys.Length == n
        invariant backfill.Length == |caches| - 1
        invariant forall j :: i <= j < backfill.Length ==> backfill[j] == map[]
        invariant Run(T, n, ctx, Loop(hits, keys[..], missLen, backfill[..], data, queries)) == o
        modifies keys, backfill
      {
        var stop;
        stop, cancelled, missLen, hits, data, queries := Round(T, ctx, i, keys, missLen, hits, backfill, data, queries);
        if stop {
          return cancelled, hits, backfill[..];
        }
        i := i + 1;
      }
      RunUnfolds(T, n, ctx, Loop(hits, keys[..], missLen, backfill[..], data, queries));
      return false, hits, backfill[..];
    }

    /**
     * One iteration of the tier loop of `Fetch`: reset slot `i`, check the
     * context, consult tier `i`, and decide whether to stop. Its effect is
     * one unfolding of `Run`: either the loop ends here with the new state,
     * or the rest of the cascade continues from it.
     */
    method Round(ghost T: seq<map<Key, Value>>, ctx: Context, i: nat, keys: array<Key>, missLen: nat,
                 hits: map<Key, Value>, backfill: array<map<Key, Value>>, data: map<Key, Value>,
                 ghost queries: seq<seq<Key>>)
      returns (stop: bool, cancelled: bool, missLen': nat, hits': map<Key, Value>,
               data': map<Key, Value>, ghost queries': seq<seq<Key>>)
      requires Valid() && T == Snapshot(caches)
      requires i == |queries| < |caches| && backfill.Length == |caches| - 1 && missLen <= keys.Length
      requires forall j :: |queries| <= j < backfill.Length ==> backfill[j] == map[]
      modifies keys, backfill
      ensures missLen' <= keys.Length
      ensures forall j :: |queries| < j < backfill.Length ==> backfill[j] == map[]
      ensures !stop ==> |queries'| == |queries| + 1
      ensures var n := keys.Length;
        var before := Loop(hits, old(keys[..]), missLen, old(backfill[..]), data, queries);
        var after := Loop(hits', keys[..], missLen', backfill[..], data', queries');
        Run(T, n, ctx, before) ==
          if stop then Outcome(cancelled, after) else Run(T, n, ctx, after)
    {
      ghost var st := Loop(hits, keys[..], missLen, backfill[..], data, queries);
      RunUnfolds(T, keys.Length, ctx, st);
      if i < |caches| - 1 {
        backfill[i] := map[];
        assert backfill[..] == st.slots;
      }
      if ctx.Err(i) {
        return true, true, missLen, hits, data, queries;
      }
      queries' := queries + [keys[..missLen]];
      data', hits', missLen' := Consult(T, i, keys, missLen, hits, backfill, st);
      ghost var next := Loop(hits', keys[..], missLen', backfill[..], data', queries');
      assert next == Step(T, st);
      stop, cancelled := |data'| > 0 && |hits'| == keys.Length, false;
    }
  }

  /** What `newMultiLevelBucketCache` hands back: the bare tier, or a coordinator. */
  datatype Cache = Single(tier: Tier) | Multi(coordinator: MultiLevelBucketCache)

  /** Construction: one tier is returned as it is; more get a fresh coordinator. */
  method NewMultiLevelBucketCache(name: string, cfg: MultiLevelBucketCacheConfig, admit: nat -> bool,
                                  c: seq<Tier>) returns (r: Cache)
    requires |c| >= 1
    ensures |c| == 1 ==> r == Single(c[0])
    ensures |c| >= 2 ==> r.Multi? && fresh(r.coordinator) && fresh(r.coordinator.processor)
    ensures |c| >= 2 ==> var m := r.coordinator;
      && m.Valid() && m.Name() == name && m.caches == c
      && m.processor.bufferSize == cfg.maxAsyncBufferSize
      && m.processor.concurrency == cfg.maxAsyncConcurrency
      && m.processor.admit == admit
      && m.processor.attempts == 0 && m.processor.scheduled == []
      && m.maxBackfillItems == cfg.maxBackfillItems && m.backfillTTL == cfg.backfillTTL
      && m.storeDroppedItems == 0 && m.backfillDroppedItems == 0
  {
    if |c| == 1 {
      return Single(c[0]);
    }
    var m := new MultiLevelBucketCache(name, cfg, admit, c);
    r := Multi(m);
  }
}
