/**
 * The value semantics of the multi-level Fetch: the tier cascade as a
 * recursive function over an explicit loop state (`Step`, `Run`,
 * `CascadeOf`), reference definitions of what that state should be
 * (`Hits`, `NextQuery`, `SlotSpec`), and the lemmas connecting the two.
 */
module Cascade {
  import opened Tiers

  /** A request context, as `ctx.Err()` sees it at the checks made before each tier. */
  datatype Context = Live | Cancelled(at: nat) {
    /** Whether `ctx.Err()` is non-nil at the check made before tier `i`. */
    predicate Err(i: nat)
    {
      Cancelled? && at <= i
    }
  }

  /** The keys of `q` that are not in `hits`, in their order in `q`. */
  function Filter(q: seq<Key>, hits: map<Key, Value>): (r: seq<Key>)
    ensures |r| <= |q|
    decreases |q|
  {
    if q == [] then []
    else
      var n := |q| - 1;
      Filter(q[..n], hits) + (if q[n] in hits then [] else [q[n]])
  }

  /** A key survives the filter exactly when it was asked for and is not yet a hit. */
  lemma {:induction false} FilterMembers(q: seq<Key>, hits: map<Key, Value>, k: Key)
    ensures k in Filter(q, hits) <==> k in q && k !in hits
    decreases |q|
  {
    if q != [] {
      var n := |q| - 1;
      FilterMembers(q[..n], hits, k);
      assert q == q[..n] + [q[n]];
    }
  }

  /** Filtering one more key appends it unless it is a hit. */
  lemma FilterSnoc(q: seq<Key>, k: Key, hits: map<Key, Value>)
    ensures Filter(q + [k], hits) == Filter(q, hits) + (if k in hits then [] else [k])
  {
    assert (q + [k])[..|q|] == q;
  }

  /** Filtering distributes over concatenation: relative order is kept. */
  lemma {:induction false} FilterConcat(p: seq<Key>, q: seq<Key>, hits: map<Key, Value>)
    ensures Filter(p + q, hits) == Filter(p, hits) + Filter(q, hits)
    decreases |q|
  {
    if q == [] {
      assert p + q == p;
    } else {
      var n := |q| - 1;
      var last := if q[n] in hits then [] else [q[n]];
      assert p + q == (p + q[..n]) + [q[n]];
      assert q == q[..n] + [q[n]];
      FilterSnoc(p + q[..n], q[n], hits);
      FilterSnoc(q[..n], q[n], hits);
      FilterConcat(p, q[..n], hits);
    }
  }

  /** The state the Fetch loop keeps, plus the record of what it asked each tier. */
  datatype Loop = Loop(
    hits: map<Key, Value>,
    /** The caller's key array; `missingKeys` is its prefix of length `missLen`. */
    buf: seq<Key>,
    missLen: nat,
    /** `backfillItems`: slot `j` is the backfill plan for tier `j`. */
    slots: seq<map<Key, Value>>,
    /** `data`: what the tier consulted last returned. */
    data: map<Key, Value>,
    /** The key list sent to each consulted tier, in tier order. */
    queries: seq<seq<Key>>)

  datatype Outcome = Outcome(cancelled: bool, st: Loop)

  predicate Shaped(T: seq<map<Key, Value>>, s: Loop)
  {
    |s.queries| <= |T| && s.missLen <= |s.buf| && |s.slots| + 1 == |T|
  }

  /** The state before the first tier: no hits, everything missing, N-1 empty slots. */
  function Init(T: seq<map<Key, Value>>, K: seq<Key>): (s: Loop)
    requires |T| >= 1
    ensures Shaped(T, s)
  {
    Loop(map[], K, |K|, seq(|T| - 1, j => map[]), map[], [])
  }

  /** What the next tier returns for the current missing keys. */
  function Answer(T: seq<map<Key, Value>>, s: Loop): map<Key, Value>
    requires Shaped(T, s) && |s.queries| < |T|
  {
    Restrict(T[|s.queries|], s.buf[..s.missLen])
  }

  /** Consulting tier `|s.queries|` and folding its answer into the state. */
  function Step(T: seq<map<Key, Value>>, s: Loop): (r: Loop)
    requires Shaped(T, s) && |s.queries| < |T|
    ensures Shaped(T, r) && |r.buf| == |s.buf| && |r.queries| == |s.queries| + 1
    ensures r.data == Answer(T, s)
  {
    var i := |s.queries|;
    var q := s.buf[..s.missLen];
    var data := Answer(T, s);
    var asked := s.(data := data, queries := s.queries + [q]);
    if |data| == 0 then asked
    else
      var h := s.hits + data;
      if i > 0 && |h| > 0 then
        var m := Filter(q, h);
        asked.(hits := h, buf := m + s.buf[|m|..], missLen := |m|,
               slots := s.slots[i - 1 := s.slots[i - 1] + h])
      else
        asked.(hits := h)
  }

  // `Step` field by field, one lemma per branch of the loop body.

  /** A tier that returns nothing only records the question. */
  lemma StepNothing(T: seq<map<Key, Value>>, s: Loop)
    requires Shaped(T, s) && |s.queries| < |T| && |Answer(T, s)| == 0
    ensures Step(T, s) == s.(data := Answer(T, s), queries := s.queries + [s.buf[..s.missLen]])
  {
  }

  /** The first tier's answer is merged; keys and slots stay as they are. */
  lemma StepFirst(T: seq<map<Key, Value>>, s: Loop)
    requires Shaped(T, s) && |s.queries| == 0 < |T| && |Answer(T, s)| > 0
    ensures Step(T, s) ==
      s.(hits := s.hits + Answer(T, s), data := Answer(T, s), queries := s.queries + [s.buf[..s.missLen]])
  {
  }

  /** A later tier's answer is merged, the missing keys narrowed and slot `i - 1` filled. */
  lemma StepLater(T: seq<map<Key, Value>>, s: Loop)
    requires Shaped(T, s) && 0 < |s.queries| < |T| && |Answer(T, s)| > 0
    ensures var i := |s.queries|; var h := s.hits + Answer(T, s); var m := Filter(s.buf[..s.missLen], h);
      Step(T, s) == Loop(h, m + s.buf[|m|..], |m|, s.slots[i - 1 := s.slots[i - 1] + h],
                         Answer(T, s), s.queries + [s.buf[..s.missLen]])
  {
    NonEmptyMerge(s.hits, Answer(T, s));
  }

  /** The loop from state `s` on: cancellation check, consult, early stop. */
  function Run(T: seq<map<Key, Value>>, n: nat, ctx: Context, s: Loop): (o: Outcome)
    requires Shaped(T, s)
    ensures Shaped(T, o.st) && |s.queries| <= |o.st.queries| && |o.st.buf| == |s.buf|
    decreases |T| - |s.queries|
  {
    if |s.queries| == |T| then Outcome(false, s)
    else if ctx.Err(|s.queries|) then Outcome(true, s)
    else
      var next := Step(T, s);
      if |next.data| > 0 && |next.hits| == n then Outcome(false, next)
      else Run(T, n, ctx, next)
  }

  /** `Run` one tier at a time: the three ways the loop body can go. */
  lemma RunUnfolds(T: seq<map<Key, Value>>, n: nat, ctx: Context, s: Loop)
    requires Shaped(T, s)
    ensures |s.queries| == |T| ==> Run(T, n, ctx, s) == Outcome(false, s)
    ensures |s.queries| < |T| && ctx.Err(|s.queries|) ==> Run(T, n, ctx, s) == Outcome(true, s)
    ensures |s.queries| < |T| && !ctx.Err(|s.queries|) ==>
      var next := Step(T, s);
      Run(T, n, ctx, s) == if |next.data| > 0 && |next.hits| == n then Outcome(false, next) else Run(T, n, ctx, next)
  {
  }

  /** The whole cascade of one Fetch of keys `K` over tiers holding `T`. */
  function CascadeOf(T: seq<map<Key, Value>>, K: seq<Key>, ctx: Context): (o: Outcome)
    requires |T| >= 1
    ensures |o.st.queries| <= |T| && |o.st.slots| == |T| - 1
    ensures |o.st.buf| == |K| && o.st.missLen <= |K|
  {
    Run(T, |K|, ctx, Init(T, K))
  }

  // ---------------------------------------------------------------------
  // Reference definitions

  /**
   * The hit map after the tiers were asked `qs`: their answers merged in
   * tier order, a later answer overriding an earlier one.
   */
  function Hits(T: seq<map<Key, Value>>, qs: seq<seq<Key>>): map<Key, Value>
    requires |qs| <= |T|
    decreases |qs|
  {
    if qs == [] then map[]
    else
      var n := |qs| - 1;
      Hits(T, qs[..n]) + Restrict(T[n], qs[n])
  }

  /** The hit map right after tier `i` answered. */
  function HitsAfter(T: seq<map<Key, Value>>, qs: seq<seq<Key>>, i: nat): map<Key, Value>
    requires i < |qs| <= |T|
  {
    Hits(T, qs[..i + 1])
  }

  /**
   * The key list the next tier is asked for: the full list at first; after
   * tier `i`, the previous list minus the hits when `i > 0` and tier `i`
   * answered, and the previous list unchanged otherwise.
   */
  function NextQuery(T: seq<map<Key, Value>>, K: seq<Key>, qs: seq<seq<Key>>): seq<Key>
    requires |qs| <= |T|
  {
    if qs == [] then K
    else
      var i := |qs| - 1;
      if i > 0 && |Restrict(T[i], qs[i])| > 0 then Filter(qs[i], Hits(T, qs))
      else qs[i]
  }

  /** Every query was derived from the ones before it by `NextQuery`. */
  ghost predicate Chain(T: seq<map<Key, Value>>, K: seq<Key>, qs: seq<seq<Key>>)
    requires |qs| <= |T|
  {
    forall i {:trigger NextQuery(T, K, qs[..i])} :: 0 <= i < |qs| ==> qs[i] == NextQuery(T, K, qs[..i])
  }

  /**
   * Backfill slot `j`: the whole hit map as it stood after tier `j + 1`, if
   * that tier was consulted and answered; empty otherwise.
   */
  function SlotSpec(T: seq<map<Key, Value>>, qs: seq<seq<Key>>, j: nat): map<Key, Value>
    requires |qs| <= |T|
  {
    if j + 1 < |qs| && |Restrict(T[j + 1], qs[j + 1])| > 0 then HitsAfter(T, qs, j + 1)
    else map[]
  }

  /** Tier `i`'s answer completed the hit map, by the code's count test. */
  ghost predicate Completes(T: seq<map<Key, Value>>, K: seq<Key>, qs: seq<seq<Key>>, i: nat)
    requires i < |qs| <= |T|
  {
    |Restrict(T[i], qs[i])| > 0 && |HitsAfter(T, qs, i)| == |K|
  }

  /** Tier `i` left the count test unmet, so the loop does not stop after it. */
  ghost predicate FellShort(T: seq<map<Key, Value>>, K: seq<Key>, qs: seq<seq<Key>>, i: nat)
    requires i < |qs| <= |T|
  {
    !Completes(T, K, qs, i)
  }

  ghost predicate Reached(T: seq<map<Key, Value>>, K: seq<Key>, s: Loop)
  {
    && Shaped(T, s)
    && |s.buf| == |K|
    && s.hits == Hits(T, s.queries)
    && Chain(T, K, s.queries)
    && s.buf[..s.missLen] == NextQuery(T, K, s.queries)
    && (forall k :: k in s.buf[..s.missLen] ==> k in K)
    && (forall i, k :: 0 <= i < |s.queries| && k in s.queries[i] ==> k in K)
    && (forall k :: k in s.hits ==> k in K)
    && (forall j :: 0 <= j < |s.slots| ==> s.slots[j] == SlotSpec(T, s.queries, j))
    && (|s.queries| > 0 ==> s.data == LastAnswer(T, s.queries))
  }

  /** What the tier consulted last returned. */
  function LastAnswer(T: seq<map<Key, Value>>, qs: seq<seq<Key>>): map<Key, Value>
    requires 0 < |qs| <= |T|
  {
    Restrict(T[|qs| - 1], qs[|qs| - 1])
  }

  // ---------------------------------------------------------------------
  // Facts about the reference definitions

  lemma NonEmptyMerge(h: map<Key, Value>, data: map<Key, Value>)
    requires |data| > 0
    ensures |h + data| > 0
  {
    var k :| k in data;
    assert k in h + data;
  }

  lemma EmptyMap(m: map<Key, Value>)
    requires |m| == 0
    ensures m == map[]
  {
  }

  /**
   * Provenance of the hit map: a key is a hit exactly when some consulted
   * tier returned it, and its value is the one from the last consulted tier
   * that returned it.
   */
  lemma {:induction false} HitsProvenance(T: seq<map<Key, Value>>, qs: seq<seq<Key>>, k: Key)
    requires |qs| <= |T|
    ensures k in Hits(T, qs) <==> exists i :: 0 <= i < |qs| && k in Restrict(T[i], qs[i])
    ensures k in Hits(T, qs) ==>
      exists i :: 0 <= i < |qs| && k in Restrict(T[i], qs[i]) && Hits(T, qs)[k] == T[i][k] &&
        forall j :: i < j < |qs| ==> k !in Restrict(T[j], qs[j])
    decreases |qs|
  {
    if qs != [] {
      var n := |qs| - 1;
      var prev := qs[..n];
      HitsProvenance(T, prev, k);
      if k in Restrict(T[n], qs[n]) {
        assert Hits(T, qs)[k] == T[n][k];
      } else if k in Hits(T, prev) {
        var i :| 0 <= i < n && k in Restrict(T[i], prev[i]) && Hits(T, prev)[k] == T[i][k] &&
          forall j :: i < j < n ==> k !in Restrict(T[j], prev[j]);
        assert prev[i] == qs[i];
        assert forall j :: i < j < |qs| ==> k !in Restrict(T[j], qs[j]) by {
          forall j | i < j < |qs| ensures k !in Restrict(T[j], qs[j]) {
            if j < n { assert prev[j] == qs[j]; }
          }
        }
      } else {
        forall i | 0 <= i < |qs| ensures k !in Restrict(T[i], qs[i]) {
          if i < n { assert prev[i] == qs[i]; }
        }
      }
    }
  }

  /** Consulting more tiers never loses a key from the hit map. */
  lemma {:induction false} HitsGrow(T: seq<map<Key, Value>>, qs: seq<seq<Key>>, m: nat)
    requires m <= |qs| <= |T|
    ensures Hits(T, qs[..m]).Keys <= Hits(T, qs).Keys
    decreases |qs|
  {
    if m < |qs| {
      var n := |qs| - 1;
      assert qs[..n][..m] == qs[..m];
      HitsGrow(T, qs[..n], m);
    } else {
      assert qs[..m] == qs;
    }
  }

  lemma HitsSnoc(T: seq<map<Key, Value>>, qs: seq<seq<Key>>, q: seq<Key>)
    requires |qs| < |T|
    ensures Hits(T, qs + [q]) == Hits(T, qs) + Restrict(T[|qs|], q)
  {
    assert (qs + [q])[..|qs|] == qs;
  }

  // ---------------------------------------------------------------------
  // The loop keeps `Reached`

  lemma Initial(T: seq<map<Key, Value>>, K: seq<Key>)
    requires |T| >= 1
    ensures Reached(T, K, Init(T, K))
  {
    var s := Init(T, K);
    assert s.buf[..s.missLen] == K;
  }

  /** A step merges the tier's answer into the hits, overriding earlier values. */
  lemma StepMerges(T: seq<map<Key, Value>>, s: Loop)
    requires Shaped(T, s) && |s.queries| < |T|
    ensures Step(T, s).hits == s.hits + Answer(T, s)
  {
    var a := Answer(T, s);
    if |a| == 0 {
      EmptyMap(a);
      assert s.hits + a == s.hits;
    }
  }

  lemma StepHits(T: seq<map<Key, Value>>, s: Loop)
    requires Shaped(T, s) && |s.queries| < |T| && s.hits == Hits(T, s.queries)
    ensures Step(T, s).hits == Hits(T, Step(T, s).queries)
    ensures Step(T, s).hits == s.hits + Answer(T, s)
  {
    StepMerges(T, s);
    StepAsks(T, s);
    HitsSnoc(T, s.queries, s.buf[..s.missLen]);
  }

  lemma ChainSnoc(T: seq<map<Key, Value>>, K: seq<Key>, qs: seq<seq<Key>>, q: seq<Key>)
    requires |qs| < |T| && Chain(T, K, qs) && q == NextQuery(T, K, qs)
    ensures Chain(T, K, qs + [q])
  {
    var r := qs + [q];
    forall i | 0 <= i < |r| ensures r[i] == NextQuery(T, K, r[..i]) {
      if i < |qs| {
        assert r[..i] == qs[..i];
      } else {
        assert r[..i] == qs;
      }
    }
  }

  lemma StepQueries(T: seq<map<Key, Value>>, K: seq<Key>, s: Loop)
    requires Shaped(T, s) && |s.queries| < |T|
    requires s.hits == Hits(T, s.queries)
    requires s.buf[..s.missLen] == NextQuery(T, K, s.queries)
    requires forall k :: k in s.buf[..s.missLen] ==> k in K
    ensures var r := Step(T, s);
      && r.queries == s.queries + [s.buf[..s.missLen]]
      && r.buf[..r.missLen] == NextQuery(T, K, r.queries)
      && (forall k :: k in r.buf[..r.missLen] ==> k in K)
  {
    var r := Step(T, s);
    var q := s.buf[..s.missLen];
    var i := |s.queries|;
    HitsSnoc(T, s.queries, q);
    if |Answer(T, s)| > 0 && i > 0 {
      NonEmptyMerge(s.hits, Answer(T, s));
      var m := Filter(q, r.hits);
      assert r.buf[..r.missLen] == m;
      forall k | k in m ensures k in K {
        FilterMembers(q, r.hits, k);
      }
    }
  }

  lemma SlotSpecSnoc(T: seq<map<Key, Value>>, qs: seq<seq<Key>>, q: seq<Key>, j: nat)
    requires |qs| < |T|
    ensures j + 1 < |qs| ==> SlotSpec(T, qs + [q], j) == SlotSpec(T, qs, j)
    ensures j + 1 == |qs| ==> (SlotSpec(T, qs + [q], j) ==
      if |Restrict(T[|qs|], q)| > 0 then Hits(T, qs + [q]) else map[])
    ensures j + 1 > |qs| ==> SlotSpec(T, qs + [q], j) == map[]
  {
    var r := qs + [q];
    if j + 1 < |qs| {
      assert r[..j + 2] == qs[..j + 2];
      assert r[j + 1] == qs[j + 1];
    } else if j + 1 == |qs| {
      assert r[..j + 2] == r;
    }
  }

  lemma StepSlotsValue(T: seq<map<Key, Value>>, s: Loop)
    requires Shaped(T, s) && |s.queries| < |T|
    ensures var i := |s.queries|;
      Step(T, s).slots ==
        if |Answer(T, s)| > 0 && i > 0 then s.slots[i - 1 := s.slots[i - 1] + (s.hits + Answer(T, s))]
        else s.slots
  {
    if |Answer(T, s)| > 0 {
      NonEmptyMerge(s.hits, Answer(T, s));
    }
  }

  lemma StepSlotFilled(T: seq<map<Key, Value>>, s: Loop)
    requires Shaped(T, s) && 0 < |s.queries| < |T| && |Answer(T, s)| > 0
    requires s.hits == Hits(T, s.queries)
    requires s.slots[|s.queries| - 1] == map[]
    ensures Step(T, s).slots[|s.queries| - 1] == Hits(T, s.queries + [s.buf[..s.missLen]])
  {
    var i := |s.queries|;
    var h := s.hits + Answer(T, s);
    HitsSnoc(T, s.queries, s.buf[..s.missLen]);
    assert h == Hits(T, s.queries + [s.buf[..s.missLen]]);
    StepSlotsValue(T, s);
    assert Step(T, s).slots[i - 1] == s.slots[i - 1] + h;
    EmptyUnion(h);
  }

  lemma EmptyUnion(m: map<Key, Value>)
    ensures map[] + m == m
  {
  }

  lemma StepSlot(T: seq<map<Key, Value>>, K: seq<Key>, s: Loop, j: nat)
    requires Shaped(T, s) && |s.queries| < |T| && j < |s.slots|
    requires s.hits == Hits(T, s.queries)
    requires s.slots[j] == SlotSpec(T, s.queries, j)
    ensures Step(T, s).slots[j] == SlotSpec(T, s.queries + [s.buf[..s.missLen]], j)
  {
    var q := s.buf[..s.missLen];
    var i := |s.queries|;
    SlotSpecSnoc(T, s.queries, q, j);
    if j + 1 == i && |Answer(T, s)| > 0 {
      StepSlotFilled(T, s);
    } else {
      StepSlotsValue(T, s);
    }
  }

  lemma StepWithin(T: seq<map<Key, Value>>, K: seq<Key>, s: Loop)
    requires Shaped(T, s) && |s.queries| < |T|
    requires forall k :: k in s.buf[..s.missLen] ==> k in K
    requires forall i, k :: 0 <= i < |s.queries| && k in s.queries[i] ==> k in K
    requires forall k :: k in s.hits ==> k in K
    ensures var r := Step(T, s);
      && (forall i, k :: 0 <= i < |r.queries| && k in r.queries[i] ==> k in K)
      && (forall k :: k in r.hits ==> k in K)
  {
    var r := Step(T, s);
    StepAsks(T, s);
    StepMerges(T, s);
    forall i, k | 0 <= i < |r.queries| && k in r.queries[i] ensures k in K {
      if i < |s.queries| {
        assert r.queries[i] == s.queries[i];
      }
    }
    forall k | k in r.hits ensures k in K {
      if k !in s.hits {
        assert k in s.buf[..s.missLen];
      }
    }
  }

  lemma StepReached(T: seq<map<Key, Value>>, K: seq<Key>, s: Loop)
    requires Reached(T, K, s) && |s.queries| < |T|
    ensures Reached(T, K, Step(T, s))
    ensures Step(T, s).queries == s.queries + [s.buf[..s.missLen]]
  {
    var r := Step(T, s);
    StepHits(T, s);
    StepQueries(T, K, s);
    ChainSnoc(T, K, s.queries, s.buf[..s.missLen]);
    StepWithin(T, K, s);
    assert r.queries == s.queries + [s.buf[..s.missLen]];
    assert r.queries[|s.queries|] == s.buf[..s.missLen];
    forall j | 0 <= j < |r.slots| ensures r.slots[j] == SlotSpec(T, r.queries, j) {
      StepSlot(T, K, s, j);
    }
  }

  /** Whether tier `i` completed depends only on the queries up to `i`. */
  lemma CompletesPrefix(T: seq<map<Key, Value>>, K: seq<Key>, qs: seq<seq<Key>>, m: nat, i: nat)
    requires i < m <= |qs| <= |T|
    ensures Completes(T, K, qs, i) == Completes(T, K, qs[..m], i)
  {
    assert qs[..m][i] == qs[i];
    assert qs[..m][..i + 1] == qs[..i + 1];
  }

  /** Running the loop from a reached state keeps every invariant and extends the query record. */
  lemma {:induction false} RunReached(T: seq<map<Key, Value>>, K: seq<Key>, ctx: Context, s: Loop)
    requires Reached(T, K, s)
    ensures Reached(T, K, Run(T, |K|, ctx, s).st)
    decreases |T| - |s.queries|
  {
    var n := |s.queries|;
    if n < |T| && !ctx.Err(n) {
      var next := Step(T, s);
      StepReached(T, K, s);
      if !(|next.data| > 0 && |next.hits| == |K|) {
        RunReached(T, K, ctx, next);
      }
    }
  }

  lemma PrefixSnoc(a: seq<seq<Key>>, q: seq<Key>, c: seq<seq<Key>>)
    requires a + [q] <= c
    ensures a <= c
  {
    assert c[..|a|] == (a + [q])[..|a|];
  }

  /** The loop only ever appends to the record of queries. */
  lemma {:induction false} RunExtends(T: seq<map<Key, Value>>, n: nat, ctx: Context, s: Loop)
    requires Shaped(T, s)
    ensures s.queries <= Run(T, n, ctx, s).st.queries
    decreases |T| - |s.queries|
  {
    var m := |s.queries|;
    if m < |T| && !ctx.Err(m) {
      var next := Step(T, s);
      StepAsks(T, s);
      if |next.data| > 0 && |next.hits| == n {
        assert Run(T, n, ctx, s) == Outcome(false, next);
        PrefixSnoc(s.queries, s.buf[..s.missLen], next.queries);
      } else {
        assert Run(T, n, ctx, s) == Run(T, n, ctx, next);
        RunExtends(T, n, ctx, next);
        PrefixSnoc(s.queries, s.buf[..s.missLen], Run(T, n, ctx, next).st.queries);
      }
    } else {
      assert Run(T, n, ctx, s).st == s;
    }
  }

  /** Whether the tier just consulted completed the hit map. */
  lemma CompletesLast(T: seq<map<Key, Value>>, K: seq<Key>, qs: seq<seq<Key>>, q: seq<Key>)
    requires |qs| < |T|
    ensures Completes(T, K, qs + [q], |qs|) <==>
      |Restrict(T[|qs|], q)| > 0 && |Hits(T, qs + [q])| == |K|
  {
    assert (qs + [q])[..|qs| + 1] == qs + [q];
  }

  lemma StepAsks(T: seq<map<Key, Value>>, s: Loop)
    requires Shaped(T, s) && |s.queries| < |T|
    ensures Step(T, s).queries == s.queries + [s.buf[..s.missLen]]
  {
  }

  /**
   * Cancellation is observed only at a check that saw the context
   * cancelled, and ends the loop there; a state the loop reached before it
   * failed the count test, or the loop would have stopped.
   */
  lemma {:induction false} RunCancels(T: seq<map<Key, Value>>, n: nat, ctx: Context, s: Loop)
    requires Shaped(T, s)
    ensures var o := Run(T, n, ctx, s); var qs := o.st.queries;
      && (forall i :: |s.queries| <= i < |qs| ==> !ctx.Err(i))
      && (o.cancelled ==> |qs| < |T| && ctx.Err(|qs|))
      && (o.cancelled && |s.queries| < |qs| ==> !(|o.st.data| > 0 && |o.st.hits| == n))
    decreases |T| - |s.queries|
  {
    if |s.queries| == |T| {
      assert Run(T, n, ctx, s) == Outcome(false, s);
    } else if ctx.Err(|s.queries|) {
      assert Run(T, n, ctx, s) == Outcome(true, s);
    } else {
      var next := Step(T, s);
      if |next.data| > 0 && |next.hits| == n {
        assert Run(T, n, ctx, s) == Outcome(false, next);
      } else {
        assert Run(T, n, ctx, s) == Run(T, n, ctx, next);
        RunCancels(T, n, ctx, next);
      }
    }
  }

  /** The loop goes on past a tier only when that tier's answer left the hit map short. */
  lemma {:induction false} RunContinues(T: seq<map<Key, Value>>, K: seq<Key>, ctx: Context, s: Loop, i: nat)
    requires Shaped(T, s) && s.hits == Hits(T, s.queries)
    requires |s.queries| <= i < |Run(T, |K|, ctx, s).st.queries| - 1
    ensures FellShort(T, K, Run(T, |K|, ctx, s).st.queries, i)
    decreases |T| - |s.queries|
  {
    if i == |s.queries| {
      RunPassesNext(T, K, ctx, s);
    } else {
      var next := Step(T, s);
      StepAsks(T, s);
      StepHits(T, s);
      assert Run(T, |K|, ctx, s) == Run(T, |K|, ctx, next);
      RunContinues(T, K, ctx, next, i);
    }
  }

  /** The case of `RunContinues` for the tier consulted next. */
  lemma RunPassesNext(T: seq<map<Key, Value>>, K: seq<Key>, ctx: Context, s: Loop)
    requires Shaped(T, s) && s.hits == Hits(T, s.queries)
    requires |s.queries| < |Run(T, |K|, ctx, s).st.queries| - 1
    ensures FellShort(T, K, Run(T, |K|, ctx, s).st.queries, |s.queries|)
  {
    var i := |s.queries|;
    var next := Step(T, s);
    StepAsks(T, s);
    StepHits(T, s);
    assert Run(T, |K|, ctx, s) == Run(T, |K|, ctx, next);
    var qs := Run(T, |K|, ctx, next).st.queries;
    RunExtends(T, |K|, ctx, next);
    assert !Completes(T, K, next.queries, i) by {
      CompletesLast(T, K, s.queries, s.buf[..s.missLen]);
    }
    assert qs[..i + 1] == next.queries;
    CompletesPrefix(T, K, qs, i + 1, i);
  }

  /**
   * A loop that ended uncancelled before the last tier stopped on a tier
   * that passed the count test: it returned something and the hit map then
   * holds `n` keys.
   */
  lemma {:induction false} RunStopsEarly(T: seq<map<Key, Value>>, n: nat, ctx: Context, s: Loop)
    requires Shaped(T, s)
    requires !Run(T, n, ctx, s).cancelled && |Run(T, n, ctx, s).st.queries| < |T|
    ensures var st := Run(T, n, ctx, s).st;
      |s.queries| < |st.queries| && |st.data| > 0 && |st.hits| == n
    decreases |T| - |s.queries|
  {
    var next := Step(T, s);
    if |next.data| > 0 && |next.hits| == n {
      assert Run(T, n, ctx, s) == Outcome(false, next);
    } else {
      assert Run(T, n, ctx, s) == Run(T, n, ctx, next);
      RunStopsEarly(T, n, ctx, next);
    }
  }

  // ---------------------------------------------------------------------
  // Keys, counted

  /** The distinct keys of a key list. */
  function KeySet(K: seq<Key>): set<Key>
  {
    set k | k in K
  }

  predicate Distinct(K: seq<Key>)
  {
    forall i, j :: 0 <= i < j < |K| ==> K[i] != K[j]
  }

  /** A key list has as many distinct keys as entries exactly when it has no duplicates. */
  lemma {:induction false} KeySetSize(K: seq<Key>)
    ensures |KeySet(K)| <= |K|
    ensures |KeySet(K)| == |K| <==> Distinct(K)
    decreases |K|
  {
    if K != [] {
      var n := |K| - 1;
      var P := K[..n];
      KeySetSize(P);
      assert K == P + [K[n]];
      assert KeySet(K) == KeySet(P) + {K[n]};
      if K[n] in P {
        var j :| 0 <= j < n && P[j] == K[n];
        assert K[j] == K[n];
      } else {
        assert KeySet(P) * {K[n]} == {};
        if Distinct(P) {
          forall a, b | 0 <= a < b < |K| ensures K[a] != K[b] {
            if b < n {
              assert K[a] == P[a] && K[b] == P[b];
            } else {
              assert K[a] == P[a];
            }
          }
        } else {
          var a, b :| 0 <= a < b < n && P[a] == P[b];
          assert K[a] == K[b];
        }
      }
    }
  }

  lemma SubsetSize(a: set<Key>, b: set<Key>)
    requires a <= b
    ensures |a| <= |b|
    ensures |a| == |b| ==> a == b
  {
    assert b == a + (b - a);
    assert a * (b - a) == {};
    if |a| == |b| {
      assert |b - a| == 0;
    }
  }

  /**
   * The code's count test against the intended test "every key was found":
   * for a duplicate-free key list whose queries stay within it, hitting
   * `|K|` keys is the same as hitting all of them; with a duplicate, the
   * count is never reached.
   */
  lemma CountTest(h: map<Key, Value>, K: seq<Key>)
    requires forall k :: k in h ==> k in K
    ensures Distinct(K) ==> (|h| == |K| <==> h.Keys == KeySet(K))
    ensures !Distinct(K) ==> |h| < |K|
  {
    KeySetSize(K);
    assert h.Keys <= KeySet(K);
    SubsetSize(h.Keys, KeySet(K));
  }

  // ---------------------------------------------------------------------
  // Facts about a reached state

  /** The stop test on the loop state is the count test on the reference hit map. */
  lemma StopMeaning(T: seq<map<Key, Value>>, K: seq<Key>, st: Loop)
    requires Reached(T, K, st) && 0 < |st.queries|
    ensures var i := |st.queries| - 1;
      FellShort(T, K, st.queries, i) <==> !(|st.data| > 0 && |st.hits| == |K|)
  {
    var qs := st.queries;
    assert qs[..|qs|] == qs;
  }

  /** Slot `j` is filled exactly when tier `j + 1` was consulted and returned something. */
  lemma SlotMeaning(T: seq<map<Key, Value>>, qs: seq<seq<Key>>, j: nat)
    requires |qs| <= |T|
    ensures SlotSpec(T, qs, j) != map[] <==> j + 1 < |qs| && |Restrict(T[j + 1], qs[j + 1])| > 0
  {
    if j + 1 < |qs| && |Restrict(T[j + 1], qs[j + 1])| > 0 {
      var p := qs[..j + 2];
      assert p[..j + 1] == qs[..j + 1] && p[j + 1] == qs[j + 1];
      NonEmptyMerge(Hits(T, qs[..j + 1]), Restrict(T[j + 1], qs[j + 1]));
    }
  }

  // ---------------------------------------------------------------------
  // The cascade as a whole

  lemma CascadeReached(T: seq<map<Key, Value>>, K: seq<Key>, ctx: Context)
    requires |T| >= 1
    ensures Reached(T, K, CascadeOf(T, K, ctx).st)
  {
    Initial(T, K);
    RunReached(T, K, ctx, Init(T, K));
  }

  /**
   * Provenance of a Fetch result: the hit map is the merge of what the
   * consulted tiers returned; a key is a hit exactly when some consulted
   * tier returned it, its value is the one from the last such tier, and
   * every hit is one of the keys asked for.
   */
  lemma CascadeHits(T: seq<map<Key, Value>>, K: seq<Key>, ctx: Context, k: Key)
    requires |T| >= 1
    ensures var st := CascadeOf(T, K, ctx).st; var qs := st.queries;
      && st.hits == Hits(T, qs)
      && (k in st.hits ==> k in K)
      && (k in st.hits <==> exists i :: 0 <= i < |qs| && k in Restrict(T[i], qs[i]))
      && (k in st.hits ==>
            exists i :: 0 <= i < |qs| && k in Restrict(T[i], qs[i]) && st.hits[k] == T[i][k] &&
              forall j :: i < j < |qs| ==> k !in Restrict(T[j], qs[j]))
  {
    CascadeReached(T, K, ctx);
    HitsProvenance(T, CascadeOf(T, K, ctx).st.queries, k);
  }

  /** What `Chain` says about each query in turn. */
  lemma ChainMeaning(T: seq<map<Key, Value>>, K: seq<Key>, qs: seq<seq<Key>>, i: nat)
    requires |qs| <= |T| && Chain(T, K, qs)
    ensures 0 < |qs| ==> qs[0] == K
    ensures 1 < |qs| ==> qs[1] == K
    ensures 0 < i < |qs| - 1 ==>
              qs[i + 1] == if |Restrict(T[i], qs[i])| > 0 then Filter(qs[i], HitsAfter(T, qs, i)) else qs[i]
  {
    if 0 < |qs| {
      assert qs[0] == NextQuery(T, K, qs[..0]);
    }
    if 1 < |qs| {
      assert qs[1] == NextQuery(T, K, qs[..1]);
      assert qs[..1][0] == qs[0];
    }
    if 0 < i < |qs| - 1 {
      assert qs[i + 1] == NextQuery(T, K, qs[..i + 1]);
      assert qs[..i + 1][i] == qs[i];
    }
  }

  /**
   * The key lists the tiers are asked for: the first two tiers get the
   * caller's list unchanged; after a later tier returned something, the
   * next one gets the previous list minus the hits, in order.
   */
  lemma CascadeQueries(T: seq<map<Key, Value>>, K: seq<Key>, ctx: Context, i: nat)
    requires |T| >= 1
    ensures var qs := CascadeOf(T, K, ctx).st.queries;
      && (0 < |qs| ==> qs[0] == K)
      && (1 < |qs| ==> qs[1] == K)
      && (0 < i < |qs| - 1 ==>
            qs[i + 1] == if |Restrict(T[i], qs[i])| > 0 then Filter(qs[i], HitsAfter(T, qs, i)) else qs[i])
      && (forall j, k :: 0 <= j < |qs| && k in qs[j] ==> k in K)
  {
    CascadeReached(T, K, ctx);
    ChainMeaning(T, K, CascadeOf(T, K, ctx).st.queries, i);
  }

  /**
   * The backfill plan: slot `j` is filled exactly when tier `j + 1` was
   * consulted and returned something, and then holds the whole hit map as
   * it stood right after that tier; only keys asked for are backfilled.
   */
  lemma CascadeSlots(T: seq<map<Key, Value>>, K: seq<Key>, ctx: Context, j: nat, k: Key)
    requires |T| >= 1 && j < |T| - 1
    ensures var st := CascadeOf(T, K, ctx).st; var qs := st.queries;
      && |st.slots| == |T| - 1
      && st.slots[j] == SlotSpec(T, qs, j)
      && (st.slots[j] != map[] <==> j + 1 < |qs| && |Restrict(T[j + 1], qs[j + 1])| > 0)
      && (k in st.slots[j] ==> k in K)
  {
    CascadeReached(T, K, ctx);
    var st := CascadeOf(T, K, ctx).st;
    SlotMeaning(T, st.queries, j);
    if j + 1 < |st.queries| {
      HitsProvenance(T, st.queries[..j + 2], k);
    }
  }

  /** Every tier the loop went past failed the count test. */
  lemma CascadeGoesOn(T: seq<map<Key, Value>>, K: seq<Key>, ctx: Context, i: nat)
    requires |T| >= 1 && i < |CascadeOf(T, K, ctx).st.queries| - 1
    ensures FellShort(T, K, CascadeOf(T, K, ctx).st.queries, i)
  {
    RunContinues(T, K, ctx, Init(T, K), i);
  }

  /**
   * An uncancelled Fetch either consulted every tier or stopped on a tier
   * that returned something and brought the hit count to `len(keys)`.
   */
  lemma CascadeEndsEarly(T: seq<map<Key, Value>>, K: seq<Key>, ctx: Context)
    requires |T| >= 1
    ensures var o := CascadeOf(T, K, ctx); var qs := o.st.queries;
      !o.cancelled && |qs| < |T| ==> 0 < |qs| && !FellShort(T, K, qs, |qs| - 1) && |o.st.hits| == |K|
  {
    var o := CascadeOf(T, K, ctx);
    if !o.cancelled && |o.st.queries| < |T| {
      RunStopsEarly(T, |K|, ctx, Init(T, K));
      CascadeReached(T, K, ctx);
      StopMeaning(T, K, o.st);
    }
  }

  /**
   * Cancellation: a context cancelled before tier `at` keeps every tier
   * from `at` on unconsulted; a Fetch that ends cancelled was cancelled
   * exactly at the next tier, and the tier before (if any) had left the hit
   * map short.
   */
  lemma CascadeCancelled(T: seq<map<Key, Value>>, K: seq<Key>, ctx: Context)
    requires |T| >= 1
    ensures var o := CascadeOf(T, K, ctx); var qs := o.st.queries;
      && (ctx.Cancelled? ==> |qs| <= ctx.at)
      && (o.cancelled ==> ctx == Cancelled(|qs|) && |qs| < |T|)
      && (o.cancelled && 0 < |qs| ==> FellShort(T, K, qs, |qs| - 1))
  {
    var o := CascadeOf(T, K, ctx);
    RunCancels(T, |K|, ctx, Init(T, K));
    if ctx.Cancelled? && 0 < |o.st.queries| {
      assert !ctx.Err(|o.st.queries| - 1);
    }
    if o.cancelled && 0 < |o.st.queries| {
      CascadeReached(T, K, ctx);
      StopMeaning(T, K, o.st);
    }
  }

  /**
   * With a duplicate-free key list, the count test means "every key found":
   * the loop goes past a tier only if it returned nothing or left a key
   * missing, and an early stop returns every key.
   */
  lemma CompletesMeaning(T: seq<map<Key, Value>>, K: seq<Key>, qs: seq<seq<Key>>, i: nat)
    requires i < |qs| <= |T| && Distinct(K)
    requires forall j, k :: 0 <= j < |qs| && k in qs[j] ==> k in K
    ensures Completes(T, K, qs, i) <==>
      |Restrict(T[i], qs[i])| > 0 && HitsAfter(T, qs, i).Keys == KeySet(K)
  {
    var p := qs[..i + 1];
    forall k | k in HitsAfter(T, qs, i) ensures k in K {
      HitsProvenance(T, p, k);
      var j :| 0 <= j < |p| && k in Restrict(T[j], p[j]);
      assert p[j] == qs[j];
    }
    CountTest(HitsAfter(T, qs, i), K);
  }

  lemma CascadeDistinct(T: seq<map<Key, Value>>, K: seq<Key>, ctx: Context, i: nat)
    requires |T| >= 1 && Distinct(K)
    ensures var o := CascadeOf(T, K, ctx); var qs := o.st.queries;
      && (i < |qs| - 1 ==> |Restrict(T[i], qs[i])| == 0 || HitsAfter(T, qs, i).Keys != KeySet(K))
      && (!o.cancelled && |qs| < |T| ==> o.st.hits.Keys == KeySet(K))
  {
    var o := CascadeOf(T, K, ctx);
    var qs := o.st.queries;
    CascadeReached(T, K, ctx);
    if i < |qs| - 1 {
      CascadeGoesOn(T, K, ctx, i);
      CompletesMeaning(T, K, qs, i);
    }
    CascadeEndsEarly(T, K, ctx);
    CountTest(o.st.hits, K);
  }

  /**
   * With a duplicate in the key list the count test can never pass, so an
   * uncancelled Fetch consults every tier and returns fewer hits than keys.
   */
  lemma CascadeDuplicates(T: seq<map<Key, Value>>, K: seq<Key>, ctx: Context)
    requires |T| >= 1 && !Distinct(K)
    ensures var o := CascadeOf(T, K, ctx);
      && |o.st.hits| < |K|
      && (!o.cancelled ==> |o.st.queries| == |T|)
  {
    var o := CascadeOf(T, K, ctx);
    CascadeReached(T, K, ctx);
    CascadeEndsEarly(T, K, ctx);
    CountTest(o.st.hits, K);
  }

  /** The first tier is asked for the whole list, and its answer is never filtered out. */
  lemma FirstStep(T: seq<map<Key, Value>>, K: seq<Key>)
    requires |T| >= 1
    ensures var a := Restrict(T[0], K);
      Step(T, Init(T, K)) == Init(T, K).(hits := a, data := a, queries := [K])
  {
    assert K[..|K|] == K;
    assert map[] + Restrict(T[0], K) == Restrict(T[0], K);
  }

  /**
   * A duplicate-free, non-empty request that the first tier holds in full
   * is answered by that tier alone: nothing else is consulted, the key
   * array is untouched and no backfill is planned.
   */
  lemma ServedByFirstTier(T: seq<map<Key, Value>>, K: seq<Key>, ctx: Context)
    requires |T| >= 1 && 0 < |K| && Distinct(K) && !ctx.Err(0)
    requires forall k :: k in K ==> k in T[0]
    ensures var o := CascadeOf(T, K, ctx);
      && !o.cancelled
      && o.st.queries == [K]
      && o.st.hits == Restrict(T[0], K)
      && o.st.buf == K && o.st.missLen == |K|
      && |o.st.slots| == |T| - 1
      && (forall j :: 0 <= j < |o.st.slots| ==> o.st.slots[j] == map[])
  {
    var data := Restrict(T[0], K);
    assert data.Keys == KeySet(K);
    KeySetSize(K);
    assert K[0] in data;
    FirstStep(T, K);
    var next := Step(T, Init(T, K));
    assert |next.data| > 0 && |next.hits| == |K|;
    assert CascadeOf(T, K, ctx) == Outcome(false, next);
  }
}
