/** The orchestration around the sentence-embedding model
    (`src/embedding_service/embedding_service.py`): the text-hash cache,
    single and batched embedding, top-k selection and the cache trim.
    The model, the text hash and the on-disk cache file are parameters or
    left out; the cache is a Python dict, modelled as its items in
    insertion order. */
module Embedding {
  import opened Wrappers
  import opened Strings
  import opened Seqs
  import opened Vectors
  import Ranking

  type Cache = seq<(string, Vector)>

  function Keys(c: Cache): set<string>
  {
    set i | 0 <= i < |c| :: c[i].0
  }

  predicate KeysDistinct(c: Cache)
  {
    forall i, j :: 0 <= i < j < |c| ==> c[i].0 != c[j].0
  }

  lemma KeysCons(x: (string, Vector), t: Cache)
    ensures Keys([x] + t) == {x.0} + Keys(t)
  {
    var c := [x] + t;
    forall k | k in Keys(c) ensures k in {x.0} + Keys(t) {
      var i :| 0 <= i < |c| && c[i].0 == k;
      if i > 0 { assert t[i - 1].0 == k; }
    }
    forall k | k in Keys(t) ensures k in Keys(c) {
      var i :| 0 <= i < |t| && t[i].0 == k;
      assert c[i + 1].0 == k;
    }
    assert c[0].0 == x.0;
  }

  lemma DistinctCons(x: (string, Vector), t: Cache)
    ensures KeysDistinct([x] + t) <==> x.0 !in Keys(t) && KeysDistinct(t)
  {
    var c := [x] + t;
    if KeysDistinct(c) {
      forall j | 0 <= j < |t| ensures t[j].0 != x.0 {
        assert c[0] == x && c[j + 1] == t[j];
      }
      forall i, j | 0 <= i < j < |t| ensures t[i].0 != t[j].0 {
        assert c[i + 1] == t[i] && c[j + 1] == t[j];
      }
    }
    if x.0 !in Keys(t) && KeysDistinct(t) {
      forall i, j | 0 <= i < j < |c| ensures c[i].0 != c[j].0 {
        if i == 0 {
          assert c[j] == t[j - 1];
        } else {
          assert c[i] == t[i - 1] && c[j] == t[j - 1];
        }
      }
    }
  }

  /** `cache.get(k)`. */
  function Lookup(c: Cache, k: string): (r: Option<Vector>)
    ensures r.Some? <==> k in Keys(c)
    ensures r.Some? ==> (k, r.value) in c
  {
    if |c| == 0 then None
    else if c[0].0 == k then Some(c[0].1)
    else
      assert Keys(c) == {c[0].0} + Keys(c[1..]);
      Lookup(c[1..], k)
  }

  /** `cache[k] = v`: an existing key keeps its place, a new key goes last. */
  function Put(c: Cache, k: string, v: Vector): (r: Cache)
    requires KeysDistinct(c)
    ensures KeysDistinct(r)
    ensures Keys(r) == Keys(c) + {k}
    ensures Lookup(r, k) == Some(v)
    ensures forall k' :: k' != k ==> Lookup(r, k') == Lookup(c, k')
    ensures |r| == if k in Keys(c) then |c| else |c| + 1
  {
    if |c| == 0 then
      KeysCons((k, v), []);
      assert [(k, v)] + [] == [(k, v)];
      [(k, v)]
    else if c[0].0 == k then
      assert c == [c[0]] + c[1..];
      KeysCons(c[0], c[1..]);
      var r := [(k, v)] + c[1..];
      KeysCons((k, v), c[1..]);
      DistinctCons(c[0], c[1..]);
      DistinctCons((k, v), c[1..]);
      r
    else
      assert c == [c[0]] + c[1..];
      KeysCons(c[0], c[1..]);
      var rest := Put(c[1..], k, v);
      var r := [c[0]] + rest;
      KeysCons(c[0], rest);
      DistinctCons(c[0], c[1..]);
      DistinctCons(c[0], rest);
      assert r[0] == c[0] && r[1..] == rest;
      r
  }

  /** A value together with the cache as the call leaves it. */
  datatype Outcome<T> = Outcome(value: T, cache: Cache)

  // ---------------------------------------------------------------------
  // generate_embedding
  // ---------------------------------------------------------------------

  /** One text. `encode` is the model (`None` when it raises); the cache key is
      `hash(text)` of the text as given, while the model sees the stripped
      text. Blank text (`not text or not text.strip()`; the empty string is
      blank) yields `[]` at once. */
  function GenerateEmbedding(text: string, cache: Cache, enabled: bool,
                             hash: string -> string, encode: string -> Option<Vector>): (r: Outcome<Vector>)
    requires KeysDistinct(cache)
    ensures KeysDistinct(r.cache)
    ensures IsBlank(text) ==> r == Outcome([], cache)
    ensures !IsBlank(text) && hash(text) in Keys(cache) ==> r == Outcome(Lookup(cache, hash(text)).value, cache)
    ensures !IsBlank(text) && hash(text) !in Keys(cache) && encode(Strip(text)).None? ==> r == Outcome([], cache)
    ensures !IsBlank(text) && hash(text) !in Keys(cache) && encode(Strip(text)).Some? ==>
              r.value == encode(Strip(text)).value
              && r.cache == (if enabled then Put(cache, hash(text), r.value) else cache)
  {
    if IsBlank(text) then Outcome([], cache)
    else
      var h := hash(text);
      match Lookup(cache, h)
      case Some(v) => Outcome(v, cache)
      case None =>
        match encode(Strip(text))
        case None => Outcome([], cache)
        case Some(e) => Outcome(e, if enabled then Put(cache, h, e) else cache)
  }

  /** With caching off the cache is never written. */
  lemma GenerateWithoutCache(text: string, cache: Cache, hash: string -> string,
                             encode: string -> Option<Vector>)
    requires KeysDistinct(cache)
    ensures GenerateEmbedding(text, cache, false, hash, encode).cache == cache
  {
  }

  /** The model is consulted only on the stripped text: two models that agree
      there give the same outcome. */
  lemma GenerateSeesStripped(text: string, cache: Cache, enabled: bool, hash: string -> string,
                             e1: string -> Option<Vector>, e2: string -> Option<Vector>)
    requires KeysDistinct(cache)
    requires e1(Strip(text)) == e2(Strip(text))
    ensures GenerateEmbedding(text, cache, enabled, hash, e1) == GenerateEmbedding(text, cache, enabled, hash, e2)
  {
  }

  /** A successful embedding with caching on is served from the cache the
      next time, whatever the model would now say, and the cache is not
      written again. */
  lemma GenerateThenHit(text: string, cache: Cache, hash: string -> string,
                        encode: string -> Option<Vector>, later: string -> Option<Vector>)
    requires KeysDistinct(cache)
    requires !IsBlank(text) && encode(Strip(text)).Some?
    ensures var first := GenerateEmbedding(text, cache, true, hash, encode);
            GenerateEmbedding(text, first.cache, true, hash, later) == first
  {
    var first := GenerateEmbedding(text, cache, true, hash, encode);
    assert Lookup(first.cache, hash(text)) == Some(first.value);
  }

  // ---------------------------------------------------------------------
  // batch_embed
  // ---------------------------------------------------------------------

  /** A result position: `None` is the placeholder for a text still to embed. */
  type Slot = Option<Vector>

  /** The first pass over one text: `[]` for blank text, the cached vector on a
      hit of `hash(text)`, a placeholder otherwise. */
  function ScanSlot(t: string, cache: Cache, hash: string -> string): Slot
  {
    if IsBlank(t) then Some([]) else Lookup(cache, hash(t))
  }

  function ScanSlots(texts: seq<string>, cache: Cache, hash: string -> string): (r: seq<Slot>)
    ensures |r| == |texts|
    ensures forall i :: 0 <= i < |texts| ==> r[i] == ScanSlot(texts[i], cache, hash)
  {
    seq(|texts|, i requires 0 <= i < |texts| => ScanSlot(texts[i], cache, hash))
  }

  /** The texts left for the model, as (original position, stripped text)
      pairs in input order: `uncached_indices` zipped with `uncached_texts`. */
  function Pending(texts: seq<string>, cache: Cache, hash: string -> string): (ps: seq<(nat, string)>)
    ensures forall k :: 0 <= k < |ps| ==>
              ps[k].0 < |texts| && ScanSlot(texts[ps[k].0], cache, hash).None?
              && ps[k].1 == Strip(texts[ps[k].0])
    ensures forall i :: 0 <= i < |texts| && ScanSlot(texts[i], cache, hash).None? ==> i in Indices(ps)
    ensures |ps| <= |texts|
  {
    var waiting := (i: nat) => i < |texts| && ScanSlot(texts[i], cache, hash).None?;
    var idx := Where(|texts|, waiting);
    var ps := seq(|idx|, k requires 0 <= k < |idx| => (idx[k], Strip(texts[idx[k]])));
    assert forall i :: 0 <= i < |texts| && ScanSlot(texts[i], cache, hash).None? ==> i in Indices(ps) by {
      forall i | 0 <= i < |texts| && ScanSlot(texts[i], cache, hash).None?
        ensures i in Indices(ps)
      {
        assert waiting(i) && i in idx;
        var k :| 0 <= k < |idx| && idx[k] == i;
        assert ps[k].0 == i;
      }
    }
    ps
  }

  function Indices(ps: seq<(nat, string)>): set<nat>
  {
    set k | 0 <= k < |ps| :: ps[k].0
  }

  /** Consecutive slices of at most `size` elements: the slices
      `xs[i:i + size]` for `i in range(0, len(xs), size)`. */
  function Batches<T>(xs: seq<T>, size: nat): (r: seq<seq<T>>)
    requires size > 0
    ensures Flatten(r) == xs
    ensures forall k :: 0 <= k < |r| ==> 0 < |r[k]| <= size
    decreases |xs|
  {
    if |xs| == 0 then []
    else
      var n := Min(size, |xs|);
      assert xs == xs[..n] + xs[n..];
      [xs[..n]] + Batches(xs[n..], size)
  }

  function BatchTexts(batch: seq<(nat, string)>): (r: seq<string>)
    ensures |r| == |batch|
    ensures forall j :: 0 <= j < |batch| ==> r[j] == batch[j].1
  {
    seq(|batch|, j requires 0 <= j < |batch| => batch[j].1)
  }

  datatype BatchState = BatchState(slots: seq<Slot>, cache: Cache, failed: bool)

  predicate InRange(ps: seq<(nat, string)>, n: nat)
  {
    forall k :: 0 <= k < |ps| ==> ps[k].0 < n
  }

  /** The write-back loop for one batch: the `j`-th vector goes to position
      `batch[j].0` and, with caching on, into the cache under the hash of the
      stripped text. A model answer longer than the batch raises at
      `batch_indices[j]` after the earlier writes. */
  function StoreBatch(st: BatchState, batch: seq<(nat, string)>, embs: seq<Vector>,
                      enabled: bool, hash: string -> string): (r: BatchState)
    requires InRange(batch, |st.slots|) && KeysDistinct(st.cache)
    ensures |r.slots| == |st.slots| && KeysDistinct(r.cache)
    ensures forall i :: 0 <= i < |st.slots| && i !in Indices(batch) ==> r.slots[i] == st.slots[i]
    ensures !enabled ==> r.cache == st.cache
    ensures st.failed ==> r.failed
    decreases |embs|
  {
    if |embs| == 0 then st
    else if |batch| == 0 then st.(failed := true)
    else
      var p := batch[0];
      var next := st.(slots := st.slots[p.0 := Some(embs[0])],
                      cache := if enabled then Put(st.cache, hash(p.1), embs[0]) else st.cache);
      assert Indices(batch) == {p.0} + Indices(batch[1..]);
      StoreBatch(next, batch[1..], embs[1..], enabled, hash)
  }

  /** The `for` loop over the batches; `encodeBatch` is the model on a list of
      texts (`None` when it raises). The first failure ends the loop. */
  function RunBatches(st: BatchState, batches: seq<seq<(nat, string)>>,
                      encodeBatch: seq<string> -> Option<seq<Vector>>,
                      enabled: bool, hash: string -> string): (r: BatchState)
    requires InRange(Flatten(batches), |st.slots|)
    requires KeysDistinct(st.cache)
    ensures |r.slots| == |st.slots| && KeysDistinct(r.cache)
    ensures forall i :: 0 <= i < |st.slots| && i !in Indices(Flatten(batches)) ==> r.slots[i] == st.slots[i]
    ensures !enabled ==> r.cache == st.cache
    ensures st.failed ==> r == st
    decreases |batches|
  {
    if |batches| == 0 || st.failed then st
    else
      IndicesAppend(batches[0], Flatten(batches[1..]));
      InRangeAppend(batches[0], Flatten(batches[1..]), |st.slots|);
      match encodeBatch(BatchTexts(batches[0]))
      case None => st.(failed := true)
      case Some(embs) =>
        RunBatches(StoreBatch(st, batches[0], embs, enabled, hash), batches[1..], encodeBatch, enabled, hash)
  }

  lemma InRangeAppend(a: seq<(nat, string)>, b: seq<(nat, string)>, n: nat)
    requires InRange(a + b, n)
    ensures InRange(a, n) && InRange(b, n)
  {
    forall k | 0 <= k < |a| ensures a[k].0 < n {
      assert (a + b)[k] == a[k];
    }
    forall k | 0 <= k < |b| ensures b[k].0 < n {
      assert (a + b)[|a| + k] == b[k];
    }
  }

  lemma ConsistentAppend(a: seq<(nat, string)>, b: seq<(nat, string)>, enc: string -> Vector, want: nat -> Vector)
    requires Consistent(a + b, enc, want)
    ensures Consistent(a, enc, want) && Consistent(b, enc, want)
  {
    forall k | 0 <= k < |a| ensures enc(a[k].1) == want(a[k].0) {
      assert (a + b)[k] == a[k];
    }
    forall k | 0 <= k < |b| ensures enc(b[k].1) == want(b[k].0) {
      assert (a + b)[|a| + k] == b[k];
    }
  }

  lemma IndicesAppend(a: seq<(nat, string)>, b: seq<(nat, string)>)
    ensures Indices(a + b) == Indices(a) + Indices(b)
  {
    var ab := a + b;
    forall i | i in Indices(ab) ensures i in Indices(a) + Indices(b) {
      var k :| 0 <= k < |ab| && ab[k].0 == i;
      if k < |a| { assert a[k].0 == i; } else { assert b[k - |a|].0 == i; }
    }
    forall i | i in Indices(a) + Indices(b) ensures i in Indices(ab) {
      if i in Indices(a) {
        var k :| 0 <= k < |a| && a[k].0 == i;
        assert ab[k].0 == i;
      } else {
        var k :| 0 <= k < |b| && b[k].0 == i;
        assert ab[|a| + k].0 == i;
      }
    }
  }

  /** The recovery loop after a failed batch: every placeholder becomes `[]`,
      every filled position is kept. */
  function Fill(slots: seq<Slot>): (r: seq<Slot>)
    ensures |r| == |slots|
    ensures forall i :: 0 <= i < |slots| ==> r[i].Some?
    ensures forall i :: 0 <= i < |slots| && slots[i].Some? ==> r[i] == slots[i]
    ensures forall i :: 0 <= i < |slots| && slots[i].None? ==> r[i] == Some([])
  {
    seq(|slots|, i requires 0 <= i < |slots| => if slots[i].None? then Some([]) else slots[i])
  }

  /** `batch_embed`. The result keeps Python's placeholder: a `None` survives
      when the batch size is negative (the batch loop is empty) or the model
      returns fewer vectors than texts. A batch size of 0 makes `range` raise
      before any batch, which takes the recovery path. */
  function BatchEmbed(texts: seq<string>, batchSize: int, cache: Cache, enabled: bool,
                      hash: string -> string,
                      encodeBatch: seq<string> -> Option<seq<Vector>>): (r: Outcome<seq<Slot>>)
    requires KeysDistinct(cache)
    ensures KeysDistinct(r.cache)
    ensures |r.value| == |texts|
    ensures forall i :: 0 <= i < |texts| && IsBlank(texts[i]) ==> r.value[i] == Some([])
    ensures forall i :: 0 <= i < |texts| && !IsBlank(texts[i]) && hash(texts[i]) in Keys(cache) ==>
              r.value[i] == Lookup(cache, hash(texts[i]))
    ensures batchSize == 0 ==> r.cache == cache && forall i :: 0 <= i < |texts| ==> r.value[i].Some?
    ensures !enabled ==> r.cache == cache
  {
    if |texts| == 0 then Outcome([], cache)
    else
      var slots := ScanSlots(texts, cache, hash);
      var pending := Pending(texts, cache, hash);
      if |pending| == 0 then Outcome(slots, cache)
      else if batchSize == 0 then Outcome(Fill(slots), cache)
      else if batchSize < 0 then Outcome(slots, cache)
      else
        var batches := Batches(pending, batchSize);
        var st := RunBatches(BatchState(slots, cache, false), batches, encodeBatch, enabled, hash);
        Outcome(if st.failed then Fill(st.slots) else st.slots, st.cache)
  }

  /** The vectors a model that embeds each text on its own returns for a batch. */
  function EncodeEach(texts: seq<string>, enc: string -> Vector): (r: seq<Vector>)
    ensures |r| == |texts|
    ensures forall j :: 0 <= j < |texts| ==> r[j] == enc(texts[j])
  {
    seq(|texts|, j requires 0 <= j < |texts| => enc(texts[j]))
  }

  /** Every pair carries the text whose embedding `want` expects at its position. */
  predicate Consistent(ps: seq<(nat, string)>, enc: string -> Vector, want: nat -> Vector)
  {
    forall k :: 0 <= k < |ps| ==> enc(ps[k].1) == want(ps[k].0)
  }

  /** A model that answers a vector per text fills every position of the
      batch with that text's vector, and does not raise. */
  lemma {:induction false} StoreBatchWritesBack(st: BatchState, batch: seq<(nat, string)>,
                                                enc: string -> Vector, want: nat -> Vector,
                                                enabled: bool, hash: string -> string)
    requires InRange(batch, |st.slots|) && KeysDistinct(st.cache)
    requires Consistent(batch, enc, want)
    ensures var r := StoreBatch(st, batch, EncodeEach(BatchTexts(batch), enc), enabled, hash);
            r.failed == st.failed
            && forall i :: i in Indices(batch) ==> i < |r.slots| && r.slots[i] == Some(want(i))
    decreases |batch|
  {
    var embs := EncodeEach(BatchTexts(batch), enc);
    if |batch| > 0 {
      var p := batch[0];
      var next := st.(slots := st.slots[p.0 := Some(embs[0])],
                      cache := if enabled then Put(st.cache, hash(p.1), embs[0]) else st.cache);
      assert embs[1..] == EncodeEach(BatchTexts(batch[1..]), enc);
      StoreBatchWritesBack(next, batch[1..], enc, want, enabled, hash);
      assert Indices(batch) == {p.0} + Indices(batch[1..]);
      assert StoreBatch(st, batch, embs, enabled, hash) == StoreBatch(next, batch[1..], embs[1..], enabled, hash);
    }
  }

  lemma {:induction false} RunBatchesWritesBack(st: BatchState, batches: seq<seq<(nat, string)>>,
                                                encodeBatch: seq<string> -> Option<seq<Vector>>,
                                                enc: string -> Vector, want: nat -> Vector,
                                                enabled: bool, hash: string -> string)
    requires InRange(Flatten(batches), |st.slots|) && Consistent(Flatten(batches), enc, want)
    requires KeysDistinct(st.cache) && !st.failed
    requires forall b :: encodeBatch(b) == Some(EncodeEach(b, enc))
    ensures var r := RunBatches(st, batches, encodeBatch, enabled, hash);
            !r.failed && forall i :: i in Indices(Flatten(batches)) ==> i < |r.slots| && r.slots[i] == Some(want(i))
    decreases |batches|
  {
    if |batches| > 0 {
      var b := batches[0];
      assert encodeBatch(BatchTexts(b)) == Some(EncodeEach(BatchTexts(b), enc));
      InRangeAppend(b, Flatten(batches[1..]), |st.slots|);
      ConsistentAppend(b, Flatten(batches[1..]), enc, want);
      var next := StoreBatch(st, b, EncodeEach(BatchTexts(b), enc), enabled, hash);
      StoreBatchWritesBack(st, b, enc, want, enabled, hash);
      RunBatchesWritesBack(next, batches[1..], encodeBatch, enc, want, enabled, hash);
      IndicesAppend(b, Flatten(batches[1..]));
    }
  }

  /** What `batch_embed` gives at one position when the model embeds each text
      on its own: `[]` for blank text, the cached vector on a hit, the model's
      vector for the stripped text otherwise. */
  function Expected(t: string, cache: Cache, hash: string -> string, enc: string -> Vector): Vector
  {
    if IsBlank(t) then []
    else if hash(t) in Keys(cache) then Lookup(cache, hash(t)).value
    else enc(Strip(t))
  }

  /** Batching is invisible: with a positive batch size and a model that embeds
      each text on its own, every position holds exactly what embedding its
      text alone against the incoming cache would give, so the vectors land
      back at their original positions. */
  lemma BatchEmbedPositions(texts: seq<string>, batchSize: int, cache: Cache, enabled: bool,
                            hash: string -> string, encodeBatch: seq<string> -> Option<seq<Vector>>,
                            enc: string -> Vector)
    requires KeysDistinct(cache) && batchSize > 0
    requires forall b :: encodeBatch(b) == Some(EncodeEach(b, enc))
    ensures var r := BatchEmbed(texts, batchSize, cache, enabled, hash, encodeBatch);
            forall i :: 0 <= i < |texts| ==> r.value[i] == Some(Expected(texts[i], cache, hash, enc))
  {
    if |texts| > 0 {
      var slots := ScanSlots(texts, cache, hash);
      var pending := Pending(texts, cache, hash);
      if |pending| > 0 {
        var want := (i: nat) => if i < |texts| then enc(Strip(texts[i])) else [];
        assert InRange(pending, |slots|) && Consistent(pending, enc, want);
        RunPending(slots, cache, pending, batchSize, encodeBatch, enc, want, enabled, hash);
        var st := RunBatches(BatchState(slots, cache, false), Batches(pending, batchSize), encodeBatch, enabled, hash);
        BatchEmbedRuns(texts, batchSize, cache, enabled, hash, encodeBatch);
        WrittenBackIsExpected(texts, cache, hash, enc, st.slots);
      }
    }
  }

  /** The batch loop over a consistent list of pending positions fills each of
      them with the expected vector and touches nothing else. */
  lemma RunPending(slots: seq<Slot>, cache: Cache, pending: seq<(nat, string)>, batchSize: nat,
                   encodeBatch: seq<string> -> Option<seq<Vector>>, enc: string -> Vector,
                   want: nat -> Vector, enabled: bool, hash: string -> string)
    requires InRange(pending, |slots|) && Consistent(pending, enc, want)
    requires KeysDistinct(cache) && batchSize > 0
    requires forall b :: encodeBatch(b) == Some(EncodeEach(b, enc))
    ensures var st := RunBatches(BatchState(slots, cache, false), Batches(pending, batchSize), encodeBatch, enabled, hash);
            !st.failed && |st.slots| == |slots|
            && (forall i :: 0 <= i < |slots| && i in Indices(pending) ==> st.slots[i] == Some(want(i)))
            && (forall i :: 0 <= i < |slots| && i !in Indices(pending) ==> st.slots[i] == slots[i])
  {
    var batches := Batches(pending, batchSize);
    RunBatchesWritesBack(BatchState(slots, cache, false), batches, encodeBatch, enc, want, enabled, hash);
  }

  lemma WrittenBackIsExpected(texts: seq<string>, cache: Cache, hash: string -> string,
                              enc: string -> Vector, slots: seq<Slot>)
    requires |slots| == |texts|
    requires forall i :: 0 <= i < |texts| && i in Indices(Pending(texts, cache, hash)) ==>
               slots[i] == Some(enc(Strip(texts[i])))
    requires forall i :: 0 <= i < |texts| && i !in Indices(Pending(texts, cache, hash)) ==>
               slots[i] == ScanSlot(texts[i], cache, hash)
    ensures forall i :: 0 <= i < |texts| ==> slots[i] == Some(Expected(texts[i], cache, hash, enc))
  {
    var pending := Pending(texts, cache, hash);
    forall i | 0 <= i < |texts| ensures slots[i] == Some(Expected(texts[i], cache, hash, enc)) {
      if i in Indices(pending) {
        var m :| 0 <= m < |pending| && pending[m].0 == i;
        assert ScanSlot(texts[i], cache, hash).None?;
      }
    }
  }

  /** A model that never answers with fewer vectors than texts leaves no
      placeholder behind, whatever the non-negative batch size: either every
      batch is written back or the recovery path fills the rest. */
  lemma BatchEmbedNoPlaceholder(texts: seq<string>, batchSize: int, cache: Cache, enabled: bool,
                                hash: string -> string, encodeBatch: seq<string> -> Option<seq<Vector>>)
    requires KeysDistinct(cache) && batchSize >= 0
    requires forall b :: encodeBatch(b).Some? ==> |encodeBatch(b).value| >= |b|
    ensures var r := BatchEmbed(texts, batchSize, cache, enabled, hash, encodeBatch);
            forall i :: 0 <= i < |texts| ==> r.value[i].Some?
  {
    if |texts| > 0 && batchSize > 0 {
      var slots := ScanSlots(texts, cache, hash);
      var pending := Pending(texts, cache, hash);
      if |pending| > 0 {
        var batches := Batches(pending, batchSize);
        RunBatchesFills(BatchState(slots, cache, false), batches, encodeBatch, enabled, hash);
        forall i | 0 <= i < |texts| && i !in Indices(pending) ensures slots[i].Some? {
        }
      }
    }
  }

  lemma {:induction false} StoreBatchFills(st: BatchState, batch: seq<(nat, string)>, embs: seq<Vector>,
                                           enabled: bool, hash: string -> string)
    requires InRange(batch, |st.slots|) && KeysDistinct(st.cache)
    requires |embs| >= |batch|
    ensures var r := StoreBatch(st, batch, embs, enabled, hash);
            (forall i :: 0 <= i < |st.slots| && st.slots[i].Some? ==> r.slots[i].Some?)
            && (!r.failed ==> forall i :: i in Indices(batch) ==> r.slots[i].Some?)
    decreases |batch|
  {
    if |batch| > 0 {
      var p := batch[0];
      var next := st.(slots := st.slots[p.0 := Some(embs[0])],
                      cache := if enabled then Put(st.cache, hash(p.1), embs[0]) else st.cache);
      var r := StoreBatch(st, batch, embs, enabled, hash);
      assert r == StoreBatch(next, batch[1..], embs[1..], enabled, hash);
      StoreBatchFills(next, batch[1..], embs[1..], enabled, hash);
      forall i | 0 <= i < |st.slots| && st.slots[i].Some? ensures r.slots[i].Some? {
        assert next.slots[i].Some?;
      }
      if !r.failed {
        IndicesCons(batch);
        forall i | i in Indices(batch) ensures r.slots[i].Some? {
          if i == p.0 {
            assert next.slots[i].Some?;
          }
        }
      }
    }
  }

  lemma IndicesCons(batch: seq<(nat, string)>)
    requires |batch| > 0
    ensures Indices(batch) == {batch[0].0} + Indices(batch[1..])
  {
    assert batch == [batch[0]] + batch[1..];
    IndicesAppend([batch[0]], batch[1..]);
    assert Indices([batch[0]]) == {batch[0].0} by {
      assert [batch[0]][0] == batch[0];
    }
  }

  lemma {:induction false} RunBatchesFills(st: BatchState, batches: seq<seq<(nat, string)>>,
                                           encodeBatch: seq<string> -> Option<seq<Vector>>,
                                           enabled: bool, hash: string -> string)
    requires InRange(Flatten(batches), |st.slots|)
    requires KeysDistinct(st.cache)
    requires forall b :: encodeBatch(b).Some? ==> |encodeBatch(b).value| >= |b|
    ensures var r := RunBatches(st, batches, encodeBatch, enabled, hash);
            (forall i :: 0 <= i < |st.slots| && st.slots[i].Some? ==> r.slots[i].Some?)
            && (!r.failed ==> forall i :: 0 <= i < |st.slots| && i in Indices(Flatten(batches)) ==> r.slots[i].Some?)
    decreases |batches|
  {
    if |batches| > 0 && !st.failed {
      var b := batches[0];
      IndicesAppend(b, Flatten(batches[1..]));
      InRangeAppend(b, Flatten(batches[1..]), |st.slots|);
      match encodeBatch(BatchTexts(b))
      case None =>
      case Some(embs) =>
        var next := StoreBatch(st, b, embs, enabled, hash);
        StoreBatchFills(st, b, embs, enabled, hash);
        RunBatchesFills(next, batches[1..], encodeBatch, enabled, hash);
    }
  }

  lemma PaddedText()
    ensures !IsBlank(" a") && Strip(" a") == "a"
  {
    assert !IsSpace(" a"[1]);
    assert TrimLeft(" a") == TrimLeft(" a"[1..]);
    assert " a"[1..] == "a";
    assert TrimLeft("a") == "a";
    assert TrimRight("a") == "a";
  }

  lemma SingleMiss(t: string, cache: Cache, hash: string -> string)
    requires ScanSlot(t, cache, hash).None?
    ensures Pending([t], cache, hash) == [(0, Strip(t))]
  {
    var ps := Pending([t], cache, hash);
    assert 0 in Indices(ps);
  }

  lemma PaddedBatch(hash: string -> string, encodeBatch: seq<string> -> Option<seq<Vector>>)
    requires hash(" a") == " a" && hash("a") == "a" && encodeBatch(["a"]) == Some([[1.0]])
    ensures BatchEmbed([" a"], 1, [], true, hash, encodeBatch).cache == [("a", [1.0])]
  {
    PaddedText();
    SingleMiss(" a", [], hash);
    SingletonBatches([(0, "a")]);
    RunOne(BatchState(ScanSlots([" a"], [], hash), [], false), hash, encodeBatch);
    BatchEmbedRuns([" a"], 1, [], true, hash, encodeBatch);
  }

  lemma RunOne(st: BatchState, hash: string -> string, encodeBatch: seq<string> -> Option<seq<Vector>>)
    requires |st.slots| == 1 && st.cache == [] && !st.failed
    requires hash("a") == "a" && encodeBatch(["a"]) == Some([[1.0]])
    ensures RunBatches(st, [[(0, "a")]], encodeBatch, true, hash).cache == [("a", [1.0])]
  {
    var batch := [(0, "a")];
    assert BatchTexts(batch) == ["a"];
    var st1 := StoreBatch(st, batch, [[1.0]], true, hash);
    OneStore(st, hash);
    var batches: seq<seq<(nat, string)>> := [batch];
    assert batches[1..] == [];
    assert RunBatches(st, batches, encodeBatch, true, hash) == RunBatches(st1, [], encodeBatch, true, hash);
  }

  /** The batched path of `batch_embed`, unfolded. */
  lemma BatchEmbedRuns(texts: seq<string>, batchSize: int, cache: Cache, enabled: bool,
                       hash: string -> string, encodeBatch: seq<string> -> Option<seq<Vector>>)
    requires KeysDistinct(cache) && |texts| > 0 && batchSize > 0 && |Pending(texts, cache, hash)| > 0
    ensures var st := RunBatches(BatchState(ScanSlots(texts, cache, hash), cache, false),
                                 Batches(Pending(texts, cache, hash), batchSize), encodeBatch, enabled, hash);
            BatchEmbed(texts, batchSize, cache, enabled, hash, encodeBatch)
              == Outcome(if st.failed then Fill(st.slots) else st.slots, st.cache)
  {
  }

  lemma SingletonBatches(pending: seq<(nat, string)>)
    requires |pending| == 1
    ensures Batches(pending, 1) == [pending]
  {
    assert pending[..1] == pending && pending[1..] == [];
  }

  lemma OneStore(st: BatchState, hash: string -> string)
    requires |st.slots| == 1 && st.cache == [] && hash("a") == "a"
    ensures StoreBatch(st, [(0, "a")], [[1.0]], true, hash).cache == [("a", [1.0])]
  {
    var next := st.(slots := st.slots[0 := Some([1.0])], cache := Put([], "a", [1.0]));
    assert StoreBatch(st, [(0, "a")], [[1.0]], true, hash) == StoreBatch(next, [], [], true, hash);
  }

  /** The lookup key is the hash of the text as given but the batch path
      inserts under the hash of the stripped text. With an identity hash, a
      padded text embedded in a batch is cached as "a", so the next batch
      misses on " a" and sends it to the model again; the single-text path
      caches the same text under " a". */
  lemma BatchCacheKeyMismatch()
    ensures var id := (t: string) => t;
            var model := (b: seq<string>) => Some(EncodeEach(b, (t: string) => [1.0]));
            var first := BatchEmbed([" a"], 1, [], true, id, model);
            Keys(first.cache) == {"a"} && |Pending([" a"], first.cache, id)| == 1
            && Keys(GenerateEmbedding(" a", [], true, id, (t: string) => Some([1.0])).cache) == {" a"}
  {
    var id := (t: string) => t;
    var model := (b: seq<string>) => Some(EncodeEach(b, (t: string) => [1.0]));
    PaddedText();
    var e := EncodeEach(["a"], (t: string) => [1.0]);
    assert |e| == 1 && e[0] == [1.0];
    assert e == [[1.0]];
    assert model(["a"]) == Some([[1.0]]);
    PaddedBatch(id, model);
    CachedUnderStripped(id);
    SingleTextKey(id, (t: string) => Some([1.0]));
  }

  /** With " a" cached under "a" only, the lookup for " a" misses. */
  lemma CachedUnderStripped(hash: string -> string)
    requires hash(" a") == " a"
    ensures Keys([("a", [1.0])]) == {"a"} && |Pending([" a"], [("a", [1.0])], hash)| == 1
  {
    PaddedText();
    var c: Cache := [("a", [1.0])];
    KeysCons(("a", [1.0]), []);
    assert c == [("a", [1.0])] + [];
    SingleMiss(" a", c, hash);
  }

  /** The single-text path caches " a" under its own hash. */
  lemma SingleTextKey(hash: string -> string, encode: string -> Option<Vector>)
    requires hash(" a") == " a" && encode("a") == Some([1.0])
    ensures Keys(GenerateEmbedding(" a", [], true, hash, encode).cache) == {" a"}
  {
    PaddedText();
    KeysCons((" a", [1.0]), []);
    assert [(" a", [1.0])] == [(" a", [1.0])] + [];
  }

  // ---------------------------------------------------------------------
  // find_most_similar
  // ---------------------------------------------------------------------

  /** Every candidate paired with its index and its guarded similarity to the query. */
  function ScoreAll(query: Vector, candidates: seq<Vector>, cosine: (Vector, Vector) -> real)
    : (r: seq<Ranking.Scored<nat>>)
    ensures |r| == |candidates|
    ensures forall i :: 0 <= i < |candidates| ==> r[i] == Ranking.Scored(i, Cosine(query, candidates[i], cosine))
  {
    seq(|candidates|, i requires 0 <= i < |candidates| => Ranking.Scored(i, Cosine(query, candidates[i], cosine)))
  }

  /** `find_most_similar`: (candidate index, similarity) pairs, best first,
      cut with Python's `[:top_k]` (so a negative `top_k` drops entries from
      the end). */
  function FindMostSimilar(query: Vector, candidates: seq<Vector>, topK: int,
                           cosine: (Vector, Vector) -> real): (r: seq<Ranking.Scored<nat>>)
    ensures |query| == 0 || |candidates| == 0 ==> r == []
    ensures |query| > 0 && |candidates| > 0 ==> |r| == SliceBound(|candidates|, topK)
    ensures 0 <= topK ==> |r| <= topK
    ensures Ranking.SortedDesc(r)
    ensures forall k :: 0 <= k < |r| ==>
              r[k].item < |candidates| && r[k].score == Cosine(query, candidates[r[k].item], cosine)
    ensures forall k1, k2 :: 0 <= k1 < k2 < |r| ==> r[k1].item != r[k2].item
  {
    if |query| == 0 || |candidates| == 0 then []
    else
      var all := ScoreAll(query, candidates, cosine);
      var sorted := Ranking.SortDesc(all);
      forall k | 0 <= k < |sorted|
        ensures sorted[k].item < |candidates| && sorted[k].score == Cosine(query, candidates[sorted[k].item], cosine)
      {
        assert sorted[k] in multiset(sorted);
        var i :| 0 <= i < |all| && all[i] == sorted[k];
      }
      DistinctItems(all, sorted);
      Take(sorted, topK)
  }

  /** A rearrangement of entries with distinct indices repeats no index. */
  lemma DistinctItems(all: seq<Ranking.Scored<nat>>, sorted: seq<Ranking.Scored<nat>>)
    requires forall i :: 0 <= i < |all| ==> all[i].item == i
    requires multiset(sorted) == multiset(all)
    ensures forall k1, k2 :: 0 <= k1 < k2 < |sorted| ==> sorted[k1].item != sorted[k2].item
  {
    PermutationDistinct(all, sorted);
    forall k1, k2 | 0 <= k1 < k2 < |sorted| ensures sorted[k1].item != sorted[k2].item {
      assert sorted[k1] in multiset(all) && sorted[k2] in multiset(all);
      var i1 :| 0 <= i1 < |all| && all[i1] == sorted[k1];
      var i2 :| 0 <= i2 < |all| && all[i2] == sorted[k2];
    }
  }

  /** Some entry of `r` is about candidate `i`. */
  ghost predicate Listed(r: seq<Ranking.Scored<nat>>, i: nat)
  {
    exists k :: 0 <= k < |r| && r[k].item == i
  }

  /** The selection is the best: a candidate left out scores no higher than
      any candidate kept. */
  lemma FindMostSimilarIsTopK(query: Vector, candidates: seq<Vector>, topK: int,
                              cosine: (Vector, Vector) -> real, i: nat)
    requires |query| > 0 && i < |candidates|
    ensures var r := FindMostSimilar(query, candidates, topK, cosine);
            Listed(r, i) || forall k :: 0 <= k < |r| ==> Cosine(query, candidates[i], cosine) <= r[k].score
  {
    var all := ScoreAll(query, candidates, cosine);
    var sorted := Ranking.SortDesc(all);
    var r := FindMostSimilar(query, candidates, topK, cosine);
    assert r == Take(sorted, topK);
    assert all[i] in multiset(sorted);
    var p :| 0 <= p < |sorted| && sorted[p] == all[i];
    if p < |r| {
      assert r[p].item == i;
    } else {
      forall k | 0 <= k < |r| ensures Cosine(query, candidates[i], cosine) <= r[k].score {
        assert r[k] == sorted[k];
      }
    }
  }

  // ---------------------------------------------------------------------
  // cleanup_cache
  // ---------------------------------------------------------------------

  /** `cleanup_cache`: an oversized cache keeps the entries from Python's
      `-max_size // 2` onwards. Unary minus binds tighter than `//`, which
      floors; for the divisor 2 that is Dafny's `/`. So a positive `max_size`
      keeps the newest `ceil(max_size / 2)` entries, 0 keeps them all, and a
      negative one drops the oldest `-max_size // 2`. */
  function CleanupCache(c: Cache, maxSize: int): (r: Cache)
    ensures |r| <= |c| && r == c[|c| - |r|..]
    ensures |c| <= maxSize ==> r == c
    ensures 0 < maxSize < |c| ==> |r| == (maxSize + 1) / 2 && |r| <= maxSize
    ensures maxSize == 0 ==> r == c
    ensures maxSize < 0 ==> |r| == Max(0, |c| - (-maxSize) / 2)
  {
    if |c| > maxSize then Drop(c, (-maxSize) / 2) else c
  }

  /** The trimmed cache is a sub-dictionary: it keeps distinct keys and maps
      every key it still holds to the vector the full cache held. */
  lemma CleanupKeepsEntries(c: Cache, maxSize: int, k: string)
    requires KeysDistinct(c)
    ensures KeysDistinct(CleanupCache(c, maxSize))
    ensures k in Keys(CleanupCache(c, maxSize)) ==> Lookup(CleanupCache(c, maxSize), k) == Lookup(c, k)
  {
    var r := CleanupCache(c, maxSize);
    SuffixLookup(c, |c| - |r|, k);
  }

  lemma {:induction false} SuffixLookup(c: Cache, n: nat, k: string)
    requires KeysDistinct(c) && n <= |c|
    ensures KeysDistinct(c[n..])
    ensures k in Keys(c[n..]) ==> Lookup(c[n..], k) == Lookup(c, k)
    decreases n
  {
    if n > 0 {
      assert c[n..] == c[1..][n - 1..];
      SuffixLookup(c[1..], n - 1, k);
      if k in Keys(c[n..]) {
        var j :| 0 <= j < |c[n..]| && c[n..][j].0 == k;
        assert c[n + j].0 == k;
        assert c[0].0 != k;
      }
    }
  }
}
