/** Rulebook chunks in the store: each chunk is a hash under `chunk:{id}`
    and a member of three index sets, one each for its rulebook, game system
    and content type. The store writes every chunk of a call in one pipeline,
    modelled as a single transition. */
module ChunkStore {
  import opened Wrappers
  import opened Values
  import opened Strings
  import opened Seqs
  import opened DataModels
  import opened RedisState
  import opened ChunkCodec

  /** The index set a label field files a chunk under: `rulebook:{x}`,
      `system:{x}` or `content_type:{x}`. */
  function IndexOf(field: string, x: string): Key
  {
    if field == "rulebook" then RulebookIndex(x)
    else if field == "system" then SystemIndex(x)
    else ContentTypeIndex(x)
  }

  /** The three index sets a chunk is filed under. */
  function IndexNames(c: ContentChunk): set<Key>
  {
    {RulebookIndex(c.rulebook), SystemIndex(c.system), ContentTypeIndex(c.contentType)}
  }

  /** The hash written for a chunk: the JSON document under `data`, plus
      plain copies of the labels the statistics read. */
  function ChunkFields(c: ContentChunk): Hash
  {
    map["data" := Encoded(ChunkToValue(c)),
        "rulebook" := Text(c.rulebook),
        "system" := Text(c.system),
        "content_type" := Text(c.contentType),
        "title" := Text(c.title)]
  }

  /** `h` carries the labels of `c` as plain strings. */
  ghost predicate CarriesLabels(h: Hash, c: ContentChunk)
  {
    && "rulebook" in h && h["rulebook"] == Text(c.rulebook)
    && "system" in h && h["system"] == Text(c.system)
    && "content_type" in h && h["content_type"] == Text(c.contentType)
  }

  /** What the store relies on about a chunk's hash: every chunk gets the
      same field names, and the labels are stored in the clear. */
  ghost predicate Layout(fields: ContentChunk -> Hash)
  {
    (forall a, b :: fields(a).Keys == fields(b).Keys)
    && forall c :: CarriesLabels(fields(c), c)
  }

  /** The written hash holds the chunk's document and its labels, and all
      chunk hashes share one set of field names. */
  lemma ChunkFieldsLayout()
    ensures Layout(ChunkFields)
    ensures forall c :: "data" in ChunkFields(c) && ChunkFields(c)["data"] == Encoded(ChunkToValue(c))
  {
    forall c ensures CarriesLabels(ChunkFields(c), c)
      && "data" in ChunkFields(c) && ChunkFields(c)["data"] == Encoded(ChunkToValue(c))
    {
      var h := ChunkFields(c);
      assert h["data"] == Encoded(ChunkToValue(c));
      assert h["rulebook"] == Text(c.rulebook);
      assert h["system"] == Text(c.system);
      assert h["content_type"] == Text(c.contentType);
    }
    forall a, b ensures ChunkFields(a).Keys == ChunkFields(b).Keys {
      assert ChunkFields(a).Keys == {"data", "rulebook", "system", "content_type", "title"};
      assert ChunkFields(b).Keys == {"data", "rulebook", "system", "content_type", "title"};
    }
  }

  /** Writing a hash over one with the same field names leaves no trace of it. */
  lemma Absorb(h: Hash, a: Hash, b: Hash)
    requires a.Keys == b.Keys
    ensures h + a + b == h + b
  {
  }

  /** The commands queued for one chunk: `HSET chunk:{id}` with `h`, then the
      three `SADD`s. */
  function FileChunk(db: Db, c: ContentChunk, h: Hash): (r: Db)
    ensures HGetAll(r, ChunkKey(c.id)) == HGetAll(db, ChunkKey(c.id)) + h
    ensures forall k :: k != ChunkKey(c.id) ==> HGetAll(r, k) == HGetAll(db, k)
    ensures forall n :: Members(r, n) == Members(db, n) + (if n in IndexNames(c) then {ChunkKey(c.id)} else {})
    ensures r.hashes.Keys == db.hashes.Keys + {ChunkKey(c.id)}
    ensures r.sets.Keys == db.sets.Keys + IndexNames(c)
  {
    var key := ChunkKey(c.id);
    var db1 := HSet(db, key, h);
    var db2 := SAdd(db1, RulebookIndex(c.rulebook), key);
    var db3 := SAdd(db2, SystemIndex(c.system), key);
    SAdd(db3, ContentTypeIndex(c.contentType), key)
  }

  /** The pipeline over `cs`, each chunk's hash laid out by `fields`. */
  function StoreWith(db: Db, cs: seq<ContentChunk>, fields: ContentChunk -> Hash): Db
    decreases |cs|
  {
    if |cs| == 0 then db
    else FileChunk(StoreWith(db, cs[..|cs| - 1], fields), cs[|cs| - 1], fields(cs[|cs| - 1]))
  }

  /** `store_rulebook_content`: every chunk's commands, in list order, applied
      as one pipeline. */
  function StoreRulebookContent(db: Db, content: seq<ContentChunk>): Db
  {
    StoreWith(db, content, ChunkFields)
  }

  /** The last chunk of `cs` stored under `key`: the one whose fields a
      pipeline over `cs` leaves in place. */
  function LastFor(cs: seq<ContentChunk>, key: Key): (r: Option<ContentChunk>)
    ensures r.None? <==> forall i :: 0 <= i < |cs| ==> ChunkKey(cs[i].id) != key
    ensures r.Some? ==> exists i :: 0 <= i < |cs| && cs[i] == r.value && ChunkKey(r.value.id) == key
                                    && forall j :: i < j < |cs| ==> ChunkKey(cs[j].id) != key
    decreases |cs|
  {
    if |cs| == 0 then None
    else if ChunkKey(cs[|cs| - 1].id) == key then Some(cs[|cs| - 1])
    else
      var init := cs[..|cs| - 1];
      var r := LastFor(init, key);
      assert forall i :: 0 <= i < |init| ==> init[i] == cs[i];
      assert r.Some? ==> exists i :: 0 <= i < |cs| && cs[i] == r.value && ChunkKey(r.value.id) == key
                                    && forall j :: i < j < |cs| ==> ChunkKey(cs[j].id) != key by {
        if r.Some? {
          var i :| 0 <= i < |init| && init[i] == r.value && ChunkKey(r.value.id) == key
                   && forall j :: i < j < |init| ==> ChunkKey(init[j].id) != key;
          assert cs[i] == r.value;
        }
      }
      r
  }

  /** The hash `h` after the pipeline, given the chunk that last wrote it. */
  function Overlay(h: Hash, last: Option<ContentChunk>, fields: ContentChunk -> Hash): Hash
  {
    match last
    case None => h
    case Some(c) => h + fields(c)
  }

  /** The keys of the chunk hashes a pipeline over `cs` writes. */
  function StoredKeys(cs: seq<ContentChunk>): (r: set<Key>)
    ensures forall k :: k in r <==> LastFor(cs, k).Some?
    decreases |cs|
  {
    if |cs| == 0 then {} else StoredKeys(cs[..|cs| - 1]) + {ChunkKey(cs[|cs| - 1].id)}
  }

  /** The index sets a pipeline over `cs` adds to. */
  function IndexSets(cs: seq<ContentChunk>): set<Key>
    decreases |cs|
  {
    if |cs| == 0 then {} else IndexSets(cs[..|cs| - 1]) + IndexNames(cs[|cs| - 1])
  }

  /** The keys a pipeline over `cs` adds to the set `n`. */
  function IndexedBy(cs: seq<ContentChunk>, n: Key): (r: set<Key>)
    ensures r != {} ==> n in IndexSets(cs)
    ensures forall k :: k in r ==> k in StoredKeys(cs)
    decreases |cs|
  {
    if |cs| == 0 then {}
    else
      var last := cs[|cs| - 1];
      IndexedBy(cs[..|cs| - 1], n) + (if n in IndexNames(last) then {ChunkKey(last.id)} else {})
  }

  /** Every chunk in `cs` is filed under each of its own index sets. */
  lemma {:induction false} IndexedByHolds(cs: seq<ContentChunk>, i: nat)
    requires i < |cs|
    ensures forall n :: n in IndexNames(cs[i]) ==> ChunkKey(cs[i].id) in IndexedBy(cs, n)
    decreases |cs|
  {
    if i < |cs| - 1 {
      IndexedByHolds(cs[..|cs| - 1], i);
    }
  }

  lemma StoreSnoc(db: Db, cs: seq<ContentChunk>, c: ContentChunk, fields: ContentChunk -> Hash)
    ensures StoreWith(db, cs + [c], fields) == FileChunk(StoreWith(db, cs, fields), c, fields(c))
  {
    assert (cs + [c])[..|cs|] == cs;
  }

  /** What a pipeline does to hashes, key by key: each chunk hash holds the
      fields of the last chunk written under it over whatever it held before;
      every other hash is untouched. */
  lemma {:induction false} StoreWithHashes(db: Db, cs: seq<ContentChunk>, fields: ContentChunk -> Hash, k: Key)
    requires forall a, b :: fields(a).Keys == fields(b).Keys
    ensures HGetAll(StoreWith(db, cs, fields), k) == Overlay(HGetAll(db, k), LastFor(cs, k), fields)
    decreases |cs|
  {
    if |cs| > 0 {
      var p := cs[..|cs| - 1];
      var c := cs[|cs| - 1];
      StoreWithHashes(db, p, fields, k);
      if k == ChunkKey(c.id) {
        match LastFor(p, k)
        case None =>
        case Some(a) => Absorb(HGetAll(db, k), fields(a), fields(c));
      }
    }
  }

  /** Each index set gains exactly the keys filed under it. */
  lemma {:induction false} StoreWithMembers(db: Db, cs: seq<ContentChunk>, fields: ContentChunk -> Hash, n: Key)
    ensures Members(StoreWith(db, cs, fields), n) == Members(db, n) + IndexedBy(cs, n)
    decreases |cs|
  {
    if |cs| > 0 {
      StoreWithMembers(db, cs[..|cs| - 1], fields, n);
    }
  }

  /** The pipeline adds exactly the chunk keys and index sets of `cs`. */
  lemma StoreWithKeys(db: Db, cs: seq<ContentChunk>, fields: ContentChunk -> Hash)
    ensures StoreWith(db, cs, fields).hashes.Keys == db.hashes.Keys + StoredKeys(cs)
    ensures StoreWith(db, cs, fields).sets.Keys == db.sets.Keys + IndexSets(cs)
  {
    StoreWithHashKeys(db, cs, fields);
    StoreWithSetKeys(db, cs, fields);
  }

  lemma {:induction false} StoreWithHashKeys(db: Db, cs: seq<ContentChunk>, fields: ContentChunk -> Hash)
    ensures StoreWith(db, cs, fields).hashes.Keys == db.hashes.Keys + StoredKeys(cs)
    decreases |cs|
  {
    if |cs| > 0 {
      StoreWithHashKeys(db, cs[..|cs| - 1], fields);
    }
  }

  lemma {:induction false} StoreWithSetKeys(db: Db, cs: seq<ContentChunk>, fields: ContentChunk -> Hash)
    ensures StoreWith(db, cs, fields).sets.Keys == db.sets.Keys + IndexSets(cs)
    decreases |cs|
  {
    if |cs| > 0 {
      StoreWithSetKeys(db, cs[..|cs| - 1], fields);
    }
  }

  /** The index sets after a pipeline contain every chunk of it. */
  lemma StoredChunksAreIndexed(db: Db, cs: seq<ContentChunk>, i: nat)
    requires i < |cs|
    ensures var r := StoreRulebookContent(db, cs);
            && ChunkKey(cs[i].id) in r.hashes
            && ChunkKey(cs[i].id) in Members(r, RulebookIndex(cs[i].rulebook))
            && ChunkKey(cs[i].id) in Members(r, SystemIndex(cs[i].system))
            && ChunkKey(cs[i].id) in Members(r, ContentTypeIndex(cs[i].contentType))
  {
    var k := ChunkKey(cs[i].id);
    StoreWithKeys(db, cs, ChunkFields);
    IndexedByHolds(cs, i);
    StoreWithMembers(db, cs, ChunkFields, RulebookIndex(cs[i].rulebook));
    StoreWithMembers(db, cs, ChunkFields, SystemIndex(cs[i].system));
    StoreWithMembers(db, cs, ChunkFields, ContentTypeIndex(cs[i].contentType));
    assert LastFor(cs, k).Some?;
  }

  /** For any layout, a chunk with no later namesake leaves its own fields on top. */
  lemma LastWriterWinsWith(db: Db, cs: seq<ContentChunk>, fields: ContentChunk -> Hash, i: nat)
    requires i < |cs|
    requires forall j :: i < j < |cs| ==> ChunkKey(cs[j].id) != ChunkKey(cs[i].id)
    requires forall a, b :: fields(a).Keys == fields(b).Keys
    ensures HGetAll(StoreWith(db, cs, fields), ChunkKey(cs[i].id)) == HGetAll(db, ChunkKey(cs[i].id)) + fields(cs[i])
  {
    var k := ChunkKey(cs[i].id);
    StoreWithHashes(db, cs, fields, k);
    LastForIs(cs, k, i);
  }

  /** The chunk at `i` is the last one stored under `key` when no later chunk is. */
  lemma {:induction false} LastForIs(cs: seq<ContentChunk>, key: Key, i: nat)
    requires i < |cs| && ChunkKey(cs[i].id) == key
    requires forall j :: i < j < |cs| ==> ChunkKey(cs[j].id) != key
    ensures LastFor(cs, key) == Some(cs[i])
    decreases |cs|
  {
    if i < |cs| - 1 {
      var init := cs[..|cs| - 1];
      assert init[i] == cs[i];
      assert forall j :: i < j < |init| ==> init[j] == cs[j];
      LastForIs(init, key, i);
    }
  }

  /** Last writer wins: a hash holds the document of the last chunk in the
      list stored under its key; of two chunks with one id only the later
      survives. */
  lemma LastWriterWins(db: Db, cs: seq<ContentChunk>, i: nat)
    requires i < |cs|
    requires forall j :: i < j < |cs| ==> cs[j].id != cs[i].id
    ensures HGet(StoreRulebookContent(db, cs), ChunkKey(cs[i].id), "data") == Some(Encoded(ChunkToValue(cs[i])))
  {
    ChunkFieldsLayout();
    LastWriterWinsWith(db, cs, ChunkFields, i);
  }


  lemma StoreWithIdempotentHash(db: Db, cs: seq<ContentChunk>, fields: ContentChunk -> Hash, k: Key)
    requires forall a, b :: fields(a).Keys == fields(b).Keys
    ensures HGetAll(StoreWith(StoreWith(db, cs, fields), cs, fields), k) == HGetAll(StoreWith(db, cs, fields), k)
  {
    StoreWithHashes(db, cs, fields, k);
    StoreWithHashes(StoreWith(db, cs, fields), cs, fields, k);
    match LastFor(cs, k)
    case None =>
    case Some(c) => Absorb(HGetAll(db, k), fields(c), fields(c));
  }

  lemma StoreWithIdempotentHashes(db: Db, cs: seq<ContentChunk>, fields: ContentChunk -> Hash)
    requires forall a, b :: fields(a).Keys == fields(b).Keys
    ensures StoreWith(StoreWith(db, cs, fields), cs, fields).hashes == StoreWith(db, cs, fields).hashes
  {
    var once := StoreWith(db, cs, fields);
    var twice := StoreWith(once, cs, fields);
    StoreWithKeys(once, cs, fields);
    StoreWithKeys(db, cs, fields);
    forall k | k in twice.hashes ensures twice.hashes[k] == once.hashes[k] {
      StoreWithIdempotentHash(db, cs, fields, k);
    }
  }

  lemma StoreWithIdempotentSets(db: Db, cs: seq<ContentChunk>, fields: ContentChunk -> Hash)
    ensures StoreWith(StoreWith(db, cs, fields), cs, fields).sets == StoreWith(db, cs, fields).sets
  {
    var once := StoreWith(db, cs, fields);
    var twice := StoreWith(once, cs, fields);
    StoreWithKeys(once, cs, fields);
    StoreWithKeys(db, cs, fields);
    forall n | n in twice.sets ensures twice.sets[n] == once.sets[n] {
      StoreWithMembers(db, cs, fields, n);
      StoreWithMembers(once, cs, fields, n);
    }
  }

  /** Storing the same chunks again changes nothing at all; in particular
      it creates no new keys. */
  lemma StoreWithIdempotent(db: Db, cs: seq<ContentChunk>, fields: ContentChunk -> Hash)
    requires forall a, b :: fields(a).Keys == fields(b).Keys
    ensures StoreWith(StoreWith(db, cs, fields), cs, fields) == StoreWith(db, cs, fields)
  {
    StoreWithIdempotentHashes(db, cs, fields);
    StoreWithIdempotentSets(db, cs, fields);
  }

  lemma StoreRulebookContentIdempotent(db: Db, cs: seq<ContentChunk>)
    ensures StoreRulebookContent(StoreRulebookContent(db, cs), cs) == StoreRulebookContent(db, cs)
  {
    ChunkFieldsLayout();
    StoreWithIdempotent(db, cs, ChunkFields);
  }

  // ---------------------------------------------------------------------
  // Index consistency
  // ---------------------------------------------------------------------

  predicate IsIndexSet(n: Key)
  {
    n.RulebookIndex? || n.SystemIndex? || n.ContentTypeIndex?
  }

  /** No index set names a key that holds no hash. */
  ghost predicate NoDangling(db: Db)
  {
    forall n, k :: n in db.sets && IsIndexSet(n) && k in db.sets[n] ==> k in db.hashes
  }

  /** A chunk hash whose label `field` holds the plain string `x` is a
      member of the matching index set for `x`. */
  ghost predicate FiledUnder(db: Db, k: Key, field: string)
  {
    match HGet(db, k, field)
    case Some(Text(x)) => k in Members(db, IndexOf(field, x))
    case _ => true
  }

  /** Every chunk hash is filed under its current labels. */
  ghost predicate Indexed(db: Db)
  {
    forall k :: k in db.hashes && k.ChunkKey? ==>
      FiledUnder(db, k, "rulebook")
      && FiledUnder(db, k, "system")
      && FiledUnder(db, k, "content_type")
  }

  lemma FileChunkKeepsConsistency(db: Db, c: ContentChunk, h: Hash)
    requires NoDangling(db) && Indexed(db)
    requires CarriesLabels(h, c)
    ensures NoDangling(FileChunk(db, c, h)) && Indexed(FileChunk(db, c, h))
  {
    var r := FileChunk(db, c, h);
    var key := ChunkKey(c.id);
    forall n, k | n in r.sets && IsIndexSet(n) && k in r.sets[n] ensures k in r.hashes {
      assert k in Members(r, n);
    }
    forall k | k in r.hashes && k.ChunkKey?
      ensures FiledUnder(r, k, "rulebook")
      ensures FiledUnder(r, k, "system")
      ensures FiledUnder(r, k, "content_type")
    {
      if k == key {
        assert HGet(r, k, "rulebook") == Some(Text(c.rulebook));
        assert HGet(r, k, "system") == Some(Text(c.system));
        assert HGet(r, k, "content_type") == Some(Text(c.contentType));
      } else {
        assert HGetAll(r, k) == HGetAll(db, k);
        assert k in db.hashes;
      }
    }
  }

  lemma {:induction false} StoreWithKeepsConsistency(db: Db, cs: seq<ContentChunk>, fields: ContentChunk -> Hash)
    requires NoDangling(db) && Indexed(db)
    requires forall c :: CarriesLabels(fields(c), c)
    ensures NoDangling(StoreWith(db, cs, fields)) && Indexed(StoreWith(db, cs, fields))
    decreases |cs|
  {
    if |cs| > 0 {
      var c := cs[|cs| - 1];
      StoreWithKeepsConsistency(db, cs[..|cs| - 1], fields);
      FileChunkKeepsConsistency(StoreWith(db, cs[..|cs| - 1], fields), c, fields(c));
    }
  }

  /** Storing preserves both halves of index consistency. */
  lemma StoreRulebookContentKeepsConsistency(db: Db, cs: seq<ContentChunk>)
    requires NoDangling(db) && Indexed(db)
    ensures NoDangling(StoreRulebookContent(db, cs)) && Indexed(StoreRulebookContent(db, cs))
  {
    ChunkFieldsLayout();
    StoreWithKeepsConsistency(db, cs, ChunkFields);
  }

  /** Re-storing a chunk id under another rulebook overwrites its labels but
      leaves the key in the old rulebook's index set: memberships are only
      ever added. */
  lemma StaleMembership(db: Db, a: ContentChunk, b: ContentChunk)
    requires a.id == b.id
    ensures var r := StoreRulebookContent(db, [a, b]);
            && ChunkKey(a.id) in Members(r, RulebookIndex(a.rulebook))
            && HGet(r, ChunkKey(a.id), "rulebook") == Some(Text(b.rulebook))
  {
    ChunkFieldsLayout();
    var cs := [a, b];
    StoreWithMembers(db, cs, ChunkFields, RulebookIndex(a.rulebook));
    IndexedByHolds(cs, 0);
    StoreWithHashes(db, cs, ChunkFields, ChunkKey(a.id));
    assert LastFor(cs, ChunkKey(a.id)) == Some(b);
  }

  // ---------------------------------------------------------------------
  // _get_filtered_chunks
  // ---------------------------------------------------------------------

  /** The index set a filter entry narrows by; `None` for a name the store
      does not recognise. */
  function IndexFor(name: string, value: string): (r: Option<Key>)
  {
    if name == "rulebook" || name == "system" || name == "content_type" then Some(IndexOf(name, value))
    else None
  }

  /** The filter loop: intersect with each recognised entry's index set. */
  function Narrow(db: Db, keys: set<Key>, filters: seq<(string, string)>): (r: set<Key>)
    ensures r <= keys
    decreases |filters|
  {
    if |filters| == 0 then keys
    else
      var next := match IndexFor(filters[0].0, filters[0].1)
                  case Some(n) => keys * Members(db, n)
                  case None => keys;
      Narrow(db, next, filters[1..])
  }

  /** `_get_filtered_chunks`: all `chunk:*` keys, narrowed by the filters
      in order. An empty filter list stands for both `None` and `{}`. */
  function FilteredChunks(db: Db, filters: seq<(string, string)>): (r: set<Key>)
    ensures r <= ScanChunks(db)
    ensures |filters| == 0 ==> r == ScanChunks(db)
  {
    Narrow(db, ScanChunks(db), filters)
  }

  /** A key passes a filter list when it is in every recognised entry's set. */
  ghost predicate Passes(db: Db, k: Key, filters: seq<(string, string)>)
  {
    forall i :: 0 <= i < |filters| && IndexFor(filters[i].0, filters[i].1).Some? ==>
      k in Members(db, IndexFor(filters[i].0, filters[i].1).value)
  }

  lemma {:induction false} NarrowSpec(db: Db, keys: set<Key>, filters: seq<(string, string)>, k: Key)
    ensures k in Narrow(db, keys, filters) <==> k in keys && Passes(db, k, filters)
    decreases |filters|
  {
    if |filters| > 0 {
      var next := match IndexFor(filters[0].0, filters[0].1)
                  case Some(n) => keys * Members(db, n)
                  case None => keys;
      NarrowSpec(db, next, filters[1..], k);
      if Passes(db, k, filters[1..]) && (IndexFor(filters[0].0, filters[0].1).Some? ==> k in Members(db, IndexFor(filters[0].0, filters[0].1).value)) {
        forall i | 0 <= i < |filters| && IndexFor(filters[i].0, filters[i].1).Some?
          ensures k in Members(db, IndexFor(filters[i].0, filters[i].1).value)
        {
          if i > 0 { assert filters[i] == filters[1..][i - 1]; }
        }
      }
      if Passes(db, k, filters) {
        forall i | 0 <= i < |filters| - 1 && IndexFor(filters[1..][i].0, filters[1..][i].1).Some?
          ensures k in Members(db, IndexFor(filters[1..][i].0, filters[1..][i].1).value)
        {
          assert filters[1..][i] == filters[i + 1];
        }
      }
    }
  }

  /** The filter result as a set: the chunk keys in every recognised entry's index set. */
  lemma FilteredChunksSpec(db: Db, filters: seq<(string, string)>, k: Key)
    ensures k in FilteredChunks(db, filters) <==> k in ScanChunks(db) && Passes(db, k, filters)
  {
    NarrowSpec(db, ScanChunks(db), filters, k);
  }

  /** An entry with an unrecognised name has no effect, wherever it appears. */
  lemma UnrecognisedFilterIgnored(db: Db, a: seq<(string, string)>, b: seq<(string, string)>, name: string, value: string)
    requires IndexFor(name, value).None?
    ensures FilteredChunks(db, a + [(name, value)] + b) == FilteredChunks(db, a + b)
  {
    var with := a + [(name, value)] + b;
    var without := a + b;
    forall k ensures k in FilteredChunks(db, with) <==> k in FilteredChunks(db, without) {
      FilteredChunksSpec(db, with, k);
      FilteredChunksSpec(db, without, k);
      if Passes(db, k, without) {
        forall i | 0 <= i < |with| && IndexFor(with[i].0, with[i].1).Some?
          ensures k in Members(db, IndexFor(with[i].0, with[i].1).value)
        {
          if i < |a| { assert with[i] == without[i]; }
          else if i > |a| { assert with[i] == without[i - 1]; }
        }
      }
      if Passes(db, k, with) {
        forall i | 0 <= i < |without| && IndexFor(without[i].0, without[i].1).Some?
          ensures k in Members(db, IndexFor(without[i].0, without[i].1).value)
        {
          if i < |a| { assert with[i] == without[i]; }
          else { assert with[i + 1] == without[i]; }
        }
      }
    }
  }

  /** In a consistent store, a rulebook filter finds every chunk whose hash
      names that rulebook. */
  lemma RulebookFilterComplete(db: Db, k: Key, x: string)
    requires Indexed(db)
    requires k in db.hashes && k.ChunkKey?
    requires HGet(db, k, "rulebook") == Some(Text(x))
    ensures k in FilteredChunks(db, [("rulebook", x)])
  {
    FilteredChunksSpec(db, [("rulebook", x)], k);
    assert FiledUnder(db, k, "rulebook");
  }

  // ---------------------------------------------------------------------
  // get_rulebook_stats
  // ---------------------------------------------------------------------

  function Count(m: map<string, nat>, x: string): nat
  {
    if x in m then m[x] else 0
  }

  /** `counts[x] = counts.get(x, 0) + 1`. */
  function Tally(m: map<string, nat>, x: string): (r: map<string, nat>)
    ensures Count(r, x) == Count(m, x) + 1
    ensures forall y :: y != x ==> Count(r, y) == Count(m, y)
  {
    m[x := Count(m, x) + 1]
  }

  /** `data.get(field, "unknown")` on an `HGETALL` reply; a JSON-encoded
      field reads as its text, given by `dumps`. */
  function Label(h: Hash, field: string, dumps: Value -> string): string
  {
    if field !in h then "unknown"
    else match h[field]
      case Text(s) => s
      case Encoded(v) => dumps(v)
  }

  datatype Stats = Stats(
    totalChunks: nat,
    rulebooks: map<string, nat>,
    systems: map<string, nat>,
    contentTypes: map<string, nat>)

  /** The category counts over the chunk keys in `keys`, in the order given. */
  function Tallies(db: Db, keys: seq<Key>, dumps: Value -> string): Stats
    decreases |keys|
  {
    if |keys| == 0 then Stats(0, map[], map[], map[])
    else
      var s := Tallies(db, keys[..|keys| - 1], dumps);
      var h := HGetAll(db, keys[|keys| - 1]);
      if h == map[] then s
      else Stats(0, Tally(s.rulebooks, Label(h, "rulebook", dumps)),
                 Tally(s.systems, Label(h, "system", dumps)),
                 Tally(s.contentTypes, Label(h, "content_type", dumps)))
  }

  /** `get_rulebook_stats`, given the order in which the scan lists the chunk
      keys: the key count, then per-label counts of the non-empty hashes. */
  function RulebookStats(db: Db, keys: seq<Key>, dumps: Value -> string): (r: Stats)
    requires Enumerates(keys, ScanChunks(db))
    ensures r.totalChunks == |keys|
  {
    Tallies(db, keys, dumps).(totalChunks := |keys|)
  }

  /** A chunk hash counts towards rulebook `x` when it is non-empty and its
      `rulebook` field (or "unknown") reads `x`. */
  predicate CountsAs(db: Db, k: Key, dumps: Value -> string, x: string)
  {
    HGetAll(db, k) != map[] && Label(HGetAll(db, k), "rulebook", dumps) == x
  }

  /** Each rulebook count is the number of scanned keys that count towards it. */
  lemma RulebookCountSpec(db: Db, keys: seq<Key>, dumps: Value -> string, x: string)
    requires Enumerates(keys, ScanChunks(db))
    ensures Count(RulebookStats(db, keys, dumps).rulebooks, x)
            == |Filter(keys, (k: Key) => CountsAs(db, k, dumps, x))|
  {
    TalliesCount(db, keys, dumps, x);
  }

  /** Tallying any list of keys counts, per rulebook, the keys that count
      towards it. */
  lemma {:induction false} TalliesCount(db: Db, keys: seq<Key>, dumps: Value -> string, x: string)
    ensures Count(Tallies(db, keys, dumps).rulebooks, x)
            == |Filter(keys, (k: Key) => CountsAs(db, k, dumps, x))|
    decreases |keys|
  {
    var p := (k: Key) => CountsAs(db, k, dumps, x);
    if |keys| > 0 {
      var init := keys[..|keys| - 1];
      var last := keys[|keys| - 1];
      TalliesCount(db, init, dumps, x);
      assert keys == init + [last];
      FilterAppend(init, [last], p);
      assert Filter([last], p) == if p(last) then [last] else [] by {
        assert [last][1..] == [];
      }
    }
  }
}
