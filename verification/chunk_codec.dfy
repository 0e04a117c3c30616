/** The dictionary form of a chunk: what the store writes into a chunk's
    `data` field (`store_rulebook_content`) and how a search reads it back
    (`_dict_to_content_chunk`). Tables are written with `dataclasses.asdict`. */
module ChunkCodec {
  import opened Wrappers
  import opened Values
  import opened DataModels

  function RowsValue(rows: seq<seq<string>>): Value
  {
    List(seq(|rows|, i requires 0 <= i < |rows| => StrList(rows[i])))
  }

  lemma RowsValueInjective(a: seq<seq<string>>, b: seq<seq<string>>)
    requires RowsValue(a) == RowsValue(b)
    ensures a == b
  {
    assert |a| == |RowsValue(a).items| == |RowsValue(b).items| == |b|;
    forall i | 0 <= i < |a| ensures a[i] == b[i] {
      assert RowsValue(a).items[i] == StrList(a[i]);
      assert RowsValue(b).items[i] == StrList(b[i]);
      StrListInjective(a[i], b[i]);
    }
  }

  /** `asdict(table)`. */
  function TableToValue(t: Table): Value
  {
    Dict(map["title" := Str(t.title), "headers" := StrList(t.headers), "rows" := RowsValue(t.rows),
             "page_number" := Int(t.pageNumber), "metadata" := Dict(t.metadata)])
  }

  /** Different tables are written as different dictionaries, so the
      `asdict` form keeps everything a table holds. */
  lemma TableToValueInjective(a: Table, b: Table)
    requires TableToValue(a) == TableToValue(b)
    ensures a == b
  {
    var da, db := TableToValue(a).fields, TableToValue(b).fields;
    assert da["title"] == Str(a.title) && db["title"] == Str(b.title);
    assert da["headers"] == StrList(a.headers) && db["headers"] == StrList(b.headers);
    assert da["rows"] == RowsValue(a.rows) && db["rows"] == RowsValue(b.rows);
    assert da["page_number"] == Int(a.pageNumber) && db["page_number"] == Int(b.pageNumber);
    assert da["metadata"] == Dict(a.metadata) && db["metadata"] == Dict(b.metadata);
    StrListInjective(a.headers, b.headers);
    RowsValueInjective(a.rows, b.rows);
  }

  /** The tables a chunk is written with: `None` and `[]` both become `[]`. */
  function StoredTables(c: ContentChunk): seq<Table>
  {
    if c.tables.Some? then c.tables.value else []
  }

  function TablesValue(tables: seq<Table>): Value
  {
    List(seq(|tables|, i requires 0 <= i < |tables| => TableToValue(tables[i])))
  }

  lemma TablesValueInjective(a: seq<Table>, b: seq<Table>)
    requires TablesValue(a) == TablesValue(b)
    ensures a == b
  {
    assert |a| == |TablesValue(a).items| == |TablesValue(b).items| == |b|;
    forall i | 0 <= i < |a| ensures a[i] == b[i] {
      assert TablesValue(a).items[i] == TableToValue(a[i]);
      assert TablesValue(b).items[i] == TableToValue(b[i]);
      TableToValueInjective(a[i], b[i]);
    }
  }

  /** The `chunk_data` dictionary. */
  function ChunkToValue(c: ContentChunk): (v: Value)
    ensures v.Dict? && v.fields.Keys == {"id", "rulebook", "system", "content_type", "title", "content",
                                         "page_number", "section_path", "embedding", "metadata", "tables"}
  {
    var tables := StoredTables(c);
    Dict(map["id" := Str(c.id), "rulebook" := Str(c.rulebook), "system" := Str(c.system),
             "content_type" := Str(c.contentType), "title" := Str(c.title), "content" := Str(c.content),
             "page_number" := Int(c.pageNumber), "section_path" := StrList(c.sectionPath),
             "embedding" := RealList(c.embedding), "metadata" := Dict(c.metadata),
             "tables" := TablesValue(tables)])
  }

  /** The keys `_dict_to_content_chunk` indexes with `d[key]`, in the order
      the constructor call lists them. */
  const ChunkKeys: seq<string> := ["id", "rulebook", "system", "content_type", "title", "content",
                                   "page_number", "section_path", "embedding", "metadata"]

  /** The field of a read-back chunk that holds `d[key]`. */
  function LoadedField(c: LoadedChunk, key: string): Value
    requires key in ChunkKeys
  {
    match key
    case "id" => c.id
    case "rulebook" => c.rulebook
    case "system" => c.system
    case "content_type" => c.contentType
    case "title" => c.title
    case "content" => c.content
    case "page_number" => c.pageNumber
    case "section_path" => c.sectionPath
    case "embedding" => c.embedding
    case _ => c.metadata
  }

  /** The first of `keys` that `d` lacks. */
  function FirstMissing(keys: seq<string>, d: map<string, Value>): (k: string)
    requires exists i :: 0 <= i < |keys| && keys[i] !in d
    ensures k in keys && k !in d
  {
    if keys[0] !in d then keys[0] else FirstMissing(keys[1..], d)
  }

  /** `_dict_to_content_chunk`: the ten fields are looked up (the first
      missing one raises `KeyError`) and handed to the dataclass unchecked;
      `tables` defaults to `[]` and is kept as the stored list of
      dictionaries. */
  function ChunkFromDict(d: map<string, Value>): (r: Decoded<LoadedChunk>)
    ensures r.Success? <==> HasChunkKeys(d)
    ensures r.Failure? ==> r.error.MissingKey? && r.error.key in ChunkKeys && r.error.key !in d
    ensures r.Success? ==> r.value.tables == GetOr(d, "tables", List([]))
  {
    if HasChunkKeys(d) then
      Success(LoadedChunk(d["id"], d["rulebook"], d["system"], d["content_type"], d["title"], d["content"],
                          d["page_number"], d["section_path"], d["embedding"], d["metadata"],
                          GetOr(d, "tables", List([]))))
    else
      assert exists i :: 0 <= i < |ChunkKeys| && ChunkKeys[i] !in d by {
        HasChunkKeysAll(d);
      }
      Failure(MissingKey(FirstMissing(ChunkKeys, d)))
  }

  /** `d` holds every key of `ChunkKeys`. */
  predicate HasChunkKeys(d: map<string, Value>)
  {
    && "id" in d && "rulebook" in d && "system" in d && "content_type" in d && "title" in d
    && "content" in d && "page_number" in d && "section_path" in d && "embedding" in d && "metadata" in d
  }

  lemma HasChunkKeysAll(d: map<string, Value>)
    ensures HasChunkKeys(d) <==> forall i :: 0 <= i < |ChunkKeys| ==> ChunkKeys[i] in d
  {
    if forall i :: 0 <= i < |ChunkKeys| ==> ChunkKeys[i] in d {
      assert ChunkKeys[0] in d && ChunkKeys[1] in d && ChunkKeys[2] in d && ChunkKeys[3] in d && ChunkKeys[4] in d;
      assert ChunkKeys[5] in d && ChunkKeys[6] in d && ChunkKeys[7] in d && ChunkKeys[8] in d && ChunkKeys[9] in d;
    }
  }

  /** A chunk read from a document holds each of the ten required fields
      exactly as stored: no field is checked or converted. */
  lemma ChunkFromDictFields(d: map<string, Value>)
    requires ChunkFromDict(d).Success?
    ensures forall k :: k in ChunkKeys ==> LoadedField(ChunkFromDict(d).value, k) == d[k]
  {
    var c := ChunkFromDict(d).value;
    assert c == LoadedChunk(d["id"], d["rulebook"], d["system"], d["content_type"], d["title"], d["content"],
                            d["page_number"], d["section_path"], d["embedding"], d["metadata"],
                            GetOr(d, "tables", List([])));
    forall k | k in ChunkKeys ensures LoadedField(c, k) == d[k] {
      var i :| 0 <= i < |ChunkKeys| && ChunkKeys[i] == k;
    }
  }

  /** Writing a chunk and reading it back gives each field's JSON value, and
      the tables as their `asdict` dictionaries (`[]` for absent tables);
      the tables do not come back as `Table` records. */
  lemma ChunkRoundTrip(c: ContentChunk)
    ensures ChunkFromDict(ChunkToValue(c).fields)
         == Success(LoadedChunk(Str(c.id), Str(c.rulebook), Str(c.system), Str(c.contentType), Str(c.title),
                                Str(c.content), Int(c.pageNumber), StrList(c.sectionPath), RealList(c.embedding),
                                Dict(c.metadata), TablesValue(StoredTables(c))))
  {
    LabelsRoundTrip(c);
    BodyRoundTrip(c);
  }

  lemma LabelsRoundTrip(c: ContentChunk)
    ensures var d := ChunkToValue(c).fields;
      && Holds(d, "id", Str(c.id)) && Holds(d, "rulebook", Str(c.rulebook)) && Holds(d, "system", Str(c.system))
      && Holds(d, "content_type", Str(c.contentType)) && Holds(d, "title", Str(c.title))
      && Holds(d, "content", Str(c.content))
  {
    var d := ChunkToValue(c).fields;
    assert d["id"] == Str(c.id);
    assert d["rulebook"] == Str(c.rulebook);
    assert d["system"] == Str(c.system);
    assert d["content_type"] == Str(c.contentType);
    assert d["title"] == Str(c.title);
    assert d["content"] == Str(c.content);
  }

  lemma BodyRoundTrip(c: ContentChunk)
    ensures var d := ChunkToValue(c).fields;
      && Holds(d, "page_number", Int(c.pageNumber)) && Holds(d, "section_path", StrList(c.sectionPath))
      && Holds(d, "embedding", RealList(c.embedding)) && Holds(d, "metadata", Dict(c.metadata))
      && Holds(d, "tables", TablesValue(StoredTables(c)))
  {
    var d := ChunkToValue(c).fields;
    assert d["page_number"] == Int(c.pageNumber);
    assert d["section_path"] == StrList(c.sectionPath);
    assert d["embedding"] == RealList(c.embedding);
    assert d["metadata"] == Dict(c.metadata);
    assert d["tables"] == TablesValue(StoredTables(c));
  }

  /** What a search reads back determines the chunk that was written, up to
      the difference between `None` and `[]` tables. */
  lemma ReadBackDeterminesChunk(a: ContentChunk, b: ContentChunk)
    requires ChunkFromDict(ChunkToValue(a).fields) == ChunkFromDict(ChunkToValue(b).fields)
    ensures a.(tables := None) == b.(tables := None)
    ensures StoredTables(a) == StoredTables(b)
  {
    ChunkRoundTrip(a);
    ChunkRoundTrip(b);
    StrListInjective(a.sectionPath, b.sectionPath);
    RealListInjective(a.embedding, b.embedding);
    TablesValueInjective(StoredTables(a), StoredTables(b));
  }
}
