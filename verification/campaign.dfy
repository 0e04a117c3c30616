/** Campaign records in the store: creation, retrieval by campaign and type,
    update (content merge plus version bump) and deletion, over the same
    `Db` as the chunk side. Fresh ids, the clock and `json.dumps` text are
    inputs. */
module Campaign {
  import opened Wrappers
  import opened Values
  import opened Strings
  import opened RedisState
  import opened Seqs

  /** What redis-py sends for one mapping value: strings as they are,
      integers in decimal, floats as their repr (which is also their JSON
      text); `None`, booleans and containers are refused with a data error. */
  function Storable(v: Value): (r: Option<Field>)
    ensures r.Some? <==> v.Str? || v.Int? || v.Float?
    ensures v.Str? ==> r == Some(Text(v.s))
  {
    match v
    case Str(s) => Some(Text(s))
    case Int(i) => Some(Text(IntToString(i)))
    case Float(x) => Some(Encoded(Float(x)))
    case _ => None
  }

  /** The text the store holds for a field; `dumps` is the JSON text of a
      value. */
  function Raw(f: Field, dumps: Value -> string): string
  {
    match f
    case Text(s) => s
    case Encoded(v) => dumps(v)
  }

  /** `json.loads` of a field: only what was written with `json.dumps`
      parses back. */
  function Loads(f: Field): (r: Option<Value>)
    ensures r.Some? <==> f.Encoded?
    ensures f.Encoded? ==> r == Some(f.v)
  {
    match f
    case Encoded(v) => Some(v)
    case Text(_) => None
  }

  /** The record's name: `data.get("name", "")`. */
  function NameOf(data: map<string, Value>): Value
  {
    GetOr(data, "name", Str(""))
  }

  /** The record's tags: `data.get("tags", [])`, and `[]` again when that is
      falsy. */
  function TagsOf(data: map<string, Value>): (t: Value)
    ensures Truthy(t) || t == List([])
    ensures "tags" in data && Truthy(data["tags"]) ==> t == data["tags"]
  {
    var t := GetOr(data, "tags", List([]));
    if Truthy(t) then t else List([])
  }

  /** The key a record lives under and the two index sets that list it. */
  function RecordKey(campaignId: string, dataType: string, dataId: string): Key
  {
    CampaignKey(campaignId, dataType, dataId)
  }

  /** The hash `store_campaign_data` writes, or `None` when the name cannot
      be sent. `created` and `updated` are the two `datetime.now()` readings
      as ISO text; they need not agree. */
  function RecordFields(campaignId: string, dataType: string, dataId: string,
                        data: map<string, Value>, created: string, updated: string): Option<Hash>
  {
    var name :- Storable(NameOf(data));
    Some(map[
      "id" := Text(dataId),
      "campaign_id" := Text(campaignId),
      "data_type" := Text(dataType),
      "name" := name,
      "content" := Encoded(Dict(data)),
      "created_at" := Text(created),
      "updated_at" := Text(updated),
      "version" := Text("1"),
      "tags" := Encoded(TagsOf(data))])
  }

  /** Every field a fresh record carries, as the reader sees it. */
  lemma RecordFieldsContents(campaignId: string, dataType: string, dataId: string,
                             data: map<string, Value>, created: string, updated: string)
    requires Storable(NameOf(data)).Some?
    ensures RecordFields(campaignId, dataType, dataId, data, created, updated).Some?
    ensures var h := RecordFields(campaignId, dataType, dataId, data, created, updated).value;
      && h.Keys == {"id", "campaign_id", "data_type", "name", "content", "created_at", "updated_at", "version", "tags"}
      && h["id"] == Text(dataId) && h["campaign_id"] == Text(campaignId) && h["data_type"] == Text(dataType)
      && h["name"] == Storable(NameOf(data)).value
      && h["content"] == Encoded(Dict(data)) && h["tags"] == Encoded(TagsOf(data))
      && h["created_at"] == Text(created) && h["updated_at"] == Text(updated) && h["version"] == Text("1")
  {
  }

  /** `store_campaign_data`: the hash, then the campaign index, then the
      per-type index. The id is the caller's fresh `dataId`. A name redis-py
      refuses raises before anything is written. */
  function StoreCampaignData(db: Db, campaignId: string, dataType: string, dataId: string,
                             data: map<string, Value>, created: string, updated: string): (r: Option<Db>)
    ensures r.Some? <==> Storable(NameOf(data)).Some?
    ensures r.Some? ==>
      var key := RecordKey(campaignId, dataType, dataId);
      && HGetAll(r.value, key) == HGetAll(db, key) + RecordFields(campaignId, dataType, dataId, data, created, updated).value
      && Members(r.value, CampaignIndex(campaignId)) == Members(db, CampaignIndex(campaignId)) + {key}
      && Members(r.value, CampaignTypeIndex(campaignId, dataType)) == Members(db, CampaignTypeIndex(campaignId, dataType)) + {key}
      && (forall k :: k != key ==> HGetAll(r.value, k) == HGetAll(db, k))
      && (forall n :: n != CampaignIndex(campaignId) && n != CampaignTypeIndex(campaignId, dataType) ==> Members(r.value, n) == Members(db, n))
  {
    var fields :- RecordFields(campaignId, dataType, dataId, data, created, updated);
    var key := RecordKey(campaignId, dataType, dataId);
    var db1 := HSet(db, key, fields);
    var db2 := SAdd(db1, CampaignIndex(campaignId), key);
    Some(SAdd(db2, CampaignTypeIndex(campaignId, dataType), key))
  }

  // ---------------------------------------------------------------------
  // Retrieval

  /** The index `get_campaign_data` reads: the per-type set when a truthy
      type is given, otherwise every record of the campaign. */
  function IndexRead(campaignId: string, dataType: Option<string>): (k: Key)
    ensures k.CampaignTypeIndex? <==> dataType.Some? && dataType.value != ""
  {
    if dataType.Some? && dataType.value != "" then CampaignTypeIndex(campaignId, dataType.value)
    else CampaignIndex(campaignId)
  }

  /** The keys `get_campaign_data` visits. */
  function CampaignKeys(db: Db, campaignId: string, dataType: Option<string>): set<Key>
  {
    Members(db, IndexRead(campaignId, dataType))
  }

  /** One non-empty hash as `get_campaign_data` returns it: every field as
      its stored text, except `content` and `tags`, which are parsed back.
      `None` when either is missing or does not parse (the call then
      returns nothing at all). */
  function Record(h: Hash, dumps: Value -> string): (r: Option<map<string, Value>>)
    ensures r.Some? <==> "content" in h && "tags" in h && h["content"].Encoded? && h["tags"].Encoded?
    ensures r.Some? ==> r.value.Keys == h.Keys
    ensures r.Some? ==> r.value["content"] == h["content"].v && r.value["tags"] == h["tags"].v
    ensures r.Some? ==> forall f :: f in h && f != "content" && f != "tags" ==> r.value[f] == Str(Raw(h[f], dumps))
  {
    if "content" !in h || "tags" !in h then None
    else
      var content :- Loads(h["content"]);
      var tags :- Loads(h["tags"]);
      var text := map f | f in h :: Str(Raw(h[f], dumps));
      Some(text["content" := content]["tags" := tags])
  }

  /** No key in `keys` holds a record that fails to read. */
  predicate Readable(db: Db, keys: seq<Key>, dumps: Value -> string)
  {
    forall i :: 0 <= i < |keys| ==> HGetAll(db, keys[i]) == map[] || Record(HGetAll(db, keys[i]), dumps).Some?
  }

  /** The keys in `keys` that hold a hash, in order. */
  function Present(db: Db, keys: seq<Key>): (r: seq<Key>)
    ensures forall k :: k in r <==> k in keys && HGetAll(db, k) != map[]
    decreases |keys|
  {
    if keys == [] then []
    else
      var rest := Present(db, keys[..|keys| - 1]);
      if HGetAll(db, keys[|keys| - 1]) == map[] then rest else rest + [keys[|keys| - 1]]
  }

  /** The key holds a non-empty hash (`if data:` after `hgetall`). */
  function HoldsHash(db: Db): Key -> bool
  {
    k => HGetAll(db, k) != map[]
  }

  /** `Present` keeps exactly the keys holding a hash, in the order of
      `keys`: it is the filter of `keys` by `HoldsHash`. */
  lemma {:induction false} PresentIsFilter(db: Db, keys: seq<Key>)
    ensures Present(db, keys) == Filter(keys, HoldsHash(db))
    decreases |keys|
  {
    if keys != [] {
      var init, last := keys[..|keys| - 1], keys[|keys| - 1];
      PresentIsFilter(db, init);
      assert keys == init + [last];
      FilterAppend(init, [last], HoldsHash(db));
      assert Filter([last], HoldsHash(db)) == (if HoldsHash(db)(last) then [last] else []) + Filter([], HoldsHash(db));
    }
  }

  /** The records of the readable keys `keys`, one per key that holds a
      hash. */
  function Records(db: Db, keys: seq<Key>, dumps: Value -> string): (r: seq<map<string, Value>>)
    requires Readable(db, keys, dumps)
    ensures |r| == |Present(db, keys)|
    ensures forall j :: 0 <= j < |r| ==> Record(HGetAll(db, Present(db, keys)[j]), dumps) == Some(r[j])
    decreases |keys|
  {
    if keys == [] then []
    else
      var init := keys[..|keys| - 1];
      assert Readable(db, init, dumps) by {
        forall i | 0 <= i < |init| ensures HGetAll(db, init[i]) == map[] || Record(HGetAll(db, init[i]), dumps).Some? {
          assert init[i] == keys[i];
        }
      }
      var rest := Records(db, init, dumps);
      var h := HGetAll(db, keys[|keys| - 1]);
      if h == map[] then rest else rest + [Record(h, dumps).value]
  }

  /** `get_campaign_data(campaignId, dataType)` over the members of the
      index it reads, in the order `keys` enumerates them: keys without a
      hash are skipped, and one unreadable record anywhere turns the whole
      answer into `[]`. */
  function GetCampaignData(db: Db, campaignId: string, dataType: Option<string>, keys: seq<Key>,
                           dumps: Value -> string): (r: seq<map<string, Value>>)
    requires Enumerates(keys, CampaignKeys(db, campaignId, dataType))
    ensures !Readable(db, keys, dumps) ==> r == []
    ensures Readable(db, keys, dumps) ==> |r| == |Present(db, keys)|
    ensures Readable(db, keys, dumps) ==>
      forall j :: 0 <= j < |r| ==> Record(HGetAll(db, Present(db, keys)[j]), dumps) == Some(r[j])
  {
    if Readable(db, keys, dumps) then Records(db, keys, dumps) else []
  }

  // ---------------------------------------------------------------------
  // Update

  /** The hash at `k` has an `id` field whose text is `dataId`. */
  predicate HasId(db: Db, k: Key, dataId: string, dumps: Value -> string)
  {
    var f := HGet(db, k, "id");
    f.Some? && Raw(f.value, dumps) == dataId
  }

  /** The first key in `keys` whose record has id `dataId`. */
  function FindById(db: Db, keys: seq<Key>, dataId: string, dumps: Value -> string): (r: Option<Key>)
    ensures r.None? <==> forall k :: k in keys ==> !HasId(db, k, dataId, dumps)
    ensures r.Some? ==> r.value in keys && HasId(db, r.value, dataId, dumps)
  {
    if keys == [] then None
    else if HasId(db, keys[0], dataId, dumps) then Some(keys[0])
    else FindById(db, keys[1..], dataId, dumps)
  }

  /** The key found is the first match: no earlier key carries the id. */
  lemma {:induction false} FindByIdFirst(db: Db, keys: seq<Key>, dataId: string, dumps: Value -> string)
    requires FindById(db, keys, dataId, dumps).Some?
    ensures exists i :: 0 <= i < |keys| && keys[i] == FindById(db, keys, dataId, dumps).value
                        && forall j :: 0 <= j < i ==> !HasId(db, keys[j], dataId, dumps)
  {
    if HasId(db, keys[0], dataId, dumps) {
      assert keys[0] == FindById(db, keys, dataId, dumps).value;
    } else {
      FindByIdFirst(db, keys[1..], dataId, dumps);
      var i :| 0 <= i < |keys[1..]| && keys[1..][i] == FindById(db, keys[1..], dataId, dumps).value
               && forall j :: 0 <= j < i ==> !HasId(db, keys[1..][j], dataId, dumps);
      assert keys[i + 1] == FindById(db, keys, dataId, dumps).value;
      forall j | 0 <= j < i + 1 ensures !HasId(db, keys[j], dataId, dumps) {
        if j > 0 { assert keys[j] == keys[1..][j - 1]; }
      }
    }
  }

  /** One element of a `dict.update` argument that is not a mapping, as
      the key and value it contributes: a two-item list whose first item is
      a string, or a two-character string (its two characters). `None` for
      an element `dict.update` refuses, and for a pair whose key is not a
      string. */
  function PairOf(v: Value): Option<(string, Value)>
  {
    match v
    case List(items) => if |items| == 2 && items[0].Str? then Some((items[0].s, items[1])) else None
    case Str(s) => if |s| == 2 then Some(([s[0]], Str([s[1]]))) else None
    case _ => None
  }

  /** `m.update(items)` for a list of pairs: applied left to right, so a
      later pair for the same key wins. */
  function UpdatePairs(m: map<string, Value>, items: seq<Value>): (r: Option<map<string, Value>>)
    ensures r.Some? <==> forall i :: 0 <= i < |items| ==> PairOf(items[i]).Some?
    decreases |items|
  {
    if |items| == 0 then Some(m)
    else
      assert forall i :: 1 <= i < |items| ==> items[i] == items[1..][i - 1];
      var p :- PairOf(items[0]);
      UpdatePairs(m[p.0 := p.1], items[1..])
  }

  /** A key given by some pair ends up with the value of the last pair that
      gives it. */
  lemma {:induction false} UpdatePairsLastWins(m: map<string, Value>, items: seq<Value>, i: nat)
    requires UpdatePairs(m, items).Some?
    requires i < |items| && PairOf(items[i]).Some?
    requires forall j :: i < j < |items| && PairOf(items[j]).Some? ==> PairOf(items[j]).value.0 != PairOf(items[i]).value.0
    ensures PairOf(items[i]).value.0 in UpdatePairs(m, items).value
    ensures UpdatePairs(m, items).value[PairOf(items[i]).value.0] == PairOf(items[i]).value.1
    decreases |items|
  {
    var p := PairOf(items[0]).value;
    var m' := m[p.0 := p.1];
    assert UpdatePairs(m, items) == UpdatePairs(m', items[1..]);
    if i == 0 {
      UpdatePairsUntouched(m', items[1..], p.0);
    } else {
      assert items[i] == items[1..][i - 1];
      forall j | i - 1 < j < |items[1..]| && PairOf(items[1..][j]).Some?
        ensures PairOf(items[1..][j]).value.0 != PairOf(items[1..][i - 1]).value.0
      {
        assert items[1..][j] == items[j + 1];
      }
      UpdatePairsLastWins(m', items[1..], i - 1);
    }
  }

  /** A key no pair gives keeps its entry, or its absence. */
  lemma {:induction false} UpdatePairsUntouched(m: map<string, Value>, items: seq<Value>, k: string)
    requires UpdatePairs(m, items).Some?
    requires forall j :: 0 <= j < |items| && PairOf(items[j]).Some? ==> PairOf(items[j]).value.0 != k
    ensures k in UpdatePairs(m, items).value <==> k in m
    ensures k in m ==> UpdatePairs(m, items).value[k] == m[k]
    decreases |items|
  {
    if |items| > 0 {
      var p := PairOf(items[0]).value;
      assert UpdatePairs(m, items) == UpdatePairs(m[p.0 := p.1], items[1..]);
      forall j | 0 <= j < |items[1..]| && PairOf(items[1..][j]).Some? ensures PairOf(items[1..][j]).value.0 != k {
        assert items[1..][j] == items[j + 1];
      }
      UpdatePairsUntouched(m[p.0 := p.1], items[1..], k);
    }
  }

  /** `stored.update(upd)`: a mapping is laid over the stored content, keys
      of the update winning; a list is read as key/value pairs; the empty
      string is an empty iterable. Anything else raises. */
  function ContentUpdate(stored: map<string, Value>, upd: Value): (r: Option<map<string, Value>>)
    ensures upd.Dict? ==> r == Some(stored + upd.fields)
    ensures upd.List? ==> r == UpdatePairs(stored, upd.items)
    ensures r.Some? ==> upd.Dict? || upd.List? || upd == Str("")
  {
    match upd
    case Dict(f) => Some(stored + f)
    case List(items) => UpdatePairs(stored, items)
    case Str(s) => if s == "" then Some(stored) else None
    case _ => None
  }

  /** The stored content with `updates.get("content", {})` applied to it;
      `None` when the stored content is missing or is not a JSON object, or
      `dict.update` refuses the update. */
  function MergedContent(current: Hash, updates: map<string, Value>): (r: Option<map<string, Value>>)
    ensures r.Some? ==> "content" in current && current["content"].Encoded? && current["content"].v.Dict?
    ensures "content" in current && current["content"].Encoded? && current["content"].v.Dict? ==>
              r == ContentUpdate(current["content"].v.fields, GetOr(updates, "content", Dict(map[])))
  {
    if "content" !in current then None
    else
      var stored :- Loads(current["content"]);
      if stored.Dict? then ContentUpdate(stored.fields, GetOr(updates, "content", Dict(map[]))) else None
  }

  /** `updates.get("name", current["name"])` as it is sent: the default is
      read even when unused. */
  function NewName(current: Hash, updates: map<string, Value>, dumps: Value -> string): (r: Option<Field>)
    ensures r.Some? ==> "name" in current
    ensures "name" in current && "name" !in updates ==> r == Some(Text(Raw(current["name"], dumps)))
    ensures "name" in current && "name" in updates ==> r == Storable(updates["name"])
  {
    if "name" !in current then None
    else if "name" in updates then Storable(updates["name"])
    else Some(Text(Raw(current["name"], dumps)))
  }

  /** `updates.get("tags", json.loads(current["tags"]))`: the stored tags
      must parse even when unused. */
  function NewTags(current: Hash, updates: map<string, Value>): (r: Option<Value>)
    ensures r.Some? <==> "tags" in current && current["tags"].Encoded?
    ensures r.Some? ==> r.value == GetOr(updates, "tags", current["tags"].v)
  {
    if "tags" !in current then None
    else
      var stored :- Loads(current["tags"]);
      Some(GetOr(updates, "tags", stored))
  }

  /** The fields `update_campaign_data` writes over the record `current`,
      or `None` when the call ends in `False` before writing: an empty
      record, a missing field it reads, stored content that is not a JSON
      object, a content update `dict.update` refuses, a name redis-py
      refuses, or a version that is not an integer. */
  function UpdateFields(current: Hash, updates: map<string, Value>, now: string,
                        dumps: Value -> string): (r: Option<Hash>)
    ensures r.Some? ==> r.value.Keys == {"name", "content", "updated_at", "version", "tags"}
  {
    if current == map[] then None
    else
      var content :- MergedContent(current, updates);
      var name :- NewName(current, updates, dumps);
      var version :- if "version" in current then Bump(Raw(current["version"], dumps)) else None;
      var tags :- NewTags(current, updates);
      Some(Written(name, content, now, version, tags))
  }

  /** How a successful update is assembled from its parts. */
  lemma UpdateFieldsParts(current: Hash, updates: map<string, Value>, now: string, dumps: Value -> string)
    requires UpdateFields(current, updates, now, dumps).Some?
    ensures MergedContent(current, updates).Some? && NewName(current, updates, dumps).Some?
    ensures "version" in current && Bump(Raw(current["version"], dumps)).Some?
    ensures NewTags(current, updates).Some?
    ensures UpdateFields(current, updates, now, dumps).value
         == Written(NewName(current, updates, dumps).value, MergedContent(current, updates).value, now,
                    Bump(Raw(current["version"], dumps)).value, NewTags(current, updates).value)
  {
  }

  /** A successful update writes the stored content with the content update
      applied; a mapping update is laid over it, keys of the update winning. */
  lemma UpdateMergesContent(current: Hash, updates: map<string, Value>, now: string, dumps: Value -> string)
    requires UpdateFields(current, updates, now, dumps).Some?
    ensures "content" in current && current["content"].Encoded? && current["content"].v.Dict?
    ensures ContentUpdate(current["content"].v.fields, GetOr(updates, "content", Dict(map[]))).Some?
    ensures UpdateFields(current, updates, now, dumps).value["content"]
         == Encoded(Dict(ContentUpdate(current["content"].v.fields, GetOr(updates, "content", Dict(map[]))).value))
    ensures GetOr(updates, "content", Dict(map[])).Dict? ==>
              (UpdateFields(current, updates, now, dumps).value["content"]
               == Encoded(Dict(current["content"].v.fields + GetOr(updates, "content", Dict(map[])).fields)))
  {
    UpdateFieldsParts(current, updates, now, dumps);
  }

  /** A successful update writes the stored version plus one, and the
      written text parses back to it. */
  lemma UpdateBumpsVersion(current: Hash, updates: map<string, Value>, now: string, dumps: Value -> string)
    requires UpdateFields(current, updates, now, dumps).Some?
    ensures "version" in current && ParseInt(Raw(current["version"], dumps)).Some?
    ensures ParseInt(Raw(UpdateFields(current, updates, now, dumps).value["version"], dumps))
         == Some(ParseInt(Raw(current["version"], dumps)).value + 1)
  {
    UpdateFieldsParts(current, updates, now, dumps);
  }

  /** Name and tags change only when the update supplies them; otherwise the
      stored ones are written back. The time of the update is recorded. */
  lemma UpdateNameAndTags(current: Hash, updates: map<string, Value>, now: string, dumps: Value -> string)
    requires UpdateFields(current, updates, now, dumps).Some?
    ensures var w := UpdateFields(current, updates, now, dumps).value;
      && "name" in current && "tags" in current && current["tags"].Encoded?
      && (if "name" in updates then Storable(updates["name"]) == Some(w["name"])
          else w["name"] == Text(Raw(current["name"], dumps)))
      && w["tags"] == Encoded(GetOr(updates, "tags", current["tags"].v))
      && w["updated_at"] == Text(now)
  {
    UpdateFieldsParts(current, updates, now, dumps);
  }

  /** `int(version) + 1` as the text the store keeps; `None` when the
      stored version is not an integer. */
  function Bump(version: string): (r: Option<string>)
    ensures r.Some? <==> ParseInt(version).Some?
    ensures r.Some? ==> ParseInt(r.value) == Some(ParseInt(version).value + 1)
  {
    var v :- ParseInt(version);
    ParseIntRoundTrip(v + 1);
    Some(IntToString(v + 1))
  }

  /** The five-field mapping an update sends. */
  function Written(name: Field, content: map<string, Value>, now: string, version: string, tags: Value): (h: Hash)
    ensures h.Keys == {"name", "content", "updated_at", "version", "tags"}
    ensures h["name"] == name && h["content"] == Encoded(Dict(content)) && h["updated_at"] == Text(now)
    ensures h["version"] == Text(version) && h["tags"] == Encoded(tags)
  {
    map["name" := name, "content" := Encoded(Dict(content)), "updated_at" := Text(now),
        "version" := Text(version), "tags" := Encoded(tags)]
  }

  /** What a call reports and the store after it. */
  datatype Outcome = Outcome(done: bool, db: Db)

  /** `update_campaign_data`: find the record by id among the campaign's
      members, then overwrite five of its fields; `False` and no change when
      there is no such record or the update fails. */
  function UpdateCampaignData(db: Db, campaignId: string, dataId: string, updates: map<string, Value>,
                              keys: seq<Key>, now: string, dumps: Value -> string): (r: Outcome)
    requires Enumerates(keys, Members(db, CampaignIndex(campaignId)))
    ensures !r.done ==> r.db == db
    ensures (forall k :: k in Members(db, CampaignIndex(campaignId)) ==> !HasId(db, k, dataId, dumps)) ==> !r.done
    ensures r.done <==> var found := FindById(db, keys, dataId, dumps);
                        found.Some? && UpdateFields(HGetAll(db, found.value), updates, now, dumps).Some?
  {
    match FindById(db, keys, dataId, dumps)
    case None => Outcome(false, db)
    case Some(k) =>
      match UpdateFields(HGetAll(db, k), updates, now, dumps)
      case None => Outcome(false, db)
      case Some(fields) => Outcome(true, HSet(db, k, fields))
  }

  // ---------------------------------------------------------------------
  // Delete

  /** The record's `data_type` field as text, when it is present and
      truthy: the per-type index a delete leaves. */
  function TypeToUnindex(db: Db, key: Key, dumps: Value -> string): (r: Option<string>)
    ensures r.Some? <==> HGet(db, key, "data_type").Some? && Raw(HGet(db, key, "data_type").value, dumps) != ""
    ensures r.Some? ==> r.value == Raw(HGet(db, key, "data_type").value, dumps)
  {
    var t := HGet(db, key, "data_type");
    if t.Some? && Raw(t.value, dumps) != "" then Some(Raw(t.value, dumps)) else None
  }

  /** `name` is one of the indexes a delete of `key` leaves. */
  predicate LeftByDelete(db: Db, campaignId: string, key: Key, name: Key, dumps: Value -> string)
  {
    var t := TypeToUnindex(db, key, dumps);
    name == CampaignIndex(campaignId) || (t.Some? && name == CampaignTypeIndex(campaignId, t.value))
  }

  /** The store after each of the three commands `delete_campaign_data`
      sends once it has found `key`: leave the campaign index, leave the
      per-type index named by the record's `data_type` when that is truthy,
      drop the hash. */
  function DeleteSteps(db: Db, campaignId: string, key: Key, dumps: Value -> string): (r: seq<Db>)
    ensures |r| == 3
    ensures key !in Members(r[0], CampaignIndex(campaignId)) && r[0].hashes == db.hashes
    ensures HGetAll(r[2], key) == map[] && Members(r[2], key) == {}
    ensures key !in Members(r[2], CampaignIndex(campaignId))
    ensures var t := TypeToUnindex(db, key, dumps);
      t.Some? ==> key !in Members(r[2], CampaignTypeIndex(campaignId, t.value))
    ensures forall n :: n != key && !LeftByDelete(db, campaignId, key, n, dumps) ==> Members(r[2], n) == Members(db, n)
    ensures forall n, m :: n != key && m != key ==> (m in Members(r[2], n) <==> m in Members(db, n))
    ensures forall other :: other != key ==> HGetAll(r[2], other) == HGetAll(db, other)
  {
    var s1 := SRem(db, CampaignIndex(campaignId), key);
    var t := HGet(s1, key, "data_type");
    var s2 := if t.Some? && Raw(t.value, dumps) != "" then SRem(s1, CampaignTypeIndex(campaignId, Raw(t.value, dumps)), key) else s1;
    [s1, s2, Del(s2, key)]
  }

  /** `delete_campaign_data`: the first member of the campaign index whose
      id is `dataId` is unindexed and deleted; `False` and no change when
      there is none. */
  function DeleteCampaignData(db: Db, campaignId: string, dataId: string, keys: seq<Key>,
                              dumps: Value -> string): (r: Outcome)
    requires Enumerates(keys, Members(db, CampaignIndex(campaignId)))
    ensures !r.done ==> r.db == db
    ensures r.done <==> exists k :: k in Members(db, CampaignIndex(campaignId)) && HasId(db, k, dataId, dumps)
    ensures r.done ==> exists k ::
      && k in Members(db, CampaignIndex(campaignId)) && HasId(db, k, dataId, dumps)
      && HGetAll(r.db, k) == map[] && k !in Members(r.db, CampaignIndex(campaignId))
      && forall other :: other != k ==> HGetAll(r.db, other) == HGetAll(db, other)
    ensures r.done ==> var k := FindById(db, keys, dataId, dumps).value;
      && var t := TypeToUnindex(db, k, dumps);
      && (t.Some? ==> k !in Members(r.db, CampaignTypeIndex(campaignId, t.value)))
      && (forall n :: n != k && !LeftByDelete(db, campaignId, k, n, dumps) ==> Members(r.db, n) == Members(db, n))
      && (forall n, m :: n != k && m != k ==> (m in Members(r.db, n) <==> m in Members(db, n)))
  {
    match FindById(db, keys, dataId, dumps)
    case None => Outcome(false, db)
    case Some(k) => Outcome(true, DeleteSteps(db, campaignId, k, dumps)[2])
  }

  // ---------------------------------------------------------------------
  // The index invariant

  /** The campaign indexes list only records that exist, each under the
      indexes its key names, and every record's `data_type` field agrees
      with its key. */
  ghost predicate CampaignIndexed(db: Db)
  {
    && (forall c, k :: k in Members(db, CampaignIndex(c)) ==> k in db.hashes && k.CampaignKey? && k.campaignId == c)
    && (forall c, t, k :: k in Members(db, CampaignTypeIndex(c, t)) ==>
          k in db.hashes && k.CampaignKey? && k.campaignId == c && k.dataType == t)
    && (forall k :: k in db.hashes && k.CampaignKey? ==> HGet(db, k, "data_type") == Some(Text(k.dataType)))
  }

  /** Writing a hash keeps the invariant when a campaign record's
      `data_type` field is written as its key says, or left as it was. */
  lemma HSetKeepsIndexed(db: Db, key: Key, m: Hash)
    requires CampaignIndexed(db)
    requires key.CampaignKey? ==>
      if "data_type" in m then m["data_type"] == Text(key.dataType) else key in db.hashes
    ensures CampaignIndexed(HSet(db, key, m))
  {
    var r := HSet(db, key, m);
    forall k | k in r.hashes && k.CampaignKey?
      ensures HGet(r, k, "data_type") == Some(Text(k.dataType))
    {
      if k == key && "data_type" !in m {
        assert HGet(r, k, "data_type") == HGet(db, k, "data_type");
      }
    }
  }

  /** Adding a record to the index its key names keeps the invariant. */
  lemma SAddKeepsIndexed(db: Db, name: Key, member: Key)
    requires CampaignIndexed(db)
    requires member in db.hashes && member.CampaignKey?
    requires name == CampaignIndex(member.campaignId) || name == CampaignTypeIndex(member.campaignId, member.dataType)
    ensures CampaignIndexed(SAdd(db, name, member))
  {
    var r := SAdd(db, name, member);
    assert r.hashes == db.hashes;
    forall k | k in r.hashes && k.CampaignKey? ensures HGet(r, k, "data_type") == Some(Text(k.dataType)) {
      assert HGetAll(r, k) == HGetAll(db, k);
    }
    forall c, k | k in Members(r, CampaignIndex(c))
      ensures k in r.hashes && k.CampaignKey? && k.campaignId == c
    {
      if CampaignIndex(c) != name {
        assert k in Members(db, CampaignIndex(c));
      } else if k != member {
        assert k in Members(db, CampaignIndex(c));
      }
    }
    forall c, t, k | k in Members(r, CampaignTypeIndex(c, t))
      ensures k in r.hashes && k.CampaignKey? && k.campaignId == c && k.dataType == t
    {
      if CampaignTypeIndex(c, t) != name {
        assert k in Members(db, CampaignTypeIndex(c, t));
      } else if k != member {
        assert k in Members(db, CampaignTypeIndex(c, t));
      }
    }
  }

  /** Deleting a key no campaign index names keeps the invariant. */
  lemma DelKeepsIndexed(db: Db, key: Key)
    requires CampaignIndexed(db)
    requires forall c :: key !in Members(db, CampaignIndex(c))
    requires forall c, t :: key !in Members(db, CampaignTypeIndex(c, t))
    ensures CampaignIndexed(Del(db, key))
  {
    var r := Del(db, key);
    forall k | k in r.hashes && k.CampaignKey?
      ensures HGet(r, k, "data_type") == Some(Text(k.dataType))
    {
      assert HGetAll(r, k) == HGetAll(db, k);
    }
  }

  lemma StoreKeepsIndexed(db: Db, campaignId: string, dataType: string, dataId: string,
                          data: map<string, Value>, created: string, updated: string)
    requires CampaignIndexed(db)
    requires StoreCampaignData(db, campaignId, dataType, dataId, data, created, updated).Some?
    ensures CampaignIndexed(StoreCampaignData(db, campaignId, dataType, dataId, data, created, updated).value)
  {
    RecordFieldsContents(campaignId, dataType, dataId, data, created, updated);
    var fields := RecordFields(campaignId, dataType, dataId, data, created, updated).value;
    var key := RecordKey(campaignId, dataType, dataId);
    var db1 := HSet(db, key, fields);
    HSetKeepsIndexed(db, key, fields);
    var db2 := SAdd(db1, CampaignIndex(campaignId), key);
    SAddKeepsIndexed(db1, CampaignIndex(campaignId), key);
    SAddKeepsIndexed(db2, CampaignTypeIndex(campaignId, dataType), key);
  }

  /** A successful update writes the five update fields computed from the
      record with the id (the first such member in enumeration order) over
      that record, and nothing else. */
  lemma UpdateWritesOneRecord(db: Db, campaignId: string, dataId: string, updates: map<string, Value>,
                              keys: seq<Key>, now: string, dumps: Value -> string)
    returns (k: Key, w: Hash)
    requires Enumerates(keys, Members(db, CampaignIndex(campaignId)))
    ensures var r := UpdateCampaignData(db, campaignId, dataId, updates, keys, now, dumps);
      r.done ==>
        && k in Members(db, CampaignIndex(campaignId)) && HasId(db, k, dataId, dumps) && k in db.hashes
        && FindById(db, keys, dataId, dumps) == Some(k)
        && UpdateFields(HGetAll(db, k), updates, now, dumps) == Some(w)
        && w.Keys == {"name", "content", "updated_at", "version", "tags"}
        && r.db == HSet(db, k, w)
  {
    k, w := ChunkKey(""), map[];
    var found := FindById(db, keys, dataId, dumps);
    if found.Some? {
      k := found.value;
      assert HGet(db, k, "id").Some?;
      var u := UpdateFields(HGetAll(db, k), updates, now, dumps);
      if u.Some? {
        w := u.value;
      }
    }
  }

  /** `after` is `before` with an update applied: the version parsed one
      higher, the content with the content update applied, and the update
      time. */
  ghost predicate UpdatedFrom(before: Hash, after: Hash, updates: map<string, Value>, now: string, dumps: Value -> string)
  {
    && "version" in before && ParseInt(Raw(before["version"], dumps)).Some?
    && "version" in after && ParseInt(Raw(after["version"], dumps)) == Some(ParseInt(Raw(before["version"], dumps)).value + 1)
    && "content" in before && before["content"].Encoded? && before["content"].v.Dict?
    && ContentUpdate(before["content"].v.fields, GetOr(updates, "content", Dict(map[]))).Some?
    && "content" in after
    && after["content"] == Encoded(Dict(ContentUpdate(before["content"].v.fields, GetOr(updates, "content", Dict(map[]))).value))
    && "updated_at" in after && after["updated_at"] == Text(now)
  }

  /** After a successful update the record with the id holds the next
      version, the update time and the updated content; every other key is
      as it was. */
  lemma UpdateStoresRecord(db: Db, campaignId: string, dataId: string, updates: map<string, Value>,
                           keys: seq<Key>, now: string, dumps: Value -> string)
    requires Enumerates(keys, Members(db, CampaignIndex(campaignId)))
    ensures var r := UpdateCampaignData(db, campaignId, dataId, updates, keys, now, dumps);
      r.done ==>
        var k := FindById(db, keys, dataId, dumps).value;
        && k in Members(db, CampaignIndex(campaignId)) && HasId(db, k, dataId, dumps)
        && UpdatedFrom(HGetAll(db, k), HGetAll(r.db, k), updates, now, dumps)
        && forall other :: other != k ==> HGetAll(r.db, other) == HGetAll(db, other)
  {
    var k, w := UpdateWritesOneRecord(db, campaignId, dataId, updates, keys, now, dumps);
    var r := UpdateCampaignData(db, campaignId, dataId, updates, keys, now, dumps);
    if r.done {
      UpdatedHash(HGetAll(db, k), updates, now, dumps, w);
    }
  }

  /** The fields of a hash after the update fields `w` computed from it are
      written over it. */
  lemma UpdatedHash(before: Hash, updates: map<string, Value>, now: string, dumps: Value -> string, w: Hash)
    requires UpdateFields(before, updates, now, dumps) == Some(w)
    ensures UpdatedFrom(before, before + w, updates, now, dumps)
  {
    UpdateBumpsVersion(before, updates, now, dumps);
    UpdateMergesContent(before, updates, now, dumps);
    UpdateNameAndTags(before, updates, now, dumps);
  }

  lemma UpdateKeepsIndexed(db: Db, campaignId: string, dataId: string, updates: map<string, Value>,
                           keys: seq<Key>, now: string, dumps: Value -> string)
    requires CampaignIndexed(db)
    requires Enumerates(keys, Members(db, CampaignIndex(campaignId)))
    ensures CampaignIndexed(UpdateCampaignData(db, campaignId, dataId, updates, keys, now, dumps).db)
  {
    var k, w := UpdateWritesOneRecord(db, campaignId, dataId, updates, keys, now, dumps);
    if UpdateCampaignData(db, campaignId, dataId, updates, keys, now, dumps).done {
      NotAnUpdateField("data_type", w);
      HSetKeepsIndexed(db, k, w);
    }
  }

  lemma NotAnUpdateField(f: string, w: Hash)
    requires f == "id" || f == "campaign_id" || f == "data_type" || f == "created_at"
    requires w.Keys == {"name", "content", "updated_at", "version", "tags"}
    ensures f !in w
  {
  }

  /** An update never touches the record's identity: its id, campaign, type
      and creation time stay as they were, and so does every index. */
  lemma UpdateKeepsIdentity(db: Db, campaignId: string, dataId: string, updates: map<string, Value>,
                            keys: seq<Key>, now: string, dumps: Value -> string, k: Key, f: string)
    requires Enumerates(keys, Members(db, CampaignIndex(campaignId)))
    requires f == "id" || f == "campaign_id" || f == "data_type" || f == "created_at"
    ensures var r := UpdateCampaignData(db, campaignId, dataId, updates, keys, now, dumps).db;
      r.sets == db.sets && HGet(r, k, f) == HGet(db, k, f)
  {
    var target, w := UpdateWritesOneRecord(db, campaignId, dataId, updates, keys, now, dumps);
    if UpdateCampaignData(db, campaignId, dataId, updates, keys, now, dumps).done {
      NotAnUpdateField(f, w);
    }
  }

  /** Removing a member from a set never breaks the invariant. */
  lemma SRemKeepsIndexed(db: Db, name: Key, member: Key)
    requires CampaignIndexed(db)
    ensures CampaignIndexed(SRem(db, name, member))
  {
    var r := SRem(db, name, member);
    forall n ensures Members(r, n) <= Members(db, n) {
      if n == name {
        assert Members(r, n) == Members(db, n) - {member};
      }
    }
  }

  /** Taking a record out of both indexes its key names leaves no
      campaign index naming it. */
  lemma UnindexedEverywhere(db: Db, campaignId: string, k: Key)
    requires CampaignIndexed(db)
    requires k.CampaignKey? && k.campaignId == campaignId
    ensures var s := SRem(SRem(db, CampaignIndex(campaignId), k), CampaignTypeIndex(campaignId, k.dataType), k);
      && CampaignIndexed(s)
      && (forall c :: k !in Members(s, CampaignIndex(c)))
      && (forall c, t :: k !in Members(s, CampaignTypeIndex(c, t)))
  {
    var s1 := SRem(db, CampaignIndex(campaignId), k);
    var s := SRem(s1, CampaignTypeIndex(campaignId, k.dataType), k);
    SRemKeepsIndexed(db, CampaignIndex(campaignId), k);
    SRemKeepsIndexed(s1, CampaignTypeIndex(campaignId, k.dataType), k);
    forall c ensures k !in Members(s, CampaignIndex(c)) {
      if c != campaignId {
        assert Members(s, CampaignIndex(c)) == Members(db, CampaignIndex(c));
      }
    }
    forall c, t ensures k !in Members(s, CampaignTypeIndex(c, t)) {
      if (c, t) != (campaignId, k.dataType) {
        assert Members(s, CampaignTypeIndex(c, t)) == Members(db, CampaignTypeIndex(c, t));
      }
    }
  }

  /** The three delete commands keep the invariant for a record filed under
      a non-empty type. */
  lemma DeleteStepsKeepIndexed(db: Db, campaignId: string, k: Key, dumps: Value -> string)
    requires CampaignIndexed(db)
    requires k in Members(db, CampaignIndex(campaignId)) && k.CampaignKey? && k.dataType != ""
    ensures CampaignIndexed(DeleteSteps(db, campaignId, k, dumps)[2])
  {
    var s1 := SRem(db, CampaignIndex(campaignId), k);
    assert HGet(s1, k, "data_type") == Some(Text(k.dataType));
    var s2 := SRem(s1, CampaignTypeIndex(campaignId, k.dataType), k);
    assert DeleteSteps(db, campaignId, k, dumps)[2] == Del(s2, k);
    UnindexedEverywhere(db, campaignId, k);
    DelKeepsIndexed(s2, k);
  }

  /** With every record of the campaign filed under a non-empty type, a
      delete keeps the invariant. */
  lemma DeleteKeepsIndexed(db: Db, campaignId: string, dataId: string, keys: seq<Key>, dumps: Value -> string)
    requires CampaignIndexed(db)
    requires Enumerates(keys, Members(db, CampaignIndex(campaignId)))
    requires forall k :: k in Members(db, CampaignIndex(campaignId)) && k.CampaignKey? ==> k.dataType != ""
    ensures CampaignIndexed(DeleteCampaignData(db, campaignId, dataId, keys, dumps).db)
  {
    var found := FindById(db, keys, dataId, dumps);
    if found.Some? {
      DeleteStepsKeepIndexed(db, campaignId, found.value, dumps);
    }
  }

  /** Storing an empty record of the empty type into an empty store. */
  lemma EmptyTypeStored(dumps: Value -> string)
    ensures var stored := StoreCampaignData(Empty, "c", "", "i", map[], "t", "t");
      && stored.Some?
      && var key := RecordKey("c", "", "i");
      && Members(stored.value, CampaignIndex("c")) == {key}
      && Members(stored.value, CampaignTypeIndex("c", "")) == {key}
      && HasId(stored.value, key, "i", dumps)
      && HGet(stored.value, key, "data_type") == Some(Text(""))
  {
    var key := RecordKey("c", "", "i");
    StoredHash(Empty, "c", "", "i", map[], "t", "t");
    RecordFieldsContents("c", "", "i", map[], "t", "t");
    var h := RecordFields("c", "", "i", map[], "t", "t").value;
    var db := StoreCampaignData(Empty, "c", "", "i", map[], "t", "t").value;
    assert HGet(db, key, "id") == Some(h["id"]);
    assert HGet(db, key, "data_type") == Some(h["data_type"]);
  }

  /** A record stored with the empty type joins the index
      `campaign_type:{cid}:`, but deleting it skips that index because the
      empty type is falsy: the index is left naming a deleted record. */
  lemma EmptyTypeDeleteLeavesDangling(dumps: Value -> string)
    ensures var stored := StoreCampaignData(Empty, "c", "", "i", map[], "t", "t");
      && stored.Some?
      && var key := RecordKey("c", "", "i");
      && Enumerates([key], Members(stored.value, CampaignIndex("c")))
      && var r := DeleteCampaignData(stored.value, "c", "i", [key], dumps);
      && r.done
      && key in Members(r.db, CampaignTypeIndex("c", ""))
      && key !in r.db.hashes
      && !CampaignIndexed(r.db)
  {
    EmptyTypeStored(dumps);
    var key := RecordKey("c", "", "i");
    var db := StoreCampaignData(Empty, "c", "", "i", map[], "t", "t").value;
    assert FindById(db, [key], "i", dumps) == Some(key);
    var s1 := SRem(db, CampaignIndex("c"), key);
    assert HGet(s1, key, "data_type") == Some(Text(""));
    assert DeleteSteps(db, "c", key, dumps)[2] == Del(s1, key);
    assert Members(Del(s1, key), CampaignTypeIndex("c", "")) == {key};
  }

  /** Delete is three commands, not one: after the first, readers of the
      campaign no longer see the record while readers of its type still
      do. */
  lemma DeleteIsNotAtomic(db: Db, campaignId: string, k: Key, dumps: Value -> string)
    requires CampaignIndexed(db)
    requires k in Members(db, CampaignIndex(campaignId))
    ensures k.CampaignKey?
    ensures var s := DeleteSteps(db, campaignId, k, dumps)[0];
      && k !in CampaignKeys(s, campaignId, None)
      && k in s.hashes
      && (k in Members(db, CampaignTypeIndex(campaignId, k.dataType)) ==>
            k in CampaignKeys(s, campaignId, Some(k.dataType)) || k.dataType == "")
  {
  }

  /** A record just stored is listed by its campaign and by its type. */
  lemma StoreThenListed(db: Db, campaignId: string, dataType: string, dataId: string,
                        data: map<string, Value>, created: string, updated: string)
    requires StoreCampaignData(db, campaignId, dataType, dataId, data, created, updated).Some?
    ensures var s := StoreCampaignData(db, campaignId, dataType, dataId, data, created, updated).value;
      && RecordKey(campaignId, dataType, dataId) in CampaignKeys(s, campaignId, None)
      && RecordKey(campaignId, dataType, dataId) in CampaignKeys(s, campaignId, Some(dataType))
  {
  }

  /** Under a fresh key, the stored hash is exactly the record's fields. */
  lemma StoredHash(db: Db, campaignId: string, dataType: string, dataId: string,
                   data: map<string, Value>, created: string, updated: string)
    requires StoreCampaignData(db, campaignId, dataType, dataId, data, created, updated).Some?
    requires RecordKey(campaignId, dataType, dataId) !in db.hashes
    ensures HGetAll(StoreCampaignData(db, campaignId, dataType, dataId, data, created, updated).value, RecordKey(campaignId, dataType, dataId))
         == RecordFields(campaignId, dataType, dataId, data, created, updated).value
  {
  }

  /** A record just stored under a fresh key reads back with the content
      and tags it was given. */
  lemma StoreThenGet(db: Db, campaignId: string, dataType: string, dataId: string,
                     data: map<string, Value>, created: string, updated: string, dumps: Value -> string)
    requires StoreCampaignData(db, campaignId, dataType, dataId, data, created, updated).Some?
    requires RecordKey(campaignId, dataType, dataId) !in db.hashes
    ensures var s := StoreCampaignData(db, campaignId, dataType, dataId, data, created, updated).value;
      var rec := Record(HGetAll(s, RecordKey(campaignId, dataType, dataId)), dumps);
      rec.Some? && rec.value["content"] == Dict(data) && rec.value["tags"] == TagsOf(data)
  {
    StoredHash(db, campaignId, dataType, dataId, data, created, updated);
    RecordFieldsContents(campaignId, dataType, dataId, data, created, updated);
  }

  /** ... and with its identity and version 1. */
  lemma StoreThenGetIdentity(db: Db, campaignId: string, dataType: string, dataId: string,
                             data: map<string, Value>, created: string, updated: string, dumps: Value -> string)
    requires StoreCampaignData(db, campaignId, dataType, dataId, data, created, updated).Some?
    requires RecordKey(campaignId, dataType, dataId) !in db.hashes
    ensures var s := StoreCampaignData(db, campaignId, dataType, dataId, data, created, updated).value;
      var rec := Record(HGetAll(s, RecordKey(campaignId, dataType, dataId)), dumps);
      && rec.Some?
      && rec.value["id"] == Str(dataId) && rec.value["campaign_id"] == Str(campaignId)
      && rec.value["data_type"] == Str(dataType) && rec.value["version"] == Str("1")
  {
    StoredHash(db, campaignId, dataType, dataId, data, created, updated);
    RecordFieldsContents(campaignId, dataType, dataId, data, created, updated);
    var h := RecordFields(campaignId, dataType, dataId, data, created, updated).value;
    var rec := Record(h, dumps).value;
    assert rec["id"] == Str(Raw(h["id"], dumps));
    assert rec["campaign_id"] == Str(Raw(h["campaign_id"], dumps));
    assert rec["data_type"] == Str(Raw(h["data_type"], dumps));
    assert rec["version"] == Str(Raw(h["version"], dumps));
  }

  /** A record just stored under a fresh key comes back from
      `get_campaign_data` of its campaign and of its type, unless some
      listed record fails to read (then the answer is `[]`): the answer
      holds its record, with the id, content and tags it was given. */
  lemma StoreThenGetListed(db: Db, campaignId: string, dataType: string, dataId: string,
                           data: map<string, Value>, created: string, updated: string,
                           query: Option<string>, keys: seq<Key>, dumps: Value -> string)
    requires StoreCampaignData(db, campaignId, dataType, dataId, data, created, updated).Some?
    requires RecordKey(campaignId, dataType, dataId) !in db.hashes
    requires query == None || query == Some(dataType)
    requires Enumerates(keys, CampaignKeys(StoreCampaignData(db, campaignId, dataType, dataId, data, created, updated).value,
                                           campaignId, query))
    ensures var s := StoreCampaignData(db, campaignId, dataType, dataId, data, created, updated).value;
      var got := GetCampaignData(s, campaignId, query, keys, dumps);
      Readable(s, keys, dumps) ==>
        exists j :: 0 <= j < |got|
          && got[j] == Record(HGetAll(s, RecordKey(campaignId, dataType, dataId)), dumps).value
          && got[j]["id"] == Str(dataId) && got[j]["content"] == Dict(data) && got[j]["tags"] == TagsOf(data)
  {
    var s := StoreCampaignData(db, campaignId, dataType, dataId, data, created, updated).value;
    var key := RecordKey(campaignId, dataType, dataId);
    StoreThenListed(db, campaignId, dataType, dataId, data, created, updated);
    StoreThenGet(db, campaignId, dataType, dataId, data, created, updated, dumps);
    StoreThenGetIdentity(db, campaignId, dataType, dataId, data, created, updated, dumps);
    if Readable(s, keys, dumps) {
      assert key in keys;
      assert "content" in HGetAll(s, key);
      assert key in Present(s, keys);
      var j :| 0 <= j < |Present(s, keys)| && Present(s, keys)[j] == key;
      var got := GetCampaignData(s, campaignId, query, keys, dumps);
      assert Record(HGetAll(s, key), dumps) == Some(got[j]);
    }
  }
}
