/** The key-value store as the system uses it: hashes (field maps) and sets
    of keys, each under a key, with the handful of commands the store and
    retrieval layer issues. Every command is a pure transition. */
module RedisState {
  import opened Wrappers
  import opened Values
  import opened Strings

  /** The keys the system writes, by family. Each family is one f-string
      format; `Render` gives the string the store actually sees. */
  datatype Key =
    | ChunkKey(id: string)
    | RulebookIndex(rulebook: string)
    | SystemIndex(system: string)
    | ContentTypeIndex(contentType: string)
    | CampaignKey(campaignId: string, dataType: string, dataId: string)
    | CampaignIndex(campaignId: string)
    | CampaignTypeIndex(campaignId: string, dataType: string)

  function Render(k: Key): string
  {
    match k
    case ChunkKey(id) => "chunk:" + id
    case RulebookIndex(r) => "rulebook:" + r
    case SystemIndex(s) => "system:" + s
    case ContentTypeIndex(t) => "content_type:" + t
    case CampaignKey(c, t, i) => "campaign:" + c + ":" + t + ":" + i
    case CampaignIndex(c) => "campaign_index:" + c
    case CampaignTypeIndex(c, t) => "campaign_type:" + c + ":" + t
  }

  /** `SCAN MATCH chunk:*` selects exactly the chunk family. */
  lemma ChunkPatternMatchesChunkKeys(k: Key)
    ensures IsPrefix("chunk:", Render(k)) <==> k.ChunkKey?
  {
    var s := Render(k);
    match k {
      case ChunkKey(id) => assert s[..6] == "chunk:";
      case RulebookIndex(r) => assert s[0] == 'r' != "chunk:"[0];
      case SystemIndex(x) => assert s[0] == 's' != "chunk:"[0];
      case ContentTypeIndex(t) => assert s[1] == 'o' != "chunk:"[1];
      case CampaignKey(c, t, i) => assert s[1] == 'a' != "chunk:"[1];
      case CampaignIndex(c) => assert s[1] == 'a' != "chunk:"[1];
      case CampaignTypeIndex(c, t) => assert s[1] == 'a' != "chunk:"[1];
    }
  }

  lemma ChunkPatternMatchesOnlyChunkKeys()
    ensures forall k :: IsPrefix("chunk:", Render(k)) <==> k.ChunkKey?
  {
    forall k ensures IsPrefix("chunk:", Render(k)) <==> k.ChunkKey? {
      ChunkPatternMatchesChunkKeys(k);
    }
  }

  /** Within one family of the chunk side, rendering is injective, so the
      structured keys lose nothing there. */
  lemma ChunkSideRenderInjective(a: Key, b: Key)
    requires a.ChunkKey? || a.RulebookIndex? || a.SystemIndex? || a.ContentTypeIndex?
    requires b.ChunkKey? || b.RulebookIndex? || b.SystemIndex? || b.ContentTypeIndex?
    requires Render(a) == Render(b)
    ensures a == b
  {
    var s := Render(a);
    match a {
      case ChunkKey(x) =>
        ChunkPatternMatchesChunkKeys(a); ChunkPatternMatchesChunkKeys(b);
        assert IsPrefix("chunk:", s);
        assert x == s[6..];
      case RulebookIndex(x) =>
        assert s[0] == 'r';
        assert x == s[9..];
      case SystemIndex(x) =>
        assert s[0] == 's';
        assert x == s[7..];
      case ContentTypeIndex(x) =>
        assert s[0] == 'c' && s[1] == 'o';
        assert x == s[13..];
    }
  }

  /** Campaign keys join free-form ids with `:`, so two different campaign
      and type pairs can render to the same key string; the structured keys
      keep them apart. */
  lemma CampaignKeysCanCollide()
    ensures CampaignKey("a:b", "c", "i") != CampaignKey("a", "b:c", "i")
    ensures Render(CampaignKey("a:b", "c", "i")) == Render(CampaignKey("a", "b:c", "i"))
  {
  }

  /** A hash field. Plain strings are stored as `Text`; fields the system
      writes with `json.dumps` hold the encoded value itself, since encoding
      and decoding are taken to be inverse. */
  datatype Field = Text(s: string) | Encoded(v: Value)

  type Hash = map<string, Field>

  datatype Db = Db(hashes: map<Key, Hash>, sets: map<Key, set<Key>>)

  const Empty := Db(map[], map[])

  /** `HGETALL key`: `{}` when the key holds no hash. */
  function HGetAll(db: Db, key: Key): Hash
  {
    if key in db.hashes then db.hashes[key] else map[]
  }

  /** `HGET key field`. */
  function HGet(db: Db, key: Key, field: string): Option<Field>
  {
    var h := HGetAll(db, key);
    if field in h then Some(h[field]) else None
  }

  /** `SMEMBERS name`: the empty set when there is no such set. */
  function Members(db: Db, name: Key): set<Key>
  {
    if name in db.sets then db.sets[name] else {}
  }

  /** `keys` lists exactly the members of `s`, in the order Redis hands them
      out. */
  ghost predicate Enumerates(keys: seq<Key>, s: set<Key>)
  {
    forall k :: k in keys <==> k in s
  }

  /** `HSET key mapping`: the given fields overwrite, the others stay. */
  function HSet(db: Db, key: Key, mapping: Hash): (r: Db)
    ensures HGetAll(r, key) == HGetAll(db, key) + mapping
    ensures forall k :: k != key ==> HGetAll(r, k) == HGetAll(db, k)
    ensures r.sets == db.sets
    ensures r.hashes.Keys == db.hashes.Keys + {key}
  {
    db.(hashes := db.hashes[key := HGetAll(db, key) + mapping])
  }

  /** `SADD name member`. */
  function SAdd(db: Db, name: Key, member: Key): (r: Db)
    ensures Members(r, name) == Members(db, name) + {member}
    ensures forall n :: n != name ==> Members(r, n) == Members(db, n)
    ensures r.hashes == db.hashes
    ensures r.sets.Keys == db.sets.Keys + {name}
  {
    db.(sets := db.sets[name := Members(db, name) + {member}])
  }

  /** `SREM name member`; a set left empty disappears, as in the store. */
  function SRem(db: Db, name: Key, member: Key): (r: Db)
    ensures Members(r, name) == Members(db, name) - {member}
    ensures forall n :: n != name ==> Members(r, n) == Members(db, n)
    ensures r.hashes == db.hashes
  {
    var rest := Members(db, name) - {member};
    if rest == {} then db.(sets := db.sets - {name}) else db.(sets := db.sets[name := rest])
  }

  /** `DEL key`, whatever the key holds. */
  function Del(db: Db, key: Key): (r: Db)
    ensures HGetAll(r, key) == map[] && Members(r, key) == {}
    ensures forall k :: k != key ==> HGetAll(r, k) == HGetAll(db, k) && Members(r, k) == Members(db, k)
  {
    Db(db.hashes - {key}, db.sets - {key})
  }

  /** `SCAN MATCH chunk:*`: every chunk key present, whatever it holds. */
  function ScanChunks(db: Db): (r: set<Key>)
    ensures forall k :: k in r <==> (k in db.hashes || k in db.sets) && IsPrefix("chunk:", Render(k))
  {
    ChunkPatternMatchesOnlyChunkKeys();
    set k | k in db.hashes.Keys + db.sets.Keys && k.ChunkKey?
  }
}
