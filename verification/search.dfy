/** The two search paths over stored chunks: semantic search (similarity
    against each stored embedding, threshold, rank, truncate) and keyword
    search (substring scoring over title and content, rank). Both read every
    candidate key's `data` field and answer `[]` when anything raises. */
module Search {
  import opened Wrappers
  import opened Values
  import opened Strings
  import opened Seqs
  import opened DataModels
  import opened RedisState
  import opened ChunkCodec
  import opened Vectors
  import opened Ranking
  import ChunkStore

  /** What one candidate key contributes to a search: nothing, an entry, or
      an exception that aborts the whole search. */
  datatype Step<T> = Skip | Keep(entry: T) | Raise

  /** `json.loads(hget(key, "data"))` behind `if chunk_data:`. A missing or
      empty field is skipped; a plain string that is not a JSON document
      raises. `None` means skip. */
  function LoadData(db: Db, k: Key): Step<Value>
  {
    match HGet(db, k, "data")
    case None => Skip
    case Some(Text(s)) => if s == "" then Skip else Raise
    case Some(Encoded(v)) => Keep(v)
  }

  // ---------------------------------------------------------------------
  // vector_search
  // ---------------------------------------------------------------------

  /** A stored value as Python arithmetic sees it: `bool` and `int` are numbers too. */
  function AsNumber(v: Value): Option<real>
  {
    match v
    case Bool(b) => Some(if b then 1.0 else 0.0)
    case Int(i) => Some(i as real)
    case Float(r) => Some(r)
    case _ => None
  }

  /** The stored list as numbers, when every item is one. */
  function Numbers(items: seq<Value>): (r: Option<seq<real>>)
    ensures r.Some? <==> forall i :: 0 <= i < |items| ==> AsNumber(items[i]).Some?
    ensures r.Some? ==> |r.value| == |items| && forall i :: 0 <= i < |items| ==> AsNumber(items[i]) == Some(r.value[i])
  {
    if |items| == 0 then Some([])
    else match (AsNumber(items[0]), Numbers(items[1..]))
      case (Some(x), Some(xs)) =>
        assert forall i :: 1 <= i < |items| ==> items[i] == items[1..][i - 1];
        Some([x] + xs)
      case (None, _) => None
      case (_, None) =>
        assert forall i :: 1 <= i < |items| ==> items[i] == items[1..][i - 1];
        None
  }

  /** `_cosine_similarity(query, stored)` on whatever the stored `embedding`
      holds. `len` of a number raises outside the inner `try` (unless the
      empty query short-circuits first); arithmetic on a non-number raises
      inside it and yields 0. `None` stands for the escaping exception. */
  function StoredSimilarity(query: Vector, stored: Value, cosine: (Vector, Vector) -> real): (r: Option<real>)
    ensures r.None? <==> |query| > 0 && Truthy(stored) && (stored.Bool? || stored.Int? || stored.Float?)
    ensures stored.List? && Numbers(stored.items).Some? ==> r == Some(Cosine(query, Numbers(stored.items).value, cosine))
  {
    if |query| == 0 || !Truthy(stored) then Some(0.0)
    else match stored
      case List(items) =>
        if |query| != |items| then Some(0.0)
        else if Numbers(items).Some? then Some(Cosine(query, Numbers(items).value, cosine))
        else Some(0.0)
      case Str(s) => Some(0.0)
      case Dict(f) => Some(0.0)
      case IntDict(e) => Some(0.0)
      case _ => None
  }

  /** One key of the semantic loop: load, read `embedding` (default `[]`),
      skip a falsy one, keep the document when its similarity reaches the
      threshold. */
  function VectorStep(db: Db, k: Key, query: Vector, threshold: real, cosine: (Vector, Vector) -> real)
    : (r: Step<Scored<map<string, Value>>>)
    ensures r.Keep? ==> r.entry.score >= threshold
    ensures r.Keep? ==> LoadData(db, k) == Keep(Dict(r.entry.item))
  {
    match LoadData(db, k)
    case Skip => Skip
    case Raise => Raise
    case Keep(v) =>
      if !v.Dict? then Raise
      else
        var embedding := GetOr(v.fields, "embedding", List([]));
        if !Truthy(embedding) then Skip
        else match StoredSimilarity(query, embedding, cosine)
          case None => Raise
          case Some(sim) => if sim >= threshold then Keep(Scored(v.fields, sim)) else Skip
  }

  /** The `similarities` list, in key order; `None` when some key raises. */
  function Candidates(db: Db, keys: seq<Key>, query: Vector, threshold: real, cosine: (Vector, Vector) -> real)
    : (r: Option<seq<Scored<map<string, Value>>>>)
    ensures r.None? <==> exists i :: 0 <= i < |keys| && VectorStep(db, keys[i], query, threshold, cosine).Raise?
    ensures r.Some? ==> |r.value| <= |keys|
    ensures r.Some? ==> forall x :: x in r.value ==> x.score >= threshold
    decreases |keys|
  {
    if |keys| == 0 then Some([])
    else
      var rest := Candidates(db, keys[1..], query, threshold, cosine);
      assert forall i :: 1 <= i < |keys| ==> keys[i] == keys[1..][i - 1];
      match VectorStep(db, keys[0], query, threshold, cosine)
      case Raise => None
      case Skip => rest
      case Keep(x) => if rest.None? then None else Some([x] + rest.value)
  }

  /** Every candidate is some key's kept entry, and every kept entry is a candidate. */
  lemma {:induction false} CandidatesSpec(db: Db, keys: seq<Key>, query: Vector, threshold: real,
                                         cosine: (Vector, Vector) -> real)
    requires Candidates(db, keys, query, threshold, cosine).Some?
    ensures var cs := Candidates(db, keys, query, threshold, cosine).value;
            && (forall x :: x in cs ==> exists i :: 0 <= i < |keys| && VectorStep(db, keys[i], query, threshold, cosine) == Keep(x))
            && (forall i :: 0 <= i < |keys| && VectorStep(db, keys[i], query, threshold, cosine).Keep? ==>
                  VectorStep(db, keys[i], query, threshold, cosine).entry in cs)
    decreases |keys|
  {
    if |keys| > 0 {
      CandidatesSpec(db, keys[1..], query, threshold, cosine);
      assert forall i :: 1 <= i < |keys| ==> keys[i] == keys[1..][i - 1];
      var cs := Candidates(db, keys, query, threshold, cosine).value;
      forall x | x in cs
        ensures exists i :: 0 <= i < |keys| && VectorStep(db, keys[i], query, threshold, cosine) == Keep(x)
      {
        if VectorStep(db, keys[0], query, threshold, cosine) != Keep(x) {
          assert x in Candidates(db, keys[1..], query, threshold, cosine).value;
          var j :| 0 <= j < |keys[1..]| && VectorStep(db, keys[1..][j], query, threshold, cosine) == Keep(x);
          assert keys[1..][j] == keys[j + 1];
        }
      }
    }
  }

  /** `_dict_to_content_chunk` on each kept document, tagged "semantic";
      `None` when one raises. */
  function SemanticResults(top: seq<Scored<map<string, Value>>>): (r: Option<seq<SearchResult>>)
    ensures r.Some? ==> |r.value| == |top|
    ensures r.Some? ==> forall i :: 0 <= i < |top| ==>
              r.value[i].score == top[i].score && r.value[i].matchType == Semantic
              && Success(r.value[i].chunk) == ChunkFromDict(top[i].item)
    ensures r.None? <==> exists i :: 0 <= i < |top| && ChunkFromDict(top[i].item).Failure?
  {
    if |top| == 0 then Some([])
    else
      var rest := SemanticResults(top[1..]);
      assert forall i :: 1 <= i < |top| ==> top[i] == top[1..][i - 1];
      match ChunkFromDict(top[0].item)
      case Failure(_) => None
      case Success(c) =>
        if rest.None? then None
        else Some([SearchResult(c, top[0].score, Semantic)] + rest.value)
  }

  /** The ranked list cut to a Python slice `[:n]`. */
  function Best<T>(cs: seq<Scored<T>>, n: int): (r: seq<Scored<T>>)
    ensures |r| == SliceBound(|cs|, n)
    ensures forall i :: 0 <= i < |r| ==> r[i] in cs
    ensures forall i, j :: 0 <= i < j < |r| ==> r[i].score >= r[j].score
  {
    SortDescMembers(cs);
    Take(SortDesc(cs), n)
  }

  /** `vector_search` over the candidate keys in the order the filter step
      lists them: gather, sort by similarity (stable, highest first),
      truncate to `max_results` (a Python slice), decode. Documents outside
      the cut are never decoded. */
  function VectorSearch(db: Db, filters: seq<(string, string)>, keys: seq<Key>, query: Vector, maxResults: int,
                        threshold: real, cosine: (Vector, Vector) -> real): (r: seq<SearchResult>)
    requires Enumerates(keys, ChunkStore.FilteredChunks(db, filters))
    ensures forall i :: 0 <= i < |r| ==> r[i].matchType == Semantic && r[i].score >= threshold
    ensures forall i, j :: 0 <= i < j < |r| ==> r[i].score >= r[j].score
    ensures 0 <= maxResults ==> |r| <= maxResults
    ensures Candidates(db, keys, query, threshold, cosine).None? ==> r == []
  {
    match Candidates(db, keys, query, threshold, cosine)
    case None => []
    case Some(cs) =>
      var top := Best(cs, maxResults);
      match SemanticResults(top)
      case None => []
      case Some(rs) => rs
  }

  /** `x` is reported among `r`, with its similarity, or scores no higher
      than every result. */
  predicate ReportedOrBelow(x: Scored<map<string, Value>>, r: seq<SearchResult>)
  {
    (exists k :: 0 <= k < |r| && ChunkFromDict(x.item) == Success(r[k].chunk) && r[k].score == x.score)
    || forall k :: 0 <= k < |r| ==> x.score <= r[k].score
  }

  /** A candidate that did not make the cut scores no higher than any result. */
  lemma VectorSearchIsTop(db: Db, filters: seq<(string, string)>, keys: seq<Key>, query: Vector, maxResults: int,
                          threshold: real, cosine: (Vector, Vector) -> real, i: nat)
    requires Enumerates(keys, ChunkStore.FilteredChunks(db, filters))
    requires i < |keys| && VectorStep(db, keys[i], query, threshold, cosine).Keep?
    ensures ReportedOrBelow(VectorStep(db, keys[i], query, threshold, cosine).entry,
                            VectorSearch(db, filters, keys, query, maxResults, threshold, cosine))
  {
    var x := VectorStep(db, keys[i], query, threshold, cosine).entry;
    var r := VectorSearch(db, filters, keys, query, maxResults, threshold, cosine);
    var cands := Candidates(db, keys, query, threshold, cosine);
    VectorSearchSpec(db, filters, keys, query, maxResults, threshold, cosine);
    if cands.Some? {
      CandidatesSpec(db, keys, query, threshold, cosine);
      assert x in cands.value;
      CutReportedOrBelow(cands.value, r, maxResults, x);
    }
  }

  /** Against any reading of the search that reports a top cut, a candidate
      is reported or scores no higher than every result. */
  lemma CutReportedOrBelow(cs: seq<Scored<map<string, Value>>>, r: seq<SearchResult>, n: int,
                           x: Scored<map<string, Value>>)
    requires x in cs
    requires exists top :: IsTopCut(cs, top, n) && (if Undecodable(top) then r == [] else Reports(r, top))
    ensures ReportedOrBelow(x, r)
  {
    var top :| IsTopCut(cs, top, n) && (if Undecodable(top) then r == [] else Reports(r, top));
    if !Undecodable(top) {
      InCutOrBelow(cs, top, n, x);
      if x in top {
        var k :| 0 <= k < |top| && top[k] == x;
        assert ChunkFromDict(x.item) == Success(r[k].chunk) && r[k].score == x.score;
      }
    }
  }

  /** `r` reports the ranked cut `top`: one chunk per entry, in order, with
      its similarity. */
  predicate Reports(r: seq<SearchResult>, top: seq<Scored<map<string, Value>>>)
  {
    && |r| == |top|
    && forall k :: 0 <= k < |r| ==>
         r[k].score == top[k].score && r[k].matchType == Semantic && ChunkFromDict(top[k].item) == Success(r[k].chunk)
  }

  /** Some document of the cut lacks a field `_dict_to_content_chunk` reads. */
  predicate Undecodable(top: seq<Scored<map<string, Value>>>)
  {
    exists k :: 0 <= k < |top| && ChunkFromDict(top[k].item).Failure?
  }

  /** `vector_search` answers `[]` when some key raises; otherwise it
      reports the best `max_results` candidates (a Python slice bound),
      highest first, unless one of those lacks a chunk field, in which case
      it answers `[]`. */
  lemma VectorSearchSpec(db: Db, filters: seq<(string, string)>, keys: seq<Key>, query: Vector, maxResults: int,
                         threshold: real, cosine: (Vector, Vector) -> real)
    requires Enumerates(keys, ChunkStore.FilteredChunks(db, filters))
    ensures var r := VectorSearch(db, filters, keys, query, maxResults, threshold, cosine);
            var cands := Candidates(db, keys, query, threshold, cosine);
            && (cands.None? ==> r == [])
            && (cands.Some? ==> exists top :: IsTopCut(cands.value, top, maxResults)
                                  && (if Undecodable(top) then r == [] else Reports(r, top)))
  {
    var cands := Candidates(db, keys, query, threshold, cosine);
    if cands.Some? {
      var cs := cands.value;
      var r := VectorSearch(db, filters, keys, query, maxResults, threshold, cosine);
      var top := Best(cs, maxResults);
      SortDescCut(cs, maxResults);
      assert top == Take(SortDesc(cs), maxResults);
      if !Undecodable(top) {
        assert r == SemanticResults(top).value;
      }
      assert IsTopCut(cs, top, maxResults) && (if Undecodable(top) then r == [] else Reports(r, top));
    }
  }

  /** The entry key `k` keeps reads back as `res`. */
  predicate KeptAs(db: Db, k: Key, query: Vector, threshold: real, cosine: (Vector, Vector) -> real,
                   res: SearchResult)
  {
    var step := VectorStep(db, k, query, threshold, cosine);
    step.Keep? && step.entry.score == res.score && ChunkFromDict(step.entry.item) == Success(res.chunk)
  }

  /** Every result is the document and similarity of some kept key. */
  lemma VectorSearchSources(db: Db, filters: seq<(string, string)>, keys: seq<Key>, query: Vector, maxResults: int,
                            threshold: real, cosine: (Vector, Vector) -> real)
    requires Enumerates(keys, ChunkStore.FilteredChunks(db, filters))
    ensures var r := VectorSearch(db, filters, keys, query, maxResults, threshold, cosine);
            forall k :: 0 <= k < |r| ==> exists i :: 0 <= i < |keys| && KeptAs(db, keys[i], query, threshold, cosine, r[k])
  {
    var r := VectorSearch(db, filters, keys, query, maxResults, threshold, cosine);
    var cands := Candidates(db, keys, query, threshold, cosine);
    if cands.Some? {
      CandidatesSpec(db, keys, query, threshold, cosine);
      var top := Best(cands.value, maxResults);
      forall k | 0 <= k < |r|
        ensures exists i :: 0 <= i < |keys| && KeptAs(db, keys[i], query, threshold, cosine, r[k])
      {
        assert r == SemanticResults(top).value;
        assert top[k] in cands.value;
        var i :| 0 <= i < |keys| && VectorStep(db, keys[i], query, threshold, cosine) == Keep(top[k]);
        assert KeptAs(db, keys[i], query, threshold, cosine, r[k]);
      }
    }
  }

  /** The threshold is inclusive: a document scoring exactly the threshold is kept. */
  lemma ThresholdInclusive(db: Db, k: Key, query: Vector, cosine: (Vector, Vector) -> real,
                           d: map<string, Value>, embedding: seq<real>)
    requires HGet(db, k, "data") == Some(Encoded(Dict(d)))
    requires "embedding" in d && d["embedding"] == RealList(embedding)
    requires |query| == |embedding| > 0
    ensures var sim := Cosine(query, embedding, cosine);
            VectorStep(db, k, query, sim, cosine) == Keep(Scored(d, sim))
  {
    var items := RealList(embedding).items;
    assert |items| == |embedding| && items[0] == Float(embedding[0]);
    assert Numbers(items).value == embedding;
  }

  // ---------------------------------------------------------------------
  // keyword_search
  // ---------------------------------------------------------------------

  /** 1.0 for a title hit plus 0.5 for a content hit, case-insensitively. */
  function KeywordScore(title: string, content: string, query: string): (r: real)
    ensures r in {0.0, 0.5, 1.0, 1.5}
    ensures r >= 1.0 <==> Contains(Lower(title), Lower(query))
    ensures r in {0.5, 1.5} <==> Contains(Lower(content), Lower(query))
  {
    (if Contains(Lower(title), Lower(query)) then 1.0 else 0.0)
    + (if Contains(Lower(content), Lower(query)) then 0.5 else 0.0)
  }

  lemma ContainsEmpty(s: string)
    ensures Contains(s, "")
  {
    assert IsPrefix("", s);
  }

  /** The empty query is a substring of everything, so it scores every chunk 1.5. */
  lemma EmptyQueryScoresAll(title: string, content: string)
    ensures KeywordScore(title, content, "") == 1.5
  {
    ContainsEmpty(Lower(title));
    ContainsEmpty(Lower(content));
  }

  /** One key of the keyword loop. `title` and `content` default to `""`
      and must be strings (`.lower()` raises otherwise); a scoring document
      is decoded on the spot, so a malformed one raises. */
  function KeywordStep(db: Db, k: Key, query: string): (r: Step<Scored<LoadedChunk>>)
    ensures r.Keep? ==> r.entry.score in {0.5, 1.0, 1.5}
  {
    match LoadData(db, k)
    case Skip => Skip
    case Raise => Raise
    case Keep(v) =>
      if !v.Dict? then Raise
      else
        var title := GetOr(v.fields, "title", Str(""));
        var content := GetOr(v.fields, "content", Str(""));
        if !title.Str? || !content.Str? then Raise
        else
          var score := KeywordScore(title.s, content.s, query);
          if score > 0.0 then
            match ChunkFromDict(v.fields)
            case Failure(_) => Raise
            case Success(c) => Keep(Scored(c, score))
          else Skip
  }

  /** The matches in key order; `None` when some key raises. */
  function KeywordMatches(db: Db, keys: seq<Key>, query: string): (r: Option<seq<Scored<LoadedChunk>>>)
    ensures r.None? <==> exists i :: 0 <= i < |keys| && KeywordStep(db, keys[i], query).Raise?
    ensures r.Some? ==> forall x :: x in r.value ==> x.score in {0.5, 1.0, 1.5}
    decreases |keys|
  {
    if |keys| == 0 then Some([])
    else
      var rest := KeywordMatches(db, keys[1..], query);
      assert forall i :: 1 <= i < |keys| ==> keys[i] == keys[1..][i - 1];
      match KeywordStep(db, keys[0], query)
      case Raise => None
      case Skip => rest
      case Keep(x) => if rest.None? then None else Some([x] + rest.value)
  }

  /** Every key whose document scores is among the matches. */
  lemma {:induction false} KeywordMatchesComplete(db: Db, keys: seq<Key>, query: string, i: nat)
    requires i < |keys| && KeywordStep(db, keys[i], query).Keep?
    requires KeywordMatches(db, keys, query).Some?
    ensures KeywordStep(db, keys[i], query).entry in KeywordMatches(db, keys, query).value
    decreases |keys|
  {
    var rest := KeywordMatches(db, keys[1..], query);
    var step := KeywordStep(db, keys[0], query);
    assert step.Raise? || rest.None? ==> KeywordMatches(db, keys, query).None?;
    var all := KeywordMatches(db, keys, query).value;
    assert all == (if step.Keep? then [step.entry] else []) + rest.value;
    if i > 0 {
      assert keys[i] == keys[1..][i - 1];
      KeywordMatchesComplete(db, keys[1..], query, i - 1);
    }
  }

  function Tagged(s: seq<Scored<LoadedChunk>>): (r: seq<SearchResult>)
    ensures |r| == |s|
    ensures forall i :: 0 <= i < |s| ==> r[i] == SearchResult(s[i].item, s[i].score, Keyword)
  {
    seq(|s|, i requires 0 <= i < |s| => SearchResult(s[i].item, s[i].score, Keyword))
  }

  /** `keyword_search`: all matches, highest score first (stable), tagged
      "keyword"; no truncation here. */
  function KeywordSearch(db: Db, filters: seq<(string, string)>, keys: seq<Key>, query: string): (r: seq<SearchResult>)
    requires Enumerates(keys, ChunkStore.FilteredChunks(db, filters))
    ensures forall i :: 0 <= i < |r| ==> r[i].matchType == Keyword && r[i].score in {0.5, 1.0, 1.5}
    ensures forall i, j :: 0 <= i < j < |r| ==> r[i].score >= r[j].score
    ensures KeywordMatches(db, keys, query).Some? ==> |r| == |KeywordMatches(db, keys, query).value|
    ensures KeywordMatches(db, keys, query).None? ==> r == []
  {
    match KeywordMatches(db, keys, query)
    case None => []
    case Some(ms) => Ranked(ms)
  }

  /** The matches, highest score first (stable), tagged "keyword". */
  function Ranked(ms: seq<Scored<LoadedChunk>>): (r: seq<SearchResult>)
    requires forall x :: x in ms ==> x.score in {0.5, 1.0, 1.5}
    ensures |r| == |ms|
    ensures forall i :: 0 <= i < |r| ==> r[i].matchType == Keyword && r[i].score in {0.5, 1.0, 1.5}
    ensures forall i, j :: 0 <= i < j < |r| ==> r[i].score >= r[j].score
  {
    var sorted := SortDesc(ms);
    SortDescMembers(ms);
    assert forall i :: 0 <= i < |sorted| ==> sorted[i].score in {0.5, 1.0, 1.5} by {
      forall i | 0 <= i < |sorted| ensures sorted[i].score in {0.5, 1.0, 1.5} {
        assert sorted[i] in ms;
      }
    }
    Tagged(sorted)
  }

  /** Keyword results are exactly the matches, each once: a key whose
      document scores appears with its chunk and score. */
  lemma KeywordSearchFinds(db: Db, filters: seq<(string, string)>, keys: seq<Key>, query: string, i: nat)
    requires Enumerates(keys, ChunkStore.FilteredChunks(db, filters))
    requires i < |keys| && KeywordStep(db, keys[i], query).Keep?
    requires forall j :: 0 <= j < |keys| ==> !KeywordStep(db, keys[j], query).Raise?
    ensures var x := KeywordStep(db, keys[i], query).entry;
            SearchResult(x.item, x.score, Keyword) in KeywordSearch(db, filters, keys, query)
  {
    var x := KeywordStep(db, keys[i], query).entry;
    var ms := KeywordMatches(db, keys, query).value;
    KeywordMatchesComplete(db, keys, query, i);
    var sorted := SortDesc(ms);
    assert x in multiset(sorted);
    var p :| 0 <= p < |sorted| && sorted[p] == x;
    assert KeywordSearch(db, filters, keys, query)[p] == SearchResult(x.item, x.score, Keyword);
  }
}
