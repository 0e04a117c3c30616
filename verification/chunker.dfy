/** Chunking of sections (`PDFParser.create_chunks`,
    `_split_section_into_chunks`, `_determine_content_type`). */
module Chunker {
  import opened Wrappers
  import opened Strings
  import opened Seqs
  import opened Values
  import opened DataModels

  /** The default `max_chunk_size`, the only value `create_chunks` uses. */
  const MaxChunkSize: nat := 1500

  const ParagraphBreak: string := "\n\n"

  /** Total length of a group of paragraphs, separators not counted. */
  function SumLen(g: seq<string>): nat
  {
    if |g| == 0 then 0 else |g[0]| + SumLen(g[1..])
  }

  lemma {:induction false} SumLenAppend(a: seq<string>, b: seq<string>)
    ensures SumLen(a + b) == SumLen(a) + SumLen(b)
    decreases |a|
  {
    if |a| == 0 {
      assert a + b == b;
    } else {
      assert (a + b)[1..] == a[1..] + b;
      SumLenAppend(a[1..], b);
    }
  }

  /** Prepending a closed group to a packing keeps its three shape properties. */
  lemma ConsGroup(g: seq<string>, rest: seq<seq<string>>, max: nat)
    requires |g| > 0 && (|g| >= 2 ==> SumLen(g) <= max)
    requires |rest| > 0 ==> |rest[0]| > 0 && SumLen(g) + |rest[0][0]| > max
    requires forall k :: 0 <= k < |rest| ==> |rest[k]| > 0
    requires forall k :: 0 <= k < |rest| && |rest[k]| >= 2 ==> SumLen(rest[k]) <= max
    requires forall k :: 0 <= k < |rest| - 1 ==> SumLen(rest[k]) + |rest[k + 1][0]| > max
    ensures var r := [g] + rest;
            && (forall k :: 0 <= k < |r| ==> |r[k]| > 0)
            && (forall k :: 0 <= k < |r| && |r[k]| >= 2 ==> SumLen(r[k]) <= max)
            && (forall k :: 0 <= k < |r| - 1 ==> SumLen(r[k]) + |r[k + 1][0]| > max)
  {
    var r := [g] + rest;
    assert forall k :: 1 <= k < |r| ==> r[k] == rest[k - 1];
  }

  /** Extending the open group by one paragraph keeps the group's prefix. */
  lemma ExtendGroup(cur: seq<string>, p: string, more: seq<string>, r: seq<seq<string>>)
    requires |r| > 0 && |r[0]| >= |cur| + 1 && r[0][..|cur| + 1] == cur + [p]
    requires Flatten(r) == (cur + [p]) + more
    ensures r[0][..|cur|] == cur
    ensures Flatten(r) == cur + ([p] + more)
  {
    assert r[0][..|cur|] == (r[0][..|cur| + 1])[..|cur|];
    assert (cur + [p]) + more == cur + ([p] + more);
  }

  /** The source's greedy loop over paragraphs. `cur` is the piece being
      filled and `size` the sum of its paragraph lengths. A new piece starts
      when the next paragraph would push `size` over `max` and the current piece
      is not empty. The result lists the paragraph groups of the pieces. */
  function Pack(paras: seq<string>, max: nat, cur: seq<string>, size: nat): (r: seq<seq<string>>)
    requires size == SumLen(cur)
    requires |cur| >= 2 ==> size <= max
    ensures Flatten(r) == cur + paras
    ensures forall k :: 0 <= k < |r| ==> |r[k]| > 0
    ensures forall k :: 0 <= k < |r| && |r[k]| >= 2 ==> SumLen(r[k]) <= max
    ensures forall k :: 0 <= k < |r| - 1 ==> SumLen(r[k]) + |r[k + 1][0]| > max
    ensures |cur| > 0 ==> |r| > 0 && |r[0]| >= |cur| && r[0][..|cur|] == cur
    ensures |r| == 0 <==> |cur| == 0 && |paras| == 0
    decreases |paras|
  {
    if |paras| == 0 then
      if |cur| > 0 then assert cur[..|cur|] == cur; [cur] else []
    else
      var p := paras[0];
      if size + |p| > max && |cur| > 0 then
        var rest := Pack(paras[1..], max, [p], |p|);
        FlattenAppend([cur], rest);
        ConsGroup(cur, rest, max);
        assert paras == [p] + paras[1..];
        assert ([cur] + rest)[0][..|cur|] == cur;
        [cur] + rest
      else
        SumLenAppend(cur, [p]);
        var r := Pack(paras[1..], max, cur + [p], size + |p|);
        ExtendGroup(cur, p, paras[1..], r);
        assert paras == [p] + paras[1..];
        r
  }

  /** `'\n\n'.join` of every group. */
  function JoinGroups(groups: seq<seq<string>>): (r: seq<string>)
    ensures |r| == |groups|
  {
    seq(|groups|, k requires 0 <= k < |groups| => Join(ParagraphBreak, groups[k]))
  }

  /** Re-joining the pieces equals joining all their paragraphs. */
  lemma {:induction false} JoinGroupsFlatten(groups: seq<seq<string>>)
    requires forall k :: 0 <= k < |groups| ==> |groups[k]| > 0
    ensures Join(ParagraphBreak, JoinGroups(groups)) == Join(ParagraphBreak, Flatten(groups))
    decreases |groups|
  {
    if |groups| > 1 {
      var tail := groups[1..];
      JoinGroupsFlatten(tail);
      assert JoinGroups(groups)[1..] == JoinGroups(tail);
      assert Flatten(groups) == groups[0] + Flatten(tail);
      FlattenNonEmpty(tail);
      JoinAppend(ParagraphBreak, groups[0], Flatten(tail));
    } else if |groups| == 1 {
      assert Flatten(groups) == groups[0] + Flatten(groups[1..]);
      assert Flatten(groups) == groups[0];
    }
  }

  lemma FlattenNonEmpty(groups: seq<seq<string>>)
    requires |groups| > 0 && |groups[0]| > 0
    ensures |Flatten(groups)| > 0
  {
  }

  /** `_split_section_into_chunks(section)` on the section's content. */
  function SplitIntoPieces(content: string, max: nat): (r: seq<string>)
    ensures |r| >= 1
  {
    if |content| <= max then [content]
    else
      var groups := Pack(Split(content, ParagraphBreak), max, [], 0);
      JoinGroups(groups)
  }

  /** Splitting loses and invents nothing: re-joining the pieces with a blank
      line gives back the content. Short content is kept as one piece. */
  lemma SplitIntoPiecesRejoins(content: string, max: nat)
    ensures Join(ParagraphBreak, SplitIntoPieces(content, max)) == content
    ensures |content| <= max ==> SplitIntoPieces(content, max) == [content]
  {
    if |content| > max {
      var paras := Split(content, ParagraphBreak);
      var groups := Pack(paras, max, [], 0);
      JoinGroupsFlatten(groups);
      assert [] + paras == paras;
      JoinSplit(content, ParagraphBreak);
    }
  }

  /** The size bound the loop keeps: every piece made of two or more paragraphs
      has paragraph lengths summing to at most `max`; a piece is closed only
      when its successor's first paragraph would not have fit. */
  lemma SplitIntoPiecesBounds(content: string, max: nat)
    requires |content| > max
    ensures var groups := Pack(Split(content, ParagraphBreak), max, [], 0);
            && SplitIntoPieces(content, max) == JoinGroups(groups)
            && (forall k :: 0 <= k < |groups| ==> |groups[k]| > 0)
            && (forall k :: 0 <= k < |groups| && |groups[k]| >= 2 ==> SumLen(groups[k]) <= max)
            && (forall k :: 0 <= k < |groups| - 1 ==> SumLen(groups[k]) + |groups[k + 1][0]| > max)
  {
  }

  /** The size accounting leaves out the separators, so a piece can be longer
      than `max`: with `max` 2, "a\n\nb\n\nc" is cut into "a\n\nb" (4 characters)
      and "c". */
  lemma PieceCanExceedMax()
    ensures SplitIntoPieces("a\n\nb\n\nc", 2) == ["a\n\nb", "c"]
    ensures |SplitIntoPieces("a\n\nb\n\nc", 2)[0]| > 2
  {
    ExampleParagraphs();
    ExamplePacking();
    assert JoinGroups([["a", "b"], ["c"]]) == [Join(ParagraphBreak, ["a", "b"]), Join(ParagraphBreak, ["c"])];
    assert Join(ParagraphBreak, ["a", "b"]) == "a\n\nb";
  }

  lemma ExampleParagraphs()
    ensures Split("a\n\nb\n\nc", ParagraphBreak) == ["a", "b", "c"]
  {
    var s := "a\n\nb\n\nc";
    assert FindFrom(s, ParagraphBreak, 0) == Some(1) by {
      assert s[0..][..|ParagraphBreak|][0] == 'a';
      assert IsPrefix(ParagraphBreak, s[1..]);
    }
    var s2 := s[3..];
    assert s2 == "b\n\nc";
    assert FindFrom(s2, ParagraphBreak, 0) == Some(1) by {
      assert s2[0..][..|ParagraphBreak|][0] == 'b';
      assert IsPrefix(ParagraphBreak, s2[1..]);
    }
    var s3 := s2[3..];
    assert s3 == "c";
    assert FindFrom(s3, ParagraphBreak, 0) == None by {
      assert !IsPrefix(ParagraphBreak, s3[0..]);
      assert !IsPrefix(ParagraphBreak, s3[1..]);
    }
    assert Split(s3, ParagraphBreak) == ["c"];
    assert s2[..1] == "b";
    assert Split(s2, ParagraphBreak) == [s2[..1]] + Split(s3, ParagraphBreak);
    assert s[..1] == "a";
    assert Split(s, ParagraphBreak) == [s[..1]] + Split(s2, ParagraphBreak);
  }

  lemma ExamplePacking()
    ensures Pack(["a", "b", "c"], 2, [], 0) == [["a", "b"], ["c"]]
  {
    assert Pack([], 2, ["c"], 1) == [["c"]];
    assert Pack(["c"], 2, ["a", "b"], 2) == [["a", "b"]] + Pack([], 2, ["c"], 1) by {
      assert ["c"][1..] == [];
    }
    assert Pack(["b", "c"], 2, ["a"], 1) == Pack(["c"], 2, ["a"] + ["b"], 1 + 1) by {
      assert ["b", "c"][1..] == ["c"];
    }
    assert ["a"] + ["b"] == ["a", "b"];
    assert Pack(["a", "b", "c"], 2, [], 0) == Pack(["b", "c"], 2, [] + ["a"], 0 + 1) by {
      assert ["a", "b", "c"][1..] == ["b", "c"];
    }
    assert [] + ["a"] == ["a"];
  }

  datatype Category = Rule | Spell | Monster | Item

  /** The string stored in `content_type`. */
  function CategoryName(c: Category): string
  {
    match c
    case Rule => "rule"
    case Spell => "spell"
    case Monster => "monster"
    case Item => "item"
  }

  const SpellWords: seq<string> := ["spell", "magic", "cantrip"]
  const MonsterWords: seq<string> := ["monster", "creature", "bestiary"]
  const ItemWords: seq<string> := ["item", "equipment", "weapon", "armor"]
  const RuleWords: seq<string> := ["rule", "combat", "action", "mechanic"]

  /** `any(word in s for word in words)`. */
  predicate ContainsAny(s: string, words: seq<string>)
  {
    |words| > 0 && (Contains(s, words[0]) || ContainsAny(s, words[1..]))
  }

  /** `_determine_content_type(title)`: the first keyword family the lower-cased
      title mentions, in the order spell, monster, item; otherwise rule (the
      rule-keyword branch and the default give the same answer). */
  function DetermineContentType(title: string): (r: Category)
    ensures var t := Lower(title);
      && (r == Spell <==> ContainsAny(t, SpellWords))
      && (r == Monster <==> !ContainsAny(t, SpellWords) && ContainsAny(t, MonsterWords))
      && (r == Item <==> !ContainsAny(t, SpellWords) && !ContainsAny(t, MonsterWords) && ContainsAny(t, ItemWords))
      && (r == Rule <==> !ContainsAny(t, SpellWords) && !ContainsAny(t, MonsterWords) && !ContainsAny(t, ItemWords))
  {
    var t := Lower(title);
    if ContainsAny(t, SpellWords) then Spell
    else if ContainsAny(t, MonsterWords) then Monster
    else if ContainsAny(t, ItemWords) then Item
    else if ContainsAny(t, RuleWords) then Rule
    else Rule
  }

  /** `f"{rulebook_name}_{section.title}_{i}".replace(" ", "_")`. */
  function ChunkId(rulebook: string, title: string, i: nat): string
  {
    ReplaceChar(rulebook + "_" + title + "_" + NatToString(i), ' ', '_')
  }

  /** Pieces of one section get pairwise distinct ids. */
  lemma ChunkIdInjective(rulebook: string, title: string, i: nat, j: nat)
    requires ChunkId(rulebook, title, i) == ChunkId(rulebook, title, j)
    ensures i == j
  {
    var prefix := rulebook + "_" + title + "_";
    var di := NatToString(i);
    var dj := NatToString(j);
    ReplaceCharAppend(prefix, di, ' ', '_');
    ReplaceCharAppend(prefix, dj, ' ', '_');
    assert ReplaceChar(di, ' ', '_') == di;
    assert ReplaceChar(dj, ' ', '_') == dj;
    var rp := ReplaceChar(prefix, ' ', '_');
    assert (rp + di)[|rp|..] == di;
    assert (rp + dj)[|rp|..] == dj;
    NatToStringInjective(i, j);
  }

  function ChunkMetadata(s: Section, i: nat): map<string, Value>
  {
    map["section_level" := Int(s.level),
        "page_range" := Str(IntToString(s.pageStart) + "-" + IntToString(s.pageEnd)),
        "chunk_index" := Int(i)]
  }

  /** The chunks of one section, one per piece. */
  function SectionChunks(s: Section, rulebook: string, system: string): (r: seq<ContentChunk>)
    ensures |r| == |SplitIntoPieces(s.content, MaxChunkSize)|
  {
    var pieces := SplitIntoPieces(s.content, MaxChunkSize);
    seq(|pieces|, i requires 0 <= i < |pieces| =>
      ContentChunk(ChunkId(rulebook, s.title, i), rulebook, system,
                   CategoryName(DetermineContentType(s.title)), s.title, pieces[i],
                   s.pageStart, s.parents + [s.title], [], ChunkMetadata(s, i), None))
  }

  /** `create_chunks(sections, rulebook_name, system)`: chunks in section
      order, and within a section in piece order. */
  function CreateChunks(sections: seq<Section>, rulebook: string, system: string): seq<ContentChunk>
  {
    if |sections| == 0 then []
    else SectionChunks(sections[0], rulebook, system) + CreateChunks(sections[1..], rulebook, system)
  }

  /** Chunking distributes over concatenation of section lists. */
  lemma {:induction false} CreateChunksAppend(a: seq<Section>, b: seq<Section>, rulebook: string, system: string)
    ensures CreateChunks(a + b, rulebook, system) == CreateChunks(a, rulebook, system) + CreateChunks(b, rulebook, system)
    decreases |a|
  {
    if |a| == 0 {
      assert a + b == b;
    } else {
      assert (a + b)[1..] == a[1..] + b;
      CreateChunksAppend(a[1..], b, rulebook, system);
    }
  }

  function Contents(cs: seq<ContentChunk>): (r: seq<string>)
    ensures |r| == |cs|
  {
    seq(|cs|, i requires 0 <= i < |cs| => cs[i].content)
  }

  /** Every section yields at least one chunk; chunk `i` of a section has the
      deterministic id, the section's title, path (parents then title), start
      page and level, no embedding yet, `chunk_index` `i`, one of the four
      categories; and the chunk texts re-join into the section content. */
  lemma SectionChunksShape(s: Section, rulebook: string, system: string)
    ensures var r := SectionChunks(s, rulebook, system);
      && |r| >= 1
      && Join(ParagraphBreak, Contents(r)) == s.content
      && forall i :: 0 <= i < |r| ==>
           && r[i].id == ReplaceChar(rulebook + "_" + s.title + "_" + NatToString(i), ' ', '_')
           && r[i].rulebook == rulebook && r[i].system == system
           && r[i].title == s.title
           && r[i].sectionPath == s.parents + [s.title]
           && r[i].pageNumber == s.pageStart
           && r[i].embedding == []
           && r[i].metadata["chunk_index"] == Int(i)
           && r[i].metadata["section_level"] == Int(s.level)
           && r[i].contentType in ["rule", "spell", "monster", "item"]
           && r[i].tables == None
  {
    SplitIntoPiecesRejoins(s.content, MaxChunkSize);
    var r := SectionChunks(s, rulebook, system);
    assert Contents(r) == SplitIntoPieces(s.content, MaxChunkSize);
  }

  /** Chunks of one section never share an id. */
  lemma SectionChunkIdsDistinct(s: Section, rulebook: string, system: string, i: nat, j: nat)
    requires i < j < |SectionChunks(s, rulebook, system)|
    ensures SectionChunks(s, rulebook, system)[i].id != SectionChunks(s, rulebook, system)[j].id
  {
    if ChunkId(rulebook, s.title, i) == ChunkId(rulebook, s.title, j) {
      ChunkIdInjective(rulebook, s.title, i, j);
    }
  }
}
