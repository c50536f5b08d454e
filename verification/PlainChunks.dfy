/** What the chunks of a text carry besides text, when there are no page bounds (pkg/rag/splitter.go). */
module PlainChunks {
  import opened Runes
  import opened Splitter
  import opened Chunker
  import opened Normalize
  import opened TextSplitter

  ghost predicate Unpaged(ps: seq<Piece>) {
    forall i :: 0 <= i < |ps| ==> ps[i].lo == 0 && ps[i].hi == 0
  }

  lemma {:induction false} BlocksUnpaged(st: Outline, raws: seq<string>)
    requires Unpaged(st.out)
    ensures Unpaged(ReadBlocks(st, raws).out)
    decreases |raws|
  {
    hide ReadBlock;
    if raws != [] {
      BlockUnpaged(st, raws[0]);
      BlocksUnpaged(ReadBlock(st, raws[0]), raws[1..]);
    }
  }

  lemma BlockUnpaged(st: Outline, raw: string)
    requires Unpaged(st.out)
    ensures Unpaged(ReadBlock(st, raw).out)
  {
    hide TrimSpace, Split, Join, UpdateStack, IsHeading, Hashes;
  }

  lemma {:induction false} PiecesUnpaged(blocks: seq<Piece>, size: int)
    requires Unpaged(blocks)
    ensures Unpaged(Pieces(blocks, size))
    decreases |blocks|
  {
    hide SplitOversized;
    if blocks != [] {
      PiecesUnpaged(blocks[..|blocks| - 1], size);
    }
  }

  lemma {:induction false} GroupUnpaged(gs: seq<seq<Piece>>, k: nat)
    requires Unpaged(Concat(gs)) && k < |gs|
    ensures Unpaged(gs[k])
    decreases |gs|
  {
    var front, last := gs[..|gs| - 1], gs[|gs| - 1];
    var all := Concat(front) + last;
    assert forall i :: 0 <= i < |Concat(front)| ==> Concat(front)[i] == all[i];
    assert forall i :: 0 <= i < |last| ==> last[i] == all[|Concat(front)| + i];
    if k < |front| {
      GroupUnpaged(front, k);
    }
  }

  /** Without page bounds, or in another format than PDF, no chunk has pages. */
  lemma NoPagesWithoutBounds(format: Format, text: string, opt: SplitOptions, bounds: seq<int>, k: nat)
    requires !format.Pdf? || |bounds| < 2
    requires k < |SplitText(format, text, opt, bounds)|
    ensures SplitText(format, text, opt, bounds)[k].pages == NoPages
  {
    hide *;
    var s, o := TrimSpace(text), Normalized(opt);
    var blocks := BlocksOf(format, s, bounds);
    var pieces := Pieces(blocks, o.chunkSize);
    var gs := Groups(pieces, o.chunkSize);
    SplitIsOverlapped(format, text, opt, bounds);
    ChunksAreGroups(format, text, opt, bounds);
    TextUnpaged(format, s, bounds);
    PiecesUnpaged(blocks, o.chunkSize);
    GroupingMeans(gs, pieces, o.chunkSize);
    GroupUnpaged(gs, k);
    assert ChunkOfGroup(SplitText(format, text, opt, bounds)[k], gs[k]);
    UnpagedChunk(SplitText(format, text, opt, bounds)[k], gs[k]);
  }

  lemma TextUnpaged(format: Format, s: string, bounds: seq<int>)
    requires !format.Pdf? || |bounds| < 2
    ensures Unpaged(BlocksOf(format, s, bounds))
  {
    hide ReadBlocks, SplitParagraphs;
    BlocksUnpaged(Outline([], []), Split(s, "\n\n"));
  }

  lemma UnpagedChunk(c: Chunk, g: seq<Piece>)
    requires ChunkOfGroup(c, g) && Unpaged(g)
    ensures c.pages == NoPages
  {
    RangeCovers(g);
    hide RangeOf, EndsWith, TrimSpace, GroupText, Join;
  }

  // ----- Paragraphs of plain text

  /** The paragraphs of a text; a blank one has none. */
  function Paragraphs(s: string): seq<string> {
    if Blank(s) then [] else SplitParagraphs(s)
  }

  lemma ParagraphsKept(s: string)
    ensures Paragraphs(s) == TrimmedNonBlank(Split(s, "\n\n"))
  {
    var raw := Split(s, "\n\n");
    var out := TrimmedNonBlank(raw);
    assert Blank("\n\n");
    SplitKeepsInk(s, "\n\n");
    InkTrimmedNonBlank(raw);
    InkBlank(s);
    NonBlankHaveInk(raw);
    hide Ink, Split, TrimmedNonBlank, Blank;
    assert out != [] ==> Untitled(out)[0].text == out[0];
    if out == [] {
      assert InkAll(out) == "";
    } else {
      assert InkAll(out) == Ink(out[0]) + InkAll(out[1..]);
    }
  }

  lemma SplitsAt(s: string, i: int)
    requires OccursAt(s, "\n\n", i) && forall j :: 0 <= j < i ==> !OccursAt(s, "\n\n", j)
    ensures i + 2 <= |s| && Split(s, "\n\n") == [s[..i]] + Split(s[i + 2..], "\n\n")
  {
    IndexIs(s, "\n\n", i);
    hide Index;
  }

  lemma KeptCons(part: string, rest: seq<string>)
    ensures TrimmedNonBlank([part] + rest) == (if Blank(part) then [] else [TrimSpace(part)]) + TrimmedNonBlank(rest)
  {
    TrimBlank(part);
    hide TrimSpace, Blank;
    assert ([part] + rest)[1..] == rest;
  }

  /** Up to the first blank line there is one paragraph, or none when it is blank; the rest is split likewise. */
  lemma ParagraphsBreak(s: string, i: int)
    requires OccursAt(s, "\n\n", i) && forall j :: 0 <= j < i ==> !OccursAt(s, "\n\n", j)
    ensures i + 2 <= |s|
    ensures Paragraphs(s) == (if Blank(s[..i]) then [] else [TrimSpace(s[..i])]) + Paragraphs(s[i + 2..])
  {
    SplitsAt(s, i);
    hide *;
    ParagraphsKept(s);
    ParagraphsKept(s[i + 2..]);
    KeptCons(s[..i], Split(s[i + 2..], "\n\n"));
  }

  /** A text without one is one paragraph, or none. */
  lemma OneParagraphOnly(s: string)
    requires !Contains(s, "\n\n")
    ensures Paragraphs(s) == if Blank(s) then [] else [TrimSpace(s)]
  {
    assert Split(s, "\n\n") == [s];
    hide *;
    ParagraphsKept(s);
    KeptCons(s, []);
    assert [s] + [] == [s];
    NothingKept();
    assert [TrimSpace(s)] + [] == [TrimSpace(s)];
  }

  lemma NothingKept()
    ensures TrimmedNonBlank([]) == []
  {
  }

  /** The chunks of plain text are made of these paragraphs, each a block without a heading path. */
  lemma PlainBlocks(s: string, bounds: seq<int>)
    requires !Blank(s)
    ensures var blocks := BlocksOf(Other, s, bounds);
            |blocks| == |Paragraphs(s)| && forall i :: 0 <= i < |blocks| ==> blocks[i] == Piece(Paragraphs(s)[i], [], 0, 0)
  {
    hide SplitParagraphs, Blank;
  }
}
