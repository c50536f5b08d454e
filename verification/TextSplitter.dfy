/** SplitTextWithPDFPageBounds of pkg/rag/splitter.go, end to end: blocks, pieces, merge, overlap. */
module TextSplitter {
  import opened Runes
  import opened Splitter
  import opened Chunker
  import opened Normalize
  import opened PdfPages

  // ----- Markdown blocks

  function Hashes(s: string): (n: nat)
    ensures n <= |s|
  {
    if s != "" && s[0] == '#' then 1 + Hashes(s[1..]) else 0
  }

  /** One to six '#' and then white space; the line is trimmed, so a title follows. */
  predicate IsHeading(line: string) {
    var h := Hashes(line);
    1 <= h <= 6 && h < |line| && (IsPlainSpace(line[h]) || line[h] == '\U{0C}')
  }

  /** A heading keeps the first `level - 1` entries of the stack, whatever their levels, and goes on top. */
  function UpdateStack(stack: seq<string>, level: int, title: string): (r: seq<string>)
    ensures 1 <= |r| && (1 <= level ==> |r| <= level) && r[|r| - 1] == title && r[..|r| - 1] <= stack
    ensures |r| == if level <= |stack| then (if level < 1 then 1 else level) else |stack| + 1
  {
    hide *;
    var l := if level < 1 then 1 else level;
    (if |stack| >= l then stack[..l - 1] else stack) + [title]
  }

  datatype Outline = Outline(out: seq<Piece>, stack: seq<string>)

  function ReadBlock(st: Outline, raw: string): Outline {
    var block := TrimSpace(raw);
    if block == "" then st
    else
      var lines := Split(block, "\n");
      var first := TrimSpace(lines[0]);
      if IsHeading(first) then
        var stack := UpdateStack(st.stack, Hashes(first), TrimSpace(first[Hashes(first)..]));
        var rest := if |lines| == 1 then "" else TrimSpace(Join(lines[1..], "\n"));
        Outline(if rest == "" then st.out else st.out + [Piece(rest, stack, 0, 0)], stack)
      else
        Outline(st.out + [Piece(block, st.stack, 0, 0)], st.stack)
  }

  function ReadBlocks(st: Outline, raws: seq<string>): Outline
    decreases |raws|
  {
    if raws == [] then st else ReadBlocks(ReadBlock(st, raws[0]), raws[1..])
  }

  function MarkdownBlocks(s: string): seq<Piece> {
    ReadBlocks(Outline([], []), Split(s, "\n\n")).out
  }

  method ComputeMarkdownBlocks(s: string) returns (out: seq<Piece>)
    ensures out == MarkdownBlocks(s)
  {
    var raws := Split(s, "\n\n");
    hide ReadBlock;
    var st := Outline([], []);
    for i := 0 to |raws|
      invariant ReadBlocks(st, raws[i..]) == ReadBlocks(Outline([], []), raws)
    {
      st := ReadBlock(st, raws[i]);
      assert raws[i..][1..] == raws[i + 1..];
    }
    out := st.out;
  }

  /** Blocks have text, and at most six headings are open at any block. */
  ghost predicate OutlineOk(st: Outline) {
    |st.stack| <= 6 && forall b :: b in st.out ==> Ink(b.text) != "" && |b.path| <= 6
  }

  lemma ReadBlockOk(st: Outline, raw: string)
    requires OutlineOk(st)
    ensures OutlineOk(ReadBlock(st, raw))
  {
    hide TrimSpace, Trimmed, Split, Join, Ink, Hashes, IsPlainSpace, OutlineOk, UpdateStack;
    var block := TrimSpace(raw);
    TrimmedHasInk(block);
    if block != "" {
      var lines := Split(block, "\n");
      var first := TrimSpace(lines[0]);
      if IsHeading(first) {
        var stack := UpdateStack(st.stack, Hashes(first), TrimSpace(first[Hashes(first)..]));
        var rest := if |lines| == 1 then "" else TrimSpace(Join(lines[1..], "\n"));
        TrimmedHasInk(TrimSpace(Join(lines[1..], "\n")));
        AddBlockOk(st, rest, stack);
      } else {
        AddBlockOk(st, block, st.stack);
      }
    }
  }

  lemma AddBlockOk(st: Outline, text: string, stack: seq<string>)
    requires OutlineOk(st) && (text == "" || Ink(text) != "") && (|stack| <= 6 || stack == st.stack)
    ensures text != "" ==> OutlineOk(Outline(st.out + [Piece(text, stack, 0, 0)], stack))
    ensures OutlineOk(Outline(st.out, stack))
  {
    hide Ink;
  }

  lemma TrimmedHasInk(s: string)
    requires Trimmed(s)
    ensures s != "" ==> Ink(s) != ""
  {
    InkBlank(s);
  }

  lemma {:induction false} ReadBlocksOk(st: Outline, raws: seq<string>)
    requires OutlineOk(st)
    ensures OutlineOk(ReadBlocks(st, raws))
    decreases |raws|
  {
    hide ReadBlock, OutlineOk;
    if raws != [] {
      ReadBlockOk(st, raws[0]);
      ReadBlocksOk(ReadBlock(st, raws[0]), raws[1..]);
    }
  }

  // ----- Plain blocks

  function SplitParagraphs(s: string): seq<string> {
    var out := TrimmedNonBlank(Split(s, "\n\n"));
    if out == [] then [s] else out
  }

  function Untitled(texts: seq<string>): seq<Piece> {
    seq(|texts|, i requires 0 <= i < |texts| => Piece(texts[i], [], 0, 0))
  }

  datatype Format = Pdf | Markdown | Other

  function BlocksOf(format: Format, s: string, bounds: seq<int>): seq<Piece> {
    if |bounds| >= 2 && format.Pdf? then Labelled(SpansAt(TrimSpace(s), 0), bounds)
    else if format.Markdown? then MarkdownBlocks(s)
    else Untitled(SplitParagraphs(s))
  }

  // ----- Pieces and chunks

  function PartsOf(b: Piece, size: int): seq<Piece> {
    var parts := SplitOversized(b.text, size);
    seq(|parts|, i requires 0 <= i < |parts| => b.(text := parts[i]))
  }

  function Pieces(blocks: seq<Piece>, size: int): seq<Piece> {
    if blocks == [] then [] else Pieces(blocks[..|blocks| - 1], size) + PartsOf(blocks[|blocks| - 1], size)
  }

  lemma PiecesSnoc(blocks: seq<Piece>, i: nat, size: int)
    requires i < |blocks|
    ensures Pieces(blocks[..i + 1], size) == Pieces(blocks[..i], size) + PartsOf(blocks[i], size)
  {
    hide PartsOf;
    assert blocks[..i + 1][..i] == blocks[..i];
  }

  /** The chunks before overlap. */
  function BaseChunks(blocks: seq<Piece>, size: int): seq<Chunk> {
    Number(Merge(Pieces(blocks, size), size))
  }

  function ChunkBlocks(blocks: seq<Piece>, o: SplitOptions): seq<Chunk> {
    WithOverlap(BaseChunks(blocks, o.chunkSize), o.chunkSize, o.chunkOverlap)
  }

  function SplitText(format: Format, text: string, opt: SplitOptions, bounds: seq<int>): seq<Chunk> {
    var s := TrimSpace(text);
    if s == "" then [] else ChunkBlocks(BlocksOf(format, s, bounds), Normalized(opt))
  }

  method ComputePieces(blocks: seq<Piece>, size: int) returns (pieces: seq<Piece>)
    ensures pieces == Pieces(blocks, size)
  {
    pieces := [];
    hide Pieces, SplitOversized;
    assert Pieces(blocks[..0], size) == [] by { NoPieces(size); }
    for i := 0 to |blocks|
      invariant pieces == Pieces(blocks[..i], size)
    {
      PiecesSnoc(blocks, i, size);
      var parts := ComputeParts(blocks[i].text, size);
      var labelled := [];
      for j := 0 to |parts|
        invariant labelled == PartsOf(blocks[i], size)[..j]
      {
        labelled := labelled + [blocks[i].(text := parts[j])];
      }
      assert labelled == PartsOf(blocks[i], size);
      pieces := pieces + labelled;
    }
    assert blocks[..|blocks|] == blocks;
  }

  lemma NoPieces(size: int)
    ensures Pieces([], size) == []
  {
  }

  method ComputeSplitText(format: Format, text: string, opt: SplitOptions, bounds: seq<int>)
    returns (out: seq<Chunk>)
    ensures out == SplitText(format, text, opt, bounds)
  {
    var o := Normalized(opt);
    var s := TrimSpace(text);
    if s == "" {
      return [];
    }
    hide TrimSpace, SpansAt, Labelled, MarkdownBlocks, Merge, SplitParagraphs, Untitled, Pieces;
    BlocksHaveInk(format, s, bounds);
    var blocks;
    if |bounds| >= 2 && format.Pdf? {
      var spans := ComputeSpans(s);
      blocks := Labelled(spans, bounds);
    } else if format.Markdown? {
      blocks := ComputeMarkdownBlocks(s);
    } else {
      blocks := Untitled(SplitParagraphs(s));
    }
    var pieces := ComputePieces(blocks, o.chunkSize);
    assert forall p :: p in Pieces(blocks, o.chunkSize) ==> p.text != "" by {
      hide Pieces, Ink;
      PiecesOk(blocks, o.chunkSize);
      InkBlank("");
    }
    var merged := ComputeMerge(pieces, o.chunkSize);
    out := ComputeChunks(merged);
    out := ComputeOverlap(out, o.chunkSize, o.chunkOverlap);
  }

  // ----- Ink and size of pieces

  ghost predicate HaveInk(blocks: seq<Piece>) {
    forall b :: b in blocks ==> Ink(b.text) != ""
  }

  lemma PartsOk(b: Piece, size: int)
    requires 1 <= size && Ink(b.text) != ""
    ensures Fit(PartsOf(b, size), size) && HaveInk(PartsOf(b, size)) && InkAll(Texts(PartsOf(b, size))) == Ink(b.text)
  {
    InkBlank("");
    hide SplitOversized, Ink, InkAll;
    SplitOversizedKeepsInk(b.text, size);
    assert Texts(PartsOf(b, size)) == SplitOversized(b.text, size);
  }

  lemma {:induction false} PiecesOk(blocks: seq<Piece>, size: int)
    requires 1 <= size && HaveInk(blocks)
    ensures Fit(Pieces(blocks, size), size) && HaveInk(Pieces(blocks, size))
    ensures InkAll(Texts(Pieces(blocks, size))) == InkAll(Texts(blocks))
  {
    hide PartsOf, Texts, Ink, InkAll;
    if blocks == [] {
      NoTexts();
    } else {
      var front, b := blocks[..|blocks| - 1], blocks[|blocks| - 1];
      assert Ink(b.text) != "" by { assert b in blocks; }
      PiecesOk(front, size);
      PartsOk(b, size);
      TextsAppend(Pieces(front, size), PartsOf(b, size));
      InkAllAppend(Texts(Pieces(front, size)), Texts(PartsOf(b, size)));
      assert blocks == front + [b];
      TextsAppend(front, [b]);
      InkAllAppend(Texts(front), Texts([b]));
      OneText(b);
    }
  }

  lemma OneText(b: Piece)
    ensures InkAll(Texts([b])) == Ink(b.text)
  {
    assert Texts([b]) == [b.text];
    InkOne(b.text);
  }

  // ----- Ink of blocks

  lemma {:induction false} LabelledKeepsInk(spans: seq<Span>, bounds: seq<int>)
    requires forall sp :: sp in spans ==> Ink(sp.text) != ""
    ensures HaveInk(Labelled(spans, bounds))
    ensures InkAll(Texts(Labelled(spans, bounds))) == InkSpans(spans)
  {
    hide PagesForSpan, Ink;
    if spans == [] {
      NoTexts();
      NoInk();
    } else {
      LabelledKeepsInk(spans[1..], bounds);
      var (lo, hi) := PagesForSpan(bounds, spans[0]);
      var b := Piece(spans[0].text, [], lo, hi);
      hide InkAll, Texts;
      TextsAppend([b], Labelled(spans[1..], bounds));
      InkAllAppend(Texts([b]), Texts(Labelled(spans[1..], bounds)));
      OneText(b);
      assert spans[0] in spans;
    }
  }

  ghost function InkSpans(spans: seq<Span>): string {
    if spans == [] then "" else Ink(spans[0].text) + InkSpans(spans[1..])
  }

  lemma {:induction false} InkSpansAppend(a: seq<Span>, b: seq<Span>)
    ensures InkSpans(a + b) == InkSpans(a) + InkSpans(b)
  {
    hide Ink;
    if a == [] {
      assert a + b == b;
    } else {
      InkSpansAppend(a[1..], b);
      assert (a + b)[1..] == a[1..] + b;
      Assoc(Ink(a[0].text), InkSpans(a[1..]), InkSpans(b));
    }
  }

  lemma SpanKeepsInk(para: string, base: int)
    ensures InkSpans(SpanOf(para, base)) == Ink(para)
    ensures forall sp :: sp in SpanOf(para, base) ==> Ink(sp.text) != ""
  {
    InkBlank(para);
    InkDropLeft(para);
    InkDropRight(DropLeft(para));
    hide Ink, Blank;
    if !Blank(para) {
      assert InkSpans(SpanOf(para, base)) == Ink(SpanOf(para, base)[0].text) + InkSpans(SpanOf(para, base)[1..]);
    }
  }

  lemma {:induction false} SpansKeepInk(s: string, base: int)
    ensures InkSpans(SpansAt(s, base)) == Ink(s)
    ensures forall sp :: sp in SpansAt(s, base) ==> Ink(sp.text) != ""
    decreases |s|
  {
    hide SpanOf, InkSpans, Ink;
    var i := Index(s, "\n\n");
    if i < 0 {
      SpanKeepsInk(s, base);
    } else {
      SpanKeepsInk(s[..i], base);
      SpansKeepInk(s[i + 2..], base + i + 2);
      InkSpansAppend(SpanOf(s[..i], base), SpansAt(s[i + 2..], base + i + 2));
      assert Ink(s) == Ink(s[..i]) + Ink(s[i + 2..]) by {
        InkBlank("\n\n");
        assert s == s[..i] + "\n\n" + s[i + 2..];
        InkAppend(s[..i] + "\n\n", s[i + 2..]);
        InkAppend(s[..i], "\n\n");
        assert Blank("\n\n");
        hide Ink, OccursAt;
      }
    }
  }

  lemma KeptHasInk(part: string)
    ensures HaveInk(Untitled(Kept(part)))
  {
    TrimmedHasInk(TrimSpace(part));
    hide Ink, TrimSpace;
  }

  lemma UntitledAppend(a: seq<string>, b: seq<string>)
    ensures Untitled(a + b) == Untitled(a) + Untitled(b) && HaveInk([])
    ensures HaveInk(Untitled(a)) && HaveInk(Untitled(b)) ==> HaveInk(Untitled(a + b))
  {
    hide Ink;
    assert Untitled(a + b) == Untitled(a) + Untitled(b);
  }

  lemma {:induction false} NonBlankHaveInk(raw: seq<string>)
    ensures HaveInk(Untitled(TrimmedNonBlank(raw)))
  {
    hide Ink, TrimSpace, HaveInk, Kept;
    if raw != [] {
      NonBlankHaveInk(raw[1..]);
      KeptHasInk(raw[0]);
      UntitledAppend(Kept(raw[0]), TrimmedNonBlank(raw[1..]));
    } else {
      UntitledAppend([], []);
      assert Untitled([]) == [];
    }
  }

  lemma BlocksHaveInk(format: Format, s: string, bounds: seq<int>)
    requires s != "" && Trimmed(s)
    ensures HaveInk(BlocksOf(format, s, bounds))
    ensures !format.Markdown? ==> InkAll(Texts(BlocksOf(format, s, bounds))) == Ink(s)
  {
    TrimmedHasInk(s);
    TrimOfTrimmed(s);
    hide Trimmed, TrimSpace, Ink, InkAll, Texts, SpansAt, Labelled, SplitParagraphs, Untitled, ReadBlocks;
    if |bounds| >= 2 && format.Pdf? {
      SpansKeepInk(s, 0);
      LabelledKeepsInk(SpansAt(s, 0), bounds);
    } else if format.Markdown? {
      ReadBlocksOk(Outline([], []), Split(s, "\n\n"));
    } else {
      assert InkAll(SplitParagraphs(s)) == Ink(s) && HaveInk(Untitled(SplitParagraphs(s))) by {
        var raw := Split(s, "\n\n");
        assert Blank("\n\n");
        hide Ink, Split, TrimmedNonBlank, Blank, InkAll;
        SplitKeepsInk(s, "\n\n");
        InkTrimmedNonBlank(raw);
        NoInk();
        NonBlankHaveInk(raw);
      }
      assert Texts(Untitled(SplitParagraphs(s))) == SplitParagraphs(s);
    }
  }

  // ----- Main results

  function ChunkTexts(chunks: seq<Chunk>): seq<string> {
    seq(|chunks|, i requires 0 <= i < |chunks| => chunks[i].text)
  }

  lemma BaseChunksOk(blocks: seq<Piece>, size: int)
    requires 1 <= size && HaveInk(blocks)
    ensures var texts := ChunkTexts(BaseChunks(blocks, size));
            InkAll(texts) == InkAll(Texts(blocks)) && Written(texts) && AtMost(texts, size)
  {
    hide Pieces, Merge, InkAll, Written, AtMost;
    var pieces := Pieces(blocks, size);
    PiecesOk(blocks, size);
    MergeKeepsInk(pieces, size);
    assert ChunkTexts(BaseChunks(blocks, size)) == Texts(Merge(pieces, size));
  }

  /** Splitting loses and reorders nothing: without overlap, the runes of the chunks that are not white
      space are those of the input, in order. */
  lemma ChunksKeepInk(format: Format, text: string, opt: SplitOptions, bounds: seq<int>)
    requires !format.Markdown? && Normalized(opt).chunkOverlap == 0
    ensures InkAll(ChunkTexts(SplitText(format, text, opt, bounds))) == Ink(text)
  {
    var s, o := TrimSpace(text), Normalized(opt);
    InkTrim(text);
    NoInk();
    InkBlank("");
    hide BlocksOf, TrimSpace, BaseChunks, InkAll, Ink, Texts;
    assert ChunkTexts([]) == [];
    if s != "" {
      BlocksHaveInk(format, s, bounds);
      BaseChunksOk(BlocksOf(format, s, bounds), o.chunkSize);
      assert ChunkTexts(ChunkBlocks(BlocksOf(format, s, bounds), o)) ==
             ChunkTexts(BaseChunks(BlocksOf(format, s, bounds), o.chunkSize));
    }
  }

  /** The chunks of a Markdown text carry the ink of its block bodies; heading lines become paths. */
  lemma MarkdownKeepsInk(text: string, opt: SplitOptions, bounds: seq<int>)
    requires Normalized(opt).chunkOverlap == 0
    ensures InkAll(ChunkTexts(SplitText(Markdown, text, opt, bounds)))
         == InkAll(Texts(MarkdownBlocks(TrimSpace(text))))
  {
    var s, o := TrimSpace(text), Normalized(opt);
    hide TrimSpace, BaseChunks, MarkdownBlocks, InkAll, Ink, Texts;
    if s == "" {
      NoMarkdown();
    } else {
      TrimSpaceTrimmed(text);
      BlocksHaveInk(Markdown, s, bounds);
      BaseChunksOk(MarkdownBlocks(s), o.chunkSize);
      assert ChunkTexts(ChunkBlocks(MarkdownBlocks(s), o)) == ChunkTexts(BaseChunks(MarkdownBlocks(s), o.chunkSize));
    }
  }

  lemma TrimSpaceTrimmed(s: string)
    ensures Trimmed(TrimSpace(s))
  {
  }

  lemma NoMarkdown()
    ensures InkAll(ChunkTexts([])) == InkAll(Texts(MarkdownBlocks("")))
  {
    TrimOfTrimmed("");
    hide TrimSpace;
    assert Split("", "\n\n") == [""];
    assert ReadBlocks(Outline([], []), [""][1..]) == Outline([], []);
  }

  /** Overlap only adds text in front: chunk `k` ends with its own text, which has at most `chunkSize`
      runes, and in all it has at most `chunkSize + chunkOverlap`; chunks are numbered in order. */
  lemma ChunksBounded(format: Format, text: string, opt: SplitOptions, bounds: seq<int>, k: nat)
    requires k < |SplitText(format, text, opt, bounds)|
    ensures var out, o := SplitText(format, text, opt, bounds), Normalized(opt);
            var base := BaseChunks(BlocksOf(format, TrimSpace(text), bounds), o.chunkSize);
            && |base| == |out| && 0 < |base[k].text| <= o.chunkSize
            && EndsWith(out[k].text, base[k].text) && |out[k].text| <= o.chunkSize + o.chunkOverlap
            && out[k] == base[k].(text := out[k].text) && out[k].index == k && out[k].total == |out|
  {
    hide *;
    var s, o := TrimSpace(text), Normalized(opt);
    var blocks := BlocksOf(format, s, bounds);
    var base := BaseChunks(blocks, o.chunkSize);
    SplitIsOverlapped(format, text, opt, bounds);
    TrimSpaceTrimmed(text);
    BlocksHaveInk(format, s, bounds);
    BaseChunksOk(blocks, o.chunkSize);
    BaseChunksNumbered(blocks, o.chunkSize);
    OverlappedChunk(base, o, k);
  }

  lemma SplitIsOverlapped(format: Format, text: string, opt: SplitOptions, bounds: seq<int>)
    requires SplitText(format, text, opt, bounds) != []
    ensures var o := Normalized(opt);
            TrimSpace(text) != "" && SplitText(format, text, opt, bounds) == WithOverlap(
              BaseChunks(BlocksOf(format, TrimSpace(text), bounds), o.chunkSize), o.chunkSize, o.chunkOverlap)
    ensures var base := BaseChunks(BlocksOf(format, TrimSpace(text), bounds), Normalized(opt).chunkSize);
            |SplitText(format, text, opt, bounds)| == |base|
  {
    hide TrimSpace, BlocksOf, BaseChunks, Normalized, OverlapText;
  }

  lemma BaseChunksNumbered(blocks: seq<Piece>, size: int)
    ensures var base := BaseChunks(blocks, size);
            forall k :: 0 <= k < |base| ==> base[k].index == k && base[k].total == |base|
  {
    hide Merge, Pieces;
  }

  lemma OverlappedChunk(base: seq<Chunk>, o: SplitOptions, k: nat)
    requires k < |base| && 0 <= o.chunkOverlap
    requires Written(ChunkTexts(base)) && AtMost(ChunkTexts(base), o.chunkSize)
    ensures var c := WithOverlap(base, o.chunkSize, o.chunkOverlap)[k];
            && 0 < |base[k].text| <= o.chunkSize && c == base[k].(text := c.text)
            && EndsWith(c.text, base[k].text) && |c.text| <= o.chunkSize + o.chunkOverlap
  {
    hide OverlapText, Trimmed;
    assert ChunkTexts(base)[k] == base[k].text;
    if k > 0 {
      OverlapKeepsText(base[k - 1].text, base[k].text, o.chunkSize, o.chunkOverlap);
    }
  }

  // ----- Page ranges of PDF chunks

  lemma {:induction false} OneChunkPerGroup(gs: seq<seq<Piece>>, size: int)
    requires forall g :: g in gs ==> GroupOk(g, size) && HaveInk(g)
    ensures |FlatMap(Render, gs)| == |gs|
    ensures forall k :: 0 <= k < |gs| ==> Render(gs[k]) == [FlatMap(Render, gs)[k]]
    decreases |gs|
  {
    hide GroupOk, HaveInk, Render;
    if gs != [] {
      assert gs[0] in gs && forall g :: g in gs[1..] ==> g in gs;
      GroupHasChunk(gs[0], size);
      hide TrimSpace, GroupText, RangeOf;
      OneChunkPerGroup(gs[1..], size);
    }
  }

  lemma GroupHasChunk(g: seq<Piece>, size: int)
    requires GroupOk(g, size) && HaveInk(g)
    ensures Render(g) == [Piece(TrimSpace(GroupText(g)), g[0].path, RangeOf(g).0, RangeOf(g).1)]
  {
    InkBlank("\n");
    InkJoin(Texts(g), "\n");
    assert InkAll(Texts(g)) != "" by {
      assert Texts(g)[0] == g[0].text && g[0] in g;
    }
    InkTrim(GroupText(g));
    InkBlank("");
    hide TrimSpace, Ink, InkAll, RangeOf;
  }

  /** One page per piece, never decreasing. */
  ghost predicate PagesUp(blocks: seq<Piece>, from: int) {
    && (forall i :: 0 <= i < |blocks| ==> from <= blocks[i].lo == blocks[i].hi)
    && (forall i, j :: 0 <= i < j < |blocks| ==> blocks[i].lo <= blocks[j].lo)
  }

  lemma {:induction false} PageBlocksOnPage(texts: seq<string>, page: int)
    ensures forall b :: b in PageBlocks(texts, page) ==> b.lo == b.hi == page
  {
    if texts != [] {
      PageBlocksOnPage(texts[1..], page);
    }
  }

  lemma {:induction false} DocBlocksUp(docs: seq<seq<string>>, page: int)
    ensures PagesUp(DocBlocks(docs, page), page)
    decreases |docs|
  {
    if docs != [] {
      PageBlocksOnPage(docs[0], page);
      DocBlocksUp(docs[1..], page + 1);
      assert PagesUp(PageBlocks(docs[0], page) + DocBlocks(docs[1..], page + 1), page) by {
        assert forall i :: 0 <= i < |PageBlocks(docs[0], page)| ==> PageBlocks(docs[0], page)[i] in PageBlocks(docs[0], page);
      }
    }
  }

  lemma {:induction false} PiecesUp(blocks: seq<Piece>, size: int, from: int)
    requires PagesUp(blocks, from)
    ensures PagesUp(Pieces(blocks, size), from)
    ensures forall p :: p in Pieces(blocks, size) ==> blocks != [] && p.lo <= blocks[|blocks| - 1].lo
  {
    hide PartsOf;
    if blocks != [] {
      var front, b := blocks[..|blocks| - 1], blocks[|blocks| - 1];
      PiecesUp(front, size, from);
      PartsOnPage(b, size);
      hide Pieces;
      assert PagesUp(Pieces(front, size) + PartsOf(b, size), from);
    }
  }

  lemma PartsOnPage(b: Piece, size: int)
    ensures forall p :: p in PartsOf(b, size) ==> p.lo == b.lo && p.hi == b.hi
  {
    hide SplitOversized;
  }

  lemma GroupInOrder(gs: seq<seq<Piece>>, k: nat, from: int)
    requires k < |gs| && PagesUp(Concat(gs), from) && 1 <= from
    ensures PagesInOrder(gs[k])
  {
    SlicesUp(gs, k, from);
  }

  lemma {:induction false} SlicesUp(gs: seq<seq<Piece>>, k: nat, from: int)
    requires k < |gs| && PagesUp(Concat(gs), from)
    ensures PagesUp(gs[k], from)
  {
    hide PagesUp;
    var front, last := Concat(gs[..|gs| - 1]), gs[|gs| - 1];
    HalvesUp(front, last, from);
    if k < |gs| - 1 {
      SlicesUp(gs[..|gs| - 1], k, from);
    }
  }

  lemma HalvesUp(a: seq<Piece>, b: seq<Piece>, from: int)
    requires PagesUp(a + b, from)
    ensures PagesUp(a, from) && PagesUp(b, from)
  {
    assert forall i :: 0 <= i < |a| ==> a[i] == (a + b)[i];
    assert forall i :: 0 <= i < |b| ==> b[i] == (a + b)[|a| + i];
  }

  lemma {:induction false} ConcatHolds<T>(gs: seq<seq<T>>)
    ensures forall g, x :: g in gs && x in g ==> x in Concat(gs)
  {
    if gs != [] {
      ConcatHolds(gs[..|gs| - 1]);
      assert gs == gs[..|gs| - 1] + [gs[|gs| - 1]];
    }
  }

  lemma {:induction false} DocBlocksHaveInk(docs: seq<seq<string>>, page: int)
    requires DocsOk(docs)
    ensures HaveInk(DocBlocks(docs, page))
    decreases |docs|
  {
    hide TextOk;
    if docs != [] {
      DocBlocksHaveInk(docs[1..], page + 1);
      PageBlocksHaveInk(docs[0], page);
    }
  }

  lemma {:induction false} PageBlocksHaveInk(texts: seq<string>, page: int)
    requires forall q :: q in texts ==> TextOk(q)
    ensures HaveInk(PageBlocks(texts, page))
  {
    if texts != [] {
      PageBlocksHaveInk(texts[1..], page);
      assert TextOk(texts[0]) by { assert texts[0] in texts; }
      TrimmedHasInk(texts[0]);
      hide Ink, TextOk;
    }
  }

  /** A chunk of a group of consecutive pieces: it ends with their texts, under their path and pages. */
  ghost predicate ChunkOfGroup(c: Chunk, g: seq<Piece>) {
    && g != [] && EndsWith(c.text, TrimSpace(GroupText(g)))
    && c.headingPath == Join(g[0].path, " › ") && c.pages == PagesOf(RangeOf(g).0, RangeOf(g).1)
  }

  /** Every chunk comes from one of the greedy groups that the pieces fall into, in order. */
  lemma BlockChunksAreGroups(blocks: seq<Piece>, o: SplitOptions)
    requires 1 <= o.chunkSize && 0 <= o.chunkOverlap && HaveInk(blocks)
    ensures var out, pieces := ChunkBlocks(blocks, o), Pieces(blocks, o.chunkSize);
            var gs := Groups(pieces, o.chunkSize);
            GroupingOk(gs, pieces, o.chunkSize) && |out| == |gs| && forall k :: 0 <= k < |gs| ==> ChunkOfGroup(out[k], gs[k])
  {
    hide *;
    var pieces := Pieces(blocks, o.chunkSize);
    var gs := Groups(pieces, o.chunkSize);
    PiecesOk(blocks, o.chunkSize);
    GroupsAreGreedy(pieces, o.chunkSize);
    GroupsHaveInk(gs, pieces, o.chunkSize);
    OneChunkPerGroup(gs, o.chunkSize);
    OneChunkPerPiece(blocks, o);
    forall k | 0 <= k < |gs|
      ensures ChunkOfGroup(ChunkBlocks(blocks, o)[k], gs[k])
    {
      assert GroupOk(gs[k], o.chunkSize) && HaveInk(gs[k]) by { assert gs[k] in gs; }
      GroupNotEmpty(gs[k], o.chunkSize);
      GroupHasChunk(gs[k], o.chunkSize);
      ChunkIsRendered(blocks, o, k);
      IsChunkOfGroup(ChunkBlocks(blocks, o)[k], gs[k], Merge(pieces, o.chunkSize)[k]);
    }
  }

  lemma IsChunkOfGroup(c: Chunk, g: seq<Piece>, m: Piece)
    requires g != [] && m == Piece(TrimSpace(GroupText(g)), g[0].path, RangeOf(g).0, RangeOf(g).1)
    requires EndsWith(c.text, m.text) && c.headingPath == Join(m.path, " › ") && c.pages == PagesOf(m.lo, m.hi)
    ensures ChunkOfGroup(c, g)
  {
    hide TrimSpace, GroupText, RangeOf, Join, PagesOf, EndsWith;
  }

  /** The same for a whole text in any format. */
  lemma ChunksAreGroups(format: Format, text: string, opt: SplitOptions, bounds: seq<int>)
    requires TrimSpace(text) != ""
    ensures var out, o := SplitText(format, text, opt, bounds), Normalized(opt);
            var pieces := Pieces(BlocksOf(format, TrimSpace(text), bounds), o.chunkSize);
            var gs := Groups(pieces, o.chunkSize);
            GroupingOk(gs, pieces, o.chunkSize) && |out| == |gs| && forall k :: 0 <= k < |gs| ==> ChunkOfGroup(out[k], gs[k])
  {
    TrimSpaceTrimmed(text);
    hide TrimSpace, Trimmed, BlocksOf, ChunkBlocks, Pieces, Groups, HaveInk, ChunkOfGroup, GroupingOk;
    BlocksHaveInk(format, TrimSpace(text), bounds);
    BlockChunksAreGroups(BlocksOf(format, TrimSpace(text), bounds), Normalized(opt));
  }

  /** The chunks of a PDF whose pages have these paragraphs, joined as the extractor joins them. */
  function PdfChunks(docs: seq<seq<string>>, opt: SplitOptions): seq<Chunk> {
    var pages := PageTextsOf(docs);
    SplitText(Pdf, JoinPages(pages), opt, Bounds(pages))
  }

  /** Each chunk comes from one group of consecutive pieces that carry the pages they were on, and is
      labelled from the page of its first piece to the page of its last. */
  ghost predicate ChunksOnTheirPages(docs: seq<seq<string>>, opt: SplitOptions) {
    var out, o := PdfChunks(docs, opt), Normalized(opt);
    var pieces := Pieces(DocBlocks(docs, 1), o.chunkSize);
    var gs := Groups(pieces, o.chunkSize);
    && GroupingOk(gs, pieces, o.chunkSize) && |out| == |gs|
    && forall k :: 0 <= k < |gs| ==>
         && gs[k] != [] && EndsWith(out[k].text, TrimSpace(GroupText(gs[k])))
         && out[k].pages == Pages(gs[k][0].lo, gs[k][|gs[k]| - 1].hi)
  }

  /** For pages joined as the extractor joins them, with text on the first page. */
  lemma ChunkPagesAreRight(docs: seq<seq<string>>, opt: SplitOptions)
    requires docs != [] && DocsOk(docs) && docs[0] != []
    ensures ChunksOnTheirPages(docs, opt)
  {
    hide *;
    var o := Normalized(opt);
    var blocks := DocBlocks(docs, 1);
    var pieces := Pieces(blocks, o.chunkSize);
    var gs := Groups(pieces, o.chunkSize);
    DocBlocksHaveInk(docs, 1);
    BlockChunksAreGroups(blocks, o);
    PdfIsBlocks(docs, opt);
    DocBlocksUp(docs, 1);
    PiecesUp(blocks, o.chunkSize, 1);
    GroupingMeans(gs, pieces, o.chunkSize);
    forall k | 0 <= k < |gs|
      ensures gs[k] != [] && EndsWith(ChunkBlocks(blocks, o)[k].text, TrimSpace(GroupText(gs[k])))
      ensures ChunkBlocks(blocks, o)[k].pages == Pages(gs[k][0].lo, gs[k][|gs[k]| - 1].hi)
    {
      GroupInOrder(gs, k, 1);
      GroupOfChunk(ChunkBlocks(blocks, o)[k], gs[k]);
      RangeIsFirstToLast(gs[k]);
      PositiveRange(gs[k]);
    }
    OnTheirPages(docs, opt, gs);
  }

  lemma GroupOfChunk(c: Chunk, g: seq<Piece>)
    requires ChunkOfGroup(c, g)
    ensures g != [] && EndsWith(c.text, TrimSpace(GroupText(g))) && c.pages == PagesOf(RangeOf(g).0, RangeOf(g).1)
  {
    hide TrimSpace, GroupText, RangeOf, Join, PagesOf, EndsWith;
  }

  lemma OnTheirPages(docs: seq<seq<string>>, opt: SplitOptions, gs: seq<seq<Piece>>)
    requires var out, o := PdfChunks(docs, opt), Normalized(opt);
             var pieces := Pieces(DocBlocks(docs, 1), o.chunkSize);
             && gs == Groups(pieces, o.chunkSize) && GroupingOk(gs, pieces, o.chunkSize) && |out| == |gs|
             && forall k :: 0 <= k < |gs| ==>
                  && gs[k] != [] && EndsWith(out[k].text, TrimSpace(GroupText(gs[k])))
                  && out[k].pages == Pages(gs[k][0].lo, gs[k][|gs[k]| - 1].hi)
    ensures ChunksOnTheirPages(docs, opt)
  {
    hide PdfChunks, Pieces, DocBlocks, Groups, GroupingOk, EndsWith, TrimSpace, GroupText, Normalized;
  }

  lemma GroupNotEmpty(g: seq<Piece>, size: int)
    requires GroupOk(g, size)
    ensures g != []
  {
  }

  lemma PositiveRange(g: seq<Piece>)
    requires g != [] && PagesInOrder(g)
    ensures PagesOf(g[0].lo, g[|g| - 1].hi) == Pages(g[0].lo, g[|g| - 1].hi)
  {
  }

  lemma GroupingMeans(gs: seq<seq<Piece>>, pieces: seq<Piece>, size: int)
    requires GroupingOk(gs, pieces, size)
    ensures Concat(gs) == pieces && forall g :: g in gs ==> GroupOk(g, size)
  {
  }

  lemma GroupsHaveInk(gs: seq<seq<Piece>>, pieces: seq<Piece>, size: int)
    requires GroupingOk(gs, pieces, size) && HaveInk(pieces)
    ensures forall g :: g in gs ==> GroupOk(g, size) && HaveInk(g)
  {
    ConcatHolds(gs);
    hide GroupOk, Ink, Concat, Greedy;
  }

  lemma ChunkIsRendered(blocks: seq<Piece>, o: SplitOptions, k: nat)
    requires 1 <= o.chunkSize && 0 <= o.chunkOverlap && HaveInk(blocks)
    requires k < |Merge(Pieces(blocks, o.chunkSize), o.chunkSize)|
    ensures |ChunkBlocks(blocks, o)| == |Merge(Pieces(blocks, o.chunkSize), o.chunkSize)|
    ensures var c, m := ChunkBlocks(blocks, o)[k], Merge(Pieces(blocks, o.chunkSize), o.chunkSize)[k];
            EndsWith(c.text, m.text) && c.headingPath == Join(m.path, " › ") && c.pages == PagesOf(m.lo, m.hi)
  {
    BaseChunksOk(blocks, o.chunkSize);
    hide Merge, Pieces, OverlapText, PagesOf, Join, InkAll, Written, AtMost, EndsWith, HaveInk, Texts, ChunkTexts;
    OverlappedChunk(BaseChunks(blocks, o.chunkSize), o, k);
  }

  lemma PdfIsBlocks(docs: seq<seq<string>>, opt: SplitOptions)
    requires docs != [] && DocsOk(docs) && docs[0] != []
    ensures PdfChunks(docs, opt) == ChunkBlocks(DocBlocks(docs, 1), Normalized(opt))
    ensures |ChunkBlocks(DocBlocks(docs, 1), Normalized(opt))|
         == |Merge(Pieces(DocBlocks(docs, 1), Normalized(opt).chunkSize), Normalized(opt).chunkSize)|
    ensures var size := Normalized(opt).chunkSize;
            Merge(Pieces(DocBlocks(docs, 1), size), size) == FlatMap(Render, Groups(Pieces(DocBlocks(docs, 1), size), size))
  {
    hide *;
    var pages := PageTextsOf(docs);
    LabelsRight(docs);
    SomePageHasText(docs);
    JoinNotBlank(docs);
    TrimBlank(JoinPages(pages));
    TrimSpaceTrimmed(JoinPages(pages));
    TrimOfTrimmed(TrimSpace(JoinPages(pages)));
    PdfBlocksAre(pages, opt);
    OneChunkPerPiece(DocBlocks(docs, 1), Normalized(opt));
  }

  lemma SomePageHasText(docs: seq<seq<string>>)
    requires docs != [] && docs[0] != []
    ensures !AllEmpty(docs) && |PageTextsOf(docs)| > 0
  {
  }

  lemma PdfBlocksAre(pages: seq<string>, opt: SplitOptions)
    requires |pages| > 0 && TrimSpace(JoinPages(pages)) != ""
    requires TrimSpace(TrimSpace(JoinPages(pages))) == TrimSpace(JoinPages(pages))
    ensures forall docs :: pages == PageTextsOf(docs) ==>
              PdfChunks(docs, opt) == ChunkBlocks(LabelledBlocks(pages), Normalized(opt))
    ensures SplitText(Pdf, JoinPages(pages), opt, Bounds(pages)) == ChunkBlocks(LabelledBlocks(pages), Normalized(opt))
  {
    hide TrimSpace, JoinPages, SpansAt, Labelled, ChunkBlocks, Normalized;
  }

  lemma OneChunkPerPiece(blocks: seq<Piece>, o: SplitOptions)
    ensures var pieces := Pieces(blocks, o.chunkSize);
            && |ChunkBlocks(blocks, o)| == |Merge(pieces, o.chunkSize)|
            && Merge(pieces, o.chunkSize) == FlatMap(Render, Groups(pieces, o.chunkSize))
  {
    hide Pieces, Groups, OverlapText;
  }

  lemma NormalizedPages(raw: seq<string>)
    ensures DocsOk(NormalizedDocs(raw)) && PageTextsOf(NormalizedDocs(raw)) == NormalizedPagesOf(raw)
  {
    hide NormalizeText, PageTexts, TextOk, Join;
    forall i | 0 <= i < |raw|
      ensures NormalizeText(raw[i]) == Join(PageTexts(raw[i]), "\n\n") && forall q :: q in PageTexts(raw[i]) ==> TextOk(q)
    {
      PageTextsOk(raw[i]);
    }
  }

  function NormalizedDocs(raw: seq<string>): seq<seq<string>> {
    seq(|raw|, i requires 0 <= i < |raw| => PageTexts(raw[i]))
  }

  function NormalizedPagesOf(raw: seq<string>): seq<string> {
    seq(|raw|, i requires 0 <= i < |raw| => NormalizeText(raw[i]))
  }

  lemma EmptyPage(s: string)
    ensures NormalizeText(s) == "" <==> PageTexts(s) == []
  {
    hide PageTexts, TextOk, NormalizeText;
    PageTextsOk(s);
    NoJoin("\n\n");
    if PageTexts(s) != [] {
      PageTrimmed(PageTexts(s));
    }
  }

  /** From raw page texts to labels: extraction and splitting together give every paragraph its own page
      exactly when the first page has text or no page has. */
  lemma ExtractedLabelsRightIff(raw: seq<string>)
    requires raw != []
    ensures LabelledBlocks(NormalizedPagesOf(raw)) == DocBlocks(NormalizedDocs(raw), 1)
       <==> NormalizeText(raw[0]) != "" || forall k :: 0 <= k < |raw| ==> NormalizeText(raw[k]) == ""
  {
    hide LabelledBlocks, DocBlocks, NormalizeText, PageTexts, DocsOk;
    NormalizedPages(raw);
    LabelsAreRightIff(NormalizedDocs(raw));
    forall k | 0 <= k < |raw| ensures NormalizeText(raw[k]) == "" <==> NormalizedDocs(raw)[k] == [] {
      EmptyPage(raw[k]);
    }
    EmptyPage(raw[0]);
  }

  // ----- From raw pages to the pages of chunks

  ghost predicate OnPositivePages(pieces: seq<Piece>) {
    forall p :: p in pieces ==> 1 <= p.lo && 1 <= p.hi
  }

  lemma {:induction false} LabelsPositive(spans: seq<Span>, bounds: seq<int>)
    ensures OnPositivePages(Labelled(spans, bounds))
  {
    if spans != [] {
      LabelsPositive(spans[1..], bounds);
      hide Search;
    }
  }

  lemma {:induction false} PiecesPositive(blocks: seq<Piece>, size: int)
    requires OnPositivePages(blocks)
    ensures OnPositivePages(Pieces(blocks, size))
  {
    hide PartsOf;
    if blocks != [] {
      var front, b := blocks[..|blocks| - 1], blocks[|blocks| - 1];
      PiecesPositive(front, size);
      PartsOnPage(b, size);
      assert b in blocks;
    }
  }

  lemma {:induction false} FirstPiece(blocks: seq<Piece>, size: int)
    requires 1 <= size && blocks != [] && HaveInk(blocks)
    ensures Pieces(blocks, size) != [] && Pieces(blocks, size)[0].lo == blocks[0].lo
  {
    var front, b := blocks[..|blocks| - 1], blocks[|blocks| - 1];
    if front == [] {
      assert b in blocks;
      PartsOk(b, size);
      PartsOnPage(b, size);
      assert PartsOf(b, size) != [];
      assert PartsOf(b, size)[0] in PartsOf(b, size);
      hide PartsOf, HaveInk, Fit, InkAll, Ink;
      assert Pieces(blocks, size) == PartsOf(b, size) by {
        assert Pieces([], size) + PartsOf(b, size) == PartsOf(b, size);
      }
    } else {
      hide PartsOf, Ink;
      FirstPiece(front, size);
    }
  }

  lemma {:induction false} FirstOfConcat<T>(gs: seq<seq<T>>)
    requires gs != [] && gs[0] != []
    ensures Concat(gs) != [] && Concat(gs)[0] == gs[0][0]
  {
    if |gs| > 1 {
      FirstOfConcat(gs[..|gs| - 1]);
    } else {
      assert Concat(gs[..0]) == [];
    }
  }

  lemma {:induction false} RangeStartsAtOne(g: seq<Piece>)
    requires g != [] && OnPositivePages(g) && g[0].lo == 1
    ensures RangeOf(g).0 == 1 && RangeOf(g).1 >= 1
  {
    assert g[|g| - 1] in g && g[0] in g;
    if |g| > 1 {
      RangeStartsAtOne(g[..|g| - 1]);
    }
  }

  /** When the first block is labelled with page 1, so is the start of the first chunk. */
  lemma FirstChunkStartsAtOne(blocks: seq<Piece>, o: SplitOptions)
    requires 1 <= o.chunkSize && 0 <= o.chunkOverlap && HaveInk(blocks)
    requires blocks != [] && blocks[0].lo == 1 && OnPositivePages(blocks)
    ensures var out := ChunkBlocks(blocks, o); out != [] && out[0].pages.Pages? && out[0].pages.first == 1
  {
    hide *;
    var pieces := Pieces(blocks, o.chunkSize);
    var gs := Groups(pieces, o.chunkSize);
    BlockChunksAreGroups(blocks, o);
    GroupingMeans(gs, pieces, o.chunkSize);
    FirstPiece(blocks, o.chunkSize);
    PiecesPositive(blocks, o.chunkSize);
    SomeGroup(gs, pieces);
    GroupOfChunk(ChunkBlocks(blocks, o)[0], gs[0]);
    FirstOfConcat(gs);
    PositiveGroup(gs);
    RangeStartsAtOne(gs[0]);
    PagesFromOne(RangeOf(gs[0]).1);
  }

  lemma SomeGroup(gs: seq<seq<Piece>>, pieces: seq<Piece>)
    requires Concat(gs) == pieces != []
    ensures gs != []
  {
  }

  lemma PositiveGroup(gs: seq<seq<Piece>>)
    requires gs != [] && OnPositivePages(Concat(gs))
    ensures OnPositivePages(gs[0])
  {
    ConcatHolds(gs);
    assert gs[0] in gs;
  }

  lemma PagesFromOne(hi: int)
    requires hi >= 1
    ensures PagesOf(1, hi) == Pages(1, hi)
  {
  }

  /** With an empty first page and text further on, the first chunk starts at page 1 all the same. */
  lemma FirstChunkShifted(docs: seq<seq<string>>, opt: SplitOptions)
    requires docs != [] && DocsOk(docs) && docs[0] == [] && !AllEmpty(docs)
    ensures var out := PdfChunks(docs, opt); out != [] && out[0].pages.Pages? && out[0].pages.first == 1
  {
    hide *;
    var pages := PageTextsOf(docs);
    LabelsShift(docs);
    NotEmptyDocs(docs);
    assert (var s := TrimSpace(JoinPages(PageTextsOf(docs))); s != "" && Trimmed(s) && TrimSpace(s) == s) by {
      hide *;
      var text := JoinPages(PageTextsOf(docs));
      JoinNotBlank(docs);
      TrimBlank(text);
      TrimSpaceTrimmed(text);
      TrimOfTrimmed(TrimSpace(text));
    }
    PdfBlocksAre(pages, opt);
    assert HaveInk(LabelledBlocks(pages)) && OnPositivePages(LabelledBlocks(pages)) by {
      hide *;
      LabelledBlocksAre(pages, TrimSpace(JoinPages(pages)));
      BlocksHaveInk(Pdf, TrimSpace(JoinPages(pages)), Bounds(pages));
      LabelsPositive(SpansAt(TrimSpace(JoinPages(pages)), 0), Bounds(pages));
    }
    FirstChunkStartsAtOne(LabelledBlocks(pages), Normalized(opt));
  }

  lemma NotEmptyDocs(docs: seq<seq<string>>)
    requires !AllEmpty(docs)
    ensures |PageTextsOf(docs)| > 0
  {
  }

  lemma LabelledBlocksAre(pages: seq<string>, s: string)
    requires |pages| > 0 && s == TrimSpace(JoinPages(pages)) && TrimSpace(s) == s
    ensures LabelledBlocks(pages) == Labelled(SpansAt(s, 0), Bounds(pages)) == BlocksOf(Pdf, s, Bounds(pages))
  {
    hide TrimSpace, JoinPages, SpansAt, Labelled;
  }

  /** From raw page texts to chunks: when some page has text, every chunk is labelled from the page of its
      first piece to that of its last exactly when the first page has text. */
  lemma ExtractedChunkPagesIff(raw: seq<string>, opt: SplitOptions)
    requires exists k :: 0 <= k < |raw| && NormalizeText(raw[k]) != ""
    ensures PageTextsOf(NormalizedDocs(raw)) == NormalizedPagesOf(raw)
    ensures ChunksOnTheirPages(NormalizedDocs(raw), opt) <==> NormalizeText(raw[0]) != ""
  {
    hide NormalizeText, PageTexts, DocsOk, ChunksOnTheirPages, AllEmpty;
    var docs := NormalizedDocs(raw);
    NormalizedPages(raw);
    EmptyPage(raw[0]);
    if NormalizeText(raw[0]) != "" {
      ChunkPagesAreRight(docs, opt);
    } else {
      var k :| 0 <= k < |raw| && NormalizeText(raw[k]) != "";
      EmptyPage(raw[k]);
      SomeText(docs, k);
      FirstChunkShifted(docs, opt);
      if ChunksOnTheirPages(docs, opt) {
        FirstStartsLater(docs, opt, PdfChunks(docs, opt));
      }
    }
  }

  lemma SomeText(docs: seq<seq<string>>, k: nat)
    requires k < |docs| && docs[k] != []
    ensures !AllEmpty(docs)
  {
  }

  /** Labelled with the pages of its pieces, the first chunk would start on page 2 or later. */
  lemma FirstStartsLater(docs: seq<seq<string>>, opt: SplitOptions, out: seq<Chunk>)
    requires docs != [] && docs[0] == [] && out == PdfChunks(docs, opt) && ChunksOnTheirPages(docs, opt)
    ensures out != [] && out[0].pages.Pages? ==> out[0].pages.first >= 2
  {
    hide *;
    if out != [] {
      var size := Normalized(opt).chunkSize;
      var gs := Groups(Pieces(DocBlocks(docs, 1), size), size);
      FirstChunkOnItsPage(docs, opt, gs, out);
      if gs[0] != [] {
        assert gs[0][0].lo >= 2 by {
          hide *;
          LaterBlocks(docs);
          DocBlocksUp(docs[1..], 2);
          PiecesUp(DocBlocks(docs, 1), size, 2);
          GroupingMeans(gs, Pieces(DocBlocks(docs, 1), size), size);
          SlicesUp(gs, 0, 2);
          StartsLater(gs[0], 2);
        }
      }
    }
  }

  lemma StartsLater(g: seq<Piece>, from: int)
    requires g != [] && PagesUp(g, from)
    ensures g[0].lo >= from
  {
  }

  lemma FirstChunkOnItsPage(docs: seq<seq<string>>, opt: SplitOptions, gs: seq<seq<Piece>>, out: seq<Chunk>)
    requires ChunksOnTheirPages(docs, opt) && out == PdfChunks(docs, opt)
    requires gs == Groups(Pieces(DocBlocks(docs, 1), Normalized(opt).chunkSize), Normalized(opt).chunkSize)
    ensures && GroupingOk(gs, Pieces(DocBlocks(docs, 1), Normalized(opt).chunkSize), Normalized(opt).chunkSize)
            && |out| == |gs|
            && (out != [] && out[0].pages.Pages? ==> gs[0] != [] && out[0].pages.first == gs[0][0].lo)
  {
    hide PdfChunks, Pieces, DocBlocks, Groups, GroupingOk, EndsWith, TrimSpace, GroupText, Normalized;
  }

  lemma LaterBlocks(docs: seq<seq<string>>)
    requires docs != [] && docs[0] == []
    ensures DocBlocks(docs, 1) == DocBlocks(docs[1..], 2)
  {
  }
}
