/** PDF pages: the page join of pkg/document/extract.go and the page map of pkg/rag/splitter.go that
    finds the page of each paragraph again from rune offsets. */
module PdfPages {
  import opened Runes
  import opened Chunker
  import opened Normalize

  // ----- The extractor: joined text and bounds

  function JoinPages(pages: seq<string>): string {
    Join(pages, "\n\n")
  }

  /** The rune offset at which page `k` starts in the joined text, for k < |pages|. */
  function StartOf(pages: seq<string>, k: nat): nat
    requires k <= |pages|
  {
    if k == 0 then 0 else StartOf(pages, k - 1) + |pages[k - 1]| + 2
  }

  /** The starts of all pages and the length of the joined text. */
  function Bounds(pages: seq<string>): (b: seq<int>)
    ensures |b| == |pages| + 1
  {
    seq(|pages| + 1, k requires 0 <= k <= |pages| =>
      if k == |pages| && k > 0 then StartOf(pages, k) - 2 else StartOf(pages, k))
  }

  method ComputeBounds(pages: seq<string>) returns (joined: string, bounds: seq<int>)
    ensures joined == JoinPages(pages) && bounds == Bounds(pages)
  {
    joined := JoinPages(pages);
    bounds := [];
    var acc := 0;
    for i := 0 to |pages|
      invariant |bounds| == i
      invariant acc == if i == |pages| && i > 0 then StartOf(pages, i) - 2 else StartOf(pages, i)
      invariant forall k :: 0 <= k < i ==> bounds[k] == StartOf(pages, k)
    {
      bounds := bounds + [acc];
      acc := acc + |pages[i]|;
      if i < |pages| - 1 {
        acc := acc + 2;
      }
    }
    bounds := bounds + [acc];
  }

  // ----- The splitter: paragraphs with rune spans

  datatype Span = Span(text: string, lo: int, hi: int)

  /** The paragraph between two separators, trimmed of the cutset; nothing when it is blank. */
  function SpanOf(para: string, base: int): seq<Span> {
    if Blank(para) then []
    else
      var left := |para| - |DropLeft(para)|;
      var text := DropRight(DropLeft(para));
      [Span(text, base + left, base + left + |text|)]
  }

  /** The spans of a text that starts at offset `base`. */
  function SpansAt(s: string, base: int): seq<Span>
    decreases |s|
  {
    var i := Index(s, "\n\n");
    if i < 0 then SpanOf(s, base)
    else SpanOf(s[..i], base) + SpansAt(s[i + 2..], base + i + 2)
  }

  lemma SpansStep(s: string, off: nat, out: seq<Span>)
    requires off <= |s|
    ensures off + Index(s[off..], "\n\n") + 2 <= |s| || Index(s[off..], "\n\n") < 0
    ensures var idx := Index(s[off..], "\n\n");
            out + SpansAt(s[off..], off) ==
              if idx < 0 then out + SpanOf(s[off..], off)
              else out + SpanOf(s[off..off + idx], off) + SpansAt(s[off + idx + 2..], off + idx + 2)
  {
    hide SpanOf;
    var idx := Index(s[off..], "\n\n");
    if idx >= 0 {
      assert s[off..][..idx] == s[off..off + idx] && s[off..][idx + 2..] == s[off + idx + 2..];
      Assoc(out, SpanOf(s[off..off + idx], off), SpansAt(s[off + idx + 2..], off + idx + 2));
    }
  }

  method ComputeSpans(text: string) returns (out: seq<Span>)
    ensures out == SpansAt(TrimSpace(text), 0)
  {
    hide *;
    var s := TrimSpace(text);
    BlankSpan();
    out := [];
    if s == "" {
      return;
    }
    var off := 0;
    assert s[0..] == s;
    while true
      invariant 0 <= off <= |s|
      invariant out + SpansAt(s[off..], off) == SpansAt(s, 0)
      decreases |s| - off
    {
      SpansStep(s, off, out);
      var idx := Index(s[off..], "\n\n");
      if idx < 0 {
        out := out + SpanOf(s[off..], off);
        break;
      }
      out := out + SpanOf(s[off..off + idx], off);
      off := off + idx + 2;
    }
  }

  lemma BlankSpan()
    ensures SpansAt("", 0) == []
  {
  }

  /** Go's `sort.Search` over the predicate r < bounds[k + 1]. */
  function Search(bounds: seq<int>, r: int, i: nat, j: nat): (k: nat)
    requires i <= j < |bounds|
    ensures i <= k <= j
    decreases j - i
  {
    if i == j then i
    else
      var h := (i + j) / 2;
      if r < bounds[h + 1] then Search(bounds, r, i, h) else Search(bounds, r, h + 1, j)
  }

  function PageIndex(bounds: seq<int>, r: int): int {
    if |bounds| < 2 then 1
    else
      var n := |bounds| - 1;
      if r < bounds[0] then 1
      else if r >= bounds[n] then n
      else Search(bounds, r, 0, n) + 1
  }

  method ComputePageIndex(bounds: seq<int>, r: int) returns (page: int)
    ensures page == PageIndex(bounds, r)
  {
    if |bounds| < 2 {
      return 1;
    }
    var n := |bounds| - 1;
    if r < bounds[0] {
      return 1;
    }
    if r >= bounds[n] {
      return n;
    }
    var i, j := 0, n;
    while i < j
      invariant 0 <= i <= j <= n && Search(bounds, r, i, j) == Search(bounds, r, 0, n)
    {
      var h := (i + j) / 2;
      if r < bounds[h + 1] {
        j := h;
      } else {
        i := h + 1;
      }
    }
    return i + 1;
  }

  ghost predicate Ascending(bounds: seq<int>) {
    forall i, j :: 0 <= i <= j < |bounds| ==> bounds[i] <= bounds[j]
  }

  lemma {:induction false} SearchFinds(bounds: seq<int>, r: int, k: nat, i: nat, j: nat)
    requires Ascending(bounds) && i <= k <= j < |bounds| && k + 1 < |bounds| && bounds[k] <= r < bounds[k + 1]
    ensures Search(bounds, r, i, j) == k
    decreases j - i
  {
    if i < j {
      var h := (i + j) / 2;
      if r < bounds[h + 1] {
        assert k <= h;
        SearchFinds(bounds, r, k, i, h);
      } else {
        assert h < k;
        SearchFinds(bounds, r, k, h + 1, j);
      }
    }
  }

  /** The page of an offset is the one whose half-open interval contains it. */
  lemma PageIndexFinds(bounds: seq<int>, r: int, k: nat)
    requires Ascending(bounds) && k + 1 < |bounds| && bounds[k] <= r < bounds[k + 1]
    ensures PageIndex(bounds, r) == k + 1
  {
    SearchFinds(bounds, r, k, 0, |bounds| - 1);
    assert bounds[0] <= bounds[k] && bounds[k + 1] <= bounds[|bounds| - 1];
  }

  /** First and last page of a span. */
  function PagesForSpan(bounds: seq<int>, sp: Span): (int, int) {
    if sp.hi <= sp.lo || |bounds| < 2 then (1, 1)
    else (PageIndex(bounds, sp.lo), PageIndex(bounds, sp.hi - 1))
  }

  /** A paragraph labelled with its first and last page. */
  function Labelled(spans: seq<Span>, bounds: seq<int>): seq<Piece> {
    if spans == [] then []
    else
      var sp := spans[0];
      var (lo, hi) := PagesForSpan(bounds, sp);
      [Piece(sp.text, [], lo, hi)] + Labelled(spans[1..], bounds)
  }

  lemma {:induction false} LabelledAppend(a: seq<Span>, b: seq<Span>, bounds: seq<int>)
    ensures Labelled(a + b, bounds) == Labelled(a, bounds) + Labelled(b, bounds)
  {
    hide PagesForSpan;
    if a == [] {
      assert a + b == b;
    } else {
      LabelledAppend(a[1..], b, bounds);
      assert (a + b)[1..] == a[1..] + b;
    }
  }

  // ----- The reference: paragraphs listed page by page

  function PageBlocks(texts: seq<string>, page: int): seq<Piece> {
    if texts == [] then [] else [Piece(texts[0], [], page, page)] + PageBlocks(texts[1..], page)
  }

  /** `docs[k]` holds the paragraphs of page `page + k`; every paragraph carries its own page. */
  function DocBlocks(docs: seq<seq<string>>, page: int): seq<Piece> {
    if docs == [] then [] else PageBlocks(docs[0], page) + DocBlocks(docs[1..], page + 1)
  }

  function PageText(texts: seq<string>): string {
    Join(texts, "\n\n")
  }

  function PageTextsOf(docs: seq<seq<string>>): seq<string> {
    seq(|docs|, i requires 0 <= i < |docs| => PageText(docs[i]))
  }

  ghost predicate DocsOk(docs: seq<seq<string>>) {
    forall k, q :: 0 <= k < |docs| && q in docs[k] ==> TextOk(q)
  }

  /** What the splitter makes of the extractor's text and bounds. */
  function LabelledBlocks(pages: seq<string>): seq<Piece> {
    Labelled(SpansAt(TrimSpace(JoinPages(pages)), 0), Bounds(pages))
  }

  // ----- The spans of a page

  function PageSpans(texts: seq<string>, base: int): seq<Span> {
    if texts == [] then []
    else [Span(texts[0], base, base + |texts[0]|)] + PageSpans(texts[1..], base + |texts[0]| + 2)
  }

  function DocSpans(docs: seq<seq<string>>, base: int): seq<Span> {
    if docs == [] then []
    else PageSpans(docs[0], base) + DocSpans(docs[1..], base + |PageText(docs[0])| + 2)
  }

  lemma SpanOfText(q: string, base: int)
    requires TextOk(q)
    ensures SpanOf(q, base) == [Span(q, base, base + |q|)]
  {
    assert DropLeft(q) == q && DropRight(q) == q;
  }

  lemma NoBreakInText(q: string)
    requires TextOk(q)
    ensures Index(q, "\n\n") < 0
  {
    var i := Index(q, "\n\n");
    if i >= 0 {
      BreakIs(q, i);
    }
  }

  lemma BreakIs(s: string, i: int)
    requires OccursAt(s, "\n\n", i)
    ensures s[i] == '\n' && s[i + 1] == '\n'
  {
    assert s[i..i + 2][0] == s[i] && s[i..i + 2][1] == s[i + 1];
  }

  /** A separator after a paragraph is the first one. */
  lemma BreakAfterText(q: string, t: string)
    requires q == "" || TextOk(q)
    ensures Index(q + "\n\n" + t, "\n\n") == |q|
  {
    var s := q + "\n\n" + t;
    assert s[|q|..|q| + 2] == "\n\n";
    assert forall j :: 0 <= j < |q| ==> s[j] == q[j];
    forall j | 0 <= j < |q| ensures !OccursAt(s, "\n\n", j) {
      if OccursAt(s, "\n\n", j) {
        BreakIs(s, j);
      }
    }
    IndexIs(s, "\n\n", |q|);
  }

  lemma SpansAfterText(q: string, t: string, base: int)
    requires q == "" || TextOk(q)
    ensures SpansAt(q + "\n\n" + t, base) == SpanOf(q, base) + SpansAt(t, base + |q| + 2)
  {
    hide SpanOf, TextOk;
    var s := q + "\n\n" + t;
    BreakAfterText(q, t);
    assert s[..|q|] == q && s[|q| + 2..] == t;
  }

  lemma LastSpan(q: string, base: int)
    requires q == "" || TextOk(q)
    ensures SpansAt(q, base) == SpanOf(q, base)
  {
    hide SpanOf, TextOk;
    if q != "" {
      NoBreakInText(q);
    }
  }

  lemma EmptySpan(base: int)
    ensures SpanOf("", base) == []
  {
  }

  lemma {:induction false} SpansOfLastPage(texts: seq<string>, base: int)
    requires forall q :: q in texts ==> TextOk(q)
    ensures SpansAt(PageText(texts), base) == PageSpans(texts, base)
    decreases |texts|
  {
    hide SpansAt, SpanOf, TextOk;
    if texts == [] {
      EmptySpan(base);
      LastSpan("", base);
    } else {
      SpanOfText(texts[0], base);
      if |texts| == 1 {
        LastSpan(texts[0], base);
        assert PageSpans(texts[1..], base + |texts[0]| + 2) == [];
      } else {
        SpansAfterText(texts[0], PageText(texts[1..]), base);
        SpansOfLastPage(texts[1..], base + |texts[0]| + 2);
      }
    }
  }

  lemma {:induction false} SpansOfPage(texts: seq<string>, rest: string, base: int)
    requires forall q :: q in texts ==> TextOk(q)
    ensures SpansAt(PageText(texts) + "\n\n" + rest, base)
         == PageSpans(texts, base) + SpansAt(rest, base + |PageText(texts)| + 2)
    decreases |texts|
  {
    hide SpansAt, SpanOf, TextOk;
    if texts == [] {
      EmptySpan(base);
      SpansAfterText("", rest, base);
    } else {
      SpanOfText(texts[0], base);
      if |texts| == 1 {
        SpansAfterText(texts[0], rest, base);
        assert PageSpans(texts[1..], base + |texts[0]| + 2) == [];
      } else {
        var tail := PageText(texts[1..]) + "\n\n" + rest;
        assert PageText(texts) + "\n\n" + rest == texts[0] + "\n\n" + tail;
        SpansAfterText(texts[0], tail, base);
        SpansOfPage(texts[1..], rest, base + |texts[0]| + 2);
        Assoc([Span(texts[0], base, base + |texts[0]|)], PageSpans(texts[1..], base + |texts[0]| + 2),
              SpansAt(rest, base + |PageText(texts)| + 2));
      }
    }
  }

  lemma PageTextsCons(docs: seq<seq<string>>)
    requires docs != []
    ensures PageTextsOf(docs) == [PageText(docs[0])] + PageTextsOf(docs[1..])
    ensures |docs| > 1 ==>
      JoinPages(PageTextsOf(docs)) == PageText(docs[0]) + "\n\n" + JoinPages(PageTextsOf(docs[1..]))
    ensures |docs| == 1 ==> JoinPages(PageTextsOf(docs)) == PageText(docs[0])
  {
    hide PageText;
    assert PageTextsOf(docs)[1..] == PageTextsOf(docs[1..]);
  }

  lemma {:induction false} SpansOfDoc(docs: seq<seq<string>>, base: int)
    requires docs != [] && DocsOk(docs)
    ensures SpansAt(JoinPages(PageTextsOf(docs)), base) == DocSpans(docs, base)
    decreases |docs|
  {
    hide SpansAt, TextOk, PageTextsOf, JoinPages, PageText;
    PageTextsCons(docs);
    if |docs| == 1 {
      SpansOfLastPage(docs[0], base);
      assert DocSpans(docs[1..], base + |PageText(docs[0])| + 2) == [];
    } else {
      SpansOfPage(docs[0], JoinPages(PageTextsOf(docs[1..])), base);
      SpansOfDoc(docs[1..], base + |PageText(docs[0])| + 2);
    }
  }

  // ----- Trailing empty pages are trimmed away

  lemma NoSpans(base: int)
    ensures PageSpans([], base) == []
  {
  }

  lemma {:induction false} DocSpansSnocEmpty(docs: seq<seq<string>>, base: int)
    ensures DocSpans(docs + [[]], base) == DocSpans(docs, base)
    decreases |docs|
  {
    hide PageText, PageSpans;
    if docs == [] {
      assert docs + [[]] == [[]] && [[]][1..] == [] == docs;
      assert PageSpans([], base) == [] by { NoSpans(base); }
    } else {
      assert (docs + [[]])[1..] == docs[1..] + [[]];
      DocSpansSnocEmpty(docs[1..], base + |PageText(docs[0])| + 2);
    }
  }

  lemma JoinSnocEmpty(docs: seq<seq<string>>)
    requires docs != []
    ensures JoinPages(PageTextsOf(docs + [[]])) == JoinPages(PageTextsOf(docs)) + "\n\n"
  {
    assert PageTextsOf(docs + [[]]) == PageTextsOf(docs) + [""];
    JoinSnoc(PageTextsOf(docs), "", "\n\n");
  }

  lemma JoinedTrimmed(docs: seq<seq<string>>)
    requires docs != [] && DocsOk(docs) && docs[0] != [] && docs[|docs| - 1] != []
    ensures Trimmed(JoinPages(PageTextsOf(docs)))
  {
    hide TextOk, IsSpace;
    var first, last := docs[0], docs[|docs| - 1];
    PageTrimmed(first);
    PageTrimmed(last);
    if |docs| == 1 {
      PageTextsCons(docs);
    } else {
      var mid := PageTextsOf(docs)[..|docs| - 1];
      JoinSnoc(mid, PageText(last), "\n\n");
      PageTextsCons(docs);
      assert PageTextsOf(docs) == mid + [PageText(last)];
      EndsTrimmed(JoinPages(PageTextsOf(docs)), PageText(first), PageText(last));
    }
  }

  lemma EndsTrimmed(s: string, a: string, b: string)
    requires a != "" && b != "" && Trimmed(a) && Trimmed(b)
    requires |a| <= |s| && |b| <= |s| && s[..|a|] == a && s[|s| - |b|..] == b
    ensures Trimmed(s)
  {
    assert s[0] == a[0] && s[|s| - 1] == b[|b| - 1];
  }

  lemma {:induction false} SpansOfTrimmedDoc(docs: seq<seq<string>>)
    requires docs != [] && DocsOk(docs) && docs[0] != []
    ensures SpansAt(TrimSpace(JoinPages(PageTextsOf(docs))), 0) == DocSpans(docs, 0)
    decreases |docs|
  {
    hide TextOk, SpansAt, TrimSpace, JoinPages, PageTextsOf, DocSpans, Trimmed;
    if docs[|docs| - 1] == [] {
      var front := docs[..|docs| - 1];
      assert docs == front + [[]];
      SpansOfTrimmedDoc(front);
      DocSpansSnocEmpty(front, 0);
      JoinSnocEmpty(front);
      TrimDropsBreak(JoinPages(PageTextsOf(front)));
    } else {
      JoinedTrimmed(docs);
      TrimOfTrimmed(JoinPages(PageTextsOf(docs)));
      SpansOfDoc(docs, 0);
    }
  }

  // ----- The labels

  lemma {:induction false} StartGrows(pages: seq<string>, i: nat, j: nat)
    requires i <= j <= |pages|
    ensures StartOf(pages, i) + (if i < j then 2 else 0) <= StartOf(pages, j)
    decreases j
  {
    if i < j {
      StartGrows(pages, i, j - 1);
    }
  }

  lemma BoundsAscend(pages: seq<string>)
    ensures Ascending(Bounds(pages))
  {
    var b := Bounds(pages);
    hide StartOf;
    forall i, j | 0 <= i <= j < |b| ensures b[i] <= b[j] {
      StartGrows(pages, i, j);
    }
  }

  /** A non-empty span inside page `k` is labelled with that page at both ends. */
  lemma SpanOnPage(pages: seq<string>, k: nat, sp: Span)
    requires k < |pages| && StartOf(pages, k) <= sp.lo < sp.hi <= StartOf(pages, k) + |pages[k]|
    ensures PagesForSpan(Bounds(pages), sp) == (k + 1, k + 1)
  {
    BoundsAscend(pages);
    assert (var b := Bounds(pages); b[k] == StartOf(pages, k) && StartOf(pages, k) + |pages[k]| <= b[k + 1]);
    hide *;
    PagesForSpanIs(Bounds(pages), sp, k);
  }

  lemma PagesForSpanIs(bounds: seq<int>, sp: Span, k: nat)
    requires Ascending(bounds) && k + 1 < |bounds| && bounds[k] <= sp.lo < sp.hi <= bounds[k + 1]
    ensures PagesForSpan(bounds, sp) == (k + 1, k + 1)
  {
    PageIndexFinds(bounds, sp.lo, k);
    PageIndexFinds(bounds, sp.hi - 1, k);
    hide Ascending, PageIndex;
  }

  lemma PageTextStarts(texts: seq<string>)
    requires texts != []
    ensures |PageText(texts)| == |texts[0]| + if |texts| > 1 then 2 + |PageText(texts[1..])| else 0
  {
  }

  lemma SomeText(q: string)
    requires TextOk(q)
    ensures |q| > 0
  {
  }

  lemma {:induction false} LabelsOfPage(pages: seq<string>, k: nat, texts: seq<string>, base: int)
    requires k < |pages| && (forall q :: q in texts ==> TextOk(q))
    requires StartOf(pages, k) <= base && base + |PageText(texts)| <= StartOf(pages, k) + |pages[k]|
    ensures Labelled(PageSpans(texts, base), Bounds(pages)) == PageBlocks(texts, k + 1)
    decreases |texts|
  {
    hide StartOf, Bounds, PagesForSpan, TextOk, PageText;
    if texts != [] {
      var first, rest := Span(texts[0], base, base + |texts[0]|), PageSpans(texts[1..], base + |texts[0]| + 2);
      PageTextStarts(texts);
      assert TextOk(texts[0]) by { assert texts[0] in texts; }
      SomeText(texts[0]);
      SpanOnPage(pages, k, first);
      if |texts| > 1 {
        LabelsOfPage(pages, k, texts[1..], base + |texts[0]| + 2);
      } else {
        assert texts[1..] == [];
      }
      assert ([first] + rest)[1..] == rest;
    }
  }

  lemma {:induction false} LabelsOfDoc(all: seq<seq<string>>, k: nat)
    requires k <= |all| && DocsOk(all)
    ensures var pages := PageTextsOf(all);
            Labelled(DocSpans(all[k..], StartOf(pages, k)), Bounds(pages)) == DocBlocks(all[k..], k + 1)
    decreases |all| - k
  {
    hide TextOk, Bounds, PageText;
    var pages := PageTextsOf(all);
    if k < |all| {
      LabelsOfPage(pages, k, all[k], StartOf(pages, k));
      LabelsOfDoc(all, k + 1);
      assert all[k..][1..] == all[k + 1..];
      LabelledAppend(PageSpans(all[k], StartOf(pages, k)), DocSpans(all[k + 1..], StartOf(pages, k + 1)), Bounds(pages));
    }
  }

  // ----- Main results

  ghost predicate AllEmpty(docs: seq<seq<string>>) {
    forall k :: 0 <= k < |docs| ==> docs[k] == []
  }

  /** The splitter gives every paragraph the page it came from, in order, exactly when the first page
      has text or no page has any: leading empty pages shift the offsets. */
  lemma LabelsAreRightIff(docs: seq<seq<string>>)
    requires docs != [] && DocsOk(docs)
    ensures LabelledBlocks(PageTextsOf(docs)) == DocBlocks(docs, 1) <==> docs[0] != [] || AllEmpty(docs)
  {
    hide TextOk, LabelledBlocks, DocBlocks;
    if docs[0] != [] {
      LabelsRight(docs);
    } else if AllEmpty(docs) {
      LabelsOfEmptyDoc(docs);
    } else {
      LabelsShift(docs);
    }
  }

  lemma LabelsRight(docs: seq<seq<string>>)
    requires docs != [] && DocsOk(docs) && docs[0] != []
    ensures LabelledBlocks(PageTextsOf(docs)) == DocBlocks(docs, 1)
  {
    hide SpansAt, TrimSpace, DocsOk, DocSpans, Bounds, PageTextsOf, DocBlocks, Labelled;
    SpansOfTrimmedDoc(docs);
    LabelsOfDoc(docs, 0);
    assert docs[0..] == docs;
  }

  lemma {:induction false} BlocksOfEmptyDoc(docs: seq<seq<string>>, page: int)
    requires AllEmpty(docs)
    ensures DocBlocks(docs, page) == [] && Blank(JoinPages(PageTextsOf(docs)))
    decreases |docs|
  {
    if docs != [] {
      BlocksOfEmptyDoc(docs[1..], page + 1);
      PageTextsCons(docs);
    }
  }

  lemma LabelsOfEmptyDoc(docs: seq<seq<string>>)
    requires AllEmpty(docs)
    ensures LabelledBlocks(PageTextsOf(docs)) == DocBlocks(docs, 1)
  {
    BlocksOfEmptyDoc(docs, 1);
    hide JoinPages, PageTextsOf, TrimSpace, Blank;
    TrimBlank(JoinPages(PageTextsOf(docs)));
    BlankSpan();
  }

  lemma {:induction false} BlocksStartLater(docs: seq<seq<string>>, page: int)
    requires docs != [] && !AllEmpty(docs)
    ensures var b := DocBlocks(docs, page); b != [] && b[0].lo >= if docs[0] == [] then page + 1 else page
    decreases |docs|
  {
    if docs[0] == [] {
      BlocksStartLater(docs[1..], page + 1);
    }
  }

  lemma {:induction false} JoinNotBlank(docs: seq<seq<string>>)
    requires docs != [] && DocsOk(docs) && !AllEmpty(docs)
    ensures !Blank(JoinPages(PageTextsOf(docs)))
    decreases |docs|
  {
    hide TextOk, IsSpace, PageTextsOf, JoinPages;
    PageTextsCons(docs);
    if docs[0] != [] {
      PageTrimmed(docs[0]);
      assert JoinPages(PageTextsOf(docs))[0] == PageText(docs[0])[0];
    } else {
      JoinNotBlank(docs[1..]);
      var tail := JoinPages(PageTextsOf(docs[1..]));
      var i :| 0 <= i < |tail| && !IsSpace(tail[i]);
      assert JoinPages(PageTextsOf(docs))[i + 2] == tail[i];
    }
  }

  /** With an empty first page and text further on, the first paragraph is labelled with page 1. */
  lemma LabelsShift(docs: seq<seq<string>>)
    requires docs != [] && DocsOk(docs) && docs[0] == [] && !AllEmpty(docs)
    ensures LabelledBlocks(PageTextsOf(docs)) != DocBlocks(docs, 1)
    ensures LabelledBlocks(PageTextsOf(docs)) != [] && LabelledBlocks(PageTextsOf(docs))[0].lo == 1
  {
    var pages := PageTextsOf(docs);
    var s := TrimSpace(JoinPages(pages));
    BlocksStartLater(docs, 1);
    JoinNotBlank(docs);
    TrimBlank(JoinPages(pages));
    hide TextOk, TrimSpace, Blank, JoinPages;
    assert SpansAt(s, 0) != [] && SpansAt(s, 0)[0].lo == 0 by {
      var i := Index(s, "\n\n");
      if i >= 0 {
        assert i > 0 by { if i == 0 { BreakIs(s, 0); } }
        assert s[..i][0] == s[0];
      }
    }
    assert (var b := Bounds(PageTextsOf(docs)); |b| > 2 && b[0] == 0 && b[1] == 2) by {
      assert |docs| > 1;
      assert StartOf(PageTextsOf(docs), 1) == 2;
    }
    BoundsAscend(pages);
    hide SpansAt, Bounds, PageTextsOf, DocBlocks, StartOf, Ascending, AllEmpty;
    FirstLabel(SpansAt(s, 0), Bounds(pages));
  }

  lemma FirstLabel(spans: seq<Span>, bounds: seq<int>)
    requires spans != [] && spans[0].lo == 0 && |bounds| > 2 && bounds[0] == 0 && bounds[1] > 0
    requires Ascending(bounds)
    ensures Labelled(spans, bounds)[0].lo == 1
  {
    PageIndexFinds(bounds, 0, 0);
    hide PageIndex, Ascending;
  }
}
