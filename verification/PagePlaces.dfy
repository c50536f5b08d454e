/** Where pages and paragraphs stand in the joined text of a PDF: the meaning of the rune offsets that
    pkg/document/extract.go and pkg/rag/splitter.go pass on. */
module PagePlaces {
  import opened Runes
  import opened PdfPages

  ghost predicate StandsAt(s: string, part: string, i: int) {
    0 <= i && i + |part| <= |s| && s[i..i + |part|] == part
  }

  lemma StandsBetween(a: string, part: string, b: string)
    ensures StandsAt(a + part + b, part, |a|)
  {
    assert a + part + b == a + (part + b);
  }

  // ----- Pages

  lemma {:induction false} StartIsLength(pages: seq<string>, k: nat)
    requires 0 < k <= |pages|
    ensures StartOf(pages, k) == |JoinPages(pages[..k])| + 2
  {
    assert pages[..k] == pages[..k - 1] + [pages[k - 1]];
    JoinSnoc(pages[..k - 1], pages[k - 1], "\n\n");
    hide Join;
    if k > 1 {
      StartIsLength(pages, k - 1);
    }
  }

  /** Page `k` stands at its bound, two runes behind the page before it, and the last bound is the length of the
      joined text. */
  lemma BoundsAreStarts(pages: seq<string>, k: nat)
    requires k < |pages|
    ensures StandsAt(JoinPages(pages), pages[k], Bounds(pages)[k])
    ensures Bounds(pages)[0] == 0 && Bounds(pages)[|pages|] == |JoinPages(pages)|
    ensures k > 0 ==> Bounds(pages)[k] == Bounds(pages)[k - 1] + |pages[k - 1]| + 2
  {
    PageStands(pages, k);
    StartIsLength(pages, |pages|);
    assert pages[..|pages|] == pages;
    hide Join;
  }

  lemma PageAfter(pages: seq<string>, k: nat)
    requires k < |pages|
    ensures var head := if k == 0 then "" else JoinPages(pages[..k]) + "\n\n";
            |head| == StartOf(pages, k) && JoinPages(pages[..k + 1]) == head + pages[k]
  {
    hide Join;
    JoinSnoc(pages[..k], pages[k], "\n\n");
    assert pages[..k] + [pages[k]] == pages[..k + 1];
    if k > 0 {
      StartIsLength(pages, k);
    }
  }

  lemma PageStands(pages: seq<string>, k: nat)
    requires k < |pages|
    ensures StandsAt(JoinPages(pages), pages[k], StartOf(pages, k))
  {
    hide Join, StandsAt;
    var a := JoinPages(pages[..k]);
    var head := if k == 0 then "" else a + "\n\n";
    PageAfter(pages, k);
    if k + 1 < |pages| {
      JoinAppend(pages[..k + 1], pages[k + 1..], "\n\n");
      Halves(pages, k + 1);
      StandsBetween(head, pages[k], "\n\n" + JoinPages(pages[k + 1..]));
      Assoc(head + pages[k], "\n\n", JoinPages(pages[k + 1..]));
    } else {
      assert pages[..k + 1] == pages;
      StandsBetween(head, pages[k], "");
      assert head + pages[k] + "" == head + pages[k];
    }
  }

  /** The page that holds offset `r`: it has begun at `r`, unless it is the first, and the next one has not, unless it
      is the last. */
  predicate Holds(bounds: seq<int>, r: int, page: int) {
    && 1 <= page < |bounds|
    && (page > 1 ==> bounds[page - 1] <= r) && (page < |bounds| - 1 ==> r < bounds[page])
  }

  /** Every offset, inside the text or outside, has the only page that holds it; without bounds, page one. */
  lemma PageIs(bounds: seq<int>, r: int)
    requires Ascending(bounds)
    ensures |bounds| < 2 ==> PageIndex(bounds, r) == 1
    ensures |bounds| >= 2 ==> forall page :: page == PageIndex(bounds, r) <==> Holds(bounds, r, page)
  {
    if |bounds| >= 2 {
      var n := |bounds| - 1;
      if bounds[0] <= r < bounds[n] {
        var k := Interval(bounds, r, n);
        PageIndexFinds(bounds, r, k);
      }
    }
  }

  lemma {:induction false} Interval(bounds: seq<int>, r: int, n: nat) returns (k: nat)
    requires 0 < n < |bounds| && bounds[0] <= r < bounds[n]
    ensures k < n && bounds[k] <= r < bounds[k + 1]
  {
    if bounds[n - 1] <= r {
      k := n - 1;
    } else {
      k := Interval(bounds, r, n - 1);
    }
  }

  /** The pages of a span are those of its first and its last rune; an empty span is on page one. */
  lemma SpanPages(bounds: seq<int>, sp: Span)
    ensures sp.hi <= sp.lo ==> PagesForSpan(bounds, sp) == (1, 1)
    ensures |bounds| < 2 ==> PagesForSpan(bounds, sp) == (1, 1)
    ensures |bounds| >= 2 && sp.lo < sp.hi && Ascending(bounds) ==>
              Holds(bounds, sp.lo, PagesForSpan(bounds, sp).0) && Holds(bounds, sp.hi - 1, PagesForSpan(bounds, sp).1)
  {
    hide PageIndex, Holds, Ascending;
    if Ascending(bounds) {
      PageIs(bounds, sp.lo);
      PageIs(bounds, sp.hi - 1);
    }
  }

  // ----- Paragraphs

  ghost predicate SpanStands(sp: Span, s: string, base: int) {
    sp.hi == sp.lo + |sp.text| && StandsAt(s, sp.text, sp.lo - base)
  }

  lemma {:induction false} DropLeftIsEnd(s: string)
    ensures StandsAt(s, DropLeft(s), |s| - |DropLeft(s)|)
  {
    if s != "" && IsPlainSpace(s[0]) {
      DropLeftIsEnd(s[1..]);
    }
  }

  lemma {:induction false} DropRightIsStart(s: string)
    ensures DropRight(s) <= s
  {
    if s != "" && IsPlainSpace(s[|s| - 1]) {
      DropRightIsStart(s[..|s| - 1]);
    }
  }

  lemma SpanStandsIn(para: string, base: int)
    ensures forall sp :: sp in SpanOf(para, base) ==> SpanStands(sp, para, base)
  {
    DropLeftIsEnd(para);
    DropRightIsStart(DropLeft(para));
    hide DropLeft, DropRight, Blank;
    var left := |para| - |DropLeft(para)|;
    var text := DropRight(DropLeft(para));
    assert para[left..] == DropLeft(para);
    assert para[left..left + |text|] == DropLeft(para)[..|text|];
  }

  lemma StandsInPart(s: string, from: nat, to: nat, part: string, i: int)
    requires from <= to <= |s| && StandsAt(s[from..to], part, i)
    ensures StandsAt(s, part, from + i)
  {
    var p, j := s[from..to], i + |part|;
    assert forall k :: i <= k < j ==> p[k] == s[from + k];
    assert p[i..j] == s[from + i..from + j];
  }

  lemma SpanInRest(sp: Span, s: string, k: nat, base: int)
    requires k <= |s| && SpanStands(sp, s[k..], base + k)
    ensures SpanStands(sp, s, base)
  {
    assert s[k..|s|] == s[k..];
    StandsInPart(s, k, |s|, sp.text, sp.lo - (base + k));
  }

  lemma SpanInFirst(sp: Span, s: string, k: nat, base: int)
    requires k <= |s| && SpanStands(sp, s[..k], base)
    ensures SpanStands(sp, s, base)
  {
    assert s[0..k] == s[..k];
    StandsInPart(s, 0, k, sp.text, sp.lo - base);
  }

  lemma SpansAtIs(s: string, base: int)
    ensures var i := Index(s, "\n\n");
            SpansAt(s, base) == if i < 0 then SpanOf(s, base) else SpanOf(s[..i], base) + SpansAt(s[i + 2..], base + (i + 2))
  {
    hide SpanOf;
  }

  /** Every paragraph of any text stands in it from its first to its last offset. */
  lemma {:induction false} ParagraphsStand(s: string, base: int)
    ensures forall sp :: sp in SpansAt(s, base) ==> SpanStands(sp, s, base)
    decreases |s|
  {
    hide SpanOf, SpanStands, SpansAt;
    SpansAtIs(s, base);
    var i := Index(s, "\n\n");
    if i < 0 {
      SpanStandsIn(s, base);
    } else {
      SpanStandsIn(s[..i], base);
      ParagraphsStand(s[i + 2..], base + (i + 2));
      forall sp | sp in SpansAt(s, base)
        ensures SpanStands(sp, s, base)
      {
        if sp in SpanOf(s[..i], base) {
          SpanInFirst(sp, s, i, base);
        } else {
          SpanInRest(sp, s, i + 2, base);
        }
      }
    }
  }
}
