/** NormalizeExtractedText of pkg/document/normalize.go: trimmed lines, paragraphs separated by exactly
    one blank line. */
module Normalize {
  import opened Runes

  function ReplaceAll(s: string, old_: string, new_: string): string
    requires old_ != ""
  {
    Join(Split(s, old_), new_)
  }

  /** Both line endings become '\n'. */
  function Unix(s: string): string {
    ReplaceAll(ReplaceAll(s, "\r\n", "\n"), "\r", "\n")
  }

  /** Paragraphs closed so far, and the raw lines of the open one. */
  datatype Reading = Reading(paras: seq<seq<string>>, cur: seq<string>)

  function FlushPara(st: Reading): Reading {
    var trimmed := TrimmedNonBlank(st.cur);
    Reading(if trimmed == [] then st.paras else st.paras + [trimmed], [])
  }

  function ReadLine(st: Reading, line: string): Reading {
    if TrimSpace(line) == "" then FlushPara(st) else Reading(st.paras, st.cur + [line])
  }

  function ReadLines(st: Reading, lines: seq<string>): Reading
    decreases |lines|
  {
    if lines == [] then st else ReadLines(ReadLine(st, lines[0]), lines[1..])
  }

  /** The paragraphs of a text, each a list of trimmed lines. */
  function ParagraphLines(s: string): seq<seq<string>> {
    FlushPara(ReadLines(Reading([], []), Split(Unix(s), "\n"))).paras
  }

  function ParaTexts(paras: seq<seq<string>>): seq<string> {
    seq(|paras|, i requires 0 <= i < |paras| => Join(paras[i], "\n"))
  }

  function NormalizeText(s: string): string {
    TrimSpace(Join(ParaTexts(ParagraphLines(s)), "\n\n"))
  }

  method ComputeNormalize(s: string) returns (r: string)
    ensures r == NormalizeText(s)
  {
    hide *;
    var lines := Split(Unix(s), "\n");
    var paras := ReadParagraphs(lines);
    var b := RenderPage(paras);
    r := TrimSpace(b);
    NormalizeIs(s, paras);
  }

  lemma NormalizeIs(s: string, paras: seq<seq<string>>)
    requires Reading(paras, []) == FlushPara(ReadLines(Reading([], []), Split(Unix(s), "\n")))
    ensures NormalizeText(s) == TrimSpace(Join(ParaTexts(paras), "\n\n"))
  {
  }

  method ReadParagraphs(lines: seq<string>) returns (paras: seq<seq<string>>)
    ensures Reading(paras, []) == FlushPara(ReadLines(Reading([], []), lines))
  {
    hide ReadLine, FlushPara;
    var cur;
    paras, cur := [], [];
    for i := 0 to |lines|
      invariant ReadLines(Reading(paras, cur), lines[i..]) == ReadLines(Reading([], []), lines)
    {
      paras, cur := AddLine(paras, cur, lines[i]);
      assert lines[i..][1..] == lines[i + 1..];
    }
    paras := ClosePara(paras, cur);
  }

  method RenderPage(paras: seq<seq<string>>) returns (b: string)
    ensures b == Join(ParaTexts(paras), "\n\n")
  {
    NoJoin("\n\n");
    hide Join;
    assert ParaTexts(paras[..0]) == [];
    b := "";
    for i := 0 to |paras|
      invariant b == Join(ParaTexts(paras[..i]), "\n\n")
    {
      ParaTextsSnoc(paras, i);
      if i > 0 {
        b := b + "\n\n";
      }
      b := b + Join(paras[i], "\n");
    }
    assert paras[..|paras|] == paras;
  }

  lemma ParaTextsSnoc(paras: seq<seq<string>>, i: nat)
    requires i < |paras|
    ensures var t := ParaTexts(paras[..i]);
            Join(ParaTexts(paras[..i + 1]), "\n\n") ==
              if i == 0 then Join(paras[i], "\n") else Join(t, "\n\n") + "\n\n" + Join(paras[i], "\n")
  {
    hide Join;
    assert ParaTexts(paras[..i + 1]) == ParaTexts(paras[..i]) + [Join(paras[i], "\n")];
    JoinSnoc(ParaTexts(paras[..i]), Join(paras[i], "\n"), "\n\n");
  }

  method ClosePara(paras0: seq<seq<string>>, cur: seq<string>) returns (paras: seq<seq<string>>)
    ensures Reading(paras, []) == FlushPara(Reading(paras0, cur))
  {
    hide Kept;
    paras := paras0;
    var trimmed := [];
    for i := 0 to |cur|
      invariant trimmed == TrimmedNonBlank(cur[..i])
    {
      assert cur[..i + 1] == cur[..i] + [cur[i]];
      FlatMapSnoc(Kept, cur[..i], cur[i]);
      trimmed := trimmed + Kept(cur[i]);
    }
    assert cur[..|cur|] == cur;
    if |trimmed| > 0 {
      paras := paras + [trimmed];
    }
  }

  method AddLine(paras0: seq<seq<string>>, cur0: seq<string>, line: string)
    returns (paras: seq<seq<string>>, cur: seq<string>)
    ensures Reading(paras, cur) == ReadLine(Reading(paras0, cur0), line)
  {
    hide TrimSpace, FlushPara;
    if TrimSpace(line) == "" {
      paras := ClosePara(paras0, cur0);
      cur := [];
    } else {
      paras, cur := paras0, cur0 + [line];
    }
  }

  // ----- The shape of the result

  predicate LineOk(line: string) {
    line != "" && Trimmed(line) && '\n' !in line && '\r' !in line
  }

  predicate ParaOk(para: seq<string>) {
    para != [] && forall line :: line in para ==> LineOk(line)
  }

  predicate Plain(lines: seq<string>) {
    forall line :: line in lines ==> '\n' !in line && '\r' !in line
  }

  lemma TrimStays(s: string, c: char)
    requires c !in s
    ensures c !in TrimSpace(s)
  {
    var a, b := TrimSplits(s);
  }

  lemma {:induction false} TrimmedLinesOk(lines: seq<string>)
    requires Plain(lines)
    ensures forall line :: line in TrimmedNonBlank(lines) ==> LineOk(line)
  {
    if lines != [] {
      TrimmedLinesOk(lines[1..]);
      TrimStays(lines[0], '\n');
      TrimStays(lines[0], '\r');
      KeptWritten(lines[0]);
    }
  }

  ghost predicate ReadingOk(st: Reading) {
    Plain(st.cur) && forall p :: p in st.paras ==> ParaOk(p)
  }

  lemma FlushParaOk(st: Reading)
    requires ReadingOk(st)
    ensures ReadingOk(FlushPara(st))
  {
    hide LineOk, TrimmedNonBlank;
    TrimmedLinesOk(st.cur);
  }

  lemma {:induction false} ReadLinesOk(st: Reading, lines: seq<string>)
    requires ReadingOk(st) && Plain(lines)
    ensures ReadingOk(ReadLines(st, lines))
    decreases |lines|
  {
    if lines != [] {
      hide TrimSpace, FlushPara, ParaOk;
      FlushParaOk(st);
      ReadLinesOk(ReadLine(st, lines[0]), lines[1..]);
    }
  }

  lemma {:induction false} JoinAvoids(parts: seq<string>, sep: string, c: char)
    requires c !in sep && forall part :: part in parts ==> c !in part
    ensures c !in Join(parts, sep)
  {
    if |parts| > 1 {
      JoinAvoids(parts[1..], sep, c);
    }
  }

  lemma UnixLines(s: string)
    ensures Plain(Split(Unix(s), "\n"))
  {
    var t := ReplaceAll(s, "\r\n", "\n");
    SplitOfOneRuneParts(t, '\r');
    JoinAvoids(Split(t, "\r"), "\n", '\r');
    SplitOfOneRuneParts(Unix(s), '\n');
    SplitAvoids(Unix(s), "\n", '\r');
  }

  lemma {:induction false} SplitAvoids(s: string, sep: string, c: char)
    requires sep != "" && c !in s
    ensures forall part :: part in Split(s, sep) ==> c !in part
    decreases |s|
  {
    var i := Index(s, sep);
    if i >= 0 {
      SplitAvoids(s[i + |sep|..], sep, c);
    }
  }

  /** Every paragraph has a line, and every line is trimmed, non-empty and free of line breaks. */
  lemma ParagraphsOk(s: string)
    ensures forall p :: p in ParagraphLines(s) ==> ParaOk(p)
  {
    hide ReadLines, FlushPara, ParaOk, Unix, Split, Plain;
    assert Plain([]) by { NoLines(); }
    UnixLines(s);
    ReadLinesOk(Reading([], []), Split(Unix(s), "\n"));
    FlushParaOk(ReadLines(Reading([], []), Split(Unix(s), "\n")));
  }

  lemma NoLines()
    ensures Plain([])
  {
  }

  // ----- Paragraph and page texts

  predicate NoBlankLine(q: string) {
    forall j :: 0 <= j < |q| - 1 ==> !(q[j] == '\n' && q[j + 1] == '\n')
  }

  /** The text of a paragraph inside a normalized page. */
  predicate TextOk(q: string) {
    q != "" && Trimmed(q) && NoBlankLine(q) && '\r' !in q
  }

  lemma LineIsText(line: string)
    requires LineOk(line)
    ensures TextOk(line)
  {
    assert forall j :: 0 <= j < |line| ==> line[j] in line;
  }

  lemma LineThenText(line: string, q: string)
    requires LineOk(line) && TextOk(q)
    ensures TextOk(line + "\n" + q)
  {
    var s := line + "\n" + q;
    assert forall j :: 0 <= j < |line| ==> s[j] == line[j] && line[j] in line;
    assert s[|line| + 1] == q[0] && s[|s| - 1] == q[|q| - 1];
    forall j | 0 <= j < |s| - 1 ensures !(s[j] == '\n' && s[j + 1] == '\n') {
      if j > |line| {
        assert s[j] == q[j - |line| - 1] && s[j + 1] == q[j - |line|];
      }
    }
  }

  lemma {:induction false} ParaTextOk(para: seq<string>)
    requires ParaOk(para)
    ensures TextOk(Join(para, "\n"))
  {
    hide LineOk, TextOk;
    if |para| == 1 {
      LineIsText(para[0]);
    } else {
      ParaTextOk(para[1..]);
      LineThenText(para[0], Join(para[1..], "\n"));
    }
  }

  lemma {:induction false} PageTrimmed(texts: seq<string>)
    requires texts != [] && forall q :: q in texts ==> TextOk(q)
    ensures Join(texts, "\n\n") != "" && Trimmed(Join(texts, "\n\n"))
  {
    hide IsSpace;
    assert TextOk(texts[0]) by { assert texts[0] in texts; }
    if |texts| > 1 {
      PageTrimmed(texts[1..]);
      var tail := Join(texts[1..], "\n\n");
      var s := texts[0] + "\n\n" + tail;
      assert s[0] == texts[0][0] && s[|s| - 1] == tail[|tail| - 1];
    }
  }

  /** The paragraph texts of the normalized form of `s`. */
  function PageTexts(s: string): seq<string> {
    ParaTexts(ParagraphLines(s))
  }

  lemma PageTextsOk(s: string)
    ensures forall q :: q in PageTexts(s) ==> TextOk(q)
    ensures NormalizeText(s) == Join(PageTexts(s), "\n\n")
  {
    hide TextOk, ParagraphLines, Join, ParaOk, TrimSpace;
    var paras := ParagraphLines(s);
    ParagraphsOk(s);
    forall i | 0 <= i < |paras| ensures TextOk(PageTexts(s)[i]) {
      ParaTextOk(paras[i]);
    }
    NoJoin("\n\n");
    if PageTexts(s) != [] {
      PageTrimmed(PageTexts(s));
    }
    TrimOfTrimmed(Join(PageTexts(s), "\n\n"));
  }

  lemma NoJoin(sep: string)
    ensures Join([], sep) == ""
  {
  }

  // ----- Normalization keeps the ink

  lemma SplitKeepsInk(s: string, sep: string)
    requires sep != "" && Blank(sep)
    ensures InkAll(Split(s, sep)) == Ink(s)
  {
    hide *;
    SplitThenJoin(s, sep);
    InkJoin(Split(s, sep), sep);
  }

  lemma ReplaceKeepsInk(s: string, a: string, b: string)
    requires a != "" && Blank(a) && Blank(b)
    ensures Ink(ReplaceAll(s, a, b)) == Ink(s)
  {
    hide Ink, InkAll, Blank, Split, Join;
    SplitKeepsInk(s, a);
    InkJoin(Split(s, a), b);
  }

  ghost function InkOf(st: Reading): string {
    InkAll(ParaTexts(st.paras)) + InkAll(st.cur)
  }

  lemma FlushKeepsInk(st: Reading)
    ensures InkOf(FlushPara(st)) == InkOf(st)
  {
    hide TrimmedNonBlank, InkAll, Join;
    var trimmed := TrimmedNonBlank(st.cur);
    InkTrimmedNonBlank(st.cur);
    NoInk();
    if trimmed != [] {
      assert ParaTexts(st.paras + [trimmed]) == ParaTexts(st.paras) + [Join(trimmed, "\n")];
      InkAllAppend(ParaTexts(st.paras), [Join(trimmed, "\n")]);
      InkOne(Join(trimmed, "\n"));
      InkBlank("\n");
      InkJoin(trimmed, "\n");
    }
  }

  lemma NoInk()
    ensures InkAll([]) == ""
  {
  }

  lemma InkOne(s: string)
    ensures InkAll([s]) == Ink(s)
  {
    assert InkAll([s]) == Ink(s) + InkAll([s][1..]);
  }

  lemma ReadLineKeepsInk(st: Reading, line: string)
    ensures InkOf(ReadLine(st, line)) == InkOf(st) + Ink(line)
  {
    hide FlushPara, TrimSpace, InkAll, Ink, ParaTexts;
    FlushKeepsInk(st);
    InkTrim(line);
    InkBlank("");
    InkOne(line);
    InkAllAppend(st.cur, [line]);
    Assoc(InkAll(ParaTexts(st.paras)), InkAll(st.cur), Ink(line));
  }

  lemma {:induction false} ReadLinesKeepInk(st: Reading, lines: seq<string>)
    ensures InkOf(ReadLines(st, lines)) == InkOf(st) + InkAll(lines)
    decreases |lines|
  {
    hide InkOf, ReadLine, Ink;
    if lines == [] {
      NoInk();
    } else {
      ReadLineKeepsInk(st, lines[0]);
      ReadLinesKeepInk(ReadLine(st, lines[0]), lines[1..]);
      Assoc(InkOf(st), Ink(lines[0]), InkAll(lines[1..]));
    }
  }

  /** Normalization drops white space only. */
  lemma NormalizeKeepsInk(s: string)
    ensures Ink(NormalizeText(s)) == Ink(s)
  {
    var lines := Split(Unix(s), "\n");
    ReadLinesKeepInk(Reading([], []), lines);
    FlushKeepsInk(ReadLines(Reading([], []), lines));
    UnixKeepsInk(s);
    assert InkOf(Reading([], [])) == "";
    InkBlank("\n\n");
    assert Blank("\n\n") && Blank("\n");
    hide Ink, InkAll, ReadLines, FlushPara, Unix, Split, TrimSpace, Join, Blank;
    SplitKeepsInk(Unix(s), "\n");
    InkTrim(Join(PageTexts(s), "\n\n"));
    InkJoin(PageTexts(s), "\n\n");
    FlushedInk(ReadLines(Reading([], []), lines));
  }

  lemma FlushedInk(st: Reading)
    ensures InkOf(FlushPara(st)) == InkAll(ParaTexts(FlushPara(st).paras))
  {
  }

  lemma UnixKeepsInk(s: string)
    ensures Ink(Unix(s)) == Ink(s)
  {
    assert Blank("\r\n") && Blank("\r") && Blank("\n");
    hide Ink, ReplaceAll, Blank;
    ReplaceKeepsInk(s, "\r\n", "\n");
    ReplaceKeepsInk(ReplaceAll(s, "\r\n", "\n"), "\r", "\n");
  }

  // ----- Normalization is idempotent

  /** The lines of a page text: paragraphs separated by one empty line. */
  function PageLines(paras: seq<seq<string>>): seq<string> {
    if paras == [] then [""]
    else if |paras| == 1 then paras[0]
    else paras[0] + [""] + PageLines(paras[1..])
  }

  lemma {:induction false} PageLinesJoin(paras: seq<seq<string>>)
    requires forall p :: p in paras ==> ParaOk(p)
    ensures PageLines(paras) != [] && Join(PageLines(paras), "\n") == Join(ParaTexts(paras), "\n\n")
    ensures Plain(PageLines(paras))
  {
    hide Trimmed;
    if |paras| == 0 {
      assert ParaTexts(paras) == [];
    } else if |paras| == 1 {
      assert ParaTexts(paras) == [Join(paras[0], "\n")];
      assert ParaOk(paras[0]) by { assert paras[0] in paras; }
      assert Plain(paras[0]);
    } else {
      PageLinesJoin(paras[1..]);
      hide Join, LineOk;
      var p, rest := paras[0], PageLines(paras[1..]);
      JoinAppend(p + [""], rest, "\n");
      JoinSnoc(p, "", "\n");
      assert ParaTexts(paras) == [Join(p, "\n")] + ParaTexts(paras[1..]);
      JoinCons(Join(p, "\n"), ParaTexts(paras[1..]), "\n\n");
      assert Join(p, "\n") + "\n" + "" + "\n" == Join(p, "\n") + "\n\n";
      assert Plain(p);
    }
  }

  lemma JoinCons(x: string, xs: seq<string>, sep: string)
    requires xs != []
    ensures Join([x] + xs, sep) == x + sep + Join(xs, sep)
  {
    assert ([x] + xs)[1..] == xs;
  }

  lemma {:induction false} ReadLinesAppend(st: Reading, a: seq<string>, b: seq<string>)
    ensures ReadLines(st, a + b) == ReadLines(ReadLines(st, a), b)
    decreases |a|
  {
    hide ReadLine;
    if a == [] {
      assert a + b == b;
    } else {
      assert (a + b)[1..] == a[1..] + b;
      ReadLinesAppend(ReadLine(st, a[0]), a[1..], b);
    }
  }

  lemma {:induction false} ReadPara(st: Reading, p: seq<string>)
    requires forall line :: line in p ==> LineOk(line)
    ensures ReadLines(st, p) == Reading(st.paras, st.cur + p)
    decreases |p|
  {
    hide TrimSpace;
    if p == [] {
      assert st.cur + p == st.cur;
    } else {
      assert LineOk(p[0]) by { assert p[0] in p; }
      TrimOfTrimmed(p[0]);
      ReadPara(Reading(st.paras, st.cur + [p[0]]), p[1..]);
      assert st.cur + p == st.cur + [p[0]] + p[1..];
    }
  }

  lemma {:induction false} TrimmedParaStays(p: seq<string>)
    requires forall line :: line in p ==> LineOk(line)
    ensures TrimmedNonBlank(p) == p
  {
    hide TrimSpace;
    if p != [] {
      assert LineOk(p[0]) by { assert p[0] in p; }
      TrimOfTrimmed(p[0]);
      TrimmedParaStays(p[1..]);
    }
  }

  lemma ClosedPara(done: seq<seq<string>>, p: seq<string>)
    requires ParaOk(p)
    ensures FlushPara(ReadLines(Reading(done, []), p)) == Reading(done + [p], [])
  {
    hide LineOk, TrimmedNonBlank, ReadLines;
    ReadPara(Reading(done, []), p);
    assert [] + p == p;
    TrimmedParaStays(p);
  }

  lemma {:induction false} ReadPage(done: seq<seq<string>>, paras: seq<seq<string>>)
    requires forall p :: p in paras ==> ParaOk(p)
    ensures FlushPara(ReadLines(Reading(done, []), PageLines(paras))).paras == done + paras
    decreases |paras|
  {
    hide ParaOk, ReadLines, FlushPara, TrimSpace;
    if |paras| == 0 {
      EmptyLine(done);
    } else {
      assert ParaOk(paras[0]) by { assert paras[0] in paras; }
      ClosedPara(done, paras[0]);
      if |paras| > 1 {
        var p, rest := paras[0], PageLines(paras[1..]);
        Assoc(p, [""], rest);
        ReadLinesAppend(Reading(done, []), p, [""] + rest);
        ReadEmptyLine(ReadLines(Reading(done, []), p), rest);
        ReadPage(done + [p], paras[1..]);
        assert done + [p] + paras[1..] == done + paras;
      }
    }
  }

  lemma EmptyLine(done: seq<seq<string>>)
    ensures FlushPara(ReadLines(Reading(done, []), [""])).paras == done
  {
    TrimOfTrimmed("");
    assert ReadLines(FlushPara(Reading(done, [])), [""][1..]) == Reading(done, []);
  }

  lemma ReadEmptyLine(st: Reading, rest: seq<string>)
    ensures ReadLines(st, [""] + rest) == ReadLines(FlushPara(st), rest)
  {
    TrimOfTrimmed("");
    hide TrimSpace, FlushPara;
    assert ([""] + rest)[1..] == rest;
  }

  lemma {:induction false} SplitWithout(s: string, sep: string, c: char)
    requires sep != "" && c in sep && c !in s
    ensures Split(s, sep) == [s]
  {
    hide OccursAt;
    var i := Index(s, sep);
    if i >= 0 {
      OccursHas(s, sep, i, c);
    }
  }

  lemma OccursHas(s: string, sub: string, i: int, c: char)
    requires OccursAt(s, sub, i) && c in sub
    ensures c in s
  {
    assert forall x :: x in s[i..i + |sub|] ==> x in s;
  }

  lemma UnixStays(s: string)
    requires '\r' !in s
    ensures Unix(s) == s
  {
    SplitWithout(s, "\r\n", '\r');
    SplitWithout(s, "\r", '\r');
  }

  /** Reading a normalized page gives its paragraphs back, so normalizing twice changes nothing. */
  lemma NormalizeIdempotent(s: string)
    ensures ParagraphLines(NormalizeText(s)) == ParagraphLines(s)
    ensures NormalizeText(NormalizeText(s)) == NormalizeText(s)
  {
    var paras := ParagraphLines(s);
    var t := NormalizeText(s);
    ParagraphsOk(s);
    PageTextsOk(s);
    hide ParagraphLines, NormalizeText, ParaOk, TextOk, TrimSpace, Join, ReadLines, FlushPara, Unix, Split;
    PageLinesJoin(paras);
    NoReturns(paras);
    UnixStays(t);
    JoinThenSplit(PageLines(paras), '\n');
    ReadPage([], paras);
    assert [] + paras == paras;
    ParagraphsAre(t);
    SameNormal(t, s);
  }

  lemma SameNormal(t: string, s: string)
    requires ParagraphLines(t) == ParagraphLines(s)
    ensures NormalizeText(t) == NormalizeText(s)
  {
  }

  lemma ParagraphsAre(t: string)
    requires Unix(t) == t
    ensures ParagraphLines(t) == FlushPara(ReadLines(Reading([], []), Split(t, "\n"))).paras
  {
  }

  lemma NoReturns(paras: seq<seq<string>>)
    requires forall p :: p in paras ==> ParaOk(p)
    ensures '\r' !in Join(ParaTexts(paras), "\n\n")
  {
    hide Trimmed;
    forall i | 0 <= i < |paras| ensures '\r' !in ParaTexts(paras)[i] {
      assert ParaOk(paras[i]) by { assert paras[i] in paras; }
      JoinAvoids(paras[i], "\n", '\r');
    }
    JoinAvoids(ParaTexts(paras), "\n\n", '\r');
  }
}
