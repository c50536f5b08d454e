/**
 * What markdownParagraphBlocks and updateHeadingStack of pkg/rag/splitter.go make of a document: its
 * headings and bodies with nothing lost, and how the heading paths compare with the headings that are open.
 */
module MarkdownOutline {
  import opened Options
  import opened Runes
  import opened Splitter
  import opened Chunker
  import opened Normalize
  import opened TextSplitter

  datatype Heading = Heading(level: int, title: string)

  /** A stretch between blank lines: its heading line, if it starts with one, and the text below. */
  datatype Item = Item(heading: Option<Heading>, line: string, body: string)

  function ItemOf(raw: string): Item {
    hide TrimSpace, Trimmed, IsPlainSpace, Join;
    var block := TrimSpace(raw);
    var lines := Split(block, "\n");
    var first := TrimSpace(lines[0]);
    if block != "" && IsHeading(first) then
      Item(Some(Heading(Hashes(first), TrimSpace(first[Hashes(first)..]))), first,
           if |lines| == 1 then "" else TrimSpace(Join(lines[1..], "\n")))
    else Item(None, "", block)
  }

  function Items(raws: seq<string>): seq<Item> {
    if raws == [] then [] else Items(raws[..|raws| - 1]) + [ItemOf(raws[|raws| - 1])]
  }

  function Headings(items: seq<Item>): seq<Heading> {
    if items == [] then []
    else
      var h := items[|items| - 1].heading;
      Headings(items[..|items| - 1]) + if h.Some? then [h.value] else []
  }

  /** The heading stack after some headings. */
  function StackOf(hs: seq<Heading>): seq<string> {
    if hs == [] then []
    else UpdateStack(StackOf(hs[..|hs| - 1]), hs[|hs| - 1].level, hs[|hs| - 1].title)
  }

  /** One block per item with text, under the stack of the headings so far. */
  function BlocksFor(items: seq<Item>): seq<Piece> {
    if items == [] then []
    else
      var body := items[|items| - 1].body;
      BlocksFor(items[..|items| - 1]) + if body == "" then [] else [Piece(body, StackOf(Headings(items)), 0, 0)]
  }

  /** Heading lines and bodies in the order of the document. */
  function LinesOf(items: seq<Item>): seq<string> {
    if items == [] then []
    else LinesOf(items[..|items| - 1]) + [items[|items| - 1].line, items[|items| - 1].body]
  }

  function Bodies(items: seq<Item>): seq<string> {
    if items == [] then [] else Bodies(items[..|items| - 1]) + [items[|items| - 1].body]
  }

  // ----- The blocks are the bodies of the document

  lemma ReadItem(out: seq<Piece>, hs: seq<Heading>, raw: string)
    ensures var i := ItemOf(raw);
            var hs' := hs + if i.heading.Some? then [i.heading.value] else [];
            ReadBlock(Outline(out, StackOf(hs)), raw) ==
              Outline(out + (if i.body == "" then [] else [Piece(i.body, StackOf(hs'), 0, 0)]), StackOf(hs'))
  {
    hide TrimSpace, Split, Join, Hashes, IsHeading, UpdateStack;
    var i := ItemOf(raw);
    assert out + [] == out && hs + [] == hs;
    if i.heading.Some? {
      assert (hs + [i.heading.value])[..|hs|] == hs;
    }
  }

  lemma {:induction false} ReadSnoc(st: Outline, raws: seq<string>, raw: string)
    ensures ReadBlocks(st, raws + [raw]) == ReadBlock(ReadBlocks(st, raws), raw)
    decreases |raws|
  {
    hide ReadBlock;
    if raws == [] {
      assert ReadBlocks(ReadBlock(st, raw), [raw][1..]) == ReadBlock(st, raw);
    } else {
      assert (raws + [raw])[1..] == raws[1..] + [raw];
      ReadSnoc(ReadBlock(st, raws[0]), raws[1..], raw);
    }
  }

  lemma {:induction false} ReadIsItems(raws: seq<string>)
    ensures ReadBlocks(Outline([], []), raws) == Outline(BlocksFor(Items(raws)), StackOf(Headings(Items(raws))))
  {
    hide ReadBlock, ItemOf, StackOf;
    if raws == [] {
      EmptyStack();
    } else {
      var front, raw := raws[..|raws| - 1], raws[|raws| - 1];
      ReadIsItems(front);
      ReadSnoc(Outline([], []), front, raw);
      assert raws == front + [raw];
      ReadItem(BlocksFor(Items(front)), Headings(Items(front)), raw);
      assert Items(raws)[..|Items(raws)| - 1] == Items(front);
    }
  }

  lemma EmptyStack()
    ensures StackOf([]) == []
  {
  }

  /** The items of a Markdown text. */
  function ItemsOf(s: string): seq<Item> {
    Items(Split(s, "\n\n"))
  }

  /** The blocks are the bodies, each under the stack of the headings before and at it. */
  lemma MarkdownBlocksAre(s: string)
    ensures MarkdownBlocks(s) == BlocksFor(ItemsOf(s))
  {
    hide *;
    hide BlocksFor;
    ReadIsItems(Split(s, "\n\n"));
    BlocksAre(s);
  }

  lemma BlocksAre(s: string)
    ensures MarkdownBlocks(s) == ReadBlocks(Outline([], []), Split(s, "\n\n")).out
    ensures ItemsOf(s) == Items(Split(s, "\n\n"))
  {
  }

  // ----- Nothing but heading lines is lost

  lemma ItemKeepsInk(raw: string)
    ensures Ink(raw) == Ink(ItemOf(raw).line) + Ink(ItemOf(raw).body)
  {
    hide TrimSpace, Split, Join, IsHeading, Hashes, Ink;
    var block := TrimSpace(raw);
    InkTrim(raw);
    InkBlank("");
    LinesKeepInk(block, Split(block, "\n"));
  }

  lemma LinesKeepInk(block: string, lines: seq<string>)
    requires lines == Split(block, "\n")
    ensures lines != []
    ensures Ink(block) == Ink(TrimSpace(lines[0])) + Ink(if |lines| == 1 then "" else TrimSpace(Join(lines[1..], "\n")))
  {
    InkBlank("\n");
    hide TrimSpace, Split, Join, Ink, InkAll;
    SplitThenJoin(block, "\n");
    InkTrim(lines[0]);
    InkJoin(lines, "\n");
    InkJoin(lines[1..], "\n");
    InkTrim(Join(lines[1..], "\n"));
    assert && InkAll(lines) == Ink(lines[0]) + InkAll(lines[1..])
           && (|lines| == 1 ==> InkAll(lines[1..]) == "" && Ink("") == "") by {
      hide Ink;
      InkBlank("");
      assert lines == [lines[0]] + lines[1..];
      InkAllAppend([lines[0]], lines[1..]);
      InkAllOne(lines[0]);
    }
  }

  lemma InkAllOne(s: string)
    ensures InkAll([s]) == Ink(s) && InkAll([]) == ""
  {
    hide Ink;
  }

  lemma {:induction false} ItemsKeepInk(raws: seq<string>)
    ensures InkAll(LinesOf(Items(raws))) == InkAll(raws)
    decreases |raws|
  {
    hide ItemOf, Ink, InkAll;
    if raws != [] {
      var front, raw := raws[..|raws| - 1], raws[|raws| - 1];
      var i := ItemOf(raw);
      ItemsKeepInk(front);
      ItemKeepsInk(raw);
      assert raws == front + [raw] && [i.line, i.body] == [i.line] + [i.body];
      InkAllAppend(front, [raw]);
      InkAllAppend(LinesOf(Items(front)), [i.line, i.body]);
      InkAllAppend([i.line], [i.body]);
      InkAllOne(raw);
      InkAllOne(i.line);
      InkAllOne(i.body);
      assert Items(raws)[..|Items(raws)| - 1] == Items(front);
    }
  }

  lemma {:induction false} BlocksKeepBodies(items: seq<Item>)
    ensures InkAll(Texts(BlocksFor(items))) == InkAll(Bodies(items))
    decreases |items|
  {
    hide Ink, InkAll, StackOf, Headings;
    if items == [] {
      assert Texts([]) == [];
    } else {
      var front, body := items[..|items| - 1], items[|items| - 1].body;
      BlocksKeepBodies(front);
      InkAllAppend(Bodies(front), [body]);
      InkAllOne(body);
      InkBlank("");
      if body == "" {
        assert BlocksFor(front) + [] == BlocksFor(front);
      } else {
        var b := Piece(body, StackOf(Headings(items)), 0, 0);
        assert Texts(BlocksFor(front) + [b]) == Texts(BlocksFor(front)) + [body];
        InkAllAppend(Texts(BlocksFor(front)), [body]);
      }
    }
  }

  /**
   * Without overlap the chunks of a Markdown text carry exactly the ink of its bodies, in order, and the ink
   * of the text is that of its heading lines and bodies, in order.
   */
  lemma MarkdownLosesHeadingLines(text: string, opt: SplitOptions, bounds: seq<int>)
    requires Normalized(opt).chunkOverlap == 0
    ensures var items := ItemsOf(TrimSpace(text));
            && InkAll(LinesOf(items)) == Ink(text)
            && InkAll(ChunkTexts(SplitText(Markdown, text, opt, bounds))) == InkAll(Bodies(items))
  {
    hide *;
    var s := TrimSpace(text);
    InkTrim(text);
    BreaksAreBlank();
    SplitKeepsInk(s, "\n\n");
    ItemsKeepInk(Split(s, "\n\n"));
    BlocksAre(s);
    MarkdownKeepsInk(text, opt, bounds);
    MarkdownBlocksAre(s);
    BlocksKeepBodies(ItemsOf(s));
  }

  lemma BreaksAreBlank()
    ensures Blank("\n\n")
  {
  }

  lemma {:induction false} HashesAre(line: string)
    ensures line[..Hashes(line)] == seq(Hashes(line), _ => '#')
  {
    if line != "" && line[0] == '#' {
      HashesAre(line[1..]);
      assert line[..Hashes(line)] == [line[0]] + line[1..][..Hashes(line[1..])];
    }
  }

  lemma {:induction false} InkOfHashes(n: nat)
    ensures Ink(seq(n, _ => '#')) == seq(n, _ => '#')
  {
    if n > 0 {
      InkOfHashes(n - 1);
      assert seq(n, _ => '#')[1..] == seq(n - 1, _ => '#');
      assert seq(n, _ => '#') == ['#'] + seq(n - 1, _ => '#');
    }
  }

  lemma HeadingLine(line: string, h: nat)
    requires h == Hashes(line)
    ensures Ink(line) == seq(h, _ => '#') + Ink(TrimSpace(line[h..]))
  {
    HashesAre(line);
    InkOfHashes(h);
    hide TrimSpace, Ink, Hashes;
    Halves(line, h);
    InkAppend(line[..h], line[h..]);
    InkTrim(line[h..]);
  }

  lemma HeadingOf(raw: string)
    ensures var i := ItemOf(raw);
            i.heading.Some? ==>
              && 1 <= i.heading.value.level <= 6 && i.heading.value.level == Hashes(i.line)
              && i.heading.value.title == TrimSpace(i.line[Hashes(i.line)..])
  {
    hide TrimSpace, Split, Join, Hashes, IsPlainSpace;
  }

  /** A heading line is its hashes and its title: the path keeps everything else. */
  lemma HeadingLineIs(raw: string)
    ensures var i := ItemOf(raw);
            i.heading.Some? ==>
              && 1 <= i.heading.value.level <= 6
              && Ink(i.line) == seq(i.heading.value.level, _ => '#') + Ink(i.heading.value.title)
  {
    hide ItemOf, TrimSpace, Ink, Hashes;
    HeadingOf(raw);
    HeadingLine(ItemOf(raw).line, Hashes(ItemOf(raw).line));
  }

  // ----- The stack and the open headings

  /** Every later heading is deeper than the first. */
  ghost predicate StaysOpen(hs: seq<Heading>) {
    forall k :: 1 <= k < |hs| ==> hs[k].level > hs[0].level
  }

  /** A heading is open while every later one is deeper. */
  ghost function Open(hs: seq<Heading>): seq<Heading> {
    if hs == [] then [] else (if StaysOpen(hs) then [hs[0]] else []) + Open(hs[1..])
  }

  ghost predicate Rising(hs: seq<Heading>) {
    && (forall i :: 0 <= i < |hs| ==> 1 <= hs[i].level)
    && (forall i, j :: 0 <= i < j < |hs| ==> hs[i].level < hs[j].level)
  }

  function Titles(hs: seq<Heading>): seq<string> {
    seq(|hs|, i requires 0 <= i < |hs| => hs[i].title)
  }

  function Below(hs: seq<Heading>, level: int): seq<Heading> {
    if hs == [] then [] else (if hs[0].level < level then [hs[0]] else []) + Below(hs[1..], level)
  }

  lemma BelowCons(h: Heading, hs: seq<Heading>, level: int)
    ensures Below([h] + hs, level) == if h.level < level then [h] + Below(hs, level) else Below(hs, level)
  {
    assert ([h] + hs)[1..] == hs;
    assert [] + Below(hs, level) == Below(hs, level);
  }

  /** The next heading leaves open exactly the open headings that are less deep. */
  lemma {:induction false} OpenSnoc(hs: seq<Heading>, h: Heading)
    ensures Open(hs + [h]) == Below(Open(hs), h.level) + [h]
    decreases |hs|
  {
    if hs == [] {
      assert Open([h]) == Below(Open([]), h.level) + [h] by {
        assert [h][1..] == [] && StaysOpen([h]);
      }
    } else {
      hide StaysOpen, Open, Below;
      var rest := Open(hs[1..]);
      assert (hs + [h])[1..] == hs[1..] + [h] && (hs + [h])[0] == hs[0];
      OpenSnoc(hs[1..], h);
      assert StaysOpen(hs + [h]) <==> StaysOpen(hs) && h.level > hs[0].level by {
        var all := hs + [h];
        assert all[|hs|] == h && forall k :: 0 <= k < |hs| ==> all[k] == hs[k];
      }
      OpenCons(hs);
      OpenCons(hs + [h]);
      BelowCons(hs[0], rest, h.level);
      if StaysOpen(hs + [h]) {
        Assoc([hs[0]], Below(rest, h.level), [h]);
      }
    }
  }

  lemma OpenCons(hs: seq<Heading>)
    requires hs != []
    ensures Open(hs) == if StaysOpen(hs) then [hs[0]] + Open(hs[1..]) else Open(hs[1..])
  {
    hide StaysOpen;
    assert [] + Open(hs[1..]) == Open(hs[1..]);
  }

  /** What the stack keeps for a heading of some level: at most level - 1 entries, whatever their levels. */
  function Kept(open: seq<Heading>, level: int): nat {
    if level < 1 then 0 else if |open| < level - 1 then |open| else level - 1
  }

  /** The last entry that is kept is less deep than the new heading. */
  predicate KeepsRight(open: seq<Heading>, level: int) {
    Kept(open, level) == 0 || open[Kept(open, level) - 1].level < level
  }

  lemma {:induction false} BelowIsPrefix(open: seq<Heading>, level: int, n: nat)
    requires Rising(open) && n <= |open|
    requires n == 0 || open[n - 1].level < level
    requires n == |open| || open[n].level >= level
    ensures Below(open, level) == open[..n]
    decreases |open|
  {
    if open != [] {
      var rest := open[1..];
      assert forall i :: 0 <= i < |rest| ==> rest[i] == open[i + 1];
      if n == 0 {
        BelowIsPrefix(rest, level, 0);
      } else {
        assert open[0].level <= open[n - 1].level;
        BelowIsPrefix(rest, level, n - 1);
        assert open[..n] == [open[0]] + rest[..n - 1];
      }
    }
  }

  lemma {:induction false} OpenRising(hs: seq<Heading>)
    requires forall i :: 0 <= i < |hs| ==> 1 <= hs[i].level
    ensures Rising(Open(hs))
    ensures forall o :: o in Open(hs) ==> o in hs
    decreases |hs|
  {
    if hs != [] {
      var rest := Open(hs[1..]);
      OpenRising(hs[1..]);
      assert forall o :: o in hs[1..] ==> o in hs;
      if StaysOpen(hs) {
        forall i | 0 <= i < |rest|
          ensures rest[i].level > hs[0].level
        {
          assert rest[i] in hs[1..];
        }
      }
      hide StaysOpen;
    }
  }

  lemma {:induction false} RisingAtLeast(open: seq<Heading>, i: nat)
    requires Rising(open) && i < |open|
    ensures open[i].level >= i + 1
  {
    if i > 0 {
      RisingAtLeast(open, i - 1);
    }
  }

  /** One heading: the stack is right after it exactly when the last entry it keeps is less deep. */
  lemma StackStepIff(open: seq<Heading>, h: Heading)
    requires Rising(open) && 1 <= h.level
    ensures UpdateStack(Titles(open), h.level, h.title) == Titles(Below(open, h.level) + [h]) <==> KeepsRight(open, h.level)
  {
    var n := Kept(open, h.level);
    hide UpdateStack, Below, Rising;
    assert UpdateStack(Titles(open), h.level, h.title) == Titles(open[..Kept(open, h.level)] + [h]);
    if n < |open| {
      RisingAtLeast(open, n);
    }
    if KeepsRight(open, h.level) {
      BelowIsPrefix(open, h.level, n);
    } else {
      BelowFewer(open, h.level, n);
      assert |Titles(open[..n] + [h])| == n + 1 > |Titles(Below(open, h.level) + [h])|;
    }
  }

  lemma {:induction false} BelowFewer(open: seq<Heading>, level: int, n: nat)
    requires Rising(open) && 0 < n <= |open| && open[n - 1].level >= level
    ensures |Below(open, level)| < n
    decreases |open|
  {
    var rest := open[1..];
    assert forall i :: 0 <= i < |rest| ==> rest[i] == open[i + 1];
    if n == 1 {
      BelowIsPrefix(open, level, 0);
    } else {
      BelowFewer(rest, level, n - 1);
    }
  }

  ghost predicate StackRight(hs: seq<Heading>) {
    StackOf(hs) == Titles(Open(hs))
  }

  lemma StackNext(hs: seq<Heading>, h: Heading)
    requires (forall i :: 0 <= i < |hs| ==> 1 <= hs[i].level) && 1 <= h.level && StackRight(hs)
    ensures StackRight(hs + [h]) <==> KeepsRight(Open(hs), h.level)
  {
    OpenRising(hs);
    OpenSnoc(hs, h);
    StackStepIff(Open(hs), h);
    assert (hs + [h])[..|hs|] == hs;
    hide Open, UpdateStack, Below, Titles, KeepsRight, Rising;
  }

  /**
   * Throughout a document the heading path is the path of open headings exactly when no heading skips a level
   * so that the stack keeps one that is as deep or deeper.
   */
  lemma {:induction false} PathsRightIff(hs: seq<Heading>)
    requires forall i :: 0 <= i < |hs| ==> 1 <= hs[i].level
    ensures (forall k :: 0 <= k <= |hs| ==> StackRight(hs[..k]))
       <==> (forall k :: 0 <= k < |hs| ==> KeepsRight(Open(hs[..k]), hs[k].level))
    decreases |hs|
  {
    hide StackRight, KeepsRight, Open;
    if hs == [] {
      EmptyRight();
    } else {
      var front, last := hs[..|hs| - 1], hs[|hs| - 1];
      PathsRightIff(front);
      assert forall k :: 0 <= k <= |front| ==> hs[..k] == front[..k];
      assert hs[..|hs|] == hs == front + [last] && front[..|front|] == front;
      if StackRight(front) {
        StackNext(front, last);
      }
    }
  }

  ghost predicate LevelsOk(hs: seq<Heading>) {
    forall i :: 0 <= i < |hs| ==> 1 <= hs[i].level <= 6
  }

  lemma LevelsSnoc(hs: seq<Heading>, h: Heading)
    requires LevelsOk(hs) && 1 <= h.level <= 6
    ensures LevelsOk(hs + [h])
  {
  }

  lemma {:induction false} HeadingLevels(raws: seq<string>)
    ensures LevelsOk(Headings(Items(raws)))
    decreases |raws|
  {
    hide ItemOf, LevelsOk;
    if raws == [] {
      NoLevels();
    } else {
      var front, i := raws[..|raws| - 1], ItemOf(raws[|raws| - 1]);
      HeadingLevels(front);
      ItemsSnoc(raws);
      HeadingOf(raws[|raws| - 1]);
      hide Items, Headings;
      if i.heading.Some? {
        LevelsSnoc(Headings(Items(front)), i.heading.value);
      }
    }
  }

  lemma NoLevels()
    ensures LevelsOk([])
  {
  }

  lemma ItemsSnoc(raws: seq<string>)
    requires raws != []
    ensures var front, i := raws[..|raws| - 1], ItemOf(raws[|raws| - 1]);
            Headings(Items(raws)) ==
              if i.heading.Some? then Headings(Items(front)) + [i.heading.value] else Headings(Items(front))
  {
    hide ItemOf;
    var items := Items(raws);
    assert items[..|items| - 1] == Items(raws[..|raws| - 1]);
    var before := Headings(Items(raws[..|raws| - 1]));
    assert before + [] == before;
  }

  /** The same for the headings of a Markdown text. */
  lemma DocumentPathsRightIff(s: string)
    ensures var hs := Headings(ItemsOf(s));
            (forall k :: 0 <= k <= |hs| ==> StackRight(hs[..k])) <==>
              (forall k :: 0 <= k < |hs| ==> KeepsRight(Open(hs[..k]), hs[k].level))
  {
    hide StackRight, KeepsRight, Open, Headings, Items, Split;
    HeadingLevels(Split(s, "\n\n"));
    BlocksAre(s);
    PathsRightIff(Headings(ItemsOf(s)));
  }

  lemma EmptyRight()
    ensures StackRight([])
  {
  }

  lemma Pair<T>(a: T, b: T)
    ensures [] + [a] == [a] && [a] + [b] == [a, b]
  {
  }

  /** A heading deeper than the stack is high is put on top. */
  lemma Appends(stack: seq<string>, level: int, title: string)
    requires |stack| < level
    ensures UpdateStack(stack, level, title) == stack + [title]
  {
  }

  lemma StackSnoc(hs: seq<Heading>, h: Heading)
    ensures StackOf(hs + [h]) == UpdateStack(StackOf(hs), h.level, h.title)
  {
    hide UpdateStack;
    assert (hs + [h])[..|hs|] == hs;
  }

  lemma OpenOfTwo(a: Heading, b: Heading)
    requires b.level <= a.level
    ensures Titles(Open([a, b])) == [b.title]
  {
    assert [a, b][1..] == [b] && [b][1..] == [];
    assert !StaysOpen([a, b]) && StaysOpen([b]);
    OpenCons([a, b]);
    OpenCons([b]);
    hide StaysOpen;
  }

  /** A line with three hashes and one rune is a heading of level 3 without a body. */
  lemma ThreeHashes(c: char)
    requires !IsSpace(c) && c != '\n' && c != '#'
    ensures ItemOf("### " + [c]) == Item(Some(Heading(3, [c])), "### " + [c], "")
  {
    var raw := "### " + [c];
    hide *;
    assert TrimSpace(raw) == raw && TrimSpace(" " + [c]) == [c] by {
      hide *;
      EndsInRune(raw, c);
      TrimOfTrimmed(raw);
      TrimUnique(" ", [c], "");
      assert " " + [c] + "" == " " + [c];
    }
    assert raw[3..] == " " + [c];
    NoBreakSplits(raw, "\n");
    HashesOf(c);
    ItemOfLine(raw, 3, [c]);
  }

  lemma ItemOfLine(raw: string, h: nat, title: string)
    requires raw != "" && TrimSpace(raw) == raw && Split(raw, "\n") == [raw]
    requires IsHeading(raw) && Hashes(raw) == h && TrimSpace(raw[h..]) == title
    ensures ItemOf(raw) == Item(Some(Heading(h, title)), raw, "")
  {
    hide TrimSpace, Split, Hashes, Join, IsHeading;
  }

  lemma EndsInRune(raw: string, c: char)
    requires raw == "### " + [c] && !IsSpace(c)
    ensures Trimmed(raw) && Trimmed([c]) && Blank(" ") && Blank("")
  {
  }

  lemma HashesOf(c: char)
    ensures var raw := "### " + [c]; Hashes(raw) == 3 && IsHeading(raw)
  {
    var raw := "### " + [c];
    assert raw[1..] == "## " + [c] && raw[1..][1..] == "# " + [c] && raw[1..][1..][1..] == " " + [c];
    assert Hashes(" " + [c]) == 0;
    assert Hashes("# " + [c]) == 1;
    assert Hashes("## " + [c]) == 2;
  }

  /** A text without line breaks is one line and one stretch. */
  lemma NoBreakSplits(s: string, sep: string)
    requires (sep == "\n" || sep == "\n\n") && '\n' !in s
    ensures Split(s, sep) == [s]
  {
    forall j
      ensures !OccursAt(s, sep, j)
    {
      OccursStarts(s, sep, j);
    }
    hide Index, OccursAt;
  }

  lemma OccursStarts(s: string, part: string, j: int)
    requires part != ""
    ensures OccursAt(s, part, j) ==> 0 <= j < |s| && s[j] == part[0]
  {
    if OccursAt(s, part, j) {
      assert s[j..j + |part|][0] == s[j];
    }
  }

  lemma TwoStretches(a: string, b: string)
    requires '\n' !in a && '\n' !in b
    ensures Split(a + "\n\n" + b, "\n\n") == [a, b]
  {
    var s, sep := a + "\n\n" + b, "\n\n";
    assert s[|a|..|a| + 2] == sep && s[..|a|] == a && s[|a| + 2..] == b;
    forall j | 0 <= j < |a|
      ensures !OccursAt(s, sep, j)
    {
      OccursStarts(s, sep, j);
      assert s[j] == a[j];
    }
    IndexIs(s, sep, |a|);
    NoBreakSplits(b, sep);
    hide Index;
  }

  lemma TwoHeadings(a: Item, b: Item, raws: seq<string>)
    requires |raws| == 2 && a == ItemOf(raws[0]) && b == ItemOf(raws[1]) && a.heading.Some? && b.heading.Some?
    ensures Headings(Items(raws)) == [a.heading.value, b.heading.value]
  {
    hide ItemOf;
    assert raws[..1][..0] == [] && Items(raws[..1]) == [a] && Items(raws) == [a, b];
    assert [a, b][..1] == [a] && [a][..0] == [];
    assert Headings([a]) == [a.heading.value];
  }

  /** A text of two sibling headings of level 3 without higher ones: the second is filed under the first. */
  lemma SkippedLevels()
    ensures var hs := Headings(ItemsOf("### a\n\n### b"));
            && hs == [Heading(3, "a"), Heading(3, "b")]
            && StackOf(hs) == ["a", "b"] && Titles(Open(hs)) == ["b"]
  {
    hide *;
    var a, b := Heading(3, "a"), Heading(3, "b");
    assert !IsSpace('a') && !IsSpace('b') by { Letters(); }
    ThreeHashes('a');
    ThreeHashes('b');
    assert "### " + "a" == "### a" && "### " + "b" == "### b";
    TwoStretches("### a", "### b");
    assert "### a" + "\n\n" + "### b" == "### a\n\n### b";
    BlocksAre("### a\n\n### b");
    TwoHeadings(ItemOf("### a"), ItemOf("### b"), ["### a", "### b"]);
    assert StackOf([Heading(3, ("a")), Heading(3, ("b"))]) == [("a"), ("b")] by {
      hide *;
      var x, y := Heading(3, ("a")), Heading(3, ("b"));
      EmptyStack();
      StackSnoc([], x);
      StackSnoc([x], y);
      Appends([], 3, ("a"));
      Appends([("a")], 3, ("b"));
      Pair(x, y);
      Pair(("a"), ("b"));
    }
    OpenOfTwo(a, b);
  }

  lemma Letters()
    ensures !IsSpace('a') && !IsSpace('b')
  {
  }
}
