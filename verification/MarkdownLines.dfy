/** What pkg/rag/splitter.go takes for a heading, rune by rune. */
module MarkdownLines {
  import opened Options
  import opened Runes
  import opened Splitter
  import opened TextSplitter
  import opened MarkdownOutline

  /** One to six '#' and a white rune of the pattern, and what follows, trimmed, is the title. */
  predicate HeadingLine(line: string, level: int, title: string) {
    && 1 <= level <= 6 && level < |line|
    && (forall k :: 0 <= k < level ==> line[k] == '#')
    && line[level] in {' ', '\t', '\n', '\r', '\U{0C}'}
    && title == TrimSpace(line[level..])
  }

  lemma {:induction false} HashesAre(s: string)
    ensures var n := Hashes(s); (forall k :: 0 <= k < n ==> s[k] == '#') && (n < |s| ==> s[n] != '#')
  {
    if s != "" && s[0] == '#' {
      HashesAre(s[1..]);
      assert forall k :: 0 < k < Hashes(s) ==> s[k] == s[1..][k - 1];
    }
  }

  lemma HeadingLineIff(line: string, level: int, title: string)
    ensures HeadingLine(line, level, title) <==>
            IsHeading(line) && level == Hashes(line) && title == TrimSpace(line[Hashes(line)..])
  {
    HashesAre(line);
    hide TrimSpace, Hashes;
  }

  lemma FirstLine(block: string, first: string, tail: string)
    requires block == first + tail && '\n' !in first && (tail == "" || tail[0] == '\n')
    ensures var lines := Split(block, "\n");
            && lines[0] == first && (|lines| == 1 <==> tail == "")
            && (tail != "" ==> tail == "\n" + Join(lines[1..], "\n"))
  {
    OccursOne(block, '\n');
    if tail == "" {
      assert forall j :: !OccursAt(block, "\n", j);
    } else {
      IndexIs(block, "\n", |first|);
      assert block[..|first|] == first && block[|first| + 1..] == tail[1..];
      SplitThenJoin(tail[1..], "\n");
      assert tail == ['\n'] + tail[1..];
      hide Index, OccursAt;
    }
  }

  /**
   * What a stretch between blank lines is read as. It has a heading exactly when its first line, trimmed, is a heading
   * line, and then its body is the rest; without one all of it is the body.
   */
  lemma ItemIs(raw: string, first: string, tail: string)
    requires TrimSpace(raw) == first + tail && '\n' !in first && (tail == "" || tail[0] == '\n')
    ensures var i := ItemOf(raw);
            && (forall level, title :: i.heading == Some(Heading(level, title)) <==> HeadingLine(TrimSpace(first), level, title))
            && (i.heading.Some? ==> i.line == TrimSpace(first) && i.body == TrimSpace(tail))
            && (i.heading.None? ==> i.line == "" && i.body == TrimSpace(raw))
  {
    var block, line := TrimSpace(raw), TrimSpace(first);
    FirstLine(block, first, tail);
    forall level, title
      ensures HeadingLine(line, level, title) <==> IsHeading(line) && level == Hashes(line) && title == TrimSpace(line[Hashes(line)..])
    {
      HeadingLineIff(line, level, title);
    }
    TailTrimmed(tail, Join(Split(block, "\n")[1..], "\n"));
    hide Split, Join, HeadingLine, Hashes, IsHeading, TrimSpace;
    NoHeading(block, line);
  }

  lemma TailTrimmed(tail: string, rest: string)
    ensures tail == "\n" + rest ==> TrimSpace(tail) == TrimSpace(rest)
    ensures tail == "" ==> TrimSpace(tail) == ""
  {
    assert Blank("\n") && Blank("");
    TrimOfTrimmed("");
    hide TrimSpace, IsSpace;
    TrimPad("\n", rest, "");
    assert "\n" + rest + "" == "\n" + rest;
  }

  /** Nothing is no heading. */
  lemma NoHeading(block: string, line: string)
    ensures line == "" ==> !IsHeading(line)
  {
  }
}
