/** What pkg/document/normalize.go takes for a line break and for a paragraph. */
module TextLines {
  import opened Runes
  import opened Normalize

  lemma ReplaceAt(s: string, old_: string, new_: string)
    requires old_ != ""
    ensures var i := Index(s, old_);
            ReplaceAll(s, old_, new_) == if i < 0 then s else s[..i] + new_ + ReplaceAll(s[i + |old_|..], old_, new_)
  {
    var i := Index(s, old_);
    if i >= 0 {
      JoinCons(s[..i], Split(s[i + |old_|..], old_), new_);
    }
    hide Index, OccursAt, Join;
  }

  /** Replacing starts over behind each occurrence, and copies a rune where none begins. */
  lemma ReplaceStep(s: string, old_: string, new_: string)
    requires old_ != "" && s != ""
    ensures OccursAt(s, old_, 0) ==> ReplaceAll(s, old_, new_) == new_ + ReplaceAll(s[|old_|..], old_, new_)
    ensures !OccursAt(s, old_, 0) ==> ReplaceAll(s, old_, new_) == [s[0]] + ReplaceAll(s[1..], old_, new_)
  {
    hide *;
    ReplaceAt(s, old_, new_);
    if OccursAt(s, old_, 0) {
      IndexAtStart(s, old_);
      assert s[..0] + new_ == new_;
    } else {
      IndexShift(s, old_);
      ReplaceAt(s[1..], old_, new_);
      IndexFits(s, old_);
      var i := Index(s, old_);
      FirstRune(s, |old_|, i, new_, if i > 0 then ReplaceAll(s[i + |old_|..], old_, new_) else "");
    }
  }

  lemma IndexAtStart(s: string, old_: string)
    requires OccursAt(s, old_, 0)
    ensures Index(s, old_) == 0
  {
    hide OccursAt;
  }

  lemma IndexFits(s: string, sub: string)
    ensures Index(s, sub) >= 0 ==> Index(s, sub) + |sub| <= |s|
  {
    hide Index;
  }

  lemma FirstRune(s: string, n: nat, i: int, new_: string, rest: string)
    requires s != "" && (i > 0 ==> i + n <= |s|)
    ensures i > 0 ==> s[..i] + new_ + rest == [s[0]] + (s[1..][..i - 1] + new_ + rest) && s[i + n..] == s[1..][i - 1 + n..]
    ensures s == [s[0]] + s[1..]
  {
    if i > 0 {
      assert s[..i] == [s[0]] + s[1..][..i - 1];
      Assoc([s[0]], s[1..][..i - 1], new_);
      Assoc([s[0]], s[1..][..i - 1] + new_, rest);
    }
  }

  lemma JoinCons(first: string, parts: seq<string>, sep: string)
    requires parts != []
    ensures Join([first] + parts, sep) == first + sep + Join(parts, sep)
  {
    assert ([first] + parts)[1..] == parts;
  }

  lemma IndexShift(s: string, old_: string)
    requires old_ != "" && s != "" && !OccursAt(s, old_, 0)
    ensures Index(s, old_) == (if Index(s[1..], old_) < 0 then -1 else Index(s[1..], old_) + 1)
  {
    forall j | j > 0
      ensures OccursAt(s, old_, j) <==> OccursAt(s[1..], old_, j - 1)
    {
      if j + |old_| <= |s| {
        assert s[1..][j - 1..j - 1 + |old_|] == s[j..j + |old_|];
      }
    }
    hide OccursAt;
    var i, k := Index(s, old_), Index(s[1..], old_);
    assert k >= 0 ==> OccursAt(s, old_, k + 1);
    assert i >= 0 ==> OccursAt(s[1..], old_, i - 1);
  }

  lemma NothingReplaced(old_: string, new_: string)
    requires old_ != ""
    ensures ReplaceAll("", old_, new_) == ""
  {
  }

  /**
   * Line breaks, rune by rune: "\r\n" is one break, a lone '\r' is one, and every other rune stays.
   */
  lemma UnixIs(c: char, t: string)
    ensures Unix("") == ""
    ensures Unix("\r\n" + t) == "\n" + Unix(t)
    ensures (t == "" || t[0] != '\n') ==> Unix("\r" + t) == "\n" + Unix(t)
    ensures c != '\r' ==> Unix([c] + t) == [c] + Unix(t)
  {
    var both, one := ReplaceAll(t, "\r\n", "\n"), "\n";
    NothingReplaced("\r\n", "\n");
    NothingReplaced("\r", "\n");
    hide ReplaceAll, OccursAt;
    assert Unix("\r\n" + t) == "\n" + Unix(t) by {
      var s := "\r\n" + t;
      StartsWith(s, "\r\n");
      ReplaceStep(s, "\r\n", "\n");
      assert s[2..] == t;
      KeepsRune('\n', both);
    }
    if t == "" || t[0] != '\n' {
      var s := "\r" + t;
      NotBoth(s);
      ReplaceStep(s, "\r\n", "\n");
      assert s[1..] == t;
      StartsWith("\r" + both, "\r");
      ReplaceStep("\r" + both, "\r", "\n");
      assert ("\r" + both)[1..] == both;
    }
    if c != '\r' {
      var s := [c] + t;
      NotBoth(s);
      ReplaceStep(s, "\r\n", "\n");
      assert s[1..] == t;
      KeepsRune(c, both);
    }
  }

  lemma KeepsRune(c: char, t: string)
    requires c != '\r'
    ensures ReplaceAll([c] + t, "\r", "\n") == [c] + ReplaceAll(t, "\r", "\n")
  {
    var s := [c] + t;
    assert s[0..1] == [c] && s[1..] == t;
    hide ReplaceAll;
    ReplaceStep(s, "\r", "\n");
  }

  lemma StartsWith(s: string, part: string)
    requires part <= s
    ensures OccursAt(s, part, 0)
  {
    assert s[0..|part|] == part;
  }

  lemma NotBoth(s: string)
    requires s != "" && (s[0] != '\r' || |s| == 1 || s[1] != '\n')
    ensures !OccursAt(s, "\r\n", 0)
  {
    if |s| > 1 {
      assert s[0..2][0] == s[0] && s[0..2][1] == s[1];
    }
  }

  // ----- Paragraphs

  function Paragraphs(lines: seq<string>): seq<seq<string>> {
    FlushPara(ReadLines(Reading([], []), lines)).paras
  }

  lemma FlushAfter(paras: seq<seq<string>>, cur: seq<string>)
    ensures FlushPara(Reading(paras, cur)) == Reading(paras + FlushPara(Reading([], cur)).paras, [])
  {
    hide TrimmedNonBlank;
    assert paras + [] == paras;
  }

  /** What was read before stays in front. */
  lemma {:induction false} ReadAfter(paras: seq<seq<string>>, cur: seq<string>, lines: seq<string>)
    ensures var st := ReadLines(Reading([], cur), lines);
            ReadLines(Reading(paras, cur), lines) == Reading(paras + st.paras, st.cur)
    decreases |lines|
  {
    hide TrimSpace, FlushPara;
    if lines == [] {
      assert paras + [] == paras;
    } else if TrimSpace(lines[0]) == "" {
      var closed := FlushPara(Reading([], cur)).paras;
      FlushAfter([], cur);
      FlushAfter(paras, cur);
      ReadAfter(closed, [], lines[1..]);
      ReadAfter(paras + closed, [], lines[1..]);
      Assoc(paras, closed, ReadLines(Reading([], []), lines[1..]).paras);
    } else {
      ReadAfter(paras, cur + [lines[0]], lines[1..]);
    }
  }

  /** A blank line ends a paragraph: the paragraphs before and after it are found independently. */
  lemma BlankLineSplits(a: seq<string>, blank: string, b: seq<string>)
    requires TrimSpace(blank) == ""
    ensures Paragraphs(a + [blank] + b) == Paragraphs(a) + Paragraphs(b)
  {
    hide TrimSpace, TrimmedNonBlank;
    var before := ReadLines(Reading([], []), a);
    ReadLinesAppend(Reading([], []), a, [blank] + b);
    Assoc(a, [blank], b);
    assert ([blank] + b)[0] == blank && ([blank] + b)[1..] == b;
    var closed := FlushPara(before).paras;
    ReadAfter(closed, [], b);
    var st := ReadLines(Reading([], []), b);
    Assoc(closed, st.paras, if TrimmedNonBlank(st.cur) == [] then [] else [TrimmedNonBlank(st.cur)]);
    assert closed + st.paras + [] == closed + st.paras && st.paras + [] == st.paras;
  }

  lemma {:induction false} ReadOn(paras: seq<seq<string>>, cur: seq<string>, lines: seq<string>)
    requires forall line :: line in lines ==> TrimSpace(line) != ""
    ensures ReadLines(Reading(paras, cur), lines) == Reading(paras, cur + lines)
    decreases |lines|
  {
    hide TrimSpace;
    if lines == [] {
      assert cur + [] == cur;
    } else {
      assert lines[0] in lines;
      ReadOn(paras, cur + [lines[0]], lines[1..]);
      assert cur + [lines[0]] + lines[1..] == cur + lines;
    }
  }

  /** Lines without a blank one among them are one paragraph: the lines, each trimmed. */
  lemma OneParagraph(lines: seq<string>)
    requires lines != [] && forall line :: line in lines ==> TrimSpace(line) != ""
    ensures Paragraphs(lines) == [seq(|lines|, i requires 0 <= i < |lines| => TrimSpace(lines[i]))]
  {
    ReadOn([], [], lines);
    assert [] + lines == lines;
    AllKept(lines);
    hide TrimSpace;
    var trimmed := seq(|lines|, i requires 0 <= i < |lines| => TrimSpace(lines[i]));
    assert [] + [trimmed] == [trimmed];
  }

  lemma {:induction false} AllKept(lines: seq<string>)
    requires forall line :: line in lines ==> TrimSpace(line) != ""
    ensures TrimmedNonBlank(lines) == seq(|lines|, i requires 0 <= i < |lines| => TrimSpace(lines[i]))
  {
    hide TrimSpace;
    if lines != [] {
      assert lines[0] in lines;
      AllKept(lines[1..]);
    }
  }
}
