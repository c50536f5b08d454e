/** How pkg/rag/splitter.go packs the sentences of an oversized paragraph: greedily. */
module SentencePacking {
  import opened Runes
  import opened Splitter
  import opened Chunker

  /** Sentences of one part, a space between them. */
  function Line(g: seq<string>): string {
    Join(g, " ")
  }

  /** A group of sentences is one part, unless it is a single sentence that is too long for one. */
  function PartsOfGroup(max: int): seq<string> -> seq<string> {
    (g: seq<string>) => if |Line(g)| <= max then [Line(g)] else HardSplit(Line(g), max)
  }

  predicate GroupFits(g: seq<string>, max: int) {
    g != [] && (|Line(g)| <= max || |g| == 1)
  }

  /** No group could have taken the first sentence of the next one. */
  predicate NoRoom(gs: seq<seq<string>>, max: int) {
    forall k :: 0 < k < |gs| ==> gs[k] != [] && |Line(gs[k - 1])| + 1 + |gs[k][0]| > max
  }

  ghost predicate Packed(gs: seq<seq<string>>, max: int) {
    (forall g :: g in gs ==> GroupFits(g, max)) && NoRoom(gs, max)
  }

  function WithOpen(done: seq<seq<string>>, cur: seq<string>): seq<seq<string>> {
    if cur == [] then done else done + [cur]
  }

  /** The state of the packing loop: finished groups, and an open one. */
  ghost predicate Describes(st: Packing, done: seq<seq<string>>, cur: seq<string>, sents: seq<string>, max: int) {
    && Concat(done) + cur == sents
    && st.b == Line(cur) && st.out == FlatMap(PartsOfGroup(max), done)
    && Packed(WithOpen(done, cur), max) && |Line(cur)| <= max
    && (cur == [] && done != [] ==> |Line(done[|done| - 1])| > max)
  }

  lemma {:induction false} LineIsWritten(g: seq<string>)
    requires g != [] && Written(g)
    ensures Line(g) != "" && Trimmed(Line(g)) && Line(g)[0] == g[0][0]
    decreases |g|
  {
    hide IsSpace;
    if |g| > 1 {
      assert Written(g[1..]);
      LineIsWritten(g[1..]);
    }
  }

  lemma LineKept(g: seq<string>)
    requires Written(g)
    ensures Kept(Line(g)) == if g == [] then [] else [Line(g)]
    ensures Line(g) == "" <==> g == []
  {
    hide Trimmed, TrimSpace;
    if g == [] {
      TrimOfTrimmed("") by { assert Trimmed("") by { EmptyTrimmed(); } }
    } else {
      LineIsWritten(g);
      TrimOfTrimmed(Line(g));
      hide Join;
    }
  }

  lemma EmptyTrimmed()
    ensures Trimmed("")
  {
  }

  lemma LineOfOne(s: string)
    ensures Line([s]) == s && Line([]) == ""
  {
  }

  lemma PackedSnoc(gs: seq<seq<string>>, g: seq<string>, max: int)
    requires Packed(gs, max) && GroupFits(g, max)
    requires gs != [] ==> |Line(gs[|gs| - 1])| + 1 + |g[0]| > max
    ensures Packed(gs + [g], max)
  {
    hide Join;
  }

  lemma PackedGrows(done: seq<seq<string>>, cur: seq<string>, s: string, max: int)
    requires Packed(done + [cur], max) && |Line(cur + [s])| <= max
    ensures Packed(done + [cur + [s]], max)
  {
    hide Join;
    var a, b := done + [cur], done + [cur + [s]];
    assert a[|done|] == cur && cur in a && GroupFits(cur, max);
    forall k | 0 < k < |b|
      ensures b[k] != [] && |Line(b[k - 1])| + 1 + |b[k][0]| > max
    {
      assert a[k] != [] && |Line(a[k - 1])| + 1 + |a[k][0]| > max;
    }
    forall g | g in b
      ensures GroupFits(g, max)
    {
      if g != cur + [s] {
        assert g in done && g in a;
      }
    }
  }

  /** The open group is finished. */
  lemma Flushes(st: Packing, done: seq<seq<string>>, cur: seq<string>, sents: seq<string>, max: int)
    requires Describes(st, done, cur, sents, max) && Written(cur)
    ensures FlushPart(st).out == FlatMap(PartsOfGroup(max), WithOpen(done, cur)) && FlushPart(st).b == ""
    ensures Concat(WithOpen(done, cur)) == sents
  {
    hide Kept, Written, Join, FlatMap, Packed;
    LineKept(cur);
    if cur != [] {
      FlatMapSnoc(PartsOfGroup(max), done, cur);
      ConcatSnoc(done, cur);
    } else {
      assert Concat(done) + cur == Concat(done);
      assert st.out + [] == st.out;
    }
  }

  /** A sentence that is too long is a group of its own. */
  lemma TooLong(gs: seq<seq<string>>, sents: seq<string>, out: seq<string>, s: string, max: int)
    requires Packed(gs, max) && Concat(gs) == sents && out == FlatMap(PartsOfGroup(max), gs) && |s| > max && 0 <= max
    ensures Describes(Packing(out + HardSplit(s, max), ""), gs + [[s]], [], sents + [s], max)
  {
    hide Join, FlatMap, Packed, HardSplit;
    LineOfOne(s);
    FlatMapSnoc(PartsOfGroup(max), gs, [s]);
    ConcatSnoc(gs, [s]);
    PackedSnoc(gs, [s], max);
    assert sents + [s] + [] == sents + [s];
  }

  /** A sentence begins a group. */
  lemma Begins(gs: seq<seq<string>>, sents: seq<string>, out: seq<string>, s: string, max: int)
    requires Packed(gs, max) && Concat(gs) == sents && out == FlatMap(PartsOfGroup(max), gs) && |s| <= max
    requires gs != [] ==> |Line(gs[|gs| - 1])| + 1 + |s| > max
    ensures Describes(Packing(out, s), gs, [s], sents + [s], max)
  {
    hide Join, FlatMap, Packed;
    LineOfOne(s);
    PackedSnoc(gs, [s], max);
  }

  /** A sentence joins the open group. */
  lemma Joining(st: Packing, done: seq<seq<string>>, cur: seq<string>, sents: seq<string>, s: string, max: int)
    requires Describes(st, done, cur, sents, max) && cur != [] && |Line(cur)| + 1 + |s| <= max
    ensures Describes(Packing(st.out, Line(cur) + " " + s), done, cur + [s], sents + [s], max)
  {
    hide Join, FlatMap, Packed;
    JoinSnoc(cur, s, " ");
    Assoc(Concat(done), cur, [s]);
    PackedGrows(done, cur, s, max);
  }

  /** One step: a hard split, a sentence that joins, or one that begins a part. */
  lemma PackStepIs(st: Packing, s: string, max: int)
    ensures PackStep(st, s, max) ==
              if |s| > max then Packing(FlushPart(st).out + HardSplit(s, max), "")
              else if |st.b| > 0 && |st.b| + 1 + |s| <= max then Packing(st.out, st.b + " " + s)
              else Packing(FlushPart(st).out, s)
  {
    NothingKept();
    hide Kept, HardSplit;
    assert FlushPart(st).out + [] == FlushPart(st).out && st.out + [] == st.out;
  }

  lemma NothingKept()
    ensures Kept("") == []
  {
    LineOfOne("");
    LineKept([]);
    hide Kept, Join;
  }

  /** Where the open group is empty or cannot take the sentence, neither can the last finished one. */
  lemma LastIsFull(st: Packing, done: seq<seq<string>>, cur: seq<string>, sents: seq<string>, s: string, max: int)
    requires Describes(st, done, cur, sents, max) && (cur == [] || |st.b| + 1 + |s| > max)
    ensures var gs := WithOpen(done, cur); gs != [] ==> |Line(gs[|gs| - 1])| + 1 + |s| > max
    ensures Packed(WithOpen(done, cur), max)
  {
    hide Packed, Join, FlatMap, Concat;
  }

  lemma OpenIs(st: Packing, done: seq<seq<string>>, cur: seq<string>, sents: seq<string>, max: int)
    requires Describes(st, done, cur, sents, max) && Written(cur)
    ensures st.b == Line(cur) && (st.b == "" <==> cur == [])
  {
    LineKept(cur);
    hide Packed, Join, FlatMap, Concat, Kept, Written;
  }

  lemma StepDescribed(st: Packing, done: seq<seq<string>>, cur: seq<string>, sents: seq<string>, s: string, max: int)
    returns (done2: seq<seq<string>>, cur2: seq<string>)
    requires Describes(st, done, cur, sents, max) && Written(cur) && 0 <= max
    ensures Describes(PackStep(st, s, max), done2, cur2, sents + [s], max)
    ensures cur2 == [] || cur2 == [s] || cur2 == cur + [s]
  {
    hide *;
    var gs := WithOpen(done, cur);
    PackStepIs(st, s, max);
    OpenIs(st, done, cur, sents, max);
    if |s| <= max && |st.b| > 0 && |st.b| + 1 + |s| <= max {
      done2, cur2 := done, cur + [s];
      Joining(st, done, cur, sents, s, max);
    } else {
      Flushes(st, done, cur, sents, max);
      LastIsFull(st, done, cur, sents, s, max);
      if |s| > max {
        done2, cur2 := gs + [[s]], [];
        TooLong(gs, sents, FlushPart(st).out, s, max);
      } else {
        done2, cur2 := gs, [s];
        Begins(gs, sents, FlushPart(st).out, s, max);
      }
    }
  }

  lemma NoneDescribed(max: int)
    requires 0 <= max
    ensures Describes(Pack([], max), [], [], [], max)
  {
    LineOfOne("");
    hide PackStep, Join;
  }

  lemma {:induction false} PackDescribed(sents: seq<string>, max: int) returns (done: seq<seq<string>>, cur: seq<string>)
    requires Written(sents) && 0 <= max
    ensures Describes(Pack(sents, max), done, cur, sents, max) && Written(cur)
    decreases |sents|
  {
    hide PackStep, Trimmed, Join, Describes;
    if sents == [] {
      done, cur := [], [];
      NoneDescribed(max);
    } else {
      var front, s := sents[..|sents| - 1], sents[|sents| - 1];
      var before: seq<string>;
      done, before := PackDescribed(front, max);
      done, cur := StepDescribed(Pack(front, max), done, before, front, s, max);
      assert front + [s] == sents;
      assert Written(cur);
    }
  }

  /**
   * The parts of an oversized paragraph with several sentences are greedy groups of its sentences, in order: no part
   * could have taken the next sentence, and only a sentence that is too long by itself is split hard.
   */
  lemma PartsAreGreedy(p: string, max: int) returns (gs: seq<seq<string>>)
    requires 1 <= max < |p| && |SplitSentences(p)| > 1
    ensures Concat(gs) == SplitSentences(p) && Packed(gs, max)
    ensures SplitOversized(p, max) == FlatMap(PartsOfGroup(max), gs)
  {
    hide SplitSentences, Pack, FlatMap, Describes, Written, HardSplit, FlushPart, Ink, InkAll, Packed, Concat;
    var sents := SplitSentences(p);
    SplitSentencesKeepsInk(p);
    var done, cur := PackDescribed(sents, max);
    gs := WithOpen(done, cur);
    Flushes(Pack(sents, max), done, cur, sents, max);
    DescribesPacked(Pack(sents, max), done, cur, sents, max);
    PackIsOk(sents, max);
    FlushPartOk(Pack(sents, max), InkAll(sents), max);
    FlushedIsInk(Pack(sents, max));
    SomeInk(sents, FlushPart(Pack(sents, max)).out);
  }

  lemma DescribesPacked(st: Packing, done: seq<seq<string>>, cur: seq<string>, sents: seq<string>, max: int)
    requires Describes(st, done, cur, sents, max)
    ensures Packed(WithOpen(done, cur), max)
  {
    hide Packed, Join, FlatMap;
  }

  /** Sentences have ink, so what carries it is not empty. */
  lemma SomeInk(sents: seq<string>, out: seq<string>)
    requires sents != [] && Written(sents) && InkAll(out) == InkAll(sents)
    ensures out != []
  {
    InkBlank(sents[0]);
    hide Ink, IsSpace;
  }
}
