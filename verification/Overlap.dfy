/** What an overlap puts in front of a chunk (pkg/rag/splitter.go): the longest end of the text before it for which
    there is room. */
module Overlap {
  import opened Runes
  import opened Splitter
  import opened Chunker
  import opened TextSplitter

  /** `e` ends `s`, has no white space at its own ends and at most `n` runes. */
  ghost predicate EndUpTo(s: string, e: string, n: int) {
    EndsWith(s, e) && Trimmed(e) && |e| <= n
  }

  ghost predicate LongestEnd(s: string, e: string, n: int) {
    (e == "" || EndUpTo(s, e, n)) && forall f :: EndUpTo(s, f, n) ==> |f| <= |e|
  }

  lemma LastOf(pre: string, t: string, post: string)
    ensures post != "" ==> var x := pre + t + post; x[|x| - 1] == post[|post| - 1]
  {
  }

  lemma TwoTrimmed(s: string, text: string)
    requires s != "" && Trimmed(s) && text != "" && Trimmed(text)
    ensures Trimmed(s + "\n\n" + text)
  {
  }

  /** Trimming the last `n` runes leaves the longest end. */
  lemma TrimmedEnd(s: string, n: nat)
    requires s != "" && Trimmed(s) && n <= |s|
    ensures LongestEnd(s, TrimSpace(s[|s| - n..]), n)
  {
    var x := s[|s| - n..];
    var t := TrimSpace(x);
    var pre, post := TrimSplits(x);
    hide TrimSpace, IsSpace;
    assert forall k :: 0 <= k < n ==> x[k] == s[|s| - n + k];
    if n > 0 {
      assert !IsSpace(x[n - 1]);
      LastOf(pre, t, post);
      assert |t| <= |s| && s[|s| - |t|..] == t;
    }
    assert forall k :: 0 <= k < |pre| ==> x[k] == pre[k];
    forall f | EndUpTo(s, f, n)
      ensures |f| <= |t|
    {
      assert f != "" ==> f[0] == x[n - |f|];
    }
  }

  /** An end of an end that is the longest in the smaller room. */
  lemma EndOfEnd(s: string, w: string, e: string, n: int, m: int)
    requires w != "" && LongestEnd(s, w, n) && LongestEnd(w, e, m) && m <= n
    ensures LongestEnd(s, e, m)
  {
    hide Trimmed;
    forall f | EndUpTo(s, f, m)
      ensures |f| <= |e|
    {
      assert |f| <= |w|;
      assert EndsWith(w, f);
    }
  }

  /** With room for all of it an end without white space at its ends is the longest of itself. */
  lemma WholeEnd(s: string, n: int)
    requires Trimmed(s) && |s| <= n
    ensures LongestEnd(s, s, n)
  {
    hide Trimmed;
    assert s[0..] == s;
  }

  /** What is put in front when the joined text is cut by `over` runes. */
  function FrontCut(w: string, over: nat): string {
    if over <= |w| then TrimSpace(w[over..]) else ""
  }

  lemma CutFront(w: string, text: string, over: nat)
    requires w != "" && Trimmed(w) && text != "" && Trimmed(text) && over <= |w| + 1
    ensures var s := FrontCut(w, over);
            TrimSpace((w + "\n\n" + text)[over..]) == if s == "" then text else s + "\n\n" + text
  {
    var joined := w + "\n\n" + text;
    assert Blank("\n\n") && Blank("\n") && Blank("");
    hide TrimSpace;
    if over <= |w| {
      var x := w[over..];
      assert joined[over..] == x + "\n\n" + text;
      var pre, post := TrimSplits(x);
      var s := TrimSpace(x);
      if s == "" {
        hide IsSpace;
        BlankAppend(pre, post);
        assert x == pre + post;
        BlankAppend(x, "\n\n");
        hide Trimmed, Blank;
        TrimUnique(x + "\n\n", text, "");
        assert (x + "\n\n") + text + "" == joined[over..];
      } else {
        assert x[|x| - 1] == w[|w| - 1];
        LastOf(pre, s, post);
        assert post == "";
        TwoTrimmed(s, text);
        hide IsSpace, Trimmed, Blank;
        TrimUnique(pre, s + "\n\n" + text, "");
        assert pre + (s + "\n\n" + text) + "" == joined[over..];
      }
    } else {
      assert joined[over..] == "\n" + text + "";
      hide IsSpace;
      TrimUnique("\n", text, "");
    }
  }

  lemma FrontCutIs(w: string, over: nat)
    requires w != "" && Trimmed(w)
    ensures LongestEnd(w, FrontCut(w, over), |w| - over)
  {
    hide Trimmed, TrimSpace;
    if over <= |w| {
      TrimmedEnd(w, |w| - over);
    }
  }

  lemma SuffixIs(prev: string, overlap: int)
    requires prev != "" && Trimmed(prev) && 0 < overlap
    ensures RuneSuffix(prev, overlap) != "" && Trimmed(RuneSuffix(prev, overlap))
    ensures LongestEnd(prev, RuneSuffix(prev, overlap), overlap)
  {
    if |prev| <= overlap {
      WholeEnd(prev, overlap);
    } else {
      TrimmedEnd(prev, overlap);
      TrimBlank(prev[|prev| - overlap..]);
      assert prev[|prev| - overlap..][overlap - 1] == prev[|prev| - 1];
    }
  }

  /** In front of a chunk stands the longest end of the text before it that has at most `overlap` runes and leaves
      the whole within `size + overlap`, and a blank line; nothing, when there is no such end. */
  lemma FrontIsLongestEnd(prev: string, text: string, size: int, overlap: int) returns (front: string)
    requires prev != "" && Trimmed(prev) && text != "" && Trimmed(text) && |text| <= size && 0 < overlap
    ensures OverlapText(prev, text, size, overlap) == if front == "" then text else front + "\n\n" + text
    ensures LongestEnd(prev, front, Least(overlap, size + overlap - 2 - |text|))
  {
    hide LongestEnd, Trimmed, TrimSpace;
    SuffixIs(prev, overlap);
    var w := RuneSuffix(prev, overlap);
    var room := size + overlap - 2 - |text|;
    assert |w| <= overlap by { EndLength(prev, w, overlap); }
    if |w| <= room {
      front := w;
      Narrowed(prev, w, overlap, Least(overlap, room));
    } else {
      var over := |w| - room;
      front := FrontCut(w, over);
      CutFront(w, text, over);
      FrontCutIs(w, over);
      EndOfEnd(prev, w, front, overlap, room);
    }
  }

  function Least(a: int, b: int): int {
    if a <= b then a else b
  }

  lemma EndLength(s: string, e: string, n: int)
    requires LongestEnd(s, e, n) && 0 <= n
    ensures |e| <= n
  {
  }

  lemma Narrowed(s: string, e: string, n: int, m: int)
    requires LongestEnd(s, e, n) && |e| <= m <= n
    ensures LongestEnd(s, e, m)
  {
  }

  /** In the chunks of a text, chunk `k` is its own text behind the longest end of the own text of chunk `k - 1`. */
  lemma ChunksOverlap(format: Format, text: string, opt: SplitOptions, bounds: seq<int>, k: nat) returns (front: string)
    requires 0 < k < |SplitText(format, text, opt, bounds)| && Normalized(opt).chunkOverlap > 0
    ensures var out, o := SplitText(format, text, opt, bounds), Normalized(opt);
            var base := BaseChunks(BlocksOf(format, TrimSpace(text), bounds), o.chunkSize);
            && |base| == |out| && out[k].text == (if front == "" then base[k].text else front + "\n\n" + base[k].text)
            && LongestEnd(base[k - 1].text, front,
                          Least(o.chunkOverlap, o.chunkSize + o.chunkOverlap - 2 - |base[k].text|))
  {
    hide *;
    var s, o := TrimSpace(text), Normalized(opt);
    var blocks := BlocksOf(format, s, bounds);
    var base := BaseChunks(blocks, o.chunkSize);
    SplitIsOverlapped(format, text, opt, bounds);
    TrimSpaceTrimmed(text);
    BlocksHaveInk(format, s, bounds);
    BaseChunksOk(blocks, o.chunkSize);
    WrittenAt(base, o.chunkSize, k - 1);
    WrittenAt(base, o.chunkSize, k);
    front := FrontIsLongestEnd(base[k - 1].text, base[k].text, o.chunkSize, o.chunkOverlap);
    OverlapAt(base, o.chunkSize, o.chunkOverlap, k);
  }

  lemma WrittenAt(base: seq<Chunk>, size: int, k: nat)
    requires k < |base| && Written(ChunkTexts(base)) && AtMost(ChunkTexts(base), size)
    ensures base[k].text != "" && Trimmed(base[k].text) && |base[k].text| <= size
  {
    hide Trimmed;
    assert ChunkTexts(base)[k] == base[k].text;
  }

  lemma OverlapAt(base: seq<Chunk>, size: int, overlap: int, k: nat)
    requires 0 < k < |base| && overlap > 0
    ensures WithOverlap(base, size, overlap)[k].text == OverlapText(base[k - 1].text, base[k].text, size, overlap)
  {
    hide OverlapText;
  }
}
