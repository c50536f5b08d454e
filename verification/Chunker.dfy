/** Greedy merge of pieces into chunks, chunk numbering and overlap (pkg/rag/splitter.go). */
module Chunker {
  import opened Runes
  import opened Splitter

  /** Text with its heading path and its PDF page range; 0 means no page. */
  datatype Piece = Piece(text: string, path: seq<string>, lo: int, hi: int)

  predicate Fit(pieces: seq<Piece>, size: int) {
    forall i :: 0 <= i < |pieces| ==> 0 < |pieces[i].text| <= size
  }

  function Texts(pieces: seq<Piece>): seq<string> {
    seq(|pieces|, i requires 0 <= i < |pieces| => pieces[i].text)
  }

  lemma TextsAppend(a: seq<Piece>, b: seq<Piece>)
    ensures Texts(a + b) == Texts(a) + Texts(b)
  {
  }

  // ----- Grouping

  function GroupText(g: seq<Piece>): string {
    Join(Texts(g), "\n")
  }

  lemma GroupTextSnoc(g: seq<Piece>, p: Piece)
    ensures GroupText(g + [p]) == if g == [] then p.text else GroupText(g) + "\n" + p.text
  {
    assert Texts(g + [p]) == Texts(g) + [p.text];
    JoinSnoc(Texts(g), p.text, "\n");
  }

  /** A piece joins a group with the same heading path while the text stays within the size. */
  predicate Joins(g: seq<Piece>, p: Piece, size: int) {
    g != [] && g[0].path == p.path && |GroupText(g)| + 1 + |p.text| <= size
  }

  datatype Grouping = Grouping(done: seq<seq<Piece>>, cur: seq<Piece>)

  function AddPiece(g: Grouping, p: Piece, size: int): Grouping {
    if g.cur == [] then Grouping(g.done, [p])
    else if Joins(g.cur, p, size) then Grouping(g.done, g.cur + [p])
    else Grouping(g.done + [g.cur], [p])
  }

  function Grouped(pieces: seq<Piece>, size: int): Grouping {
    if pieces == [] then Grouping([], [])
    else AddPiece(Grouped(pieces[..|pieces| - 1], size), pieces[|pieces| - 1], size)
  }

  /** The groups behind the chunks, in order. */
  function Groups(pieces: seq<Piece>, size: int): seq<seq<Piece>> {
    var g := Grouped(pieces, size);
    if g.cur == [] then g.done else g.done + [g.cur]
  }

  function Concat<T>(xss: seq<seq<T>>): seq<T> {
    if xss == [] then [] else Concat(xss[..|xss| - 1]) + xss[|xss| - 1]
  }

  lemma ConcatSnoc<T>(xss: seq<seq<T>>, xs: seq<T>)
    ensures Concat(xss + [xs]) == Concat(xss) + xs
  {
    assert (xss + [xs])[..|xss|] == xss;
  }

  ghost predicate GroupOk(g: seq<Piece>, size: int) {
    && g != [] && |GroupText(g)| <= size
    && forall i :: 0 <= i < |g| ==> g[i].path == g[0].path
  }

  ghost predicate Apart(g: seq<Piece>, h: seq<Piece>, size: int) {
    g != [] && h != [] && (g[0].path != h[0].path || |GroupText(g)| + 1 + |h[0].text| > size)
  }

  /** Neighbours could not have been merged: they differ in heading path or exceed the size together. */
  ghost predicate Greedy(gs: seq<seq<Piece>>, size: int) {
    forall k :: 0 < k < |gs| ==> Apart(gs[k - 1], gs[k], size)
  }

  ghost predicate GroupingOk(gs: seq<seq<Piece>>, pieces: seq<Piece>, size: int) {
    Concat(gs) == pieces && (forall g :: g in gs ==> GroupOk(g, size)) && Greedy(gs, size)
  }

  ghost predicate StateOk(g: Grouping, pieces: seq<Piece>, size: int) {
    if g.cur == [] then g.done == [] && pieces == []
    else GroupingOk(g.done + [g.cur], pieces, size)
  }

  lemma SingletonOk(p: Piece, size: int)
    requires |p.text| <= size
    ensures GroupOk([p], size)
  {
    GroupTextSnoc([], p);
    assert [] + [p] == [p];
  }

  lemma GrownGroupOk(g: seq<Piece>, p: Piece, size: int)
    requires GroupOk(g, size) && Joins(g, p, size)
    ensures GroupOk(g + [p], size)
  {
    GroupTextSnoc(g, p);
    hide GroupText;
  }

  lemma AddPieceOk(g: Grouping, p: Piece, pieces: seq<Piece>, size: int)
    requires StateOk(g, pieces, size) && |p.text| <= size
    ensures StateOk(AddPiece(g, p, size), pieces + [p], size)
  {
    hide GroupOk, Joins, Concat, Greedy;
    SingletonOk(p, size);
    if g.cur == [] {
      ConcatSnoc([], [p]);
      assert Concat<Piece>([]) == [] by { ConcatNone<Piece>(); }
      assert [] + [p] == [p] && g.done + [[p]] == [[p]];
      assert Greedy([[p]], size) by { GreedyOne([p], size); }
    } else if Joins(g.cur, p, size) {
      GrownGroupOk(g.cur, p, size);
      ConcatSnoc(g.done, g.cur);
      ConcatSnoc(g.done, g.cur + [p]);
      Assoc(Concat(g.done), g.cur, [p]);
      GreedyGrows(g.done, g.cur, p, size);
    } else {
      ConcatSnoc(g.done + [g.cur], [p]);
      GreedyCloses(g.done, g.cur, p, size);
    }
  }

  lemma GreedyGrows(done: seq<seq<Piece>>, cur: seq<Piece>, p: Piece, size: int)
    requires cur != [] && Greedy(done + [cur], size)
    ensures Greedy(done + [cur + [p]], size)
  {
    hide GroupText;
    var a: seq<seq<Piece>>, b: seq<seq<Piece>> := done + [cur], done + [cur + [p]];
    forall k | 0 < k < |b|
      ensures Apart(b[k - 1], b[k], size)
    {
      assert Apart(a[k - 1], a[k], size) && b[k - 1] == a[k - 1] && b[k][0] == a[k][0];
    }
  }

  lemma GreedyCloses(done: seq<seq<Piece>>, cur: seq<Piece>, p: Piece, size: int)
    requires cur != [] && Greedy(done + [cur], size) && !Joins(cur, p, size)
    ensures Greedy(done + [cur] + [[p]], size)
  {
    hide GroupText;
    assert Apart(cur, [p], size);
  }

  lemma GreedyOne(g: seq<Piece>, size: int)
    ensures Greedy([g], size)
  {
  }

  lemma ConcatNone<T>()
    ensures Concat<T>([]) == []
  {
  }

  lemma NoGroups(size: int)
    ensures StateOk(Grouped([], size), [], size)
  {
    hide Concat, GroupingOk;
  }

  lemma {:induction false} GroupedOk(pieces: seq<Piece>, size: int)
    requires Fit(pieces, size)
    ensures StateOk(Grouped(pieces, size), pieces, size)
  {
    hide AddPiece, StateOk;
    if pieces == [] {
      NoGroups(size);
    } else {
      var front, p := pieces[..|pieces| - 1], pieces[|pieces| - 1];
      GroupedOk(front, size);
      AddPieceOk(Grouped(front, size), p, front, size);
      assert pieces == front + [p];
    }
  }

  /** The merge keeps every piece in order, never mixes heading paths, never exceeds the size and
      never closes a group too early. */
  lemma GroupsAreGreedy(pieces: seq<Piece>, size: int)
    requires Fit(pieces, size)
    ensures GroupingOk(Groups(pieces, size), pieces, size)
  {
    GroupedOk(pieces, size);
    hide Grouped;
    ConcatNone<Piece>();
  }

  // ----- Rendering the groups

  function UnionRange(a: (int, int), b: (int, int)): (int, int) {
    if b.0 <= 0 then a
    else if a.0 <= 0 then b
    else (if b.0 < a.0 then b.0 else a.0, if b.1 > a.1 then b.1 else a.1)
  }

  function RangeOf(g: seq<Piece>): (int, int) {
    if g == [] then (0, 0)
    else
      var last := g[|g| - 1];
      if |g| == 1 then (last.lo, last.hi) else UnionRange(RangeOf(g[..|g| - 1]), (last.lo, last.hi))
  }

  lemma RangeOfSnoc(g: seq<Piece>, p: Piece)
    ensures RangeOf(g + [p]) == if g == [] then (p.lo, p.hi) else UnionRange(RangeOf(g), (p.lo, p.hi))
  {
    assert (g + [p])[..|g|] == g;
  }

  /** What a flush appends for a group. */
  function Render(g: seq<Piece>): seq<Piece> {
    var t := TrimSpace(GroupText(g));
    if t == "" || g == [] then [] else [Piece(t, g[0].path, RangeOf(g).0, RangeOf(g).1)]
  }

  function Merge(pieces: seq<Piece>, size: int): seq<Piece> {
    FlatMap(Render, Groups(pieces, size))
  }

  /** The builder variables of the merge loop describe the open group. */
  ghost predicate Builds(cur: string, runes: nat, path: seq<string>, range: (int, int), g: seq<Piece>) {
    && cur == GroupText(g) && runes == |cur| && (g == [] <==> cur == "")
    && (g != [] ==> path == g[0].path && range == RangeOf(g))
  }

  method AddToChunk(merged0: seq<Piece>, cur0: string, runes0: nat, path0: seq<string>, range0: (int, int),
                    p: Piece, size: int, ghost g: Grouping)
    returns (merged: seq<Piece>, cur: string, runes: nat, path: seq<string>, range: (int, int))
    requires p.text != "" && Builds(cur0, runes0, path0, range0, g.cur) && merged0 == FlatMap(Render, g.done)
    ensures Builds(cur, runes, path, range, AddPiece(g, p, size).cur)
    ensures merged == FlatMap(Render, AddPiece(g, p, size).done)
  {
    merged := merged0;
    GroupTextSnoc([], p);
    RangeOfSnoc([], p);
    assert [] + [p] == [p];
    hide GroupText, RangeOf, TrimSpace, UnionRange;
    if runes0 == 0 {
      cur, runes, path, range := p.text, |p.text|, p.path, (p.lo, p.hi);
      return;
    }
    if path0 != p.path || runes0 + 1 + |p.text| > size {
      var t := TrimSpace(cur0);
      FlatMapSnoc(Render, g.done, g.cur);
      if t != "" {
        merged := merged + [Piece(t, path0, range0.0, range0.1)];
      }
      cur, runes, path, range := p.text, |p.text|, p.path, (p.lo, p.hi);
      return;
    }
    GroupTextSnoc(g.cur, p);
    RangeOfSnoc(g.cur, p);
    cur, runes, path, range := cur0 + "\n" + p.text, runes0 + 1 + |p.text|, path0, UnionRange(range0, (p.lo, p.hi));
  }

  method ComputeMerge(pieces: seq<Piece>, size: int) returns (merged: seq<Piece>)
    requires forall p :: p in pieces ==> p.text != ""
    ensures merged == Merge(pieces, size)
  {
    merged := [];
    var cur, runes, path, range := "", 0, [], (0, 0);
    assert Grouped([], size) == Grouping([], []);
    hide Grouped, AddPiece, RangeOf, TrimSpace;
    for i := 0 to |pieces|
      invariant Builds(cur, runes, path, range, Grouped(pieces[..i], size).cur)
      invariant merged == FlatMap(Render, Grouped(pieces[..i], size).done)
    {
      ghost var g := Grouped(pieces[..i], size);
      assert Grouped(pieces[..i + 1], size) == AddPiece(Grouped(pieces[..i], size), pieces[i], size) by {
        hide AddPiece;
        assert pieces[..i + 1][..i] == pieces[..i];
      }
      merged, cur, runes, path, range := AddToChunk(merged, cur, runes, path, range, pieces[i], size, g);
    }
    assert pieces[..|pieces|] == pieces;
    ghost var g := Grouped(pieces, size);
    FlatMapSnoc(Render, g.done, g.cur);
    var t := TrimSpace(cur);
    TrimBlank("");
    if t != "" {
      merged := merged + [Piece(t, path, range.0, range.1)];
    }
  }

  lemma RenderOk(g: seq<Piece>, size: int)
    requires GroupOk(g, size)
    ensures InkAll(Texts(Render(g))) == InkAll(Texts(g))
    ensures Written(Texts(Render(g))) && AtMost(Texts(Render(g)), size)
  {
    var text := GroupText(g);
    InkBlank("\n");
    InkJoin(Texts(g), "\n");
    KeptIsWritten(text, size);
    assert Texts(Render(g)) == Kept(GroupText(g));
  }

  lemma {:induction false} MergedOk(gs: seq<seq<Piece>>, size: int)
    requires forall g :: g in gs ==> GroupOk(g, size)
    ensures InkAll(Texts(FlatMap(Render, gs))) == InkAll(Texts(Concat(gs)))
    ensures Written(Texts(FlatMap(Render, gs))) && AtMost(Texts(FlatMap(Render, gs)), size)
  {
    hide Render, GroupOk, Texts, InkAll, Written, AtMost;
    if gs == [] {
      ConcatNone<Piece>();
      assert Texts([]) == [] by { NoTexts(); }
      WrittenIf([], size);
    } else {
      var front, g := gs[..|gs| - 1], gs[|gs| - 1];
      MergedOk(front, size);
      RenderOk(g, size);
      assert gs == front + [g];
      FlatMapSnoc(Render, front, g);
      TextsAppend(FlatMap(Render, front), Render(g));
      TextsAppend(Concat(front), g);
      InkAllAppend(Texts(FlatMap(Render, front)), Texts(Render(g)));
      InkAllAppend(Texts(Concat(front)), Texts(g));
      WrittenAppend(Texts(FlatMap(Render, front)), Texts(Render(g)), size);
    }
  }

  lemma NoTexts()
    ensures Texts([]) == []
  {
  }

  /** Merging keeps the ink of the pieces and the size bound, and leaves no text with outer white space. */
  lemma MergeKeepsInk(pieces: seq<Piece>, size: int)
    requires Fit(pieces, size)
    ensures var texts := Texts(Merge(pieces, size));
            InkAll(texts) == InkAll(Texts(pieces)) && Written(texts) && AtMost(texts, size)
  {
    hide GroupOk, Greedy, Groups, Texts, InkAll, Written, AtMost;
    GroupsAreGreedy(pieces, size);
    MergedOk(Groups(pieces, size), size);
  }

  // ----- Page ranges

  /** Page numbers are positive and do not decrease along the pieces. */
  ghost predicate PagesInOrder(pieces: seq<Piece>) {
    && (forall i :: 0 <= i < |pieces| ==> 1 <= pieces[i].lo <= pieces[i].hi)
    && (forall i, j :: 0 <= i < j < |pieces| ==> pieces[i].hi <= pieces[j].lo)
  }

  /** The union of the ranges in a group runs from the page of its first piece to that of its last. */
  lemma {:induction false} RangeIsFirstToLast(g: seq<Piece>)
    requires g != [] && PagesInOrder(g)
    ensures RangeOf(g) == (g[0].lo, g[|g| - 1].hi)
  {
    if |g| > 1 {
      RangeIsFirstToLast(g[..|g| - 1]);
    }
  }

  /** Pieces without a page add nothing to the range of a group: it runs from the least first page of the others to
      their greatest last page, and without any it is that of the first piece. */
  lemma {:induction false} RangeCovers(g: seq<Piece>)
    requires g != []
    ensures (forall i :: 0 <= i < |g| ==> g[i].lo <= 0) ==> RangeOf(g) == (g[0].lo, g[0].hi)
    ensures forall i :: 0 <= i < |g| && g[i].lo > 0 ==> 0 < RangeOf(g).0 <= g[i].lo && g[i].hi <= RangeOf(g).1
    ensures (exists i :: 0 <= i < |g| && g[i].lo > 0) ==>
              && (exists i :: 0 <= i < |g| && g[i].lo > 0 && g[i].lo == RangeOf(g).0)
              && (exists i :: 0 <= i < |g| && g[i].lo > 0 && g[i].hi == RangeOf(g).1)
  {
    if |g| > 1 {
      var front := g[..|g| - 1];
      RangeCovers(front);
      assert forall i :: 0 <= i < |front| ==> front[i] == g[i];
      assert g[|g| - 1].lo > 0 || (RangeOf(g) == RangeOf(front));
      hide RangeOf;
    }
  }

  // ----- Chunks and overlap

  datatype Pages = NoPages | Pages(first: int, last: int)

  datatype Chunk = Chunk(index: nat, total: nat, text: string, headingPath: string, pages: Pages)

  function PagesOf(lo: int, hi: int): Pages {
    if lo > 0 && hi >= lo then Pages(lo, hi) else NoPages
  }

  function Number(merged: seq<Piece>): seq<Chunk> {
    seq(|merged|, i requires 0 <= i < |merged| =>
      var m := merged[i];
      Chunk(i, |merged|, m.text, Join(m.path, " › "), PagesOf(m.lo, m.hi)))
  }

  method ComputeChunks(merged: seq<Piece>) returns (out: seq<Chunk>)
    ensures out == Number(merged)
  {
    out := [];
    for i := 0 to |merged|
      invariant |out| == i
      invariant forall k :: 0 <= k < i ==>
        out[k] == Chunk(0, 0, merged[k].text, Join(merged[k].path, " › "), PagesOf(merged[k].lo, merged[k].hi))
    {
      var m := merged[i];
      out := out + [Chunk(0, 0, m.text, Join(m.path, " › "), PagesOf(m.lo, m.hi))];
    }
    for i := 0 to |out|
      invariant |out| == |merged|
      invariant forall k :: 0 <= k < i ==> out[k] == Number(merged)[k]
      invariant forall k :: i <= k < |out| ==>
        out[k] == Chunk(0, 0, merged[k].text, Join(merged[k].path, " › "), PagesOf(merged[k].lo, merged[k].hi))
    {
      out := out[i := out[i].(index := i, total := |out|)];
    }
  }

  /** The last `max` runes, trimmed when something was cut. */
  function RuneSuffix(s: string, max: int): string {
    if max <= 0 || s == "" then ""
    else if |s| <= max then s
    else TrimSpace(s[|s| - max..])
  }

  function OverlapText(prev: string, text: string, size: int, overlap: int): string {
    var suffix := RuneSuffix(prev, overlap);
    if suffix == "" then text
    else
      var joined := suffix + "\n\n" + text;
      if |joined| > size + overlap then RuneSuffix(joined, size + overlap) else joined
  }

  function WithOverlap(chunks: seq<Chunk>, size: int, overlap: int): seq<Chunk> {
    seq(|chunks|, i requires 0 <= i < |chunks| =>
      if i == 0 || overlap <= 0 then chunks[i]
      else chunks[i].(text := OverlapText(chunks[i - 1].text, chunks[i].text, size, overlap)))
  }

  method ComputeOverlap(chunks: seq<Chunk>, size: int, overlap: int) returns (out: seq<Chunk>)
    ensures out == WithOverlap(chunks, size, overlap)
  {
    hide RuneSuffix;
    if overlap <= 0 || |chunks| < 2 {
      return chunks;
    }
    out := [];
    for i := 0 to |chunks|
      invariant |out| == i
      invariant forall k :: 0 <= k < i ==> out[k] == WithOverlap(chunks, size, overlap)[k]
    {
      var text := chunks[i].text;
      if i > 0 {
        var suffix := RuneSuffix(chunks[i - 1].text, overlap);
        if suffix != "" {
          text := suffix + "\n\n" + text;
          if |text| > size + overlap {
            text := RuneSuffix(text, size + overlap);
          }
        }
      }
      out := out + [chunks[i].(text := text)];
    }
  }

  ghost predicate EndsWith(s: string, t: string) {
    |t| <= |s| && s[|s| - |t|..] == t
  }

  lemma TrimKeepsEnd(x: string, t: string)
    requires t != "" && Trimmed(t)
    ensures EndsWith(TrimSpace(x + t), t)
  {
    var y := TrimLeft(x);
    TrimLeftIs(x);
    var pre := x[..|x| - |y|];
    assert x + t == pre + (y + t) + "";
    TrimUnique(pre, y + t, "");
  }

  /** Even when the joined text is cut, a chunk's own text survives whole at the end, and the result
      has at most `size + overlap` runes. */
  lemma OverlapKeepsText(prev: string, text: string, size: int, overlap: int)
    requires 0 <= overlap && text != "" && Trimmed(text) && |text| <= size
    ensures EndsWith(OverlapText(prev, text, size, overlap), text)
    ensures |OverlapText(prev, text, size, overlap)| <= size + overlap
  {
    hide TrimSpace, Trimmed;
    var suffix := RuneSuffix(prev, overlap);
    if suffix != "" {
      var joined := suffix + "\n\n" + text;
      if |joined| > size + overlap {
        var tail := joined[|joined| - (size + overlap)..];
        var x := tail[..|tail| - |text|];
        assert tail == x + text;
        TrimKeepsEnd(x, text);
      }
    }
  }
}
