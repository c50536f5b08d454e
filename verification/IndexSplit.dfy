/**
 * How internal/service/index_split.go cuts an oversized chunk into segments of whole lines, with an overlap of three
 * lines and at most 32 segments. Texts are sequences of bytes here.
 */
module IndexSplit {
  import opened Runes

  const MAX_CHUNK_BYTES: nat := 8192
  const OVERLAP: nat := 3
  const MAX_SEGMENTS: nat := 32

  /** The bytes of some lines with a line break between them. */
  function Text(lines: seq<string>, lo: nat, hi: nat): string
    requires lo <= hi <= |lines|
  {
    Join(lines[lo..hi], "\n")
  }

  function Size(lines: seq<string>, lo: nat, hi: nat): nat
    requires lo <= hi <= |lines|
  {
    |Text(lines, lo, hi)|
  }

  /** A segment holds whole lines, or the start of a line that is too long by itself. */
  datatype Segment = Lines(lo: nat, hi: nat) | Cut(line: nat)

  /** The first end from `end` on whose text is too long, less one: the inner loop. */
  function TakeEnd(lines: seq<string>, start: nat, end: nat, max: nat): (e: nat)
    requires start < end <= |lines| + 1
    ensures end - 1 <= e <= |lines|
    decreases |lines| - end + 1
  {
    if end > |lines| || Size(lines, start, end) > max then end - 1 else TakeEnd(lines, start, end + 1, max)
  }

  function EndOf(lines: seq<string>, start: nat, max: nat): (e: nat)
    requires start < |lines|
    ensures start <= e <= |lines|
  {
    TakeEnd(lines, start, start + 1, max)
  }

  function NextStart(e: nat): nat {
    if e >= OVERLAP then e - OVERLAP else 0
  }

  /** The segments from line `start` on, as long as there is room for them. */
  function Segments(lines: seq<string>, start: nat, max: nat, room: nat): (segs: seq<Segment>)
    requires start <= |lines|
    ensures |segs| <= room
    decreases room
  {
    if start == |lines| || room == 0 then []
    else
      var e := EndOf(lines, start, max);
      if e == start then [Cut(start)] + Segments(lines, start + 1, max, room - 1)
      else if e == |lines| then [Lines(start, e)]
      else [Lines(start, e)] + Segments(lines, NextStart(e), max, room - 1)
  }

  function Rendered(lines: seq<string>, s: Segment, max: nat): string
    requires SegmentOk(lines, s)
  {
    match s
    case Cut(i) => (if |lines[i]| > max then lines[i][..max] + "..." else lines[i])
    case Lines(lo, hi) => Text(lines, lo, hi)
  }

  predicate SegmentOk(lines: seq<string>, s: Segment) {
    if s.Cut? then s.line < |lines| else s.lo < s.hi <= |lines|
  }

  function RenderAll(lines: seq<string>, segs: seq<Segment>, max: nat): seq<string>
    requires forall s :: s in segs ==> SegmentOk(lines, s)
  {
    seq(|segs|, i requires 0 <= i < |segs| => assert segs[i] in segs; Rendered(lines, segs[i], max))
  }

  // ----- The loops

  method ComputeEnd(lines: seq<string>, start: nat, max: nat) returns (takeEnd: nat)
    requires start < |lines|
    ensures takeEnd == EndOf(lines, start, max)
  {
    hide Join;
    var end := start + 1;
    while end <= |lines|
      invariant start < end <= |lines| + 1
      invariant TakeEnd(lines, start, end, max) == EndOf(lines, start, max)
      decreases |lines| + 1 - end
    {
      if |Text(lines, start, end)| > max {
        break;
      }
      end := end + 1;
    }
    takeEnd := end - 1;
  }

  lemma {:induction false} SegmentsAreOk(lines: seq<string>, start: nat, max: nat, room: nat)
    requires start <= |lines|
    ensures forall s :: s in Segments(lines, start, max, room) ==> SegmentOk(lines, s)
    decreases room
  {
    hide EndOf;
    if start < |lines| && room > 0 {
      var e := EndOf(lines, start, max);
      if e == start {
        SegmentsAreOk(lines, start + 1, max, room - 1);
      } else if e < |lines| {
        SegmentsAreOk(lines, NextStart(e), max, room - 1);
      }
    }
  }

  lemma RenderAppend(lines: seq<string>, segs: seq<Segment>, s: Segment, max: nat)
    requires SegmentOk(lines, s) && forall x :: x in segs ==> SegmentOk(lines, x)
    ensures forall x :: x in segs + [s] ==> SegmentOk(lines, x)
    ensures RenderAll(lines, segs + [s], max) == RenderAll(lines, segs, max) + [Rendered(lines, s, max)]
  {
    hide Rendered;
  }

  /** The loop over the lines of a chunk. */
  method SplitLines(lines: seq<string>, max: nat) returns (segments: seq<string>, ghost segs: seq<Segment>)
    ensures segs == Segments(lines, 0, max, MAX_SEGMENTS) && forall s :: s in segs ==> SegmentOk(lines, s)
    ensures segments == RenderAll(lines, segs, max)
  {
    hide EndOf, Rendered, RenderAll, Join, Segments, Text;
    segments, segs := [], [];
    var start: nat := 0;
    assert RenderAll(lines, [], max) == [] by { RenderNone(lines, max); }
    while start < |lines| && |segments| < MAX_SEGMENTS
      invariant start <= |lines| && |segments| == |segs| <= MAX_SEGMENTS
      invariant forall s :: s in segs ==> SegmentOk(lines, s)
      invariant segments == RenderAll(lines, segs, max)
      invariant segs + Segments(lines, start, max, MAX_SEGMENTS - |segs|) == Segments(lines, 0, max, MAX_SEGMENTS)
      decreases MAX_SEGMENTS - |segments|
    {
      var takeEnd := ComputeEnd(lines, start, max);
      ghost var s := SegmentAt(lines, start, max);
      ghost var rest := Rest(lines, start, max, MAX_SEGMENTS - |segs|);
      SegmentsNext(lines, start, max, MAX_SEGMENTS - |segs|);
      RenderAppend(lines, segs, s, max);
      Assoc(segs, [s], rest);
      segs := segs + [s];
      if takeEnd <= start {
        var line := lines[start];
        if |line| > max {
          line := line[..max] + "...";
        }
        RenderedCut(lines, start, max, line);
        segments := segments + [line];
        start := start + 1;
        continue;
      }
      RenderedLines(lines, start, takeEnd, max);
      segments := segments + [Text(lines, start, takeEnd)];
      if takeEnd >= |lines| {
        assert segs + rest == segs;
        return;
      }
      start := if takeEnd - OVERLAP < 0 then 0 else takeEnd - OVERLAP;
    }
    assert Segments(lines, start, max, MAX_SEGMENTS - |segs|) == [] by {
      NoMoreSegments(lines, start, max, MAX_SEGMENTS - |segs|);
    }
    assert segs + [] == segs;
  }

  /** The segment made at a line. */
  function SegmentAt(lines: seq<string>, start: nat, max: nat): Segment
    requires start < |lines|
  {
    var e := EndOf(lines, start, max);
    if e == start then Cut(start) else Lines(start, e)
  }

  /** The segments after it. */
  function Rest(lines: seq<string>, start: nat, max: nat, room: nat): seq<Segment>
    requires start < |lines| && room > 0
  {
    var e := EndOf(lines, start, max);
    if e == start then Segments(lines, start + 1, max, room - 1)
    else if e == |lines| then []
    else Segments(lines, NextStart(e), max, room - 1)
  }

  lemma SegmentsNext(lines: seq<string>, start: nat, max: nat, room: nat)
    requires start < |lines| && room > 0
    ensures Segments(lines, start, max, room) == [SegmentAt(lines, start, max)] + Rest(lines, start, max, room)
    ensures SegmentOk(lines, SegmentAt(lines, start, max))
  {
    hide EndOf;
  }

  lemma NoMoreSegments(lines: seq<string>, start: nat, max: nat, room: nat)
    requires start <= |lines| && (start == |lines| || room == 0)
    ensures Segments(lines, start, max, room) == []
  {
  }

  lemma RenderNone(lines: seq<string>, max: nat)
    ensures RenderAll(lines, [], max) == []
  {
  }

  lemma RenderedCut(lines: seq<string>, i: nat, max: nat, line: string)
    requires i < |lines| && line == if |lines[i]| > max then lines[i][..max] + "..." else lines[i]
    ensures Rendered(lines, Cut(i), max) == line
  {
  }

  lemma RenderedLines(lines: seq<string>, lo: nat, hi: nat, max: nat)
    requires lo < hi <= |lines|
    ensures Rendered(lines, Lines(lo, hi), max) == Text(lines, lo, hi)
  {
  }

  // ----- How far a segment reaches

  lemma SizeOne(lines: seq<string>, i: nat)
    requires i < |lines|
    ensures Size(lines, i, i + 1) == |lines[i]|
  {
    assert lines[i..i + 1] == [lines[i]];
  }

  lemma SizeCons(lines: seq<string>, lo: nat, hi: nat)
    requires lo + 1 < hi <= |lines|
    ensures Size(lines, lo, hi) == |lines[lo]| + 1 + Size(lines, lo + 1, hi)
  {
    assert lines[lo..hi][1..] == lines[lo + 1..hi];
  }

  lemma SizeSnoc(lines: seq<string>, lo: nat, hi: nat)
    requires lo < hi < |lines|
    ensures Size(lines, lo, hi + 1) == Size(lines, lo, hi) + 1 + |lines[hi]|
  {
    assert lines[lo..hi + 1] == lines[lo..hi] + [lines[hi]];
    JoinSnoc(lines[lo..hi], lines[hi], "\n");
  }

  lemma {:induction false} SizeGrows(lines: seq<string>, lo: nat, hi: nat, upTo: nat)
    requires lo < hi <= upTo <= |lines|
    ensures Size(lines, lo, hi) <= Size(lines, lo, upTo)
    decreases upTo - hi
  {
    hide Size;
    if hi < upTo {
      SizeSnoc(lines, lo, hi);
      SizeGrows(lines, lo, hi + 1, upTo);
    }
  }

  lemma {:induction false} SizeShrinks(lines: seq<string>, lo: nat, from: nat, hi: nat)
    requires lo <= from < hi <= |lines|
    ensures Size(lines, from, hi) <= Size(lines, lo, hi)
    decreases from - lo
  {
    hide Size;
    if lo < from {
      SizeCons(lines, lo, hi);
      SizeShrinks(lines, lo + 1, from, hi);
    }
  }

  lemma {:induction false} TakeEndIs(lines: seq<string>, start: nat, end: nat, max: nat)
    requires start < end <= |lines| + 1 && (end > start + 1 ==> Size(lines, start, end - 1) <= max)
    ensures var e := TakeEnd(lines, start, end, max);
            (e > start ==> Size(lines, start, e) <= max) && (e < |lines| ==> Size(lines, start, e + 1) > max)
    decreases |lines| - end + 1
  {
    hide Size;
    if end <= |lines| && Size(lines, start, end) <= max {
      TakeEndIs(lines, start, end + 1, max);
    }
  }

  /** A segment ends where one more line would be too much. */
  lemma EndIs(lines: seq<string>, start: nat, max: nat)
    requires start < |lines|
    ensures var e := EndOf(lines, start, max);
            (e > start ==> Size(lines, start, e) <= max) && (e < |lines| ==> Size(lines, start, e + 1) > max)
  {
    TakeEndIs(lines, start, start + 1, max);
    hide Size, TakeEnd;
  }

  lemma EndReaches(lines: seq<string>, start: nat, max: nat, hi: nat)
    requires start < hi <= |lines|
    ensures EndOf(lines, start, max) >= hi <==> Size(lines, start, hi) <= max
  {
    hide Size, EndOf;
    EndIs(lines, start, max);
    var e := EndOf(lines, start, max);
    if e >= hi {
      SizeGrows(lines, start, hi, e);
    } else {
      SizeGrows(lines, start, e + 1, hi);
    }
  }

  // ----- Which lines are kept

  predicate HoldsLine(s: Segment, i: nat) {
    if s.Cut? then s.line == i else s.lo <= i < s.hi
  }

  ghost predicate Kept(segs: seq<Segment>, i: nat) {
    exists k :: 0 <= k < |segs| && HoldsLine(segs[k], i)
  }

  /** Every line is in a segment, whole, or at its start when it is too long by itself. */
  ghost predicate AllKept(lines: seq<string>, segs: seq<Segment>) {
    forall i :: 0 <= i < |lines| ==> Kept(segs, i)
  }

  /** A line that fits, but not together with the next three lines, or with those that are left. */
  predicate Blocks(lines: seq<string>, i: nat, max: nat) {
    i < |lines| && |lines[i]| <= max < Size(lines, i, if i + OVERLAP + 1 <= |lines| then i + OVERLAP + 1 else |lines|)
  }

  lemma BlocksIs(lines: seq<string>, i: nat, max: nat)
    requires i < |lines|
    ensures Blocks(lines, i, max) <==> var e := EndOf(lines, i, max); i < e < |lines| && e <= i + OVERLAP
  {
    hide Size, EndOf;
    SizeOne(lines, i);
    EndReaches(lines, i, max, i + 1);
    EndReaches(lines, i, max, if i + OVERLAP + 1 <= |lines| then i + OVERLAP + 1 else |lines|);
  }

  /** Before a line that blocks, every segment ends before its end, and the next one starts no later. */
  lemma {:induction false} StuckSegments(lines: seq<string>, start: nat, max: nat, room: nat, b: nat)
    requires start <= b < |lines| && Blocks(lines, b, max)
    ensures forall s :: s in Segments(lines, start, max, room) ==>
              if s.Cut? then s.line < b else s.hi <= EndOf(lines, b, max)
    ensures |Segments(lines, start, max, room)| == room
    decreases room
  {
    hide EndOf, Blocks;
    BlocksIs(lines, b, max);
    // Where a later start cannot get past, an earlier one cannot either.
    assert EndOf(lines, start, max) <= EndOf(lines, b, max) by {
      hide Size, EndOf;
      var e := EndOf(lines, start, max);
      if e > b {
        EndReaches(lines, start, max, e);
        SizeShrinks(lines, start, b, e);
        EndReaches(lines, b, max, e);
      }
    }
    if room > 0 {
      var e := EndOf(lines, start, max);
      if e == start {
        StuckSegments(lines, start + 1, max, room - 1, b);
      } else {
        StuckSegments(lines, NextStart(e), max, room - 1, b);
      }
    }
  }

  ghost predicate NoneBlocks(lines: seq<string>, max: nat) {
    forall i: nat :: !Blocks(lines, i, max)
  }

  /** How many segments it takes to reach the last line. */
  ghost function Needed(lines: seq<string>, start: nat, max: nat): nat
    requires start <= |lines| && NoneBlocks(lines, max)
    decreases |lines| - start
  {
    if start == |lines| then 0
    else
      var e := EndOf(lines, start, max);
      BlocksIs(lines, start, max);
      assert !Blocks(lines, start, max);
      if e == start then 1 + Needed(lines, start + 1, max)
      else if e == |lines| then 1
      else 1 + Needed(lines, NextStart(e), max)
  }

  lemma KeptTail(s: Segment, segs: seq<Segment>, i: nat)
    ensures Kept([s] + segs, i) <==> HoldsLine(s, i) || Kept(segs, i)
  {
    hide HoldsLine;
    var all := [s] + segs;
    if Kept(segs, i) {
      var k :| 0 <= k < |segs| && HoldsLine(segs[k], i);
      assert HoldsLine(all[k + 1], i);
    }
    if HoldsLine(s, i) {
      assert HoldsLine(all[0], i);
    }
  }

  lemma KeptNone(i: nat)
    ensures !Kept([], i)
  {
  }

  lemma StartsLater(lines: seq<string>, start: nat, max: nat)
    requires start < |lines| && NoneBlocks(lines, max)
    ensures var e := EndOf(lines, start, max); start < e < |lines| ==> start < NextStart(e) < e
  {
    hide EndOf, Blocks;
    BlocksIs(lines, start, max);
    assert !Blocks(lines, start, max);
  }

  /** With room enough every line from the start on is kept, and without it the last one is not. */
  lemma {:induction false} KeepsRest(lines: seq<string>, start: nat, max: nat, room: nat)
    requires start <= |lines| && NoneBlocks(lines, max)
    ensures Needed(lines, start, max) <= room ==>
              forall i :: start <= i < |lines| ==> Kept(Segments(lines, start, max, room), i)
    ensures Needed(lines, start, max) > room ==> !Kept(Segments(lines, start, max, room), |lines| - 1)
    decreases room
  {
    hide EndOf, Kept, NoneBlocks, Blocks;
    if start < |lines| {
      KeptNone(|lines| - 1);
    }
    if start < |lines| && room > 0 {
      var e := EndOf(lines, start, max);
      StartsLater(lines, start, max);
      var next := if e == start then start + 1 else if e == |lines| then e else NextStart(e);
      var s := if e == start then Cut(start) else Lines(start, e);
      var rest := Segments(lines, next, max, room - 1);
      KeepsRest(lines, next, max, room - 1);
      forall i
        ensures Kept([s] + rest, i) <==> HoldsLine(s, i) || Kept(rest, i)
      {
        KeptTail(s, rest, i);
      }
      assert [s] + [] == [s];
    }
  }

  /**
   * The segments keep all lines of a chunk exactly when no line blocks, and no more segments are needed than allowed.
   * From a line that blocks the loop never gets on: it makes all its segments of the lines up to the end of that one's.
   */
  lemma AllKeptIff(lines: seq<string>, max: nat, room: nat)
    ensures AllKept(lines, Segments(lines, 0, max, room)) <==>
              (if lines == [] then true else NoneBlocks(lines, max) && Needed(lines, 0, max) <= room)
  {
    hide Kept, Segments, Blocks, EndOf;
    if lines != [] {
      if NoneBlocks(lines, max) {
        KeepsRest(lines, 0, max, room);
      } else {
        var b: nat :| Blocks(lines, b, max);
        BlocksIs(lines, b, max) by { BlocksWithin(lines, b, max); }
        NotReached(lines, max, room, b);
        assert !Kept(Segments(lines, 0, max, room), EndOf(lines, b, max));
      }
    }
  }

  lemma BlocksWithin(lines: seq<string>, b: nat, max: nat)
    requires Blocks(lines, b, max)
    ensures b < |lines|
  {
  }

  /** The line after those of a line that blocks, and all that follow it, are lost. */
  lemma NotReached(lines: seq<string>, max: nat, room: nat, b: nat)
    requires b < |lines| && Blocks(lines, b, max)
    ensures EndOf(lines, b, max) < |lines| && |Segments(lines, 0, max, room)| == room
    ensures forall i :: EndOf(lines, b, max) <= i ==> !Kept(Segments(lines, 0, max, room), i)
  {
    hide Segments, Blocks, EndOf;
    BlocksIs(lines, b, max);
    StuckSegments(lines, 0, max, room, b);
    var segs := Segments(lines, 0, max, room);
    forall i, k | EndOf(lines, b, max) <= i && 0 <= k < |segs|
      ensures !HoldsLine(segs[k], i)
    {
      assert segs[k] in segs;
    }
  }

  // ----- A bound on the input

  lemma {:induction false} SizeSplit(lines: seq<string>, lo: nat, mid: nat, hi: nat)
    requires lo < mid < hi <= |lines|
    ensures Size(lines, lo, hi) == Size(lines, lo, mid) + 1 + Size(lines, mid, hi)
    decreases mid - lo
  {
    hide Size;
    SizeCons(lines, lo, hi);
    if mid == lo + 1 {
      SizeOne(lines, lo);
    } else {
      SizeCons(lines, lo, mid);
      SizeSplit(lines, lo + 1, mid, hi);
    }
  }

  lemma {:induction false} SizeOfShort(lines: seq<string>, lo: nat, hi: nat, m: nat)
    requires lo < hi <= |lines| && forall i :: lo <= i < hi ==> |lines[i]| <= m
    ensures Size(lines, lo, hi) + 1 <= (hi - lo) * (m + 1)
    decreases hi - lo
  {
    hide Size;
    if hi == lo + 1 {
      SizeOne(lines, lo);
    } else {
      SizeCons(lines, lo, hi);
      SizeOfShort(lines, lo + 1, hi, m);
      assert (hi - lo) * (m + 1) == (hi - lo - 1) * (m + 1) + (m + 1);
    }
  }

  /** Lines of which any four fit a segment: none blocks, and each segment but the last gets on by all but four lines. */
  ghost predicate Short(lines: seq<string>, max: nat, m: nat) {
    4 * m + 3 <= max && forall i :: 0 <= i < |lines| ==> |lines[i]| <= m
  }

  lemma ShortNeverBlock(lines: seq<string>, max: nat, m: nat)
    requires Short(lines, max, m)
    ensures NoneBlocks(lines, max)
  {
    hide Size;
    forall i: nat
      ensures !Blocks(lines, i, max)
    {
      if i < |lines| {
        var hi := if i + OVERLAP + 1 <= |lines| then i + OVERLAP + 1 else |lines|;
        SizeOfShort(lines, i, hi, m);
        FourAtMost(hi - i, m + 1);
      }
    }
  }

  lemma FourAtMost(n: nat, k: nat)
    requires n <= 4
    ensures n * k <= 4 * k
  {
  }

  lemma {:induction false} ShortNeed(lines: seq<string>, start: nat, max: nat, m: nat, room: nat)
    requires start < |lines| && Short(lines, max, m) && NoneBlocks(lines, max)
    requires room > 0 && Size(lines, start, |lines|) <= max + (room - 1) * (max - 4 * m - 3)
    ensures Needed(lines, start, max) <= room
    decreases room
  {
    hide Size, EndOf, Blocks;
    var e := EndOf(lines, start, max);
    EndIs(lines, start, max);
    StartsLater(lines, start, max);
    SizeOne(lines, start);
    EndReaches(lines, start, max, start + 1);
    if e < |lines| {
      var next := NextStart(e);
      if room == 1 {
        EndReaches(lines, start, max, |lines|);
      } else {
        hide NoneBlocks;
        SizeSplit(lines, start, next, |lines|);
        SizeSplit(lines, start, next, e + 1);
        SizeOfShort(lines, next, e + 1, m);
        assert (room - 1) * (max - 4 * m - 3) == (room - 2) * (max - 4 * m - 3) + (max - 4 * m - 3);
        ShortNeed(lines, next, max, m, room - 1);
      }
    }
  }

  /** So all lines are kept when they are short and there are not too many bytes of them in all. */
  lemma ShortLinesAreKept(lines: seq<string>, max: nat, m: nat, room: nat)
    requires room > 0 && Short(lines, max, m) && Size(lines, 0, |lines|) <= max + (room - 1) * (max - 4 * m - 3)
    ensures AllKept(lines, Segments(lines, 0, max, room))
  {
    hide Size, Short, Segments, AllKept, NoneBlocks;
    ShortNeverBlock(lines, max, m);
    AllKeptIff(lines, max, room);
    if lines != [] {
      ShortNeed(lines, 0, max, m, room);
    }
  }

  /** Two lines that fit a chunk each but not one together: the second is never indexed, the first one 32 times. */
  lemma SecondLineIsLost(a: string, b: string)
    requires |a| <= MAX_CHUNK_BYTES < |a| + 1 + |b|
    ensures Segments([a, b], 0, MAX_CHUNK_BYTES, MAX_SEGMENTS) == seq(MAX_SEGMENTS, _ => Lines(0, 1))
    ensures !Kept(Segments([a, b], 0, MAX_CHUNK_BYTES, MAX_SEGMENTS), 1)
  {
    var lines := [a, b];
    SizeOne(lines, 0);
    SizeSnoc(lines, 0, 1);
    hide Size, Segments;
    BlocksIs(lines, 0, MAX_CHUNK_BYTES);
    EndReaches(lines, 0, MAX_CHUNK_BYTES, 1);
    EndReaches(lines, 0, MAX_CHUNK_BYTES, 2);
    NotReached(lines, MAX_CHUNK_BYTES, MAX_SEGMENTS, 0);
    Repeats(lines, MAX_CHUNK_BYTES, MAX_SEGMENTS);
  }

  lemma {:induction false} Repeats(lines: seq<string>, max: nat, room: nat)
    requires 1 < |lines| && EndOf(lines, 0, max) == 1
    ensures Segments(lines, 0, max, room) == seq(room, _ => Lines(0, 1))
    decreases room
  {
    hide EndOf;
    if room > 0 {
      Repeats(lines, max, room - 1);
    }
  }
}
