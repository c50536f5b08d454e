/** What the segments of an oversized chunk contain (internal/service/index_split.go). */
module SegmentTexts {
  import opened Runes
  import opened IndexSplit

  lemma FrontStands(lines: seq<string>, lo: nat)
    requires lo < |lines|
    ensures exists pre :: Join(lines, "\n") == pre + Join(lines[lo..], "\n")
  {
    hide Join;
    Halves(lines, lo);
    if lo > 0 {
      JoinAppend(lines[..lo], lines[lo..], "\n");
    } else {
      assert lines[0..] == lines;
      assert Join(lines, "\n") == "" + Join(lines[lo..], "\n");
    }
  }

  lemma BackStands(lines: seq<string>, hi: nat)
    requires 0 < hi <= |lines|
    ensures exists post :: Join(lines, "\n") == Join(lines[..hi], "\n") + post
  {
    hide Join;
    Halves(lines, hi);
    if hi < |lines| {
      JoinAppend(lines[..hi], lines[hi..], "\n");
      Assoc(Join(lines[..hi], "\n"), "\n", Join(lines[hi..], "\n"));
    } else {
      assert lines[..hi] == lines;
      assert Join(lines, "\n") == Join(lines[..hi], "\n") + "";
    }
  }

  lemma LinesStand(lines: seq<string>, lo: nat, hi: nat)
    requires lo < hi <= |lines|
    ensures exists pre, post :: Join(lines, "\n") == pre + Join(lines[lo..hi], "\n") + post
  {
    hide Join;
    BackStands(lines, hi);
    FrontStands(lines[..hi], lo);
    assert lines[..hi][lo..] == lines[lo..hi];
    var post :| Join(lines, "\n") == Join(lines[..hi], "\n") + post;
    var pre :| Join(lines[..hi], "\n") == pre + Join(lines[lo..hi], "\n");
  }

  /** The text of a segment: whole lines of the chunk that fit, or the first bytes of a line that does not. */
  ghost predicate Shows(lines: seq<string>, s: Segment, r: string, max: nat) {
    match s
    case Lines(lo, hi) =>
      && lo < hi <= |lines| && |r| <= max && r == Join(lines[lo..hi], "\n")
      && exists pre, post :: Join(lines, "\n") == pre + r + post
    case Cut(i) =>
      i < |lines| && |lines[i]| > max && |r| == max + 3 && r[..max] == lines[i][..max] && r[max..] == "..."
  }

  lemma SegmentShows(lines: seq<string>, start: nat, max: nat)
    requires start < |lines|
    ensures SegmentOk(lines, SegmentAt(lines, start, max))
    ensures Shows(lines, SegmentAt(lines, start, max), Rendered(lines, SegmentAt(lines, start, max), max), max)
  {
    EndIs(lines, start, max);
    SizeOne(lines, start);
    hide EndOf, Join;
    var e := EndOf(lines, start, max);
    if e > start {
      LinesStand(lines, start, e);
    }
  }

  lemma {:induction false} SegmentsShow(lines: seq<string>, start: nat, max: nat, room: nat)
    requires start <= |lines|
    ensures forall s :: s in Segments(lines, start, max, room) ==> SegmentOk(lines, s) && Shows(lines, s, Rendered(lines, s, max), max)
    decreases room
  {
    hide Rendered, Shows, SegmentOk, EndOf;
    if start < |lines| && room > 0 {
      SegmentsNext(lines, start, max, room);
      SegmentShows(lines, start, max);
      var e := EndOf(lines, start, max);
      if e == start {
        SegmentsShow(lines, start + 1, max, room - 1);
      } else if e < |lines| {
        SegmentsShow(lines, NextStart(e), max, room - 1);
      }
    }
  }

  /**
   * There are at most 32 segments. Each has at most `max` bytes and is a stretch of whole lines of the chunk, or it is a
   * line of more than `max` bytes cut to those and three dots.
   */
  lemma SegmentsAreParts(lines: seq<string>, max: nat, k: nat)
    requires k < |Segments(lines, 0, max, 32)|
    ensures |Segments(lines, 0, max, 32)| <= 32
    ensures var s := Segments(lines, 0, max, 32)[k]; SegmentOk(lines, s) && Shows(lines, s, Rendered(lines, s, max), max)
  {
    hide Rendered, Shows, SegmentOk, Segments;
    SegmentsShow(lines, 0, max, 32);
  }
}
