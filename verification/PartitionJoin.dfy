/**
 * How pkg/chatstream/tool_partition.go treats a history that grows: the elements found so far stay as they are
 * exactly when the new messages do not go on with a round of tool calls that is still open.
 */
module PartitionJoin {
  import opened Runes
  import opened Chat
  import opened ToolPartition

  // ----- Shifting

  function ShiftSegment(s: Segment, n: nat): Segment {
    Segment(s.lead + n, s.toolStart + n, s.toolEnd + n)
  }

  function ShiftSegments(segs: seq<Segment>, n: nat): seq<Segment> {
    seq(|segs|, i requires 0 <= i < |segs| => ShiftSegment(segs[i], n))
  }

  function ShiftElement(e: Element, n: nat): Element {
    match e
    case Single(i) => Single(i + n)
    case Chain(segs, final) =>
      Chain(ShiftSegments(segs, n), if final.NoFinal? then NoFinal else FinalAt(final.index + n))
  }

  function Shifted(es: seq<Element>, n: nat): seq<Element> {
    if es == [] then [] else [ShiftElement(es[0], n)] + Shifted(es[1..], n)
  }

  function ShiftConsumed(r: Consumed, n: nat): Consumed {
    if r.NotAChain? then NotAChain else Consumed(ShiftElement(r.chain, n), r.next + n)
  }

  function ShiftStep(s: Step, n: nat): Step {
    match s
    case Stop(r) => Stop(ShiftConsumed(r, n))
    case Continue(cur, segs) => Continue(cur + n, ShiftSegments(segs, n))
  }

  lemma ToolsEndShift(before: seq<Entry>, more: seq<Entry>, i: nat)
    requires i <= |more|
    ensures ToolsEnd(before + more, |before| + i) == |before| + ToolsEnd(more, i)
  {
    hide ToolsEnd, IsTool;
    var n, all, e := |before|, before + more, ToolsEnd(more, i);
    assert forall k :: 0 <= k < |more| ==> all[n + k] == more[k];
    forall k | n + i <= k < n + e
      ensures IsTool(all[k])
    {
      assert all[k] == more[k - n];
    }
    assert ToolsEnd(all, n + i) == (n + e);
  }

  lemma SegmentsShift(segs: seq<Segment>, s: Segment, n: nat)
    ensures ShiftSegments(segs + [s], n) == ShiftSegments(segs, n) + [ShiftSegment(s, n)]
    ensures ShiftSegments(segs, n) == [] <==> segs == []
  {
  }

  lemma StepShift(before: seq<Entry>, more: seq<Entry>, cur: nat, segs: seq<Segment>)
    requires cur <= |more|
    ensures ChainStep(before + more, |before| + cur, ShiftSegments(segs, |before|)) ==
              ShiftStep(ChainStep(more, cur, segs), |before|)
  {
    hide HasCalls, ToolsEnd, IsTool, ShiftSegments;
    var n, all := |before|, before + more;
    SegmentsShift(segs, Segment(cur, cur + 1, cur), n);
    if cur < |more| {
      assert all[n + cur] == more[cur];
      if HasCalls(more[cur]) {
        LeadShift(before, more, cur, segs);
      }
    }
  }

  lemma LeadShift(before: seq<Entry>, more: seq<Entry>, cur: nat, segs: seq<Segment>)
    requires cur < |more| && HasCalls(more[cur])
    ensures ChainStep(before + more, |before| + cur, ShiftSegments(segs, |before|)) ==
              ShiftStep(ChainStep(more, cur, segs), |before|)
  {
    hide HasCalls, ToolsEnd, IsTool, ShiftSegments;
    var n, all, te := |before|, before + more, ToolsEnd(more, cur + 1);
    ToolsEndShift(before, more, cur + 1);
    assert all[n + cur] == more[cur] && (te < |more| ==> all[n + te] == more[te]);
    SegmentsShift(segs, Segment(cur, cur + 1, te - 1), n);
  }

  lemma {:induction false} ConsumeShift(before: seq<Entry>, more: seq<Entry>, cur: nat, segs: seq<Segment>)
    requires cur <= |more|
    ensures Consume(before + more, |before| + cur, ShiftSegments(segs, |before|)) ==
              ShiftConsumed(Consume(more, cur, segs), |before|)
    decreases |more| - cur
  {
    hide ChainStep, ShiftSegments, ShiftConsumed;
    StepShift(before, more, cur, segs);
    match ChainStep(more, cur, segs)
    case Stop(_) =>
    case Continue(cur', segs') => ConsumeShift(before, more, cur', segs');
  }

  lemma ElementShift(before: seq<Entry>, more: seq<Entry>, i: nat)
    requires i < |more|
    ensures var (e, next) := ElementAt(more, i);
            ElementAt(before + more, |before| + i) == (ShiftElement(e, |before|), |before| + next)
  {
    hide HasCalls, Consume;
    ConsumeShift(before, more, i, []);
    assert ShiftSegments([], |before|) == [];
    assert (before + more)[|before| + i] == more[i];
  }

  lemma {:induction false} PartitionShift(before: seq<Entry>, more: seq<Entry>, i: nat)
    requires i <= |more|
    ensures PartitionFrom(before + more, |before| + i) == Shifted(PartitionFrom(more, i), |before|)
    decreases |more| - i
  {
    hide ElementAt, ShiftElement;
    if i < |more| {
      ElementShift(before, more, i);
      PartitionShift(before, more, ElementAt(more, i).1);
    }
  }

  // ----- The condition

  /** The history ends in the tool messages of a round. */
  ghost predicate EndsInTools(before: seq<Entry>) {
    exists i :: ToolsFrom(before, i)
  }

  predicate ToolsFrom(before: seq<Entry>, i: int) {
    0 <= i && i + 1 < |before| && HasCalls(before[i]) && forall k :: i < k < |before| ==> IsTool(before[k])
  }

  /** The new messages go on with what the history ends in. */
  ghost predicate Resumes(before: seq<Entry>, more: seq<Entry>) {
    && more != []
    && (|| (EndsInTools(before) && (IsTool(more[0]) || GoesOn(more, 0)))
        || (before != [] && HasCalls(before[|before| - 1]) && IsTool(more[0])))
  }

  // ----- When it does not

  /** The chain takes one more lead, and stops there because it has no tools. */
  ghost predicate LooksAhead(before: seq<Entry>, more: seq<Entry>, cur: nat, segs: seq<Segment>)
    requires cur < |before|
  {
    exists segs': seq<Segment> ::
      && segs' != [] && more != [] && HasCalls(more[0]) && (|more| > 1 ==> !IsTool(more[1]))
      && ChainStep(before, cur, segs) == Stop(Consumed(Chain(segs', NoFinal), |before|))
      && ChainStep(before + more, cur, segs) == Continue(|before|, segs')
  }

  lemma StepSame(before: seq<Entry>, more: seq<Entry>, cur: nat, segs: seq<Segment>)
    requires cur < |before| && !Resumes(before, more)
    ensures ChainStep(before + more, cur, segs) == ChainStep(before, cur, segs) || LooksAhead(before, more, cur, segs)
  {
    var all, n := before + more, |before|;
    hide HasCalls, IsTool;
    assert forall k :: 0 <= k < n ==> all[k] == before[k];
    if HasCalls(before[cur]) {
      var te := ToolsEnd(before, cur + 1);
      assert ToolsEnd(before, cur + 1) < |before| || more == [] || !IsTool(more[0]) ==>
             ToolsEnd(before + more, cur + 1) == ToolsEnd(before, cur + 1) by {
        hide ToolsEnd, IsTool;
        var all, e := before + more, ToolsEnd(before, cur + 1);
        if e < |before| || more == [] || !IsTool(more[0]) {
          assert forall k :: 0 <= k < |before| ==> all[k] == before[k];
          assert more != [] ==> all[|before|] == more[0];
          assert ToolsEnd(all, cur + 1) == e;
        }
      }
      if te == n {
        if cur + 1 < n {
          assert ToolsFrom(before, cur);
        }
        hide ToolsEnd;
        if more != [] {
          assert all[n] == more[0] && !IsTool(more[0]);
          StepAtEnd(before, more, cur, segs);
        } else {
          assert all == before;
        }
      }
    }
  }

  /** A round of tools that the history ends in, before something that is not a tool message. */
  lemma StepAtEnd(before: seq<Entry>, more: seq<Entry>, cur: nat, segs: seq<Segment>)
    requires cur < |before| && HasCalls(before[cur]) && more != [] && !Resumes(before, more)
    requires ToolsEnd(before, cur + 1) == |before| == ToolsEnd(before + more, cur + 1)
    requires cur + 1 < |before| ==> ToolsFrom(before, cur)
    ensures ChainStep(before + more, cur, segs) == ChainStep(before, cur, segs) || LooksAhead(before, more, cur, segs)
  {
    var all, n := before + more, |before|;
    hide HasCalls, IsTool, ToolsEnd;
    assert all[cur] == before[cur] && all[n] == more[0];
    if cur + 1 < n && HasCalls(more[0]) {
      CallsNoTool(more[0]);
      var segs' := segs + [Segment(cur, cur + 1, n - 1)];
      assert ChainStep(before, cur, segs) == Stop(Consumed(Chain(segs', NoFinal), n));
      assert ChainStep(all, cur, segs) == Continue(n, segs');
      assert LooksAhead(before, more, cur, segs);
    }
  }

  lemma {:induction false} ConsumeSame(before: seq<Entry>, more: seq<Entry>, cur: nat, segs: seq<Segment>)
    requires cur < |before| && !Resumes(before, more)
    ensures Consume(before + more, cur, segs) == Consume(before, cur, segs)
    decreases |before| - cur
  {
    hide ChainStep, Resumes, HasCalls, IsTool;
    StepSame(before, more, cur, segs);
    if ChainStep(before + more, cur, segs) == ChainStep(before, cur, segs) {
      match ChainStep(before, cur, segs)
      case Stop(_) =>
      case Continue(cur', segs') => ConsumeSame(before, more, cur', segs');
    } else {
      var segs': seq<Segment> :|
        && segs' != [] && more != [] && HasCalls(more[0]) && (|more| > 1 ==> !IsTool(more[1]))
        && ChainStep(before, cur, segs) == Stop(Consumed(Chain(segs', NoFinal), |before|))
        && ChainStep(before + more, cur, segs) == Continue(|before|, segs');
      LeadAlone(before, more, segs');
    }
  }

  lemma LeadAlone(before: seq<Entry>, more: seq<Entry>, segs: seq<Segment>)
    requires segs != [] && more != [] && HasCalls(more[0]) && (|more| > 1 ==> !IsTool(more[1]))
    ensures Consume(before + more, |before|, segs) == Consumed(Chain(segs, NoFinal), |before|)
  {
    var all, n := before + more, |before|;
    hide HasCalls, IsTool, ToolsEnd;
    assert all[n] == more[0] && (|more| > 1 ==> all[n + 1] == more[1]);
    assert ToolsEnd(all, n + 1) == (n + 1);
  }

  lemma ElementSame(before: seq<Entry>, more: seq<Entry>, i: nat)
    requires i < |before| && !Resumes(before, more)
    ensures ElementAt(before + more, i) == ElementAt(before, i)
  {
    hide HasCalls, Consume, Resumes;
    ConsumeSame(before, more, i, []);
  }

  lemma {:induction false} PrefixSame(before: seq<Entry>, more: seq<Entry>, i: nat)
    requires i <= |before| && !Resumes(before, more)
    ensures PartitionFrom(before + more, i) == PartitionFrom(before, i) + PartitionFrom(before + more, |before|)
    decreases |before| - i
  {
    hide ElementAt, Resumes;
    if i < |before| {
      ElementSame(before, more, i);
      PrefixSame(before, more, ElementAt(before, i).1);
    }
  }

  // ----- When it does

  lemma {:induction false} InSome(es: seq<Element>, i: nat) returns (e: Element)
    requires i in AllIndices(es)
    ensures e in es && i in Indices(e)
  {
    hide Indices;
    e := es[0];
    if i !in Indices(es[0]) {
      e := InSome(es[1..], i);
    }
  }

  /** The element that an index is in. */
  lemma ElementOf(msgs: seq<Entry>, i: nat) returns (e: Element)
    requires i < |msgs|
    ensures e in PartitionFrom(msgs, 0) && i in Indices(e) && ElementOk(msgs, e)
  {
    hide PartitionFrom, ElementOk;
    PartitionCovers(msgs);
    assert seq(|msgs|, k => k)[i] == i;
    e := InSome(PartitionFrom(msgs, 0), i);
    PartitionOk(msgs, 0);
  }

  lemma {:induction false} InSegment(segs: seq<Segment>, i: nat) returns (k: nat)
    requires i in SegmentsIndices(segs) && forall s :: s in segs ==> s.lead <= s.toolEnd
    ensures k < |segs| && segs[k].lead <= i <= segs[k].toolEnd
    decreases |segs|
  {
    k := |segs| - 1;
    if i !in SegmentIndices(segs[k]) {
      k := InSegment(segs[..k], i);
    }
  }

  /** Where a lead is: alone, or at the head of a segment. */
  lemma LeadIn(msgs: seq<Entry>, i: nat) returns (e: Element, k: nat)
    requires i < |msgs| && HasCalls(msgs[i])
    ensures e in PartitionFrom(msgs, 0) && ElementOk(msgs, e)
    ensures e == Single(i) || (e.Chain? && k < |e.segments| && e.segments[k].lead == i)
  {
    hide PartitionFrom, HasCalls;
    e := ElementOf(msgs, i);
    k := 0;
    CallsNoTool(msgs[i]);
    if e.Chain? {
      if i in SegmentsIndices(e.segments) {
        k := InSegment(e.segments, i);
        assert SegmentOk(msgs, e.segments[k]);
      }
    }
  }

  lemma ResumesBreaks(before: seq<Entry>, more: seq<Entry>)
    requires Resumes(before, more)
    ensures exists e :: e in PartitionFrom(before, 0) && !ElementOk(before + more, e)
  {
    hide PartitionFrom, HasCalls, IsTool;
    var all, n := before + more, |before|;
    assert forall k :: 0 <= k < n ==> all[k] == before[k];
    assert forall k :: 0 <= k < |more| ==> all[n + k] == more[k];
    if before != [] && HasCalls(before[n - 1]) && IsTool(more[0]) {
      var e, k := LeadIn(before, n - 1);
      assert e.Chain? ==> SegmentOk(before, e.segments[k]);
      assert e == Single(n - 1);
      assert !ElementOk(all, e);
    } else {
      var i :| ToolsFrom(before, i);
      var e, k := LeadIn(before, i);
      // A lead with nothing but tools after it is the last of a chain without an answer.
      assert e.Chain? && k == |e.segments| - 1 && e.segments[k].toolEnd == |before| - 1 && e.final.NoFinal? by {
        hide HasCalls, IsTool;
        assert IsTool(before[i + 1]);
        assert SegmentOk(before, e.segments[k]);
        assert k + 1 < |e.segments| ==> SegmentOk(before, e.segments[k + 1]);
      }
      assert !ElementOk(all, e) by {
        assert SegmentOk(all, e.segments[k]) ==> !IsTool(all[n]);
        assert GoesOn(more, 0) ==> GoesOn(all, n);
      }
    }
  }

  // ----- Main result

  /** What was found in a history stays when messages are added, and those are read on their own, exactly when
      they do not go on with what it ends in. */
  lemma PartitionJoinIff(before: seq<Entry>, more: seq<Entry>)
    ensures PartitionFrom(before + more, 0) == PartitionFrom(before, 0) + Shifted(PartitionFrom(more, 0), |before|)
            <==> !Resumes(before, more)
  {
    hide PartitionFrom, Resumes, Shifted, ElementOk;
    if Resumes(before, more) {
      ResumesBreaks(before, more);
      PartitionOk(before + more, 0);
    } else {
      PrefixSame(before, more, 0);
      PartitionShift(before, more, 0);
    }
  }
}
