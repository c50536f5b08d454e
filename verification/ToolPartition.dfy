/** PartitionMessagesForToolChainUI of pkg/chatstream/tool_partition.go: finds rounds of tool calls again in
    a list of messages. */
module ToolPartition {
  import opened Runes
  import opened Chat

  datatype Segment = Segment(lead: nat, toolStart: nat, toolEnd: nat)

  datatype Final = NoFinal | FinalAt(index: nat)

  datatype Element = Single(index: nat) | Chain(segments: seq<Segment>, final: Final)

  predicate HasCalls(e: Entry) {
    e.Msg? && e.m.role.Assistant? && TrimSpace(e.m.toolCallsJSON) != ""
  }

  predicate IsTool(e: Entry) {
    e.Msg? && e.m.role.Tool?
  }

  /** The first index from `i` on that is not a tool message. */
  function ToolsEnd(msgs: seq<Entry>, i: nat): (e: nat)
    requires i <= |msgs|
    ensures i <= e <= |msgs|
    ensures forall k :: i <= k < e ==> IsTool(msgs[k])
    ensures e < |msgs| ==> !IsTool(msgs[e])
    decreases |msgs| - i
  {
    if i < |msgs| && IsTool(msgs[i]) then ToolsEnd(msgs, i + 1) else i
  }

  datatype Consumed = NotAChain | Consumed(chain: Element, next: nat)

  datatype Step = Stop(result: Consumed) | Continue(cur: nat, segs: seq<Segment>)

  /** One round of the loop that consumes a chain. */
  function ChainStep(msgs: seq<Entry>, cur: nat, segs: seq<Segment>): (r: Step)
    requires cur <= |msgs|
    ensures r.Continue? ==> cur < r.cur < |msgs| && r.segs != []
    ensures r.Stop? && r.result.Consumed? ==> cur <= r.result.next <= |msgs| && (segs == [] ==> cur < r.result.next)
  {
    hide HasCalls, IsTool;
    if cur == |msgs| || !HasCalls(msgs[cur]) then
      Stop(if segs == [] then NotAChain else Consumed(Chain(segs, NoFinal), cur))
    else
      var te := ToolsEnd(msgs, cur + 1);
      var segs' := segs + [Segment(cur, cur + 1, if te > cur then te - 1 else cur)];
      if te == cur + 1 then Stop(if segs == [] then NotAChain else Consumed(Chain(segs, NoFinal), cur))
      else if te == |msgs| then Stop(Consumed(Chain(segs', NoFinal), te))
      else if msgs[te].Nil? || !msgs[te].m.role.Assistant? then Stop(Consumed(Chain(segs', NoFinal), te))
      else if HasCalls(msgs[te]) then Continue(te, segs')
      else Stop(Consumed(Chain(segs', FinalAt(te)), te + 1))
  }

  /** The chain that continues `segs` at `cur`; NotAChain when there is no segment at all. */
  function Consume(msgs: seq<Entry>, cur: nat, segs: seq<Segment>): (r: Consumed)
    requires cur <= |msgs|
    ensures r.Consumed? ==> cur <= r.next <= |msgs| && (segs == [] ==> cur < r.next)
    ensures segs != [] ==> r.Consumed?
    decreases |msgs| - cur
  {
    hide HasCalls, ToolsEnd, IsTool;
    match ChainStep(msgs, cur, segs)
    case Stop(r) => r
    case Continue(cur', segs') => Consume(msgs, cur', segs')
  }

  method ConsumeToolChain(msgs: seq<Entry>, start: nat) returns (r: Consumed)
    requires start < |msgs|
    ensures r == Consume(msgs, start, [])
  {
    var cur, segs := start, [];
    hide HasCalls, IsTool;
    while true
      invariant start <= cur <= |msgs| && Consume(msgs, cur, segs) == Consume(msgs, start, [])
      decreases |msgs| - cur
    {
      ghost var step := ChainStep(msgs, cur, segs);
      if cur >= |msgs| || !HasCalls(msgs[cur]) {
        return if segs == [] then NotAChain else Consumed(Chain(segs, NoFinal), cur);
      }
      var te := SkipTools(msgs, cur + 1);
      if te == cur + 1 {
        return if segs == [] then NotAChain else Consumed(Chain(segs, NoFinal), cur);
      }
      segs := segs + [Segment(cur, cur + 1, te - 1)];
      if te >= |msgs| {
        return Consumed(Chain(segs, NoFinal), te);
      }
      if msgs[te].Nil? || !msgs[te].m.role.Assistant? {
        return Consumed(Chain(segs, NoFinal), te);
      }
      if !HasCalls(msgs[te]) {
        return Consumed(Chain(segs, FinalAt(te)), te + 1);
      }
      cur := te;
    }
  }

  method SkipTools(msgs: seq<Entry>, i: nat) returns (te: nat)
    requires i <= |msgs|
    ensures te == ToolsEnd(msgs, i)
  {
    hide IsTool;
    te := i;
    while te < |msgs| && IsTool(msgs[te])
      invariant i <= te <= |msgs| && ToolsEnd(msgs, te) == ToolsEnd(msgs, i)
    {
      te := te + 1;
    }
  }

  /** The element at `i` and the index after it. */
  function ElementAt(msgs: seq<Entry>, i: nat): (r: (Element, nat))
    requires i < |msgs|
    ensures i < r.1 <= |msgs|
  {
    if !HasCalls(msgs[i]) then (Single(i), i + 1)
    else
      var c := Consume(msgs, i, []);
      if c.NotAChain? then (Single(i), i + 1) else (c.chain, c.next)
  }

  function PartitionFrom(msgs: seq<Entry>, i: nat): seq<Element>
    requires i <= |msgs|
    decreases |msgs| - i
  {
    if i == |msgs| then []
    else
      var (e, next) := ElementAt(msgs, i);
      [e] + PartitionFrom(msgs, next)
  }

  method Partition(msgs: seq<Entry>) returns (out: seq<Element>)
    ensures out == PartitionFrom(msgs, 0)
  {
    hide HasCalls;
    out := [];
    var i := 0;
    while i < |msgs|
      invariant 0 <= i <= |msgs| && out + PartitionFrom(msgs, i) == PartitionFrom(msgs, 0)
      decreases |msgs| - i
    {
      Assoc(out, [ElementAt(msgs, i).0], PartitionFrom(msgs, ElementAt(msgs, i).1));
      if !HasCalls(msgs[i]) {
        out := out + [Single(i)];
        i := i + 1;
        continue;
      }
      var c := ConsumeToolChain(msgs, i);
      if c.NotAChain? {
        out := out + [Single(i)];
        i := i + 1;
        continue;
      }
      out := out + [c.chain];
      i := c.next;
    }
  }

  // ----- The partition covers every index once, in order

  function Range(lo: nat, hi: nat): seq<nat>
    requires lo <= hi
  {
    seq(hi - lo, k requires 0 <= k < hi - lo => lo + k)
  }

  function SegmentIndices(s: Segment): seq<nat> {
    if s.lead <= s.toolEnd then Range(s.lead, s.toolEnd + 1) else [s.lead]
  }

  function SegmentsIndices(segs: seq<Segment>): seq<nat> {
    if segs == [] then [] else SegmentsIndices(segs[..|segs| - 1]) + SegmentIndices(segs[|segs| - 1])
  }

  function Indices(e: Element): seq<nat> {
    match e
    case Single(i) => [i]
    case Chain(segs, final) => SegmentsIndices(segs) + if final.NoFinal? then [] else [final.index]
  }

  function AllIndices(es: seq<Element>): seq<nat> {
    if es == [] then [] else Indices(es[0]) + AllIndices(es[1..])
  }

  lemma RangeAppend(a: nat, b: nat, c: nat)
    requires a <= b <= c
    ensures Range(a, b) + Range(b, c) == Range(a, c)
  {
  }

  lemma SegmentsSnoc(segs: seq<Segment>, s: Segment)
    ensures SegmentsIndices(segs + [s]) == SegmentsIndices(segs) + SegmentIndices(s)
  {
    assert (segs + [s])[..|segs|] == segs;
  }

  lemma StepCovers(msgs: seq<Entry>, start: nat, cur: nat, segs: seq<Segment>)
    requires start <= cur <= |msgs| && SegmentsIndices(segs) == Range(start, cur)
    ensures var step := ChainStep(msgs, cur, segs);
            match step
            case Stop(r) => r.Consumed? ==> Indices(r.chain) == Range(start, r.next)
            case Continue(cur', segs') => SegmentsIndices(segs') == Range(start, cur')
  {
    hide HasCalls, IsTool, Range, SegmentsIndices, ToolsEnd;
    if cur < |msgs| {
      var te := ToolsEnd(msgs, cur + 1);
      if te > cur + 1 {
        assert SegmentsIndices(segs + [Segment(cur, cur + 1, te - 1)]) == Range(start, te) by {
          hide SegmentsIndices, Range;
          SegmentsSnoc(segs, Segment(cur, cur + 1, te - 1));
          RangeAppend(start, cur, te);
        }
        RangeAppend(start, te, te + 1);
        OneRange(te);
      }
    }
  }

  lemma {:induction false} ConsumeCovers(msgs: seq<Entry>, start: nat, cur: nat, segs: seq<Segment>)
    requires start <= cur <= |msgs| && SegmentsIndices(segs) == Range(start, cur)
    ensures var r := Consume(msgs, cur, segs); r.Consumed? ==> Indices(r.chain) == Range(start, r.next)
    decreases |msgs| - cur
  {
    hide ChainStep, Range, SegmentsIndices, Indices;
    StepCovers(msgs, start, cur, segs);
    match ChainStep(msgs, cur, segs)
    case Stop(_) =>
    case Continue(cur', segs') => ConsumeCovers(msgs, start, cur', segs');
  }

  lemma OneRange(i: nat)
    ensures Range(i, i + 1) == [i]
  {
  }

  lemma {:induction false} PartitionCoversFrom(msgs: seq<Entry>, i: nat)
    requires i <= |msgs|
    ensures AllIndices(PartitionFrom(msgs, i)) == Range(i, |msgs|)
    decreases |msgs| - i
  {
    hide HasCalls, Consume, Indices, Range;
    if i < |msgs| {
      var (e, next) := ElementAt(msgs, i);
      PartitionCoversFrom(msgs, next);
      ElementCovers(msgs, i);
      RangeAppend(i, next, |msgs|);
    } else {
      NoRange(i);
    }
  }

  lemma NoRange(i: nat)
    ensures Range(i, i) == []
  {
  }

  lemma ElementCovers(msgs: seq<Entry>, i: nat)
    requires i < |msgs|
    ensures Indices(ElementAt(msgs, i).0) == Range(i, ElementAt(msgs, i).1)
  {
    hide Consume, HasCalls;
    OneRange(i);
    NoRange(i);
    ConsumeCovers(msgs, i, i, []);
  }

  /** Any list of messages: the indices of the elements, read in order, are 0 .. n - 1. */
  lemma PartitionCovers(msgs: seq<Entry>)
    ensures AllIndices(PartitionFrom(msgs, 0)) == seq(|msgs|, k => k)
  {
    PartitionCoversFrom(msgs, 0);
  }

  // ----- What an element is

  /** A segment is an assistant message with calls and all the tool messages that follow it. */
  ghost predicate SegmentOk(msgs: seq<Entry>, s: Segment) {
    && s.toolStart == s.lead + 1 <= s.toolEnd < |msgs| && HasCalls(msgs[s.lead])
    && (forall k :: s.toolStart <= k <= s.toolEnd ==> IsTool(msgs[k]))
    && (s.toolEnd + 1 < |msgs| ==> !IsTool(msgs[s.toolEnd + 1]))
  }

  /** Each segment begins where the one before ends. */
  ghost predicate Follow(segs: seq<Segment>) {
    forall k :: 0 < k < |segs| ==> segs[k].lead == segs[k - 1].toolEnd + 1
  }

  /** A chain whose tools end before `e` has more to take: an answer, or a lead with tools. */
  predicate GoesOn(msgs: seq<Entry>, e: nat) {
    && e < |msgs| && msgs[e].Msg? && msgs[e].m.role.Assistant?
    && (HasCalls(msgs[e]) ==> e + 1 < |msgs| && IsTool(msgs[e + 1]))
  }

  ghost predicate ElementOk(msgs: seq<Entry>, e: Element) {
    match e
    case Single(i) => i < |msgs| && (HasCalls(msgs[i]) ==> i + 1 == |msgs| || !IsTool(msgs[i + 1]))
    case Chain(segs, final) =>
      && segs != [] && (forall s :: s in segs ==> SegmentOk(msgs, s)) && Follow(segs)
      && var end := segs[|segs| - 1].toolEnd + 1;
         if final.FinalAt? then final.index == end && GoesOn(msgs, end) && !HasCalls(msgs[end]) else !GoesOn(msgs, end)
  }

  /** Segments that follow each other up to `cur`, where there is another lead. */
  ghost predicate SoFar(msgs: seq<Entry>, cur: nat, segs: seq<Segment>) {
    && (forall s :: s in segs ==> SegmentOk(msgs, s)) && Follow(segs)
    && (segs != [] ==> cur < |msgs| && HasCalls(msgs[cur]) && segs[|segs| - 1].toolEnd + 1 == cur)
  }

  lemma SegmentFollows(msgs: seq<Entry>, cur: nat, segs: seq<Segment>)
    requires cur + 1 < |msgs| && SoFar(msgs, cur, segs) && HasCalls(msgs[cur]) && IsTool(msgs[cur + 1])
    ensures var segs' := segs + [Segment(cur, cur + 1, ToolsEnd(msgs, cur + 1) - 1)];
            (forall s :: s in segs' ==> SegmentOk(msgs, s)) && Follow(segs')
  {
    hide HasCalls;
  }

  lemma StepOk(msgs: seq<Entry>, cur: nat, segs: seq<Segment>)
    requires cur <= |msgs| && SoFar(msgs, cur, segs)
    ensures match ChainStep(msgs, cur, segs)
            case Stop(r) => r.Consumed? ==> ElementOk(msgs, r.chain)
            case Continue(cur', segs') => cur' <= |msgs| && SoFar(msgs, cur', segs')
    ensures ChainStep(msgs, cur, []).Stop? && ChainStep(msgs, cur, []).result.NotAChain? && cur < |msgs| ==>
      ElementOk(msgs, Single(cur))
  {
    hide HasCalls, SegmentOk, Follow;
    if cur < |msgs| && HasCalls(msgs[cur]) && ToolsEnd(msgs, cur + 1) > cur + 1 {
      SegmentFollows(msgs, cur, segs);
      var te := ToolsEnd(msgs, cur + 1);
      if te < |msgs| {
        CallsNoTool(msgs[te]);
      }
      hide IsTool;
    }
  }

  lemma CallsNoTool(e: Entry)
    ensures HasCalls(e) ==> e.Msg? && e.m.role.Assistant? && !IsTool(e)
  {
  }

  lemma {:induction false} ConsumeOk(msgs: seq<Entry>, cur: nat, segs: seq<Segment>)
    requires cur <= |msgs| && SoFar(msgs, cur, segs)
    ensures var r := Consume(msgs, cur, segs); r.Consumed? ==> ElementOk(msgs, r.chain)
    ensures Consume(msgs, cur, []).NotAChain? && cur < |msgs| ==> ElementOk(msgs, Single(cur))
    decreases |msgs| - cur
  {
    hide ChainStep, SoFar, ElementOk;
    StepOk(msgs, cur, segs);
    match ChainStep(msgs, cur, segs)
    case Stop(_) =>
    case Continue(cur', segs') => ConsumeOk(msgs, cur', segs');
  }

  /** Every element is a chain of whole segments with its final answer, or a message that starts none. */
  lemma {:induction false} PartitionOk(msgs: seq<Entry>, i: nat)
    requires i <= |msgs|
    ensures forall e :: e in PartitionFrom(msgs, i) ==> ElementOk(msgs, e)
    decreases |msgs| - i
  {
    hide ElementOk, HasCalls, Consume;
    if i < |msgs| {
      SingleOk(msgs, i);
      PartitionOk(msgs, ElementAt(msgs, i).1);
    }
  }

  lemma SingleOk(msgs: seq<Entry>, i: nat)
    requires i < |msgs|
    ensures ElementOk(msgs, ElementAt(msgs, i).0)
  {
    hide HasCalls;
    ConsumeOk(msgs, i, []);
    if HasCalls(msgs[i]) {
      var te := ToolsEnd(msgs, i + 1);
    }
  }

  /** A chain starts exactly at an assistant message with calls before a tool message. */
  lemma ChainStartsIff(msgs: seq<Entry>, i: nat)
    requires i < |msgs|
    ensures ElementAt(msgs, i).0.Chain? <==>
              && msgs[i].Msg? && msgs[i].m.role == Assistant && !Blank(msgs[i].m.toolCallsJSON)
              && i + 1 < |msgs| && msgs[i + 1].Msg? && msgs[i + 1].m.role == Tool
  {
    CallsMeans(msgs[i]);
    hide HasCalls, Blank;
    ConsumeIs(msgs, i);
  }

  lemma CallsMeans(e: Entry)
    ensures HasCalls(e) <==> e.Msg? && e.m.role == Assistant && !Blank(e.m.toolCallsJSON)
  {
    if e.Msg? {
      TrimBlank(e.m.toolCallsJSON);
    }
    hide TrimSpace, Blank;
  }

  lemma ConsumeIs(msgs: seq<Entry>, i: nat)
    requires i < |msgs|
    ensures Consume(msgs, i, []).NotAChain? <==> !(HasCalls(msgs[i]) && i + 1 < |msgs| && IsTool(msgs[i + 1]))
    ensures Consume(msgs, i, []).Consumed? ==> Consume(msgs, i, []).chain.Chain?
  {
    hide HasCalls, IsTool;
    ConsumesChain(msgs, i, []);
    var te := ToolsEnd(msgs, i + 1);
  }

  lemma {:induction false} ConsumesChain(msgs: seq<Entry>, cur: nat, segs: seq<Segment>)
    requires cur <= |msgs|
    ensures Consume(msgs, cur, segs).Consumed? ==> Consume(msgs, cur, segs).chain.Chain?
    decreases |msgs| - cur
  {
    hide HasCalls, IsTool, ToolsEnd;
    match ChainStep(msgs, cur, segs)
    case Stop(_) =>
    case Continue(cur', segs') => ConsumesChain(msgs, cur', segs');
  }
}
