/** TrimMessagesByApproxTokensWithDropped of pkg/llmhistory/tokens.go. */
module Trim {
  import opened Runes
  import opened Chat
  import opened Tokens
  import opened Shrink

  predicate ShowsImage(m: Message) {
    m.attachmentBytes > 0 && m.likelyImage
  }

  /** A user message with an image is dropped together with the plain answer that follows it. */
  predicate ImageTurn(middle: seq<Entry>, i: nat)
    requires i < |middle|
  {
    && i + 1 < |middle| && middle[i].Msg? && middle[i + 1].Msg?
    && middle[i].m.role.User? && ShowsImage(middle[i].m)
    && middle[i + 1].m.role.Assistant? && TrimSpace(middle[i + 1].m.toolCallsJSON) == ""
  }

  /** The estimate left after the first `k` messages are dropped. */
  function Left(middle: seq<Entry>, total: int, k: nat): int
    requires k <= |middle|
  {
    if k == 0 then total else Left(middle, total, k - 1) - MessageTokens(middle[k - 1])
  }

  /** How many of the oldest messages are gone when the loop that has dropped `k` ends. */
  function DropFrom(middle: seq<Entry>, total: int, maxTokens: int, k: nat): (n: nat)
    requires k <= |middle|
    ensures k <= n <= |middle|
    decreases |middle| - k
  {
    if k == |middle| || Left(middle, total, k) <= maxTokens then k
    else DropFrom(middle, total, maxTokens, if ImageTurn(middle, k) then k + 2 else k + 1)
  }

  /** The loop that has dropped `k` never looks into a nil message: it reads the role of one that is not the
      last, and that of the next after a user message with an image. */
  predicate NoNilRead(middle: seq<Entry>, total: int, maxTokens: int, k: nat)
    requires k <= |middle|
    decreases |middle| - k
  {
    k == |middle| || Left(middle, total, k) <= maxTokens ||
    (&& (k + 1 < |middle| ==>
           && middle[k].Msg?
           && (middle[k].m.role.User? && ShowsImage(middle[k].m) ==> middle[k + 1].Msg?))
     && NoNilRead(middle, total, maxTokens, if ImageTurn(middle, k) then k + 2 else k + 1))
  }

  method DropOldest(middle: seq<Entry>, total0: int, maxTokens: int) returns (k: nat)
    requires NoNilRead(middle, total0, maxTokens, 0)
    ensures k == DropFrom(middle, total0, maxTokens, 0)
  {
    hide TrimSpace, MessageTokens, ShowsImage;
    var total := total0;
    k := 0;
    while k < |middle| && total > maxTokens
      invariant 0 <= k <= |middle| && total == Left(middle, total0, k)
      invariant DropFrom(middle, total0, maxTokens, k) == DropFrom(middle, total0, maxTokens, 0)
      invariant NoNilRead(middle, total0, maxTokens, k)
    {
      var first := middle[k];
      total := total - MessageTokens(first);
      k := k + 1;
      if k < |middle| && first.m.role.User? && ShowsImage(first.m)
         && middle[k].m.role.Assistant? && TrimSpace(middle[k].m.toolCallsJSON) == "" {
        total := total - MessageTokens(middle[k]);
        k := k + 1;
      }
    }
  }

  /** The messages between the first one and the preserved tail. */
  function Middle(msgs: seq<Entry>, hi: nat): seq<Entry>
    requires hi <= |msgs|
  {
    if hi <= 1 then [] else msgs[1..hi]
  }

  method TrimLong(msgs: seq<Entry>, maxTokens: int, hi: nat)
    returns (out: seq<Entry>, trimmed: bool, dropped: seq<Entry>)
    requires 1 < hi <= |msgs| && NoNilRead(msgs[1..hi], SumTokens(msgs), maxTokens, 0)
    ensures var k := DropFrom(Middle(msgs, hi), SumTokens(msgs), maxTokens, 0);
            out == [msgs[0]] + msgs[1 + k..] && dropped == msgs[1..1 + k] && trimmed == (k > 0)
  {
    hide SumTokens, MessageTokens, ImageTurn, Left;
    var middle := msgs[1..hi];
    var total := MessageTokens(msgs[0]) + SumTokens(middle) + SumTokens(msgs[hi..]);
    SumOfParts(msgs, hi);
    var k := DropOldest(middle, total, maxTokens);
    return [msgs[0]] + msgs[1 + k..], k > 0, msgs[1..1 + k];
  }

  function Keep(tailPreserve: int): nat {
    if tailPreserve < 0 then 0 else tailPreserve
  }

  /** The last `tail` messages are still the last ones. */
  ghost predicate KeepsTail(msgs: seq<Entry>, out: seq<Entry>, tail: int) {
    && (tail <= |msgs| ==> tail <= |out|)
    && forall k {:trigger msgs[k]} :: 0 <= k < |msgs| && |msgs| - k <= tail ==>
         0 <= k + |out| - |msgs| && out[k + |out| - |msgs|] == msgs[k]
  }

  lemma WholeKeepsTail(msgs: seq<Entry>, tail: int)
    ensures KeepsTail(msgs, msgs, tail)
  {
  }

  lemma ShrunkKeepsTail(msgs: seq<Entry>, maxTokens: int, tail: int)
    requires CanStop(msgs, maxTokens, TailStart(msgs, tail))
    ensures KeepsTail(msgs, Shrunk(msgs, maxTokens, TailStart(msgs, tail)), tail)
  {
    var hi := TailStart(msgs, tail);
    ShrunkIsDone(msgs, maxTokens, hi);
    hide Shrunk, CanStop, SumTokens, Filled, KeepsTail;
    SameTail(msgs, Shrunk(msgs, maxTokens, hi), tail);
  }

  lemma SameTail(msgs: seq<Entry>, r: seq<Entry>, tail: int)
    requires |r| == |msgs| && r[TailStart(msgs, tail)..] == msgs[TailStart(msgs, tail)..]
    ensures KeepsTail(msgs, r, tail)
  {
    var hi := TailStart(msgs, tail);
    assert forall j :: hi <= j < |msgs| ==> r[j] == r[hi..][j - hi] && msgs[j] == msgs[hi..][j - hi];
  }

  lemma CutKeepsTail(msgs: seq<Entry>, k: nat, tail: int)
    requires 1 + k + Keep(tail) <= |msgs|
    ensures KeepsTail(msgs, [msgs[0]] + msgs[1 + k..], tail)
  {
  }

  method TrimMessages(msgs: seq<Entry>, maxTokens: int, tailPreserve: int)
    returns (out: seq<Entry>, trimmed: bool, dropped: seq<Entry>)
    requires maxTokens > 0 && 1 + Keep(tailPreserve) < |msgs| ==>
      NoNilRead(Middle(msgs, |msgs| - Keep(tailPreserve)), SumTokens(msgs), maxTokens, 0)
    requires maxTokens > 0 && 1 < |msgs| <= 1 + Keep(tailPreserve) && SumTokens(msgs) > maxTokens ==>
      CanStop(msgs, maxTokens, TailStart(msgs, tailPreserve))
    ensures maxTokens <= 0 || |msgs| <= 1 || SumTokens(msgs) <= maxTokens ==> out == msgs && !trimmed && dropped == []
    ensures maxTokens > 0 && 1 < |msgs| <= 1 + Keep(tailPreserve) && SumTokens(msgs) > maxTokens ==>
      trimmed && dropped == [] && out == Shrunk(msgs, maxTokens, TailStart(msgs, tailPreserve))
    ensures maxTokens > 0 && 1 + Keep(tailPreserve) < |msgs| && 1 < |msgs| ==>
      var k := DropFrom(Middle(msgs, |msgs| - Keep(tailPreserve)), SumTokens(msgs), maxTokens, 0);
      out == [msgs[0]] + msgs[1 + k..] && dropped == msgs[1..1 + k] && trimmed == (k > 0)
    ensures KeepsTail(msgs, out, tailPreserve)
  {
    hide SumTokens, MessageTokens, Shrunk, CanStop, ImageTurn, KeepsTail;
    WholeKeepsTail(msgs, tailPreserve);
    if maxTokens <= 0 || |msgs| <= 1 {
      return msgs, false, [];
    }
    if |msgs| <= 1 + Keep(tailPreserve) {
      if SumTokens(msgs) <= maxTokens {
        return msgs, false, [];
      }
      ShrunkKeepsTail(msgs, maxTokens, tailPreserve);
      out := ShrinkMessages(msgs, maxTokens, tailPreserve);
      return out, true, [];
    }
    assert [msgs[0]] + msgs[1..] == msgs;
    assert TailStart(msgs, tailPreserve) == |msgs| - Keep(tailPreserve);
    out, trimmed, dropped := TrimLong(msgs, maxTokens, |msgs| - Keep(tailPreserve));
    CutKeepsTail(msgs, |dropped|, tailPreserve);
  }

  lemma SumOfParts(msgs: seq<Entry>, end: nat)
    requires 1 <= end <= |msgs|
    ensures SumTokens(msgs) == MessageTokens(msgs[0]) + SumTokens(msgs[1..end]) + SumTokens(msgs[end..])
  {
    hide MessageTokens;
    SumAppend([msgs[0]], msgs[1..end]);
    SumAppend([msgs[0]] + msgs[1..end], msgs[end..]);
    assert [msgs[0]] + msgs[1..end] + msgs[end..] == msgs;
    assert [msgs[0]][..0] == [];
  }

  // ----- Main results

  lemma {:induction false} LeftIs(middle: seq<Entry>, total: int, k: nat)
    requires k <= |middle|
    ensures Left(middle, total, k) == total - SumTokens(middle[..k])
  {
    hide MessageTokens;
    if k > 0 {
      LeftIs(middle, total, k - 1);
      assert middle[..k][..k - 1] == middle[..k - 1];
    }
  }

  /** No further than needed: the budget is met or nothing is left, and without the last turn that was
      dropped the estimate was still above the budget. */
  lemma {:induction false} DropIsLeast(middle: seq<Entry>, total: int, maxTokens: int, k: nat)
    requires k <= |middle|
    ensures var n := DropFrom(middle, total, maxTokens, k);
            && (Left(middle, total, n) <= maxTokens || n == |middle|)
            && (n > k ==> Left(middle, total, n - 1) > maxTokens || (n - 2 >= k && Left(middle, total, n - 2) > maxTokens))
    decreases |middle| - k
  {
    hide Left, ShowsImage, TrimSpace;
    if k < |middle| && Left(middle, total, k) > maxTokens {
      DropIsLeast(middle, total, maxTokens, if ImageTurn(middle, k) then k + 2 else k + 1);
    }
  }

  /** Between a user message with an image and the answer without tool calls that follows it. */
  predicate InsideImageTurn(middle: seq<Entry>, n: nat)
    requires n <= |middle|
  {
    && 0 < n < |middle| && middle[n - 1].Msg? && middle[n].Msg?
    && middle[n - 1].m.role == User && middle[n - 1].m.attachmentBytes > 0 && middle[n - 1].m.likelyImage
    && middle[n].m.role == Assistant && Blank(middle[n].m.toolCallsJSON)
  }

  predicate MayStop(middle: seq<Entry>, total: int, maxTokens: int, n: nat)
    requires n <= |middle|
  {
    (n == |middle| || total - SumTokens(middle[..n]) <= maxTokens) && !InsideImageTurn(middle, n)
  }

  lemma TurnIs(middle: seq<Entry>, i: nat)
    requires i < |middle|
    ensures ImageTurn(middle, i) <==> InsideImageTurn(middle, i + 1)
  {
    if i + 1 < |middle| && middle[i + 1].Msg? {
      TrimBlank(middle[i + 1].m.toolCallsJSON);
    }
    hide TrimSpace, Blank;
  }

  /** The oldest messages are dropped up to the first place where the budget is met or nothing is left, and which
      does not part an image from its answer. */
  lemma DropsToFirstStop(middle: seq<Entry>, total: int, maxTokens: int)
    ensures var n := DropFrom(middle, total, maxTokens, 0);
            MayStop(middle, total, maxTokens, n) && forall j: nat :: j < n ==> !MayStop(middle, total, maxTokens, j)
  {
    hide *;
    NoTurnAtStart(middle);
    DropsFrom(middle, total, maxTokens, 0);
  }

  lemma NoTurnAtStart(middle: seq<Entry>)
    ensures !InsideImageTurn(middle, 0)
  {
  }

  lemma {:induction false} DropsFrom(middle: seq<Entry>, total: int, maxTokens: int, k: nat)
    requires k <= |middle| && !InsideImageTurn(middle, k)
    ensures var n := DropFrom(middle, total, maxTokens, k);
            && MayStop(middle, total, maxTokens, n)
            && forall j: nat :: k <= j < n ==> !MayStop(middle, total, maxTokens, j)
    decreases |middle| - k
  {
    hide ImageTurn, InsideImageTurn, Left, SumTokens;
    LeftIs(middle, total, k);
    if k < |middle| && Left(middle, total, k) > maxTokens {
      TurnIs(middle, k);
      if ImageTurn(middle, k) {
        TurnsApart(middle, k);
        DropsFrom(middle, total, maxTokens, k + 2);
      } else {
        DropsFrom(middle, total, maxTokens, k + 1);
      }
    }
  }

  lemma TurnsApart(middle: seq<Entry>, k: nat)
    requires k < |middle| && ImageTurn(middle, k)
    ensures k + 2 <= |middle| && !InsideImageTurn(middle, k + 2)
  {
    hide Blank, TrimSpace;
  }

  /** A long history keeps its first message and its tail, loses the oldest of the rest in order, and ends
      within the budget unless only those two are left. */
  lemma TrimmedFits(msgs: seq<Entry>, maxTokens: int, hi: nat)
    requires 1 < hi <= |msgs|
    ensures var k := DropFrom(Middle(msgs, hi), SumTokens(msgs), maxTokens, 0);
            var out := [msgs[0]] + msgs[1 + k..];
            && SumTokens(out) == SumTokens(msgs) - SumTokens(msgs[1..1 + k])
            && msgs[hi..] == out[|out| - |msgs[hi..]|..]
            && (SumTokens(out) <= maxTokens || out == [msgs[0]] + msgs[hi..])
  {
    hide DropFrom, Left, MessageTokens, SumTokens;
    var middle := Middle(msgs, hi);
    var k := DropFrom(middle, SumTokens(msgs), maxTokens, 0);
    DropIsLeast(middle, SumTokens(msgs), maxTokens, 0);
    LeftIs(middle, SumTokens(msgs), k);
    SumOfDropped(msgs, k);
    PartsOfTrimmed(msgs, hi, k);
  }

  lemma PartsOfTrimmed(msgs: seq<Entry>, hi: nat, k: nat)
    requires 1 < hi <= |msgs| && k <= hi - 1
    ensures var out := [msgs[0]] + msgs[1 + k..];
            && Middle(msgs, hi)[..k] == msgs[1..1 + k]
            && msgs[hi..] == out[|out| - |msgs[hi..]|..]
            && (k == |Middle(msgs, hi)| ==> out == [msgs[0]] + msgs[hi..])
  {
  }

  lemma SumOfDropped(msgs: seq<Entry>, k: nat)
    requires 1 + k <= |msgs|
    ensures SumTokens([msgs[0]] + msgs[1 + k..]) == SumTokens(msgs) - SumTokens(msgs[1..1 + k])
  {
    SumOfParts(msgs, 1 + k);
    SumAppend([msgs[0]], msgs[1 + k..]);
    assert [msgs[0]][..0] == [];
    hide MessageTokens;
  }
}
