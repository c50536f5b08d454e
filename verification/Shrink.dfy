/** shrinkMessagesToApproxTokenBudget of pkg/llmhistory/tokens.go. The loop is not total: this module says
    exactly on which inputs it stops. */
module Shrink {
  import opened Runes
  import opened Chat
  import opened Tokens

  function Notice(): (s: string)
    ensures |s| == 54 && !Blank(s)
  {
    var s := "\n\n[" + "...фрагмент убран из‑за лимита контекста модели...]";
    assert s[2] == '[';
    s
  }

  // ----- One message

  function CutLength(n: nat): nat {
    var q := n * 3 / 4;
    if q > 64 then q else 64
  }

  function Cut(content: string): string {
    if |content| <= 96 then "" else content[..CutLength(|content|)] + Notice()
  }

  /** The length a long message has after one round. */
  function NextLength(n: nat): nat {
    CutLength(n) + 54
  }

  function LengthAfter(n: nat, rounds: nat): nat
    decreases rounds
  {
    if rounds == 0 then n else LengthAfter(NextLength(n), rounds - 1)
  }

  /** Lengths above 216 fall, lengths below 213 climb, 213 to 216 stay, none drops below 126. */
  lemma NextLengthMoves(n: nat)
    requires n > 96
    ensures NextLength(n) == n * 3 / 4 + 54 && NextLength(n) >= 126
    ensures n >= 217 ==> 216 <= NextLength(n) < n
    ensures n <= 212 ==> n < NextLength(n) <= 213
    ensures 213 <= n <= 216 ==> NextLength(n) == n
  {
  }

  /** A long message settles on exactly 216 runes from above and on exactly 213 from below. */
  lemma {:induction false} LengthSettles(n: nat) returns (rounds: nat)
    requires n > 96
    ensures LengthAfter(n, rounds) == if n >= 217 then 216 else if n <= 212 then 213 else n
    decreases if n > 216 then n else 216 - n
  {
    NextLengthMoves(n);
    if 213 <= n <= 216 {
      rounds := 0;
    } else {
      rounds := LengthSettles(NextLength(n));
      rounds := rounds + 1;
    }
  }

  lemma {:induction false} SettledStays(n: nat, rounds: nat)
    requires 213 <= n <= 216
    ensures LengthAfter(n, rounds) == n
  {
    if rounds > 0 {
      SettledStays(n, rounds - 1);
    }
  }

  // ----- One round of the loop

  predicate Filled(e: Entry) {
    e.Msg? && !Blank(e.m.content)
  }

  predicate Long(e: Entry) {
    Filled(e) && |e.m.content| > 96
  }

  /** The last filled message before `hi`, or -1. */
  function Candidate(msgs: seq<Entry>, hi: nat): (i: int)
    requires hi <= |msgs|
    ensures -1 <= i < hi
    ensures i >= 0 ==> Filled(msgs[i])
    ensures forall k :: i < k < hi ==> !Filled(msgs[k])
  {
    if hi == 0 then -1 else if Filled(msgs[hi - 1]) then hi - 1 else Candidate(msgs, hi - 1)
  }

  function WithContent(e: Entry, content: string): Entry
    requires e.Msg?
  {
    Msg(e.m.(content := content))
  }

  predicate Running(msgs: seq<Entry>, maxTokens: int, hi: nat)
    requires hi <= |msgs|
  {
    SumTokens(msgs) > maxTokens && Candidate(msgs, hi) >= 0
  }

  function Round(msgs: seq<Entry>, hi: nat): (r: seq<Entry>)
    requires hi <= |msgs| && Candidate(msgs, hi) >= 0
    ensures |r| == |msgs|
  {
    var i := Candidate(msgs, hi);
    msgs[i := WithContent(msgs[i], Cut(msgs[i].m.content))]
  }

  /** The history after `n` rounds, or where the loop stopped before. */
  function Rounds(msgs: seq<Entry>, maxTokens: int, hi: nat, n: nat): (r: seq<Entry>)
    requires hi <= |msgs|
    ensures |r| == |msgs|
    decreases n
  {
    if n == 0 || !Running(msgs, maxTokens, hi) then msgs else Rounds(Round(msgs, hi), maxTokens, hi, n - 1)
  }

  ghost predicate Stops(msgs: seq<Entry>, maxTokens: int, hi: nat)
    requires hi <= |msgs|
  {
    exists n :: !Running(Rounds(msgs, maxTokens, hi, n), maxTokens, hi)
  }

  // ----- The condition

  /** The last long message before `hi`, or -1. */
  function LastLong(msgs: seq<Entry>, hi: nat): (i: int)
    requires hi <= |msgs|
    ensures -1 <= i < hi
    ensures i >= 0 ==> Long(msgs[i])
    ensures forall k :: i < k < hi ==> !Long(msgs[k])
  {
    if hi == 0 then -1 else if Long(msgs[hi - 1]) then hi - 1 else LastLong(msgs, hi - 1)
  }

  function Saving(e: Entry): int {
    if Filled(e) then TokensAt(e.m, |e.m.content|) - TokensAt(e.m, 0) else 0
  }

  /** What clearing the filled messages in [lo, hi) saves. */
  function Savings(msgs: seq<Entry>, lo: int, hi: nat): int
    requires 0 <= lo && hi <= |msgs|
    decreases hi
  {
    if hi <= lo then 0 else Savings(msgs, lo, hi - 1) + Saving(msgs[hi - 1])
  }

  /** The least estimate the loop can reach: the short messages after the last long one are cleared, and
      the long one has its length or 216, whichever is less. */
  function FloorTokens(msgs: seq<Entry>, hi: nat): int
    requires hi <= |msgs| && LastLong(msgs, hi) >= 0
  {
    var j := LastLong(msgs, hi);
    var m := msgs[j].m;
    SumTokens(msgs) - Savings(msgs, j + 1, hi) - TokensAt(m, |m.content|) + TokensAt(m, Min(|m.content|, 216))
  }

  /** No message before the tail is long, or the floor meets the budget. */
  predicate CanStop(msgs: seq<Entry>, maxTokens: int, hi: nat)
    requires hi <= |msgs|
  {
    LastLong(msgs, hi) >= 0 ==> FloorTokens(msgs, hi) <= maxTokens
  }

  // ----- How one round moves the floor

  lemma {:induction false} SavingsUpdate(msgs: seq<Entry>, lo: nat, hi: nat, i: nat, e: Entry)
    requires i < |msgs| && hi <= |msgs|
    ensures Savings(msgs[i := e], lo, hi) ==
              Savings(msgs, lo, hi) + if lo <= i < hi then Saving(e) - Saving(msgs[i]) else 0
    decreases hi
  {
    hide Saving;
    if hi > lo {
      SavingsUpdate(msgs, lo, hi - 1, i, e);
    }
  }

  lemma {:induction false} NoSavings(msgs: seq<Entry>, lo: nat, hi: nat)
    requires hi <= |msgs| && forall k :: lo <= k < hi ==> !Filled(msgs[k])
    ensures Savings(msgs, lo, hi) == 0
    decreases hi
  {
    hide Filled;
    if hi > lo {
      NoSavings(msgs, lo, hi - 1);
    }
  }

  lemma {:induction false} SavingsNotNegative(msgs: seq<Entry>, lo: nat, hi: nat)
    requires hi <= |msgs|
    ensures Savings(msgs, lo, hi) >= 0
    decreases hi
  {
    hide Blank, TokensAt;
    if hi > lo {
      SavingsNotNegative(msgs, lo, hi - 1);
      var e := msgs[hi - 1];
      if e.Msg? {
        TokensMonotone(e.m, 0, |e.m.content|);
      }
    }
  }

  lemma LastLongIs(msgs: seq<Entry>, hi: nat, j: int)
    requires hi <= |msgs| && -1 <= j < hi && (j >= 0 ==> Long(msgs[j]))
    requires forall k :: j < k < hi ==> !Long(msgs[k])
    ensures LastLong(msgs, hi) == j
  {
    hide LastLong, Long;
  }

  lemma CutOf(content: string)
    ensures |content| <= 96 ==> Cut(content) == ""
    ensures |content| > 96 ==> |Cut(content)| == NextLength(|content|) && !Blank(Cut(content))
  {
    if |content| > 96 {
      var n := Notice();
      hide Notice, IsSpace;
      var i :| 0 <= i < |n| && !IsSpace(n[i]);
      assert Cut(content)[CutLength(|content|) + i] == n[i];
    }
  }

  /** A short message is cleared. */
  lemma ShortIsCleared(msgs: seq<Entry>, hi: nat)
    requires hi <= |msgs| && Candidate(msgs, hi) >= 0 && !Long(msgs[Candidate(msgs, hi)])
    ensures var i := Candidate(msgs, hi);
            && msgs[i].Msg? && Round(msgs, hi) == msgs[i := WithContent(msgs[i], "")]
            && !Long(WithContent(msgs[i], "")) && LastLong(msgs, hi) != i
  {
    CutOf(msgs[Candidate(msgs, hi)].m.content);
    hide Candidate, LastLong, Cut;
  }

  lemma ShortRound(msgs: seq<Entry>, hi: nat)
    requires hi <= |msgs| && Candidate(msgs, hi) >= 0 && !Long(msgs[Candidate(msgs, hi)])
    ensures LastLong(Round(msgs, hi), hi) == LastLong(msgs, hi)
    ensures LastLong(msgs, hi) >= 0 ==> FloorTokens(Round(msgs, hi), hi) == FloorTokens(msgs, hi)
  {
    hide Candidate, LastLong, Round, Long, FloorTokens;
    var i, j := Candidate(msgs, hi), LastLong(msgs, hi);
    var e := WithContent(msgs[i], "");
    ShortIsCleared(msgs, hi);
    LastLongIs(msgs[i := e], hi, j);
    if j >= 0 {
      LongIsFilled(msgs, hi);
      SameFloor(msgs, hi, i, e);
    }
  }

  lemma LongIsFilled(msgs: seq<Entry>, hi: nat)
    requires hi <= |msgs| && LastLong(msgs, hi) >= 0
    ensures LastLong(msgs, hi) <= Candidate(msgs, hi)
  {
    hide Candidate, LastLong, Blank;
  }

  /** Clearing a message after the last long one moves its saving from the floor's second term to its first. */
  lemma SameFloor(msgs: seq<Entry>, hi: nat, i: nat, e: Entry)
    requires hi <= |msgs| && 0 <= LastLong(msgs, hi) < i < hi && LastLong(msgs[i := e], hi) == LastLong(msgs, hi)
    requires Filled(msgs[i]) && e == WithContent(msgs[i], "")
    ensures FloorTokens(msgs[i := e], hi) == FloorTokens(msgs, hi)
  {
    hide LastLong, TokensAt, Blank;
    SumUpdate(msgs, i, e);
    SavingsUpdate(msgs, LastLong(msgs, hi) + 1, hi, i, e);
    TokensOfCleared(msgs[i].m);
    assert MessageTokens(Msg(msgs[i].m)) == TokensAt(msgs[i].m, |(msgs[i].m).content|);
  }

  lemma TokensOfCleared(m: Message)
    ensures MessageTokens(Msg(m.(content := ""))) == TokensAt(m, 0) && Saving(Msg(m.(content := ""))) == 0
  {
  }

  /** On a long message the floor is the estimate with min(length, 216) runes. */
  lemma LongFloor(msgs: seq<Entry>, hi: nat)
    requires hi <= |msgs| && Candidate(msgs, hi) >= 0 && Long(msgs[Candidate(msgs, hi)])
    ensures var i := Candidate(msgs, hi);
            var m := msgs[i].m;
            && LastLong(msgs, hi) == i
            && FloorTokens(msgs, hi) == SumTokens(msgs) - TokensAt(m, |m.content|) + TokensAt(m, Min(|m.content|, 216))
  {
    var i := Candidate(msgs, hi);
    hide Candidate, LastLong, Blank, TokensAt;
    LastLongIs(msgs, hi, i);
    NoSavings(msgs, i + 1, hi);
  }

  lemma LongRound(msgs: seq<Entry>, hi: nat)
    requires hi <= |msgs| && Candidate(msgs, hi) >= 0 && Long(msgs[Candidate(msgs, hi)])
    ensures var i, r := Candidate(msgs, hi), Round(msgs, hi);
            var m := msgs[i].m;
            && Candidate(r, hi) == i && Long(r[i]) && |r[i].m.content| == NextLength(|m.content|)
            && FloorTokens(r, hi) == SumTokens(msgs) - TokensAt(m, |m.content|) + TokensAt(m, Min(NextLength(|m.content|), 216))
  {
    var i, r := Candidate(msgs, hi), Round(msgs, hi);
    var m := msgs[i].m;
    CutOf(m.content);
    NextLengthMoves(|m.content|);
    CandidateIs(r, hi, i);
    LongFloor(r, hi);
    hide Candidate, Blank, Cut, FloorTokens;
    SumUpdate(msgs, i, r[i]);
    OtherRunesSame(m, r[i].m.content);
  }

  lemma CandidateIs(msgs: seq<Entry>, hi: nat, i: nat)
    requires hi <= |msgs| && i < hi && Filled(msgs[i]) && forall k :: i < k < hi ==> !Filled(msgs[k])
    ensures Candidate(msgs, hi) == i
  {
    hide Candidate, Filled;
  }

  lemma OtherRunesSame(m: Message, content: string)
    ensures forall n: nat :: TokensAt(m.(content := content), n) == TokensAt(m, n)
  {
  }

  /** A round keeps the answer to whether the loop can stop; when it cannot, the loop is still running. */
  lemma RoundKeepsCanStop(msgs: seq<Entry>, maxTokens: int, hi: nat)
    requires hi <= |msgs| && Running(msgs, maxTokens, hi)
    ensures CanStop(Round(msgs, hi), maxTokens, hi) == CanStop(msgs, maxTokens, hi)
  {
    var i := Candidate(msgs, hi);
    if Long(msgs[i]) {
      var m := msgs[i].m;
      var n := |m.content|;
      LongFloor(msgs, hi);
      LongRound(msgs, hi);
      LongFloor(Round(msgs, hi), hi);
      NextLengthMoves(n);
      hide FloorTokens, TokensAt, Round, Candidate, LastLong, Long;
      if n <= 216 {
        TokensMonotone(m, n, NextLength(n));
      }
    } else {
      ShortRound(msgs, hi);
      hide FloorTokens, Round, Candidate, LastLong, Long;
    }
  }

  // ----- Termination where the loop can stop

  function FilledCount(msgs: seq<Entry>, hi: nat): nat
    requires hi <= |msgs|
  {
    if hi == 0 then 0 else FilledCount(msgs, hi - 1) + if Filled(msgs[hi - 1]) then 1 else 0
  }

  lemma {:induction false} FilledCountUpdate(msgs: seq<Entry>, hi: nat, i: nat, e: Entry)
    requires i < |msgs| && hi <= |msgs|
    ensures FilledCount(msgs[i := e], hi) == FilledCount(msgs, hi)
              - (if i < hi && Filled(msgs[i]) then 1 else 0) + (if i < hi && Filled(e) then 1 else 0)
  {
    hide Filled;
    if hi > 0 {
      FilledCountUpdate(msgs, hi - 1, i, e);
    }
  }

  /** The length of the message the next round would cut. */
  function CandidateLength(msgs: seq<Entry>, hi: nat): nat
    requires hi <= |msgs|
  {
    var i := Candidate(msgs, hi);
    if i < 0 then 0 else |msgs[i].m.content|
  }

  lemma RoundProgresses(msgs: seq<Entry>, maxTokens: int, hi: nat)
    requires hi <= |msgs| && Running(msgs, maxTokens, hi) && CanStop(msgs, maxTokens, hi)
    ensures var r := Round(msgs, hi);
            || FilledCount(r, hi) < FilledCount(msgs, hi)
            || (FilledCount(r, hi) == FilledCount(msgs, hi) && CandidateLength(r, hi) < CandidateLength(msgs, hi))
  {
    var i := Candidate(msgs, hi);
    var r := Round(msgs, hi);
    CutOf(msgs[i].m.content);
    FilledCountUpdate(msgs, hi, i, r[i]);
    if Long(msgs[i]) {
      LongFloor(msgs, hi);
      LongRound(msgs, hi);
      NextLengthMoves(|msgs[i].m.content|);
      hide FloorTokens, TokensAt, Candidate, LastLong, FilledCount, Cut;
    }
  }

  /** The history the loop returns, on the inputs on which it returns. */
  function Shrunk(msgs: seq<Entry>, maxTokens: int, hi: nat): (r: seq<Entry>)
    requires hi <= |msgs| && CanStop(msgs, maxTokens, hi)
    decreases FilledCount(msgs, hi), CandidateLength(msgs, hi)
  {
    if Running(msgs, maxTokens, hi) then
      RoundProgresses(msgs, maxTokens, hi);
      RoundKeepsCanStop(msgs, maxTokens, hi);
      Shrunk(Round(msgs, hi), maxTokens, hi)
    else msgs
  }

  method ShrinkMessages(msgs: seq<Entry>, maxTokens: int, preserveTail: int) returns (out: seq<Entry>)
    requires CanStop(msgs, maxTokens, TailStart(msgs, preserveTail))
    ensures out == Shrunk(msgs, maxTokens, TailStart(msgs, preserveTail))
  {
    ghost var hi := TailStart(msgs, preserveTail);
    hide CanStop, CandidateLength, FilledCount, Candidate, Cut, SumTokens;
    var keep := if preserveTail < 0 then 0 else if preserveTail > |msgs| then |msgs| else preserveTail;
    out := msgs;
    while SumTokens(out) > maxTokens
      invariant |out| == |msgs| && CanStop(out, maxTokens, hi)
      invariant Shrunk(out, maxTokens, hi) == Shrunk(msgs, maxTokens, hi)
      decreases FilledCount(out, hi), CandidateLength(out, hi)
    {
      var tailStart := |out| - keep;
      var idx := LastFilled(out, tailStart);
      if idx < 0 {
        break;
      }
      RoundProgresses(out, maxTokens, hi);
      RoundKeepsCanStop(out, maxTokens, hi);
      out := out[idx := WithContent(out[idx], Cut(out[idx].m.content))];
    }
  }

  function TailStart(msgs: seq<Entry>, preserveTail: int): (hi: nat)
    ensures hi <= |msgs|
  {
    |msgs| - if preserveTail < 0 then 0 else if preserveTail > |msgs| then |msgs| else preserveTail
  }

  method LastFilled(msgs: seq<Entry>, hi: nat) returns (idx: int)
    requires hi <= |msgs|
    ensures idx == Candidate(msgs, hi)
  {
    hide Filled;
    idx := hi - 1;
    while idx >= 0 && !Filled(msgs[idx])
      invariant -1 <= idx < hi && Candidate(msgs, idx + 1) == Candidate(msgs, hi)
    {
      idx := idx - 1;
    }
  }

  // ----- Main results

  lemma {:induction false} RunsForever(msgs: seq<Entry>, maxTokens: int, hi: nat, n: nat)
    requires hi <= |msgs| && !CanStop(msgs, maxTokens, hi)
    ensures Running(Rounds(msgs, maxTokens, hi, n), maxTokens, hi)
    decreases n
  {
    assert Running(msgs, maxTokens, hi) by {
      assert FloorTokens(msgs, hi) <= SumTokens(msgs) by {
        var j := LastLong(msgs, hi);
        hide LastLong, TokensAt, Long;
        SavingsNotNegative(msgs, j + 1, hi);
        TokensMonotone(msgs[j].m, Min(|msgs[j].m.content|, 216), |msgs[j].m.content|);
      }
      hide FloorTokens, SumTokens;
    }
    if n > 0 {
      RoundKeepsCanStop(msgs, maxTokens, hi);
      hide CanStop, Running;
      RunsForever(Round(msgs, hi), maxTokens, hi, n - 1);
    }
  }

  lemma {:induction false} StopsSomewhere(msgs: seq<Entry>, maxTokens: int, hi: nat) returns (n: nat)
    requires hi <= |msgs| && CanStop(msgs, maxTokens, hi)
    ensures Rounds(msgs, maxTokens, hi, n) == Shrunk(msgs, maxTokens, hi)
    ensures !Running(Shrunk(msgs, maxTokens, hi), maxTokens, hi)
    decreases FilledCount(msgs, hi), CandidateLength(msgs, hi)
  {
    hide CanStop, Round, FilledCount, CandidateLength, SumTokens;
    if Running(msgs, maxTokens, hi) {
      RoundProgresses(msgs, maxTokens, hi);
      RoundKeepsCanStop(msgs, maxTokens, hi);
      n := StopsSomewhere(Round(msgs, hi), maxTokens, hi);
      n := n + 1;
    } else {
      n := 0;
    }
  }

  /** The loop stops exactly when no message before the tail is long, or the floor meets the budget. */
  lemma StopsIff(msgs: seq<Entry>, maxTokens: int, hi: nat)
    requires hi <= |msgs|
    ensures Stops(msgs, maxTokens, hi) <==> CanStop(msgs, maxTokens, hi)
  {
    hide CanStop, Running, Round, Shrunk;
    if CanStop(msgs, maxTokens, hi) {
      var n := StopsSomewhere(msgs, maxTokens, hi);
    } else {
      forall n: nat ensures Running(Rounds(msgs, maxTokens, hi, n), maxTokens, hi) {
        RunsForever(msgs, maxTokens, hi, n);
      }
    }
  }

  /** When the loop stops, the budget is met or nothing is left to cut; the tail is never touched. */
  lemma {:induction false} ShrunkIsDone(msgs: seq<Entry>, maxTokens: int, hi: nat)
    requires hi <= |msgs| && CanStop(msgs, maxTokens, hi)
    ensures var r := Shrunk(msgs, maxTokens, hi);
            && |r| == |msgs| && r[hi..] == msgs[hi..]
            && (SumTokens(r) <= maxTokens || forall k :: 0 <= k < hi ==> !Filled(r[k]))
    decreases FilledCount(msgs, hi), CandidateLength(msgs, hi)
  {
    hide CanStop, FilledCount, CandidateLength, SumTokens, Filled, Cut;
    if Running(msgs, maxTokens, hi) {
      RoundProgresses(msgs, maxTokens, hi);
      RoundKeepsCanStop(msgs, maxTokens, hi);
      ShrunkIsDone(Round(msgs, hi), maxTokens, hi);
    }
  }
}
