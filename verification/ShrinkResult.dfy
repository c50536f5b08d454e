/** What the shrinking of a history leaves of each message (pkg/llmhistory/tokens.go). */
module ShrinkResult {
  import opened Runes
  import opened Chat
  import opened Tokens
  import opened Shrink

  /** One round empties a content of up to 96 runes; of a longer one, three quarters stay in front of the notice. */
  lemma CutKeepsStart(c: string) returns (n: nat)
    ensures |c| <= 96 ==> Cut(c) == ""
    ensures |c| > 96 ==> 72 <= n <= |c| && 4 * n <= 3 * |c| < 4 * n + 4 && Cut(c) == c[..n] + Notice()
  {
    hide Notice;
    n := if |c| > 96 then CutLength(|c|) else 0;
  }

  /** Only the content has changed: a short one is gone, a long one still begins with its first 72 runes. */
  predicate Shortened(a: Entry, b: Entry) {
    && a.Msg? && b.Msg? && b.m == a.m.(content := b.m.content)
    && if |a.m.content| <= 96 then b.m.content == ""
       else |b.m.content| > 96 && a.m.content[..72] == b.m.content[..72]
  }

  lemma CutShortens(e: Entry)
    requires e.Msg?
    ensures Shortened(e, WithContent(e, Cut(e.m.content)))
  {
    hide Cut, Notice;
    var c := e.m.content;
    var n := CutKeepsStart(c);
    NoticeLength();
    if |c| > 96 {
      assert (c[..n] + Notice())[..72] == c[..72];
    }
  }

  lemma NoticeLength()
    ensures |Notice()| == 54
  {
  }

  lemma ShortenedTwice(a: Entry, b: Entry, c: Entry)
    requires Shortened(a, b) && Shortened(b, c)
    ensures Shortened(a, c)
  {
  }

  /** Messages from the tail on are untouched, each other one is untouched or shortened, and behind a shortened one
      nothing before the tail is left to cut. */
  ghost predicate ShrunkFrom(was: seq<Entry>, now: seq<Entry>, hi: nat)
    requires hi <= |was|
  {
    && |now| == |was| && now[hi..] == was[hi..]
    && (forall k :: 0 <= k < hi ==> now[k] == was[k] || Shortened(was[k], now[k]))
    && (forall k, j :: 0 <= k < j < hi && now[k] != was[k] ==> !Filled(now[j]))
  }

  lemma RoundShrinks(was: seq<Entry>, now: seq<Entry>, hi: nat)
    requires hi <= |was| && ShrunkFrom(was, now, hi) && Candidate(now, hi) >= 0
    ensures ShrunkFrom(was, Round(now, hi), hi)
  {
    hide Cut, Filled, Shortened;
    var i := Candidate(now, hi);
    FilledIsMessage(now[i]);
    CutShortens(now[i]);
    var e := WithContent(now[i], Cut(now[i].m.content));
    if now[i] != was[i] {
      ShortenedTwice(was[i], now[i], e);
    }
  }

  lemma FilledIsMessage(e: Entry)
    requires Filled(e)
    ensures e.Msg?
  {
  }

  /** From the last message before the tail backwards, messages are shortened one after the other, each as far as it
      goes before the next; no other field and no other message changes. */
  lemma ShrinksBackwards(msgs: seq<Entry>, maxTokens: int, hi: nat)
    requires hi <= |msgs| && CanStop(msgs, maxTokens, hi)
    ensures ShrunkFrom(msgs, Shrunk(msgs, maxTokens, hi), hi)
  {
    hide *;
    Unshrunk(msgs, hi);
    ShrinksOn(msgs, msgs, maxTokens, hi);
  }

  lemma Unshrunk(msgs: seq<Entry>, hi: nat)
    requires hi <= |msgs|
    ensures ShrunkFrom(msgs, msgs, hi)
  {
    hide Filled, Shortened;
  }

  lemma {:induction false} ShrinksOn(was: seq<Entry>, now: seq<Entry>, maxTokens: int, hi: nat)
    requires hi <= |was| && ShrunkFrom(was, now, hi) && |now| == |was| && CanStop(now, maxTokens, hi)
    ensures ShrunkFrom(was, Shrunk(now, maxTokens, hi), hi)
    decreases FilledCount(now, hi), CandidateLength(now, hi)
  {
    hide CanStop, FilledCount, CandidateLength, SumTokens, Filled, ShrunkFrom, Round;
    if Running(now, maxTokens, hi) {
      RoundProgresses(now, maxTokens, hi);
      RoundKeepsCanStop(now, maxTokens, hi);
      RoundShrinks(was, now, hi);
      ShrinksOn(was, Round(now, hi), maxTokens, hi);
    }
  }
}
