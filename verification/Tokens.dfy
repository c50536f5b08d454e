/** Token estimates and history trimming of pkg/llmhistory/tokens.go. */
module Tokens {
  import opened Runes
  import opened Chat

  function Min(a: int, b: int): int { if a < b then a else b }

  function VisionTokens(bytes: nat): nat {
    if bytes == 0 then 0
    else if bytes / 16 < 256 then 256
    else if bytes / 16 > 8192 then 8192
    else bytes / 16
  }

  /** Runes counted besides the content. */
  function OtherRunes(m: Message): nat {
    |m.toolCallsJSON| + |m.toolName| + |m.toolCallID| +
    if m.attachmentBytes == 0 then |m.attachmentName|
    else if m.likelyImage then
      if TrimSpace(m.attachmentMime) != "" then |m.attachmentMime| else |m.attachmentName|
    else m.attachmentBytes / 4 + |m.attachmentMime|
  }

  function ImageTokens(m: Message): nat {
    if m.attachmentBytes > 0 && m.likelyImage then VisionTokens(m.attachmentBytes) else 0
  }

  /** The estimate of a message whose content has `n` runes. */
  function TokensAt(m: Message, n: nat): nat {
    (n + OtherRunes(m)) / 4 + 6 + ImageTokens(m)
  }

  function MessageTokens(e: Entry): nat {
    if e.Nil? then 0 else TokensAt(e.m, |e.m.content|)
  }

  function SumTokens(msgs: seq<Entry>): nat {
    if msgs == [] then 0 else SumTokens(msgs[..|msgs| - 1]) + MessageTokens(msgs[|msgs| - 1])
  }

  method ComputeSumTokens(msgs: seq<Entry>) returns (s: nat)
    ensures s == SumTokens(msgs)
  {
    hide MessageTokens;
    s := 0;
    for i := 0 to |msgs|
      invariant s == SumTokens(msgs[..i])
    {
      assert msgs[..i + 1][..i] == msgs[..i];
      s := s + MessageTokens(msgs[i]);
    }
    assert msgs[..|msgs|] == msgs;
  }

  lemma {:induction false} SumAppend(a: seq<Entry>, b: seq<Entry>)
    ensures SumTokens(a + b) == SumTokens(a) + SumTokens(b)
  {
    hide MessageTokens;
    if b == [] {
      assert a + b == a;
    } else {
      SumAppend(a, b[..|b| - 1]);
      assert (a + b)[..|a + b| - 1] == a + b[..|b| - 1];
    }
  }

  lemma {:induction false} SumUpdate(msgs: seq<Entry>, i: nat, e: Entry)
    requires i < |msgs|
    ensures SumTokens(msgs[i := e]) == SumTokens(msgs) - MessageTokens(msgs[i]) + MessageTokens(e)
  {
    hide MessageTokens;
    if i < |msgs| - 1 {
      SumUpdate(msgs[..|msgs| - 1], i, e);
      assert msgs[i := e][..|msgs| - 1] == msgs[..|msgs| - 1][i := e];
    } else {
      assert msgs[i := e][..i] == msgs[..i];
    }
  }

  lemma TokensMonotone(m: Message, a: nat, b: nat)
    requires a <= b
    ensures TokensAt(m, a) <= TokensAt(m, b)
  {
    hide OtherRunes, ImageTokens;
  }

  /** A quarter of the runes of the message and 6 more, rounded down. An image adds `v`: a sixteenth of its bytes, but
      not less than 256 and not more than 8192. The name of an attachment counts when there are no bytes, and the media
      type when there are; of an image, the name takes the place of a blank media type. */
  lemma EstimateIs(m: Message) returns (v: nat)
    ensures 256 <= v <= 8192
    ensures v == m.attachmentBytes / 16 || (v == 256 && m.attachmentBytes < 4096) || (v == 8192 && m.attachmentBytes > 131072)
    ensures var text := |m.content| + |m.toolCallsJSON| + |m.toolName| + |m.toolCallID|;
            var t := MessageTokens(Msg(m));
            && (m.attachmentBytes == 0 ==> 4 * (t - 6) <= text + |m.attachmentName| <= 4 * (t - 6) + 3)
            && (m.attachmentBytes > 0 && !m.likelyImage ==>
                  4 * (t - 6) <= text + m.attachmentBytes / 4 + |m.attachmentMime| <= 4 * (t - 6) + 3)
            && (m.attachmentBytes > 0 && m.likelyImage ==>
                  var shown := if Blank(m.attachmentMime) then m.attachmentName else m.attachmentMime;
                  4 * (t - 6 - v) <= text + |shown| <= 4 * (t - 6 - v) + 3)
    ensures MessageTokens(Nil) == 0
  {
    TrimBlank(m.attachmentMime);
    hide TrimSpace, Blank;
    v := if m.attachmentBytes > 0 then VisionTokens(m.attachmentBytes) else 256;
  }
}
