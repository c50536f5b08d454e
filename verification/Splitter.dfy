/** The text splitter of pkg/rag/splitter.go: a paragraph becomes sentences, sentences become parts of
    bounded length, parts are merged greedily into chunks, and chunks may overlap. */
module Splitter {
  import opened Runes

  datatype SplitOptions = SplitOptions(chunkSize: int, chunkOverlap: int)

  function Normalized(o: SplitOptions): (n: SplitOptions)
    ensures 1 <= n.chunkSize && 0 <= n.chunkOverlap < n.chunkSize
    ensures n.chunkSize == o.chunkSize || (o.chunkSize <= 0 && n.chunkSize == 1024)
    ensures 0 <= o.chunkOverlap < n.chunkSize ==> n.chunkOverlap == o.chunkOverlap
    ensures o.chunkOverlap < 0 ==> n.chunkOverlap == 0
    ensures o.chunkOverlap >= n.chunkSize ==> n.chunkOverlap == n.chunkSize / 4
  {
    var size := if o.chunkSize <= 0 then 1024 else o.chunkSize;
    var overlap := if o.chunkOverlap < 0 then 0 else o.chunkOverlap;
    SplitOptions(size, if overlap >= size then size / 4 else overlap)
  }

  predicate AtMost(parts: seq<string>, max: int) {
    forall i :: 0 <= i < |parts| ==> |parts[i]| <= max
  }

  predicate Written(parts: seq<string>) {
    forall i :: 0 <= i < |parts| ==> parts[i] != "" && Trimmed(parts[i])
  }

  // ----- Hard split

  /** Windows of `max` runes; white space after a cut is dropped. */
  function ChunkRunes(s: string, max: int): seq<string>
    requires 1 <= max
    decreases |s|
  {
    if s == "" then []
    else if |s| <= max then [s]
    else [s[..max]] + ChunkRunes(DropLeft(s[max..]), max)
  }

  method ComputeChunkRunes(s: string, max: int) returns (out: seq<string>)
    requires 1 <= max
    ensures out == ChunkRunes(s, max)
  {
    out := [];
    var rest := s;
    while |rest| > 0
      invariant out + ChunkRunes(rest, max) == ChunkRunes(s, max)
      decreases |rest|
    {
      if |rest| <= max {
        out := out + [rest];
        return;
      }
      Assoc(out, [rest[..max]], ChunkRunes(DropLeft(rest[max..]), max));
      out := out + [rest[..max]];
      rest := DropLeft(rest[max..]);
    }
  }

  function HardSplit(s: string, max: int): seq<string> {
    if max <= 0 then [s] else TrimmedNonBlank(ChunkRunes(s, max))
  }

  lemma {:induction false} ChunkRunesKeepInk(s: string, max: int)
    requires 1 <= max
    ensures InkAll(ChunkRunes(s, max)) == Ink(s) && AtMost(ChunkRunes(s, max), max)
    decreases |s|
  {
    hide Ink, DropLeft;
    if s == "" {
      InkBlank(s);
    } else if |s| <= max {
      assert InkAll([s]) == Ink(s) + InkAll([s][1..]);
    } else {
      var rest := DropLeft(s[max..]);
      ChunkRunesKeepInk(rest, max);
      InkDropLeft(s[max..]);
      InkAppend(s[..max], s[max..]);
      Halves(s, max);
    }
  }

  lemma {:induction false} TrimmedNonBlankAtMost(parts: seq<string>, max: int)
    requires AtMost(parts, max)
    ensures AtMost(TrimmedNonBlank(parts), max) && Written(TrimmedNonBlank(parts))
  {
    if parts != [] {
      var first, rest := parts[0], parts[1..];
      assert AtMost(rest, max);
      TrimmedNonBlankAtMost(rest, max);
      KeptIsWritten(first, max);
      hide Kept, AtMost, Written;
      WrittenAppend(Kept(first), TrimmedNonBlank(rest), max);
    }
  }

  lemma HardSplitKeepsInk(s: string, max: int)
    requires 1 <= max
    ensures InkAll(HardSplit(s, max)) == Ink(s)
    ensures AtMost(HardSplit(s, max), max) && Written(HardSplit(s, max))
  {
    ChunkRunesKeepInk(s, max);
    InkTrimmedNonBlank(ChunkRunes(s, max));
    TrimmedNonBlankAtMost(ChunkRunes(s, max), max);
  }

  // ----- Sentences

  /** A '.', '!' or '?' that is last or followed by white space, a quote or a bracket. The three bytes
      of an ellipsis never qualify: the byte after its first one is not the start of a rune. */
  predicate SentenceEnd(s: string, i: nat)
    requires i < |s|
  {
    && (s[i] == '.' || s[i] == '!' || s[i] == '?')
    && (i + 1 < |s| ==>
          var c := s[i + 1];
          c == ' ' || c == '\n' || c == '\t' || c == '"' || c == '\'' || c == ')')
  }

  /** The sentences closed so far and the start of the open one. */
  datatype SentenceScan = SentenceScan(out: seq<string>, start: nat)

  /** The scan after the first `i` runes. */
  function ScanSentences(s: string, i: nat): (st: SentenceScan)
    requires i <= |s|
    ensures st.start <= i
  {
    if i == 0 then SentenceScan([], 0)
    else
      var st := ScanSentences(s, i - 1);
      if SentenceEnd(s, i - 1) then SentenceScan(st.out + Kept(s[st.start..i]), i) else st
  }

  function SplitSentences(s: string): seq<string> {
    var t := TrimSpace(s);
    if t == "" then []
    else
      var st := ScanSentences(t, |t|);
      st.out + Kept(t[st.start..])
  }

  method ComputeSentences(s: string) returns (out: seq<string>)
    ensures out == SplitSentences(s)
  {
    var t := TrimSpace(s);
    if t == "" {
      return [];
    }
    hide TrimSpace, SentenceEnd, Kept;
    out := [];
    var start := 0;
    for i := 0 to |t|
      invariant SentenceScan(out, start) == ScanSentences(t, i)
    {
      if SentenceEnd(t, i) {
        out := out + Kept(t[start..i + 1]);
        start := i + 1;
      }
    }
    out := out + Kept(t[start..]);
  }

  lemma WrittenAppend(a: seq<string>, b: seq<string>, max: int)
    requires Written(a) && Written(b) && AtMost(a, max) && AtMost(b, max)
    ensures Written(a + b) && AtMost(a + b, max)
  {
    hide Trimmed;
  }

  lemma WrittenIf(parts: seq<string>, max: int)
    requires forall t :: t in parts ==> t != "" && Trimmed(t) && |t| <= max
    ensures Written(parts) && AtMost(parts, max)
  {
    hide Trimmed;
  }

  lemma KeptIsWritten(part: string, max: int)
    requires |part| <= max
    ensures Written(Kept(part)) && AtMost(Kept(part), max) && InkAll(Kept(part)) == Ink(part)
  {
    hide *;
    InkAllKept(part);
    KeptWritten(part);
    WrittenIf(Kept(part), max);
  }

  lemma {:induction false} ScanSentencesKeepsInk(s: string, i: nat)
    requires i <= |s|
    ensures var st := ScanSentences(s, i);
            InkAll(st.out) == Ink(s[..st.start]) && Written(st.out) && AtMost(st.out, |s|)
  {
    hide Kept, Trimmed, SentenceEnd, Ink;
    if i == 0 {
      InkBlank("");
    } else {
      ScanSentencesKeepsInk(s, i - 1);
      var st := ScanSentences(s, i - 1);
      if SentenceEnd(s, i - 1) {
        var part := s[st.start..i];
        KeptIsWritten(part, |s|);
        InkAllAppend(st.out, Kept(part));
        WrittenAppend(st.out, Kept(part), |s|);
        assert s[..i] == s[..st.start] + part;
        InkAppend(s[..st.start], part);
      }
    }
  }

  lemma SplitSentencesKeepsInk(s: string)
    ensures InkAll(SplitSentences(s)) == Ink(s) && Written(SplitSentences(s))
  {
    hide TrimSpace, Kept, Trimmed, Ink, Written, AtMost, ScanSentences;
    var t := TrimSpace(s);
    InkTrim(s);
    InkBlank("");
    if t == "" {
      assert Written([]) by { WrittenIf([], 0); }
    } else {
      LastSentence(t);
    }
  }

  /** What the scan has cut off and the rest after it make up the text. */
  lemma LastSentence(t: string)
    ensures var st := ScanSentences(t, |t|);
            && st.start <= |t|
            && InkAll(st.out + Kept(t[st.start..])) == Ink(t) && Written(st.out + Kept(t[st.start..]))
  {
    hide *;
    ScanSentencesKeepsInk(t, |t|);
    var st := ScanSentences(t, |t|);
    KeptIsWritten(t[st.start..], |t|);
    InkAllAppend(st.out, Kept(t[st.start..]));
    WrittenAppend(st.out, Kept(t[st.start..]), |t|);
    Halves(t, st.start);
    InkAppend(t[..st.start], t[st.start..]);
  }

  // ----- Packing sentences into parts

  /** The parts finished so far and the part being built. */
  datatype Packing = Packing(out: seq<string>, b: string)

  function FlushPart(st: Packing): Packing {
    Packing(st.out + Kept(st.b), "")
  }

  function Glued(b: string, s: string): string {
    if |b| > 0 then b + " " + s else s
  }

  /** One sentence joins the open part by a space while it fits; an oversized one is split hard. */
  function PackStep(st: Packing, s: string, max: int): Packing {
    var st := if |st.b| > 0 && |st.b| + 1 + |s| > max then FlushPart(st) else st;
    if |s| > max then Packing(FlushPart(st).out + HardSplit(s, max), "")
    else Packing(st.out, Glued(st.b, s))
  }

  function Pack(sents: seq<string>, max: int): Packing {
    if sents == [] then Packing([], "")
    else PackStep(Pack(sents[..|sents| - 1], max), sents[|sents| - 1], max)
  }

  lemma PackNone(max: int)
    ensures Pack([], max) == Packing([], "")
  {
  }

  lemma PackSnoc(sents: seq<string>, i: nat, max: int)
    requires i < |sents|
    ensures Pack(sents[..i + 1], max) == PackStep(Pack(sents[..i], max), sents[i], max)
  {
    hide PackStep;
    assert sents[..i + 1][..i] == sents[..i];
  }

  function SplitOversized(p: string, max: int): seq<string> {
    if |p| <= max then [p]
    else
      var sents := SplitSentences(p);
      if |sents| <= 1 then HardSplit(p, max)
      else
        var out := FlushPart(Pack(sents, max)).out;
        if out == [] then HardSplit(p, max) else out
  }

  /** One round of the packing loop. */
  method AddSentence(out0: seq<string>, b0: string, n0: nat, s: string, max: int)
    returns (out: seq<string>, b: string, n: nat)
    requires n0 == |b0|
    ensures n == |b| && Packing(out, b) == PackStep(Packing(out0, b0), s, max)
  {
    hide Kept, HardSplit;
    out, b, n := out0, b0, n0;
    if n > 0 && n + 1 + |s| > max {
      out, b, n := out + Kept(b), "", 0;
    }
    if |s| > max {
      out, b, n := out + Kept(b), "", 0;
      out := out + HardSplit(s, max);
      return;
    }
    if n > 0 {
      b, n := b + " ", n + 1;
    }
    b, n := b + s, n + |s|;
  }

  method ComputeParts(p: string, max: int) returns (out: seq<string>)
    ensures out == SplitOversized(p, max)
  {
    if |p| <= max {
      return [p];
    }
    var sents := ComputeSentences(p);
    hide HardSplit, SplitSentences, Pack, FlushPart;
    if |sents| <= 1 {
      return HardSplit(p, max);
    }
    out := PackSentences(sents, max);
    if out == [] {
      out := HardSplit(p, max);
    }
  }

  /** The packing loop and the flush after it. */
  method PackSentences(sents: seq<string>, max: int) returns (out: seq<string>)
    ensures out == FlushPart(Pack(sents, max)).out
  {
    hide Kept, Pack, PackStep;
    out := [];
    var b, n := "", 0;
    PackNone(max);
    for i := 0 to |sents|
      invariant n == |b| && Packing(out, b) == Pack(sents[..i], max)
    {
      PackSnoc(sents, i, max);
      out, b, n := AddSentence(out, b, n, sents[i], max);
    }
    assert sents[..|sents|] == sents;
    out := out + Kept(b);
  }

  ghost predicate PackOk(st: Packing, ink: string, max: int) {
    && InkAll(st.out) + Ink(st.b) == ink
    && Written(st.out) && AtMost(st.out, max) && |st.b| <= max
  }

  lemma FlushPartOk(st: Packing, ink: string, max: int)
    requires PackOk(st, ink, max)
    ensures PackOk(FlushPart(st), ink, max)
  {
    hide Kept, Trimmed, Written, AtMost;
    KeptIsWritten(st.b, max);
    InkAllAppend(st.out, Kept(st.b));
    WrittenAppend(st.out, Kept(st.b), max);
  }

  lemma HardPartOk(st: Packing, s: string, ink: string, max: int)
    requires 1 <= max && PackOk(st, ink, max)
    ensures PackOk(Packing(FlushPart(st).out + HardSplit(s, max), ""), ink + Ink(s), max)
  {
    hide Kept, Trimmed, HardSplit, Written, AtMost, Ink, InkAll;
    FlushPartOk(st, ink, max);
    HardSplitKeepsInk(s, max);
    InkAllAppend(FlushPart(st).out, HardSplit(s, max));
    WrittenAppend(FlushPart(st).out, HardSplit(s, max), max);
    InkBlank("");
  }

  lemma InkGlued(b: string, s: string)
    ensures Ink(Glued(b, s)) == Ink(b) + Ink(s)
  {
    InkBlank(" ");
    InkBlank(b);
    InkAppend(b + " ", s);
    InkAppend(b, " ");
    hide Ink;
  }

  lemma JoinPartOk(st: Packing, s: string, ink: string, max: int)
    requires PackOk(st, ink, max) && |Glued(st.b, s)| <= max
    ensures PackOk(Packing(st.out, Glued(st.b, s)), ink + Ink(s), max)
  {
    hide Trimmed, Written, AtMost, Ink, InkAll, Glued;
    InkGlued(st.b, s);
    Assoc(InkAll(st.out), Ink(st.b), Ink(s));
  }

  lemma PackStepOk(st: Packing, s: string, ink: string, max: int)
    requires 1 <= max && PackOk(st, ink, max)
    ensures PackOk(PackStep(st, s, max), ink + Ink(s), max)
  {
    hide Kept, HardSplit, PackOk;
    FlushPartOk(st, ink, max);
    var st1 := if |st.b| > 0 && |st.b| + 1 + |s| > max then FlushPart(st) else st;
    if |s| > max {
      HardPartOk(st1, s, ink, max);
    } else {
      JoinPartOk(st1, s, ink, max);
    }
  }

  lemma {:induction false} PackIsOk(sents: seq<string>, max: int)
    requires 1 <= max
    ensures PackOk(Pack(sents, max), InkAll(sents), max)
  {
    hide PackStep, Ink;
    InkBlank("");
    if sents != [] {
      var front, s := sents[..|sents| - 1], sents[|sents| - 1];
      PackIsOk(front, max);
      PackStepOk(Pack(front, max), s, InkAll(front), max);
      assert sents == front + [s];
      InkAllAppend(front, [s]);
      assert InkAll([s]) == Ink(s) + InkAll([s][1..]);
    }
  }

  /** Parts have bounded length and carry exactly the ink of the paragraph. */
  lemma SplitOversizedKeepsInk(p: string, max: int)
    requires 1 <= max
    ensures InkAll(SplitOversized(p, max)) == Ink(p) && AtMost(SplitOversized(p, max), max)
    ensures Ink(p) != "" ==> forall part :: part in SplitOversized(p, max) ==> Ink(part) != ""
  {
    hide Trimmed, HardSplit, SplitSentences, Ink, Pack, FlushPart, Written;
    if |p| <= max {
      assert InkAll([p]) == Ink(p) + InkAll([p][1..]);
      InkBlank(p);
    } else {
      HardSplitKeepsInk(p, max);
      WrittenHasInk(HardSplit(p, max));
      var sents := SplitSentences(p);
      if |sents| > 1 {
        SplitSentencesKeepsInk(p);
        PackIsOk(sents, max);
        FlushPartOk(Pack(sents, max), InkAll(sents), max);
        FlushedIsInk(Pack(sents, max));
        WrittenHasInk(FlushPart(Pack(sents, max)).out);
      }
    }
  }

  lemma WrittenHasInk(parts: seq<string>)
    requires Written(parts)
    ensures forall part :: part in parts ==> Ink(part) != ""
  {
    hide IsSpace, Ink;
    forall part | part in parts ensures Ink(part) != "" {
      InkBlank(part);
    }
  }

  lemma FlushedIsInk(st: Packing)
    ensures InkAll(FlushPart(st).out) + Ink(FlushPart(st).b) == InkAll(FlushPart(st).out)
  {
  }
}
