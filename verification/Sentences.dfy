/** Where pkg/rag/splitter.go ends a sentence, rune by rune. */
module Sentences {
  import opened Runes
  import opened Splitter

  /** A full stop, exclamation or question mark that is last or stands before a blank, a quote or a bracket. */
  ghost predicate Ends(t: string, i: int) {
    0 <= i < |t| && t[i] in ".!?" && (i + 1 == |t| || t[i + 1] in " \n\t\"')")
  }

  /** Places in a text, in order. */
  ghost predicate Rising(cuts: seq<nat>, n: nat) {
    (forall i, j :: 0 <= i < j < |cuts| ==> cuts[i] < cuts[j]) && forall i :: 0 <= i < |cuts| ==> cuts[i] <= n
  }

  /** A cut stands behind each end of a sentence among the first `n` runes, and nowhere else. */
  ghost predicate AreCuts(t: string, cuts: seq<nat>, n: nat) {
    Rising(cuts, n) && forall c: nat :: c in cuts <==> c <= n && Ends(t, c - 1)
  }

  function LastCut(cuts: seq<nat>): nat {
    if cuts == [] then 0 else cuts[|cuts| - 1]
  }

  /** The stretches that end at the cuts. */
  ghost function Stretches(t: string, cuts: seq<nat>): seq<string>
    requires Rising(cuts, |t|)
  {
    if cuts == [] then []
    else
      var front, c := cuts[..|cuts| - 1], cuts[|cuts| - 1];
      Stretches(t, front) + [t[LastCut(front)..c]]
  }

  lemma OneMoreCut(t: string, cuts: seq<nat>, n: nat)
    requires n < |t| && AreCuts(t, cuts, n)
    ensures Ends(t, n) ==> AreCuts(t, cuts + [n + 1], n + 1) && Stretches(t, cuts + [n + 1]) == Stretches(t, cuts) + [t[LastCut(cuts)..n + 1]]
    ensures !Ends(t, n) ==> AreCuts(t, cuts, n + 1)
    ensures Rising(cuts, |t|) && LastCut(cuts) <= n && LastCut(cuts + [n + 1]) == n + 1
  {
    assert (cuts + [n + 1])[..|cuts|] == cuts;
    hide Ends;
  }

  lemma {:induction false} ScanCuts(t: string, n: nat) returns (cuts: seq<nat>)
    requires n <= |t|
    ensures AreCuts(t, cuts, n) && ScanSentences(t, n) == SentenceScan(TrimmedNonBlank(Stretches(t, cuts)), LastCut(cuts))
  {
    cuts := [];
    hide Kept, Rising, Stretches, LastCut;
    if n == 0 {
      NoCuts(t);
    } else {
      cuts := ScanCuts(t, n - 1);
      OneMoreCut(t, cuts, n - 1);
      EndIs(t, n - 1);
      hide Ends, SentenceEnd, TrimmedNonBlank;
      if SentenceEnd(t, n - 1) {
        KeptSnoc(Stretches(t, cuts), t[LastCut(cuts)..n]);
        cuts := cuts + [n];
      }
    }
  }

  lemma NoCuts(t: string)
    ensures AreCuts(t, [], 0) && Stretches(t, []) == [] && LastCut([]) == 0 && TrimmedNonBlank([]) == []
  {
  }

  lemma KeptSnoc(parts: seq<string>, part: string)
    ensures TrimmedNonBlank(parts + [part]) == TrimmedNonBlank(parts) + Kept(part)
  {
    FlatMapSnoc(Kept, parts, part);
  }

  lemma EndIs(t: string, i: nat)
    requires i < |t|
    ensures SentenceEnd(t, i) <==> Ends(t, i)
  {
  }

  /** The sentences are the trimmed stretches between the cuts that are not blank. */
  lemma SentencesAreStretches(s: string) returns (cuts: seq<nat>)
    ensures var t := TrimSpace(s);
            && AreCuts(t, cuts, |t|) && LastCut(cuts) <= |t|
            && SplitSentences(s) == TrimmedNonBlank(Stretches(t, cuts) + [t[LastCut(cuts)..]])
  {
    hide TrimSpace, Ends, Stretches, Kept, TrimmedNonBlank;
    var t := TrimSpace(s);
    cuts := ScanCuts(t, |t|);
    KeptSnoc(Stretches(t, cuts), t[LastCut(cuts)..]);
    if t == "" {
      NoScan();
    }
  }

  lemma NoScan()
    ensures ScanSentences("", 0) == SentenceScan([], 0) && Kept("") == []
  {
    TrimOfTrimmed("");
    hide TrimSpace;
  }

  /** A text without such an end before its last rune is one sentence. */
  lemma NoEndIsOne(s: string)
    requires var t := TrimSpace(s); t != "" && forall i :: Ends(t, i) ==> i == |t| - 1
    ensures SplitSentences(s) == [TrimSpace(s)]
  {
    hide *;
    var t := TrimSpace(s);
    TrimTwice(s);
    var cuts := SentencesAreStretches(s);
    OneKept(t);
    NoScan();
    KeptSnoc([t], "");
    OnlyEnd(t, cuts);
    assert [] + [t] == [t];
  }

  lemma TrimTwice(s: string)
    ensures TrimSpace(TrimSpace(s)) == TrimSpace(s)
  {
    TrimOfTrimmed(TrimSpace(s));
    hide TrimSpace;
  }

  lemma OnlyEnd(t: string, cuts: seq<nat>)
    requires AreCuts(t, cuts, |t|) && LastCut(cuts) <= |t| && t != "" && forall i :: Ends(t, i) ==> i == |t| - 1
    ensures (Stretches(t, cuts) == [] && t[LastCut(cuts)..] == t) || (Stretches(t, cuts) == [t] && t[LastCut(cuts)..] == "")
  {
    if cuts != [] {
      forall i | 0 <= i < |cuts|
        ensures cuts[i] == |t|
      {
        assert cuts[i] in cuts;
      }
      hide Ends;
      assert cuts == [|t|] && cuts[..0] == [] && t[0..|t|] == t;
    }
  }

  lemma OneKept(t: string)
    requires t != "" && TrimSpace(t) == t
    ensures TrimmedNonBlank([t]) == [t] && Kept(t) == [t] && TrimmedNonBlank([t]) + [] == [t]
  {
    hide TrimSpace;
    assert [t] == [] + [t];
    FlatMapSnoc(Kept, [], t);
  }

  /** The scan does not look further than one rune. */
  lemma {:induction false} SamePrefix(s: string, left: string, i: nat)
    requires i <= |left| <= |s| && left == s[..|left|]
    requires forall j :: 0 <= j < i ==> (SentenceEnd(s, j) <==> SentenceEnd(left, j))
    ensures ScanSentences(s, i) == ScanSentences(left, i)
  {
    hide SentenceEnd, Kept;
    if i > 0 {
      SamePrefix(s, left, i - 1);
      var st := ScanSentences(s, i - 1);
      assert s[st.start..i] == left[st.start..i];
    }
  }

  /** `s` has a sentence that ends at `k`, a blank, and `b`. */
  ghost predicate GoesOnWith(s: string, k: nat, b: string) {
    && |s| == k + 1 + |b| && s[k] == ' ' && (forall j :: 0 <= j < |b| ==> s[k + 1..][j] == b[j])
    && ScanSentences(s, k).start == k
  }

  lemma SameEnd(s: string, k: nat, b: string, j: nat)
    requires GoesOnWith(s, k, b) && j < |b|
    ensures SentenceEnd(s, k + 1 + j) <==> SentenceEnd(b, j)
    ensures !SentenceEnd(s, k)
  {
    hide ScanSentences;
    assert s[k + 1 + j] == s[k + 1..][j] == b[j];
    assert j + 1 < |b| ==> s[k + 2 + j] == s[k + 1..][j + 1] == b[j + 1];
  }

  lemma {:induction false} ScanGoesOn(s: string, b: string, k: nat, i: nat)
    requires |s| == k + 1 + |b| && GoesOnWith(s, k, b) && i <= |b|
    ensures var before, st, own := ScanSentences(s, k), ScanSentences(s, k + 1 + i), ScanSentences(b, i);
            st == SentenceScan(before.out + own.out, if own.start == 0 then k else k + 1 + own.start)
  {
    hide Kept, SentenceEnd, GoesOnWith;
    var before := ScanSentences(s, k);
    if i > 0 {
      ScanGoesOn(s, b, k, i - 1);
      var own := ScanSentences(b, i - 1);
      SameEnd(s, k, b, i - 1);
      SameKept(s, b, k, own.start, i);
      Assoc(before.out, own.out, Kept(b[own.start..i]));
    } else {
      FirstBlank(s, k, b);
      assert before.out + [] == before.out;
    }
  }

  lemma FirstBlank(s: string, k: nat, b: string)
    requires GoesOnWith(s, k, b)
    ensures ScanSentences(s, k + 1) == ScanSentences(s, k) && ScanSentences(s, k).start == k
  {
    hide Kept;
  }

  lemma SameKept(s: string, b: string, k: nat, start: nat, i: nat)
    requires GoesOnWith(s, k, b) && start <= i <= |b|
    ensures Kept(s[if start == 0 then k else k + 1 + start..k + 1 + i]) == Kept(b[start..i])
  {
    hide TrimSpace, ScanSentences;
    assert s[k + 1..] == b;
    if start == 0 {
      assert s[k..k + 1 + i] == " " + b[..i] && b[0..i] == b[..i];
      TrimAfterSpace(b[..i]);
    } else {
      assert s[k + 1 + start..k + 1 + i] == b[start..i];
    }
  }

  lemma StopEnds(a: string, b: string)
    ensures var s, left := a + ". " + b, a + ".";
            && left == s[..|left|] && s[|left|..] == " " + b
            && forall j :: 0 <= j < |left| ==> (SentenceEnd(s, j) <==> SentenceEnd(left, j))
    ensures SentenceEnd(a + ".", |a|)
  {
    var s, left := a + ". " + b, a + ".";
    assert forall j :: 0 <= j < |left| ==> s[j] == left[j];
    assert s[|left|] == ' ';
  }

  /** After a full stop and a blank the next sentence begins: both sides are split as they would be alone. */
  lemma SplitsAtStop(a: string, b: string)
    requires a != "" && b != "" && Trimmed(a) && Trimmed(b)
    ensures SplitSentences(a + ". " + b) == SplitSentences(a + ".") + SplitSentences(b)
  {
    var s, left := a + ". " + b, a + ".";
    assert Trimmed(s) && Trimmed(left);
    TrimOfTrimmed(s);
    TrimOfTrimmed(left);
    TrimOfTrimmed(b);
    hide *;
    StopEnds(a, b);
    SamePrefix(s, left, |left|);
    StopCuts(left, |a|);
    GoesOnIs(s, |left|, b);
    SplitIs(s);
    SplitIs(left);
    SplitIs(b);
    NoScan();
    assert left[|left|..] == "" && ScanSentences(left, |left|).out + [] == ScanSentences(left, |left|).out;
    SplitGoesOn(s, |left|, b);
  }

  lemma SplitGoesOn(s: string, k: nat, b: string)
    requires |s| == k + 1 + |b| && GoesOnWith(s, k, b)
    ensures var before, st, own := ScanSentences(s, k), ScanSentences(s, |s|), ScanSentences(b, |b|);
            st.start <= |s| && st.out + Kept(s[st.start..]) == before.out + (own.out + Kept(b[own.start..]))
  {
    hide *;
    var own := ScanSentences(b, |b|);
    ScanGoesOn(s, b, k, |b|);
    SameKept(s, b, k, own.start, |b|);
    Assoc(ScanSentences(s, k).out, own.out, Kept(b[own.start..]));
    var from := if own.start == 0 then k else k + 1 + own.start;
    assert b[own.start..|b|] == b[own.start..] && s[from..|s|] == s[from..];
  }

  lemma GoesOnIs(s: string, k: nat, b: string)
    requires k <= |s| && s[k..] == " " + b && ScanSentences(s, k).start == k
    ensures GoesOnWith(s, k, b)
  {
    hide ScanSentences;
    assert |s| == k + |s[k..]| && s[k] == s[k..][0];
    assert s[k + 1..] == s[k..][1..] == b;
  }

  lemma StopCuts(left: string, n: nat)
    requires n + 1 == |left| && SentenceEnd(left, n)
    ensures ScanSentences(left, |left|).start == |left|
  {
    hide Kept, SentenceEnd;
  }

  lemma SplitIs(s: string)
    requires TrimSpace(s) == s && s != ""
    ensures var st := ScanSentences(s, |s|); st.start <= |s| && SplitSentences(s) == st.out + Kept(s[st.start..])
  {
    hide TrimSpace, Kept, ScanSentences;
  }
}
