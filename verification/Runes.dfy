/** Text as the Go standard library sees it: a string is a sequence of runes, `TrimSpace` removes
    Unicode white space at both ends, `Split` and `Index` look for the leftmost occurrence. */
module Runes {

  /** The runes that Go's `unicode.IsSpace` accepts. */
  predicate IsSpace(c: char) {
    || c == ' ' || c == '\n' || c == '\t' || c == '\r' || c == '\U{0B}' || c == '\U{0C}'
    || c == '\U{85}' || c == '\U{A0}' || c == '\U{1680}' || '\U{2000}' <= c <= '\U{200A}'
    || c == '\U{2028}' || c == '\U{2029}' || c == '\U{202F}' || c == '\U{205F}' || c == '\U{3000}'
  }

  predicate Blank(s: string) {
    forall i :: 0 <= i < |s| ==> IsSpace(s[i])
  }

  /** Neither the first nor the last rune is white space. */
  predicate Trimmed(s: string) {
    s == "" || (!IsSpace(s[0]) && !IsSpace(s[|s| - 1]))
  }

  /** The first index from `i` on without white space, or the end. */
  function Lead(s: string, i: nat): (n: nat)
    requires i <= |s|
    ensures i <= n <= |s|
    decreases |s| - i
  {
    if i < |s| && IsSpace(s[i]) then Lead(s, i + 1) else i
  }

  /** The end of the text before `i`, white space at its end left out. */
  function Tail(s: string, i: nat): (n: nat)
    requires i <= |s|
    ensures n <= i
  {
    if i > 0 && IsSpace(s[i - 1]) then Tail(s, i - 1) else i
  }

  lemma {:induction false} LeadIs(s: string, i: nat)
    requires i <= |s|
    ensures var n := Lead(s, i); (n < |s| ==> !IsSpace(s[n])) && forall k :: i <= k < n ==> IsSpace(s[k])
    decreases |s| - i
  {
    hide IsSpace;
    if i < |s| && IsSpace(s[i]) {
      LeadIs(s, i + 1);
    }
  }

  lemma {:induction false} TailIs(s: string, i: nat)
    requires i <= |s|
    ensures var n := Tail(s, i); (n > 0 ==> !IsSpace(s[n - 1])) && forall k :: n <= k < i ==> IsSpace(s[k])
  {
    hide IsSpace;
    if i > 0 && IsSpace(s[i - 1]) {
      TailIs(s, i - 1);
    }
  }

  function TrimLeft(s: string): (t: string)
    ensures |t| <= |s|
  {
    s[Lead(s, 0)..]
  }

  function TrimRight(s: string): (t: string)
    ensures |t| <= |s|
  {
    s[..Tail(s, |s|)]
  }

  lemma TrimLeftIs(s: string)
    ensures var t := TrimLeft(s);
            && t == s[|s| - |t|..] && Blank(s[..|s| - |t|]) && (t != "" ==> !IsSpace(t[0]))
  {
    hide IsSpace, Lead;
    LeadIs(s, 0);
  }

  lemma TrimRightIs(s: string)
    ensures var t := TrimRight(s);
            && t == s[..|t|] && Blank(s[|t|..]) && (t != "" ==> !IsSpace(t[|t| - 1]))
  {
    hide IsSpace, Tail;
    TailIs(s, |s|);
  }

  function TrimSpace(s: string): (t: string)
    ensures Trimmed(t)
    ensures |t| <= |s|
  {
    BothTrimmed(s);
    TrimRight(TrimLeft(s))
  }

  lemma BothTrimmed(s: string)
    ensures Trimmed(TrimRight(TrimLeft(s)))
  {
    hide IsSpace, TrimLeft, TrimRight;
    TrimLeftIs(s);
    TrimRightIs(TrimLeft(s));
  }

  lemma TrimSpaceIs(s: string)
    ensures TrimSpace(s) == TrimRight(TrimLeft(s))
  {
    hide TrimLeft, TrimRight;
  }

  /** The white space that trimming removes on the left and on the right. */
  lemma TrimSplits(s: string) returns (pre: string, post: string)
    ensures s == pre + TrimSpace(s) + post && Blank(pre) && Blank(post)
  {
    hide *;
    var l := TrimLeft(s);
    var t := TrimRight(l);
    TrimSpaceIs(s);
    TrimLeftIs(s);
    TrimRightIs(l);
    pre := s[..|s| - |l|];
    post := l[|t|..];
    Halves(s, |s| - |l|);
    Halves(l, |t|);
    Assoc(pre, t, post);
  }

  lemma Halves<T>(s: seq<T>, n: nat)
    requires n <= |s|
    ensures s[..n] + s[n..] == s
  {
  }

  lemma TrimLeftOver(pre: string, x: string)
    requires Blank(pre) && (x == "" || !IsSpace(x[0]))
    ensures TrimLeft(pre + x) == x
  {
    hide IsSpace, Lead;
    var s, n := pre + x, Lead(pre + x, 0);
    LeadIs(s, 0);
    assert forall k :: 0 <= k < |pre| ==> s[k] == pre[k];
    assert x != "" ==> s[|pre|] == x[0];
  }

  lemma TrimRightOver(x: string, post: string)
    requires Blank(post) && (x == "" || !IsSpace(x[|x| - 1]))
    ensures TrimRight(x + post) == x
  {
    hide IsSpace, Tail;
    var s := x + post;
    TailIs(s, |s|);
    assert forall k :: 0 <= k < |post| ==> s[|x| + k] == post[k];
    assert x != "" ==> s[|x| - 1] == x[|x| - 1];
  }

  /** `TrimSpace(s)` is the only trimmed text that sits in `s` between two blanks. */
  lemma TrimUnique(pre: string, t: string, post: string)
    requires Blank(pre) && Blank(post) && Trimmed(t)
    ensures TrimSpace(pre + t + post) == t
  {
    hide IsSpace, TrimLeft, TrimRight;
    assert pre + t + post == pre + (t + post);
    if t == "" {
      assert pre + (t + post) == pre + post + "";
      TrimLeftOver(pre + post, "");
      TrimRightOver("", "");
      assert "" + "" == "";
    } else {
      TrimLeftOver(pre, t + post);
      TrimRightOver(t, post);
    }
  }

  lemma TrimOfTrimmed(s: string)
    requires Trimmed(s)
    ensures TrimSpace(s) == s
  {
    TrimUnique("", s, "");
    assert "" + s + "" == s;
  }

  lemma TrimBlank(s: string)
    ensures Blank(s) <==> TrimSpace(s) == ""
  {
    var a, b := TrimSplits(s);
    if TrimSpace(s) != "" { assert s[|a|] == TrimSpace(s)[0]; }
  }

  lemma BlankAppend(a: string, b: string)
    requires Blank(a) && Blank(b)
    ensures Blank(a + b)
  {
    hide IsSpace;
  }

  /** Padding with white space does not change the trimmed text. */
  lemma TrimPad(pre: string, s: string, post: string)
    requires Blank(pre) && Blank(post)
    ensures TrimSpace(pre + s + post) == TrimSpace(s)
  {
    hide *;
    var a, b := TrimSplits(s);
    BlankAppend(pre, a);
    BlankAppend(b, post);
    TrimUnique(pre + a, TrimSpace(s), b + post);
    assert pre + a + TrimSpace(s) + (b + post) == pre + (a + TrimSpace(s) + b) + post;
  }

  lemma TrimAfterTrimRight(s: string)
    ensures TrimSpace(TrimRight(s)) == TrimSpace(s)
  {
    hide TrimSpace, TrimRight, Blank;
    var r := TrimRight(s);
    TrimRightIs(s);
    NoneIsBlank();
    var post := s[|r|..];
    TrimPad("", r, post);
    assert "" + r + s[|r|..] == s;
  }

  lemma NoneIsBlank()
    ensures Blank("")
  {
  }

  lemma NoPad(s: string, post: string)
    ensures "" + s + post == s + post && post + s + "" == post + s
  {
  }

  lemma TrimAfterSpace(s: string)
    ensures TrimSpace(" " + s) == TrimSpace(s)
  {
    assert Blank("") && Blank(" ");
    hide *;
    TrimPad(" ", s, "");
    NoPad(s, " ");
  }

  lemma TrimDropsBreak(s: string)
    ensures TrimSpace(s + "\n\n") == TrimSpace(s)
  {
    assert Blank("") && Blank("\n\n");
    hide *;
    TrimPad("", s, "\n\n");
    NoPad(s, "\n\n");
  }

  lemma Assoc<T>(a: seq<T>, b: seq<T>, c: seq<T>)
    ensures (a + b) + c == a + (b + c)
  {
  }

  /** The four runes of the cutset " \t\n\r". */
  predicate IsPlainSpace(c: char) {
    c == ' ' || c == '\n' || c == '\t' || c == '\r'
  }

  /** Removes leading runes of the cutset. */
  function DropLeft(s: string): (t: string)
    ensures |t| <= |s|
  {
    if s != "" && IsPlainSpace(s[0]) then DropLeft(s[1..]) else s
  }

  /** Removes trailing runes of the cutset. */
  function DropRight(s: string): (t: string)
    ensures |t| <= |s|
  {
    if s != "" && IsPlainSpace(s[|s| - 1]) then DropRight(s[..|s| - 1]) else s
  }

  // ----- Ink: the runes that are not white space

  function Ink(s: string): string {
    if s == "" then ""
    else (if IsSpace(s[0]) then "" else [s[0]]) + Ink(s[1..])
  }

  lemma {:induction false} InkAppend(a: string, b: string)
    ensures Ink(a + b) == Ink(a) + Ink(b)
  {
    hide IsSpace;
    if a == "" {
      assert a + b == b;
    } else {
      InkAppend(a[1..], b);
      assert (a + b)[1..] == a[1..] + b;
      Assoc(if IsSpace(a[0]) then "" else [a[0]], Ink(a[1..]), Ink(b));
    }
  }

  lemma {:induction false} InkBlank(s: string)
    ensures Blank(s) <==> Ink(s) == ""
  {
    if s != "" {
      InkBlank(s[1..]);
      assert Blank(s) <==> IsSpace(s[0]) && Blank(s[1..]) by {
        assert forall i :: 0 < i < |s| ==> s[i] == s[1..][i - 1];
      }
    }
  }

  lemma InkTrim(s: string)
    ensures Ink(TrimSpace(s)) == Ink(s)
  {
    var a, b := TrimSplits(s);
    InkAppend(a + TrimSpace(s), b);
    InkAppend(a, TrimSpace(s));
    InkBlank(a);
    InkBlank(b);
  }

  lemma {:induction false} InkDropLeft(s: string)
    ensures Ink(DropLeft(s)) == Ink(s)
  {
    if s != "" && IsPlainSpace(s[0]) {
      InkDropLeft(s[1..]);
    }
  }

  lemma {:induction false} InkDropRight(s: string)
    ensures Ink(DropRight(s)) == Ink(s)
  {
    if s != "" && IsPlainSpace(s[|s| - 1]) {
      InkDropRight(s[..|s| - 1]);
      InkAppend(s[..|s| - 1], [s[|s| - 1]]);
      assert s == s[..|s| - 1] + [s[|s| - 1]];
      assert Ink([s[|s| - 1]]) == "";
    }
  }

  /** The ink of a list of texts, in order. */
  function InkAll(parts: seq<string>): string {
    if parts == [] then "" else Ink(parts[0]) + InkAll(parts[1..])
  }

  lemma {:induction false} InkAllAppend(a: seq<string>, b: seq<string>)
    ensures InkAll(a + b) == InkAll(a) + InkAll(b)
  {
    if a == [] {
      assert a + b == b;
    } else {
      InkAllAppend(a[1..], b);
      assert (a + b)[1..] == a[1..] + b;
      Assoc(Ink(a[0]), InkAll(a[1..]), InkAll(b));
    }
  }

  // ----- Join, Index, Split

  function Join(parts: seq<string>, sep: string): string {
    if parts == [] then ""
    else if |parts| == 1 then parts[0]
    else parts[0] + sep + Join(parts[1..], sep)
  }

  lemma {:induction false} JoinAppend(a: seq<string>, b: seq<string>, sep: string)
    requires a != [] && b != []
    ensures Join(a + b, sep) == Join(a, sep) + sep + Join(b, sep)
  {
    if |a| == 1 {
      assert (a + b)[1..] == b;
    } else {
      JoinAppend(a[1..], b, sep);
      assert (a + b)[1..] == a[1..] + b;
      Assoc(a[0] + sep, Join(a[1..], sep) + sep, Join(b, sep));
      Assoc(a[0] + sep, Join(a[1..], sep), sep);
    }
  }

  lemma JoinSnoc(a: seq<string>, x: string, sep: string)
    ensures Join(a + [x], sep) == if a == [] then x else Join(a, sep) + sep + x
  {
    if a == [] {
      assert a + [x] == [x];
    } else {
      JoinAppend(a, [x], sep);
    }
  }

  lemma {:induction false} InkJoin(parts: seq<string>, sep: string)
    requires Blank(sep)
    ensures Ink(Join(parts, sep)) == InkAll(parts)
  {
    hide Ink;
    InkBlank("");
    if parts == [] {
    } else if |parts| == 1 {
      assert parts[1..] == [];
    } else {
      InkAppend(parts[0] + sep, Join(parts[1..], sep));
      InkAppend(parts[0], sep);
      InkBlank(sep);
      InkJoin(parts[1..], sep);
    }
  }

  predicate OccursAt(s: string, sub: string, i: int) {
    0 <= i && i + |sub| <= |s| && s[i..i + |sub|] == sub
  }

  ghost predicate Contains(s: string, sub: string) {
    exists i :: OccursAt(s, sub, i)
  }

  /** The first occurrence from `k` on, or -1. */
  function IndexFrom(s: string, sub: string, k: nat): (i: int)
    requires k <= |s| + 1
    ensures i == -1 || (k <= i && OccursAt(s, sub, i))
    ensures forall j :: OccursAt(s, sub, j) && k <= j ==> k <= i <= j
    decreases |s| + 1 - k
  {
    if k + |sub| > |s| then -1
    else if s[k..k + |sub|] == sub then
      assert OccursAt(s, sub, k);
      k
    else IndexFrom(s, sub, k + 1)
  }

  /** Go's `strings.Index`: the first occurrence, or -1. */
  function Index(s: string, sub: string): (i: int)
    ensures i == -1 || OccursAt(s, sub, i)
    ensures forall j :: OccursAt(s, sub, j) ==> 0 <= i <= j
  {
    IndexFrom(s, sub, 0)
  }

  lemma IndexIs(s: string, sub: string, i: int)
    requires OccursAt(s, sub, i) && forall j :: 0 <= j < i ==> !OccursAt(s, sub, j)
    ensures Index(s, sub) == i
  {
  }

  lemma OccursOne(s: string, c: char)
    ensures forall j :: OccursAt(s, [c], j) <==> 0 <= j < |s| && s[j] == c
  {
    assert forall j :: 0 <= j < |s| ==> s[j..j + 1] == [s[j]];
  }

  /** Go's `strings.Split` for a non-empty separator. */
  function Split(s: string, sep: string): (parts: seq<string>)
    requires sep != ""
    ensures parts != []
    decreases |s|
  {
    var i := Index(s, sep);
    if i < 0 then [s] else [s[..i]] + Split(s[i + |sep|..], sep)
  }

  lemma {:induction false} SplitThenJoin(s: string, sep: string)
    requires sep != ""
    ensures Join(Split(s, sep), sep) == s
    decreases |s|
  {
    hide Index;
    var i := Index(s, sep);
    if i >= 0 {
      var rest := s[i + |sep|..];
      SplitThenJoin(rest, sep);
      assert Join([s[..i]] + Split(rest, sep), sep) == s[..i] + sep + Join(Split(rest, sep), sep) by {
        assert ([s[..i]] + Split(rest, sep))[1..] == Split(rest, sep);
      }
      CutAt(s, sep, i);
    }
  }

  /** A text around an occurrence. */
  lemma CutAt(s: string, sub: string, i: int)
    requires OccursAt(s, sub, i)
    ensures s[..i] + sub + s[i + |sub|..] == s
  {
    hide *;
    OccursIs(s, sub, i);
    Halves(s, i + |sub|);
    Halves(s[..i + |sub|], i);
    assert s[..i + |sub|][..i] == s[..i] && s[..i + |sub|][i..] == s[i..i + |sub|];
  }

  lemma OccursIs(s: string, sub: string, i: int)
    requires OccursAt(s, sub, i)
    ensures 0 <= i && i + |sub| <= |s| && s[i..i + |sub|] == sub
  {
  }

  lemma {:induction false} SplitOfOneRuneParts(s: string, c: char)
    ensures forall i :: 0 <= i < |Split(s, [c])| ==> c !in Split(s, [c])[i]
    decreases |s|
  {
    var i := Index(s, [c]);
    OccursOne(s, c);
    if i >= 0 {
      SplitOfOneRuneParts(s[i + 1..], c);
    }
  }

  lemma {:induction false} JoinThenSplit(parts: seq<string>, c: char)
    requires parts != [] && forall i :: 0 <= i < |parts| ==> c !in parts[i]
    ensures Split(Join(parts, [c]), [c]) == parts
  {
    var s := Join(parts, [c]);
    OccursOne(s, c);
    if |parts| > 1 {
      var h := parts[0];
      assert s == h + [c] + Join(parts[1..], [c]);
      IndexIs(s, [c], |h|);
      assert s[|h| + 1..] == Join(parts[1..], [c]);
      assert s[..|h|] == h;
      JoinThenSplit(parts[1..], c);
      assert parts == [h] + parts[1..];
    }
  }

  /** The trimmed part, unless it is blank. */
  function Kept(part: string): (out: seq<string>) {
    var t := TrimSpace(part);
    if t == "" then [] else [t]
  }

  lemma KeptWritten(part: string)
    ensures forall t :: t in Kept(part) ==> t != "" && Trimmed(t) && |t| <= |part|
  {
  }

  /** Every element replaced by a list. */
  function FlatMap<A, B>(f: A -> seq<B>, xs: seq<A>): seq<B> {
    if xs == [] then [] else f(xs[0]) + FlatMap(f, xs[1..])
  }

  lemma {:induction false} FlatMapAppend<A, B>(f: A -> seq<B>, a: seq<A>, b: seq<A>)
    ensures FlatMap(f, a + b) == FlatMap(f, a) + FlatMap(f, b)
  {
    if a == [] {
      assert a + b == b;
    } else {
      FlatMapAppend(f, a[1..], b);
      assert (a + b)[1..] == a[1..] + b;
      Assoc(f(a[0]), FlatMap(f, a[1..]), FlatMap(f, b));
    }
  }

  lemma FlatMapSnoc<A, B>(f: A -> seq<B>, a: seq<A>, x: A)
    ensures FlatMap(f, a + [x]) == FlatMap(f, a) + f(x)
  {
    FlatMapAppend(f, a, [x]);
    assert [x][1..] == [];
    assert FlatMap(f, [x]) == f(x) + [];
  }

  /** Trims each part and keeps those that are not blank. */
  function TrimmedNonBlank(parts: seq<string>): seq<string> {
    FlatMap(Kept, parts)
  }

  lemma {:induction false} InkTrimmedNonBlank(parts: seq<string>)
    ensures InkAll(TrimmedNonBlank(parts)) == InkAll(parts)
  {
    if parts != [] {
      InkTrimmedNonBlank(parts[1..]);
      InkAllAppend(Kept(parts[0]), TrimmedNonBlank(parts[1..]));
      InkAllKept(parts[0]);
    }
  }

  lemma InkAllKept(part: string)
    ensures InkAll(Kept(part)) == Ink(part)
  {
    InkTrim(part);
    hide TrimSpace, Ink;
    InkBlank("");
    var t := TrimSpace(part);
    if t != "" {
      assert InkAll([t]) == Ink(t) + InkAll([t][1..]);
    }
  }
}
