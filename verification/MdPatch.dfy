/** Markdown patches of pkg/document/md_patch.go. The patch specification is taken as decoded. */
module MdPatch {
  import opened Runes

  const MAX_OPS: nat := 200
  const MAX_RUNES: nat := 600_000
  const MAX_LINES: nat := 100_000

  datatype Op =
    | Append(text: string)
    | Prepend(text: string)
    | ReplaceSubstring(old_: string, new_: string)
    | InsertBeforeLine(line: int, text: string)
    | DeleteLineRange(line: int, count: int)
    | ReplaceLineRange(line: int, count: int, lines: seq<string>)
    | UnknownOp

  datatype PatchError = InvalidSpec | AmbiguousSubstring

  datatype Result = Ok(text: string) | Err(error: PatchError)

  function SplitLines(s: string): seq<string> {
    Split(s, "\n")
  }

  function JoinLines(lines: seq<string>): string {
    Join(lines, "\n")
  }

  /** Occurrences that do not overlap, counted from the left. */
  function CountSubstring(text: string, sub: string): nat
    requires sub != ""
  {
    |Split(text, sub)| - 1
  }

  function ApplyOne(text: string, op: Op): Result {
    match op
    case Append(t) => Ok(text + t)
    case Prepend(t) => Ok(t + text)
    case ReplaceSubstring(old_, new_) =>
      if old_ == "" then Err(InvalidSpec)
      else
        var n := CountSubstring(text, old_);
        var i := Index(text, old_);
        if n == 0 || i < 0 then Err(InvalidSpec)
        else if n > 1 then Err(AmbiguousSubstring)
        else Ok(text[..i] + new_ + text[i + |old_|..])
    case InsertBeforeLine(line, t) =>
      var lines, insert := SplitLines(text), SplitLines(t);
      if line < 0 || line > |lines| || |lines| + |insert| > MAX_LINES then Err(InvalidSpec)
      else Ok(JoinLines(lines[..line] + insert + lines[line..]))
    case DeleteLineRange(line, count) =>
      var lines := SplitLines(text);
      if count < 1 || line < 0 || line + count > |lines| then Err(InvalidSpec)
      else Ok(JoinLines(lines[..line] + lines[line + count..]))
    case ReplaceLineRange(line, count, new_) =>
      var lines := SplitLines(text);
      if count < 1 || line < 0 || line + count > |lines| || |lines| - count + |new_| > MAX_LINES then Err(InvalidSpec)
      else Ok(JoinLines(lines[..line] + new_ + lines[line + count..]))
    case UnknownOp => Err(InvalidSpec)
  }

  /** The text after the operations from `i` on; each one sees a text within the limit. */
  function ApplyFrom(text: string, ops: seq<Op>, i: nat): Result
    requires i <= |ops|
    decreases |ops| - i
  {
    if |text| > MAX_RUNES then Err(InvalidSpec)
    else if i == |ops| then Ok(text)
    else
      match ApplyOne(text, ops[i])
      case Err(e) => Err(e)
      case Ok(t) => ApplyFrom(t, ops, i + 1)
  }

  function Apply(text: string, ops: seq<Op>): Result {
    if ops == [] || |ops| > MAX_OPS then Err(InvalidSpec) else ApplyFrom(text, ops, 0)
  }

  method ApplyPatch(base: string, ops: seq<Op>) returns (r: Result)
    ensures r == Apply(base, ops)
  {
    hide ApplyOne;
    if |ops| == 0 || |ops| > MAX_OPS {
      return Err(InvalidSpec);
    }
    var text := base;
    for i := 0 to |ops|
      invariant ApplyFrom(text, ops, i) == ApplyFrom(base, ops, 0)
    {
      if |text| > MAX_RUNES {
        return Err(InvalidSpec);
      }
      var one := ApplyOne(text, ops[i]);
      if one.Err? {
        return Err(one.error);
      }
      text := one.text;
    }
    return if |text| > MAX_RUNES then Err(InvalidSpec) else Ok(text);
  }

  // ----- Lines and text

  ghost predicate Lines(lines: seq<string>) {
    forall i :: 0 <= i < |lines| ==> '\n' !in lines[i]
  }

  lemma SplitGivesLines(text: string)
    ensures Lines(SplitLines(text)) && JoinLines(SplitLines(text)) == text && SplitLines(text) != []
  {
    SplitOfOneRuneParts(text, '\n');
    SplitThenJoin(text, "\n");
    hide Split, Join;
  }

  lemma LinesOfJoin(lines: seq<string>)
    requires Lines(lines) && lines != []
    ensures SplitLines(JoinLines(lines)) == lines
  {
    JoinThenSplit(lines, '\n');
    hide Split, Join;
  }

  /** Inserting lines and deleting as many at the same place restores the text exactly. */
  lemma InsertThenDelete(text: string, k: int, insert: string)
    requires ApplyOne(text, InsertBeforeLine(k, insert)).Ok?
    ensures ApplyOne(ApplyOne(text, InsertBeforeLine(k, insert)).text, DeleteLineRange(k, |SplitLines(insert)|)) == Ok(text)
  {
    hide SplitLines, JoinLines;
    var lines, ins := SplitLines(text), SplitLines(insert);
    SplitGivesLines(text);
    SplitGivesLines(insert);
    var out := lines[..k] + ins + lines[k..];
    LinesOfJoin(out);
    assert out[..k] + out[k + |ins|..] == lines;
  }

  // ----- Replacing is deleting and inserting

  function Total(lines: seq<string>): nat {
    if lines == [] then 0 else |lines[0]| + Total(lines[1..])
  }

  lemma {:induction false} TotalAppend(a: seq<string>, b: seq<string>)
    ensures Total(a + b) == Total(a) + Total(b)
  {
    if a == [] {
      assert a + b == b;
    } else {
      TotalAppend(a[1..], b);
      assert (a + b)[1..] == a[1..] + b;
    }
  }

  lemma {:induction false} JoinLength(lines: seq<string>)
    requires lines != []
    ensures |JoinLines(lines)| == Total(lines) + |lines| - 1
  {
    if |lines| > 1 {
      JoinLength(lines[1..]);
    }
  }

  function DeleteThenInsert(text: string, k: int, count: int, new_: seq<string>): Result {
    var r := ApplyOne(text, DeleteLineRange(k, count));
    if r.Err? then r else ApplyOne(r.text, InsertBeforeLine(k, JoinLines(new_)))
  }

  /** What deleting and inserting gives when a line remains. */
  lemma DeleteInsertText(text: string, k: int, count: int, new_: seq<string>)
    requires 0 <= k && 1 <= count && k + count <= |SplitLines(text)| && count < |SplitLines(text)|
    ensures var rest := SplitLines(text)[..k] + SplitLines(text)[k + count..];
            var ins := SplitLines(JoinLines(new_));
            DeleteThenInsert(text, k, count, new_) ==
              if |rest| + |ins| > MAX_LINES then Err(InvalidSpec)
              else Ok(JoinLines(rest[..k] + ins + rest[k..]))
  {
    hide SplitLines, JoinLines;
    SplitGivesLines(text);
    var lines := SplitLines(text);
    var rest := lines[..k] + lines[k + count..];
    LinesOfJoin(rest);
  }

  /** Deleting every line leaves one empty line. */
  lemma DeleteAllInsertText(text: string, new_: seq<string>)
    ensures var n, ins := |SplitLines(text)|, SplitLines(JoinLines(new_));
            DeleteThenInsert(text, 0, n, new_) ==
              if 1 + |ins| > MAX_LINES then Err(InvalidSpec) else Ok(JoinLines(ins + [""]))
  {
    SplitGivesLines(text);
    hide SplitLines, JoinLines;
    var lines := SplitLines(text);
    assert lines[..0] + lines[|lines|..] == [];
    EmptyText();
    var ins := SplitLines(JoinLines(new_));
    assert [""][..0] + ins + [""][0..] == ins + [""];
  }

  lemma EmptyText()
    ensures JoinLines([]) == "" && SplitLines("") == [""]
  {
  }

  /** Within the limits, replacing a range of lines by other lines is deleting and inserting them exactly
      when there is a new line and at least one original line remains. */
  lemma ReplaceIsDeleteInsertIff(text: string, k: int, count: int, new_: seq<string>)
    requires 0 <= k && 1 <= count && k + count <= |SplitLines(text)| && Lines(new_)
    requires |SplitLines(text)| - count + |new_| <= MAX_LINES
    ensures ApplyOne(text, ReplaceLineRange(k, count, new_)) == DeleteThenInsert(text, k, count, new_)
       <==> new_ != [] && count < |SplitLines(text)|
  {
    hide *;
    ReplaceText(text, k, count, new_);
    if count == |SplitLines(text)| {
      ReplaceAllDiffers(text, new_);
    } else if new_ == [] {
      ReplaceByNothingDiffers(text, k, count);
    } else {
      assert DeleteThenInsert(text, k, count, new_) ==
             Ok(JoinLines(SplitLines(text)[..k] + new_ + SplitLines(text)[k + count..])) by {
        hide *;
        DeleteInsertText(text, k, count, new_);
        LinesOfJoin(new_);
        var lines := SplitLines(text);
        var rest := lines[..k] + lines[k + count..];
        assert rest[..k] + new_ + rest[k..] == lines[..k] + new_ + lines[k + count..];
      }
    }
  }

  lemma ReplaceText(text: string, k: int, count: int, new_: seq<string>)
    requires 0 <= k && 1 <= count && k + count <= |SplitLines(text)|
    requires |SplitLines(text)| - count + |new_| <= MAX_LINES
    ensures ApplyOne(text, ReplaceLineRange(k, count, new_))
         == Ok(JoinLines(SplitLines(text)[..k] + new_ + SplitLines(text)[k + count..]))
  {
    hide SplitLines, JoinLines;
  }

  lemma ReplaceByNothingDiffers(text: string, k: int, count: int)
    requires 0 <= k && 1 <= count && k + count <= |SplitLines(text)| && count < |SplitLines(text)|
    ensures DeleteThenInsert(text, k, count, []) != Ok(JoinLines(SplitLines(text)[..k] + [] + SplitLines(text)[k + count..]))
  {
    hide *;
    DeleteInsertText(text, k, count, []);
    EmptyText();
    var lines := SplitLines(text);
    var rest := lines[..k] + lines[k + count..];
    assert rest[..k] + rest[k..] == rest && lines[..k] + [] + lines[k + count..] == rest;
    assert JoinLines(rest[..k] + [""] + rest[k..]) != JoinLines(rest[..k] + rest[k..]) by {
      JoinLength(rest[..k] + [""] + rest[k..]);
      JoinLength(rest[..k] + rest[k..]);
      TotalAppend(rest[..k] + [""], rest[k..]);
      TotalAppend(rest[..k], [""]);
      TotalAppend(rest[..k], rest[k..]);
      assert [""][1..] == [];
      hide JoinLines;
    }
  }

  lemma ReplaceAllDiffers(text: string, new_: seq<string>)
    ensures var n := |SplitLines(text)|;
            DeleteThenInsert(text, 0, n, new_) != Ok(JoinLines(SplitLines(text)[..0] + new_ + SplitLines(text)[0 + n..]))
  {
    hide *;
    DeleteAllInsertText(text, new_);
    var lines := SplitLines(text);
    assert lines[..0] + new_ + lines[0 + |lines|..] == new_;
    SplitGivesLines(JoinLines(new_));
    assert JoinLines((SplitLines(JoinLines(new_))) + [""]) != JoinLines(SplitLines(JoinLines(new_))) by {
      JoinLength((SplitLines(JoinLines(new_))) + [""]);
      JoinLength(SplitLines(JoinLines(new_)));
      TotalAppend(SplitLines(JoinLines(new_)), [""]);
      assert [""][1..] == [];
      hide JoinLines;
    }
  }

  // ----- Replacing a substring

  /** All occurrences overlap the first one. */
  ghost predicate OneCluster(text: string, sub: string) {
    exists i :: OccursAt(text, sub, i) && forall j :: OccursAt(text, sub, j) ==> i <= j < i + |sub|
  }

  lemma CountIsOne(text: string, sub: string)
    requires sub != ""
    ensures CountSubstring(text, sub) == 0 <==> Index(text, sub) < 0
    ensures CountSubstring(text, sub) == 1 <==> Index(text, sub) >= 0 && Index(text[Index(text, sub) + |sub|..], sub) < 0
  {
    hide Index;
    var i := Index(text, sub);
    if i >= 0 {
      var rest := text[i + |sub|..];
      assert Split(text, sub) == [text[..i]] + Split(rest, sub);
    }
  }

  lemma Behind(text: string, sub: string, at: nat, j: int)
    requires at <= |text| && at <= j
    ensures OccursAt(text, sub, j) <==> OccursAt(text[at..], sub, j - at)
  {
    if j + |sub| <= |text| {
      assert text[at..][j - at..j - at + |sub|] == text[j..j + |sub|];
    }
  }

  /** The operation promises a single occurrence; it accepts exactly the texts whose occurrences all
      overlap the first. */
  lemma ReplaceAcceptsIff(text: string, old_: string, new_: string)
    ensures ApplyOne(text, ReplaceSubstring(old_, new_)).Ok? <==> old_ != "" && OneCluster(text, old_)
  {
    if old_ != "" {
      CountIsOne(text, old_);
      OneClusterIff(text, old_);
      hide CountSubstring, Index, OneCluster;
    }
  }

  ghost predicate First(text: string, sub: string, i: int) {
    OccursAt(text, sub, i) && forall j :: OccursAt(text, sub, j) ==> i <= j
  }

  ghost predicate Absent(text: string, sub: string) {
    forall j :: !OccursAt(text, sub, j)
  }

  /** An occurrence from `at` on is one in the rest. */
  lemma NotBehind(text: string, sub: string, at: nat, rest: string, j: int)
    requires at <= |text| && rest == text[at..] && Absent(rest, sub) && OccursAt(text, sub, j)
    ensures j < at
  {
    if at <= j {
      Behind(text, sub, at, j);
      hide OccursAt;
    }
  }

  lemma NoneBehind(text: string, sub: string, i: int, at: nat)
    requires First(text, sub, i) && at == i + |sub| <= |text| && Absent(text[at..], sub)
    ensures OneCluster(text, sub)
  {
    hide OccursAt, Absent;
    var rest := text[at..];
    forall j | OccursAt(text, sub, j) ensures i <= j < at {
      NotBehind(text, sub, at, rest, j);
    }
  }

  lemma OneBehind(text: string, sub: string, i: int, k: int)
    requires sub != "" && First(text, sub, i) && OccursAt(text[i + |sub|..], sub, k)
    ensures !OneCluster(text, sub)
  {
    var at := i + |sub|;
    Behind(text, sub, at, at + k);
    var j := at + k;
    assert OccursAt(text, sub, j) && j >= at;
    hide OccursAt;
  }

  lemma OneClusterIff(text: string, sub: string)
    requires sub != ""
    ensures OneCluster(text, sub) <==> Index(text, sub) >= 0 && Index(text[Index(text, sub) + |sub|..], sub) < 0
  {
    hide *;
    var i := Index(text, sub);
    if i >= 0 {
      IndexIsFirst(text, sub);
      FirstFits(text, sub, i);
      var at := i + |sub|;
      var k := Index(text[at..], sub);
      if k < 0 {
        IndexAbsent(text[at..], sub);
        NoneBehind(text, sub, i, at);
      } else {
        OneBehind(text, sub, i, k);
      }
    } else {
      IndexAbsent(text, sub);
      AbsentNoCluster(text, sub);
    }
  }

  lemma FirstFits(text: string, sub: string, i: int)
    requires First(text, sub, i)
    ensures 0 <= i && i + |sub| <= |text|
  {
  }

  lemma IndexAbsent(text: string, sub: string)
    requires Index(text, sub) < 0
    ensures Absent(text, sub)
  {
    hide Index, OccursAt;
  }

  lemma AbsentNoCluster(text: string, sub: string)
    requires Absent(text, sub)
    ensures !OneCluster(text, sub)
  {
    hide OccursAt;
  }

  lemma IndexIsFirst(text: string, sub: string)
    requires Index(text, sub) >= 0
    ensures First(text, sub, Index(text, sub))
  {
    hide Index, OccursAt;
  }

  /** The lines of `out` are those of `lines` with `new_` in place of the `count` lines from `k` on. */
  ghost predicate Edited(out: seq<string>, lines: seq<string>, k: int, count: int, new_: seq<string>) {
    && 0 <= k && 0 <= count && k + count <= |lines| && |out| == |lines| - count + |new_|
    && (forall i :: 0 <= i < k ==> out[i] == lines[i])
    && (forall i :: 0 <= i < |new_| ==> out[k + i] == new_[i])
    && (forall i {:trigger lines[i]} :: k + count <= i < |lines| ==> out[i - count + |new_|] == lines[i])
  }

  /**
   * What each operation does to a text, place by place, and exactly when it fails. Text is added at its end or its start;
   * a substring is replaced where it first occurs; lines are inserted, deleted and replaced at the given line.
   */
  lemma EditsAre(text: string, op: Op)
    ensures var r, lines := ApplyOne(text, op), SplitLines(text);
            match op
            case Append(t) => r.Ok? && |r.text| == |text| + |t| && text <= r.text && r.text[|text|..] == t
            case Prepend(t) => r.Ok? && |r.text| == |text| + |t| && t <= r.text && r.text[|t|..] == text
            case ReplaceSubstring(old_, new_) =>
              && (r.Ok? ==> exists i :: First(text, old_, i) && 0 <= i && i + |old_| <= |text|
                                        && r.text == text[..i] + new_ + text[i + |old_|..])
              && (r == Err(AmbiguousSubstring) <==> old_ != "" && !Absent(text, old_) && !OneCluster(text, old_))
              && (r == Err(InvalidSpec) <==> old_ == "" || Absent(text, old_))
            case InsertBeforeLine(line, t) =>
              if 0 <= line <= |lines| && |lines| + |SplitLines(t)| <= 100_000
              then r.Ok? && exists out :: Edited(out, lines, line, 0, SplitLines(t)) && r.text == JoinLines(out)
              else r == Err(InvalidSpec)
            case DeleteLineRange(line, count) =>
              if 1 <= count && 0 <= line && line + count <= |lines|
              then r.Ok? && exists out :: Edited(out, lines, line, count, []) && r.text == JoinLines(out)
              else r == Err(InvalidSpec)
            case ReplaceLineRange(line, count, new_) =>
              if 1 <= count && 0 <= line && line + count <= |lines| && |lines| - count + |new_| <= 100_000
              then r.Ok? && exists out :: Edited(out, lines, line, count, new_) && r.text == JoinLines(out)
              else r == Err(InvalidSpec)
            case UnknownOp => r == Err(InvalidSpec)
  {
    hide SplitLines, JoinLines, CountSubstring, Index, OneCluster, OccursAt;
    var lines := SplitLines(text);
    match op
    case ReplaceSubstring(old_, new_) => ReplacesFirst(text, old_, new_);
    case InsertBeforeLine(line, t) =>
      if 0 <= line <= |lines| {
        assert Edited(lines[..line] + SplitLines(t) + lines[line..], lines, line, 0, SplitLines(t));
      }
    case DeleteLineRange(line, count) =>
      if 1 <= count && 0 <= line && line + count <= |lines| {
        assert Edited(lines[..line] + lines[line + count..], lines, line, count, []);
      }
    case ReplaceLineRange(line, count, new_) =>
      if 1 <= count && 0 <= line && line + count <= |lines| {
        assert Edited(lines[..line] + new_ + lines[line + count..], lines, line, count, new_);
      }
    case _ =>
  }

  lemma ReplacesFirst(text: string, old_: string, new_: string)
    ensures var r := ApplyOne(text, ReplaceSubstring(old_, new_));
            && (r.Ok? ==> exists i :: First(text, old_, i) && 0 <= i && i + |old_| <= |text|
                                      && r.text == text[..i] + new_ + text[i + |old_|..])
            && (r == Err(AmbiguousSubstring) <==> old_ != "" && !Absent(text, old_) && !OneCluster(text, old_))
            && (r == Err(InvalidSpec) <==> old_ == "" || Absent(text, old_))
  {
    if old_ != "" {
      CountIsOne(text, old_);
      OneClusterIff(text, old_);
      hide CountSubstring, OneCluster;
      if Index(text, old_) >= 0 {
        IndexIsFirst(text, old_);
        FirstFits(text, old_, Index(text, old_));
      } else {
        IndexAbsent(text, old_);
      }
      hide Index, OccursAt;
    }
  }

  /** The texts before and after the operations from `i` on: each is what an operation makes of the one before, and none
      is too long. */
  ghost predicate Passes(ops: seq<Op>, i: nat, texts: seq<string>) {
    && i <= |ops| && |texts| == |ops| - i + 1
    && (forall k :: 0 <= k < |texts| ==> |texts[k]| <= 600_000)
    && (forall k :: 0 <= k < |texts| - 1 ==> ApplyOne(texts[k], ops[i + k]) == Ok(texts[k + 1]))
  }

  lemma {:induction false} RunsThrough(text: string, ops: seq<Op>, i: nat) returns (texts: seq<string>)
    requires i <= |ops|
    ensures ApplyFrom(text, ops, i).Ok? ==>
              Passes(ops, i, texts) && texts[0] == text && Ok(texts[|ops| - i]) == ApplyFrom(text, ops, i)
    decreases |ops| - i
  {
    hide ApplyOne;
    texts := [text];
    if i < |ops| && ApplyOne(text, ops[i]).Ok? {
      var rest := RunsThrough(ApplyOne(text, ops[i]).text, ops, i + 1);
      texts := [text] + rest;
    }
  }

  lemma {:induction false} PassesApply(ops: seq<Op>, i: nat, texts: seq<string>)
    requires Passes(ops, i, texts)
    ensures ApplyFrom(texts[0], ops, i) == Ok(texts[|ops| - i])
    decreases |ops| - i
  {
    hide ApplyOne;
    if i < |ops| {
      PassesApply(ops, i + 1, texts[1..]);
    }
  }

  /** A patch gives a text exactly when its 1 to 200 operations lead to it from the given one without a text too long. */
  lemma PatchIff(text: string, ops: seq<Op>, r: string)
    ensures Apply(text, ops) == Ok(r) <==>
              0 < |ops| <= 200 && exists texts :: Passes(ops, 0, texts) && |texts| == |ops| + 1 && texts[0] == text && texts[|ops|] == r
  {
    hide ApplyOne, Passes;
    if Apply(text, ops) == Ok(r) {
      var texts := RunsThrough(text, ops, 0);
    }
    forall texts | Passes(ops, 0, texts)
      ensures |texts| == |ops| + 1 && ApplyFrom(texts[0], ops, 0) == Ok(texts[|ops|])
    {
      PassesApply(ops, 0, texts);
      PassesCount(ops, texts);
    }
  }

  lemma PassesCount(ops: seq<Op>, texts: seq<string>)
    requires Passes(ops, 0, texts)
    ensures |texts| == |ops| + 1
  {
  }

  /** Two overlapping occurrences pass as one. */
  lemma OverlapPasses()
    ensures OccursAt("aaa", "aa", 0) && OccursAt("aaa", "aa", 1)
    ensures ApplyOne("aaa", ReplaceSubstring("aa", "b")) == Ok("ba")
  {
    assert "aaa"[0..2] == "aa" && "aaa"[1..3] == "aa";
    assert "aaa"[2..] == "a" && "aaa"[..0] == "";
    IndexIs("aaa", "aa", 0);
    CountIsOne("aaa", "aa");
    assert Index("a", "aa") == -1;
    assert "" + "b" + "a" == "ba";
  }
}
