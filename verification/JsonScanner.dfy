/** The bracket scanner of pkg/toolloop/parse_resolve.go, which cuts a JSON array or object out of model
    text, and the grammar of RFC 8259 (sections 2, 4, 5 and 7) that it is measured against. */
module JsonScanner {
  import opened Options
  import opened Runes

  /** The scanner exists twice in the source, once for '[' and ']', once for '{' and '}'. */
  datatype Brackets = Square | Curly {
    function Open(): char { if Square? then '[' else '{' }
    function Close(): char { if Square? then ']' else '}' }
  }

  datatype Mode = Outside | InString | Escaped

  function Shift(k: nat, r: Option<nat>): Option<nat> {
    if r.None? then None else Some(r.value + k)
  }

  /** The mode after one rune. */
  function NextMode(mode: Mode, c: char): Mode {
    match mode
    case Escaped => InString
    case InString => if c == '\\' then Escaped else if c == '"' then Outside else InString
    case Outside => if c == '"' then InString else Outside
  }

  /** The depth after one rune. */
  function NextDepth(b: Brackets, depth: int, mode: Mode, c: char): int {
    if mode.Outside? && c == b.Open() then depth + 1
    else if mode.Outside? && c == b.Close() then depth - 1
    else depth
  }

  predicate Closes(b: Brackets, depth: int, mode: Mode, c: char) {
    mode.Outside? && c == b.Close() && depth == 1
  }

  /** How many runes the scanner reads until the depth returns to zero. */
  function Scan(b: Brackets, s: string, depth: int, mode: Mode): Option<nat>
    decreases |s|
  {
    if s == "" then None
    else if Closes(b, depth, mode, s[0]) then Some(1)
    else Shift(1, Scan(b, s[1..], NextDepth(b, depth, mode, s[0]), NextMode(mode, s[0])))
  }

  function ExtractLeading(b: Brackets, text: string): string {
    var s := TrimSpace(text);
    if s == "" || s[0] != b.Open() then ""
    else
      match Scan(b, s, 0, Outside)
      case None => ""
      case Some(n) => if n <= |s| then s[..n] else ""
  }

  method ComputeExtractLeading(b: Brackets, text: string) returns (r: string)
    ensures r == ExtractLeading(b, text)
  {
    var s := TrimSpace(text);
    hide TrimSpace, Scan;
    if |s| == 0 || s[0] != b.Open() {
      return "";
    }
    var depth, inString, escape := 0, false, false;
    for i := 0 to |s|
      invariant escape ==> inString
      invariant Scan(b, s, 0, Outside)
             == Shift(i, Scan(b, s[i..], depth, if escape then Escaped else if inString then InString else Outside))
    {
      var c := s[i];
      ScanNext(b, s, i, depth, if escape then Escaped else if inString then InString else Outside);
      if escape {
        escape := false;
        continue;
      }
      if inString {
        if c == '\\' {
          escape := true;
        } else if c == '"' {
          inString := false;
        }
        continue;
      }
      if c == '"' {
        inString := true;
      } else if c == b.Open() {
        depth := depth + 1;
      } else if c == b.Close() {
        depth := depth - 1;
        if depth == 0 {
          return s[..i + 1];
        }
      }
    }
    assert Scan(b, s[|s|..], depth, if escape then Escaped else if inString then InString else Outside) == None by {
      ScanNone(b, s[|s|..]);
    }
    return "";
  }

  lemma ScanNone(b: Brackets, s: string)
    requires s == ""
    ensures forall depth, mode :: Scan(b, s, depth, mode) == None
  {
  }

  lemma ScanNext(b: Brackets, s: string, i: nat, depth: int, mode: Mode)
    requires i < |s|
    ensures Scan(b, s[i..], depth, mode) ==
              if Closes(b, depth, mode, s[i]) then Some(1)
              else Shift(1, Scan(b, s[i + 1..], NextDepth(b, depth, mode, s[i]), NextMode(mode, s[i])))
  {
    assert s[i..][1..] == s[i + 1..];
  }

  // ----- What the scanner finds: the shortest balanced prefix

  /** Depth and mode after reading all of `s`. */
  function After(b: Brackets, s: string): (int, Mode) {
    if s == "" then (0, Outside)
    else
      var (depth, mode) := After(b, s[..|s| - 1]);
      var c := s[|s| - 1];
      (NextDepth(b, depth, mode, c), NextMode(mode, c))
  }

  ghost predicate Balanced(b: Brackets, s: string) {
    s != "" && After(b, s) == (0, Outside)
  }

  lemma AfterSnoc(b: Brackets, s: string, i: nat)
    requires i < |s|
    ensures After(b, s[..i + 1]) ==
              (NextDepth(b, After(b, s[..i]).0, After(b, s[..i]).1, s[i]), NextMode(After(b, s[..i]).1, s[i]))
  {
    assert s[..i + 1][..i] == s[..i];
  }

  /** While the depth stays positive the scan is in the state `After` says; it ends at the first return
      to depth zero. */
  lemma {:induction false} ScanFromPrefix(b: Brackets, s: string, i: nat)
    requires 0 < i <= |s| && forall m :: 0 < m <= i ==> After(b, s[..m]).0 > 0
    ensures var r := Shift(i, Scan(b, s[i..], After(b, s[..i]).0, After(b, s[..i]).1));
            if r.Some? then
              i < r.value <= |s| && Balanced(b, s[..r.value]) && forall m :: i < m < r.value ==> After(b, s[..m]).0 > 0
            else forall m :: i < m <= |s| ==> After(b, s[..m]).0 > 0
    decreases |s| - i
  {
    if i < |s| {
      AfterSnoc(b, s, i);
      hide After;
      assert s[i..][0] == s[i] && s[i..][1..] == s[i + 1..];
      if !Closes(b, After(b, s[..i]).0, After(b, s[..i]).1, s[i]) {
        ScanFromPrefix(b, s, i + 1);
      }
    }
  }

  /** The result is the shortest prefix of the trimmed text with as many closing as opening brackets
      outside strings; it is empty exactly when the text does not open with a bracket or never closes it. */
  lemma ExtractIsShortestBalanced(b: Brackets, text: string)
    ensures var s, r := TrimSpace(text), ExtractLeading(b, text);
            if s == "" || s[0] != b.Open() then r == ""
            else if r == "" then forall m :: 0 < m <= |s| ==> !Balanced(b, s[..m])
            else r <= s && Balanced(b, r) && forall m :: 0 < m < |r| ==> !Balanced(b, s[..m])
  {
    var s := TrimSpace(text);
    hide TrimSpace;
    if s != "" && s[0] == b.Open() {
      AfterSnoc(b, s, 0);
      assert s[..0] == "";
      ScanFromPrefix(b, s, 1);
      assert s[0..] == s;
      hide After;
    }
  }

  // ----- JSON texts

  /** An item of a string: section 7 of RFC 8259. */
  datatype StrItem = Plain(c: char) | Escape(c: char) | Unicode(h0: char, h1: char, h2: char, h3: char)

  /** A JSON value as written, with the white space that section 2 allows around structural characters.
      `Scalar` covers numbers and the three literal names: text without quotes and brackets. */
  datatype Json =
    | Scalar(text: string)
    | Str(items: seq<StrItem>)
    | EmptyArr(pad: string)
    | Arr(elems: Elems)
    | EmptyObj(pad: string)
    | Obj(members: Members)

  datatype Elems = LastElem(pre: string, v: Json, post: string)
                 | MoreElems(pre: string, v: Json, post: string, rest: Elems)

  datatype Members = LastMember(pre: string, key: seq<StrItem>, mid: string, gap: string, v: Json, post: string)
                   | MoreMembers(pre: string, key: seq<StrItem>, mid: string, gap: string, v: Json, post: string,
                                 rest: Members)

  predicate IsHex(c: char) {
    '0' <= c <= '9' || 'a' <= c <= 'f' || 'A' <= c <= 'F'
  }

  predicate ItemOk(i: StrItem) {
    match i
    case Plain(c) => c != '"' && c != '\\' && c >= ' '
    case Escape(c) => c == '"' || c == '\\' || c == '/' || c == 'b' || c == 'f' || c == 'n' || c == 'r' || c == 't'
    case Unicode(a, b, c, d) => IsHex(a) && IsHex(b) && IsHex(c) && IsHex(d)
  }

  predicate ItemsOk(items: seq<StrItem>) {
    forall i :: 0 <= i < |items| ==> ItemOk(items[i])
  }

  predicate Ws(s: string) {
    forall i :: 0 <= i < |s| ==> IsPlainSpace(s[i])
  }

  predicate ScalarOk(s: string) {
    forall i :: 0 <= i < |s| ==> s[i] != '"' && s[i] != '[' && s[i] != ']' && s[i] != '{' && s[i] != '}'
  }

  predicate JsonOk(v: Json) {
    match v
    case Scalar(t) => ScalarOk(t)
    case Str(items) => ItemsOk(items)
    case EmptyArr(pad) => Ws(pad)
    case Arr(es) => ElemsOk(es)
    case EmptyObj(pad) => Ws(pad)
    case Obj(ms) => MembersOk(ms)
  }

  predicate ElemsOk(es: Elems) {
    Ws(es.pre) && JsonOk(es.v) && Ws(es.post) && (es.MoreElems? ==> ElemsOk(es.rest))
  }

  predicate MembersOk(ms: Members) {
    && Ws(ms.pre) && ItemsOk(ms.key) && Ws(ms.mid) && Ws(ms.gap) && JsonOk(ms.v) && Ws(ms.post)
    && (ms.MoreMembers? ==> MembersOk(ms.rest))
  }

  function ItemText(i: StrItem): string {
    match i
    case Plain(c) => [c]
    case Escape(c) => ['\\', c]
    case Unicode(a, b, c, d) => ['\\', 'u', a, b, c, d]
  }

  function ItemsText(items: seq<StrItem>): string {
    if items == [] then "" else ItemText(items[0]) + ItemsText(items[1..])
  }

  function StrText(items: seq<StrItem>): string {
    "\"" + ItemsText(items) + "\""
  }

  function Text(v: Json): string {
    match v
    case Scalar(t) => t
    case Str(items) => StrText(items)
    case EmptyArr(pad) => "[" + pad + "]"
    case Arr(es) => "[" + ElemsText(es) + "]"
    case EmptyObj(pad) => "{" + pad + "}"
    case Obj(ms) => "{" + MembersText(ms) + "}"
  }

  function ElemsText(es: Elems): string {
    es.pre + Text(es.v) + es.post + (if es.MoreElems? then "," + ElemsText(es.rest) else "")
  }

  function MembersText(ms: Members): string {
    ms.pre + StrText(ms.key) + ms.mid + ":" + ms.gap + Text(ms.v) + ms.post
    + (if ms.MoreMembers? then "," + MembersText(ms.rest) else "")
  }

  // ----- JSON values leave the scanner where it was

  /** Reading `x` outside a string at a positive depth changes nothing. */
  ghost predicate Passes(b: Brackets, x: string) {
    forall t: string, depth: int {:trigger Scan(b, x + t, depth, Outside)} ::
      depth >= 1 ==> Scan(b, x + t, depth, Outside) == Shift(|x|, Scan(b, t, depth, Outside))
  }

  lemma PassesAppend(b: Brackets, x: string, y: string)
    requires Passes(b, x) && Passes(b, y)
    ensures Passes(b, x + y)
  {
    hide Scan;
    forall t: string, depth: int | depth >= 1
      ensures Scan(b, x + y + t, depth, Outside) == Shift(|x + y|, Scan(b, t, depth, Outside))
    {
      Assoc(x, y, t);
      assert Scan(b, x + (y + t), depth, Outside) == Shift(|x|, Scan(b, y + t, depth, Outside));
    }
  }

  lemma PassesNothing(b: Brackets)
    ensures Passes(b, "")
  {
    hide Scan;
    forall t: string, depth: int | depth >= 1
      ensures Scan(b, "" + t, depth, Outside) == Shift(0, Scan(b, t, depth, Outside))
    {
      assert "" + t == t;
    }
  }

  lemma ScanCons(b: Brackets, c: char, t: string, depth: int, mode: Mode)
    ensures Scan(b, [c] + t, depth, mode) ==
              if Closes(b, depth, mode, c) then Some(1)
              else Shift(1, Scan(b, t, NextDepth(b, depth, mode, c), NextMode(mode, c)))
  {
    assert ([c] + t)[1..] == t;
  }

  lemma PassesChar(b: Brackets, c: char)
    requires c != '"' && c != b.Open() && c != b.Close()
    ensures Passes(b, [c])
  {
    forall t: string, depth: int | depth >= 1
      ensures Scan(b, [c] + t, depth, Outside) == Shift(1, Scan(b, t, depth, Outside))
    {
      ScanCons(b, c, t, depth, Outside);
    }
  }

  lemma {:induction false} PassesScalar(b: Brackets, s: string)
    requires ScalarOk(s)
    ensures Passes(b, s)
  {
    hide Passes;
    if s == "" {
      PassesNothing(b);
    } else {
      PassesChar(b, s[0]);
      PassesScalar(b, s[1..]);
      PassesAppend(b, [s[0]], s[1..]);
      assert s == [s[0]] + s[1..];
    }
  }

  lemma PassesWs(b: Brackets, s: string)
    requires Ws(s)
    ensures Passes(b, s)
  {
    PassesScalar(b, s);
  }

  lemma ScanItem(b: Brackets, i: StrItem, t: string, depth: int)
    requires ItemOk(i)
    ensures Scan(b, ItemText(i) + t, depth, InString) == Shift(|ItemText(i)|, Scan(b, t, depth, InString))
  {
    match i
    case Plain(c) =>
      ScanCons(b, c, t, depth, InString);
    case Escape(c) =>
      assert ['\\', c] + t == ['\\'] + ([c] + t);
      ScanCons(b, '\\', [c] + t, depth, InString);
      ScanCons(b, c, t, depth, Escaped);
    case Unicode(h0, h1, h2, h3) =>
      ScanUnicode(b, h0, h1, h2, h3, t, depth);
  }

  lemma ScanUnicode(b: Brackets, h0: char, h1: char, h2: char, h3: char, t: string, depth: int)
    requires IsHex(h0) && IsHex(h1) && IsHex(h2) && IsHex(h3)
    ensures Scan(b, ['\\', 'u', h0, h1, h2, h3] + t, depth, InString) == Shift(6, Scan(b, t, depth, InString))
  {
    hide Scan;
    var t3 := [h3] + t;
    var t2 := [h2] + t3;
    var t1 := [h1] + t2;
    var t0 := [h0] + t1;
    assert ['\\', 'u', h0, h1, h2, h3] + t == ['\\'] + (['u'] + t0);
    ScanCons(b, '\\', ['u'] + t0, depth, InString);
    ScanCons(b, 'u', t0, depth, Escaped);
    ScanCons(b, h0, t1, depth, InString);
    ScanCons(b, h1, t2, depth, InString);
    ScanCons(b, h2, t3, depth, InString);
    ScanCons(b, h3, t, depth, InString);
  }

  lemma {:induction false} ScanItems(b: Brackets, items: seq<StrItem>, t: string, depth: int)
    requires ItemsOk(items)
    ensures Scan(b, ItemsText(items) + t, depth, InString) == Shift(|ItemsText(items)|, Scan(b, t, depth, InString))
    decreases |items|
  {
    hide Scan, ItemOk, ItemText;
    if items == [] {
      assert "" + t == t;
    } else {
      var tail := ItemsText(items[1..]);
      Assoc(ItemText(items[0]), tail, t);
      ScanItem(b, items[0], tail + t, depth);
      ScanItems(b, items[1..], t, depth);
    }
  }

  lemma PassesStr(b: Brackets, items: seq<StrItem>)
    requires ItemsOk(items)
    ensures Passes(b, StrText(items))
  {
    hide Scan, ItemsOk, ItemsText;
    var body := ItemsText(items);
    forall t: string, depth: int | depth >= 1
      ensures Scan(b, StrText(items) + t, depth, Outside) == Shift(|StrText(items)|, Scan(b, t, depth, Outside))
    {
      assert StrText(items) + t == ['"'] + (body + (['"'] + t));
      ScanCons(b, '"', body + (['"'] + t), depth, Outside);
      ScanItems(b, items, ['"'] + t, depth);
      ScanCons(b, '"', t, depth, InString);
    }
  }

  /** A body that passes may be wrapped in the counted brackets. */
  lemma PassesWrapped(b: Brackets, x: string)
    requires Passes(b, x)
    ensures Passes(b, [b.Open()] + x + [b.Close()])
  {
    hide Scan;
    var w := [b.Open()] + x + [b.Close()];
    forall t: string, depth: int | depth >= 1
      ensures Scan(b, w + t, depth, Outside) == Shift(|w|, Scan(b, t, depth, Outside))
    {
      assert w + t == [b.Open()] + (x + ([b.Close()] + t));
      ScanCons(b, b.Open(), x + ([b.Close()] + t), depth, Outside);
      ScanCons(b, b.Close(), t, depth + 1, Outside);
    }
  }

  /** Brackets of the other kind are plain characters to the scanner. */
  lemma PassesBracketed(b: Brackets, kind: Brackets, x: string)
    requires Passes(b, x)
    ensures Passes(b, [kind.Open()] + x + [kind.Close()])
  {
    hide Passes;
    if kind == b {
      PassesWrapped(b, x);
    } else {
      assert Passes(b, [kind.Open()] + x + [kind.Close()]) by {
        hide Passes;
        PassesChar(b, kind.Open());
        PassesChar(b, kind.Close());
        PassesAppend(b, [kind.Open()], x);
        PassesAppend(b, [kind.Open()] + x, [kind.Close()]);
      }
    }
  }

  lemma {:induction false} PassesJson(b: Brackets, v: Json)
    requires JsonOk(v)
    ensures Passes(b, Text(v))
    decreases v
  {
    hide Passes;
    match v
    case Scalar(t) => PassesScalar(b, t);
    case Str(items) => PassesStr(b, items);
    case EmptyArr(pad) => PassesWs(b, pad); PassesBracketed(b, Square, pad);
    case Arr(es) => PassesElems(b, es); PassesBracketed(b, Square, ElemsText(es));
    case EmptyObj(pad) => PassesWs(b, pad); PassesBracketed(b, Curly, pad);
    case Obj(ms) => PassesMembers(b, ms); PassesBracketed(b, Curly, MembersText(ms));
  }

  lemma {:induction false} PassesElems(b: Brackets, es: Elems)
    requires ElemsOk(es)
    ensures Passes(b, ElemsText(es))
    decreases es
  {
    hide Passes, Text, JsonOk, Ws;
    PassesWs(b, es.pre);
    PassesJson(b, es.v);
    PassesWs(b, es.post);
    PassesAppend(b, es.pre, Text(es.v));
    PassesAppend(b, es.pre + Text(es.v), es.post);
    var front := es.pre + Text(es.v) + es.post;
    if es.MoreElems? {
      PassesElems(b, es.rest);
      PassesChar(b, ',');
      PassesAppend(b, ",", ElemsText(es.rest));
      PassesAppend(b, front, "," + ElemsText(es.rest));
    } else {
      assert front + "" == front;
    }
  }

  lemma {:induction false} PassesMembers(b: Brackets, ms: Members)
    requires MembersOk(ms)
    ensures Passes(b, MembersText(ms))
    decreases ms
  {
    hide Passes, Text, JsonOk, Ws, StrText, ItemsOk;
    PassesJson(b, ms.v);
    assert Passes(b, ms.pre + StrText(ms.key) + ms.mid + ":" + ms.gap + Text(ms.v) + ms.post) by {
      hide Passes, Text, Ws, ItemsOk, StrText;
      PassesWs(b, ms.pre);
      PassesStr(b, ms.key);
      PassesWs(b, ms.mid);
      PassesChar(b, ':');
      PassesWs(b, ms.gap);
      PassesWs(b, ms.post);
      var x := ms.pre + StrText(ms.key);
      PassesAppend(b, ms.pre, StrText(ms.key));
      PassesAppend(b, x, ms.mid);
      PassesAppend(b, x + ms.mid, ":");
      PassesAppend(b, x + ms.mid + ":", ms.gap);
      PassesAppend(b, x + ms.mid + ":" + ms.gap, Text(ms.v));
      PassesAppend(b, x + ms.mid + ":" + ms.gap + Text(ms.v), ms.post);
    }
    var front := ms.pre + StrText(ms.key) + ms.mid + ":" + ms.gap + Text(ms.v) + ms.post;
    if ms.MoreMembers? {
      PassesMembers(b, ms.rest);
      PassesChar(b, ',');
      PassesAppend(b, ",", MembersText(ms.rest));
      PassesAppend(b, front, "," + MembersText(ms.rest));
    } else {
      assert front + "" == front;
    }
  }

  // ----- Main result: exact on JSON

  predicate HasBrackets(b: Brackets, v: Json) {
    if b.Square? then v.EmptyArr? || v.Arr? else v.EmptyObj? || v.Obj?
  }

  function Body(v: Json): string
    requires !v.Scalar? && !v.Str?
  {
    match v
    case EmptyArr(pad) => pad
    case Arr(es) => ElemsText(es)
    case EmptyObj(pad) => pad
    case Obj(ms) => MembersText(ms)
  }

  lemma PassesBody(b: Brackets, v: Json)
    requires JsonOk(v) && HasBrackets(b, v)
    ensures Passes(b, Body(v)) && Text(v) == [b.Open()] + Body(v) + [b.Close()]
  {
    hide Passes;
    match v
    case EmptyArr(pad) => PassesWs(b, pad);
    case Arr(es) => PassesElems(b, es);
    case EmptyObj(pad) => PassesWs(b, pad);
    case Obj(ms) => PassesMembers(b, ms);
  }

  lemma ScanJson(b: Brackets, v: Json, tail: string)
    requires JsonOk(v) && HasBrackets(b, v)
    ensures Scan(b, Text(v) + tail, 0, Outside) == Some(|Text(v)|)
  {
    hide Scan, JsonOk, Text, Body;
    PassesBody(b, v);
    var x := Body(v);
    assert Text(v) + tail == [b.Open()] + (x + ([b.Close()] + tail));
    ScanCons(b, b.Open(), x + ([b.Close()] + tail), 0, Outside);
    ScanCons(b, b.Close(), tail, 1, Outside);
  }

  lemma TrimKeepsStart(pre: string, x: string, tail: string)
    requires Blank(pre) && x != "" && Trimmed(x)
    ensures exists rest :: TrimSpace(pre + x + tail) == x + rest
  {
    var kept := TrimRight(tail);
    TrimRightIs(tail);
    assert tail == kept + tail[|kept|..];
    assert pre + x + tail == pre + (x + kept) + tail[|kept|..];
    TrimUnique(pre, x + kept, tail[|kept|..]);
  }

  /** An array (an object) of the grammar at the start of a text is returned precisely, whatever follows:
      nested brackets, escapes and brackets inside strings do not end it early or late. */
  lemma ExtractsJson(b: Brackets, v: Json, pre: string, tail: string)
    requires JsonOk(v) && HasBrackets(b, v) && Blank(pre)
    ensures ExtractLeading(b, pre + Text(v) + tail) == Text(v)
  {
    hide Passes, Scan, JsonOk, Text, Body, TrimSpace, Trimmed, Blank;
    PassesBody(b, v);
    TextTrimmed(b, Text(v), Body(v));
    TrimKeepsStart(pre, Text(v), tail);
    var rest :| TrimSpace(pre + Text(v) + tail) == Text(v) + rest;
    ScanJson(b, v, rest);
    assert (Text(v) + rest)[..|Text(v)|] == Text(v);
  }

  lemma TextTrimmed(b: Brackets, x: string, body: string)
    requires x == [b.Open()] + body + [b.Close()]
    ensures x != "" && Trimmed(x) && x[0] == b.Open()
  {
  }

  // ----- The embedded form: the first bracket whose candidate the tool parser accepts

  /** The candidate at offset `p` is complete and the tool parser, an oracle here, accepts it. */
  predicate Hit(b: Brackets, text: string, accept: string -> bool, p: int) {
    && 0 <= p < |text| && text[p] == b.Open()
    && ExtractLeading(b, text[p..]) != "" && accept(ExtractLeading(b, text[p..]))
  }

  lemma NoHitBefore(b: Brackets, text: string, accept: string -> bool, off: nat)
    requires off <= |text|
    ensures var idx := Index(text[off..], [b.Open()]);
            && (idx < 0 ==> forall q :: off <= q ==> !Hit(b, text, accept, q))
            && (idx >= 0 ==>
                  && idx < |text| - off && text[off + idx] == b.Open()
                  && forall q :: off <= q < off + idx ==> !Hit(b, text, accept, q))
  {
    hide Index, ExtractLeading;
    OccursOne(text[off..], b.Open());
    forall q | off <= q < |text|
      ensures text[q] == text[off..][q - off]
    {
    }
  }

  method ComputeExtractEmbedded(b: Brackets, text: string, accept: string -> bool) returns (r: string)
    ensures r == "" ==> forall p :: !Hit(b, text, accept, p)
    ensures r != "" ==> exists p :: Hit(b, text, accept, p) && r == ExtractLeading(b, text[p..])
                                 && forall q :: q < p ==> !Hit(b, text, accept, q)
  {
    hide ExtractLeading, Index, Hit;
    assert forall q :: q < 0 ==> !Hit(b, text, accept, q) by {
      NoHitOutside(b, text, accept);
    }
    var off := 0;
    while true
      invariant 0 <= off <= |text|
      invariant forall q :: q < off ==> !Hit(b, text, accept, q)
      decreases |text| - off
    {
      NoHitBefore(b, text, accept, off);
      var idx := Index(text[off..], [b.Open()]);
      if idx < 0 {
        return "";
      }
      var candidate := ExtractLeading(b, text[off + idx..]);
      HitIs(b, text, accept, off + idx);
      if candidate != "" && accept(candidate) {
        return candidate;
      }
      off := off + idx + 1;
    }
  }

  lemma NoHitOutside(b: Brackets, text: string, accept: string -> bool)
    ensures forall q :: q < 0 ==> !Hit(b, text, accept, q)
  {
  }

  lemma HitIs(b: Brackets, text: string, accept: string -> bool, p: nat)
    requires p < |text| && text[p] == b.Open()
    ensures Hit(b, text, accept, p) <==> ExtractLeading(b, text[p..]) != "" && accept(ExtractLeading(b, text[p..]))
  {
    hide ExtractLeading;
  }

  /** Prose without brackets before an accepted tool call does not hide it. */
  lemma EmbeddedJsonIsHit(b: Brackets, v: Json, pre: string, tail: string, accept: string -> bool)
    requires JsonOk(v) && HasBrackets(b, v) && accept(Text(v)) && b.Open() !in pre
    ensures var text := pre + Text(v) + tail;
            Hit(b, text, accept, |pre|) && ExtractLeading(b, text[|pre|..]) == Text(v)
            && forall q :: q < |pre| ==> !Hit(b, text, accept, q)
  {
    var text := pre + Text(v) + tail;
    hide JsonOk, HasBrackets, Text, ExtractLeading;
    TextOpens(b, v);
    ExtractsJson(b, v, "", tail);
    AfterPrefix(pre, Text(v), tail);
    assert "" + Text(v) + tail == Text(v) + tail;
    assert forall q :: 0 <= q < |pre| ==> text[q] in pre;
  }

  lemma TextOpens(b: Brackets, v: Json)
    requires JsonOk(v) && HasBrackets(b, v)
    ensures Text(v) != "" && Text(v)[0] == b.Open() && Blank("")
  {
  }

  lemma AfterPrefix(pre: string, x: string, tail: string)
    requires x != ""
    ensures var text := pre + x + tail;
            text[|pre|..] == x + tail && text[|pre|] == x[0] && forall q :: 0 <= q < |pre| ==> text[q] == pre[q]
  {
  }
}
