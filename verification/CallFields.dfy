/** What a reader of the encoded tool calls finds in them: the encoding of pkg/toolloop/parse_resolve.go read back. */
module CallFields {
  import opened Options
  import opened Runes
  import opened Decimal
  import opened JsonScanner
  import opened ToolCalls

  function HexValue(c: char): int {
    if '0' <= c <= '9' then c as int - '0' as int
    else if 'a' <= c <= 'f' then c as int - 'a' as int + 10
    else c as int - 'A' as int + 10
  }

  /** The code point that a written item of a string stands for (section 7 of RFC 8259). */
  function CodeOf(i: StrItem): int {
    match i
    case Plain(c) => c as int
    case Escape(c) =>
      (match c
       case 'b' => 8
       case 't' => 9
       case 'n' => 10
       case 'f' => 12
       case 'r' => 13
       case _ => c as int)
    case Unicode(a, b, c, d) => ((HexValue(a) * 16 + HexValue(b)) * 16 + HexValue(c)) * 16 + HexValue(d)
  }

  /** A written string that reads as `s`. */
  ghost predicate Reads(items: seq<StrItem>, s: string) {
    |items| == |s| && forall i :: 0 <= i < |s| ==> CodeOf(items[i]) == s[i] as int
  }

  lemma HexBack(d: nat)
    requires d < 16
    ensures HexValue(HexChar(d)) == d
  {
  }

  lemma HexReads(n: nat)
    requires n < 256
    ensures CodeOf(Unicode('0', '0', HexChar(n / 16), HexChar(n % 16))) == n
  {
    HexBack(0);
    HexBack(n / 16);
    HexBack(n % 16);
    assert HexChar(0) == '0';
    hide HexValue, HexChar;
  }

  lemma SeparatorsRead()
    ensures CodeOf(Unicode('2', '0', '2', '8')) == 0x2028 && CodeOf(Unicode('2', '0', '2', '9')) == 0x2029
  {
  }

  lemma RuneReads(c: char)
    ensures CodeOf(Encoded(c)) == c as int
  {
    hide HexValue, HexChar;
    if c < ' ' || c == '<' || c == '>' || c == '&' {
      HexReads(c as int);
    }
    SeparatorsRead();
  }

  /** Every text is read back as it was. */
  lemma TextReads(s: string)
    ensures Reads(EncodedText(s), s)
  {
    hide CodeOf, Encoded;
    forall i | 0 <= i < |s|
      ensures CodeOf(EncodedText(s)[i]) == s[i] as int
    {
      RuneReads(s[i]);
    }
  }

  lemma ReadsOne(items: seq<StrItem>, s: string, t: string)
    requires Reads(items, s) && Reads(items, t)
    ensures s == t
  {
    hide CodeOf;
    assert forall i :: 0 <= i < |s| ==> s[i] == t[i];
  }

  /** The value of a member. */
  ghost function Get(ms: Members, key: string): Option<Json> {
    if Reads(ms.key, key) then Some(ms.v) else if ms.MoreMembers? then Get(ms.rest, key) else None
  }

  ghost predicate IsText(v: Option<Json>, s: string) {
    v.Some? && v.value.Str? && Reads(v.value.items, s)
  }

  lemma FieldGets(key: string, v: Json, rest: seq<Members>, other: string)
    requires |rest| <= 1
    ensures Get(Field(key, v, rest), other) == if other == key then Some(v) else if rest == [] then None else Get(rest[0], other)
  {
    TextReads(key);
    hide Reads, EncodedText;
    if Reads(EncodedText(key), other) {
      ReadsOne(EncodedText(key), key, other);
    }
  }

  lemma ValueReads(s: string)
    ensures IsText(Some(StrValue(s)), s)
  {
    TextReads(s);
    hide Reads, EncodedText;
  }

  /**
   * A call is an object with its id under "id", "function" under "type", and under "function" an object with its name
   * under "name" and its arguments, or "{}" when they are blank, under "arguments".
   */
  lemma CallReads(i: nat, c: Call)
    ensures var v := CallValue(i, c);
            && v.Obj? && IsText(Get(v.members, "id"), "call_" + Dec(i + 1)) && IsText(Get(v.members, "type"), "function")
            && var f := Get(v.members, "function");
               && f.Some? && f.value.Obj? && IsText(Get(f.value.members, "name"), c.name)
               && IsText(Get(f.value.members, "arguments"), if TrimSpace(c.arguments) == "" then "{}" else TrimSpace(c.arguments))
  {
    hide Field, StrValue, Dec, TrimSpace, IsText, Get;
    var args, name := StrValue(ArgumentsOf(c)), StrValue(c.name);
    var last := Field("arguments", args, []);
    var body := Obj(Field("name", name, [last]));
    var fun := Field("function", body, []);
    var kind := Field("type", StrValue("function"), [fun]);
    forall key
      ensures Get(last, key) == if key == "arguments" then Some(args) else None
      ensures Get(Field("name", name, [last]), key) == if key == "name" then Some(name) else Get(last, key)
      ensures Get(fun, key) == if key == "function" then Some(body) else None
      ensures Get(kind, key) == if key == "type" then Some(StrValue("function")) else Get(fun, key)
      ensures Get(Field("id", StrValue(CallId(i)), [kind]), key) == if key == "id" then Some(StrValue(CallId(i))) else Get(kind, key)
    {
      FieldGets("arguments", args, [], key);
      FieldGets("name", name, [last], key);
      FieldGets("function", body, [], key);
      FieldGets("type", StrValue("function"), [fun], key);
      FieldGets("id", StrValue(CallId(i)), [kind], key);
    }
    ValueReads(ArgumentsOf(c));
    ValueReads(c.name);
    ValueReads("function");
    ValueReads(CallId(i));
  }

  function Count(es: Elems): nat {
    if es.LastElem? then 1 else 1 + Count(es.rest)
  }

  function ElemAt(es: Elems, k: nat): Json {
    if k == 0 || es.LastElem? then es.v else ElemAt(es.rest, k - 1)
  }

  lemma {:induction false} ElemsInOrder(calls: seq<Call>, i: nat, k: nat)
    requires i <= k < |calls|
    ensures Count(CallElems(calls, i)) == |calls| - i && ElemAt(CallElems(calls, i), k - i) == CallValue(k, calls[k])
    decreases |calls| - i
  {
    hide CallValue;
    if i < |calls| - 1 {
      ElemsInOrder(calls, i + 1, if k == i then i + 1 else k);
    }
  }

  /** The encoded calls are an array that has one call for each call, in order, and nothing else. */
  lemma CallsInOrder(calls: seq<Call>)
    ensures var v := CallsValue(calls);
            if calls == [] then v == EmptyArr("")
            else v.Arr? && Count(v.elems) == |calls| && forall k: nat :: k < |calls| ==> ElemAt(v.elems, k) == CallValue(k, calls[k])
  {
    hide CallValue, CallElems;
    forall k: nat | k < |calls|
      ensures Count(CallElems(calls, 0)) == |calls| && ElemAt(CallElems(calls, 0), k - 0) == CallValue(k, calls[k])
    {
      ElemsInOrder(calls, 0, k);
    }
    assert calls != [] ==> Count(CallElems(calls, 0)) == |calls| by {
      if calls != [] { ElemsInOrder(calls, 0, 0); }
    }
  }

  // ----- The printed text

  /** No rune of the text has a meaning in JSON or HTML. */
  predicate PlainText(s: string) {
    forall i :: 0 <= i < |s| ==> ' ' <= s[i] <= '~' && s[i] !in "\"\\<>&"
  }

  lemma PlainRune(s: string)
    requires s != "" && PlainText(s)
    ensures Encoded(s[0]) == Plain(s[0]) && PlainText(s[1..])
  {
    var c := s[0];
    assert c != '"' && c != '\\' && c != '<' && c != '>' && c != '&' by {
      assert "\"\\<>&"[0] == '"' && "\"\\<>&"[1] == '\\' && "\"\\<>&"[2] == '<' && "\"\\<>&"[3] == '>' && "\"\\<>&"[4] == '&';
    }
  }

  /** Such a text is written as it is. */
  lemma {:induction false} PlainItems(s: string)
    requires PlainText(s)
    ensures ItemsText(EncodedText(s)) == s
  {
    hide Encoded, PlainText;
    if s != "" {
      PlainRune(s);
      PlainItems(s[1..]);
      assert EncodedText(s)[1..] == EncodedText(s[1..]);
      assert s == [s[0]] + s[1..];
    }
  }

  function Quoted(s: string): string {
    "\"" + s + "\""
  }

  lemma FieldText(key: string, v: Json, rest: seq<Members>)
    requires |rest| <= 1 && PlainText(key)
    ensures MembersText(Field(key, v, rest)) == Quoted(key) + ":" + Text(v) + if rest == [] then "" else "," + MembersText(rest[0])
  {
    PlainItems(key);
    hide ItemsText, EncodedText, PlainText, Text;
    assert "" + Quoted(key) + "" + ":" + "" == Quoted(key) + ":";
    assert Text(v) + "" == Text(v);
  }

  lemma ValueText(s: string)
    requires PlainText(s)
    ensures Text(StrValue(s)) == Quoted(s)
  {
    PlainItems(s);
    hide ItemsText, EncodedText, PlainText;
  }

  /** The printed function of a call without arguments. */
  function FunctionText(name: string): string {
    "{" + (Quoted("name") + ":" + Quoted(name) + ("," + (Quoted("arguments") + ":" + Quoted("{}") + ""))) + "}"
  }

  lemma ObjectText(ms: Members)
    ensures Text(Obj(ms)) == "{" + MembersText(ms) + "}"
  {
    hide MembersText;
  }

  lemma FunctionIs(name: string)
    requires PlainText(name)
    ensures Text(Obj(Field("name", StrValue(name), [Field("arguments", StrValue("{}"), [])]))) == FunctionText(name)
  {
    hide *;
    var last := Field("arguments", StrValue("{}"), []);
    KeysArePlain();
    FieldText("arguments", StrValue("{}"), []);
    FieldText("name", StrValue(name), [last]);
    ValueText("{}");
    ValueText(name);
    ObjectText(Field("name", StrValue(name), [last]));
    FunctionTextIs(name, Quoted("name") + ":" + Quoted(name) + ("," + (Quoted("arguments") + ":" + Quoted("{}") + "")));
  }

  lemma FunctionTextIs(name: string, x: string)
    requires x == Quoted("name") + ":" + Quoted(name) + ("," + (Quoted("arguments") + ":" + Quoted("{}") + ""))
    ensures FunctionText(name) == "{" + x + "}"
  {
    hide Quoted;
  }

  /** A call without arguments is written with its id, its type and its function, which has its name and empty arguments. */
  lemma OneCallText(name: string)
    requires PlainText(name)
    ensures CallsJSON([Call(name, "")]) ==
              "[{" + (Quoted("id") + ":" + Quoted("call_1")
                      + ("," + (Quoted("type") + ":" + Quoted("function")
                                + ("," + (Quoted("function") + ":" + FunctionText(name) + ""))))) + "}]"
  {
    hide *;
    var named := Field("name", StrValue(name), [Field("arguments", StrValue("{}"), [])]);
    var fun := Field("function", Obj(named), []);
    var kind := Field("type", StrValue("function"), [fun]);
    KeysArePlain();
    FunctionIs(name);
    FieldText("function", Obj(named), []);
    FieldText("type", StrValue("function"), [fun]);
    FieldText("id", StrValue("call_1"), [kind]);
    ValueText("function");
    ValueText("call_1");
    OneCallIs(name, Field("id", StrValue("call_1"), [kind]));
  }

  lemma OneCallIs(name: string, all: Members)
    requires all == Field("id", StrValue("call_1"), [Field("type", StrValue("function"),
                      [Field("function", Obj(Field("name", StrValue(name), [Field("arguments", StrValue("{}"), [])])), [])])])
    ensures CallsJSON([Call(name, "")]) == "[{" + MembersText(all) + "}]"
  {
    hide *;
    OneCallValue(name);
    PrintsValue([Call(name, "")]);
    ArrayOfOne(Obj(all));
    ObjectText(all);
    Bracketed(MembersText(all));
  }

  lemma Bracketed(x: string)
    ensures "[" + ("{" + x + "}") + "]" == "[{" + x + "}]"
  {
  }

  lemma PrintsValue(calls: seq<Call>)
    ensures CallsJSON(calls) == Text(CallsValue(calls))
  {
    hide CallsValue, Text;
  }

  lemma OneCallValue(name: string)
    ensures CallsValue([Call(name, "")]) == Arr(LastElem("", Obj(
              Field("id", StrValue("call_1"), [Field("type", StrValue("function"),
                [Field("function", Obj(Field("name", StrValue(name), [Field("arguments", StrValue("{}"), [])])), [])])])), ""))
  {
    KeysArePlain();
    TrimOfTrimmed("");
    hide Field, StrValue, CallId, TrimSpace;
  }

  lemma ArrayOfOne(v: Json)
    ensures Text(Arr(LastElem("", v, ""))) == "[" + Text(v) + "]"
  {
    assert ElemsText(LastElem("", v, "")) == Text(v) by {
      hide Text;
      assert "" + Text(v) + "" + "" == Text(v);
    }
  }

  lemma KeysArePlain()
    ensures PlainText("id") && PlainText("type") && PlainText("function") && PlainText("name") && PlainText("arguments")
    ensures PlainText("{}") && PlainText("call_1") && CallId(0) == "call_1"
  {
    assert Dec(1) == "1";
  }
}
