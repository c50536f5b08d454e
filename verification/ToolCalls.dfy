/** ToolCallsToOpenAIJSON of pkg/toolloop/parse_resolve.go: resolved calls as one line of JSON. */
module ToolCalls {
  import opened Runes
  import opened Decimal
  import opened JsonScanner

  /** A call with its resolved name and its arguments as JSON text. */
  datatype Call = Call(name: string, arguments: string)

  function CallId(i: nat): string {
    "call_" + Dec(i + 1)
  }

  function HexChar(d: nat): (c: char)
    requires d < 16
    ensures IsHex(c)
  {
    if d < 10 then '0' + d as char else 'a' + (d - 10) as char
  }

  /** How the JSON encoder writes one rune of a string. */
  function Encoded(c: char): (i: StrItem)
    ensures ItemOk(i)
  {
    if c == '"' || c == '\\' then Escape(c)
    else if c == '\n' then Escape('n')
    else if c == '\r' then Escape('r')
    else if c == '\t' then Escape('t')
    else if c == '\U{08}' then Escape('b')
    else if c == '\U{0C}' then Escape('f')
    else if c < ' ' || c == '<' || c == '>' || c == '&' then
      Unicode('0', '0', HexChar(c as int / 16), HexChar(c as int % 16))
    else if c == '\U{2028}' then Unicode('2', '0', '2', '8')
    else if c == '\U{2029}' then Unicode('2', '0', '2', '9')
    else Plain(c)
  }

  function EncodedText(s: string): (items: seq<StrItem>)
    ensures ItemsOk(items)
  {
    seq(|s|, i requires 0 <= i < |s| => Encoded(s[i]))
  }

  function Field(key: string, v: Json, rest: seq<Members>): Members
    requires |rest| <= 1
  {
    if rest == [] then LastMember("", EncodedText(key), "", "", v, "")
    else MoreMembers("", EncodedText(key), "", "", v, "", rest[0])
  }

  function StrValue(s: string): Json {
    Str(EncodedText(s))
  }

  function ArgumentsOf(c: Call): string {
    if TrimSpace(c.arguments) == "" then "{}" else TrimSpace(c.arguments)
  }

  function CallValue(i: nat, c: Call): Json {
    Obj(Field("id", StrValue(CallId(i)),
      [Field("type", StrValue("function"),
        [Field("function",
          Obj(Field("name", StrValue(c.name), [Field("arguments", StrValue(ArgumentsOf(c)), [])])), [])])]))
  }

  /** The elements from call `i` on. */
  function CallElems(calls: seq<Call>, i: nat): Elems
    requires i < |calls|
    decreases |calls| - i
  {
    if i == |calls| - 1 then LastElem("", CallValue(i, calls[i]), "")
    else MoreElems("", CallValue(i, calls[i]), "", CallElems(calls, i + 1))
  }

  function CallsValue(calls: seq<Call>): Json {
    if calls == [] then EmptyArr("") else Arr(CallElems(calls, 0))
  }

  function CallsJSON(calls: seq<Call>): string {
    Text(CallsValue(calls))
  }

  // ----- The text is a JSON array on one line

  lemma FieldOk(key: string, v: Json, rest: seq<Members>)
    requires |rest| <= 1 && JsonOk(v) && (rest != [] ==> MembersOk(rest[0]))
    ensures MembersOk(Field(key, v, rest))
  {
    hide ItemsOk;
  }

  lemma CallValueOk(i: nat, c: Call)
    ensures JsonOk(CallValue(i, c))
  {
    hide CallId, ArgumentsOf, Field, EncodedText, MembersOk;
    var args := Field("arguments", StrValue(ArgumentsOf(c)), []);
    FieldOk("arguments", StrValue(ArgumentsOf(c)), []);
    FieldOk("name", StrValue(c.name), [args]);
    var body := Obj(Field("name", StrValue(c.name), [args]));
    FieldOk("function", body, []);
    FieldOk("type", StrValue("function"), [Field("function", body, [])]);
    FieldOk("id", StrValue(CallId(i)), [Field("type", StrValue("function"), [Field("function", body, [])])]);
  }

  lemma {:induction false} CallElemsOk(calls: seq<Call>, i: nat)
    requires i < |calls|
    ensures ElemsOk(CallElems(calls, i))
    decreases |calls| - i
  {
    hide CallValue, JsonOk;
    CallValueOk(i, calls[i]);
    if i < |calls| - 1 {
      CallElemsOk(calls, i + 1);
    }
  }

  /** Whatever the names and arguments contain, the result is a JSON array and the bracket scanner cuts it
      out exactly. */
  lemma CallsAreJson(calls: seq<Call>, tail: string)
    ensures JsonOk(CallsValue(calls)) && HasBrackets(Square, CallsValue(calls))
    ensures ExtractLeading(Square, CallsJSON(calls) + tail) == CallsJSON(calls)
  {
    var v := CallsValue(calls);
    if calls != [] {
      CallElemsOk(calls, 0);
    }
    NoneIsBlank();
    hide Text, CallElems, ExtractLeading, ElemsOk;
    ExtractsJson(Square, v, "", tail);
    NoPad(Text(v), tail);
  }

  // ----- One line

  /** No white space and no scalar. */
  predicate Compact(v: Json) {
    match v
    case Scalar(_) => false
    case Str(_) => true
    case EmptyArr(pad) => pad == ""
    case Arr(es) => CompactElems(es)
    case EmptyObj(pad) => pad == ""
    case Obj(ms) => CompactMembers(ms)
  }

  predicate CompactElems(es: Elems) {
    es.pre == "" && Compact(es.v) && es.post == "" && (es.MoreElems? ==> CompactElems(es.rest))
  }

  predicate CompactMembers(ms: Members) {
    && ms.pre == ms.mid == ms.gap == ms.post == "" && Compact(ms.v)
    && (ms.MoreMembers? ==> CompactMembers(ms.rest))
  }

  lemma {:induction false} ItemsOneLine(items: seq<StrItem>)
    requires ItemsOk(items)
    ensures '\n' !in ItemsText(items)
  {
    if items != [] {
      ItemsOneLine(items[1..]);
      assert ItemOk(items[0]);
    }
  }

  lemma {:induction false} OneLine(v: Json)
    requires JsonOk(v) && Compact(v)
    ensures '\n' !in Text(v)
    decreases v
  {
    match v
    case Str(items) => ItemsOneLine(items);
    case EmptyArr(_) =>
    case Arr(es) => ElemsOneLine(es);
    case EmptyObj(_) =>
    case Obj(ms) => MembersOneLine(ms);
  }

  lemma {:induction false} ElemsOneLine(es: Elems)
    requires ElemsOk(es) && CompactElems(es)
    ensures '\n' !in ElemsText(es)
    decreases es
  {
    OneLine(es.v);
    hide Text, JsonOk, Compact;
    if es.MoreElems? {
      ElemsOneLine(es.rest);
    }
  }

  lemma {:induction false} MembersOneLine(ms: Members)
    requires MembersOk(ms) && CompactMembers(ms)
    ensures '\n' !in MembersText(ms)
    decreases ms
  {
    OneLine(ms.v);
    ItemsOneLine(ms.key);
    hide Text, JsonOk, Compact, ItemsText;
    if ms.MoreMembers? {
      MembersOneLine(ms.rest);
    }
  }

  lemma CallValueCompact(i: nat, c: Call)
    ensures Compact(CallValue(i, c))
  {
    hide EncodedText, CallId, ArgumentsOf, Field, CompactMembers;
    var args := Field("arguments", StrValue(ArgumentsOf(c)), []);
    FieldCompact("arguments", StrValue(ArgumentsOf(c)), []);
    FieldCompact("name", StrValue(c.name), [args]);
    var body := Obj(Field("name", StrValue(c.name), [args]));
    FieldCompact("function", body, []);
    FieldCompact("type", StrValue("function"), [Field("function", body, [])]);
    FieldCompact("id", StrValue(CallId(i)), [Field("type", StrValue("function"), [Field("function", body, [])])]);
  }

  lemma FieldCompact(key: string, v: Json, rest: seq<Members>)
    requires |rest| <= 1 && Compact(v) && (rest != [] ==> CompactMembers(rest[0]))
    ensures CompactMembers(Field(key, v, rest))
  {
    hide EncodedText;
  }

  lemma {:induction false} CallElemsCompact(calls: seq<Call>, i: nat)
    requires i < |calls|
    ensures CompactElems(CallElems(calls, i))
    decreases |calls| - i
  {
    hide CallValue, Compact;
    CallValueCompact(i, calls[i]);
    if i < |calls| - 1 {
      CallElemsCompact(calls, i + 1);
    }
  }

  /** The encoded calls have no line break and no outer white space. */
  lemma CallsOnOneLine(calls: seq<Call>)
    ensures '\n' !in CallsJSON(calls) && CallsJSON(calls) != "" && Trimmed(CallsJSON(calls))
  {
    var v := CallsValue(calls);
    if calls != [] {
      CallElemsOk(calls, 0);
      CallElemsCompact(calls, 0);
    }
    OneLine(v);
    PassesBody(Square, v);
    hide Text, Body, CallElems, Passes;
    TextTrimmed(Square, Text(v), Body(v));
  }
}
