/** Tool aliases (pkg/mcpclient/tool_alias.go) and the resolution of the names a model asks for
    (pkg/toolloop/parse_resolve.go). */
module ToolNames {
  import opened Runes
  import opened Decimal

  type byte = x: nat | x < 256

  /** What the Unicode library decides: lower case of a rune, text of a byte sequence. */
  datatype Charset = Charset(lower: char -> char, decode: seq<byte> -> string)

  /** The runes of an alias: lower-case letters, digits and '_'. */
  predicate PlainRune(c: char) {
    'a' <= c <= 'z' || '0' <= c <= '9' || c == '_'
  }

  predicate PlainName(s: string) {
    forall i :: 0 <= i < |s| ==> PlainRune(s[i])
  }

  /** Lower-casing leaves plain runes alone. */
  ghost predicate CharsetOk(u: Charset) {
    forall c :: PlainRune(c) ==> u.lower(c) == c
  }

  function NormalizeName(u: Charset, s: string): string {
    var t := TrimSpace(s);
    seq(|t|, i requires 0 <= i < |t| => if u.lower(t[i]) == '-' then '_' else u.lower(t[i]))
  }

  predicate IsDirectAnswer(u: Charset, name: string) {
    NormalizeName(u, name) == "directly_answer" || NormalizeName(u, name) == "directlyanswer"
  }

  lemma PlainIsNormal(u: Charset, s: string)
    requires CharsetOk(u) && PlainName(s)
    ensures NormalizeName(u, s) == s
  {
    assert Trimmed(s);
    TrimOfTrimmed(s);
    hide TrimSpace, Trimmed;
  }

  // ----- Hexadecimal

  predicate IsLowHex(c: char) {
    '0' <= c <= '9' || 'a' <= c <= 'f'
  }

  function HexDigit(d: nat): (c: char)
    requires d < 16
    ensures IsLowHex(c) && HexValue(c) == d
  {
    if d < 10 then '0' + d as char else 'a' + (d - 10) as char
  }

  function HexValue(c: char): (d: nat)
    requires IsLowHex(c)
    ensures d < 16
  {
    if c <= '9' then (c - '0') as nat else (c - 'a') as nat + 10
  }

  lemma HexDigitOfValue(c: char)
    requires IsLowHex(c)
    ensures HexDigit(HexValue(c)) == c
  {
  }

  lemma HexPair(a: char, b: char)
    requires IsLowHex(a) && IsLowHex(b)
    ensures var v := HexValue(a) * 16 + HexValue(b); HexDigit(v / 16) == a && HexDigit(v % 16) == b
  {
    hide HexDigit, HexValue, IsLowHex;
    HexDigitOfValue(a);
    HexDigitOfValue(b);
    var v := HexValue(a) * 16 + HexValue(b);
    assert v / 16 == HexValue(a) && v % 16 == HexValue(b);
  }

  predicate HexText(s: string) {
    forall i :: 0 <= i < |s| ==> IsLowHex(s[i])
  }

  function Hex(bytes: seq<byte>): (s: string)
    ensures |s| == 2 * |bytes| && HexText(s)
  {
    if bytes == [] then "" else [HexDigit(bytes[0] / 16), HexDigit(bytes[0] % 16)] + Hex(bytes[1..])
  }

  function Unhex(s: string): seq<byte>
    requires HexText(s) && |s| % 2 == 0
  {
    if s == "" then [] else [HexValue(s[0]) * 16 + HexValue(s[1])] + Unhex(s[2..])
  }

  lemma {:induction false} UnhexOfHex(bytes: seq<byte>)
    ensures Unhex(Hex(bytes)) == bytes
  {
    hide HexDigit, HexValue;
    if bytes != [] {
      UnhexOfHex(bytes[1..]);
      assert Hex(bytes)[2..] == Hex(bytes[1..]);
    }
  }

  lemma {:induction false} HexOfUnhex(s: string)
    requires HexText(s) && |s| % 2 == 0
    ensures Hex(Unhex(s)) == s && |Unhex(s)| == |s| / 2
  {
    if s != "" {
      HexOfUnhex(s[2..]);
      HexPair(s[0], s[1]);
      hide HexDigit, HexValue, IsLowHex;
      assert s == [s[0], s[1]] + s[2..];
    }
  }

  // ----- Aliases

  const MAX_INT64: nat := 0x7FFF_FFFF_FFFF_FFFF

  function AliasStart(): string { "mcp_" }

  function AliasMid(): string { "_h" }

  function ToolAlias(id: nat, name: seq<byte>): string {
    AliasStart() + Dec(id) + AliasMid() + Hex(name)
  }

  /** Where the digits that start at `i` end. */
  function DigitsEnd(s: string, i: nat): (e: nat)
    requires i <= |s|
    ensures i <= e <= |s|
    ensures forall k :: i <= k < e ==> IsDigit(s[k])
    ensures e < |s| ==> !IsDigit(s[e])
    decreases |s| - i
  {
    if i < |s| && IsDigit(s[i]) then DigitsEnd(s, i + 1) else i
  }

  datatype AliasMatch = NoMatch | Match(digits: string, hex: string)

  /** The pattern ^mcp_(\d+)_h([0-9a-f]+)$ */
  function MatchAlias(s: string): (m: AliasMatch)
    ensures m.Match? ==> Digits(m.digits) && m.hex != "" && HexText(m.hex)
                         && s == AliasStart() + m.digits + AliasMid() + m.hex
  {
    if !(AliasStart() <= s) then NoMatch
    else
      var e := DigitsEnd(s, 4);
      if e > 4 && AliasMid() <= s[e..] && |s| > e + 2 && HexText(s[e + 2..]) then
        assert s == s[..4] + s[4..e] + s[e..e + 2] + s[e + 2..];
        Match(s[4..e], s[e + 2..])
      else NoMatch
  }

  lemma MatchIs(s: string, digits: string, hex: string)
    requires Digits(digits) && hex != "" && HexText(hex) && s == AliasStart() + digits + AliasMid() + hex
    ensures MatchAlias(s) == Match(digits, hex)
  {
    var k := 4 + |digits|;
    assert s[..4] == AliasStart() && s[4..k] == digits && s[k..k + 2] == AliasMid() && s[k + 2..] == hex;
    assert forall j :: 4 <= j < k ==> s[j] == digits[j - 4];
    DigitsEndIs(s, 4, k);
    assert s[k..][..2] == AliasMid();
  }

  lemma DigitsEndIs(s: string, i: nat, k: nat)
    requires i <= k < |s| && (forall j :: i <= j < k ==> IsDigit(s[j])) && !IsDigit(s[k])
    ensures DigitsEnd(s, i) == k
  {
    hide DigitsEnd, IsDigit;
  }

  datatype Alias = NoAlias | Alias(id: nat, name: seq<byte>)

  function ParseToolAlias(s: string): (a: Alias)
    ensures a.Alias? ==> 0 < a.id <= MAX_INT64 && a.name != []
  {
    match MatchAlias(TrimSpace(s))
    case NoMatch => NoAlias
    case Match(digits, hex) =>
      var id := ParseDec(digits);
      if id > MAX_INT64 || id == 0 || |hex| % 2 != 0 then NoAlias
      else
        HexOfUnhex(hex);
        Alias(id, Unhex(hex))
  }

  lemma AliasIsPlain(id: nat, name: seq<byte>)
    ensures PlainName(ToolAlias(id, name))
  {
    assert PlainName(Dec(id));
    assert PlainName(Hex(name));
    hide Dec, Hex, HexText, Digits;
    assert PlainName(AliasStart() + Dec(id));
    assert PlainName((AliasStart() + Dec(id)) + AliasMid());
    assert PlainName((AliasStart() + Dec(id) + AliasMid()) + Hex(name));
  }

  /** Printing an alias and parsing it gives server and name back, for every non-empty byte name. */
  lemma ParseOfAlias(id: nat, name: seq<byte>)
    requires 0 < id <= MAX_INT64 && name != []
    ensures ParseToolAlias(ToolAlias(id, name)) == Alias(id, name)
  {
    hide Dec, Hex, Unhex, MatchAlias, TrimSpace;
    var s := ToolAlias(id, name);
    AliasIsPlain(id, name);
    assert Trimmed(s);
    TrimOfTrimmed(s);
    MatchIs(s, Dec(id), Hex(name));
    ParseOfDec(id);
    UnhexOfHex(name);
  }

  /** A text that parses is the alias of what it parses to exactly when its number has no leading zero. */
  lemma AliasOfParse(s: string)
    requires ParseToolAlias(s).Alias?
    ensures var a, t := ParseToolAlias(s), TrimSpace(s);
            |t| > 4 && (ToolAlias(a.id, a.name) == t <==> t[4] != '0')
  {
    hide TrimSpace, MatchAlias, Unhex, ParseDec, Dec;
    var t := TrimSpace(s);
    var m := MatchAlias(t);
    HexOfUnhex(m.hex);
    assert t[4] == m.digits[0];
    var a := ParseToolAlias(s);
    if t[4] != '0' {
      DecOfParse(m.digits);
    } else if ToolAlias(a.id, a.name) == t {
      assert Dec(a.id)[0] == ToolAlias(a.id, a.name)[4];
    }
  }

  lemma AliasInjective(id1: nat, name1: seq<byte>, id2: nat, name2: seq<byte>)
    requires 0 < id1 <= MAX_INT64 && 0 < id2 <= MAX_INT64 && name1 != [] && name2 != []
    requires ToolAlias(id1, name1) == ToolAlias(id2, name2)
    ensures id1 == id2 && name1 == name2
  {
    hide ToolAlias, ParseToolAlias;
    ParseOfAlias(id1, name1);
    ParseOfAlias(id2, name2);
  }

  // ----- Resolution

  datatype Resolution = Unresolved | Resolved(name: string)

  /** The normalized name of a declared tool, unless it is empty. */
  function CanonOf(u: Charset): string -> seq<string> {
    (tool: string) => var c := NormalizeName(u, tool); if c == "" then [] else [c]
  }

  function Canons(u: Charset, tools: seq<string>): seq<string> {
    FlatMap(CanonOf(u), tools)
  }

  datatype Hit = Hit(id: nat, canon: string)

  /** A declared alias whose original name is the one asked for. */
  function HitOf(u: Charset, n: string): string -> seq<Hit> {
    (canon: string) =>
      var a := ParseToolAlias(canon);
      if a.Alias? && NormalizeName(u, u.decode(a.name)) == n then [Hit(a.id, canon)] else []
  }

  /** A declared alias on the given server. */
  function OnServer(id: nat): string -> seq<string> {
    (canon: string) =>
      var a := ParseToolAlias(canon);
      if a.Alias? && a.id == id then [canon] else []
  }

  /** Order of runes, as Go compares valid UTF-8 strings. */
  predicate TextLess(a: string, b: string) {
    b != "" && (a == "" || a[0] < b[0] || (a[0] == b[0] && TextLess(a[1..], b[1..])))
  }

  predicate HitLess(a: Hit, b: Hit) {
    a.id < b.id || (a.id == b.id && TextLess(a.canon, b.canon))
  }

  function LeastHit(hits: seq<Hit>): (h: Hit)
    requires hits != []
    ensures h in hits
  {
    var last := hits[|hits| - 1];
    if |hits| == 1 then last
    else
      var h := LeastHit(hits[..|hits| - 1]);
      if HitLess(last, h) then last else h
  }

  /** The server named by a text that looks like an alias, or 0. */
  function ServerOf(n: string): nat {
    var m := MatchAlias(n);
    if m.NoMatch? || ParseDec(m.digits) > MAX_INT64 then 0 else ParseDec(m.digits)
  }

  /** With a single declared tool on the server, a wrong suffix is forgiven. */
  function Recover(u: Charset, tools: seq<string>, n: string): Resolution {
    var id := ServerOf(n);
    var list := FlatMap(OnServer(id), Canons(u, tools));
    if id > 0 && |list| == 1 then Resolved(list[0]) else Unresolved
  }

  function Resolve(u: Charset, tools: seq<string>, raw: string): Resolution {
    var n := NormalizeName(u, raw);
    var canons := Canons(u, tools);
    if n == "" then Unresolved
    else if n in canons then Resolved(n)
    else
      var hits := FlatMap(HitOf(u, n), canons);
      if hits == [] then Recover(u, tools, n) else Resolved(LeastHit(hits).canon)
  }

  method RecoverSingleServerAlias(u: Charset, tools: seq<string>, n: string) returns (r: Resolution)
    ensures r == Recover(u, tools, n)
  {
    hide NormalizeName, ParseToolAlias, MatchAlias;
    var id := ServerOf(n);
    var canons, list := [], [];
    for i := 0 to |tools|
      invariant canons == Canons(u, tools[..i]) && list == FlatMap(OnServer(id), canons)
    {
      assert tools[..i + 1] == tools[..i] + [tools[i]];
      FlatMapSnoc(CanonOf(u), tools[..i], tools[i]);
      var c := NormalizeName(u, tools[i]);
      if c != "" {
        FlatMapSnoc(OnServer(id), canons, c);
        canons := canons + [c];
        var a := ParseToolAlias(c);
        if a.Alias? && a.id == id {
          list := list + [c];
        }
      }
    }
    assert tools[..|tools|] == tools;
    return if id > 0 && |list| == 1 then Resolved(list[0]) else Unresolved;
  }

  method ResolveDeclared(u: Charset, tools: seq<string>, raw: string) returns (r: Resolution)
    ensures r == Resolve(u, tools, raw)
  {
    hide NormalizeName, ParseToolAlias, Recover;
    var n := NormalizeName(u, raw);
    var canons, hits := [], [];
    for i := 0 to |tools|
      invariant canons == Canons(u, tools[..i]) && hits == FlatMap(HitOf(u, n), canons)
    {
      assert tools[..i + 1] == tools[..i] + [tools[i]];
      FlatMapSnoc(CanonOf(u), tools[..i], tools[i]);
      var c := NormalizeName(u, tools[i]);
      if c != "" {
        FlatMapSnoc(HitOf(u, n), canons, c);
        canons := canons + [c];
        var a := ParseToolAlias(c);
        if a.Alias? && NormalizeName(u, u.decode(a.name)) == n {
          hits := hits + [Hit(a.id, c)];
        }
      }
    }
    assert tools[..|tools|] == tools;
    if n == "" {
      return Unresolved;
    }
    if n in canons {
      return Resolved(n);
    }
    if |hits| == 0 {
      r := RecoverSingleServerAlias(u, tools, n);
      return;
    }
    var least := FindLeast(hits);
    return Resolved(least.canon);
  }

  /** The head of the hits sorted by server id and name. */
  method FindLeast(hits: seq<Hit>) returns (h: Hit)
    requires hits != []
    ensures h == LeastHit(hits)
  {
    hide HitLess;
    h := hits[0];
    assert hits[..1] == [hits[0]];
    for i := 1 to |hits|
      invariant h == LeastHit(hits[..i])
    {
      assert hits[..i + 1][..i] == hits[..i];
      if HitLess(hits[i], h) {
        h := hits[i];
      }
    }
    assert hits[..|hits|] == hits;
  }

  // ----- Soundness

  lemma {:induction false} CanonsSound(u: Charset, tools: seq<string>, c: string)
    requires c in Canons(u, tools)
    ensures c != "" && exists t :: t in tools && NormalizeName(u, t) == c
  {
    hide NormalizeName;
    if c in CanonOf(u)(tools[0]) {
      assert tools[0] in tools;
    } else {
      CanonsSound(u, tools[1..], c);
    }
  }

  lemma {:induction false} CanonsComplete(u: Charset, tools: seq<string>, t: string)
    requires t in tools && NormalizeName(u, t) != ""
    ensures NormalizeName(u, t) in Canons(u, tools)
  {
    hide NormalizeName;
    if t != tools[0] {
      CanonsComplete(u, tools[1..], t);
    }
  }

  lemma {:induction false} HitsSound(u: Charset, n: string, canons: seq<string>, h: Hit)
    requires h in FlatMap(HitOf(u, n), canons)
    ensures h.canon in canons && HitOf(u, n)(h.canon) == [h]
  {
    hide NormalizeName, ParseToolAlias;
    if h !in HitOf(u, n)(canons[0]) {
      HitsSound(u, n, canons[1..], h);
    }
  }

  lemma {:induction false} HitsComplete(u: Charset, n: string, canons: seq<string>, c: string)
    requires c in canons && HitOf(u, n)(c) != []
    ensures HitOf(u, n)(c)[0] in FlatMap(HitOf(u, n), canons)
  {
    hide NormalizeName, ParseToolAlias, HitOf;
    if c != canons[0] {
      HitsComplete(u, n, canons[1..], c);
    }
  }

  lemma {:induction false} OnServerSound(id: nat, canons: seq<string>, c: string)
    requires c in FlatMap(OnServer(id), canons)
    ensures c in canons
  {
    hide ParseToolAlias;
    if c !in OnServer(id)(canons[0]) {
      OnServerSound(id, canons[1..], c);
    }
  }

  /** Any answer is the normalized, non-empty name of a declared tool. */
  lemma ResolveIsSound(u: Charset, tools: seq<string>, raw: string)
    ensures var r := Resolve(u, tools, raw);
            r.Resolved? ==> r.name != "" && exists t :: t in tools && NormalizeName(u, t) == r.name
  {
    hide NormalizeName, HitOf, OnServer, CanonOf, ServerOf;
    var n, canons, r := NormalizeName(u, raw), Canons(u, tools), Resolve(u, tools, raw);
    if r.Resolved? {
      var hits := FlatMap(HitOf(u, n), canons);
      if n !in canons && hits != [] {
        HitsSound(u, n, canons, LeastHit(hits));
      } else if n !in canons {
        OnServerSound(ServerOf(n), canons, r.name);
      }
      hide Canons;
      CanonsSound(u, tools, r.name);
    }
  }

  /** A declared full alias resolves to itself. */
  lemma AliasResolvesToItself(u: Charset, tools: seq<string>, id: nat, name: seq<byte>)
    requires CharsetOk(u) && 0 < id && name != [] && ToolAlias(id, name) in tools
    ensures Resolve(u, tools, ToolAlias(id, name)) == Resolved(ToolAlias(id, name))
  {
    var a := ToolAlias(id, name);
    AliasIsPlain(id, name);
    PlainIsNormal(u, a);
    assert ToolAlias(id, name) != "";
    hide NormalizeName, ToolAlias, Canons, HitOf, Recover, PlainName;
    CanonsComplete(u, tools, a);
  }

  // ----- Order of the declared tools does not matter

  lemma TextLessTotal(a: string, b: string)
    ensures TextLess(a, b) || a == b || TextLess(b, a)
    ensures !(TextLess(a, b) && TextLess(b, a)) && !TextLess(a, a)
  {
    if a != "" && b != "" {
      TextLessTotal(a[1..], b[1..]);
      if a[0] == b[0] && a[1..] == b[1..] {
        assert a == [a[0]] + a[1..];
      }
    }
  }

  lemma TextLessTransitive(a: string, b: string, c: string)
    requires TextLess(a, b) && TextLess(b, c)
    ensures TextLess(a, c)
  {
  }

  lemma {:induction false} LeastIsLeast(hits: seq<Hit>, x: Hit)
    requires x in hits
    ensures !HitLess(x, LeastHit(hits))
  {
    var last := hits[|hits| - 1];
    TextLessTotal(x.canon, x.canon);
    if |hits| > 1 {
      var front := hits[..|hits| - 1];
      var h := LeastHit(front);
      hide TextLess;
      TextLessTotal(last.canon, h.canon);
      if x != last {
        LeastIsLeast(front, x);
        if HitLess(last, h) {
          assert !HitLess(x, last) by {
            if HitLess(x, last) {
              if x.id == last.id == h.id {
                TextLessTransitive(x.canon, last.canon, h.canon);
              }
              hide TextLess;
            }
          }
        }
      }
    }
  }

  lemma {:induction false} FlatMapPermutes<A, B>(f: A -> seq<B>, a: seq<A>, b: seq<A>)
    requires multiset(a) == multiset(b)
    ensures multiset(FlatMap(f, a)) == multiset(FlatMap(f, b))
    decreases |a|
  {
    hide FlatMap;
    if a == [] {
      assert |b| == |multiset(b)| == 0;
    } else {
      var j := WithoutFirst(a, b);
      FlatMapPermutes(f, a[1..], b[..j] + b[j + 1..]);
      FlatMapTakeOut(f, a, 0);
      FlatMapTakeOut(f, b, j);
    }
  }

  /** A permutation has the first element somewhere, and without it permutes the rest. */
  lemma WithoutFirst<T>(a: seq<T>, b: seq<T>) returns (j: nat)
    requires a != [] && multiset(a) == multiset(b)
    ensures j < |b| && b[j] == a[0] && a[..0] + a[1..] == a[1..]
    ensures multiset(a[1..]) == multiset(b[..j] + b[j + 1..])
  {
    assert a[0] in multiset(b);
    j :| 0 <= j < |b| && b[j] == a[0];
    assert a[..0] + a[1..] == a[1..];
    TakeOut(a, 0);
    TakeOut(b, j);
  }

  lemma TakeOut<T>(s: seq<T>, j: nat)
    requires j < |s|
    ensures multiset(s[..j] + s[j + 1..]) == multiset(s) - multiset{s[j]}
  {
    assert s == s[..j] + [s[j]] + s[j + 1..];
  }

  lemma FlatMapTakeOut<A, B>(f: A -> seq<B>, s: seq<A>, j: nat)
    requires j < |s|
    ensures multiset(FlatMap(f, s)) == multiset(FlatMap(f, s[..j] + s[j + 1..])) + multiset(f(s[j]))
  {
    hide FlatMap;
    FlatMapAppend(f, s[..j], s[j + 1..]);
    FlatMapSnoc(f, s[..j], s[j]);
    FlatMapAppend(f, s[..j] + [s[j]], s[j + 1..]);
    assert s == s[..j] + [s[j]] + s[j + 1..];
  }

  /** The answer is the same for every order of the declared tools. */
  lemma ResolveIsOrderFree(u: Charset, a: seq<string>, b: seq<string>, raw: string)
    requires multiset(a) == multiset(b)
    ensures Resolve(u, a, raw) == Resolve(u, b, raw)
  {
    hide NormalizeName, CanonOf, HitOf, OnServer, ServerOf, FlatMap, LeastHit;
    var n := NormalizeName(u, raw);
    FlatMapPermutes(CanonOf(u), a, b);
    var ca, cb := Canons(u, a), Canons(u, b);
    FlatMapPermutes(HitOf(u, n), ca, cb);
    FlatMapPermutes(OnServer(ServerOf(n)), ca, cb);
    SameMembers(ca, cb, n);
    SameSingle(FlatMap(OnServer(ServerOf(n)), ca), FlatMap(OnServer(ServerOf(n)), cb));
    var ha, hb := FlatMap(HitOf(u, n), ca), FlatMap(HitOf(u, n), cb);
    SameEmpty(ha, hb);
    if ha != [] {
      // Equally many of each hit give the same least hit.
      assert hb != [] && LeastHit(ha) == LeastHit(hb) by {
        assert ha[0] in multiset(ha);
        var x, y := LeastHit(ha), LeastHit(hb);
        assert x in multiset(hb) && y in multiset(ha);
        LeastIsLeast(ha, y);
        LeastIsLeast(hb, x);
        hide LeastHit, TextLess;
        TextLessTotal(x.canon, y.canon);
      }
    }
  }

  lemma SameEmpty<T>(a: seq<T>, b: seq<T>)
    requires multiset(a) == multiset(b)
    ensures a == [] <==> b == []
  {
    assert |multiset(a)| == |a| && |multiset(b)| == |b|;
  }

  lemma SameMembers<T>(a: seq<T>, b: seq<T>, x: T)
    requires multiset(a) == multiset(b)
    ensures x in a <==> x in b
  {
    assert x in multiset(a) <==> x in multiset(b);
  }

  lemma SameSingle<T>(a: seq<T>, b: seq<T>)
    requires multiset(a) == multiset(b)
    ensures |a| == |b| && (|a| == 1 ==> a == b)
  {
    assert |multiset(a)| == |a| && |multiset(b)| == |b|;
    if |a| == 1 {
      assert a[0] in multiset(b);
    }
  }

  /** A short name that is not itself declared goes to the declared alias with that original name on the
      server with the least id. */
  lemma ShortNameResolves(u: Charset, tools: seq<string>, raw: string, c: string)
    requires var n := NormalizeName(u, raw);
             && n != "" && n !in Canons(u, tools) && c in Canons(u, tools)
             && ParseToolAlias(c).Alias? && NormalizeName(u, u.decode(ParseToolAlias(c).name)) == n
    ensures var r, n := Resolve(u, tools, raw), NormalizeName(u, raw);
            && r.Resolved? && ParseToolAlias(r.name).Alias? && ParseToolAlias(r.name).id <= ParseToolAlias(c).id
            && NormalizeName(u, u.decode(ParseToolAlias(r.name).name)) == n
  {
    hide NormalizeName, ParseToolAlias, Canons, Recover, LeastHit, FlatMap, TextLess;
    var n, canons := NormalizeName(u, raw), Canons(u, tools);
    var hits := FlatMap(HitOf(u, n), canons);
    HitsComplete(u, n, canons, c);
    var least := LeastHit(hits);
    HitsSound(u, n, canons, least);
    LeastIsLeast(hits, HitOf(u, n)(c)[0]);
  }
}
