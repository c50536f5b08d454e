/** Which tool a name leads to, in terms of the declared tools alone (pkg/toolloop/parse_resolve.go and
    pkg/mcpclient/tool_alias.go). */
module ToolResolution {
  import opened Runes
  import opened Decimal
  import opened ToolNames

  // ----- Names

  /** A normalized name is the name without the white space around it, rune by rune in lower case and with
      underscores for hyphens. */
  lemma NormalIs(u: Charset, s: string) returns (pre: string, t: string, post: string)
    ensures s == pre + t + post && Blank(pre) && Blank(post) && Trimmed(t)
    ensures |NormalizeName(u, s)| == |t|
    ensures forall i :: 0 <= i < |t| && u.lower(t[i]) != '-' ==> NormalizeName(u, s)[i] == u.lower(t[i])
    ensures forall i :: 0 <= i < |t| && u.lower(t[i]) == '-' ==> NormalizeName(u, s)[i] == '_'
  {
    pre, post := TrimSplits(s);
    t := TrimSpace(s);
    hide TrimSpace, Blank, Trimmed;
  }

  /** The direct answer can be written with an underscore, a hyphen or neither. */
  lemma DirectAnswerNames(u: Charset)
    requires CharsetOk(u) && u.lower('-') == '-'
    ensures IsDirectAnswer(u, "directly_answer") && IsDirectAnswer(u, "directly-answer") && IsDirectAnswer(u, "directlyanswer")
    ensures forall s :: |NormalizeName(u, s)| !in {14, 15} ==> !IsDirectAnswer(u, s)
  {
    TrimOfTrimmed("directly-answer");
    assert NormalizeName(u, "directly-answer") == "directly_answer" by { hide TrimSpace; }
    PlainIsNormal(u, "directly_answer");
    PlainIsNormal(u, "directlyanswer");
    hide NormalizeName;
  }

  // ----- Reading an alias

  /** Written as an alias with these digits and these hexadecimal digits. */
  ghost predicate Spells(s: string, digits: string, hex: string) {
    Digits(digits) && hex != "" && HexText(hex) && s == "mcp_" + digits + "_h" + hex
  }

  lemma SpellsIs(s: string, digits: string, hex: string)
    ensures Spells(s, digits, hex) <==> MatchAlias(s) == Match(digits, hex)
  {
    hide Digits, HexText, MatchAlias;
    if Spells(s, digits, hex) {
      MatchIs(s, digits, hex);
    }
    MatchSpells(s);
  }

  lemma MatchSpells(s: string)
    ensures var m := MatchAlias(s); m.Match? ==> Spells(s, m.digits, m.hex)
  {
    hide Digits, HexText, MatchAlias;
  }

  /** Spelled as an alias whose digits give this number and whose hexadecimal digits give this name. */
  ghost predicate SpellsAlias(s: string, digits: string, hex: string, id: nat, name: seq<byte>) {
    && Spells(s, digits, hex) && |hex| % 2 == 0 && Unhex(hex) == name
    && ParseDec(digits) == id && 1 <= id <= 0x7FFF_FFFF_FFFF_FFFF
  }

  /** A text is read as an alias exactly when, trimmed, it is spelled as one with a number from 1 to the greatest
      signed 64-bit integer and an even number of hexadecimal digits; leading zeros of the number do not matter. */
  lemma ReadsAlias(s: string, id: nat, name: seq<byte>)
    ensures ParseToolAlias(s) == Alias(id, name) <==> exists digits, hex :: SpellsAlias(TrimSpace(s), digits, hex, id, name)
  {
    var t := TrimSpace(s);
    var m := MatchAlias(t);
    MatchSpells(t);
    forall digits, hex | SpellsAlias(t, digits, hex, id, name)
      ensures m == Match(digits, hex)
    {
      SpellsIs(t, digits, hex);
    }
    hide TrimSpace, MatchAlias, Unhex, ParseDec, Digits, HexText;
    if ParseToolAlias(s) == Alias(id, name) {
      assert SpellsAlias(t, m.digits, m.hex, id, name);
    }
  }

  // ----- Resolving a name

  ghost predicate Declared(u: Charset, tools: seq<string>, c: string) {
    c != "" && exists t :: t in tools && NormalizeName(u, t) == c
  }

  lemma CanonsAreDeclared(u: Charset, tools: seq<string>, c: string)
    ensures c in Canons(u, tools) <==> Declared(u, tools, c)
  {
    hide NormalizeName, Canons;
    if c in Canons(u, tools) {
      CanonsSound(u, tools, c);
    }
    if Declared(u, tools, c) {
      var t :| t in tools && NormalizeName(u, t) == c;
      CanonsComplete(u, tools, t);
    }
  }

  /** A declared alias of a tool that is called `n` on its server. */
  ghost predicate ShortFor(u: Charset, tools: seq<string>, n: string, c: string) {
    && Declared(u, tools, c) && ParseToolAlias(c).Alias?
    && NormalizeName(u, u.decode(ParseToolAlias(c).name)) == n
  }

  /** At `k` the texts differ for the first time, and `a` has the smaller rune. */
  ghost predicate SmallerAt(a: string, b: string, k: nat) {
    k < |a| && k < |b| && a[..k] == b[..k] && a[k] < b[k]
  }

  /** Texts are ordered by the first rune in which they differ, and a text comes behind its proper prefixes. */
  lemma {:induction false} TextLessIs(a: string, b: string)
    ensures TextLess(a, b) <==> a < b || exists k: nat :: SmallerAt(a, b, k)
  {
    hide SmallerAt;
    SmallerAtStart(a, b);
    if a != "" && b != "" && a[0] == b[0] {
      TextLessIs(a[1..], b[1..]);
      forall k: nat
        ensures SmallerAt(a, b, k + 1) <==> SmallerAt(a[1..], b[1..], k)
      {
        SmallerLater(a, b, k);
      }
      PrefixLater(a, b);
      if k: nat :| SmallerAt(a[1..], b[1..], k) {
        assert SmallerAt(a, b, k + 1);
      }
      if k: nat :| SmallerAt(a, b, k) {
        SmallerLater(a, b, k - 1);
      }
    }
  }

  lemma PrefixLater(a: string, b: string)
    requires a != "" && b != "" && a[0] == b[0]
    ensures a < b <==> a[1..] < b[1..]
  {
    assert a == [a[0]] + a[1..] && b == [b[0]] + b[1..];
    if a < b {
      assert b[..|a|] == a && b[1..][..|a| - 1] == a[1..];
    }
    if a[1..] < b[1..] {
      assert b[1..][..|a| - 1] == a[1..] && b[..|a|] == a;
    }
  }

  lemma SmallerAtStart(a: string, b: string)
    ensures SmallerAt(a, b, 0) <==> a != "" && b != "" && a[0] < b[0]
    ensures a == "" || b == "" || a[0] != b[0] ==> forall k: nat :: SmallerAt(a, b, k) ==> k == 0
  {
    assert forall k: nat :: 0 < k && SmallerAt(a, b, k) ==> a[..k][0] == b[..k][0];
  }

  lemma SmallerLater(a: string, b: string, k: nat)
    requires a != "" && b != "" && a[0] == b[0]
    ensures SmallerAt(a, b, k + 1) <==> SmallerAt(a[1..], b[1..], k)
  {
    if k < |a| - 1 && k < |b| - 1 {
      assert a[..k + 1] == [a[0]] + a[1..][..k] && b[..k + 1] == [b[0]] + b[1..][..k];
      assert a[..k + 1][1..] == a[1..][..k] && b[..k + 1][1..] == b[1..][..k];
    }
  }

  /** The alias on the server with the smaller id, and on one server the smaller text, comes first. */
  ghost predicate Before(a: string, b: string) {
    var x, y := ParseToolAlias(a), ParseToolAlias(b);
    x.Alias? && y.Alias? && (x.id < y.id || (x.id == y.id && TextLess(a, b)))
  }

  /** The name of this tool is an alias on the server. */
  ghost predicate On(u: Charset, id: nat, tool: string) {
    var a := ParseToolAlias(NormalizeName(u, tool));
    a.Alias? && a.id == id
  }

  /** Tool `k` is called `c` and is the only one on the server. */
  ghost predicate OnlyToolAt(u: Charset, tools: seq<string>, id: nat, c: string, k: nat)
    requires k < |tools|
  {
    && On(u, id, tools[k]) && NormalizeName(u, tools[k]) == c
    && forall j :: 0 <= j < |tools| && On(u, id, tools[j]) ==> j == k
  }

  /** `c` is the only tool among those declared that is on the server. */
  ghost predicate OnlyTool(u: Charset, tools: seq<string>, id: nat, c: string) {
    exists k :: 0 <= k < |tools| && OnlyToolAt(u, tools, id, c, k)
  }

  /** A name that is spelled as an alias on a server, whether or not its hexadecimal digits mean anything. */
  ghost predicate Names(n: string, id: nat) {
    1 <= id <= 0x7FFF_FFFF_FFFF_FFFF && exists digits, hex :: Spells(n, digits, hex) && ParseDec(digits) == id
  }

  /** A declared name leads to itself. Another one leads to the first of the declared aliases that it is short for. If
      there are none, it leads to `c` exactly when it is spelled as an alias on a server whose only declared tool is
      `c`. Nothing else leads anywhere. */
  lemma ResolveIs(u: Charset, tools: seq<string>, raw: string)
    ensures var n, r := NormalizeName(u, raw), Resolve(u, tools, raw);
            && (n == "" ==> r == Unresolved)
            && (Declared(u, tools, n) ==> r == Resolved(n))
            && (n != "" && !Declared(u, tools, n) ==>
                  if exists c :: ShortFor(u, tools, n, c) then
                    && r.Resolved? && ShortFor(u, tools, n, r.name)
                    && forall c :: ShortFor(u, tools, n, c) ==> c == r.name || Before(r.name, c)
                  else forall c :: r == Resolved(c) <==> exists id :: Names(n, id) && OnlyTool(u, tools, id, c))
  {
    hide *;
    var n := NormalizeName(u, raw);
    ResolveSteps(u, tools, raw);
    CanonsAreDeclared(u, tools, n);
    EmptyUndeclared(u, tools);
    if n != "" && !Declared(u, tools, n) {
      HitsAre(u, tools, n);
      forall c
        ensures Recover(u, tools, n) == Resolved(c) <==> exists id :: Names(n, id) && OnlyTool(u, tools, id, c)
      {
        RecoverIs(u, tools, n, c);
      }
    }
  }

  lemma EmptyUndeclared(u: Charset, tools: seq<string>)
    ensures !Declared(u, tools, "")
  {
  }

  lemma ResolveSteps(u: Charset, tools: seq<string>, raw: string)
    ensures var n, r := NormalizeName(u, raw), Resolve(u, tools, raw);
            var hits := FlatMap(HitOf(u, n), Canons(u, tools));
            && (n == "" ==> r == Unresolved)
            && (n != "" && n in Canons(u, tools) ==> r == Resolved(n))
            && (n != "" && n !in Canons(u, tools) ==>
                  r == if hits == [] then Recover(u, tools, n) else Resolved(LeastHit(hits).canon))
  {
    hide NormalizeName, HitOf, Canons, Recover, LeastHit, FlatMap;
  }

  lemma HitsAre(u: Charset, tools: seq<string>, n: string)
    ensures var hits := FlatMap(HitOf(u, n), Canons(u, tools));
            if exists c :: ShortFor(u, tools, n, c) then
              && hits != [] && ShortFor(u, tools, n, LeastHit(hits).canon)
              && forall c :: ShortFor(u, tools, n, c) ==> c == LeastHit(hits).canon || Before(LeastHit(hits).canon, c)
            else hits == []
  {
    hide *;
    var canons := Canons(u, tools);
    var hits := FlatMap(HitOf(u, n), canons);
    if hits != [] {
      HitIsShort(u, tools, n, hits[0]);
      HitIsShort(u, tools, n, LeastHit(hits));
    }
    forall c | ShortFor(u, tools, n, c)
      ensures hits != [] && (c == LeastHit(hits).canon || Before(LeastHit(hits).canon, c))
    {
      ShortIsHit(u, tools, n, c);
      LeastIsFirst(u, tools, n, c);
    }
  }

  lemma HitIsShort(u: Charset, tools: seq<string>, n: string, h: Hit)
    requires h in FlatMap(HitOf(u, n), Canons(u, tools))
    ensures ShortFor(u, tools, n, h.canon) && h.id == ParseToolAlias(h.canon).id
  {
    hide NormalizeName, ParseToolAlias, Canons, FlatMap, Declared;
    HitsSound(u, n, Canons(u, tools), h);
    CanonsAreDeclared(u, tools, h.canon);
  }

  lemma ShortIsHit(u: Charset, tools: seq<string>, n: string, c: string)
    requires ShortFor(u, tools, n, c)
    ensures Hit(ParseToolAlias(c).id, c) in FlatMap(HitOf(u, n), Canons(u, tools))
  {
    hide NormalizeName, ParseToolAlias, Canons, FlatMap, Declared;
    CanonsAreDeclared(u, tools, c);
    HitsComplete(u, n, Canons(u, tools), c);
  }

  lemma LeastIsFirst(u: Charset, tools: seq<string>, n: string, c: string)
    requires ShortFor(u, tools, n, c) && FlatMap(HitOf(u, n), Canons(u, tools)) != []
    ensures var first := LeastHit(FlatMap(HitOf(u, n), Canons(u, tools))).canon;
            ParseToolAlias(first).Alias? && (c == first || Before(first, c))
  {
    hide *;
    var hits := FlatMap(HitOf(u, n), Canons(u, tools));
    var h := LeastHit(hits);
    HitIsShort(u, tools, n, h);
    ShortIsHit(u, tools, n, c);
    ShortMeans(u, tools, n, h.canon);
    ShortMeans(u, tools, n, c);
    LeastIsLeast(hits, Hit(ParseToolAlias(c).id, c));
    NotLess(Hit(ParseToolAlias(c).id, c), h);
  }

  lemma ShortMeans(u: Charset, tools: seq<string>, n: string, c: string)
    requires ShortFor(u, tools, n, c)
    ensures ParseToolAlias(c).Alias?
  {
    hide NormalizeName, ParseToolAlias, Declared;
  }

  lemma NotLess(x: Hit, h: Hit)
    requires !HitLess(x, h) && ParseToolAlias(x.canon).Alias? && ParseToolAlias(h.canon).Alias?
    requires x.id == ParseToolAlias(x.canon).id && h.id == ParseToolAlias(h.canon).id
    ensures x.canon == h.canon || Before(h.canon, x.canon)
  {
    hide ParseToolAlias, TextLess;
    TextLessTotal(x.canon, h.canon);
  }

  // ----- Recovery

  /** Where each element contributes at most one value, the values are `[b]` exactly when one element gives `b` and no
      other gives any. */
  lemma {:induction false} OneValue(f: string -> seq<string>, xs: seq<string>, b: string)
    ensures FlatMap(f, xs) == [b] <==> exists k :: 0 <= k < |xs| && OnlyAt(f, xs, b, k)
  {
    hide OnlyAt;
    if xs != [] {
      var rest := FlatMap(f, xs[1..]);
      NoValue(f, xs[1..]);
      if f(xs[0]) == [] {
        OneValue(f, xs[1..], b);
        assert FlatMap(f, xs) == rest;
        if k :| 0 <= k < |xs[1..]| && OnlyAt(f, xs[1..], b, k) {
          OnlyLater(f, xs, b, k + 1);
        }
        if k :| 0 <= k < |xs| && OnlyAt(f, xs, b, k) {
          OnlyLater(f, xs, b, k);
        }
      } else {
        OnlyFirst(f, xs, b);
        if f(xs[0]) + rest == [b] {
          assert |f(xs[0])| == 1 && rest == [] && (f(xs[0]) + rest)[0] == f(xs[0])[0];
        }
      }
    }
  }

  ghost predicate OnlyAt(f: string -> seq<string>, xs: seq<string>, b: string, k: nat)
    requires k < |xs|
  {
    f(xs[k]) == [b] && forall j :: 0 <= j < |xs| && j != k ==> f(xs[j]) == []
  }

  lemma OnlyLater(f: string -> seq<string>, xs: seq<string>, b: string, k: nat)
    requires k < |xs| && f(xs[0]) == []
    ensures OnlyAt(f, xs, b, k) <==> k > 0 && OnlyAt(f, xs[1..], b, k - 1)
  {
    if k > 0 {
      assert forall j :: 0 < j < |xs| ==> xs[j] == xs[1..][j - 1];
    }
  }

  lemma OnlyFirst(f: string -> seq<string>, xs: seq<string>, b: string)
    requires xs != [] && f(xs[0]) != []
    ensures forall k :: 0 < k < |xs| ==> !OnlyAt(f, xs, b, k)
    ensures OnlyAt(f, xs, b, 0) <==> f(xs[0]) == [b] && FlatMap(f, xs[1..]) == []
  {
    NoValue(f, xs[1..]);
    assert forall j :: 0 < j < |xs| ==> xs[j] == xs[1..][j - 1];
    hide FlatMap;
  }

  lemma {:induction false} NoValue(f: string -> seq<string>, xs: seq<string>)
    ensures FlatMap(f, xs) == [] <==> forall k :: 0 <= k < |xs| ==> f(xs[k]) == []
  {
    if xs != [] {
      NoValue(f, xs[1..]);
      assert forall k :: 0 < k < |xs| ==> xs[k] == xs[1..][k - 1];
    }
  }

  /** The alias that a declared tool contributes to the tools of a server. */
  function NameOn(u: Charset, id: nat): string -> seq<string> {
    (tool: string) => FlatMap(OnServer(id), CanonOf(u)(tool))
  }

  lemma {:induction false} ServerTools(u: Charset, tools: seq<string>, id: nat)
    ensures FlatMap(OnServer(id), Canons(u, tools)) == FlatMap(NameOn(u, id), tools)
  {
    hide CanonOf, OnServer;
    if tools != [] {
      ServerTools(u, tools[1..], id);
      FlatMapAppend(OnServer(id), CanonOf(u)(tools[0]), Canons(u, tools[1..]));
    }
  }

  lemma NameOnIs(u: Charset, id: nat, tool: string)
    ensures NameOn(u, id)(tool) == if On(u, id, tool) then [NormalizeName(u, tool)] else []
  {
    EmptyIsNoAlias();
    var c := NormalizeName(u, tool);
    hide NormalizeName, ParseToolAlias;
    if c != "" {
      assert [c][1..] == [] && OnServer(id)(c) + [] == OnServer(id)(c);
      assert FlatMap(OnServer(id), [c]) == OnServer(id)(c);
      assert CanonOf(u)(tool) == [c];
    } else {
      assert CanonOf(u)(tool) == [];
    }
  }

  lemma EmptyIsNoAlias()
    ensures ParseToolAlias("") == NoAlias
  {
    TrimOfTrimmed("");
    hide TrimSpace;
    assert MatchAlias("") == NoMatch;
  }

  lemma OnlyToolIs(u: Charset, tools: seq<string>, id: nat, c: string)
    ensures FlatMap(OnServer(id), Canons(u, tools)) == [c] <==> OnlyTool(u, tools, id, c)
  {
    hide *;
    ServerTools(u, tools, id);
    OneValue(NameOn(u, id), tools, c);
    forall k: nat | k < |tools|
      ensures OnlyAt(NameOn(u, id), tools, c, k) <==> OnlyToolAt(u, tools, id, c, k)
    {
      OnlyAtIs(u, tools, id, c, k);
    }
    OnlyToolMeans(u, tools, id, c);
  }

  lemma OnlyToolMeans(u: Charset, tools: seq<string>, id: nat, c: string)
    ensures OnlyTool(u, tools, id, c) <==> exists k :: 0 <= k < |tools| && OnlyToolAt(u, tools, id, c, k)
  {
    hide OnlyToolAt;
  }

  lemma OnlyAtIs(u: Charset, tools: seq<string>, id: nat, c: string, k: nat)
    requires k < |tools|
    ensures OnlyAt(NameOn(u, id), tools, c, k) <==> OnlyToolAt(u, tools, id, c, k)
  {
    hide NameOn, On, NormalizeName;
    var f := NameOn(u, id);
    NameOnIs(u, id, tools[k]);
    forall j | 0 <= j < |tools|
      ensures f(tools[j]) == [] <==> !On(u, id, tools[j])
    {
      NameOnIs(u, id, tools[j]);
    }
  }

  lemma ServerIs(n: string, id: nat)
    ensures Names(n, id) <==> id > 0 && ServerOf(n) == id
  {
    hide MatchAlias, ParseDec, Spells;
    MatchSpells(n);
    var m := MatchAlias(n);
    forall digits, hex | Spells(n, digits, hex)
      ensures m == Match(digits, hex)
    {
      SpellsIs(n, digits, hex);
    }
  }

  lemma RecoverIs(u: Charset, tools: seq<string>, n: string, c: string)
    ensures Recover(u, tools, n) == Resolved(c) <==> exists id :: Names(n, id) && OnlyTool(u, tools, id, c)
  {
    hide ServerOf, Names, OnlyTool, Canons, OnServer, FlatMap;
    forall id: nat
      ensures Names(n, id) <==> id > 0 && ServerOf(n) == id
    {
      ServerIs(n, id);
    }
    OnlyToolIs(u, tools, ServerOf(n), c);
  }
}
