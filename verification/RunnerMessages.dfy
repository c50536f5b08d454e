/** Tool metadata flattened into text (pkg/prompt/messages.go) and recovered from it by string search
    (pkg/prompt/chat_template.go). */
module RunnerMessages {
  import opened Runes
  import opened Chat

  function CallsPrefix(): string { "[tool_calls]: " }

  function CallsBlock(): string { "\n" + CallsPrefix() }

  // ----- The printer

  function ToolHead(id: string, name: string): string {
    (if id == "" then "" else "[call_id=" + id + "] ") + (if name == "" then "" else "[" + name + "] ")
  }

  function FormatContent(m: Message): string {
    match m.role
    case Tool => ToolHead(TrimSpace(m.toolCallID), TrimSpace(m.toolName)) + m.content
    case Assistant =>
      var tc := TrimSpace(m.toolCallsJSON);
      if tc == "" then m.content
      else if TrimSpace(m.content) != "" then m.content + CallsBlock() + tc
      else CallsPrefix() + tc
    case _ => m.content
  }

  function Prepared(m: Message): Message {
    m.(content := FormatContent(m), toolCallID := "", toolName := "", toolCallsJSON := "")
  }

  function PreparedAll(msgs: seq<Entry>): seq<Message> {
    if msgs == [] then []
    else PreparedAll(msgs[..|msgs| - 1]) +
         if msgs[|msgs| - 1].Nil? then [] else [Prepared(msgs[|msgs| - 1].m)]
  }

  method PrepareMessages(msgs: seq<Entry>) returns (out: seq<Message>)
    ensures out == PreparedAll(msgs)
  {
    hide Prepared;
    out := [];
    for i := 0 to |msgs|
      invariant out == PreparedAll(msgs[..i])
    {
      assert msgs[..i + 1][..i] == msgs[..i];
      if msgs[i].Msg? {
        out := out + [Prepared(msgs[i].m)];
      }
    }
    assert msgs[..|msgs|] == msgs;
  }

  /** Flattening adds to the content of a tool message in front and to that of an assistant with calls behind, clears the
      fields that it has flattened, and changes nothing else of any message. */
  lemma PreparedKeeps(m: Message)
    ensures var p := Prepared(m);
            && p == m.(content := p.content, toolCallID := "", toolName := "", toolCallsJSON := "")
            && (m.role.Tool? ==> |m.content| <= |p.content| && p.content[|p.content| - |m.content|..] == m.content)
            && (m.role.Assistant? && TrimSpace(m.toolCallsJSON) != "" && TrimSpace(m.content) != "" ==> m.content <= p.content)
            && (m.role.System? || m.role.User? || (m.role.Assistant? && TrimSpace(m.toolCallsJSON) == "") ==> p.content == m.content)
    ensures m.role.System? || m.role.User? ==> ToTemplate(Prepared(m)) == Template(m.content, "", "", "")
  {
    hide TrimSpace;
    if m.role.Tool? {
      hide ToolHead;
      var head := ToolHead(TrimSpace(m.toolCallID), TrimSpace(m.toolName));
      assert (head + m.content)[|head|..] == m.content;
    }
  }

  /** There is one prepared message for each message that is not nil, in the order of the messages. */
  lemma {:induction false} PreparedInOrder(a: seq<Entry>, b: seq<Entry>)
    ensures PreparedAll(a + b) == PreparedAll(a) + PreparedAll(b)
    ensures PreparedAll([Nil]) == [] && forall m :: PreparedAll([Msg(m)]) == [Prepared(m)]
    decreases |b|
  {
    hide Prepared;
    forall e: Entry
      ensures [e][..0] == []
    {
    }
    if b == [] {
      assert a + b == a;
    } else {
      PreparedInOrder(a, b[..|b| - 1]);
      assert (a + b)[..|a + b| - 1] == a + b[..|b| - 1];
    }
  }

  // ----- The parser

  /** The last occurrence up to `k`, or -1. */
  function LastFrom(s: string, sub: string, k: int): (i: int)
    requires k + |sub| <= |s|
    ensures i == -1 || (i <= k && OccursAt(s, sub, i))
    ensures forall j :: OccursAt(s, sub, j) && j <= k ==> j <= i
    decreases k + 1
  {
    if k < 0 then -1
    else if s[k..k + |sub|] == sub then
      assert OccursAt(s, sub, k);
      k
    else LastFrom(s, sub, k - 1)
  }

  function LastIndex(s: string, sub: string): (i: int)
    requires sub != ""
    ensures i == -1 || OccursAt(s, sub, i)
    ensures forall j :: OccursAt(s, sub, j) ==> j <= i
  {
    LastFrom(s, sub, |s| - |sub|)
  }

  function SplitAssistant(text: string): (string, string) {
    var t := TrimSpace(text);
    if t == "" then ("", "")
    else
      var i := LastIndex(t, CallsBlock());
      if i >= 0 then (TrimSpace(t[..i]), TrimSpace(t[i + |CallsBlock()|..]))
      else if CallsPrefix() <= t then ("", TrimSpace(t[|CallsPrefix()|..]))
      else (t, "")
  }

  /** What a bracketed prefix of at least `skip` fixed runes holds, and the text after it. */
  function TakeBracket(t: string, open: string): (string, string) {
    var end := Index(t, "]");
    if open <= t && end > |open| then (TrimSpace(t[|open|..end]), TrimSpace(t[end + 1..])) else ("", t)
  }

  function ParseTool(text: string): (string, string, string) {
    var t := TrimSpace(text);
    if t == "" then ("", "", "")
    else
      var (id, rest) := TakeBracket(t, "[call_id=");
      var (name, body) := TakeBracket(rest, "[");
      (body, id, name)
  }

  /** Whatever the text is, nothing that is read from it has white space at its ends. */
  lemma ReadTrimmed(text: string)
    ensures Trimmed(SplitAssistant(text).0) && Trimmed(SplitAssistant(text).1)
    ensures Trimmed(ParseTool(text).0) && Trimmed(ParseTool(text).1) && Trimmed(ParseTool(text).2)
  {
    hide Trimmed, LastIndex, Index, CallsBlock, CallsPrefix, TakeBracket;
    assert Trimmed("") by { EmptyTrimmed(); }
    var t := TrimSpace(text);
    BracketTrims(t, "[call_id=");
    BracketTrims(TakeBracket(t, "[call_id=").1, "[");
  }

  lemma EmptyTrimmed()
    ensures Trimmed("")
  {
  }

  lemma BracketTrims(t: string, open: string)
    requires Trimmed(t)
    ensures Trimmed(TakeBracket(t, open).0) && Trimmed(TakeBracket(t, open).1)
  {
    EmptyTrimmed();
    hide Trimmed, Index;
  }

  datatype Template = Template(content: string, toolCallsJSON: string, toolCallID: string, toolName: string)

  /** The tool calls stay as text: decoding them is left to a JSON library. */
  function ToTemplate(m: Message): Template {
    match m.role
    case Assistant =>
      var (body, tc) := SplitAssistant(m.content);
      Template(body, if tc == "" then TrimSpace(m.toolCallsJSON) else tc, "", "")
    case Tool =>
      var (body, id, name) := ParseTool(m.content);
      Template(body, "", if id == "" then TrimSpace(m.toolCallID) else id, if name == "" then TrimSpace(m.toolName) else name)
    case _ => Template(m.content, "", "", "")
  }

  // ----- When the metadata survives

  /** The text would itself be read as a bracketed prefix. */
  predicate Bracketed(t: string) {
    "[" <= t && Index(t, "]") > 1
  }

  /** Conditions on trimmed id, name and body. */
  predicate ToolRestorable(id: string, name: string, body: string) {
    && ']' !in id && ']' !in name
    && (id == "" && "call_id=" <= name ==> |name| == 8)
    && (name == "" ==> !Bracketed(body))
  }

  ghost predicate CallsRestorable(content: string, tc: string) {
    if tc == "" then !Contains(content, CallsBlock()) && !(CallsPrefix() <= content)
    else !Contains(tc, CallsBlock())
  }

  // ----- Tool messages

  lemma TakeBracketShape(t: string, open: string)
    requires ']' !in open
    ensures ']' !in TakeBracket(t, open).0
    ensures open <= t && Index(t, "]") > |open| ==> |TakeBracket(t, open).1| < |t|
    ensures !(open <= t && Index(t, "]") > |open|) ==> TakeBracket(t, open) == ("", t)
    ensures |TakeBracket(t, open).1| <= |t|
  {
    OccursOne(t, ']');
    var end := Index(t, "]");
    if end > |open| {
      assert ']' !in t[|open|..end];
      TrimIsPart(t[|open|..end], ']');
    }
    hide TrimSpace;
  }

  lemma TrimIsPart(s: string, c: char)
    requires c !in s
    ensures c !in TrimSpace(s)
  {
    var a, b := TrimSplits(s);
  }

  lemma FirstBracket(open: string, x: string, tail: string)
    requires ']' !in open && ']' !in x
    ensures Index(open + x + "]" + tail, "]") == |open| + |x|
  {
    var t := open + x + "]" + tail;
    OccursOne(t, ']');
    assert t[|open| + |x|] == ']';
    assert forall j :: 0 <= j < |open| + |x| ==> t[j] in open || t[j] in x;
    IndexIs(t, "]", |open| + |x|);
  }

  lemma BracketParts(open: string, x: string, tail: string)
    ensures var t := open + x + "]" + tail;
            open <= t && t[|open|..|open| + |x|] == x && t[|open| + |x| + 1..] == tail
  {
  }

  /** A well-formed bracket is taken off exactly. */
  lemma TakeBracketExact(open: string, x: string, tail: string)
    requires ']' !in open && x != "" && Trimmed(x) && ']' !in x
    ensures TakeBracket(open + x + "]" + tail, open) == (x, TrimSpace(tail))
  {
    hide Index, TrimSpace, Trimmed, OccursAt;
    FirstBracket(open, x, tail);
    BracketParts(open, x, tail);
    TrimOfTrimmed(x);
  }

  /** Trimming a printed tool message touches only the end of its content. */
  lemma TrimPrinted(head: string, content: string)
    requires head != "" && Trimmed(head)
    ensures TrimSpace(head + " " + content) == head + TrimRight(" " + content)
  {
    var r := TrimRight(" " + content);
    TrimRightIs(" " + content);
    var post := (" " + content)[|r|..];
    assert " " + content == r + post;
    assert head + " " + content == "" + (head + r) + post;
    assert Trimmed(head + r);
    TrimUnique("", head + r, post);
  }

  /** A printed id is read back, and the rest of the text follows. */
  lemma ReadsBracket(open: string, x: string, rest: string)
    requires ']' !in open && x != "" && Trimmed(x) && ']' !in x && open != "" && !IsSpace(open[0])
    ensures var t := TrimSpace(open + x + "]" + " " + rest);
            t != "" && open <= t && TakeBracket(t, open) == (x, TrimSpace(rest))
  {
    hide TrimRight, TakeBracket, TrimSpace;
    var head := open + x + "]";
    assert Trimmed(head);
    TrimPrinted(head, rest);
    TakeBracketExact(open, x, TrimRight(" " + rest));
    assert TrimSpace(TrimRight(" " + rest)) == TrimSpace(rest) by {
      hide *;
      TrimAfterTrimRight(" " + rest);
      TrimAfterSpace(rest);
    }
    assert head + TrimRight(" " + rest) == open + x + "]" + TrimRight(" " + rest);
  }

  /** The name bracket, alone or missing, and then the body. */
  lemma ReadsName(name: string, content: string)
    requires Trimmed(name)
    requires if name == "" then !Bracketed(TrimSpace(content)) else ']' !in name
    ensures TakeBracket(TrimSpace((if name == "" then "" else "[" + name + "] ") + content), "[") == (name, TrimSpace(content))
  {
    hide TrimSpace, Index, Trimmed, OccursAt;
    if name == "" {
      assert "" + content == content;
    } else {
      ReadsBracket("[", name, content);
      assert "[" + name + "] " + content == "[" + name + "]" + " " + content;
    }
  }

  lemma ToolHeadText(id: string, name: string, content: string)
    ensures var tail := (if name == "" then "" else "[" + name + "] ") + content;
            ToolHead(id, name) + content == if id == "" then tail else "[call_id=" + id + "]" + " " + tail
  {
    assert "[call_id=" + id + "] " == "[call_id=" + id + "]" + " ";
  }

  lemma CallOpen()
    ensures ']' !in "[call_id=" && !IsSpace("[call_id="[0])
  {
  }

  lemma RestorableMeans(id: string, name: string, body: string)
    requires ToolRestorable(id, name, body)
    ensures ']' !in id && (if name == "" then !Bracketed(body) else ']' !in name)
  {
  }

  lemma ParsesTo(text: string, id: string, rest: string, name: string, body: string)
    requires TakeBracket(TrimSpace(text), "[call_id=") == (id, rest) && TakeBracket(rest, "[") == (name, body)
    requires TrimSpace(text) == "" ==> id == "" && name == "" && body == ""
    ensures ParseTool(text) == (body, id, name)
  {
    hide TakeBracket, TrimSpace;
  }

  /** Without an id, neither the name bracket nor the body is taken for one. */
  lemma NoCallId(name: string, content: string)
    requires Trimmed(name) && ToolRestorable("", name, TrimSpace(content))
    ensures var t := TrimSpace((if name == "" then "" else "[" + name + "] ") + content);
            && TakeBracket(t, "[call_id=") == ("", t)
            && (t == "" ==> TrimSpace(content) == "" && name == "")
  {
    hide TrimSpace, Index, TrimRight, Trimmed, OccursAt, IsSpace;
    if name == "" {
      assert "" + content == content;
    } else {
      assert "[" + name + "] " + content == "[" + name + "]" + " " + content;
      var head := "[" + name + "]";
      BracketTrimmed(name);
      TrimPrinted(head, content);
      FirstBracket("[", name, TrimRight(" " + content));
      NameNotId(name, TrimRight(" " + content));
    }
  }

  lemma NameNotId(name: string, tail: string)
    requires "call_id=" <= name ==> |name| == 8
    requires Index("[" + name + "]" + tail, "]") == |name| + 1
    ensures TakeBracket("[" + name + "]" + tail, "[call_id=") == ("", "[" + name + "]" + tail)
  {
    hide TrimSpace, Index;
    if "[call_id=" <= "[" + name + "]" + tail && |name| >= 8 {
      assert "call_id=" <= name by {
        var t := "[" + name + "]" + tail;
        assert forall k :: 0 <= k < 8 ==> t[k + 1] == name[k];
        assert forall k :: 0 <= k < 8 ==> "[call_id="[k + 1] == "call_id="[k];
      }
    }
  }

  lemma BracketTrimmed(name: string)
    ensures Trimmed("[" + name + "]")
  {
  }

  /** Nothing read from a bracket contains the closing bracket. */
  lemma ParsedAvoidsBracket(text: string)
    ensures ']' !in ParseTool(text).1 && ']' !in ParseTool(text).2
  {
    hide TakeBracket, TrimSpace;
    var t := TrimSpace(text);
    TakeBracketShape(t, "[call_id=");
    TakeBracketShape(TakeBracket(t, "[call_id=").1, "[");
  }

  /** A body that is read as a bracket loses its beginning. */
  lemma BodyLost(text: string, body: string)
    requires Bracketed(body)
    requires TrimSpace(text) == body || TakeBracket(TrimSpace(text), "[call_id=").1 == body
    ensures ParseTool(text).0 != body
  {
    hide TrimSpace, Index, OccursAt, TakeBracket;
    var t := TrimSpace(text);
    TakeBracketShape(t, "[call_id=");
    var rest := TakeBracket(t, "[call_id=").1;
    TakeBracketShape(rest, "[");
    BracketedShrinks(body);
    if rest != body {
      BracketedShrinks(t);
    }
  }

  lemma BracketedShrinks(body: string)
    requires Bracketed(body)
    ensures body != "" && |TakeBracket(body, "[").1| < |body|
  {
    hide *;
    BracketedMeans(body);
    assert ']' !in "[" && |"["| == 1;
    TakeBracketShape(body, "[");
  }

  lemma BracketedMeans(body: string)
    requires Bracketed(body)
    ensures "[" <= body && Index(body, "]") > 1 && body != ""
  {
  }

  lemma ToolLost(id: string, name: string, content: string)
    requires Trimmed(id) && Trimmed(name) && !ToolRestorable(id, name, TrimSpace(content))
    ensures ParseTool(ToolHead(id, name) + content) != (TrimSpace(content), id, name)
  {
    hide ParseTool, TrimSpace, Trimmed, Bracketed;
    var text := ToolHead(id, name) + content;
    ParsedAvoidsBracket(text);
    ToolHeadText(id, name, content);
    if ']' !in id && ']' !in name {
      assert "" + content == content;
      if name != "" {
        NameTakenForId(name, content);
      } else if id == "" {
        BodyLost(text, TrimSpace(content));
      } else {
        CallOpen();
        ReadsBracket("[call_id=", id, content);
        BodyLost(text, TrimSpace(content));
      }
    }
  }

  lemma NameTakenForId(name: string, content: string)
    requires name != "" && Trimmed(name) && ']' !in name && "call_id=" <= name && |name| != 8
    ensures ParseTool(ToolHead("", name) + content).1 != ""
  {
    hide TrimSpace, Index, OccursAt, TrimRight, TakeBracket, ToolHead;
    var x := name[8..];
    NameIsCallId(name, x, content);
    assert x != "" && !IsSpace(x[|x| - 1]) && ']' !in x && !IsSpace('[') && ']' !in "[call_id=";
    TakesNonBlank("[call_id=", x, content);
  }

  lemma NameIsCallId(name: string, x: string, content: string)
    requires name != "" && name == "call_id=" + x
    ensures ToolHead("", name) + content == "[call_id=" + x + "]" + " " + content
  {
    ToolHeadText("", name, content);
    hide ToolHead;
    assert "[" + name + "] " + content == "[call_id=" + x + "]" + " " + content;
  }

  lemma TakesNonBlank(open: string, x: string, rest: string)
    requires ']' !in open && x != "" && !IsSpace(x[|x| - 1]) && ']' !in x && open != "" && !IsSpace(open[0])
    ensures var t := TrimSpace(open + x + "]" + " " + rest); t != "" && TakeBracket(t, open).0 != ""
  {
    hide TrimRight, Index, OccursAt, TrimSpace;
    var head := open + x + "]";
    assert Trimmed(head);
    TrimPrinted(head, rest);
    FirstBracket(open, x, TrimRight(" " + rest));
    BracketParts(open, x, TrimRight(" " + rest));
    TrimBlank(x);
    hide IsSpace;
  }

  /** Printing and parsing give back id, name and body exactly when no ']' is in id or name, a lone name is
      not taken for an id, and a body without a name in front is not itself bracketed. */
  lemma ToolRoundTripIff(m: Message)
    requires m.role.Tool?
    ensures var id, name, body := TrimSpace(m.toolCallID), TrimSpace(m.toolName), TrimSpace(m.content);
            ToTemplate(Prepared(m)) == Template(body, "", id, name) <==> ToolRestorable(id, name, body)
  {
    var id, name := TrimSpace(m.toolCallID), TrimSpace(m.toolName);
    NoneTrimmed();
    hide TrimSpace, ParseTool, ToolHead, ToolRestorable;
    if ToolRestorable(id, name, TrimSpace(m.content)) {
      assert ParseTool(ToolHead(id, name) + m.content) == (TrimSpace(m.content), id, name) by {
        hide *;
        var tail := (if name == "" then "" else "[" + name + "] ") + m.content;
        ToolHeadText(id, name, m.content);
        RestorableMeans(id, name, TrimSpace(m.content));
        ReadsName(name, m.content);
        if id != "" {
          CallOpen();
          ReadsBracket("[call_id=", id, tail);
          ParsesTo(ToolHead(id, name) + m.content, id, TrimSpace(tail), name, TrimSpace(m.content));
        } else {
          NoCallId(name, m.content);
          ParsesTo(ToolHead(id, name) + m.content, id, TrimSpace(tail), name, TrimSpace(m.content));
        }
      }
    } else {
      ToolLost(id, name, m.content);
    }
  }

  lemma NoneTrimmed()
    ensures TrimSpace("") == ""
  {
    TrimOfTrimmed("");
  }

  // ----- Assistant messages

  lemma BlockShape()
    ensures |CallsPrefix()| == 14 && |CallsBlock()| == 15 && CallsBlock()[0] == '\n'
    ensures '\n' !in CallsPrefix() && CallsBlock()[1..] == CallsPrefix() && CallsBlock()[14] == ' '
    ensures CallsPrefix()[13] == ' ' && !IsSpace(CallsPrefix()[0])
  {
  }

  /** An occurrence behind a prefix without line breaks lies in the rest. */
  lemma OccursInRest(front: string, rest: string, sub: string, j: int)
    requires sub != "" && sub[0] !in front && OccursAt(front + rest, sub, j)
    ensures j >= |front| && OccursAt(rest, sub, j - |front|)
  {
    var s := front + rest;
    assert s[j] == s[j..j + |sub|][0];
    assert forall k :: 0 <= k < |front| ==> s[k] == front[k];
    assert s[j..j + |sub|] == rest[j - |front|..j - |front| + |sub|];
  }

  lemma OccursShift(front: string, rest: string, sub: string, k: int)
    requires OccursAt(rest, sub, k)
    ensures OccursAt(front + rest, sub, |front| + k)
  {
    assert (front + rest)[|front| + k..|front| + k + |sub|] == rest[k..k + |sub|];
  }

  /** The block prefix between body and calls: where the last one is. */
  lemma LastBlock(c: string, tc: string)
    ensures var s := c + CallsBlock() + tc;
            && OccursAt(s, CallsBlock(), |c|)
            && (!Contains(tc, CallsBlock()) ==> LastIndex(s, CallsBlock()) == |c|)
            && (Contains(tc, CallsBlock()) ==> LastIndex(s, CallsBlock()) > |c|)
  {
    BlockShape();
    var P := CallsBlock();
    hide CallsBlock, CallsPrefix, LastIndex;
    var s := c + P + tc;
    assert s[|c|..|c| + 15] == P;
    if k :| OccursAt(tc, P, k) {
      OccursShift(c + P, tc, P, k);
    } else {
      forall j | OccursAt(s, P, j) ensures j <= |c| {
        if j > |c| {
          assert s == (c + [P[0]]) + (P[1..] + tc);
          OccursTail(c + [P[0]], P[1..], tc, j);
        }
      }
    }
  }

  lemma OccursTail(front: string, mid: string, tc: string, j: int)
    requires j >= |front| && OccursAt(front + (mid + tc), CallsBlock(), j) && '\n' !in mid
    ensures Contains(tc, CallsBlock())
  {
    BlockShape();
    var P := CallsBlock();
    hide CallsBlock, CallsPrefix;
    var rest := mid + tc;
    assert (front + rest)[j..j + 15] == rest[j - |front|..j - |front| + 15];
    OccursInRest(mid, tc, P, j - |front|);
  }

  lemma TrimmedSuffix(t: string, i: nat)
    requires Trimmed(t) && i < |t|
    ensures TrimSpace(t[i..]) != "" && |TrimSpace(t[i..])| <= |t| - i
  {
    TrimBlank(t[i..]);
    assert t[i..][|t| - i - 1] == t[|t| - 1];
    hide TrimSpace;
  }

  /** Body and calls, printed with the block prefix. */
  lemma SplitsBlock(c: string, tc: string)
    requires TrimSpace(c) != "" && tc != "" && Trimmed(tc)
    ensures var r := SplitAssistant(c + CallsBlock() + tc);
            if Contains(tc, CallsBlock()) then |r.1| < |tc| else r == (TrimSpace(c), tc)
  {
    hide *;
    var c' := TrimLeft(c);
    TrimLeftText(c);
    assert c[..|c| - |c'|] + c' == c;
    BlockTrimmed(c[..|c| - |c'|], c', CallsBlock(), tc);
    LastBlock(c', tc);
    SplitsAt(c + CallsBlock() + tc, c', tc);
  }

  lemma BlockTrimmed(pre: string, c: string, P: string, tc: string)
    requires c != "" && !IsSpace(c[0]) && Blank(pre) && tc != "" && Trimmed(tc)
    ensures TrimSpace(pre + c + P + tc) == c + P + tc
  {
    assert Trimmed(c + P + tc);
    NoneIsBlank();
    hide *;
    TrimUnique(pre, c + P + tc, "");
    assert pre + c + P + tc == pre + (c + P + tc) + "";
  }

  lemma SplitsAt(text: string, c: string, tc: string)
    requires var t := c + CallsBlock() + tc;
             && TrimSpace(text) == t && LastIndex(t, CallsBlock()) >= |c|
             && (LastIndex(t, CallsBlock()) == |c| <==> !Contains(tc, CallsBlock()))
    requires Trimmed(tc)
    ensures var r := SplitAssistant(text);
            if Contains(tc, CallsBlock()) then |r.1| < |tc| else r == (TrimSpace(c), tc)
  {
    BlockShape();
    TrimOfTrimmed(tc);
    hide TrimSpace, CallsBlock, CallsPrefix, LastIndex, Contains, Trimmed;
    var t := c + CallsBlock() + tc;
    assert (c + CallsBlock() + tc)[..|c|] == c && (c + CallsBlock() + tc)[|c| + |CallsBlock()|..] == tc;
    assert 0 <= (LastIndex(t, CallsBlock()) + 15) <= |t| ==>
           |TrimSpace(t[(LastIndex(t, CallsBlock()) + 15)..])| <= |t| - (LastIndex(t, CallsBlock()) + 15);
  }

  lemma TrimLeftText(c: string)
    requires TrimSpace(c) != ""
    ensures var t := TrimLeft(c);
            t != "" && !IsSpace(t[0]) && TrimSpace(t) == TrimSpace(c) && |t| <= |c| && c == c[..|c| - |t|] + t && Blank(c[..|c| - |t|])
  {
    var t := TrimLeft(c);
    TrimLeftIs(c);
    hide TrimSpace, TrimLeft, IsSpace;
    NoneIsBlank();
    Halves(c, |c| - |t|);
    TrimPad(c[..|c| - |t|], t, "");
    assert c[..|c| - |t|] + t + "" == c;
    TrimBlank(t);
  }

  /** Calls without a body. */
  lemma SplitsPrefix(tc: string)
    requires tc != "" && Trimmed(tc)
    ensures var r := SplitAssistant(CallsPrefix() + tc);
            if Contains(tc, CallsBlock()) then |r.1| < |tc| else r == ("", tc)
  {
    BlockShape();
    assert Contains(CallsPrefix() + tc, CallsBlock()) <==> Contains(tc, CallsBlock()) by {
      BlockShape();
      var P := CallsBlock();
      hide CallsBlock, CallsPrefix;
      if k :| OccursAt(tc, P, k) {
        OccursShift(CallsPrefix(), tc, P, k);
      }
      if j :| OccursAt(CallsPrefix() + tc, P, j) {
        OccursInRest(CallsPrefix(), tc, P, j);
      }
    }
    hide CallsBlock, TrimSpace, LastIndex, Contains, CallsPrefix;
    var t := CallsPrefix() + tc;
    assert Trimmed(CallsPrefix() + ("") + tc);
    assert CallsPrefix() + "" + tc == t;
    TrimOfTrimmed(t);
    TrimOfTrimmed(tc);
    var i := LastIndex(t, CallsBlock());
    assert 0 <= (i + 15) <= |t| ==> |TrimSpace(t[(i + 15)..])| <= |t| - (i + 15);
    LastIndexFound(t, CallsBlock());
    if i >= 0 {
      OccursInRest(CallsPrefix(), tc, CallsBlock(), i);
    }
    assert t[14..] == tc && CallsPrefix() <= t;
  }

  lemma LastIndexFound(s: string, sub: string)
    requires sub != ""
    ensures LastIndex(s, sub) >= 0 <==> Contains(s, sub)
  {
    hide LastIndex;
  }

  /** A message without calls. */
  lemma SplitsPlain(c: string)
    ensures var t := TrimSpace(c);
            SplitAssistant(c) == (t, "") <==> !Contains(t, CallsBlock()) && !(CallsPrefix() <= t)
  {
    BlockShape();
    var t := TrimSpace(c);
    hide CallsBlock, TrimSpace, LastIndex, CallsPrefix, Contains;
    LastIndexFound(t, CallsBlock());
    if t != "" {
      var i := LastIndex(t, CallsBlock());
      if i >= 0 {
        assert i + 15 < |t| by {
          BlockShape();
          hide CallsBlock;
          assert t[i..i + 15][14] == t[i + 14];
        }
        TrimmedSuffix(t, i + 15);
      } else if CallsPrefix() <= t {
        assert t[13] == CallsPrefix()[13];
        TrimmedSuffix(t, 14);
      }
    } else {
      assert !Contains(t, CallsBlock()) && !(CallsPrefix() <= t) by {
        BlockShape();
        assert |CallsPrefix()| == 14 && |CallsBlock()| == 15;
      }
    }
  }

  /** Printing and parsing give back body and calls exactly when the calls do not contain the block prefix,
      or, without calls, when the body contains neither prefix where it would be found. */
  lemma CallsRoundTripIff(m: Message)
    requires m.role.Assistant?
    ensures var body, tc := TrimSpace(m.content), TrimSpace(m.toolCallsJSON);
            ToTemplate(Prepared(m)) == Template(body, tc, "", "") <==> CallsRestorable(body, tc)
  {
    var body, tc := TrimSpace(m.content), TrimSpace(m.toolCallsJSON);
    NoneTrimmed();
    hide TrimSpace, SplitAssistant, CallsBlock, CallsPrefix, Contains;
    if tc == "" {
      SplitsPlain(m.content);
    } else if body != "" {
      SplitsBlock(m.content, tc);
    } else {
      SplitsPrefix(tc);
    }
  }

  /** Calls encoded on one line always survive. */
  lemma OneLineCallsSurvive(m: Message)
    requires m.role.Assistant? && TrimSpace(m.toolCallsJSON) != "" && '\n' !in m.toolCallsJSON
    ensures ToTemplate(Prepared(m)) == Template(TrimSpace(m.content), TrimSpace(m.toolCallsJSON), "", "")
  {
    var tc := TrimSpace(m.toolCallsJSON);
    TrimIsPart(m.toolCallsJSON, '\n');
    CallsRoundTripIff(m);
    BlockShape();
    hide TrimSpace, ToTemplate, Prepared, CallsBlock, CallsPrefix, OccursAt;
    if k :| OccursAt(tc, CallsBlock(), k) {
      OccursHas(tc, CallsBlock(), k);
    }
  }

  lemma OccursHas(s: string, sub: string, k: int)
    requires sub != "" && OccursAt(s, sub, k)
    ensures sub[0] in s
  {
    assert s[k..k + |sub|][0] == s[k];
  }
}
