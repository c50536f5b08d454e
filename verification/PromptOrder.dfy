/** What the prompt is made of, and in which order (pkg/prompt/chat_context.go). */
module PromptOrder {
  import opened Runes
  import opened Chat
  import opened Budget

  /** `text` without a final blank line ends in a rune that is not white space. */
  ghost predicate EndsInBreak(text: string) {
    |text| >= 3 && text[|text| - 2..] == "\n\n" && !IsSpace(text[|text| - 3])
  }

  lemma {:induction false} BlocksEnd(blocks: seq<Block>)
    ensures BlocksText(blocks) != "" ==> EndsInBreak(BlocksText(blocks))
  {
    if blocks != [] {
      var front, last := blocks[..|blocks| - 1], blocks[|blocks| - 1];
      BlocksEnd(front);
      BlockEnds(last, |front|);
      hide BlockText, EndsInBreak;
      EndsAppend(BlocksText(front), BlockText(last, |front|));
    }
  }

  lemma EndsAppend(a: string, t: string)
    requires (a == "" || EndsInBreak(a)) && (t == "" || EndsInBreak(t))
    ensures a + t == "" || EndsInBreak(a + t)
  {
    hide IsSpace;
    if t == "" {
      assert a + t == a;
    } else {
      assert (a + t)[|a + t| - 2..] == t[|t| - 2..] && (a + t)[|a + t| - 3] == t[|t| - 3];
    }
  }

  lemma BlockEnds(b: Block, i: nat)
    ensures var t := BlockText(b, i); t == "" || EndsInBreak(t)
  {
    hide TrimSpace, TitleOf, IsSpace;
    var body := TrimSpace(b.body);
    if body != "" {
      assert Trimmed(body);
      FormatEnds(TitleOf(b, i), body);
    }
  }

  lemma FormatEnds(title: string, body: string)
    requires body != "" && Trimmed(body)
    ensures EndsInBreak(Format(title, body))
  {
    hide IsSpace;
    var t := Format(title, body);
    assert t[|t| - 3] == body[|body| - 1];
  }

  /** The context is a system message: the instruction and, below it, the text of the blocks without its last break. */
  lemma ContextIs(blocks: seq<Block>)
    ensures blocks == [] ==> ContextMessage(blocks) == Nil
    ensures blocks != [] ==>
              && ContextMessage(blocks).Msg?
              && var m := ContextMessage(blocks).m;
                 && m == NewMessage(m.content, System)
                 && if BlocksText(blocks) == "" then m.content == TrimSpace(Hierarchy())
                    else m.content + "\n\n" == Hierarchy() + "\n\n" + BlocksText(blocks)
  {
    hide *;
    BlocksEnd(blocks);
    InstructionBegins();
    ContextTextOf(blocks);
    ContextMessageOf(blocks);
    var h, t := Hierarchy(), BlocksText(blocks);
    if t == "" {
      assert h + "\n\n" + "" == "" + h + "\n\n";
      TrimPad("", h, "\n\n") by { BreakIsBlank(); }
      InstructionIsText(h);
    } else {
      WholeText(h, t);
    }
  }

  lemma BreakIsBlank()
    ensures Blank("") && Blank("\n\n")
  {
  }

  lemma InstructionBegins()
    ensures |Hierarchy()| == 131 && !IsSpace(Hierarchy()[0])
  {
  }

  lemma InstructionIsText(h: string)
    requires h != "" && !IsSpace(h[0])
    ensures TrimSpace(h) != ""
  {
    TrimBlank(h);
    hide TrimSpace, IsSpace;
  }

  lemma WholeText(h: string, t: string)
    requires h != "" && !IsSpace(h[0]) && EndsInBreak(t)
    ensures var c := TrimSpace(h + "\n\n" + t); c != "" && c + "\n\n" == h + "\n\n" + t
  {
    BreakIsBlank();
    hide IsSpace, TrimSpace;
    var x := t[..|t| - 2];
    Halves(t, |t| - 2);
    var y := h + "\n\n" + x;
    assert Trimmed(y);
    Assoc(h + "\n\n", x, "\n\n");
    assert "" + y + "\n\n" == y + "\n\n";
    TrimUnique("", y, "\n\n");
  }

  lemma ContextTextOf(blocks: seq<Block>)
    ensures ContextText(blocks) == TrimSpace(Hierarchy() + "\n\n" + BlocksText(blocks))
  {
    hide TrimSpace, Hierarchy, BlocksText;
  }

  lemma ContextMessageOf(blocks: seq<Block>)
    ensures blocks == [] || ContextText(blocks) == "" ==> ContextMessage(blocks) == Nil
    ensures blocks != [] && ContextText(blocks) != "" ==>
              ContextMessage(blocks) == Msg(NewMessage(ContextText(blocks), System))
    ensures NewMessage(ContextText(blocks), System).content == ContextText(blocks)
  {
    hide ContextText, Hierarchy, TrimSpace, BlocksText;
  }

  /**
   * The system policy comes first, then the history, then the context of the documents if there are any blocks, and the
   * instruction of the user last; what is missing leaves no gap.
   */
  lemma PromptIs(system: Entry, history: seq<Entry>, user: Entry, blocks: seq<Block>)
    ensures var out := Assemble(system, history, user, blocks);
            var begin := if system.Nil? then 0 else 1;
            var end := begin + |history| + if blocks == [] then 0 else 1;
            && |out| == end + (if user.Nil? then 0 else 1)
            && (system.Msg? ==> out[0] == system) && (user.Msg? ==> out[end] == user)
            && out[begin..begin + |history|] == history
            && (blocks != [] ==> out[end - 1] == ContextMessage(blocks) && out[end - 1].Msg?)
  {
    hide *;
    ContextIs(blocks);
    AssembledOf(system, history, user, blocks);
    InOrder(One(system), history, One(ContextMessage(blocks)), One(user));
    OneIs(system);
    OneIs(ContextMessage(blocks));
    OneIs(user);
  }

  /** A message that may be missing. */
  function One(e: Entry): seq<Entry> {
    if e.Nil? then [] else [e]
  }

  lemma OneIs(e: Entry)
    ensures One(e) == if e.Nil? then [] else [e]
    ensures |One(e)| == (if e.Nil? then 0 else 1) && (e.Msg? ==> One(e)[0] == e)
  {
  }

  lemma AssembledOf(system: Entry, history: seq<Entry>, user: Entry, blocks: seq<Block>)
    ensures Assemble(system, history, user, blocks) == One(system) + history + One(ContextMessage(blocks)) + One(user)
  {
    hide ContextMessage;
  }

  lemma InOrder<T>(a: seq<T>, b: seq<T>, c: seq<T>, d: seq<T>)
    ensures var out, n := a + b + c + d, |a| + |b|;
            && |out| == n + |c| + |d| && out[|a|..n] == b && (a != [] ==> out[0] == a[0])
            && (c != [] ==> out[n] == c[0]) && (d != [] ==> out[n + |c|] == d[0])
  {
  }
}
