/** What pkg/prompt/budget.go drops, block by block: its metrics are a ledger of the runes that are lost. */
module BudgetLedger {
  import opened Runes
  import opened Chat
  import opened Decimal
  import opened Tokens
  import opened Budget

  /** A block is kept whole, or so many runes of its trimmed body are, or none. */
  datatype Fate = Whole | CutAt(kept: nat) | Gone

  function BodyOf(b: Block): string {
    TrimSpace(b.body)
  }

  predicate FateOk(b: Block, f: Fate) {
    && (f.CutAt? ==> 0 < f.kept < |BodyOf(b)|)
    && (BodyOf(b) == "" ==> f.Gone?)
  }

  /** What is left of a block. */
  function Left(b: Block, f: Fate): seq<Block>
    requires FateOk(b, f)
  {
    match f
    case Whole => [b]
    case CutAt(kept) => [b.(body := BodyOf(b)[..kept] + CutNotice())]
    case Gone => []
  }

  /** The runes of its body that are lost. */
  function Lost(b: Block, f: Fate): nat
    requires FateOk(b, f)
  {
    match f
    case Whole => 0
    case CutAt(kept) => |BodyOf(b)| - kept
    case Gone => |BodyOf(b)|
  }

  /**
   * The fate of a block when so many runes are free: whole exactly when its text fits, with 7 runes around title and body;
   * otherwise gone when fewer than 180 runes are free or fewer than 80 remain for the body, and else cut so that it
   * fills the free runes, the notice of 47 runes included.
   */
  predicate FateIs(b: Block, f: Fate, free: int) {
    var title, body := |TrimSpace(b.title)|, |BodyOf(b)|;
    if body == 0 then f.Gone?
    else if title + body + 7 <= free then f.Whole?
    else if free < 180 || free - (title + 7) < 80 then f.Gone?
    else f == CutAt(free - (title + 7) - 47)
  }

  /** The runes that what is left of a block takes when it is printed. */
  function Takes(b: Block, f: Fate): nat {
    match f
    case Whole => |TrimSpace(b.title)| + |BodyOf(b)| + 7
    case CutAt(kept) => |TrimSpace(b.title)| + kept + 47 + 7
    case Gone => 0
  }

  function Taken(blocks: seq<Block>, fates: seq<Fate>): nat
    requires |fates| == |blocks|
  {
    if blocks == [] then 0
    else
      var n := |blocks| - 1;
      Taken(blocks[..n], fates[..n]) + Takes(blocks[n], fates[n])
  }

  /** Every block has the fate that the runes free before it give it. */
  ghost predicate Fated(blocks: seq<Block>, fates: seq<Fate>, available: int) {
    |fates| == |blocks| && forall i: nat :: i < |blocks| ==> FateAt(blocks, fates, available, i)
  }

  ghost predicate FateAt(blocks: seq<Block>, fates: seq<Fate>, available: int, i: nat)
    requires i < |blocks| == |fates|
  {
    FateIs(blocks[i], fates[i], available - Taken(blocks[..i], fates[..i]))
  }

  /** A block that is cut fills what is free. */
  lemma CutFills(b: Block, f: Fate, free: int)
    requires FateIs(b, f, free) && f.CutAt?
    ensures Takes(b, f) == free && FateOk(b, f)
  {
    hide TrimSpace;
  }

  ghost predicate FatesOk(blocks: seq<Block>, fates: seq<Fate>) {
    |fates| == |blocks| && forall i :: 0 <= i < |blocks| ==> FateOk(blocks[i], fates[i])
  }

  ghost function AllLeft(blocks: seq<Block>, fates: seq<Fate>): seq<Block>
    requires FatesOk(blocks, fates)
  {
    if blocks == [] then []
    else
      var n := |blocks| - 1;
      AllLeft(blocks[..n], fates[..n]) + Left(blocks[n], fates[n])
  }

  /** What the blocks lose, one number each. */
  ghost function Losses(blocks: seq<Block>, fates: seq<Fate>): (losses: seq<nat>)
    requires FatesOk(blocks, fates)
    ensures |losses| == |blocks|
  {
    seq(|blocks|, i requires 0 <= i < |blocks| => Lost(blocks[i], fates[i]))
  }

  /** A path that keeps nothing counts whole bodies, white space and blank blocks included. */
  function RawBodies(blocks: seq<Block>): (losses: seq<nat>)
    ensures |losses| == |blocks|
  {
    seq(|blocks|, i requires 0 <= i < |blocks| => |blocks[i].body|)
  }

  // ----- Sums

  function Sum(losses: seq<nat>): nat {
    if losses == [] then 0 else Sum(losses[..|losses| - 1]) + losses[|losses| - 1]
  }

  /** The losses of the blocks that go by a key. */
  function SumBy(keyOf: Block -> string, key: string, blocks: seq<Block>, losses: seq<nat>): nat
    requires |losses| == |blocks|
  {
    if blocks == [] then 0
    else
      var n := |blocks| - 1;
      SumBy(keyOf, key, blocks[..n], losses[..n]) + if keyOf(blocks[n]) == key then losses[n] else 0
  }

  function At(m: map<string, int>, key: string): int {
    if key in m then m[key] else 0
  }

  /** The metrics hold the losses: in all, of each file and of each source. */
  ghost predicate Ledger(m: Metrics, blocks: seq<Block>, losses: seq<nat>)
    requires |losses| == |blocks|
  {
    && m.total == Sum(losses)
    && (forall key :: At(m.byFile, key) == SumBy(FileKey, key, blocks, losses))
    && (forall key :: At(m.bySource, key) == SumBy(SourceKey, key, blocks, losses))
  }

  lemma NoLedger()
    ensures Ledger(NoDrops, [], [])
  {
  }

  lemma WithDropAt(m: Metrics, b: Block, n: nat)
    ensures var next := WithDrop(m, b, n);
            && next.total == m.total + n
            && (forall key :: At(next.byFile, key) == At(m.byFile, key) + if FileKey(b) == key then n else 0)
            && (forall key :: At(next.bySource, key) == At(m.bySource, key) + if SourceKey(b) == key then n else 0)
  {
    hide FileKey, SourceKey;
  }

  lemma SumSnoc(losses: seq<nat>, n: nat)
    ensures Sum(losses + [n]) == Sum(losses) + n
  {
    assert (losses + [n])[..|losses|] == losses;
  }

  lemma SumBySnoc(keyOf: Block -> string, key: string, blocks: seq<Block>, losses: seq<nat>, b: Block, n: nat)
    requires |losses| == |blocks|
    ensures SumBy(keyOf, key, blocks + [b], losses + [n]) == SumBy(keyOf, key, blocks, losses) + if keyOf(b) == key then n else 0
  {
    assert (losses + [n])[..|losses|] == losses && (blocks + [b])[..|blocks|] == blocks;
  }

  lemma LedgerSnoc(m: Metrics, blocks: seq<Block>, losses: seq<nat>, b: Block, n: nat)
    requires |losses| == |blocks| && Ledger(m, blocks, losses)
    ensures Ledger(WithDrop(m, b, n), blocks + [b], losses + [n])
  {
    hide WithDrop, Sum, SumBy, FileKey, SourceKey, At;
    var next := WithDrop(m, b, n);
    WithDropAt(m, b, n);
    SumSnoc(losses, n);
    forall key
      ensures At(next.byFile, key) == SumBy(FileKey, key, blocks + [b], losses + [n])
    {
      SumBySnoc(FileKey, key, blocks, losses, b, n);
    }
    forall key
      ensures At(next.bySource, key) == SumBy(SourceKey, key, blocks + [b], losses + [n])
    {
      SumBySnoc(SourceKey, key, blocks, losses, b, n);
    }
  }

  // ----- One block, all blocks

  /** One round of the manager's loop decides the fate of a block and books its loss and its size. */
  lemma ConsiderFate(st: State, b: Block, available: int) returns (f: Fate)
    ensures FateOk(b, f) && FateIs(b, f, available - st.used)
    ensures Consider(st, b, available) == State(st.out + Left(b, f), st.used + Takes(b, f), WithDrop(st.metrics, b, Lost(b, f)))
  {
    hide TrimSpace, WithDrop;
    var title, body := TrimSpace(b.title), TrimSpace(b.body);
    var room := available - st.used;
    NoLoss(st.metrics, b);
    assert st.out + [] == st.out;
    f := Gone;
    if body != "" {
      if |Format(title, body)| <= room {
        f := Whole;
      } else if room >= 180 && room - |Format(title, "")| >= 80 {
        f := CutAt(room - |Format(title, "")| - 47);
        NoticeIsText(body[..f.kept]);
      }
    }
  }

  /** A cut body is not blank. */
  lemma NoticeIsText(front: string)
    ensures TrimSpace(front + CutNotice()) != ""
  {
    hide TrimSpace, CutNotice;
    NoticeDot();
    var n := CutNotice();
    TrimBlank(front + n);
    assert (front + n)[|front| + 2] == n[2];
  }

  lemma NoticeDot()
    ensures CutNotice()[2] == '.' && !IsSpace('.')
  {
  }

  lemma NoLoss(m: Metrics, b: Block)
    ensures WithDrop(m, b, 0) == m
  {
  }

  lemma FatesSnoc(blocks: seq<Block>, fates: seq<Fate>, b: Block, f: Fate)
    requires FatesOk(blocks, fates) && FateOk(b, f)
    ensures FatesOk(blocks + [b], fates + [f])
    ensures AllLeft(blocks + [b], fates + [f]) == AllLeft(blocks, fates) + Left(b, f)
    ensures Losses(blocks + [b], fates + [f]) == Losses(blocks, fates) + [Lost(b, f)]
    ensures Taken(blocks + [b], fates + [f]) == Taken(blocks, fates) + Takes(b, f)
  {
    hide FateOk, Left, Lost, Takes;
    assert (blocks + [b])[..|blocks|] == blocks && (fates + [f])[..|blocks|] == fates;
  }

  lemma FatedSnoc(blocks: seq<Block>, fates: seq<Fate>, b: Block, f: Fate, available: int)
    requires Fated(blocks, fates, available) && FateIs(b, f, available - Taken(blocks, fates))
    ensures Fated(blocks + [b], fates + [f], available)
  {
    hide FateAt;
    forall i: nat | i < |blocks + [b]|
      ensures FateAt(blocks + [b], fates + [f], available, i)
    {
      FateAtSame(blocks, fates, b, f, available, i);
    }
  }

  lemma FateAtSame(blocks: seq<Block>, fates: seq<Fate>, b: Block, f: Fate, available: int, i: nat)
    requires i <= |blocks| == |fates|
    requires if i < |blocks| then FateAt(blocks, fates, available, i) else FateIs(b, f, available - Taken(blocks, fates))
    ensures FateAt(blocks + [b], fates + [f], available, i)
  {
    hide FateIs, Taken;
    SameFront(blocks, b, i);
    SameFront(fates, f, i);
  }

  lemma SameFront<T>(xs: seq<T>, x: T, i: nat)
    requires i <= |xs|
    ensures (xs + [x])[..i] == xs[..i] && (i < |xs| ==> (xs + [x])[i] == xs[i]) && xs[..|xs|] == xs && (xs + [x])[|xs|] == x
  {
  }

  lemma {:induction false} AllFates(blocks: seq<Block>, available: int) returns (fates: seq<Fate>)
    ensures FatesOk(blocks, fates) && Fated(blocks, fates, available)
    ensures var st := ConsiderAll(blocks, available);
            && st.out == AllLeft(blocks, fates) && st.used == Taken(blocks, fates)
            && Ledger(st.metrics, blocks, Losses(blocks, fates))
    decreases |blocks|
  {
    hide Consider, FateOk, FateIs, Ledger, Left, Lost, Takes;
    fates := [];
    if blocks == [] {
      NoLedger();
    } else {
      var front, b := blocks[..|blocks| - 1], blocks[|blocks| - 1];
      fates := AllFates(front, available);
      var st := ConsiderAll(front, available);
      var f := ConsiderFate(st, b, available);
      assert front + [b] == blocks;
      FatedSnoc(front, fates, b, f, available);
      hide ConsiderAll, AllLeft, Losses, FatesOk, Fated, Taken;
      LedgerSnoc(st.metrics, front, Losses(front, fates), b, Lost(b, f));
      FatesSnoc(front, fates, b, f);
      ConsiderAllNext(blocks, available);
      fates := fates + [f];
    }
  }

  lemma ConsiderAllNext(blocks: seq<Block>, available: int)
    requires blocks != []
    ensures ConsiderAll(blocks, available)
         == Consider(ConsiderAll(blocks[..|blocks| - 1], available), blocks[|blocks| - 1], available)
  {
    hide Consider;
  }

  lemma {:induction false} DropAllLedger(blocks: seq<Block>)
    ensures Ledger(DropAll(blocks), blocks, RawBodies(blocks))
    decreases |blocks|
  {
    hide Ledger, WithDrop;
    if blocks == [] {
      NoLedger();
    } else {
      var front, b := blocks[..|blocks| - 1], blocks[|blocks| - 1];
      DropAllLedger(front);
      LedgerSnoc(DropAll(front), front, RawBodies(front), b, |b.body|);
      assert front + [b] == blocks && RawBodies(blocks) == RawBodies(front) + [|b.body|];
    }
  }

  // ----- Main result

  /** The runes for documents: two for each token that is left beside the other messages and 512 tokens of output, less the
      131 of the instruction. */
  function FreeRunes(maxTokens: int, system: Entry, history: seq<Entry>, user: Entry): int {
    (maxTokens - SumTokens(Assemble(system, history, user, [])) - 512) * 2 - 131
  }

  /**
   * What becomes of every block, and that the metrics account for every rune. With room for documents each block has the
   * fate that the runes free before it give it, and what its trimmed body loses is counted in all, for its file and for its
   * source; a blank block counts nothing. Without room all blocks go, and whole bodies are counted, blank ones too.
   */
  lemma BudgetIsLedger(maxTokens: int, system: Entry, history: seq<Entry>, user: Entry, blocks: seq<Block>)
    returns (fates: seq<Fate>)
    ensures var free := FreeRunes(maxTokens, system, history, user);
            FatesOk(blocks, fates) && Fated(blocks, fates, free)
    ensures var (out, metrics) := ApplyBudget(maxTokens, system, history, user, blocks);
            if blocks == [] || maxTokens <= 0 then out == blocks && metrics == NoDrops
            else if FreeRunes(maxTokens, system, history, user) > 0 then
              out == AllLeft(blocks, fates) && Ledger(metrics, blocks, Losses(blocks, fates))
            else out == [] && Ledger(metrics, blocks, RawBodies(blocks))
  {
    hide Ledger, ConsiderAll, DropAll, SumTokens, Assemble, AllLeft, FatesOk, Fated;
    fates := AllFates(blocks, FreeRunes(maxTokens, system, history, user));
    DropAllLedger(blocks);
  }

  /** The text of the prompt is that of its blocks with a body, each under its title, or its number when it has none. */
  lemma {:induction false} ContextShows(blocks: seq<Block>, b: Block)
    ensures var title := TrimSpace(b.title);
            BlocksText(blocks + [b]) == BlocksText(blocks) +
              if BodyOf(b) == "" then ""
              else "### " + (if title == "" then "Контекст " + Dec(|blocks| + 1) else title) + "\n" + BodyOf(b) + "\n\n"
    ensures BlocksText([]) == ""
  {
    hide TrimSpace, Dec;
    assert (blocks + [b])[..|blocks|] == blocks;
  }
}
