/** The embedding fallback of pkg/llmrunner/embed_batch.go: failed batches are halved, empty rows are asked
    for again one by one. */
module EmbedBatch {

  type Vec = seq<real>

  datatype One = OneErr | OneVec(v: Vec)

  datatype Many = ManyErr | ManyVecs(rows: seq<Vec>)

  /** The backend: its answer may depend on how many calls came before, so any pattern of errors, wrong
      lengths and empty rows is possible. */
  datatype Oracle = Oracle(one: (nat, string) -> One, many: (nat, seq<string>) -> Many)

  datatype Result = Failed | Vecs(rows: seq<Vec>)

  function Map(vec: string -> Vec, texts: seq<string>): seq<Vec> {
    seq(|texts|, i requires 0 <= i < |texts| => vec(texts[i]))
  }

  /** One text: an error or an empty vector fails. */
  function EmbedOne(o: Oracle, text: string, calls: nat): (Result, nat) {
    var r := o.one(calls, text);
    (if r.OneErr? || r.v == [] then Failed else Vecs([r.v]), calls + 1)
  }

  /** Asks again for the empty rows from `i` on. */
  function Repair(o: Oracle, texts: seq<string>, rows: seq<Vec>, i: nat, calls: nat): (Result, nat)
    requires i <= |rows| == |texts|
    decreases |rows| - i
  {
    if i == |rows| then (Vecs(rows), calls)
    else if rows[i] != [] then Repair(o, texts, rows, i + 1, calls)
    else
      match EmbedOne(o, texts[i], calls)
      case (Failed, calls') => (Failed, calls')
      case (Vecs(one), calls') => if one == [] then (Failed, calls') else Repair(o, texts, rows[i := one[0]], i + 1, calls')
  }

  function EmbedRec(o: Oracle, texts: seq<string>, calls: nat): (Result, nat)
    decreases |texts|, 1
  {
    if |texts| == 0 then (Vecs([]), calls)
    else if |texts| == 1 then EmbedOne(o, texts[0], calls)
    else
      var r := o.many(calls, texts);
      if r.ManyErr? || |r.rows| != |texts| then SplitAndEmbed(o, texts, calls + 1)
      else Repair(o, texts, r.rows, 0, calls + 1)
  }

  function SplitAndEmbed(o: Oracle, texts: seq<string>, calls: nat): (Result, nat)
    requires |texts| >= 1
    decreases |texts|, if |texts| == 1 then 2 else 0
  {
    if |texts| == 1 then EmbedRec(o, texts, calls)
    else
      var mid := |texts| / 2;
      match EmbedRec(o, texts[..mid], calls)
      case (Failed, calls') => (Failed, calls')
      case (Vecs(a), calls') =>
        match EmbedRec(o, texts[mid..], calls')
        case (Failed, calls'') => (Failed, calls'')
        case (Vecs(b), calls'') => (Vecs(a + b), calls'')
  }

  /** The batches from text `i` on, after `out`. */
  function EmbedFrom(o: Oracle, texts: seq<string>, size: nat, i: nat, out: seq<Vec>, calls: nat): (Result, nat)
    requires 1 <= size
    decreases |texts| - i
  {
    if i >= |texts| then (if |out| == |texts| then Vecs(out) else Failed, calls)
    else
      var end := if i + size < |texts| then i + size else |texts|;
      match EmbedRec(o, texts[i..end], calls)
      case (Failed, calls') => (Failed, calls')
      case (Vecs(part), calls') => EmbedFrom(o, texts, size, i + size, out + part, calls')
  }

  function EmbedTexts(o: Oracle, texts: seq<string>, batchSize: int, calls: nat): (Result, nat) {
    if |texts| == 0 then (Vecs([]), calls)
    else EmbedFrom(o, texts, if batchSize <= 0 then 32 else batchSize, 0, [], calls)
  }

  // ----- The same as imperative code

  class Backend {
    const o: Oracle
    var calls: nat

    constructor (o: Oracle)
      ensures this.o == o && calls == 0
    {
      this.o := o;
      calls := 0;
    }

    method Embed(text: string) returns (r: One)
      modifies this
      ensures r == o.one(old(calls), text) && calls == old(calls) + 1
    {
      r := o.one(calls, text);
      calls := calls + 1;
    }

    method EmbedBatch(texts: seq<string>) returns (r: Many)
      modifies this
      ensures r == o.many(old(calls), texts) && calls == old(calls) + 1
    {
      r := o.many(calls, texts);
      calls := calls + 1;
    }

    method EmbedRecursive(texts: seq<string>) returns (r: Result)
      modifies this
      ensures (r, calls) == EmbedRec(o, texts, old(calls))
      decreases |texts|, 1
    {
      if |texts| == 0 {
        return Vecs([]);
      }
      if |texts| == 1 {
        var one := Embed(texts[0]);
        return if one.OneErr? || |one.v| == 0 then Failed else Vecs([one.v]);
      }
      var batch := EmbedBatch(texts);
      if batch.ManyErr? || |batch.rows| != |texts| {
        r := SplitEmbed(texts);
        return;
      }
      r := RepairRows(texts, batch.rows);
    }

    method RepairRows(texts: seq<string>, rows0: seq<Vec>) returns (r: Result)
      requires |rows0| == |texts|
      modifies this
      ensures (r, calls) == Repair(o, texts, rows0, 0, old(calls))
      decreases |texts|, 0
    {
      var rows := rows0;
      for i := 0 to |rows|
        invariant |rows| == |texts| && Repair(o, texts, rows, i, calls) == Repair(o, texts, rows0, 0, old(calls))
      {
        if |rows[i]| == 0 {
          var one := Embed(texts[i]);
          if one.OneErr? || |one.v| == 0 {
            return Failed;
          }
          rows := rows[i := one.v];
        }
      }
      return Vecs(rows);
    }

    method SplitEmbed(texts: seq<string>) returns (r: Result)
      requires |texts| >= 1
      modifies this
      ensures (r, calls) == SplitAndEmbed(o, texts, old(calls))
      decreases |texts|, if |texts| == 1 then 2 else 0
    {
      if |texts| == 1 {
        r := EmbedRecursive(texts);
        return;
      }
      var mid := |texts| / 2;
      var a := EmbedRecursive(texts[..mid]);
      if a.Failed? {
        return Failed;
      }
      var b := EmbedRecursive(texts[mid..]);
      return if b.Failed? then Failed else Vecs(a.rows + b.rows);
    }

    method EmbedTextsBatches(texts: seq<string>, batchSize: int) returns (r: Result)
      modifies this
      ensures (r, calls) == EmbedTexts(o, texts, batchSize, old(calls))
    {
      if |texts| == 0 {
        return Vecs([]);
      }
      var size := if batchSize <= 0 then 32 else batchSize;
      hide EmbedRec;
      var out, i := [], 0;
      while i < |texts|
        invariant EmbedFrom(o, texts, size, i, out, calls) == EmbedFrom(o, texts, size, 0, [], old(calls))
      {
        var end := if i + size < |texts| then i + size else |texts|;
        var part := EmbedRecursive(texts[i..end]);
        if part.Failed? {
          return Failed;
        }
        out := out + part.rows;
        i := i + size;
      }
      return if |out| != |texts| then Failed else Vecs(out);
    }
  }

  // ----- Main results

  /** A row the backend returns for a text is the vector of that text; it may still fail or return nothing. */
  ghost predicate Honest(o: Oracle, vec: string -> Vec) {
    && (forall k, t :: o.one(k, t).OneVec? && o.one(k, t).v != [] ==> o.one(k, t).v == vec(t))
    && (forall k, ts :: o.many(k, ts).ManyVecs? && |o.many(k, ts).rows| == |ts| ==> RowsHonest(o.many(k, ts).rows, vec, ts))
  }

  ghost predicate RowsHonest(rows: seq<Vec>, vec: string -> Vec, texts: seq<string>) {
    |rows| == |texts| && forall i :: 0 <= i < |rows| && rows[i] != [] ==> rows[i] == vec(texts[i])
  }

  /** Every text can be embedded on its own. */
  ghost predicate SinglesWork(o: Oracle) {
    forall k, t :: o.one(k, t).OneVec? && o.one(k, t).v != []
  }

  /** What the result of embedding `texts` must be. */
  ghost predicate ResultOk(o: Oracle, vec: string -> Vec, texts: seq<string>, r: Result) {
    && (r.Vecs? ==> r.rows == Map(vec, texts))
    && (SinglesWork(o) ==> r.Vecs?)
  }

  lemma {:induction false} RepairIsMap(o: Oracle, vec: string -> Vec, texts: seq<string>, rows: seq<Vec>, i: nat, calls: nat)
    requires Honest(o, vec) && i <= |rows| && RowsHonest(rows, vec, texts)
    requires forall k :: 0 <= k < i ==> rows[k] != []
    ensures var (r, calls') := Repair(o, texts, rows, i, calls);
            ResultOk(o, vec, texts, r) && calls <= calls' <= calls + |rows| - i
    decreases |rows| - i
  {
    hide SinglesWork;
    if i < |rows| {
      if rows[i] != [] {
        RepairIsMap(o, vec, texts, rows, i + 1, calls);
      } else {
        var one := o.one(calls, texts[i]);
        assert SinglesWork(o) ==> one.OneVec? && one.v != [] by { SinglesMeans(o, calls, texts[i]); }
        if one.OneVec? && one.v != [] {
          RepairIsMap(o, vec, texts, rows[i := one.v], i + 1, calls + 1);
        }
      }
    }
  }

  lemma SinglesMeans(o: Oracle, k: nat, t: string)
    ensures SinglesWork(o) ==> o.one(k, t).OneVec? && o.one(k, t).v != []
  {
  }

  lemma MapAppend(vec: string -> Vec, a: seq<string>, b: seq<string>)
    ensures Map(vec, a + b) == Map(vec, a) + Map(vec, b)
  {
  }

  lemma EmbedOneIsMap(o: Oracle, vec: string -> Vec, text: string, calls: nat)
    requires Honest(o, vec)
    ensures ResultOk(o, vec, [text], EmbedOne(o, text, calls).0)
  {
    SinglesMeans(o, calls, text);
    hide SinglesWork;
    assert Map(vec, [text]) == [vec(text)];
  }

  /** Whatever fails on the way, a success is the vector of each text at its place; it is a success whenever
      texts can be embedded one by one; and n texts cost at most 2n - 1 calls. */
  lemma {:induction false} EmbedRecIsMap(o: Oracle, vec: string -> Vec, texts: seq<string>, calls: nat)
    requires Honest(o, vec)
    ensures var (r, calls') := EmbedRec(o, texts, calls);
            ResultOk(o, vec, texts, r) && calls <= calls' && (texts != [] ==> calls' - calls <= 2 * |texts| - 1)
            && (texts == [] ==> calls' == calls)
    decreases |texts|, 1
  {
    hide ResultOk, Repair, SplitAndEmbed;
    if |texts| == 0 {
      EmptyOk(o, vec);
    } else if |texts| == 1 {
      EmbedOneIsMap(o, vec, texts[0], calls);
      assert texts == [texts[0]];
    } else {
      SplitIsMap(o, vec, texts, calls + 1);
      var m := o.many(calls, texts);
      if m.ManyVecs? && |m.rows| == |texts| {
        RepairIsMap(o, vec, texts, m.rows, 0, calls + 1);
      }
    }
  }

  lemma EmptyOk(o: Oracle, vec: string -> Vec)
    ensures ResultOk(o, vec, [], Vecs([]))
  {
  }

  lemma {:induction false} SplitIsMap(o: Oracle, vec: string -> Vec, texts: seq<string>, calls: nat)
    requires Honest(o, vec) && |texts| >= 2
    ensures var (r, calls') := SplitAndEmbed(o, texts, calls);
            ResultOk(o, vec, texts, r) && calls <= calls' && calls' - calls <= 2 * |texts| - 2
    decreases |texts|, 0
  {
    hide EmbedRec, Honest, SinglesWork;
    var mid := |texts| / 2;
    var a, b := texts[..mid], texts[mid..];
    EmbedRecIsMap(o, vec, a, calls);
    EmbedRecIsMap(o, vec, b, EmbedRec(o, a, calls).1);
    assert texts == a + b;
    MapAppend(vec, a, b);
  }

  lemma {:induction false} EmbedFromIsMap(o: Oracle, vec: string -> Vec, texts: seq<string>, size: nat, i: nat, out: seq<Vec>,
                                          calls: nat)
    requires Honest(o, vec) && 1 <= size
    requires out == Map(vec, texts[..if i < |texts| then i else |texts|])
    ensures var (r, calls') := EmbedFrom(o, texts, size, i, out, calls);
            ResultOk(o, vec, texts, r) && calls <= calls'
            && (i < |texts| ==> calls' - calls <= 2 * (|texts| - i) - 1) && (i >= |texts| ==> calls' == calls)
    decreases |texts| - i
  {
    hide EmbedRec, Honest, SinglesWork;
    if i >= |texts| {
      assert texts[..|texts|] == texts;
    } else {
      var end := if i + size < |texts| then i + size else |texts|;
      EmbedRecIsMap(o, vec, texts[i..end], calls);
      var (r, calls') := EmbedRec(o, texts[i..end], calls);
      if r.Vecs? {
        MapAppend(vec, texts[..i], texts[i..end]);
        assert texts[..end] == texts[..i] + texts[i..end];
        EmbedFromIsMap(o, vec, texts, size, i + size, out + r.rows, calls');
      }
    }
  }

  /** The same for the batched form. */
  lemma EmbedTextsIsMap(o: Oracle, vec: string -> Vec, texts: seq<string>, batchSize: int, calls: nat)
    requires Honest(o, vec)
    ensures var (r, calls') := EmbedTexts(o, texts, batchSize, calls);
            ResultOk(o, vec, texts, r) && calls <= calls' && (texts != [] ==> calls' - calls <= 2 * |texts| - 1)
  {
    hide EmbedFrom, Honest;
    EmptyOk(o, vec);
    assert Map(vec, texts[..0]) == [];
    if |texts| > 0 {
      EmbedFromIsMap(o, vec, texts, if batchSize <= 0 then 32 else batchSize, 0, [], calls);
    }
  }
}
