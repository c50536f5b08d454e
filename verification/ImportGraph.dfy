/**
 * What the steps of a sync do to the import graph of internal/service/index.go: who is listed as an importer,
 * when the two directions of the graph agree, and whose imports a path has.
 */
module ImportGraph {
  import opened Options
  import opened Runes
  import opened ChunkIndex
  import opened RepoIndex

  function ImportsOf(g: Option<Graph>, path: string): seq<string> {
    if g.Some? && path in g.value.imports then g.value.imports[path] else []
  }

  function ImportersOf(g: Option<Graph>, imp: string): seq<string> {
    if g.Some? then ListOf(g.value.importedBy, imp) else []
  }

  /** The path is an importer of exactly what it imports. */
  ghost predicate Exact(g: Option<Graph>, path: string) {
    forall imp :: path in ImportersOf(g, imp) <==> imp in Names(ImportsOf(g, path))
  }

  // ----- Steps

  /** An upsert links its chunk, a removal unlinks the chunk it removes. */
  datatype Step = Link(c: Chunk) | Unlink(c: Chunk)

  function Applied(g: Option<Graph>, s: Step): Option<Graph> {
    if s.Link? then Linked(g, s.c) else Unlinked(g, s.c)
  }

  function GraphAfter(g: Option<Graph>, steps: seq<Step>): Option<Graph> {
    if steps == [] then g else Applied(GraphAfter(g, steps[..|steps| - 1]), steps[|steps| - 1])
  }

  predicate On(s: Step, path: string) {
    path != "" && TrimSpace(s.c.path) == path
  }

  predicate Mentions(s: Step, path: string, imp: string) {
    On(s, path) && imp in Names(s.c.imports)
  }

  lemma {:induction false} LinkAllAdds(importers: map<string, seq<string>>, imps: seq<string>, path: string, imp: string, p: string)
    ensures p in ListOf(LinkAll(importers, imps, path), imp) <==>
              p in ListOf(importers, imp) || (p == path && imp in Names(imps))
    decreases |imps|
  {
    hide TrimSpace;
    if imps != [] {
      LinkAllAdds(importers, imps[..|imps| - 1], path, imp, p);
    }
  }

  lemma {:induction false} UnlinkAllRemoves(importers: map<string, seq<string>>, imps: seq<string>, path: string, imp: string, p: string)
    ensures p in ListOf(UnlinkAll(importers, imps, path), imp) <==>
              p in ListOf(importers, imp) && !(p == path && imp in Names(imps))
    decreases |imps|
  {
    hide TrimSpace, RemoveString;
    if imps != [] {
      var front, last := imps[..|imps| - 1], TrimSpace(imps[|imps| - 1]);
      UnlinkAllRemoves(importers, front, path, imp, p);
      RemoveStringIs(ListOf(UnlinkAll(importers, front, path), last), path);
    }
  }

  /** A step sets the imports of its own path. */
  lemma StepImports(g: Option<Graph>, s: Step, path: string)
    ensures ImportsOf(Applied(g, s), path) ==
              if !On(s, path) then ImportsOf(g, path) else if s.Link? then s.c.imports else []
  {
    hide TrimSpace, LinkAll, UnlinkAll;
  }

  /** A step decides whether its own path imports what its chunk mentions, and nothing else. */
  lemma StepImporters(g: Option<Graph>, s: Step, path: string, imp: string)
    ensures path in ImportersOf(Applied(g, s), imp) <==>
              if Mentions(s, path, imp) then s.Link? else path in ImportersOf(g, imp)
  {
    hide TrimSpace, LinkAll, UnlinkAll, Names;
    var base := if g.Some? then g.value else NO_GRAPH;
    var own := TrimSpace(s.c.path);
    LinkAllAdds(base.importedBy, s.c.imports, own, imp, path);
    UnlinkAllRemoves(base.importedBy, s.c.imports, own, imp, path);
  }

  // ----- One step

  /** What the path imports so far is still mentioned by the chunk that is linked or unlinked. */
  ghost predicate Covers(g: Option<Graph>, s: Step, path: string) {
    On(s, path) ==> forall imp :: imp in Names(ImportsOf(g, path)) ==> Mentions(s, path, imp)
  }

  /**
   * Linking replaces the imports of a path and removes no importer; unlinking removes the path from the importers of
   * one chunk's imports and forgets those of all its chunks. Where both directions agreed they still do exactly
   * when the chunk mentions all that the path imported.
   */
  lemma StepStaysExactIff(g: Option<Graph>, s: Step, path: string)
    requires path != "" && Exact(g, path)
    ensures Exact(Applied(g, s), path) <==> Covers(g, s, path)
  {
    hide Applied, Names, ImportsOf, ImportersOf, TrimSpace;
    StepImports(g, s, path);
    assert Names([]) == [] by { NoNames(); }
    forall imp
      ensures path in ImportersOf(Applied(g, s), imp) <==>
                if Mentions(s, path, imp) then s.Link? else path in ImportersOf(g, imp)
    {
      StepImporters(g, s, path, imp);
    }
  }

  /** What an upsert does to importers: its own path is added where it imports, and nothing else changes. */
  lemma UpsertAddsImporters(tokenize: string -> Terms, sp: Space, c: Chunk, path: string, imp: string, p: string)
    requires Indexable(c) && path == TrimSpace(c.path) != ""
    ensures var after := Upserted(tokenize, sp, c).graph;
            && ImportsOf(after, path) == c.imports
            && (p in ImportersOf(after, imp) <==>
                  p in ImportersOf(sp.graph, imp) || (p == path && imp in Names(c.imports)))
  {
    hide TrimSpace, Linked, Names, Indexable, Put, ImportsOf, ImportersOf;
    StepImports(sp.graph, Link(c), path);
    StepImporters(sp.graph, Link(c), p, imp);
  }

  lemma OwnMentions(s: Step, imp: string)
    requires TrimSpace(s.c.path) != ""
    ensures Mentions(s, TrimSpace(s.c.path), imp) <==> imp in Names(s.c.imports)
    ensures On(s, TrimSpace(s.c.path))
  {
    hide TrimSpace, Names;
  }

  /** An upsert keeps its path exact exactly when nothing imported before is missing from the new imports. */
  lemma UpsertStaysExactIff(tokenize: string -> Terms, sp: Space, c: Chunk)
    requires Indexable(c) && TrimSpace(c.path) != "" && Exact(sp.graph, TrimSpace(c.path))
    ensures Exact(Upserted(tokenize, sp, c).graph, TrimSpace(c.path)) <==>
              forall imp :: imp in Names(ImportsOf(sp.graph, TrimSpace(c.path))) ==> imp in Names(c.imports)
  {
    hide TrimSpace, Linked, Names, Indexable, Put, ImportsOf, Exact, Mentions;
    StepStaysExactIff(sp.graph, Link(c), TrimSpace(c.path));
    OwnMentions(Link(c), "");
    forall imp
      ensures Mentions(Link(c), TrimSpace(c.path), imp) <==> imp in Names(c.imports)
    {
      OwnMentions(Link(c), imp);
    }
  }

  /** A removal keeps its path exact exactly when the chunk that goes has all the imports that the path had. */
  lemma RemovalStaysExactIff(sp: Space, id: string)
    requires id in sp.bucket
    requires var path := TrimSpace(sp.bucket[id].chunk.path); path != "" && Exact(sp.graph, path)
    ensures var c := sp.bucket[id].chunk;
            Exact(Dropped(sp, id).graph, TrimSpace(c.path)) <==>
            forall imp :: imp in Names(ImportsOf(sp.graph, TrimSpace(c.path))) ==> imp in Names(c.imports)
  {
    hide TrimSpace, Unlinked, Names, ImportsOf, Exact, Mentions;
    var c := sp.bucket[id].chunk;
    StepStaysExactIff(sp.graph, Unlink(c), TrimSpace(c.path));
    OwnMentions(Unlink(c), "");
    forall imp
      ensures Mentions(Unlink(c), TrimSpace(c.path), imp) <==> imp in Names(c.imports)
    {
      OwnMentions(Unlink(c), imp);
    }
  }

  lemma NoNames()
    ensures Names([]) == []
  {
  }

  // ----- A whole run

  /** A path is exact before and after each of the first `n` steps. */
  ghost predicate ExactThroughout(g: Option<Graph>, steps: seq<Step>, path: string, n: nat)
    requires n <= |steps|
  {
    forall k :: 0 <= k <= n ==> Exact(GraphAfter(g, steps[..k]), path)
  }

  ghost predicate CoveredThroughout(g: Option<Graph>, steps: seq<Step>, path: string, n: nat)
    requires n <= |steps|
  {
    forall k :: 0 <= k < n ==> Covers(GraphAfter(g, steps[..k]), steps[k], path)
  }

  lemma GraphAfterNext(g: Option<Graph>, steps: seq<Step>, k: nat)
    requires k < |steps|
    ensures GraphAfter(g, steps[..0]) == g
    ensures GraphAfter(g, steps[..k + 1]) == Applied(GraphAfter(g, steps[..k]), steps[k])
  {
    assert steps[..k + 1][..k] == steps[..k];
  }

  /** A path stays exact through a run exactly when every step of the run covers what it imported by then. */
  lemma {:induction false} RunStaysExactIff(g: Option<Graph>, steps: seq<Step>, path: string, n: nat)
    requires path != "" && Exact(g, path) && n <= |steps|
    ensures ExactThroughout(g, steps, path, n) <==> CoveredThroughout(g, steps, path, n)
    decreases n
  {
    hide Exact, Covers, Applied, GraphAfter;
    if n > 0 {
      RunStaysExactIff(g, steps, path, n - 1);
      GraphAfterNext(g, steps, n - 1);
      if Exact(GraphAfter(g, steps[..n - 1]), path) {
        StepStaysExactIff(GraphAfter(g, steps[..n - 1]), steps[n - 1], path);
      }
    } else {
      assert GraphAfter(g, steps[..0]) == g by { NoSteps(g); }
    }
  }

  lemma NoSteps(g: Option<Graph>)
    ensures GraphAfter(g, []) == g
  {
  }

  /** The step `i` is the last one of the path. */
  ghost predicate IsLastOn(steps: seq<Step>, path: string, i: nat) {
    i < |steps| && On(steps[i], path) && forall k :: i < k < |steps| ==> !On(steps[k], path)
  }

  /** After its last step a path has the imports of that step's chunk, or none if it was unlinked. */
  lemma {:induction false} ImportsAfter(g: Option<Graph>, steps: seq<Step>, path: string, i: nat)
    requires IsLastOn(steps, path, i)
    ensures ImportsOf(GraphAfter(g, steps), path) == if steps[i].Link? then steps[i].c.imports else []
    decreases |steps|
  {
    hide On, ImportsOf, Applied;
    var n := |steps| - 1;
    StepImports(GraphAfter(g, steps[..n]), steps[n], path);
    if i < n {
      ImportsAfter(g, steps[..n], path, i);
    }
  }

  lemma {:induction false} ImportsUntouched(g: Option<Graph>, steps: seq<Step>, path: string)
    requires forall k :: 0 <= k < |steps| ==> !On(steps[k], path)
    ensures ImportsOf(GraphAfter(g, steps), path) == ImportsOf(g, path)
    decreases |steps|
  {
    hide On, ImportsOf, Applied;
    if steps != [] {
      ImportsUntouched(g, steps[..|steps| - 1], path);
      StepImports(GraphAfter(g, steps[..|steps| - 1]), steps[|steps| - 1], path);
    }
  }

  /** The path is made an importer of `imp` by step `j`, or by what was there before all steps. */
  ghost predicate Listed(g: Option<Graph>, steps: seq<Step>, path: string, imp: string, j: int) {
    && -1 <= j < |steps|
    && (if j < 0 then path in ImportersOf(g, imp) else steps[j].Link? && Mentions(steps[j], path, imp))
    && forall k :: 0 <= k < |steps| && j < k ==> !Mentions(steps[k], path, imp)
  }

  /** A path is an importer exactly when the last step that mentions the import linked it. */
  lemma {:induction false} ImporterIff(g: Option<Graph>, steps: seq<Step>, path: string, imp: string)
    requires path != ""
    ensures path in ImportersOf(GraphAfter(g, steps), imp) <==> exists j :: Listed(g, steps, path, imp, j)
    decreases |steps|
  {
    hide ImportersOf, Applied, Mentions;
    if steps == [] {
      assert path in ImportersOf(g, imp) ==> Listed(g, steps, path, imp, -1);
    } else {
      var front, n := steps[..|steps| - 1], |steps| - 1;
      ImporterIff(g, front, path, imp);
      StepImporters(GraphAfter(g, front), steps[n], path, imp);
      if Mentions(steps[n], path, imp) {
        assert steps[n].Link? ==> Listed(g, steps, path, imp, n);
      } else {
        forall j
          ensures Listed(g, steps, path, imp, j) <==> Listed(g, front, path, imp, j)
        {
        }
      }
    }
  }

  /** A step of the path comes after the one that made it an importer, and its chunk does not mention the import. */
  ghost predicate LeftBehind(g: Option<Graph>, steps: seq<Step>, path: string, imp: string) {
    exists j, l :: Listed(g, steps, path, imp, j) && j < l < |steps| && 0 <= l && On(steps[l], path)
  }

  /**
   * After a run the graph can only err by listing too much, and a path is listed for what it does not import
   * exactly when a later step of the path passed the import over.
   */
  lemma StaleIff(g: Option<Graph>, steps: seq<Step>, path: string, imp: string)
    requires path != "" && Exact(g, path)
    ensures imp in Names(ImportsOf(GraphAfter(g, steps), path)) ==> path in ImportersOf(GraphAfter(g, steps), imp)
    ensures path in ImportersOf(GraphAfter(g, steps), imp) && imp !in Names(ImportsOf(GraphAfter(g, steps), path)) <==>
              LeftBehind(g, steps, path, imp)
  {
    hide ImportersOf, ImportsOf, Names, GraphAfter, TrimSpace;
    ImporterIff(g, steps, path, imp);
    NoNames();
    if exists i :: 0 <= i < |steps| && On(steps[i], path) {
      var i := LastOn(steps, path);
      ImportsAfter(g, steps, path, i);
      assert imp in Names(ImportsOf(GraphAfter(g, steps), path)) <==> steps[i].Link? && Mentions(steps[i], path, imp);
      if steps[i].Link? && Mentions(steps[i], path, imp) {
        assert Listed(g, steps, path, imp, i);
      }
    } else {
      ImportsUntouched(g, steps, path);
      assert path in ImportersOf(g, imp) ==> Listed(g, steps, path, imp, -1);
    }
  }

  lemma {:induction false} LastOn(steps: seq<Step>, path: string) returns (i: nat)
    requires exists k :: 0 <= k < |steps| && On(steps[k], path)
    ensures IsLastOn(steps, path, i)
    decreases |steps|
  {
    hide On;
    if On(steps[|steps| - 1], path) {
      i := |steps| - 1;
    } else {
      i := LastOn(steps[..|steps| - 1], path);
    }
  }

  /** A path is exact after a run exactly when no import was passed over. */
  lemma ExactAfterIff(g: Option<Graph>, steps: seq<Step>, path: string)
    requires path != "" && Exact(g, path)
    ensures Exact(GraphAfter(g, steps), path) <==> forall imp :: !LeftBehind(g, steps, path, imp)
  {
    hide ImportersOf, ImportsOf, Names, GraphAfter, LeftBehind;
    forall imp
      ensures imp in Names(ImportsOf(GraphAfter(g, steps), path)) ==> path in ImportersOf(GraphAfter(g, steps), imp)
      ensures path in ImportersOf(GraphAfter(g, steps), imp) && imp !in Names(ImportsOf(GraphAfter(g, steps), path)) <==>
                LeftBehind(g, steps, path, imp)
    {
      StaleIff(g, steps, path, imp);
    }
  }

  // ----- A sync is a run

  lemma {:induction false} GraphAppend(g: Option<Graph>, a: seq<Step>, b: seq<Step>)
    ensures GraphAfter(g, a + b) == GraphAfter(GraphAfter(g, a), b)
    decreases |b|
  {
    hide Applied;
    if b == [] {
      assert a + b == a;
    } else {
      GraphAppend(g, a, b[..|b| - 1]);
      assert (a + b)[..|a + b| - 1] == a + b[..|b| - 1];
    }
  }

  /** Every chunk with an id and a content is linked. */
  function UpsertSteps(cs: seq<Chunk>): seq<Step> {
    if cs == [] then []
    else
      var c := cs[|cs| - 1];
      UpsertSteps(cs[..|cs| - 1]) + if Indexable(c) then [Link(c)] else []
  }

  /** The first removal of an id that is there unlinks its chunk. */
  function DropSteps(chunks: map<string, Chunk>, ids: seq<string>): seq<Step> {
    if ids == [] then []
    else
      var front, id := ids[..|ids| - 1], ids[|ids| - 1];
      DropSteps(chunks, front) + if id in chunks && id !in front then [Unlink(chunks[id])] else []
  }

  lemma OneStep(g: Option<Graph>, s: Step)
    ensures GraphAfter(g, [s]) == Applied(g, s) && GraphAfter(g, []) == g
  {
    assert [s][..0] == [];
  }

  lemma {:induction false} UpsertsAreSteps(tokenize: string -> Terms, sp: Space, cs: seq<Chunk>)
    ensures UpsertAll(tokenize, sp, cs).graph == GraphAfter(sp.graph, UpsertSteps(cs))
    decreases |cs|
  {
    hide Indexable, Put, Linked, GraphAfter;
    if cs == [] {
      NoSteps(sp.graph);
    } else {
      var front, c := cs[..|cs| - 1], cs[|cs| - 1];
      UpsertsAreSteps(tokenize, sp, front);
      OneStep(GraphAfter(sp.graph, UpsertSteps(front)), Link(c));
      GraphAppend(sp.graph, UpsertSteps(front), if Indexable(c) then [Link(c)] else []);
    }
  }

  lemma {:induction false} DropsAreSteps(sp: Space, ids: seq<string>)
    ensures DropAll(sp, ids).graph == GraphAfter(sp.graph, DropSteps(Chunks(sp.bucket), ids))
    decreases |ids|
  {
    hide Unlinked, GraphAfter;
    if ids == [] {
      NoSteps(sp.graph);
    } else {
      var front, id := ids[..|ids| - 1], ids[|ids| - 1];
      var chunks := Chunks(sp.bucket);
      DropsAreSteps(sp, front);
      DropsAreMapRemoval(sp, front);
      hide DropAll;
      var s := Unlink(if id in chunks then chunks[id] else Chunk("", "", "", "", "", "", []));
      OneStep(GraphAfter(sp.graph, DropSteps(chunks, front)), s);
      GraphAppend(sp.graph, DropSteps(chunks, front), if id in chunks && id !in front then [s] else []);
    }
  }

  /** The chunks of a workspace once the deletes and the upserts of a sync are done. */
  function MergedChunks(before: Bucket, deletes: seq<string>, upserts: seq<Chunk>): map<string, Chunk> {
    (map id | id in before && id !in Names(deletes) :: before[id].chunk) + Latest(upserts)
  }

  function SyncSteps(before: Bucket, deletes: seq<string>, upserts: seq<Chunk>, dropped: seq<string>): seq<Step> {
    DropSteps(Chunks(before), Names(deletes)) + UpsertSteps(upserts) + DropSteps(MergedChunks(before, deletes, upserts), dropped)
  }

  lemma MergedIs(tokenize: string -> Terms, before: Space, deletes: seq<string>, upserts: seq<Chunk>)
    ensures Chunks(UpsertAll(tokenize, DropAll(before, Names(deletes)), upserts).bucket) ==
              MergedChunks(before.bucket, deletes, upserts)
  {
    hide Names, Latest, UpsertAll, DropAll;
    var deleted := DropAll(before, Names(deletes));
    DropsAreMapRemoval(before, Names(deletes));
    UpsertsAreMapUpdate(tokenize, deleted, upserts);
    assert Chunks(deleted.bucket) == map id | id in before.bucket && id !in Names(deletes) :: before.bucket[id].chunk;
  }

  lemma SyncIsRun(tokenize: string -> Terms, before: Space, after: Space, deletes: seq<string>,
                  upserts: seq<Chunk>, keepIds: seq<string>, dropped: seq<string>)
    requires Synced(tokenize, before, after, deletes, upserts, keepIds, dropped)
    ensures after.graph == GraphAfter(before.graph, SyncSteps(before.bucket, deletes, upserts, dropped))
  {
    hide Names, UpsertAll, DropAll, GraphAfter, DropSteps, UpsertSteps, Drops, Chunks, MergedChunks;
    var deleted := DropAll(before, Names(deletes));
    var merged := UpsertAll(tokenize, deleted, upserts);
    DropsAreSteps(before, Names(deletes));
    UpsertsAreSteps(tokenize, deleted, upserts);
    DropsAreSteps(merged, dropped);
    MergedIs(tokenize, before, deletes, upserts);
    var a, b, c := DropSteps(Chunks(before.bucket), Names(deletes)), UpsertSteps(upserts), DropSteps(Chunks(merged.bucket), dropped);
    GraphAppend(before.graph, a, b);
    GraphAppend(before.graph, a + b, c);
  }

  /**
   * A path that was exact before a sync is so through all its steps exactly when each upsert and each removal covers
   * what the path imports by then; and it is exact after the sync exactly when no import was passed over for good.
   */
  lemma SyncExactIff(tokenize: string -> Terms, before: Space, after: Space, deletes: seq<string>,
                     upserts: seq<Chunk>, keepIds: seq<string>, dropped: seq<string>, path: string)
    requires Synced(tokenize, before, after, deletes, upserts, keepIds, dropped)
    requires path != "" && Exact(before.graph, path)
    ensures var steps := SyncSteps(before.bucket, deletes, upserts, dropped);
            && (ExactThroughout(before.graph, steps, path, |steps|) <==> CoveredThroughout(before.graph, steps, path, |steps|))
            && (Exact(after.graph, path) <==> forall imp :: !LeftBehind(before.graph, steps, path, imp))
  {
    hide Synced, SyncSteps, Exact, GraphAfter, LeftBehind, ExactThroughout, CoveredThroughout;
    var steps := SyncSteps(before.bucket, deletes, upserts, dropped);
    SyncIsRun(tokenize, before, after, deletes, upserts, keepIds, dropped);
    RunStaysExactIff(before.graph, steps, path, |steps|);
    ExactAfterIff(before.graph, steps, path);
  }

  // ----- Whose imports a path has

  lemma {:induction false} DropStepsAre(chunks: map<string, Chunk>, ids: seq<string>)
    ensures forall s :: s in DropSteps(chunks, ids) <==> s.Unlink? && exists id :: id in ids && id in chunks && chunks[id] == s.c
    decreases |ids|
  {
    if ids != [] {
      var front, last := ids[..|ids| - 1], ids[|ids| - 1];
      DropStepsAre(chunks, front);
      assert ids == front + [last];
      assert last in ids;
    }
  }

  /** The upsert `i` is the last one of the path that is indexed. */
  ghost predicate LastUpsert(cs: seq<Chunk>, path: string, i: nat) {
    && i < |cs| && Indexable(cs[i]) && TrimSpace(cs[i].path) == path
    && forall k :: i < k < |cs| && Indexable(cs[k]) ==> TrimSpace(cs[k].path) != path
  }

  lemma {:induction false} LastUpsertIsLast(cs: seq<Chunk>, path: string, i: nat) returns (l: nat)
    requires path != "" && LastUpsert(cs, path, i)
    ensures IsLastOn(UpsertSteps(cs), path, l) && UpsertSteps(cs)[l] == Link(cs[i])
    decreases |cs|
  {
    hide Indexable, TrimSpace;
    var front, n := cs[..|cs| - 1], |cs| - 1;
    if i == n {
      l := |UpsertSteps(front)|;
    } else {
      l := LastUpsertIsLast(front, path, i);
    }
  }

  lemma {:induction false} UpsertStepsAre(cs: seq<Chunk>)
    ensures forall s :: s in UpsertSteps(cs) <==> s.Link? && Indexable(s.c) && s.c in cs
    decreases |cs|
  {
    hide Indexable;
    if cs != [] {
      UpsertStepsAre(cs[..|cs| - 1]);
      assert cs == cs[..|cs| - 1] + [cs[|cs| - 1]];
    }
  }

  lemma {:induction false} LatestFrom(cs: seq<Chunk>, i: nat) returns (k: nat)
    requires i < |cs| && Indexable(cs[i])
    ensures i <= k < |cs| && Indexable(cs[k]) && TrimSpace(cs[k].id) == TrimSpace(cs[i].id)
    ensures TrimSpace(cs[i].id) in Latest(cs) && Latest(cs)[TrimSpace(cs[i].id)] == cs[k]
    decreases |cs|
  {
    hide Indexable, TrimSpace;
    var n := |cs| - 1;
    if Indexable(cs[n]) && TrimSpace(cs[n].id) == TrimSpace(cs[i].id) {
      k := n;
    } else {
      k := LatestFrom(cs[..n], i);
    }
  }

  /** A chunk of the path is there, and the sync was not told to keep it. */
  ghost predicate Unkept(chunks: map<string, Chunk>, keepIds: seq<string>, path: string) {
    exists id :: id in chunks && !Keeps(keepIds, id) && TrimSpace(chunks[id].path) == path
  }

  /** The last removals of a sync leave the imports of a path alone, or empty. */
  lemma DropsImports(g: Option<Graph>, chunks: map<string, Chunk>, keepIds: seq<string>, dropped: seq<string>, path: string)
    requires path != "" && forall id :: id in dropped <==> id in chunks && !Keeps(keepIds, id)
    ensures ImportsOf(GraphAfter(g, DropSteps(chunks, dropped)), path) ==
              if Unkept(chunks, keepIds, path) then [] else ImportsOf(g, path)
  {
    hide TrimSpace, Names, ImportsOf, Keeps, GraphAfter, DropSteps;
    var steps := DropSteps(chunks, dropped);
    DropStepsAre(chunks, dropped);
    if Unkept(chunks, keepIds, path) {
      var id :| id in chunks && !Keeps(keepIds, id) && TrimSpace(chunks[id].path) == path;
      assert Unlink(chunks[id]) in steps;
      var k :| 0 <= k < |steps| && steps[k] == Unlink(chunks[id]);
      assert On(steps[k], path);
      var i := LastOn(steps, path);
      assert steps[i] in steps;
      ImportsAfter(g, steps, path, i);
    } else {
      forall k | 0 <= k < |steps|
        ensures !On(steps[k], path)
      {
        assert steps[k] in steps;
      }
      ImportsUntouched(g, steps, path);
    }
  }

  lemma DroppedAre(tokenize: string -> Terms, before: Space, deletes: seq<string>, upserts: seq<Chunk>,
                   keepIds: seq<string>, dropped: seq<string>)
    requires Drops(UpsertAll(tokenize, DropAll(before, Names(deletes)), upserts).bucket, keepIds, dropped)
    ensures forall id :: id in dropped <==> id in MergedChunks(before.bucket, deletes, upserts) && !Keeps(keepIds, id)
  {
    hide Names, UpsertAll, DropAll, MergedChunks;
    MergedIs(tokenize, before, deletes, upserts);
  }

  /**
   * After a sync that upserts chunks of a path, the path has the imports of the last of them, whatever its other
   * chunks import, and none if any chunk of the path was not kept. The chunk they come from is in the bucket
   * exactly when no later upsert took its id.
   */
  lemma SyncImportsAreLast(tokenize: string -> Terms, before: Space, after: Space, deletes: seq<string>,
                           upserts: seq<Chunk>, keepIds: seq<string>, dropped: seq<string>, path: string, i: nat)
    requires Synced(tokenize, before, after, deletes, upserts, keepIds, dropped)
    requires path != "" && LastUpsert(upserts, path, i)
    ensures var unkept := Unkept(MergedChunks(before.bucket, deletes, upserts), keepIds, path);
            var id := TrimSpace(upserts[i].id);
            && ImportsOf(after.graph, path) == (if unkept then [] else upserts[i].imports)
            && (!unkept ==>
                  (id in after.bucket && after.bucket[id].chunk == upserts[i] <==>
                   forall k :: i < k < |upserts| && Indexable(upserts[k]) ==> TrimSpace(upserts[k].id) != id))
  {
    hide Names, TrimSpace, Indexable, GraphAfter, DropSteps, UpsertSteps, DropAll, UpsertAll, Drops, Keeps, Latest, ImportsOf;
    var merged := MergedChunks(before.bucket, deletes, upserts);
    SyncIsRun(tokenize, before, after, deletes, upserts, keepIds, dropped);
    DroppedAre(tokenize, before, deletes, upserts, keepIds, dropped);
    MergedImports(before, deletes, upserts, dropped, path, i);
    DropsImports(GraphAfter(before.graph, DropSteps(Chunks(before.bucket), Names(deletes)) + UpsertSteps(upserts)),
                 merged, keepIds, dropped, path);
    if !Unkept(merged, keepIds, path) {
      LastUpsertLives(tokenize, before, after, deletes, upserts, keepIds, dropped, path, i);
    }
  }

  lemma MergedImports(before: Space, deletes: seq<string>, upserts: seq<Chunk>, dropped: seq<string>, path: string, i: nat)
    requires path != "" && LastUpsert(upserts, path, i)
    ensures var g := GraphAfter(before.graph, DropSteps(Chunks(before.bucket), Names(deletes)) + UpsertSteps(upserts));
            && ImportsOf(g, path) == upserts[i].imports
            && GraphAfter(before.graph, SyncSteps(before.bucket, deletes, upserts, dropped)) ==
                 GraphAfter(g, DropSteps(MergedChunks(before.bucket, deletes, upserts), dropped))
  {
    hide Names, TrimSpace, Indexable, GraphAfter, DropSteps, UpsertSteps, ImportsOf, MergedChunks, Chunks, LastUpsert, IsLastOn;
    var a, b := DropSteps(Chunks(before.bucket), Names(deletes)), UpsertSteps(upserts);
    GraphAppend(before.graph, a, b);
    GraphAppend(before.graph, a + b, DropSteps(MergedChunks(before.bucket, deletes, upserts), dropped));
    var l := LastUpsertIsLast(upserts, path, i);
    ImportsAfter(GraphAfter(before.graph, a), b, path, l);
  }

  lemma LastUpsertLives(tokenize: string -> Terms, before: Space, after: Space, deletes: seq<string>,
                        upserts: seq<Chunk>, keepIds: seq<string>, dropped: seq<string>, path: string, i: nat)
    requires Synced(tokenize, before, after, deletes, upserts, keepIds, dropped) && LastUpsert(upserts, path, i)
    requires !Unkept(MergedChunks(before.bucket, deletes, upserts), keepIds, path)
    ensures var id := TrimSpace(upserts[i].id);
            id in after.bucket && after.bucket[id].chunk == upserts[i] <==>
            forall k :: i < k < |upserts| && Indexable(upserts[k]) ==> TrimSpace(upserts[k].id) != id
  {
    hide Names, TrimSpace, Indexable, Synced, Keeps, Latest;
    var id := TrimSpace(upserts[i].id);
    var merged := MergedChunks(before.bucket, deletes, upserts);
    SyncIsMapAlgebra(tokenize, before, after, deletes, upserts, keepIds, dropped);
    assert Chunks(after.bucket) == map x | x in merged && Keeps(keepIds, x) :: merged[x];
    var k := LatestFrom(upserts, i);
    assert id in merged && merged[id] == upserts[k];
    assert id in after.bucket <==> id in Chunks(after.bucket);
    forall l | i < l < |upserts| && Indexable(upserts[l]) && TrimSpace(upserts[l].id) == id
      ensures upserts[k] != upserts[i]
    {
      var last := LatestFrom(upserts, l);
    }
  }

  // ----- An oversized chunk

  /** The pieces of a split chunk: all under its path, and only the first one with its imports. */
  ghost predicate PiecesOf(pieces: seq<Chunk>, path: string, imports: seq<string>) {
    && (forall c :: c in pieces ==> TrimSpace(c.path) == path)
    && (forall i :: 0 <= i < |pieces| ==> pieces[i].imports == if i == 0 then imports else [])
  }

  /** A later piece has an id and a content, so that it is indexed. */
  ghost predicate LaterIndexed(pieces: seq<Chunk>) {
    exists i :: 0 < i < |pieces| && Indexable(pieces[i])
  }

  /**
   * Inserting them leaves the path without imports exactly when a later piece is indexed, or with those of the chunk if
   * only the first one is; and it stays an importer of what it imported, and becomes one of all that the chunk imports.
   */
  lemma {:induction false} SplitEmptiesImports(tokenize: string -> Terms, sp: Space, pieces: seq<Chunk>, path: string,
                                               imports: seq<string>)
    requires path != "" && PiecesOf(pieces, path, imports)
    ensures var after := UpsertAll(tokenize, sp, pieces).graph;
            var first := pieces != [] && Indexable(pieces[0]);
            && ImportsOf(after, path) ==
                 (if LaterIndexed(pieces) then [] else if first then imports else ImportsOf(sp.graph, path))
            && forall imp :: path in ImportersOf(after, imp) <==> path in ImportersOf(sp.graph, imp) || (first && imp in Names(imports))
    decreases |pieces|
  {
    hide TrimSpace, Names, ImportsOf, ImportersOf, Indexable, Upserted;
    if pieces != [] {
      var front, c := pieces[..|pieces| - 1], pieces[|pieces| - 1];
      SplitEmptiesImports(tokenize, sp, front, path, imports);
      var before := UpsertAll(tokenize, sp, front);
      assert c in pieces && Names([]) == [] by { NoNames(); }
      assert LaterIndexed(pieces) <==> LaterIndexed(front) || (|pieces| > 1 && Indexable(c)) by {
        assert |pieces| > 1 && Indexable(c) ==> Indexable(pieces[|pieces| - 1]);
        assert forall i :: 0 <= i < |front| ==> front[i] == pieces[i];
      }
      OneUpserted(tokenize, before, c, path);
    }
  }

  lemma OneUpserted(tokenize: string -> Terms, sp: Space, c: Chunk, path: string)
    requires path == TrimSpace(c.path) != ""
    ensures var after := Upserted(tokenize, sp, c).graph;
            && ImportsOf(after, path) == (if Indexable(c) then c.imports else ImportsOf(sp.graph, path))
            && forall imp :: path in ImportersOf(after, imp) <==>
                               path in ImportersOf(sp.graph, imp) || (Indexable(c) && imp in Names(c.imports))
  {
    hide TrimSpace, Names, ImportsOf, ImportersOf, Indexable, Linked, Put;
    if Indexable(c) {
      StepImports(sp.graph, Link(c), path);
      forall imp
        ensures path in ImportersOf(Linked(sp.graph, c), imp) <==> path in ImportersOf(sp.graph, imp) || imp in Names(c.imports)
      {
        UpsertAddsImporters(tokenize, sp, c, path, imp, path);
      }
    }
  }

  // ----- Symbols

  function SymbolOf(g: Option<Graph>, symbol: string): Option<string> {
    if g.Some? && symbol in g.value.symbols then Some(g.value.symbols[symbol]) else None
  }

  predicate Bears(s: Step, symbol: string) {
    symbol != "" && TrimSpace(s.c.symbol) == symbol && TrimSpace(s.c.path) != ""
  }

  lemma StepSymbol(g: Option<Graph>, s: Step, symbol: string)
    ensures SymbolOf(Applied(g, s), symbol) ==
              if !Bears(s, symbol) then SymbolOf(g, symbol)
              else if s.Link? then Some(s.c.id)
              else if SymbolOf(g, symbol) == Some(s.c.id) then None else SymbolOf(g, symbol)
  {
    hide TrimSpace, LinkAll, UnlinkAll;
  }

  /** The symbol was last given to the chunk `id` by step `j`, or before all steps, and that chunk was not removed since. */
  ghost predicate GivenBy(g: Option<Graph>, steps: seq<Step>, symbol: string, id: string, j: int) {
    && -1 <= j < |steps|
    && (if j < 0 then SymbolOf(g, symbol) == Some(id) else steps[j].Link? && Bears(steps[j], symbol) && steps[j].c.id == id)
    && forall k :: 0 <= k < |steps| && j < k && Bears(steps[k], symbol) ==> steps[k].Unlink? && steps[k].c.id != id
  }

  /** After any run a symbol leads to the chunk it was given to last, unless that one was removed under it since. */
  lemma {:induction false} SymbolIff(g: Option<Graph>, steps: seq<Step>, symbol: string, id: string)
    ensures SymbolOf(GraphAfter(g, steps), symbol) == Some(id) <==> exists j :: GivenBy(g, steps, symbol, id, j)
    decreases |steps|
  {
    hide SymbolOf, Applied, Bears;
    if steps == [] {
      assert SymbolOf(g, symbol) == Some(id) ==> GivenBy(g, steps, symbol, id, -1);
    } else {
      var front, n := steps[..|steps| - 1], |steps| - 1;
      SymbolIff(g, front, symbol, id);
      StepSymbol(GraphAfter(g, front), steps[n], symbol);
      if Bears(steps[n], symbol) && (steps[n].Link? || steps[n].c.id == id) {
        assert steps[n].Link? && steps[n].c.id == id ==> GivenBy(g, steps, symbol, id, n);
        assert forall j :: GivenBy(g, steps, symbol, id, j) ==> j == n;
      } else {
        assert forall j :: GivenBy(g, steps, symbol, id, j) <==> GivenBy(g, front, symbol, id, j);
      }
    }
  }

  /**
   * Two ways for an entry to go wrong: a chunk that comes with another symbol is still found under the old one, and
   * of two chunks with one symbol the removal of the later leaves the other without its entry.
   */
  lemma SymbolsGoWrong(g: Option<Graph>, a: Chunk, b: Chunk, symbol: string)
    requires symbol != "" && TrimSpace(a.symbol) == symbol && TrimSpace(a.path) != "" && TrimSpace(b.path) != ""
    ensures a.id == b.id && TrimSpace(b.symbol) != symbol ==> SymbolOf(GraphAfter(g, [Link(a), Link(b)]), symbol) == Some(b.id)
    ensures a.id != b.id && TrimSpace(b.symbol) == symbol ==> SymbolOf(GraphAfter(g, [Link(a), Link(b), Unlink(b)]), symbol) == None
  {
    hide TrimSpace, SymbolOf, Applied;
    var one, two := Applied(g, Link(a)), Applied(Applied(g, Link(a)), Link(b));
    StepSymbol(g, Link(a), symbol);
    StepSymbol(one, Link(b), symbol);
    StepSymbol(two, Unlink(b), symbol);
    assert [Link(a), Link(b), Unlink(b)][..2] == [Link(a), Link(b)] && [Link(a), Link(b)][..1] == [Link(a)] && [Link(a)][..0] == [];
    assert GraphAfter(g, [Link(a)]) == one;
    assert GraphAfter(g, [Link(a), Link(b)]) == two;
  }

  // ----- How a path goes stale: two small runs

  lemma NamesOfOne(imp: string)
    requires TrimSpace(imp) == imp != ""
    ensures Names([imp]) == [imp] && Names([]) == []
  {
    hide TrimSpace;
    assert [imp][..0] == [];
  }

  lemma NothingImported(path: string)
    ensures Exact(None, path) && ImportsOf(None, path) == []
  {
  }

  lemma RuneTrims(c: char)
    requires !IsSpace(c)
    ensures TrimSpace([c]) == [c]
  {
    TrimOfTrimmed([c]);
    hide TrimSpace;
  }

  /** Chunks of one path, one with an import and one without. */
  ghost predicate OfOnePath(with: Chunk, without: Chunk, path: string, imp: string) {
    && TrimSpace(with.path) == TrimSpace(without.path) == path != ""
    && with.imports == [imp] && without.imports == [] && TrimSpace(imp) == imp != ""
  }

  /** Linking the one with the import, then the one without: the path is left behind as an importer. */
  lemma PassedOver(g: Option<Graph>, with: Chunk, without: Chunk, path: string, imp: string)
    requires OfOnePath(with, without, path, imp) && Exact(g, path) && ImportsOf(g, path) == []
    ensures var before, after := Applied(g, Link(with)), Applied(Applied(g, Link(with)), Link(without));
            && Exact(before, path) && !Exact(after, path) && ImportsOf(after, path) == [] && path in ImportersOf(after, imp)
  {
    hide TrimSpace, Applied, ImportsOf, ImportersOf, Exact, Names;
    NamesOfOne(imp);
    var before := Applied(g, Link(with));
    StepStaysExactIff(g, Link(with), path);
    StepImports(g, Link(with), path);
    StepImporters(g, Link(with), path, imp);
    assert Mentions(Link(with), path, imp);
    StepStaysExactIff(before, Link(without), path);
    StepImports(before, Link(without), path);
    StepImporters(before, Link(without), path, imp);
  }

  /** Linking both and unlinking the one without: the imports of the other are forgotten. */
  lemma Forgotten(g: Option<Graph>, with: Chunk, without: Chunk, path: string, imp: string)
    requires OfOnePath(with, without, path, imp) && Exact(g, path) && ImportsOf(g, path) == []
    ensures var before := Applied(Applied(g, Link(without)), Link(with));
            var after := Applied(before, Unlink(without));
            && Exact(before, path) && !Exact(after, path) && ImportsOf(after, path) == [] && path in ImportersOf(after, imp)
  {
    hide TrimSpace, Applied, ImportsOf, ImportersOf, Exact, Names;
    NamesOfOne(imp);
    var first := Applied(g, Link(without));
    StepStaysExactIff(g, Link(without), path);
    StepImports(g, Link(without), path);
    var before := Applied(first, Link(with));
    StepStaysExactIff(first, Link(with), path);
    StepImports(first, Link(with), path);
    StepImporters(first, Link(with), path, imp);
    assert Mentions(Link(with), path, imp);
    StepStaysExactIff(before, Unlink(without), path);
    StepImports(before, Unlink(without), path);
    StepImporters(before, Unlink(without), path, imp);
  }

  const EMPTY: Space := Space(map[], None)

  /** A chunk that no longer imports "m" is still listed as an importer of "m". */
  lemma StaleByUpsert(tokenize: string -> Terms)
    ensures var old_, new_ := Chunk("a", "p", "", "x", "", "", ["m"]), Chunk("a", "p", "", "x", "", "", []);
            var before := Upserted(tokenize, EMPTY, old_);
            var after := Upserted(tokenize, before, new_);
            && Exact(before.graph, "p") && !Exact(after.graph, "p")
            && ImportsOf(after.graph, "p") == [] && "p" in ImportersOf(after.graph, "m")
  {
    hide TrimSpace, Exact, ImportsOf, ImportersOf, Linked, Put;
    var old_, new_ := Chunk("a", "p", "", "x", "", "", ["m"]), Chunk("a", "p", "", "x", "", "", []);
    RuneTrims('a');
    RuneTrims('p');
    RuneTrims('x');
    RuneTrims('m');
    NothingImported("p");
    PassedOver(None, old_, new_, "p", "m");
  }

  /** Two chunks of one path, and the one without imports is removed: the imports of the other are gone although it stays. */
  lemma StaleByRemoval(tokenize: string -> Terms)
    ensures var a, x := Chunk("a", "p", "", "x", "", "", []), Chunk("x", "p", "", "x", "", "", ["m"]);
            var before := UpsertAll(tokenize, EMPTY, [a, x]);
            var after := Dropped(before, "a");
            && Exact(before.graph, "p") && !Exact(after.graph, "p")
            && ImportsOf(after.graph, "p") == [] && "p" in ImportersOf(after.graph, "m")
            && "x" in after.bucket && after.bucket["x"].chunk == x
  {
    hide TrimSpace, Exact, ImportsOf, ImportersOf, Linked, Unlinked;
    var a, x := Chunk("a", "p", "", "x", "", "", []), Chunk("x", "p", "", "x", "", "", ["m"]);
    RuneTrims('a');
    RuneTrims('p');
    RuneTrims('x');
    RuneTrims('m');
    NothingImported("p");
    Forgotten(None, x, a, "p", "m");
    assert [a, x][..1] == [a] && [a][..0] == [];
    assert UpsertAll(tokenize, EMPTY, [a]) == Upserted(tokenize, EMPTY, a);
    assert UpsertAll(tokenize, EMPTY, [a, x]) == Upserted(tokenize, Upserted(tokenize, EMPTY, a), x);
  }
}
