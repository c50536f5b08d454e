/** The in-memory index of internal/service/index.go: nested maps per workspace, updated in place by Sync. */
module RepoIndex {
  import opened Options
  import opened Runes
  import opened ChunkIndex

  datatype SyncReply = Count(n: nat) | OverLimit(n: nat)

  datatype Answer = NoModel | EmbedError | Embedded(v: Vector)

  /** What is left of a workspace that was not told what to keep, or was told to keep these ids. */
  ghost predicate Drops(bucket: Bucket, keepIds: seq<string>, dropped: seq<string>) {
    && NoDuplicates(dropped)
    && forall id :: id in dropped <==> keepIds != [] && id in bucket && id !in Names(keepIds)
  }

  /** A workspace after one sync; `dropped` is the order in which the chunks not kept were found. */
  ghost predicate Synced(tokenize: string -> Terms, before: Space, after: Space, deletes: seq<string>,
                         upserts: seq<Chunk>, keepIds: seq<string>, dropped: seq<string>)
  {
    var merged := UpsertAll(tokenize, DropAll(before, Names(deletes)), upserts);
    Drops(merged.bucket, keepIds, dropped) && after == DropAll(merged, dropped)
  }

  // ----- The four nested maps as one value

  datatype Maps = Maps(
    store: map<string, Bucket>,
    imports: map<string, map<string, seq<string>>>,
    importedBy: map<string, map<string, seq<string>>>,
    symbols: map<string, map<string, string>>
  ) {
    /** The three graph maps know the same workspaces. */
    predicate Shape() {
      imports.Keys == importedBy.Keys == symbols.Keys
    }

    function GraphOf(ws: string): Option<Graph>
      requires Shape()
    {
      if ws in imports then
        assert ws in imports.Keys;
        Some(Graph(imports[ws], importedBy[ws], symbols[ws]))
      else None
    }

    function SpaceOf(ws: string): Space
      requires Shape()
    {
      Space(if ws in store then store[ws] else map[], GraphOf(ws))
    }

    function WithGraph(ws: string, g: Option<Graph>): Maps {
      if g.None? then this
      else Maps(store, imports[ws := g.value.imports], importedBy[ws := g.value.importedBy],
                symbols[ws := g.value.symbols])
    }

    function With(ws: string, sp: Space): Maps {
      this.(store := store[ws := sp.bucket]).WithGraph(ws, sp.graph)
    }
  }

  lemma Overwrite<K, V>(m: map<K, V>, k: K, a: V, b: V)
    ensures m[k := a][k := b] == m[k := b]
    ensures k in m ==> m[k := m[k]] == m
    ensures m[k := b].Keys == m.Keys + {k}
  {
  }

  lemma WithShape(m: Maps, ws: string, g: Option<Graph>)
    requires m.Shape()
    ensures m.WithGraph(ws, g).Shape()
  {
    if g.Some? {
      Overwrite(m.imports, ws, g.value.imports, g.value.imports);
      Overwrite(m.importedBy, ws, g.value.importedBy, g.value.importedBy);
      Overwrite(m.symbols, ws, g.value.symbols, g.value.symbols);
    }
  }

  /** Writing one workspace is read back, and nothing else changes. */
  lemma ReadBack(m: Maps, ws: string, sp: Space, other: string)
    requires m.Shape() && (sp.graph.None? ==> m.GraphOf(ws).None?)
    ensures m.With(ws, sp).Shape() && m.With(ws, sp).SpaceOf(ws) == sp
    ensures other != ws ==> m.With(ws, sp).SpaceOf(other) == m.SpaceOf(other)
  {
    WithShape(m.(store := m.store[ws := sp.bucket]), ws, sp.graph);
  }

  lemma GraphTwice(m: Maps, ws: string, a: Graph, b: Graph)
    ensures m.WithGraph(ws, Some(a)).WithGraph(ws, Some(b)) == m.WithGraph(ws, Some(b))
  {
    Overwrite(m.imports, ws, a.imports, b.imports);
    Overwrite(m.importedBy, ws, a.importedBy, b.importedBy);
    Overwrite(m.symbols, ws, a.symbols, b.symbols);
  }

  function Made(m: Maps, ws: string): Maps
    requires m.Shape()
  {
    var g := m.GraphOf(ws);
    m.WithGraph(ws, Some(if g.Some? then g.value else NO_GRAPH))
  }

  /** Linking a chunk with a path in a graph made for it is linking it where there may be none. */
  lemma MadeGraph(m: Maps, ws: string, c: Chunk)
    requires m.Shape() && TrimSpace(c.path) != ""
    ensures var made := Made(m, ws);
            && made.Shape() && made.GraphOf(ws).Some?
            && made.WithGraph(ws, Linked(made.GraphOf(ws), c)) == m.WithGraph(ws, Linked(m.GraphOf(ws), c))
  {
    var g := m.GraphOf(ws);
    var base := if g.Some? then g.value else NO_GRAPH;
    WithShape(m, ws, Some(base));
    assert Made(m, ws).GraphOf(ws) == Some(base);
    assert Linked(Some(base), c) == Linked(g, c);
    hide Linked, TrimSpace, Maps.GraphOf;
    GraphTwice(m, ws, base, Linked(g, c).value);
  }

  lemma NoPath(m: Maps, ws: string, c: Chunk)
    requires m.Shape() && TrimSpace(c.path) == ""
    ensures m.WithGraph(ws, Linked(m.GraphOf(ws), c)) == m
  {
    hide TrimSpace;
    if ws in m.imports {
      assert ws in m.imports.Keys;
      Overwrite(m.imports, ws, m.imports[ws], m.imports[ws]);
      Overwrite(m.importedBy, ws, m.importedBy[ws], m.importedBy[ws]);
      Overwrite(m.symbols, ws, m.symbols[ws], m.symbols[ws]);
    }
  }

  lemma WriteTwice(m: Maps, ws: string, a: Space, b: Space)
    requires a.graph.Some? ==> b.graph.Some?
    ensures m.With(ws, a).With(ws, b) == m.With(ws, b)
  {
    Overwrite(m.store, ws, a.bucket, b.bucket);
    if a.graph.Some? {
      GraphTwice(m.(store := m.store[ws := b.bucket]), ws, a.graph.value, b.graph.value);
    }
  }

  lemma WriteSame(m: Maps, ws: string)
    requires m.Shape() && ws in m.store
    ensures m.With(ws, m.SpaceOf(ws)) == m
  {
    Overwrite(m.store, ws, m.store[ws], m.store[ws]);
    if ws in m.imports {
      assert ws in m.imports.Keys;
      Overwrite(m.imports, ws, m.imports[ws], m.imports[ws]);
      Overwrite(m.importedBy, ws, m.importedBy[ws], m.importedBy[ws]);
      Overwrite(m.symbols, ws, m.symbols[ws], m.symbols[ws]);
    }
  }

  // ----- A graph, once made, stays

  lemma GraphStays(tokenize: string -> Terms, sp: Space, c: Chunk, id: string)
    requires sp.graph.Some?
    ensures Upserted(tokenize, sp, c).graph.Some? && Dropped(sp, id).graph.Some?
  {
    hide TrimSpace, LinkAll, UnlinkAll, Put;
  }

  lemma {:induction false} UpsertsKeepGraph(tokenize: string -> Terms, sp: Space, cs: seq<Chunk>)
    requires sp.graph.Some?
    ensures UpsertAll(tokenize, sp, cs).graph.Some?
    decreases |cs|
  {
    hide Upserted;
    if cs != [] {
      UpsertsKeepGraph(tokenize, sp, cs[..|cs| - 1]);
      GraphStays(tokenize, UpsertAll(tokenize, sp, cs[..|cs| - 1]), cs[|cs| - 1], "");
    }
  }

  lemma {:induction false} DropsKeepGraph(sp: Space, ids: seq<string>)
    ensures sp.graph.Some? <==> DropAll(sp, ids).graph.Some?
    decreases |ids|
  {
    hide TrimSpace, UnlinkAll;
    if ids != [] {
      DropsKeepGraph(sp, ids[..|ids| - 1]);
    }
  }

  /** The maps after a sync of one workspace. */
  ghost predicate Merged(tokenize: string -> Terms, m: Maps, now: Maps, ws: string, deletes: seq<string>,
                         upserts: seq<Chunk>, keepIds: seq<string>, dropped: seq<string>)
    requires m.Shape()
  {
    exists after :: Synced(tokenize, m.SpaceOf(ws), after, deletes, upserts, keepIds, dropped) && now == m.With(ws, after)
  }

  lemma WriteThenRead(m: Maps, ws: string, sp: Space)
    requires m.Shape() && (sp.graph.None? ==> m.GraphOf(ws).None?)
    ensures var now := m.With(ws, sp);
            && now.Shape() && ws in now.store && now.SpaceOf(ws) == sp
            && forall other :: other != ws ==> now.SpaceOf(other) == m.SpaceOf(other)
  {
    ReadBack(m, ws, sp, ws);
    forall other | other != ws
      ensures m.With(ws, sp).SpaceOf(other) == m.SpaceOf(other)
    {
      ReadBack(m, ws, sp, other);
    }
  }

  lemma BucketRead(m: Maps, ws: string)
    requires m.Shape() && ws in m.store
    ensures m.SpaceOf(ws).bucket == m.store[ws]
  {
  }

  lemma InsertWrites(tokenize: string -> Terms, m: Maps, ws: string, sp: Space, cs: seq<Chunk>)
    requires m.Shape() && (sp.graph.None? <==> m.GraphOf(ws).None?)
    ensures var after := UpsertAll(tokenize, sp, cs);
            && m.With(ws, sp).With(ws, after) == m.With(ws, after)
            && m.With(ws, after).Shape() && ws in m.With(ws, after).store && m.With(ws, after).SpaceOf(ws) == after
  {
    if sp.graph.Some? {
      UpsertsKeepGraph(tokenize, sp, cs);
    }
    hide UpsertAll;
    WriteTwice(m, ws, sp, UpsertAll(tokenize, sp, cs));
    WriteThenRead(m, ws, UpsertAll(tokenize, sp, cs));
  }

  lemma NothingDropped(bucket: Bucket)
    ensures Drops(bucket, [], [])
  {
  }

  lemma SyncedOk(tokenize: string -> Terms, answers: set<(string, Vector)>, before: Space, after: Space,
                 deletes: seq<string>, upserts: seq<Chunk>, keepIds: seq<string>, dropped: seq<string>)
    requires SpaceOk(tokenize, answers, before)
    requires Synced(tokenize, before, after, deletes, upserts, keepIds, dropped)
    ensures SpaceOk(tokenize, answers, after) && (after.graph.None? ==> before.graph.None?)
  {
    hide SpaceOk, DropAll, UpsertAll, Names, Drops;
    var deleted := DropAll(before, Names(deletes));
    DropAllOk(tokenize, answers, before, Names(deletes));
    DropsKeepGraph(before, Names(deletes));
    UpsertAllOk(tokenize, answers, deleted, upserts);
    if deleted.graph.Some? {
      UpsertsKeepGraph(tokenize, deleted, upserts);
    }
    DropAllOk(tokenize, answers, UpsertAll(tokenize, deleted, upserts), dropped);
    DropsKeepGraph(UpsertAll(tokenize, deleted, upserts), dropped);
  }

  lemma SyncKeepsSpaces(tokenize: string -> Terms, answers: set<(string, Vector)>, m: Maps, now: Maps, ws: string,
                        deletes: seq<string>, upserts: seq<Chunk>, keepIds: seq<string>, dropped: seq<string>)
    requires m.Shape() && forall w :: SpaceOk(tokenize, answers, m.SpaceOf(w))
    requires var touched := if ws in m.store then m else m.(store := m.store[ws := map[]]);
             Merged(tokenize, touched, now, ws, deletes, upserts, keepIds, dropped)
    ensures now.Shape() && ws in now.store
    ensures Synced(tokenize, m.SpaceOf(ws), now.SpaceOf(ws), deletes, upserts, keepIds, dropped)
    ensures forall w :: SpaceOk(tokenize, answers, now.SpaceOf(w))
    ensures forall other :: other != ws ==> now.SpaceOf(other) == m.SpaceOf(other)
  {
    var touched := if ws in m.store then m else m.(store := m.store[ws := map[]]);
    assert touched.SpaceOf(ws) == m.SpaceOf(ws);
    var after :| Synced(tokenize, touched.SpaceOf(ws), after, deletes, upserts, keepIds, dropped)
                 && now == touched.With(ws, after);
    hide Synced, SpaceOk;
    SyncedOk(tokenize, answers, m.SpaceOf(ws), after, deletes, upserts, keepIds, dropped);
    WriteThenRead(touched, ws, after);
    forall w
      ensures SpaceOk(tokenize, answers, now.SpaceOf(w)) && (w != ws ==> now.SpaceOf(w) == m.SpaceOf(w))
    {
      if w != ws {
        assert touched.SpaceOf(w) == m.SpaceOf(w);
      }
    }
  }

  lemma DropNone(sp: Space)
    ensures DropAll(sp, []) == sp
  {
  }

  lemma DropStep(m: Maps, ws: string, sp: Space, ids: seq<string>, id: string)
    requires m.Shape() && sp == m.SpaceOf(ws)
    ensures var now := m.With(ws, DropAll(sp, ids));
            && now.Shape() && ws in now.store && now.SpaceOf(ws) == DropAll(sp, ids)
            && now.With(ws, Dropped(DropAll(sp, ids), id)) == m.With(ws, DropAll(sp, ids + [id]))
  {
    DropsKeepGraph(sp, ids);
    DropsKeepGraph(sp, ids + [id]);
    assert DropAll(sp, ids + [id]) == Dropped(DropAll(sp, ids), id) by {
      assert (ids + [id])[..|ids|] == ids;
    }
    hide Dropped, DropAll;
    ReadBack(m, ws, DropAll(sp, ids), ws);
    WriteTwice(m, ws, DropAll(sp, ids), DropAll(sp, ids + [id]));
  }

  lemma UpsertStep(tokenize: string -> Terms, m: Maps, ws: string, sp: Space, cs: seq<Chunk>, c: Chunk)
    requires m.Shape() && sp == m.SpaceOf(ws)
    ensures var before := UpsertAll(tokenize, sp, cs);
            var now := m.With(ws, before);
            && now.Shape() && ws in now.store && now.SpaceOf(ws) == before
            && now.With(ws, Upserted(tokenize, before, c)) == m.With(ws, Upserted(tokenize, before, c))
  {
    var before := UpsertAll(tokenize, sp, cs);
    if sp.graph.Some? {
      UpsertsKeepGraph(tokenize, sp, cs);
    }
    if before.graph.Some? {
      GraphStays(tokenize, before, c, "");
    }
    hide Upserted, UpsertAll;
    ReadBack(m, ws, before, ws);
    WriteTwice(m, ws, before, Upserted(tokenize, before, c));
  }

  class Index {
    const tokenize: string -> Terms
    var store: map<string, Bucket>
    var imports: map<string, map<string, seq<string>>>
    var importedBy: map<string, map<string, seq<string>>>
    var symbols: map<string, map<string, string>>
    /** The answers that the embedding model has given so far. */
    ghost var answers: set<(string, Vector)>

    ghost function Now(): Maps
      reads this
    {
      Maps(store, imports, importedBy, symbols)
    }

    ghost predicate Valid()
      reads this
    {
      Now().Shape() && forall ws :: SpaceOk(tokenize, answers, Now().SpaceOf(ws))
    }

    constructor (tokenize: string -> Terms)
      ensures Valid() && this.tokenize == tokenize && answers == {}
      ensures Now() == Maps(map[], map[], map[], map[])
    {
      this.tokenize := tokenize;
      store, imports, importedBy, symbols := map[], map[], map[], map[];
      answers := {};
    }

    method LinkImports(ws: string, imps: seq<string>, path: string)
      requires ws in importedBy
      modifies this`importedBy
      ensures importedBy == old(importedBy)[ws := LinkAll(old(importedBy)[ws], imps, path)]
    {
      hide TrimSpace, AppendUnique;
      for i := 0 to |imps|
        invariant importedBy == old(importedBy)[ws := LinkAll(old(importedBy)[ws], imps[..i], path)]
      {
        assert imps[..i + 1][..i] == imps[..i];
        var imp := TrimSpace(imps[i]);
        if imp == "" {
          continue;
        }
        importedBy := importedBy[ws := importedBy[ws][imp := AppendUnique(ListOf(importedBy[ws], imp), path)]];
      }
      assert imps[..|imps|] == imps;
    }

    method MakeGraph(ws: string)
      requires Now().Shape()
      modifies this`imports, this`importedBy, this`symbols
      ensures Now() == Made(old(Now()), ws)
    {
      if ws !in imports {
        imports, importedBy, symbols := imports[ws := map[]], importedBy[ws := map[]], symbols[ws := map[]];
      }
    }

    method UpdateGraphLocked(ws: string, c: Chunk)
      requires Now().Shape()
      modifies this`imports, this`importedBy, this`symbols
      ensures Now() == old(Now()).WithGraph(ws, Linked(old(Now()).GraphOf(ws), c))
    {
      hide TrimSpace, Linked, Maps.Shape, Maps.GraphOf, Maps.WithGraph;
      var path := TrimSpace(c.path);
      if path == "" {
        NoPath(Now(), ws, c);
        return;
      }
      MadeGraph(Now(), ws, c);
      MakeGraph(ws);
      RecordImports(ws, c, path);
    }

    method RecordImports(ws: string, c: Chunk, path: string)
      requires Now().Shape() && Now().GraphOf(ws).Some? && path == TrimSpace(c.path) != ""
      modifies this`imports, this`importedBy, this`symbols
      ensures Now() == old(Now()).WithGraph(ws, Linked(old(Now()).GraphOf(ws), c))
    {
      hide TrimSpace, LinkAll;
      imports := imports[ws := imports[ws][path := c.imports]];
      LinkImports(ws, c.imports, path);
      var symbol := TrimSpace(c.symbol);
      if symbol != "" {
        symbols := symbols[ws := symbols[ws][symbol := c.id]];
      }
      Overwrite(old(symbols), ws, old(symbols)[ws], old(symbols)[ws]);
    }

    method UnlinkImports(ws: string, imps: seq<string>, path: string)
      modifies this`importedBy
      ensures importedBy == if ws in old(importedBy)
                            then old(importedBy)[ws := UnlinkAll(old(importedBy)[ws], imps, path)] else old(importedBy)
    {
      hide TrimSpace, RemoveString;
      for i := 0 to |imps|
        invariant importedBy == if ws in old(importedBy)
                                then old(importedBy)[ws := UnlinkAll(old(importedBy)[ws], imps[..i], path)]
                                else old(importedBy)
      {
        assert imps[..i + 1][..i] == imps[..i];
        var imp := TrimSpace(imps[i]);
        if imp == "" {
          continue;
        }
        if ws in importedBy {
          var rest := RemoveStringLoop(ListOf(importedBy[ws], imp), path);
          importedBy := importedBy[ws := importedBy[ws][imp := rest]];
        }
      }
      assert imps[..|imps|] == imps;
    }

    method RemoveGraphLocked(ws: string, c: Chunk)
      requires Now().Shape()
      modifies this`imports, this`importedBy, this`symbols
      ensures Now() == old(Now()).WithGraph(ws, Unlinked(old(Now()).GraphOf(ws), c))
    {
      hide TrimSpace, UnlinkAll;
      var path := TrimSpace(c.path);
      if path == "" {
        return;
      }
      if ws in imports {
        imports := imports[ws := imports[ws] - {path}];
      }
      UnlinkImports(ws, c.imports, path);
      var symbol := TrimSpace(c.symbol);
      if symbol != "" && ws in symbols && symbol in symbols[ws] && symbols[ws][symbol] == c.id {
        symbols := symbols[ws := symbols[ws] - {symbol}];
      }
    }

    method Drop(ws: string, id: string)
      requires Now().Shape() && ws in store
      modifies this`store, this`imports, this`importedBy, this`symbols
      ensures Now() == old(Now()).With(ws, Dropped(old(Now()).SpaceOf(ws), id))
    {
      hide Unlinked;
      WriteSame(Now(), ws);
      if id in store[ws] {
        RemoveGraphLocked(ws, store[ws][id].chunk);
        store := store[ws := store[ws] - {id}];
      }
    }

    method DeleteAll(ws: string, deletes: seq<string>)
      requires Now().Shape() && ws in store
      modifies this`store, this`imports, this`importedBy, this`symbols
      ensures Now() == old(Now()).With(ws, DropAll(old(Now()).SpaceOf(ws), Names(deletes)))
    {
      hide Dropped, TrimSpace, DropAll;
      ghost var m := Now();
      ghost var sp := m.SpaceOf(ws);
      WriteSame(m, ws);
      assert DropAll(sp, Names([])) == sp by { DropNone(sp); }
      for i := 0 to |deletes|
        invariant Now() == m.With(ws, DropAll(sp, Names(deletes[..i])))
      {
        assert deletes[..i + 1][..i] == deletes[..i];
        var id := TrimSpace(deletes[i]);
        ghost var names := Names(deletes[..i]);
        assert Names(deletes[..i + 1]) == if id != "" then names + [id] else names;
        if id != "" {
          DropStep(m, ws, sp, names, id);
          hide Names;
          Drop(ws, id);
        }
      }
      assert deletes[..|deletes|] == deletes;
    }

    method InsertAll(ws: string, upserts: seq<Chunk>)
      requires Now().Shape() && ws in store
      modifies this`store, this`imports, this`importedBy, this`symbols
      ensures Now() == old(Now()).With(ws, UpsertAll(tokenize, old(Now()).SpaceOf(ws), upserts))
    {
      hide TrimSpace, Upserted, Indexable;
      ghost var m := Now();
      ghost var sp := m.SpaceOf(ws);
      WriteSame(m, ws);
      for i := 0 to |upserts|
        invariant Now() == m.With(ws, UpsertAll(tokenize, sp, upserts[..i]))
      {
        assert upserts[..i + 1][..i] == upserts[..i];
        UpsertStep(tokenize, m, ws, sp, upserts[..i], upserts[i]);
        Insert(ws, upserts[i]);
      }
      assert upserts[..|upserts|] == upserts;
    }

    method Insert(ws: string, c: Chunk)
      requires Now().Shape() && ws in store
      modifies this`store, this`imports, this`importedBy, this`symbols
      ensures Now() == old(Now()).With(ws, Upserted(tokenize, old(Now()).SpaceOf(ws), c))
    {
      hide TrimSpace, Linked;
      WriteSame(Now(), ws);
      var id := TrimSpace(c.id);
      if id == "" || TrimSpace(c.content) == "" {
        return;
      }
      var embed := [];
      if id in store[ws] && store[ws][id].chunk.content == c.content {
        embed := store[ws][id].embed;
      }
      store := store[ws := store[ws][id := Entry(c, tokenize(c.content), embed)]];
      UpdateGraphLocked(ws, c);
    }

    method DropUnkept(ws: string, keepIds: seq<string>) returns (ghost dropped: seq<string>)
      requires Now().Shape() && ws in store && keepIds != []
      modifies this`store, this`imports, this`importedBy, this`symbols
      ensures Drops(old(Now()).SpaceOf(ws).bucket, keepIds, dropped)
      ensures Now() == old(Now()).With(ws, DropAll(old(Now()).SpaceOf(ws), dropped))
    {
      hide Dropped, TrimSpace, DropAll;
      var keep: set<string> := {};
      for i := 0 to |keepIds|
        invariant forall id :: id in keep <==> id in Names(keepIds[..i])
      {
        assert keepIds[..i + 1][..i] == keepIds[..i];
        var id := TrimSpace(keepIds[i]);
        if id != "" {
          keep := keep + {id};
        }
      }
      assert keepIds[..|keepIds|] == keepIds;
      hide Names;
      ghost var m := Now();
      ghost var sp := m.SpaceOf(ws);
      WriteSame(m, ws);
      DropNone(sp);
      dropped := [];
      var left: set<string> := store[ws].Keys;
      while left != {}
        invariant left <= sp.bucket.Keys
        invariant forall id :: id in dropped <==> id in sp.bucket && id !in left && id !in keep
        invariant NoDuplicates(dropped)
        invariant Now() == m.With(ws, DropAll(sp, dropped))
        decreases left
      {
        assert (forall id :: id !in left) ==> left == {};
        var id :| id in left;
        left := left - {id};
        if id in keep {
          continue;
        }
        DropStep(m, ws, sp, dropped, id);
        Drop(ws, id);
        dropped := dropped + [id];
      }
    }

    /**
     * The upserts are the chunks as they stand once oversized ones have been split. Exceeding
     * `maxChunks` is reported, not undone.
     */
    method Sync(workspace: string, upserts: seq<Chunk>, deletes: seq<string>, keepIds: seq<string>, maxChunks: int)
      returns (reply: SyncReply, ghost dropped: seq<string>)
      requires Valid()
      modifies this`store, this`imports, this`importedBy, this`symbols
      ensures Valid()
      ensures var ws := TrimSpace(workspace);
              if ws == "" then reply == Count(0) && Now() == old(Now())
              else
                && Synced(tokenize, old(Now()).SpaceOf(ws), Now().SpaceOf(ws), deletes, upserts, keepIds, dropped)
                && (forall other :: other != ws ==> Now().SpaceOf(other) == old(Now()).SpaceOf(other))
                && var n := |Now().SpaceOf(ws).bucket|;
                   reply == if maxChunks > 0 && n > maxChunks then OverLimit(n) else Count(n)
    {
      hide SpaceOk, TrimSpace, Synced, Merged, Maps.SpaceOf;
      var ws := TrimSpace(workspace);
      dropped := [];
      if ws == "" {
        return Count(0), dropped;
      }
      ghost var m := Now();
      if ws !in store {
        store := store[ws := map[]];
      }
      dropped := Merge(ws, upserts, deletes, keepIds);
      SyncKeepsSpaces(tokenize, answers, m, Now(), ws, deletes, upserts, keepIds, dropped);
      BucketRead(Now(), ws);
      var n := |store[ws]|;
      reply := if maxChunks > 0 && n > maxChunks then OverLimit(n) else Count(n);
    }

    method Merge(ws: string, upserts: seq<Chunk>, deletes: seq<string>, keepIds: seq<string>)
      returns (ghost dropped: seq<string>)
      requires Now().Shape() && ws in store
      modifies this`store, this`imports, this`importedBy, this`symbols
      ensures Merged(tokenize, old(Now()), Now(), ws, deletes, upserts, keepIds, dropped)
    {
      hide DropAll, UpsertAll, Drops, Names;
      ghost var m := Now();
      ghost var sp := m.SpaceOf(ws);
      DropsKeepGraph(sp, Names(deletes));
      WriteThenRead(m, ws, DropAll(sp, Names(deletes)));
      DeleteAll(ws, deletes);
      InsertAll(ws, upserts);
      ghost var kept := UpsertAll(tokenize, DropAll(sp, Names(deletes)), upserts);
      InsertWrites(tokenize, m, ws, DropAll(sp, Names(deletes)), upserts);
      dropped := [];
      if |keepIds| > 0 {
        dropped := DropUnkept(ws, keepIds);
        DropsKeepGraph(kept, dropped);
        WriteTwice(m, ws, kept, DropAll(kept, dropped));
      } else {
        DropNone(kept);
        NothingDropped(kept.bucket);
      }
    }

    /** A chunk without an embedding asks the model for it and keeps the answer. */
    method Embedding(ws: string, id: string, answer: Answer) returns (r: Option<Vector>)
      requires Valid() && ws in store && id in store[ws]
      modifies this`store, this`answers
      ensures Valid()
      ensures var sp := old(Now()).SpaceOf(ws);
              var e := sp.bucket[id];
              if e.embed != [] then r == Some(e.embed) && Now() == old(Now()) && answers == old(answers)
              else if answer.Embedded? then
                && r == Some(answer.v) && answers == old(answers) + {(e.chunk.content, answer.v)}
                && Now() == old(Now()).With(ws, Space(sp.bucket[id := e.(embed := answer.v)], sp.graph))
              else r == None && Now() == old(Now()) && answers == old(answers)
    {
      hide SpaceOk;
      var e := store[ws][id];
      if e.embed != [] {
        return Some(e.embed);
      }
      if !answer.Embedded? {
        return None;
      }
      ghost var m, given := Now(), answers;
      WriteSame(m, ws);
      store := store[ws := store[ws][id := e.(embed := answer.v)]];
      answers := answers + {(e.chunk.content, answer.v)};
      AnswerKeepsSpaces(tokenize, given, m, ws, id, answer.v);
      return Some(answer.v);
    }
  }

  lemma AnswerKept(tokenize: string -> Terms, given: set<(string, Vector)>, more: set<(string, Vector)>, sp: Space)
    requires SpaceOk(tokenize, given, sp) && given <= more
    ensures SpaceOk(tokenize, more, sp)
  {
    hide GraphOk, Indexable, TrimSpace;
  }

  lemma AnswerStored(tokenize: string -> Terms, given: set<(string, Vector)>, sp: Space, id: string, v: Vector)
    requires SpaceOk(tokenize, given, sp) && id in sp.bucket
    ensures var e := sp.bucket[id];
            SpaceOk(tokenize, given + {(e.chunk.content, v)}, Space(sp.bucket[id := e.(embed := v)], sp.graph))
  {
    hide GraphOk, Indexable, TrimSpace;
  }

  lemma AnswerKeepsSpaces(tokenize: string -> Terms, given: set<(string, Vector)>, m: Maps, ws: string, id: string, v: Vector)
    requires m.Shape() && (forall w :: SpaceOk(tokenize, given, m.SpaceOf(w)))
    requires ws in m.store && id in m.store[ws]
    ensures var sp := m.SpaceOf(ws);
            var e := sp.bucket[id];
            var now := m.With(ws, Space(sp.bucket[id := e.(embed := v)], sp.graph));
            now.Shape() && forall w :: SpaceOk(tokenize, given + {(e.chunk.content, v)}, now.SpaceOf(w))
  {
    var sp := m.SpaceOf(ws);
    var e := sp.bucket[id];
    var next := Space(sp.bucket[id := e.(embed := v)], sp.graph);
    var more := given + {(e.chunk.content, v)};
    AnswerStored(tokenize, given, sp, id, v);
    WriteThenRead(m, ws, next);
    hide SpaceOk;
    forall w
      ensures SpaceOk(tokenize, more, m.With(ws, next).SpaceOf(w))
    {
      if w != ws {
        AnswerKept(tokenize, given, more, m.SpaceOf(w));
      }
    }
  }

  // ----- Main results

  /** The ids a sync lets live: all of them, or those it was told to keep. */
  predicate Keeps(keepIds: seq<string>, id: string) {
    keepIds == [] || id in Names(keepIds)
  }

  /** A sync is map algebra: what was there, less the deletes, updated with the upserts, restricted to what is kept. */
  lemma SyncIsMapAlgebra(tokenize: string -> Terms, before: Space, after: Space, deletes: seq<string>,
                         upserts: seq<Chunk>, keepIds: seq<string>, dropped: seq<string>)
    requires Synced(tokenize, before, after, deletes, upserts, keepIds, dropped)
    ensures var left := map id | id in before.bucket && id !in Names(deletes) :: before.bucket[id].chunk;
            var merged := left + Latest(upserts);
            Chunks(after.bucket) == map id | id in merged && Keeps(keepIds, id) :: merged[id]
  {
    hide TrimSpace, Names, Latest, UpsertAll, DropAll;
    var deleted := DropAll(before, Names(deletes));
    var merged := UpsertAll(tokenize, deleted, upserts);
    DropsAreMapRemoval(before, Names(deletes));
    UpsertsAreMapUpdate(tokenize, deleted, upserts);
    DropsAreMapRemoval(merged, dropped);
    var left := map id | id in before.bucket && id !in Names(deletes) :: before.bucket[id].chunk;
    assert Chunks(deleted.bucket) == left;
    assert Chunks(merged.bucket) == left + Latest(upserts);
  }

  /** A sync keeps an embedding exactly for the chunks that were not deleted and whose content no upsert changed. */
  lemma SyncKeepsEmbedIff(tokenize: string -> Terms, before: Space, after: Space, deletes: seq<string>,
                          upserts: seq<Chunk>, keepIds: seq<string>, dropped: seq<string>, id: string)
    requires Synced(tokenize, before, after, deletes, upserts, keepIds, dropped) && id in after.bucket
    ensures after.bucket[id].embed
         == if id in before.bucket && id !in Names(deletes) && SameContent(upserts, id, before.bucket[id].chunk.content)
            then before.bucket[id].embed else []
  {
    hide TrimSpace, Names, UpsertAll, DropAll, SameContent;
    var deleted := DropAll(before, Names(deletes));
    DropsAreMapRemoval(before, Names(deletes));
    EmbedSurvivesIff(tokenize, deleted, upserts, id);
    DropsAreMapRemoval(UpsertAll(tokenize, deleted, upserts), dropped);
  }
}
