/** What internal/service/index.go does to one workspace: its bucket of chunks and its import graph. */
module ChunkIndex {
  import opened Options
  import opened Runes

  datatype Chunk = Chunk(id: string, path: string, language: string, content: string, symbol: string,
                         symbolType: string, imports: seq<string>)

  type Terms = map<string, int>

  type Vector = seq<real>

  /** An indexed chunk; `embed` is empty until it has been asked for. */
  datatype Entry = Entry(chunk: Chunk, terms: Terms, embed: Vector)

  type Bucket = map<string, Entry>

  datatype Graph = Graph(imports: map<string, seq<string>>, importedBy: map<string, seq<string>>,
                         symbols: map<string, string>)

  /** A workspace; it has no graph before the first chunk with a path. */
  datatype Space = Space(bucket: Bucket, graph: Option<Graph>)

  // ----- Lists of paths

  function AppendUnique(list: seq<string>, v: string): seq<string> {
    if v in list then list else list + [v]
  }

  function RemoveString(list: seq<string>, v: string): seq<string> {
    if list == [] then []
    else
      var last := list[|list| - 1];
      RemoveString(list[..|list| - 1], v) + if last != v then [last] else []
  }

  method RemoveStringLoop(list: seq<string>, v: string) returns (out: seq<string>)
    ensures out == RemoveString(list, v)
  {
    out := [];
    for i := 0 to |list|
      invariant out == RemoveString(list[..i], v)
    {
      assert list[..i + 1][..i] == list[..i];
      if list[i] != v {
        out := out + [list[i]];
      }
    }
    assert list[..|list|] == list;
  }

  lemma {:induction false} RemoveStringIs(list: seq<string>, v: string)
    ensures forall x :: x in RemoveString(list, v) <==> x in list && x != v
    ensures NoDuplicates(list) ==> NoDuplicates(RemoveString(list, v))
    decreases |list|
  {
    if list != [] {
      var front, last := list[..|list| - 1], list[|list| - 1];
      RemoveStringIs(front, v);
      assert list == front + [last];
      assert NoDuplicates(list) ==> NoDuplicates(front) && last !in front;
      var rest := RemoveString(front, v);
      assert forall i :: 0 <= i < |rest| ==> rest[i] in rest;
    }
  }

  // ----- The graph

  function ListOf(importers: map<string, seq<string>>, imp: string): seq<string> {
    if imp in importers then importers[imp] else []
  }

  /** `importedBy` once `path` is known to import each of `imps`. */
  function LinkAll(importers: map<string, seq<string>>, imps: seq<string>, path: string): map<string, seq<string>> {
    if imps == [] then importers
    else
      var before, imp := LinkAll(importers, imps[..|imps| - 1], path), TrimSpace(imps[|imps| - 1]);
      if imp == "" then before else before[imp := AppendUnique(ListOf(before, imp), path)]
  }

  function UnlinkAll(importers: map<string, seq<string>>, imps: seq<string>, path: string): map<string, seq<string>> {
    if imps == [] then importers
    else
      var before, imp := UnlinkAll(importers, imps[..|imps| - 1], path), TrimSpace(imps[|imps| - 1]);
      if imp == "" then before else before[imp := RemoveString(ListOf(before, imp), path)]
  }

  const NO_GRAPH := Graph(map[], map[], map[])

  function Linked(g: Option<Graph>, c: Chunk): Option<Graph> {
    var path, symbol := TrimSpace(c.path), TrimSpace(c.symbol);
    if path == "" then g
    else
      var base := if g.Some? then g.value else NO_GRAPH;
      Some(Graph(base.imports[path := c.imports], LinkAll(base.importedBy, c.imports, path),
                 if symbol != "" then base.symbols[symbol := c.id] else base.symbols))
  }

  function Unlinked(g: Option<Graph>, c: Chunk): Option<Graph> {
    var path, symbol := TrimSpace(c.path), TrimSpace(c.symbol);
    if path == "" || g.None? then g
    else
      Some(Graph(g.value.imports - {path}, UnlinkAll(g.value.importedBy, c.imports, path),
                 if symbol != "" && symbol in g.value.symbols && g.value.symbols[symbol] == c.id
                 then g.value.symbols - {symbol} else g.value.symbols))
  }

  // ----- The bucket and the graph together

  predicate Indexable(c: Chunk) {
    TrimSpace(c.id) != "" && TrimSpace(c.content) != ""
  }

  /** A chunk whose content did not change keeps its embedding. */
  function Put(tokenize: string -> Terms, bucket: Bucket, c: Chunk): Bucket {
    var id := TrimSpace(c.id);
    var embed := if id in bucket && bucket[id].chunk.content == c.content then bucket[id].embed else [];
    bucket[id := Entry(c, tokenize(c.content), embed)]
  }

  function Upserted(tokenize: string -> Terms, sp: Space, c: Chunk): Space {
    if Indexable(c) then Space(Put(tokenize, sp.bucket, c), Linked(sp.graph, c)) else sp
  }

  function UpsertAll(tokenize: string -> Terms, sp: Space, cs: seq<Chunk>): Space {
    if cs == [] then sp
    else Upserted(tokenize, UpsertAll(tokenize, sp, cs[..|cs| - 1]), cs[|cs| - 1])
  }

  function Dropped(sp: Space, id: string): Space {
    if id in sp.bucket then Space(sp.bucket - {id}, Unlinked(sp.graph, sp.bucket[id].chunk)) else sp
  }

  function DropAll(sp: Space, ids: seq<string>): Space {
    if ids == [] then sp else Dropped(DropAll(sp, ids[..|ids| - 1]), ids[|ids| - 1])
  }

  /** The ids that a list of ids names: trimmed, blanks ignored. */
  function Names(ids: seq<string>): seq<string> {
    if ids == [] then []
    else
      var id := TrimSpace(ids[|ids| - 1]);
      Names(ids[..|ids| - 1]) + if id != "" then [id] else []
  }

  // ----- Map algebra

  /** The last indexable chunk of each id. */
  function Latest(cs: seq<Chunk>): map<string, Chunk> {
    if cs == [] then map[]
    else
      var before, c := Latest(cs[..|cs| - 1]), cs[|cs| - 1];
      if Indexable(c) then before[TrimSpace(c.id) := c] else before
  }

  function Chunks(bucket: Bucket): map<string, Chunk> {
    map id | id in bucket :: bucket[id].chunk
  }

  lemma {:induction false} UpsertsAreMapUpdate(tokenize: string -> Terms, sp: Space, cs: seq<Chunk>)
    ensures Chunks(UpsertAll(tokenize, sp, cs).bucket) == Chunks(sp.bucket) + Latest(cs)
    decreases |cs|
  {
    hide TrimSpace, Linked, Put, Chunks;
    if cs == [] {
      assert Chunks(sp.bucket) + map[] == Chunks(sp.bucket);
    } else {
      var front, c := cs[..|cs| - 1], cs[|cs| - 1];
      UpsertsAreMapUpdate(tokenize, sp, front);
      PutIsUpdate(tokenize, UpsertAll(tokenize, sp, front).bucket, c);
      assert Indexable(c) ==>
          (Chunks(sp.bucket) + Latest(front))[TrimSpace(c.id) := c] == Chunks(sp.bucket) + Latest(front)[TrimSpace(c.id) := c];
    }
  }

  lemma PutIsUpdate(tokenize: string -> Terms, bucket: Bucket, c: Chunk)
    ensures Chunks(Put(tokenize, bucket, c)) == Chunks(bucket)[TrimSpace(c.id) := c]
  {
    hide TrimSpace;
  }

  lemma {:induction false} DropsAreMapRemoval(sp: Space, ids: seq<string>)
    ensures DropAll(sp, ids).bucket == map id | id in sp.bucket && id !in ids :: sp.bucket[id]
    decreases |ids|
  {
    hide Unlinked;
    if ids != [] {
      var front, last := ids[..|ids| - 1], ids[|ids| - 1];
      DropsAreMapRemoval(sp, front);
      assert ids == front + [last];
    }
  }

  /** An embedding survives upserts of its id exactly when none of them changes the content. */
  lemma {:induction false} EmbedSurvivesIff(tokenize: string -> Terms, sp: Space, cs: seq<Chunk>, id: string)
    ensures var after := UpsertAll(tokenize, sp, cs).bucket;
            && (id in sp.bucket ==> id in after)
            && (id in after ==>
                  after[id].embed == if id in sp.bucket && SameContent(cs, id, sp.bucket[id].chunk.content)
                                     then sp.bucket[id].embed else [])
            && (id in sp.bucket && SameContent(cs, id, sp.bucket[id].chunk.content) ==>
                  after[id].chunk.content == sp.bucket[id].chunk.content)
    decreases |cs|
  {
    hide TrimSpace, Linked;
    if cs != [] {
      var front, last := cs[..|cs| - 1], cs[|cs| - 1];
      EmbedSurvivesIff(tokenize, sp, front, id);
      assert cs == front + [last];
    }
  }

  ghost predicate SameContent(cs: seq<Chunk>, id: string, content: string) {
    forall c :: c in cs && Indexable(c) && TrimSpace(c.id) == id ==> c.content == content
  }

  // ----- The invariant of a workspace

  predicate ImportOk(g: Graph, path: string, k: nat) {
    path in g.imports && k < |g.imports[path]| && TrimSpace(g.imports[path][k]) != "" ==>
      path in ListOf(g.importedBy, TrimSpace(g.imports[path][k]))
  }

  ghost predicate Distinct(importers: map<string, seq<string>>) {
    forall imp :: imp in importers ==> NoDuplicates(importers[imp])
  }

  /** Every import of a path leads back to the path, and no path is listed twice. */
  ghost predicate GraphOk(g: Graph) {
    (forall path, k :: ImportOk(g, path, k)) && Distinct(g.importedBy)
  }

  /** `answers` are the pairs of a content and a vector that the model has answered it with. */
  ghost predicate EntryOk(tokenize: string -> Terms, answers: set<(string, Vector)>, id: string, e: Entry) {
    && TrimSpace(e.chunk.id) == id && Indexable(e.chunk)
    && e.terms == tokenize(e.chunk.content)
    && (e.embed != [] ==> (e.chunk.content, e.embed) in answers)
  }

  ghost predicate BucketOk(tokenize: string -> Terms, answers: set<(string, Vector)>, bucket: Bucket) {
    forall id :: id in bucket ==> EntryOk(tokenize, answers, id, bucket[id])
  }

  ghost predicate SpaceOk(tokenize: string -> Terms, answers: set<(string, Vector)>, sp: Space) {
    BucketOk(tokenize, answers, sp.bucket) && (sp.graph.Some? ==> GraphOk(sp.graph.value))
  }

  lemma LinkOk(importers: map<string, seq<string>>, imp: string, path: string)
    ensures var after := importers[imp := AppendUnique(ListOf(importers, imp), path)];
            && (forall i, p :: p in ListOf(importers, i) ==> p in ListOf(after, i))
            && path in ListOf(after, imp)
            && (Distinct(importers) ==> Distinct(after))
  {
  }

  lemma {:induction false} LinkAllOk(importers: map<string, seq<string>>, imps: seq<string>, path: string)
    ensures var after := LinkAll(importers, imps, path);
            && (forall imp, p :: p in ListOf(importers, imp) ==> p in ListOf(after, imp))
            && (forall k :: 0 <= k < |imps| && TrimSpace(imps[k]) != "" ==> path in ListOf(after, TrimSpace(imps[k])))
            && (Distinct(importers) ==> Distinct(after))
    decreases |imps|
  {
    hide TrimSpace, ListOf, AppendUnique, Distinct;
    if imps != [] {
      var front, imp := imps[..|imps| - 1], TrimSpace(imps[|imps| - 1]);
      LinkAllOk(importers, front, path);
      LinkOk(LinkAll(importers, front, path), imp, path);
    }
  }

  lemma {:induction false} UnlinkAllOk(importers: map<string, seq<string>>, imps: seq<string>, path: string)
    ensures var after := UnlinkAll(importers, imps, path);
            && (forall imp, p :: p != path && p in ListOf(importers, imp) ==> p in ListOf(after, imp))
            && (Distinct(importers) ==> Distinct(after))
    decreases |imps|
  {
    hide TrimSpace, RemoveString;
    if imps != [] {
      var front, imp := imps[..|imps| - 1], TrimSpace(imps[|imps| - 1]);
      UnlinkAllOk(importers, front, path);
      RemoveStringIs(ListOf(UnlinkAll(importers, front, path), imp), path);
    }
  }

  lemma LinkedOk(g: Option<Graph>, c: Chunk)
    requires g.Some? ==> GraphOk(g.value)
    ensures Linked(g, c).Some? ==> GraphOk(Linked(g, c).value)
  {
    hide TrimSpace;
    var path := TrimSpace(c.path);
    if path != "" {
      var base := if g.Some? then g.value else NO_GRAPH;
      var after := Linked(g, c).value;
      LinkAllOk(base.importedBy, c.imports, path);
      hide LinkAll, ListOf;
      forall p, k
        ensures ImportOk(after, p, k)
      {
        assert ImportOk(base, p, k);
      }
    }
  }

  lemma UnlinkedOk(g: Option<Graph>, c: Chunk)
    requires g.Some? ==> GraphOk(g.value)
    ensures Unlinked(g, c).Some? ==> GraphOk(Unlinked(g, c).value)
  {
    hide TrimSpace;
    var path := TrimSpace(c.path);
    if path != "" && g.Some? {
      var after := Unlinked(g, c).value;
      UnlinkAllOk(g.value.importedBy, c.imports, path);
      hide UnlinkAll, ListOf;
      forall p, k
        ensures ImportOk(after, p, k)
      {
        assert ImportOk(g.value, p, k);
      }
    }
  }

  lemma PutOk(tokenize: string -> Terms, answers: set<(string, Vector)>, bucket: Bucket, c: Chunk)
    requires BucketOk(tokenize, answers, bucket) && Indexable(c)
    ensures BucketOk(tokenize, answers, Put(tokenize, bucket, c))
  {
    hide TrimSpace;
  }

  lemma UpsertedOk(tokenize: string -> Terms, answers: set<(string, Vector)>, sp: Space, c: Chunk)
    requires SpaceOk(tokenize, answers, sp)
    ensures SpaceOk(tokenize, answers, Upserted(tokenize, sp, c))
  {
    LinkedOk(sp.graph, c);
    if Indexable(c) {
      PutOk(tokenize, answers, sp.bucket, c);
    }
    hide GraphOk, Linked, BucketOk, Put, TrimSpace;
  }

  lemma DroppedOk(tokenize: string -> Terms, answers: set<(string, Vector)>, sp: Space, id: string)
    requires SpaceOk(tokenize, answers, sp)
    ensures SpaceOk(tokenize, answers, Dropped(sp, id))
  {
    if id in sp.bucket {
      UnlinkedOk(sp.graph, sp.bucket[id].chunk);
    }
    hide GraphOk, Unlinked, EntryOk;
  }

  lemma {:induction false} UpsertAllOk(tokenize: string -> Terms, answers: set<(string, Vector)>, sp: Space, cs: seq<Chunk>)
    requires SpaceOk(tokenize, answers, sp)
    ensures SpaceOk(tokenize, answers, UpsertAll(tokenize, sp, cs))
    decreases |cs|
  {
    hide SpaceOk, Upserted;
    if cs != [] {
      UpsertAllOk(tokenize, answers, sp, cs[..|cs| - 1]);
      UpsertedOk(tokenize, answers, UpsertAll(tokenize, sp, cs[..|cs| - 1]), cs[|cs| - 1]);
    }
  }

  lemma {:induction false} DropAllOk(tokenize: string -> Terms, answers: set<(string, Vector)>, sp: Space, ids: seq<string>)
    requires SpaceOk(tokenize, answers, sp)
    ensures SpaceOk(tokenize, answers, DropAll(sp, ids))
    decreases |ids|
  {
    hide SpaceOk, Dropped;
    if ids != [] {
      DropAllOk(tokenize, answers, sp, ids[..|ids| - 1]);
      DroppedOk(tokenize, answers, DropAll(sp, ids[..|ids| - 1]), ids[|ids| - 1]);
    }
  }

  // ----- Where a chunk in the bucket comes from

  /** The chunk has a content and this id. */
  predicate IsFor(c: Chunk, id: string) {
    !Blank(c.id) && !Blank(c.content) && TrimSpace(c.id) == id
  }

  ghost predicate LastFor(cs: seq<Chunk>, k: nat, id: string) {
    k < |cs| && IsFor(cs[k], id) && forall j :: k < j < |cs| ==> !IsFor(cs[j], id)
  }

  /** After upserts an id leads to the last of the chunks with that id and a content, if there is one, and else to what
      it led to before. */
  lemma {:induction false} UpsertedIs(tokenize: string -> Terms, sp: Space, cs: seq<Chunk>, id: string)
    ensures var after := UpsertAll(tokenize, sp, cs).bucket;
            && (forall k: nat :: LastFor(cs, k, id) ==>
                  id in after && after[id].chunk == cs[k] && after[id].terms == tokenize(cs[k].content))
            && ((forall k :: 0 <= k < |cs| ==> !IsFor(cs[k], id)) ==>
                  (id in after <==> id in sp.bucket) && (id in after ==> after[id] == sp.bucket[id]))
    decreases |cs|
  {
    hide TrimSpace, Blank, Linked, IsFor;
    if cs != [] {
      var n := |cs| - 1;
      var front, c := cs[..n], cs[n];
      UpsertedIs(tokenize, sp, front, id);
      IsForMeans(c, id);
      forall k: nat | LastFor(cs, k, id)
        ensures k < n ==> LastFor(front, k, id) && !IsFor(c, id)
      {
      }
    }
  }

  lemma IsForMeans(c: Chunk, id: string)
    ensures IsFor(c, id) <==> Indexable(c) && TrimSpace(c.id) == id
  {
    TrimBlank(c.id);
    TrimBlank(c.content);
    hide TrimSpace, Blank;
  }
}
