/**
 Incremental ingestion of a document source into the catalog. A content hash
 is taken to be the content itself.
 */
module Catalog {
  import opened Wrappers
  import Chunking

  const CHUNK_TARGET_CHARS: int := 2048
  const CHUNK_OVERLAP_CHARS: nat := 256

  datatype Raw = Raw(uri: string, tenant: string, groups: seq<string>, content: string)

  // catalog.documents is unique on tenant and uri; there is one source.
  type Key = (string, string)

  datatype Doc = Doc(id: nat, content: string, groups: seq<string>, deleted: bool)

  // Ids come from a counter; `chunks` holds the rows of catalog.chunks by document id.
  datatype Tables = Tables(docs: map<Key, Doc>, chunks: map<nat, seq<Chunking.Chunk>>, nextId: nat)

  // Everything but the run itself holds for any chunker; the run's is `ChunksOf`.
  type Chunker = string -> seq<Chunking.Chunk>

  function ChunksOf(content: string): seq<Chunking.Chunk>
  {
    Chunking.ChunkBlocks(Chunking.BlocksBySection(content), CHUNK_TARGET_CHARS, CHUNK_OVERLAP_CHARS)
  }

  function Stored(t: Tables, id: nat): seq<Chunking.Chunk>
  {
    if id in t.chunks then t.chunks[id] else []
  }

  // None for a document that is absent or tombstoned.
  function Live(t: Tables, key: Key): Option<string>
  {
    if key in t.docs && !t.docs[key].deleted then Some(t.docs[key].content) else None
  }

  // ---- One document ----------------------------------------------------------------

  function IngestOne(chunk: Chunker, t: Tables, raw: Raw): (Tables, Option<nat>)
  {
    var key := (raw.tenant, raw.uri);
    if Live(t, key) == Some(raw.content) then (t, None)
    else
      var id := if key in t.docs then t.docs[key].id else t.nextId;
      (Tables(t.docs[key := Doc(id, raw.content, raw.groups, false)], t.chunks[id := chunk(raw.content)], t.nextId + 1), Some(id))
  }

  function IngestAll(chunk: Chunker, t: Tables, raws: seq<Raw>): (Tables, seq<nat>)
  {
    if raws == [] then (t, [])
    else
      var (before, changed) := IngestAll(chunk, t, raws[..|raws| - 1]);
      var (after, id) := IngestOne(chunk, before, raws[|raws| - 1]);
      (after, if id.Some? then changed + [id.value] else changed)
  }

  function ForTenant(source: seq<Raw>, tenant: string): (r: seq<Raw>)
    ensures forall x :: x in r <==> x in source && x.tenant == tenant
  {
    if source == [] then []
    else
      var rest, x := ForTenant(source[..|source| - 1], tenant), source[|source| - 1];
      if x.tenant == tenant then rest + [x] else rest
  }

  // ---- Documents that are gone --------------------------------------------------------

  function Seen(raws: seq<Raw>): (r: set<string>)
    ensures forall u :: u in r <==> exists i :: 0 <= i < |raws| && raws[i].uri == u
  {
    set i | 0 <= i < |raws| :: raws[i].uri
  }

  function Missing(t: Tables, tenant: string, seen: set<string>): (r: set<Key>)
    ensures r <= t.docs.Keys
  {
    set k | k in t.docs && k.0 == tenant && !t.docs[k].deleted && k.1 !in seen
  }

  function IdsOf(t: Tables, keys: set<Key>): set<nat>
    requires keys <= t.docs.Keys
  {
    set k | k in keys :: t.docs[k].id
  }

  function Tombstone(t: Tables, keys: set<Key>): Tables
    requires keys <= t.docs.Keys
  {
    t.(docs := map k | k in t.docs :: if k in keys then t.docs[k].(deleted := true) else t.docs[k],
       chunks := map id | id in t.chunks && id !in IdsOf(t, keys) :: t.chunks[id])
  }

  // ---- A run ----------------------------------------------------------------------------

  // `ids` is what the cache is told: documents changed, then documents gone.
  datatype Outcome = Completed(tables: Tables, changed: seq<nat>, gone: set<nat>) | Aborted(tables: Tables)
  {
    function Ids(): set<nat> { if Completed? then (set x | x in changed) + gone else {} }
  }

  // A document that raises ends the run: its error row names a run row that is only inserted at the end.
  function FirstFailure(fails: nat -> bool, n: nat): (k: nat)
    ensures k <= n && (k < n ==> fails(k)) && forall i: nat | i < k :: !fails(i)
  {
    if n == 0 then 0
    else
      var k := FirstFailure(fails, n - 1);
      if k < n - 1 || fails(n - 1) then k else n
  }

  // The transactions of a run are one for each document and a last one that tombstones and writes the run row; `fails`
  // numbers them, and StoppedAt is the first that failed.
  function StoppedAt(fails: nat -> bool, raws: seq<Raw>): (k: nat)
    ensures k <= |raws| + 1
  {
    FirstFailure(fails, |raws| + 1)
  }

  // The documents committed before the run stopped.
  function Committed(fails: nat -> bool, raws: seq<Raw>): seq<Raw>
  {
    var k := StoppedAt(fails, raws);
    if k <= |raws| then raws[..k] else raws
  }

  function RunIngestion(chunk: Chunker, t: Tables, tenant: string, source: seq<Raw>, fails: nat -> bool): Outcome
  {
    var raws := ForTenant(source, tenant);
    var (after, changed) := IngestAll(chunk, t, Committed(fails, raws));
    if StoppedAt(fails, raws) <= |raws| then Aborted(after)
    else
      var keys := Missing(after, tenant, Seen(raws));
      Completed(Tombstone(after, keys), changed, IdsOf(after, keys))
  }

  // ---- Invariant ---------------------------------------------------------------------------

  ghost predicate Wf(chunk: Chunker, t: Tables)
  {
    && (forall k <- t.docs :: t.docs[k].id < t.nextId)
    && (forall j, k | j in t.docs && k in t.docs && t.docs[j].id == t.docs[k].id :: j == k)
    && (forall k <- t.docs :: Stored(t, t.docs[k].id) == if t.docs[k].deleted then [] else chunk(t.docs[k].content))
  }

  lemma IngestOneKeeps(chunk: Chunker, t: Tables, raw: Raw)
    requires Wf(chunk, t)
    ensures Wf(chunk, IngestOne(chunk, t, raw).0)
  {
    var (after, id) := IngestOne(chunk, t, raw);
    var key := (raw.tenant, raw.uri);
    if id.Some? {
      assert after.docs[key] == Doc(id.value, raw.content, raw.groups, false);
      assert Stored(after, id.value) == chunk(raw.content);
      forall k | k in after.docs && k != key
        ensures after.docs[k] == t.docs[k] && t.docs[k].id != id.value && t.docs[k].id < after.nextId
        ensures Stored(after, t.docs[k].id) == Stored(t, t.docs[k].id)
      {
      }
    }
  }

  lemma {:induction false} IngestAllKeeps(chunk: Chunker, t: Tables, raws: seq<Raw>)
    requires Wf(chunk, t)
    ensures Wf(chunk, IngestAll(chunk, t, raws).0)
  {
    hide Wf, IngestOne;
    if raws != [] {
      IngestAllKeeps(chunk, t, raws[..|raws| - 1]);
      IngestOneKeeps(chunk, IngestAll(chunk, t, raws[..|raws| - 1]).0, raws[|raws| - 1]);
    }
  }

  lemma TombstoneKeeps(chunk: Chunker, t: Tables, keys: set<Key>)
    requires Wf(chunk, t) && keys <= t.docs.Keys
    ensures Wf(chunk, Tombstone(t, keys))
  {
    var after := Tombstone(t, keys);
    forall k | k in after.docs
      ensures Stored(after, after.docs[k].id) == if after.docs[k].deleted then [] else chunk(after.docs[k].content)
    {
      if k in keys {
        assert t.docs[k].id in IdsOf(t, keys);
      } else {
        forall j | j in keys ensures t.docs[j].id != t.docs[k].id {}
      }
    }
  }

  lemma RunKeepsWf(chunk: Chunker, t: Tables, tenant: string, source: seq<Raw>, fails: nat -> bool)
    requires Wf(chunk, t)
    ensures Wf(chunk, RunIngestion(chunk, t, tenant, source, fails).tables)
  {
    hide Wf, IngestAll, Tombstone;
    var raws := ForTenant(source, tenant);
    var committed := Committed(fails, raws);
    IngestAllKeeps(chunk, t, committed);
    if StoppedAt(fails, raws) > |raws| {
      var after := IngestAll(chunk, t, committed).0;
      TombstoneKeeps(chunk, after, Missing(after, tenant, Seen(raws)));
    }
  }

  // What is stored of a live document: its blocks packed to 2048 characters with an overlap of 256, so no chunk is longer
  // unless a block is.
  lemma StoredChunksAreBounded(t: Tables, key: Key, longest: nat)
    requires Wf(ChunksOf, t) && key in t.docs && !t.docs[key].deleted
    requires Chunking.NoLonger(Chunking.BlocksBySection(t.docs[key].content), longest)
    ensures Stored(t, t.docs[key].id) == Chunking.ChunkBlocks(Chunking.BlocksBySection(t.docs[key].content), 2048, 256)
    ensures forall c <- Stored(t, t.docs[key].id) :: |c.content| <= if longest <= 1790 then 2048 else 258 + longest
  {
    hide Chunking.ChunkBlocks, Chunking.BlocksBySection;
    Chunking.ChunksAreBounded(Chunking.BlocksBySection(t.docs[key].content), 2048, 256, longest);
  }

  // ---- What ingesting a list of documents does, key by key ------------------------------------

  predicate DistinctUris(raws: seq<Raw>)
  {
    forall i, j | 0 <= i < j < |raws| :: raws[i].uri != raws[j].uri
  }

  predicate AllOf(raws: seq<Raw>, tenant: string)
  {
    forall i | 0 <= i < |raws| :: raws[i].tenant == tenant
  }

  ghost predicate Untouched(t: Tables, after: Tables, key: Key)
  {
    (key in after.docs <==> key in t.docs) && (key in t.docs ==> after.docs[key] == t.docs[key])
  }

  // A key keeps its id for good.
  ghost predicate IdsStay(t: Tables, after: Tables)
  {
    forall k <- t.docs :: k in after.docs && after.docs[k].id == t.docs[k].id
  }

  // What one document of the source becomes, and whether it is reported.
  ghost predicate Ingested(t: Tables, after: Tables, changed: seq<nat>, raw: Raw)
  {
    var key := (raw.tenant, raw.uri);
    && key in after.docs && !after.docs[key].deleted && after.docs[key].content == raw.content
    && (after.docs[key].id in changed <==> Live(t, key) != Some(raw.content))
    && (Live(t, key) == Some(raw.content) ==> after.docs[key] == t.docs[key])
    && (Live(t, key) != Some(raw.content) ==> after.docs[key].groups == raw.groups)
  }

  ghost predicate Effect(t: Tables, tenant: string, raws: seq<Raw>, after: Tables, changed: seq<nat>)
  {
    && IdsStay(t, after)
    && (forall i | 0 <= i < |raws| :: Ingested(t, after, changed, raws[i]))
    && (forall k: Key | k.0 != tenant || k.1 !in Seen(raws) :: Untouched(t, after, k))
    && (forall id <- changed :: exists i :: ReportedFor(raws, after, id, i))
  }

  predicate ReportedFor(raws: seq<Raw>, after: Tables, id: nat, i: int)
  {
    0 <= i < |raws| && (raws[i].tenant, raws[i].uri) in after.docs && after.docs[(raws[i].tenant, raws[i].uri)].id == id
  }

  // One document changes its own row and nothing else.
  lemma IngestOneEffect(chunk: Chunker, t: Tables, raw: Raw)
    requires Wf(chunk, t)
    ensures var (after, id) := IngestOne(chunk, t, raw);
            var key := (raw.tenant, raw.uri);
            && IdsStay(t, after) && (forall k: Key | k != key :: Untouched(t, after, k))
            && Ingested(t, after, if id.Some? then [id.value] else [], raw)
            && key in after.docs && (id.Some? ==> after.docs[key].id == id.value)
  {
  }

  lemma NotSeen(raws: seq<Raw>, n: nat)
    requires n < |raws| && DistinctUris(raws)
    ensures DistinctUris(raws[..n]) && raws[n].uri !in Seen(raws[..n])
    ensures forall u :: u in Seen(raws[..n + 1]) <==> u in Seen(raws[..n]) || u == raws[n].uri
  {
    forall u ensures u in Seen(raws[..n + 1]) <==> u in Seen(raws[..n]) || u == raws[n].uri {
      if u in Seen(raws[..n + 1]) {
        var i :| 0 <= i < n + 1 && raws[..n + 1][i].uri == u;
        if i < n { assert raws[..n][i].uri == u; }
      }
      if u in Seen(raws[..n]) {
        var i :| 0 <= i < n && raws[..n][i].uri == u;
        assert raws[..n + 1][i].uri == u;
      }
      assert raws[..n + 1][n].uri == raws[n].uri;
    }
  }

  // Ingesting one more document leaves what earlier ones became as it was.
  lemma EarlierStays(chunk: Chunker, t: Tables, mid: Tables, after: Tables, changed: seq<nat>, id: Option<nat>, earlier: Raw, raw: Raw)
    requires Ingested(t, mid, changed, earlier) && Wf(chunk, after)
    requires (earlier.tenant, earlier.uri) != (raw.tenant, raw.uri)
    requires Untouched(mid, after, (earlier.tenant, earlier.uri))
    requires id.Some? ==> (raw.tenant, raw.uri) in after.docs && after.docs[(raw.tenant, raw.uri)].id == id.value
    ensures Ingested(t, after, if id.Some? then changed + [id.value] else changed, earlier)
  {
  }

  lemma NewIsIngested(t: Tables, mid: Tables, after: Tables, changed: seq<nat>, id: Option<nat>, raw: Raw)
    requires Untouched(t, mid, (raw.tenant, raw.uri))
    requires Ingested(mid, after, if id.Some? then [id.value] else [], raw)
    requires id.Some? ==> after.docs[(raw.tenant, raw.uri)].id == id.value
    requires after.docs[(raw.tenant, raw.uri)].id !in changed
    ensures Ingested(t, after, if id.Some? then changed + [id.value] else changed, raw)
  {
  }

  lemma {:induction false} IngestAllEffect(chunk: Chunker, t: Tables, tenant: string, raws: seq<Raw>)
    requires Wf(chunk, t) && DistinctUris(raws) && AllOf(raws, tenant)
    ensures var (after, changed) := IngestAll(chunk, t, raws); Effect(t, tenant, raws, after, changed)
  {
    hide IngestOne, Wf, Ingested;
    if raws == [] {
      return;
    }
    var n := |raws| - 1;
    var (init, raw) := (raws[..n], raws[n]);
    var (mid, before) := IngestAll(chunk, t, init);
    var (after, changed) := IngestAll(chunk, t, raws);
    var id := IngestOne(chunk, mid, raw).1;
    NotSeen(raws, n);
    assert raws[..n + 1] == raws;
    IngestAllEffect(chunk, t, tenant, init);
    IngestAllKeeps(chunk, t, init);
    IngestOneKeeps(chunk, mid, raw);
    IngestOneEffect(chunk, mid, raw);
    forall i | 0 <= i < n ensures Ingested(t, after, changed, raws[i]) {
      assert init[i] == raws[i] && raws[i].uri != raw.uri;
      assert Ingested(t, mid, before, init[i]);
      EarlierStays(chunk, t, mid, after, before, id, raws[i], raw);
    }
    FreshInReport(chunk, tenant, init, mid, before, after, raw);
    NewIsIngested(t, mid, after, before, id, raw);
    forall x | x in changed ensures exists i :: ReportedFor(raws, after, x, i) {
      if x in before {
        var i :| ReportedFor(init, mid, x, i);
        assert init[i].uri in Seen(init);
        assert Untouched(mid, after, (init[i].tenant, init[i].uri));
        assert ReportedFor(raws, after, x, i);
      } else {
        assert ReportedFor(raws, after, x, n);
      }
    }
    UntouchedTwice(t, tenant, raws, mid, after, raw);
  }

  lemma UntouchedTwice(t: Tables, tenant: string, raws: seq<Raw>, mid: Tables, after: Tables, raw: Raw)
    requires raws != [] && raws[|raws| - 1] == raw && raw.tenant == tenant && DistinctUris(raws)
    requires forall k: Key | k.0 != tenant || k.1 !in Seen(raws[..|raws| - 1]) :: Untouched(t, mid, k)
    requires forall k: Key | k != (raw.tenant, raw.uri) :: Untouched(mid, after, k)
    ensures forall k: Key | k.0 != tenant || k.1 !in Seen(raws) :: Untouched(t, after, k)
  {
    NotSeen(raws, |raws| - 1);
    assert raws[..|raws| - 1 + 1] == raws;
    forall k: Key | k.0 != tenant || k.1 !in Seen(raws) ensures Untouched(t, after, k) {
      assert Untouched(t, mid, k) && Untouched(mid, after, k);
    }
  }

  // Nothing reported so far has the id of a document not ingested yet.
  lemma FreshInReport(chunk: Chunker, tenant: string, init: seq<Raw>, mid: Tables, before: seq<nat>, after: Tables, raw: Raw)
    requires Wf(chunk, after) && AllOf(init, tenant) && raw.tenant == tenant && raw.uri !in Seen(init)
    requires forall id <- before :: exists i :: ReportedFor(init, mid, id, i)
    requires forall k: Key | k != (raw.tenant, raw.uri) :: Untouched(mid, after, k)
    requires (raw.tenant, raw.uri) in after.docs
    ensures after.docs[(raw.tenant, raw.uri)].id !in before
  {
    hide Stored;
    var key := (raw.tenant, raw.uri);
    forall x | x in before ensures x != after.docs[key].id {
      var i :| ReportedFor(init, mid, x, i);
      var k := (init[i].tenant, init[i].uri);
      assert init[i].uri in Seen(init);
      assert Untouched(mid, after, k);
    }
  }

  // ---- Main results ---------------------------------------------------------------------------

  // What the source says of one uri.
  function InSource(raws: seq<Raw>, uri: string): (c: Option<string>)
    ensures c.None? ==> uri !in Seen(raws)
    ensures c.Some? ==> exists i :: 0 <= i < |raws| && raws[i].uri == uri && raws[i].content == c.value
  {
    if raws == [] then None
    else
      var n := |raws| - 1;
      assert forall u :: u in Seen(raws) ==> u in Seen(raws[..n]) || u == raws[n].uri by {
        forall u | u in Seen(raws) ensures u in Seen(raws[..n]) || u == raws[n].uri {
          var i :| 0 <= i < |raws| && raws[i].uri == u;
          if i < n { assert raws[..n][i].uri == u; }
        }
      }
      if raws[n].uri == uri then Some(raws[n].content)
      else
        var c := InSource(raws[..n], uri);
        assert c.Some? ==> exists i :: 0 <= i < n && raws[..n][i].uri == uri && raws[..n][i].content == c.value;
        c
  }

  const NO_FAILURES: nat -> bool := i => false

  lemma {:induction false} TenantOnly(source: seq<Raw>, tenant: string)
    ensures AllOf(ForTenant(source, tenant), tenant)
  {
    var raws := ForTenant(source, tenant);
    forall i | 0 <= i < |raws| ensures raws[i].tenant == tenant { assert raws[i] in raws; }
  }

  // Live contents of a tenant, after an error-free run.
  ghost predicate InSync(t: Tables, tenant: string, raws: seq<Raw>)
  {
    forall uri: string :: Live(t, (tenant, uri)) == InSource(raws, uri)
  }

  // An id is reported exactly when it belongs to a document whose live content the run changed.
  ghost predicate ReportsExactly(t: Tables, after: Tables, tenant: string, ids: set<nat>)
  {
    && (forall key: Key | key.0 == tenant && key in after.docs ::
          after.docs[key].id in ids <==> Live(t, key) != Live(after, key))
    && (forall id <- ids :: exists key :: OwnedBy(after, tenant, key, id))
  }

  predicate OwnedBy(t: Tables, tenant: string, key: Key, id: nat)
  {
    key in t.docs && key.0 == tenant && t.docs[key].id == id
  }

  lemma TombstoneRows(t: Tables, keys: set<Key>)
    requires keys <= t.docs.Keys
    ensures var after := Tombstone(t, keys);
            && IdsStay(t, after) && after.docs.Keys == t.docs.Keys
            && (forall k: Key | k !in keys :: Untouched(t, after, k))
            && (forall k <- keys :: Live(after, k) == None)
  {
  }

  lemma RunIs(chunk: Chunker, t: Tables, tenant: string, source: seq<Raw>)
    ensures var raws := ForTenant(source, tenant);
            var (mid, changed) := IngestAll(chunk, t, raws);
            var keys := Missing(mid, tenant, Seen(raws));
            RunIngestion(chunk, t, tenant, source, NO_FAILURES) == Completed(Tombstone(mid, keys), changed, IdsOf(mid, keys))
  {
    hide IngestAll, Tombstone, IdsOf, Missing, Seen, ForTenant;
    var raws := ForTenant(source, tenant);
    assert raws[..|raws|] == raws;
  }

  // Which rows the end of a run tombstones, and that it leaves the rest alone.
  ghost predicate Swept(mid: Tables, after: Tables, keys: set<Key>)
  {
    && IdsStay(mid, after) && after.docs.Keys == mid.docs.Keys
    && (forall k: Key | k !in keys :: Untouched(mid, after, k)) && (forall k <- keys :: Live(after, k) == None)
  }

  lemma RunInTwo(chunk: Chunker, t: Tables, tenant: string, source: seq<Raw>)
    requires Wf(chunk, t) && DistinctUris(ForTenant(source, tenant))
    ensures var raws := ForTenant(source, tenant);
            var (mid, changed) := IngestAll(chunk, t, raws);
            var keys := Missing(mid, tenant, Seen(raws));
            && AllOf(raws, tenant) && Wf(chunk, mid)
            && Effect(t, tenant, raws, mid, changed) && Swept(mid, Tombstone(mid, keys), keys)
            && RunIngestion(chunk, t, tenant, source, NO_FAILURES) == Completed(Tombstone(mid, keys), changed, IdsOf(mid, keys))
  {
    hide IngestAll, Tombstone, Wf, Effect, IdsOf, Seen;
    var raws := ForTenant(source, tenant);
    RunIs(chunk, t, tenant, source);
    TenantOnly(source, tenant);
    IngestAllEffect(chunk, t, tenant, raws);
    IngestAllKeeps(chunk, t, raws);
    TombstoneRows(IngestAll(chunk, t, raws).0, Missing(IngestAll(chunk, t, raws).0, tenant, Seen(raws)));
  }

  lemma OthersUntouched(t: Tables, tenant: string, raws: seq<Raw>, mid: Tables, changed: seq<nat>, after: Tables, key: Key)
    requires Effect(t, tenant, raws, mid, changed) && Swept(mid, after, Missing(mid, tenant, Seen(raws))) && key.0 != tenant
    ensures Untouched(t, after, key)
  {
    hide Seen;
    assert Untouched(t, mid, key) && Untouched(mid, after, key);
  }

  // After an error-free run the tenant's live documents are exactly the source's, and no other tenant's row moved.
  lemma RunSyncs(chunk: Chunker, t: Tables, tenant: string, source: seq<Raw>)
    requires Wf(chunk, t) && DistinctUris(ForTenant(source, tenant))
    ensures var out := RunIngestion(chunk, t, tenant, source, NO_FAILURES);
            && InSync(out.tables, tenant, ForTenant(source, tenant)) && Wf(chunk, out.tables)
            && (forall key: Key | key.0 != tenant :: Untouched(t, out.tables, key))
  {
    hide IngestAll, Tombstone, Wf, InSource, IdsOf, Effect, Swept, Untouched, Missing, Seen, RunIngestion, Live;
    var raws := ForTenant(source, tenant);
    var (mid, changed) := IngestAll(chunk, t, raws);
    var after := Tombstone(mid, Missing(mid, tenant, Seen(raws)));
    RunInTwo(chunk, t, tenant, source);
    RunKeepsWf(chunk, t, tenant, source, NO_FAILURES);
    forall uri: string ensures Live(after, (tenant, uri)) == InSource(raws, uri) {
      LiveIsSource(t, tenant, raws, mid, changed, after, uri);
    }
    forall key: Key | key.0 != tenant ensures Untouched(t, after, key) {
      OthersUntouched(t, tenant, raws, mid, changed, after, key);
    }
  }

  lemma LiveIsSource(t: Tables, tenant: string, raws: seq<Raw>, mid: Tables, changed: seq<nat>, after: Tables, uri: string)
    requires Effect(t, tenant, raws, mid, changed) && AllOf(raws, tenant)
    requires Swept(mid, after, Missing(mid, tenant, Seen(raws)))
    ensures Live(after, (tenant, uri)) == InSource(raws, uri)
  {
    hide Seen;
    var key := (tenant, uri);
    var c := InSource(raws, uri);
    if c.Some? {
      var i :| 0 <= i < |raws| && raws[i].uri == uri && raws[i].content == c.value;
      assert Ingested(t, mid, changed, raws[i]);
      assert uri in Seen(raws);
      assert Untouched(mid, after, key);
    } else if key !in Missing(mid, tenant, Seen(raws)) {
      assert Untouched(mid, after, key);
    }
  }

  // The ids the cache is told of are exactly those of the documents whose live content differs.
  lemma RunReportsExactly(chunk: Chunker, t: Tables, tenant: string, source: seq<Raw>)
    requires Wf(chunk, t) && DistinctUris(ForTenant(source, tenant))
    ensures var out := RunIngestion(chunk, t, tenant, source, NO_FAILURES);
            ReportsExactly(t, out.tables, tenant, out.Ids()) && IdsStay(t, out.tables)
  {
    hide IngestAll, Tombstone, Wf, InSource, Seen, RunIngestion, Live, Missing;
    var raws := ForTenant(source, tenant);
    var (mid, changed) := IngestAll(chunk, t, raws);
    var keys := Missing(mid, tenant, Seen(raws));
    var after := Tombstone(mid, keys);
    var out := RunIngestion(chunk, t, tenant, source, NO_FAILURES);
    RunInTwo(chunk, t, tenant, source);
    forall key: Key | key.0 == tenant && key in after.docs
      ensures after.docs[key].id in out.Ids() <==> Live(t, key) != Live(after, key)
    {
      KeyIsReported(chunk, t, tenant, raws, mid, changed, after, key);
    }
    ReportedIsOwned(t, tenant, raws, mid, changed, after, out.Ids());
  }

  lemma ReportedIsOwned(t: Tables, tenant: string, raws: seq<Raw>, mid: Tables, changed: seq<nat>, after: Tables, ids: set<nat>)
    requires Effect(t, tenant, raws, mid, changed) && AllOf(raws, tenant)
    requires Swept(mid, after, Missing(mid, tenant, Seen(raws)))
    requires ids == (set x | x in changed) + IdsOf(mid, Missing(mid, tenant, Seen(raws)))
    ensures forall id <- ids :: exists key :: OwnedBy(after, tenant, key, id)
  {
    hide Seen, Missing;
    var keys := Missing(mid, tenant, Seen(raws));
    forall id | id in ids ensures exists key :: OwnedBy(after, tenant, key, id) {
      if id in changed {
        var i :| ReportedFor(raws, mid, id, i);
        assert OwnedBy(after, tenant, (tenant, raws[i].uri), id);
      } else {
        var k :| k in keys && mid.docs[k].id == id;
        MissingIsTheirs(mid, tenant, Seen(raws), k);
        assert OwnedBy(after, tenant, k, id);
      }
    }
  }

  lemma MissingIsTheirs(t: Tables, tenant: string, seen: set<string>, k: Key)
    requires k in Missing(t, tenant, seen)
    ensures k in t.docs && k.0 == tenant
  {
  }

  lemma KeyIsReported(chunk: Chunker, t: Tables, tenant: string, raws: seq<Raw>, mid: Tables, changed: seq<nat>, after: Tables, key: Key)
    requires Effect(t, tenant, raws, mid, changed) && AllOf(raws, tenant) && Wf(chunk, mid)
    requires key.0 == tenant && key in after.docs && Swept(mid, after, Missing(mid, tenant, Seen(raws)))
    ensures var keys := Missing(mid, tenant, Seen(raws));
            after.docs[key].id in (set x | x in changed) + IdsOf(mid, keys) <==> Live(t, key) != Live(after, key)
  {
    hide Stored;
    var keys := Missing(mid, tenant, Seen(raws));
    var id := mid.docs[key].id;
    assert id in IdsOf(mid, keys) <==> key in keys by {
      if id in IdsOf(mid, keys) {
        var k :| k in keys && mid.docs[k].id == id;
        assert k == key;
      }
    }
    if key.1 in Seen(raws) {
      var i :| 0 <= i < |raws| && raws[i].uri == key.1;
      assert Ingested(t, mid, changed, raws[i]);
      assert Untouched(mid, after, key);
    } else {
      assert Untouched(t, mid, key);
      forall x | x in changed ensures x != id {
        var i :| ReportedFor(raws, mid, x, i);
        assert raws[i].uri in Seen(raws);
      }
      if key !in keys { assert Untouched(mid, after, key); }
    }
  }

  // Running again over the same source changes nothing and reports nothing.
  lemma {:induction false} InSyncIsSkipped(chunk: Chunker, t: Tables, raws: seq<Raw>)
    requires forall i | 0 <= i < |raws| :: Live(t, (raws[i].tenant, raws[i].uri)) == Some(raws[i].content)
    ensures IngestAll(chunk, t, raws) == (t, [])
  {
    if raws != [] {
      InSyncIsSkipped(chunk, t, raws[..|raws| - 1]);
    }
  }

  lemma SecondRunIsIdle(chunk: Chunker, t: Tables, tenant: string, source: seq<Raw>)
    requires Wf(chunk, t) && DistinctUris(ForTenant(source, tenant))
    ensures var after := RunIngestion(chunk, t, tenant, source, NO_FAILURES).tables;
            RunIngestion(chunk, after, tenant, source, NO_FAILURES) == Completed(after, [], {})
  {
    hide IngestAll, Tombstone, Wf, Seen, InSource, ForTenant, RunIngestion;
    var raws := ForTenant(source, tenant);
    var after := RunIngestion(chunk, t, tenant, source, NO_FAILURES).tables;
    RunSyncs(chunk, t, tenant, source);
    TenantOnly(source, tenant);
    forall i | 0 <= i < |raws| ensures Live(after, (raws[i].tenant, raws[i].uri)) == Some(raws[i].content) {
      SourceOfOne(raws, i);
      assert Live(after, (tenant, raws[i].uri)) == InSource(raws, raws[i].uri);
    }
    InSyncIsSkipped(chunk, after, raws);
    forall k | k in Missing(after, tenant, Seen(raws)) ensures false {
      assert Live(after, (tenant, k.1)) == InSource(raws, k.1);
      SeenInSource(raws, k.1);
    }
    RunIs(chunk, after, tenant, source);
    TombstoneNothing(after);
    assert Missing(after, tenant, Seen(raws)) == {};
  }

  lemma TombstoneNothing(t: Tables)
    ensures Tombstone(t, {}) == t && IdsOf(t, {}) == {}
  {
    assert IdsOf(t, {}) == {};
    assert Tombstone(t, {}).docs == t.docs;
    assert Tombstone(t, {}).chunks == t.chunks;
  }

  lemma SeenInSource(raws: seq<Raw>, uri: string)
    requires InSource(raws, uri).Some?
    ensures uri in Seen(raws)
  {
    var i :| 0 <= i < |raws| && raws[i].uri == uri && raws[i].content == InSource(raws, uri).value;
    assert raws[i].uri in Seen(raws);
  }

  lemma SourceOfOne(raws: seq<Raw>, i: nat)
    requires i < |raws| && DistinctUris(raws)
    ensures InSource(raws, raws[i].uri) == Some(raws[i].content)
  {
    var c := InSource(raws, raws[i].uri);
    assert raws[i].uri in Seen(raws);
    if c.Some? {
      var j :| 0 <= j < |raws| && raws[j].uri == raws[i].uri && raws[j].content == c.value;
    }
  }

  // ---- What the run does not promise -----------------------------------------------------------

  // The hash covers the body alone: a document whose body stands keeps the groups it had, whatever the source now says.
  lemma GroupsFollowTheBody(chunk: Chunker, t: Tables, tenant: string, source: seq<Raw>, i: nat)
    requires Wf(chunk, t) && DistinctUris(ForTenant(source, tenant)) && i < |ForTenant(source, tenant)|
    ensures var after := RunIngestion(chunk, t, tenant, source, NO_FAILURES).tables;
            var raw := ForTenant(source, tenant)[i];
            var key := (tenant, raw.uri);
            && key in after.docs
            && (after.docs[key].groups == raw.groups
                <==> Live(t, key) != Some(raw.content) || t.docs[key].groups == raw.groups)
  {
    hide IngestAll, Tombstone, Wf, IdsOf, RunIngestion, Missing;
    var raws := ForTenant(source, tenant);
    var (mid, changed) := IngestAll(chunk, t, raws);
    var keys := Missing(mid, tenant, Seen(raws));
    RunInTwo(chunk, t, tenant, source);
    assert Ingested(t, mid, changed, raws[i]);
    assert raws[i].uri in Seen(raws);
    NotMissing(mid, tenant, Seen(raws), (tenant, raws[i].uri));
    assert Untouched(mid, Tombstone(mid, keys), (tenant, raws[i].uri));
  }

  lemma NotMissing(t: Tables, tenant: string, seen: set<string>, k: Key)
    requires k.1 in seen
    ensures k !in Missing(t, tenant, seen)
  {
  }

  lemma PrefixUris(raws: seq<Raw>, k: nat, tenant: string)
    requires k <= |raws| && DistinctUris(raws) && AllOf(raws, tenant)
    ensures DistinctUris(raws[..k]) && AllOf(raws[..k], tenant)
  {
  }

  // A run that a failure stops, of a document or of its last transaction, reports nothing, and the run that follows it takes what the first one changed for unchanged:
  // the cache is never told of those documents.
  lemma AbortedChangesAreNeverReported(chunk: Chunker, t: Tables, tenant: string, source: seq<Raw>, fails: nat -> bool, i: nat)
    requires Wf(chunk, t) && DistinctUris(ForTenant(source, tenant))
    requires i < StoppedAt(fails, ForTenant(source, tenant)) <= |ForTenant(source, tenant)|
    ensures var first := RunIngestion(chunk, t, tenant, source, fails);
            var second := RunIngestion(chunk, first.tables, tenant, source, NO_FAILURES);
            var raw := ForTenant(source, tenant)[i];
            && first.Aborted? && Live(first.tables, (tenant, raw.uri)) == Some(raw.content)
            && (tenant, raw.uri) in second.tables.docs
            && second.tables.docs[(tenant, raw.uri)].id !in first.Ids() + second.Ids()
  {
    hide IngestAll, Wf, Tombstone, InSource, FirstFailure, Missing, IdsOf;
    var raws := ForTenant(source, tenant);
    var k := StoppedAt(fails, raws);
    var (mid, changed) := IngestAll(chunk, t, raws[..k]);
    var raw := raws[i];
    TenantOnly(source, tenant);
    PrefixUris(raws, k, tenant);
    IngestAllEffect(chunk, t, tenant, raws[..k]);
    assert raws[..k][i] == raw;
    assert Ingested(t, mid, changed, raws[..k][i]);
    RunKeepsWf(chunk, t, tenant, source, fails);
    RunSyncs(chunk, mid, tenant, source);
    RunReportsExactly(chunk, mid, tenant, source);
    SourceOfOne(raws, i);
    var after := RunIngestion(chunk, mid, tenant, source, NO_FAILURES).tables;
    assert Live(after, (tenant, raw.uri)) == InSource(raws, raw.uri);
  }

  // A run tells the cache of everything it changed exactly when none of its transactions failed, or no document committed
  // before that had changed.
  lemma ReportIsComplete(chunk: Chunker, t: Tables, tenant: string, source: seq<Raw>, fails: nat -> bool)
    requires Wf(chunk, t) && DistinctUris(ForTenant(source, tenant))
    ensures var raws := ForTenant(source, tenant);
            var out := RunIngestion(chunk, t, tenant, source, fails);
            (forall key: Key :: ToldOf(t, out, tenant, key))
            <==> (forall i: nat | i <= |raws| :: !fails(i))
                 || forall raw <- Committed(fails, raws) :: Live(t, (tenant, raw.uri)) == Some(raw.content)
  {
    hide IngestAll, Wf, FirstFailure, RunIngestion, Live, Seen, ForTenant, Outcome.Ids, Committed;
    var raws := ForTenant(source, tenant);
    var committed := Committed(fails, raws);
    var out := RunIngestion(chunk, t, tenant, source, fails);
    CompletesExactly(chunk, t, tenant, source, fails);
    if out.Completed? {
      CompletedTellsAll(chunk, t, tenant, source, fails);
    } else {
      TenantOnly(source, tenant);
      CommittedUris(fails, raws, tenant);
      AbortedIs(chunk, t, tenant, source, fails);
      IngestAllEffect(chunk, t, tenant, committed);
      AbortedTells(t, tenant, committed, out, IngestAll(chunk, t, committed).1);
    }
  }

  lemma CompletesExactly(chunk: Chunker, t: Tables, tenant: string, source: seq<Raw>, fails: nat -> bool)
    ensures RunIngestion(chunk, t, tenant, source, fails).Completed?
            <==> forall i: nat | i <= |ForTenant(source, tenant)| :: !fails(i)
  {
    hide IngestAll, Tombstone, Missing, IdsOf, Seen, ForTenant;
  }

  lemma CommittedUris(fails: nat -> bool, raws: seq<Raw>, tenant: string)
    requires DistinctUris(raws) && AllOf(raws, tenant)
    ensures DistinctUris(Committed(fails, raws)) && AllOf(Committed(fails, raws), tenant)
  {}

  // If the run changed what the document says, its id is in the report.
  predicate ToldOf(t: Tables, out: Outcome, tenant: string, key: Key)
  {
    key.0 == tenant && key in out.tables.docs && Live(t, key) != Live(out.tables, key) ==> out.tables.docs[key].id in out.Ids()
  }

  lemma CompletedTellsAll(chunk: Chunker, t: Tables, tenant: string, source: seq<Raw>, fails: nat -> bool)
    requires Wf(chunk, t) && DistinctUris(ForTenant(source, tenant)) && RunIngestion(chunk, t, tenant, source, fails).Completed?
    ensures forall key: Key :: ToldOf(t, RunIngestion(chunk, t, tenant, source, fails), tenant, key)
  {
    hide IngestAll, Tombstone, Wf, Missing, IdsOf, Live, Seen;
    var raws := ForTenant(source, tenant);
    assert StoppedAt(fails, raws) == StoppedAt(NO_FAILURES, raws) == |raws| + 1;
    RunReportsExactly(chunk, t, tenant, source);
  }

  lemma AbortedIs(chunk: Chunker, t: Tables, tenant: string, source: seq<Raw>, fails: nat -> bool)
    requires RunIngestion(chunk, t, tenant, source, fails).Aborted?
    ensures var committed := Committed(fails, ForTenant(source, tenant));
            RunIngestion(chunk, t, tenant, source, fails) == Aborted(IngestAll(chunk, t, committed).0)
  {
    hide IngestAll, Tombstone, Missing, IdsOf, Seen, ForTenant, FirstFailure;
  }

  lemma AbortedTells(t: Tables, tenant: string, raws: seq<Raw>, out: Outcome, changed: seq<nat>)
    requires out.Aborted? && AllOf(raws, tenant) && Effect(t, tenant, raws, out.tables, changed)
    ensures (forall key: Key :: ToldOf(t, out, tenant, key))
            <==> forall raw <- raws :: Live(t, (tenant, raw.uri)) == Some(raw.content)
  {
    if forall key: Key :: ToldOf(t, out, tenant, key) {
      forall i | 0 <= i < |raws| ensures Live(t, (tenant, raws[i].uri)) == Some(raws[i].content) {
        assert Ingested(t, out.tables, changed, raws[i]) && ToldOf(t, out, tenant, (tenant, raws[i].uri));
      }
    }
    if forall raw <- raws :: Live(t, (tenant, raw.uri)) == Some(raw.content) {
      forall key: Key ensures ToldOf(t, out, tenant, key) {
        if key.0 == tenant && key.1 in Seen(raws) {
          var i :| 0 <= i < |raws| && raws[i].uri == key.1;
          assert Ingested(t, out.tables, changed, raws[i]) && raws[i] in raws;
        } else {
          assert Untouched(t, out.tables, key);
        }
      }
    }
  }

  // ---- The run on the database -------------------------------------------------------------------

  class Database {
    var docs: map<Key, Doc>
    var chunks: map<nat, seq<Chunking.Chunk>>
    var nextId: nat

    ghost function View(): Tables
      reads this
    {
      Tables(docs, chunks, nextId)
    }

    constructor ()
      ensures View() == Tables(map[], map[], 0)
    {
      docs, chunks, nextId := map[], map[], 0;
    }

    // One document, one transaction.
    method IngestOneDocument(raw: Raw) returns (id: Option<nat>)
      modifies this
      ensures (View(), id) == IngestOne(ChunksOf, old(View()), raw)
    {
      hide ChunksOf;
      var key := (raw.tenant, raw.uri);
      if key in docs && !docs[key].deleted && docs[key].content == raw.content {
        return None;
      }
      var docId := if key in docs then docs[key].id else nextId;
      ReplaceEntry(chunks, docId, ChunksOf(raw.content));
      docs := docs[key := Doc(docId, raw.content, raw.groups, false)];
      nextId := nextId + 1;
      chunks := chunks - {docId};
      var made := MakeChunks(raw.content);
      chunks := chunks[docId := made];
      id := Some(docId);
    }

    method TombstoneMissing(tenant: string, seen: set<string>) returns (gone: set<nat>)
      modifies this
      ensures var keys := Missing(old(View()), tenant, seen);
              View() == Tombstone(old(View()), keys) && gone == IdsOf(old(View()), keys)
    {
      hide Tombstone, IdsOf, Missing;
      ghost var was := View();
      ghost var all := Missing(was, tenant, seen);
      var rows := set k | k in docs && k.0 == tenant && !docs[k].deleted;
      MissingAre(was, tenant, seen, rows);
      ghost var done: set<Key> := {};
      gone := {};
      TombstoneNothing(was);
      while rows != {}
        invariant rows <= was.docs.Keys && done <= was.docs.Keys && done !! rows
        invariant View() == Tombstone(was, done) && gone == IdsOf(was, done)
        invariant forall k :: k in all <==> k in done || (k in rows && k.1 !in seen)
        decreases |rows|
      {
        var k :| k in rows;
        rows := rows - {k};
        if k.1 !in seen {
          TombstoneOneMore(was, done, k);
          docs := docs[k := docs[k].(deleted := true)];
          chunks := chunks - {docs[k].id};
          gone := gone + {docs[k].id};
          done := done + {k};
        }
      }
      assert done == all;
    }

    // The loop over the documents, up to the first that fails.
    method IngestEach(raws: seq<Raw>, fails: nat -> bool) returns (i: nat, changed: seq<nat>, seen: set<string>)
      modifies this
      ensures i <= |raws| && (i < |raws| ==> fails(i)) && forall j: nat | j < i :: !fails(j)
      ensures (View(), changed) == IngestAll(ChunksOf, old(View()), raws[..i]) && seen == Seen(raws[..i])
    {
      hide IngestOne, Seen;
      ghost var was := View();
      seen := {};
      changed := [];
      NoneSeen();
      i := 0;
      while i < |raws| && !fails(i)
        invariant 0 <= i <= |raws| && forall j: nat | j < i :: !fails(j)
        invariant (View(), changed) == IngestAll(ChunksOf, was, raws[..i]) && seen == Seen(raws[..i])
      {
        var id := IngestOneDocument(raws[i]);
        assert raws[..i + 1][..i] == raws[..i];
        if id.Some? { changed := changed + [id.value]; }
        seen := seen + {raws[i].uri};
        SeenOneMore(raws, i);
        i := i + 1;
      }
    }

    // The last transaction: a failure in it undoes its tombstones.
    method CloseRun(tenant: string, seen: set<string>, changed: seq<nat>, failed: bool) returns (out: Outcome)
      modifies this
      ensures var keys := Missing(old(View()), tenant, seen);
              out == if failed then Aborted(old(View()))
                     else Completed(Tombstone(old(View()), keys), changed, IdsOf(old(View()), keys))
      ensures View() == out.tables
    {
      hide Tombstone, Missing, IdsOf;
      var docsBefore, chunksBefore, idBefore := docs, chunks, nextId;
      var gone := TombstoneMissing(tenant, seen);
      if failed {
        docs, chunks, nextId := docsBefore, chunksBefore, idBefore;
        return Aborted(Tables(docs, chunks, nextId));
      }
      out := Completed(Tables(docs, chunks, nextId), changed, gone);
    }

    method Run(tenant: string, source: seq<Raw>, fails: nat -> bool) returns (out: Outcome)
      modifies this
      ensures out == RunIngestion(ChunksOf, old(View()), tenant, source, fails) && View() == out.tables
    {
      hide IngestOne, IngestAll, Tombstone, Missing, IdsOf, Seen, StoppedAt, Committed;
      var raws := ForTenant(source, tenant);
      var i, changed, seen := IngestEach(raws, fails);
      if i < |raws| {
        StoppedHere(fails, raws, i);
        return Aborted(Tables(docs, chunks, nextId));
      }
      assert raws[..i] == raws;
      StoppedAtEnd(fails, raws);
      out := CloseRun(tenant, seen, changed, fails(|raws|));
    }
  }

  lemma StoppedHere(fails: nat -> bool, raws: seq<Raw>, i: nat)
    requires i < |raws| && fails(i) && forall j: nat | j < i :: !fails(j)
    ensures StoppedAt(fails, raws) == i && Committed(fails, raws) == raws[..i]
  {}

  lemma StoppedAtEnd(fails: nat -> bool, raws: seq<Raw>)
    requires forall j: nat | j < |raws| :: !fails(j)
    ensures StoppedAt(fails, raws) == if fails(|raws|) then |raws| else |raws| + 1
    ensures Committed(fails, raws) == raws
  {
    assert raws[..|raws|] == raws;
  }

  method MakeChunks(content: string) returns (made: seq<Chunking.Chunk>)
    ensures made == ChunksOf(content)
  {
    made := Chunking.ChunkMarkdown(content, CHUNK_TARGET_CHARS, CHUNK_OVERLAP_CHARS);
  }

  lemma ReplaceEntry(m: map<nat, seq<Chunking.Chunk>>, id: nat, c: seq<Chunking.Chunk>)
    ensures (m - {id})[id := c] == m[id := c]
  {
  }

  lemma MissingAre(t: Tables, tenant: string, seen: set<string>, rows: set<Key>)
    requires rows == set k | k in t.docs && k.0 == tenant && !t.docs[k].deleted
    ensures forall k :: k in Missing(t, tenant, seen) <==> k in rows && k.1 !in seen
  {
  }

  lemma NoneSeen()
    ensures Seen([]) == {}
  {
  }

  lemma SeenOneMore(raws: seq<Raw>, i: nat)
    requires i < |raws|
    ensures Seen(raws[..i + 1]) == Seen(raws[..i]) + {raws[i].uri}
  {
    forall u ensures u in Seen(raws[..i + 1]) <==> u in Seen(raws[..i]) || u == raws[i].uri {
      if u in Seen(raws[..i + 1]) {
        var j :| 0 <= j < i + 1 && raws[..i + 1][j].uri == u;
        if j < i { assert raws[..i][j].uri == u; }
      }
      if u in Seen(raws[..i]) {
        var j :| 0 <= j < i && raws[..i][j].uri == u;
        assert raws[..i + 1][j].uri == u;
      }
      assert raws[..i + 1][i].uri == raws[i].uri;
    }
  }

  lemma TombstoneOneMore(t: Tables, done: set<Key>, k: Key)
    requires done <= t.docs.Keys && k in t.docs && k !in done
    ensures var (a, b) := (Tombstone(t, done), Tombstone(t, done + {k}));
            && k in a.docs && a.docs[k] == t.docs[k]
            && b.docs == a.docs[k := t.docs[k].(deleted := true)]
            && b.chunks == a.chunks - {t.docs[k].id} && b.nextId == a.nextId
            && IdsOf(t, done + {k}) == IdsOf(t, done) + {t.docs[k].id}
  {
    assert IdsOf(t, done + {k}) == IdsOf(t, done) + {t.docs[k].id};
  }
}
