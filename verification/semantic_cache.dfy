/**
 The semantic cache over the catalog: who may write an entry, who may be
 answered from it, and what ingestion's invalidation leaves behind.
 */
module SemanticCache {
  import opened Collections
  import opened Wrappers
  import opened Orders
  import Chunking
  import C = Catalog

  const SIMILARITY_THRESHOLD: real := 0.95
  const INVALIDATION_PAGE: nat := 1000

  // ---- The namespace -----------------------------------------------------------------

  // acl_hash before hashing, which is taken to lose nothing.
  function AclHash(groups: seq<string>): string
  {
    Chunking.Join(SortStrings(groups), ",")
  }

  predicate CommaFree(groups: seq<string>)
  {
    forall g <- groups :: ',' !in g
  }

  // No group, or one group without a name: both join to nothing.
  predicate Blank(groups: seq<string>)
  {
    groups == [] || groups == [""]
  }

  lemma SplitAtLast(x: string, l: string, y: string, m: string)
    requires x + "," + l == y + "," + m && ',' !in l && ',' !in m
    ensures x == y && l == m
  {
    var s := x + "," + l;
    if |l| < |m| {
      LastComma(x, l, y, m);
    } else if |m| < |l| {
      LastComma(y, m, x, l);
    } else {
      assert x == s[..|x|] && y == s[..|x|];
      assert l == s[|x| + 1..] && m == s[|x| + 1..];
    }
  }

  lemma LastComma(x: string, l: string, y: string, m: string)
    requires |l| < |m| && ',' !in m
    ensures x + "," + l != y + "," + m
  {
    var (s, t) := (x + "," + l, y + "," + m);
    assert s[|x|] == ',';
    if |s| == |t| {
      assert t[|x|] == m[|x| - |y| - 1];
    }
  }

  lemma JoinHasComma(parts: seq<string>)
    requires CommaFree(parts)
    ensures ',' in Chunking.Join(parts, ",") <==> |parts| > 1
  {
    if |parts| == 1 {
      assert parts[0] in parts;
    } else if |parts| > 1 {
      var j := Chunking.Join(parts[..|parts| - 1], ",");
      assert Chunking.Join(parts, ",")[|j|] == ',';
    }
  }

  lemma {:induction false} JoinInjective(a: seq<string>, b: seq<string>)
    requires CommaFree(a) && CommaFree(b) && Chunking.Join(a, ",") == Chunking.Join(b, ",")
    ensures a == b || (Blank(a) && Blank(b))
  {
    JoinHasComma(a);
    JoinHasComma(b);
    if |a| > 1 {
      var (m, n) := (|a| - 1, |b| - 1);
      assert a[m] in a && b[n] in b;
      SplitAtLast(Chunking.Join(a[..m], ","), a[m], Chunking.Join(b[..n], ","), b[n]);
      JoinInjective(a[..m], b[..n]);
      assert a == a[..m] + [a[m]] && b == b[..n] + [b[n]];
    }
  }

  // One more character: a comma begins a new piece, anything else joins the last.
  function Grown(pieces: seq<string>, c: char): (r: seq<string>)
    requires pieces != [] && CommaFree(pieces)
    ensures r != [] && CommaFree(r)
  {
    var last := pieces[|pieces| - 1];
    assert last in pieces;
    if c == ',' then pieces + [""] else pieces[..|pieces| - 1] + [last + [c]]
  }

  // A name taken apart at its commas.
  function SplitName(name: string): (r: seq<string>)
    ensures r != [] && CommaFree(r)
  {
    if name == "" then [""] else Grown(SplitName(name[..|name| - 1]), name[|name| - 1])
  }

  function SplitNames(names: seq<string>): (r: seq<string>)
    ensures CommaFree(r) && (names != [] ==> r != [])
  {
    if names == [] then [] else SplitNames(names[..|names| - 1]) + SplitName(names[|names| - 1])
  }

  // What the hash is made of: the sorted names, taken apart.
  function Pieces(groups: seq<string>): (r: seq<string>)
    ensures CommaFree(r)
  {
    SplitNames(SortStrings(groups))
  }

  lemma JoinLast(init: seq<string>, last: string)
    ensures Chunking.Join(init + [last], ",") == if init == [] then last else Chunking.Join(init, ",") + "," + last
  {
    assert (init + [last])[..|init|] == init;
  }

  lemma {:induction false} JoinConcat(a: seq<string>, b: seq<string>)
    requires a != [] && b != []
    ensures Chunking.Join(a + b, ",") == Chunking.Join(a, ",") + "," + Chunking.Join(b, ",")
  {
    hide Chunking.Join;
    var (init, last) := (b[..|b| - 1], b[|b| - 1]);
    assert b == init + [last] && a + b == (a + init) + [last];
    JoinLast(init, last);
    JoinLast(a + init, last);
    if init == [] {
      assert a + init == a;
    } else {
      JoinConcat(a, init);
      var (j, k) := (Chunking.Join(a, ","), Chunking.Join(init, ","));
      assert (j + "," + k) + "," + last == j + "," + (k + "," + last);
    }
  }

  lemma GrownJoins(pieces: seq<string>, c: char)
    requires pieces != [] && CommaFree(pieces)
    ensures Chunking.Join(Grown(pieces, c), ",") == Chunking.Join(pieces, ",") + [c]
  {
    hide Chunking.Join, CommaFree;
    var (front, last) := (pieces[..|pieces| - 1], pieces[|pieces| - 1]);
    assert pieces == front + [last];
    JoinLast(front, last);
    if c == ',' {
      JoinLast(pieces, "");
      assert Chunking.Join(pieces, ",") + "," + "" == Chunking.Join(pieces, ",") + [c];
    } else {
      JoinLast(front, last + [c]);
      if front != [] {
        assert Chunking.Join(front, ",") + "," + (last + [c]) == (Chunking.Join(front, ",") + "," + last) + [c];
      }
    }
  }

  lemma {:induction false} SplitNameJoins(name: string)
    ensures Chunking.Join(SplitName(name), ",") == name
  {
    hide Chunking.Join, Grown, CommaFree;
    if name == "" {
      JoinLast([], "");
      assert [] + [""] == [""];
    } else {
      var (init, c) := (name[..|name| - 1], name[|name| - 1]);
      SplitNameJoins(init);
      GrownJoins(SplitName(init), c);
      assert name == init + [c];
    }
  }

  lemma {:induction false} SplitNamesJoin(names: seq<string>)
    ensures Chunking.Join(SplitNames(names), ",") == Chunking.Join(names, ",")
  {
    hide Chunking.Join, SplitName;
    if names != [] {
      var (init, last) := (names[..|names| - 1], names[|names| - 1]);
      SplitNamesJoin(init);
      SplitNameJoins(last);
      assert names == init + [last];
      JoinLast(init, last);
      if init == [] {
        assert SplitNames(names) == SplitName(last);
      } else {
        JoinConcat(SplitNames(init), SplitName(last));
      }
    }
  }

  lemma {:induction false} PlainNameIsWhole(name: string)
    requires ',' !in name
    ensures SplitName(name) == [name]
  {
    hide Grown, CommaFree;
    if name != "" {
      var (init, c) := (name[..|name| - 1], name[|name| - 1]);
      forall x | x in init ensures x in name {}
      assert c in name && name == init + [c];
      PlainNameIsWhole(init);
      GrownWhole(init, c);
    }
  }

  lemma GrownWhole(name: string, c: char)
    requires c != ',' && CommaFree([name])
    ensures Grown([name], c) == [name + [c]]
  {
    hide CommaFree;
  }

  lemma {:induction false} PlainNamesAreWhole(names: seq<string>)
    requires CommaFree(names)
    ensures SplitNames(names) == names
  {
    hide SplitName;
    if names != [] {
      var (init, last) := (names[..|names| - 1], names[|names| - 1]);
      forall g | g in init ensures g in names {}
      assert last in names && names == init + [last];
      PlainNamesAreWhole(init);
      PlainNameIsWhole(last);
    }
  }

  // Two callers share a namespace exactly when their sorted group names, taken apart at the commas, come to the same list,
  // or one of the two comes to none and the other to a single nameless one.
  lemma AclHashIsCanonical(a: seq<string>, b: seq<string>)
    ensures AclHash(a) == AclHash(b) <==> Pieces(a) == Pieces(b) || (Blank(Pieces(a)) && Blank(Pieces(b)))
  {
    hide SortStrings, Chunking.Join, CommaFree;
    SplitNamesJoin(SortStrings(a));
    SplitNamesJoin(SortStrings(b));
    if AclHash(a) == AclHash(b) {
      JoinInjective(Pieces(a), Pieces(b));
    }
    BlankJoins();
  }

  lemma BlankJoins()
    ensures Chunking.Join([], ",") == Chunking.Join([""], ",") == ""
  {}

  // Where no name has a comma: exactly when they hold the same groups, in any order, or one holds none and the other only a
  // nameless one.
  lemma PlainGroupsShareExactly(a: seq<string>, b: seq<string>)
    requires CommaFree(a) && CommaFree(b)
    ensures AclHash(a) == AclHash(b) <==> multiset(a) == multiset(b) || (Blank(a) && Blank(b))
  {
    hide SortStrings, Chunking.Join, CommaFree, SplitNames;
    AclHashIsCanonical(a, b);
    SortIsCanonical(a, b);
    SortedCommaFree(a);
    SortedCommaFree(b);
    PlainNamesAreWhole(SortStrings(a));
    PlainNamesAreWhole(SortStrings(b));
    SortedBlank(a);
    SortedBlank(b);
  }

  // Whatever the names, the same groups give the same hash.
  lemma SameGroupsShare(a: seq<string>, b: seq<string>)
    requires multiset(a) == multiset(b)
    ensures AclHash(a) == AclHash(b)
  {
    SortIsCanonical(a, b);
  }

  lemma SortedBlank(a: seq<string>)
    ensures Blank(SortStrings(a)) <==> Blank(a)
  {
    var s := SortStrings(a);
    assert |s| == |multiset(s)| == |multiset(a)| == |a|;
    if s == [""] {
      assert "" in multiset(a);
    }
    if a == [""] {
      SortOfOne("");
    }
  }

  lemma SortedCommaFree(a: seq<string>)
    requires CommaFree(a)
    ensures CommaFree(SortStrings(a))
  {
    SameMembers(SortStrings(a), a);
  }

  // A comma in a group's name is enough to share somebody else's.
  lemma CommaCollides()
    ensures AclHash(["hr,payroll"]) == AclHash(["hr", "payroll"]) && multiset(["hr,payroll"]) != multiset(["hr", "payroll"])
  {
    hide LexLeq;
    var (one, two) := (["hr,payroll"], ["hr", "payroll"]);
    SortOfOne("hr,payroll");
    SortOfTwo("hr", "payroll");
    assert LexLeq("hr", "payroll") by { HrFirst(); }
    assert Chunking.Join(two, ",") == "hr" + "," + "payroll" by { assert two[..1] == ["hr"]; }
    assert |multiset(one)| == 1 && |multiset(two)| == 2;
  }

  lemma HrFirst()
    ensures LexLeq("hr", "payroll")
  {
  }

  lemma SortOfOne(a: string)
    ensures SortStrings([a]) == [a]
  {
    assert [a][1..] == [];
  }

  lemma SortOfTwo(a: string, b: string)
    requires LexLeq(a, b)
    ensures SortStrings([a, b]) == [a, b]
  {
    SortOfOne(b);
    assert [a, b][1..] == [b];
  }

  // ---- Eligibility ---------------------------------------------------------------------

  datatype GuardrailEvent = GuardrailEvent(rule: string, action: string)

  // A finished run, as cache_write sees it; `cited` are the documents its citations name.
  datatype Run = Run(
    tenant: string, agent: string, groups: seq<string>, prompt: string, cited: set<nat>,
    served: bool, embedded: bool, refused: bool, degraded: set<string>, events: seq<GuardrailEvent>, tools: seq<string>)

  // Which agents and which tools are cacheable, and how the catalog chunks.
  datatype Config = Config(profiles: map<string, bool>, tools: map<string, bool>, chunk: C.Chunker)

  const PII_RULES: set<string> := {"pii_redaction", "pii_leakage"}

  predicate IsCacheable(r: Run, cfg: Config)
  {
    && r.agent in cfg.profiles && cfg.profiles[r.agent]
    && !r.refused
    && "retrieval" !in r.degraded
    && (forall e <- r.events :: e.action != "flag")
    && (forall e <- r.events :: e.rule !in PII_RULES)
    && (forall t <- r.tools :: t in cfg.tools && cfg.tools[t])
  }

  predicate Eligible(r: Run, cfg: Config)
  {
    !r.served && r.embedded && IsCacheable(r, cfg)
  }

  // ---- Entries ---------------------------------------------------------------------------

  // `from` and `written` are history: the run that wrote the entry, and what each cited document then said.
  datatype Entry = Entry(
    tenant: string, agent: string, aclHash: string, prompt: string, docIds: set<nat>, from: Run, written: map<nat, string>)

  predicate SameNamespace(e: Entry, tenant: string, agent: string, aclHash: string, prompt: string)
  {
    e.tenant == tenant && e.agent == agent && e.aclHash == aclHash && e.prompt == prompt
  }

  function EntryFor(r: Run, written: map<nat, string>): Entry
  {
    Entry(r.tenant, r.agent, AclHash(r.groups), r.prompt, r.cited, r, written)
  }

  function Matching(entries: map<nat, Entry>, tenant: string, ids: set<nat>): (r: set<nat>)
    ensures forall k :: k in r <==> k in entries && entries[k].tenant == tenant && entries[k].docIds * ids != {}
  {
    set k | k in entries && entries[k].tenant == tenant && entries[k].docIds * ids != {}
  }

  // The search returns one page of the matches, whichever they are; those are deleted.
  predicate OnePage(entries: map<nat, Entry>, tenant: string, ids: set<nat>, page: set<nat>)
  {
    page <= Matching(entries, tenant, ids) && |page| == Min(INVALIDATION_PAGE, |Matching(entries, tenant, ids)|)
  }

  class SemanticCacheStore {
    var entries: map<nat, Entry>
    var nextKey: nat

    predicate Valid() reads this { forall k <- entries :: k < nextKey }

    constructor ()
      ensures Valid() && entries == map[]
    {
      entries, nextKey := map[], 0;
    }

    method Write(r: Run, written: map<nat, string>)
      requires Valid()
      modifies this
      ensures Valid() && old(nextKey) !in old(entries) && entries == old(entries)[old(nextKey) := EntryFor(r, written)]
    {
      entries := entries[nextKey := EntryFor(r, written)];
      nextKey := nextKey + 1;
    }

    // `nearest` is the search's answer when the namespace holds anything, `distance` its cosine distance.
    method Lookup(tenant: string, agent: string, aclHash: string, prompt: string, nearest: nat, distance: real)
        returns (hit: Option<Entry>)
      requires (exists k :: k in entries && SameNamespace(entries[k], tenant, agent, aclHash, prompt)) ==>
                 nearest in entries && SameNamespace(entries[nearest], tenant, agent, aclHash, prompt)
      ensures hit.Some? ==> (exists k :: k in entries && entries[k] == hit.value)
                            && SameNamespace(hit.value, tenant, agent, aclHash, prompt) && 1.0 - distance >= 0.95
      ensures hit.None? ==> 1.0 - distance < 0.95
                            || forall k <- entries :: !SameNamespace(entries[k], tenant, agent, aclHash, prompt)
    {
      var found := set k | k in entries && SameNamespace(entries[k], tenant, agent, aclHash, prompt);
      if found == {} {
        forall k | k in entries ensures !SameNamespace(entries[k], tenant, agent, aclHash, prompt) { assert k !in found; }
        return None;
      }
      var k :| k in found;
      if 1.0 - distance < SIMILARITY_THRESHOLD {
        return None;
      }
      hit := Some(entries[nearest]);
    }

    method InvalidateByDocuments(tenant: string, ids: set<nat>) returns (count: nat, ghost page: set<nat>)
      modifies `entries
      ensures OnePage(old(entries), tenant, ids, page) && entries == old(entries) - page && count == |page|
    {
      if ids == {} {
        NothingMatches(entries, tenant);
        return 0, {};
      }
      page := {};
      var keys := TakePage(Matching(entries, tenant, ids));
      entries := entries - keys;
      count, page := |keys|, keys;
    }
  }

  // paging(0, 1000)
  method TakePage(matches: set<nat>) returns (keys: set<nat>)
    ensures keys <= matches && |keys| == Min(INVALIDATION_PAGE, |matches|)
  {
    keys := {};
    var rest := matches;
    while rest != {} && |keys| < INVALIDATION_PAGE
      invariant rest + keys == matches && rest !! keys && |keys| <= INVALIDATION_PAGE
      decreases |rest|
    {
      var k :| k in rest;
      rest := rest - {k};
      keys := keys + {k};
    }
    assert |matches| == |rest| + |keys|;
  }

  lemma NothingMatches(entries: map<nat, Entry>, tenant: string)
    ensures Matching(entries, tenant, {}) == {} && entries - {} == entries
  {
  }

  // ---- Cache and catalog together --------------------------------------------------------------

  datatype World = World(tables: C.Tables, entries: map<nat, Entry>, nextKey: nat)

  const EMPTY: World := World(C.Tables(map[], map[], 0), map[], 0)

  // `Finish` is a run whose retrieval and cache_write no ingestion comes between.
  datatype Event =
    | Finish(run: Run, written: map<nat, string>)
    | Ingest(tenant: string, source: seq<C.Raw>, fails: nat -> bool, delivered: bool, page: set<nat>)
    | Expire(key: nat)

  ghost predicate LiveAs(t: C.Tables, tenant: string, id: nat, content: string)
  {
    exists key :: LiveAt(t, tenant, id, content, key)
  }

  predicate LiveAt(t: C.Tables, tenant: string, id: nat, content: string, key: C.Key)
  {
    key.0 == tenant && key in t.docs && t.docs[key].id == id && C.Live(t, key) == Some(content)
  }

  // What the run cited is live and says what it read.
  ghost predicate ReadNow(t: C.Tables, r: Run, written: map<nat, string>)
  {
    written.Keys == r.cited && forall id <- r.cited :: LiveAs(t, r.tenant, id, written[id])
  }

  ghost function Next(w: World, e: Event, cfg: Config): Option<World>
  {
    match e
    case Finish(run, written) =>
      if !ReadNow(w.tables, run, written) then None
      else if !Eligible(run, cfg) then Some(w)
      else Some(w.(entries := w.entries[w.nextKey := EntryFor(run, written)], nextKey := w.nextKey + 1))
    case Ingest(tenant, source, fails, delivered, page) =>
      var out := C.RunIngestion(cfg.chunk, w.tables, tenant, source, fails);
      if out.Aborted? || !delivered || out.Ids() == {} then Some(w.(tables := out.tables))
      else if !OnePage(w.entries, tenant, out.Ids(), page) then None
      else Some(w.(tables := out.tables, entries := w.entries - page))
    case Expire(key) => Some(w.(entries := w.entries - {key}))
  }

  // ---- Coherence ----------------------------------------------------------------------------------

  // Everything the entry cites still says what it said when the entry was written.
  ghost predicate Coherent(t: C.Tables, e: Entry)
  {
    forall id <- e.docIds :: id in e.written && LiveAs(t, e.tenant, id, e.written[id])
  }

  ghost predicate AllCoherent(w: World, tenant: string)
  {
    forall k <- w.entries :: w.entries[k].tenant == tenant ==> Coherent(w.tables, w.entries[k])
  }

  // The documents of a tenant whose live content differs.
  ghost function Changed(t: C.Tables, after: C.Tables, tenant: string): set<nat>
  {
    set key | key in after.docs && key.0 == tenant && C.Live(t, key) != C.Live(after, key) :: after.docs[key].id
  }

  // The entries that cite what changed.
  ghost function Stale(w: World, after: C.Tables, tenant: string): set<nat>
  {
    Matching(w.entries, tenant, Changed(w.tables, after, tenant))
  }

  // How many of them an ingestion can drop: a page if it completes and its report arrives, otherwise none.
  ghost function CanDrop(w: World, e: Event, cfg: Config): nat
    requires e.Ingest?
  {
    if e.delivered && C.RunIngestion(cfg.chunk, w.tables, e.tenant, e.source, e.fails).Completed? then 1000 else 0
  }

  lemma ChangedIsReported(cfg: Config, t: C.Tables, after: C.Tables, tenant: string)
    requires C.Wf(cfg.chunk, after)
    ensures C.ReportsExactly(t, after, tenant, Changed(t, after, tenant))
  {
    hide C.Live, C.Stored;
    var ids := Changed(t, after, tenant);
    forall id | id in ids ensures exists key :: C.OwnedBy(after, tenant, key, id) {
      var key :| key in after.docs && key.0 == tenant && C.Live(t, key) != C.Live(after, key) && after.docs[key].id == id;
      assert C.OwnedBy(after, tenant, key, id);
    }
  }

  // There is only one exact report.
  lemma ReportsAreUnique(t: C.Tables, after: C.Tables, tenant: string, ids: set<nat>, ids': set<nat>)
    requires C.ReportsExactly(t, after, tenant, ids) && C.ReportsExactly(t, after, tenant, ids')
    ensures ids == ids'
  {
    hide C.Live;
    forall id | id in ids ensures id in ids' {
      var key :| C.OwnedBy(after, tenant, key, id);
    }
    forall id | id in ids' ensures id in ids {
      var key :| C.OwnedBy(after, tenant, key, id);
    }
  }

  lemma NoFailuresAreAlike(cfg: Config, t: C.Tables, tenant: string, source: seq<C.Raw>, fails: nat -> bool)
    requires forall i: nat | i <= |C.ForTenant(source, tenant)| :: !fails(i)
    ensures C.RunIngestion(cfg.chunk, t, tenant, source, fails) == C.RunIngestion(cfg.chunk, t, tenant, source, C.NO_FAILURES)
    ensures C.RunIngestion(cfg.chunk, t, tenant, source, fails).Completed?
  {
    var raws := C.ForTenant(source, tenant);
    assert C.StoppedAt(fails, raws) == C.StoppedAt(C.NO_FAILURES, raws) == |raws| + 1;
  }

  // An entry the run's report does not touch stays coherent.
  lemma UntouchedStaysCoherent(t: C.Tables, after: C.Tables, ids: set<nat>, e: Entry)
    requires C.ReportsExactly(t, after, e.tenant, ids) && C.IdsStay(t, after)
    requires Coherent(t, e) && e.docIds * ids == {}
    ensures Coherent(after, e)
  {
    forall id | id in e.docIds ensures id in e.written && LiveAs(after, e.tenant, id, e.written[id]) {
      assert LiveAs(t, e.tenant, id, e.written[id]);
      var key :| LiveAt(t, e.tenant, id, e.written[id], key);
      assert id !in ids by { assert id !in e.docIds * ids; }
      assert LiveAt(after, e.tenant, id, e.written[id], key);
    }
  }

  // One that cites a reported document does not.
  lemma ReportedIsStale(cfg: Config, t: C.Tables, after: C.Tables, ids: set<nat>, e: Entry)
    requires C.ReportsExactly(t, after, e.tenant, ids) && C.IdsStay(t, after) && C.Wf(cfg.chunk, after)
    requires Coherent(t, e) && e.docIds * ids != {}
    ensures !Coherent(after, e)
  {
    hide C.Stored;
    var id :| id in e.docIds * ids;
    assert LiveAs(t, e.tenant, id, e.written[id]);
    var key :| LiveAt(t, e.tenant, id, e.written[id], key);
    assert C.Live(t, key) != C.Live(after, key);
    forall k ensures !LiveAt(after, e.tenant, id, e.written[id], k) {
      assert k in after.docs && after.docs[k].id == id ==> k == key;
    }
  }

  lemma PageTakesAll(entries: map<nat, Entry>, tenant: string, ids: set<nat>, page: set<nat>)
    requires OnePage(entries, tenant, ids, page)
    ensures page == Matching(entries, tenant, ids) <==> |Matching(entries, tenant, ids)| <= INVALIDATION_PAGE
  {
    var m := Matching(entries, tenant, ids);
    assert |m| == |page| + |m - page|;
    if |m| <= INVALIDATION_PAGE {
      assert |m - page| == 0;
      assert m - page == {};
    }
  }

  // What any ingestion leaves of its tenant's tables: ids stay, and a completed one's report is what changed.
  lemma IngestionIs(w: World, e: Event, cfg: Config)
    requires C.Wf(cfg.chunk, w.tables) && e.Ingest? && C.DistinctUris(C.ForTenant(e.source, e.tenant))
    ensures var out := C.RunIngestion(cfg.chunk, w.tables, e.tenant, e.source, e.fails);
            && C.Wf(cfg.chunk, out.tables) && C.IdsStay(w.tables, out.tables)
            && C.ReportsExactly(w.tables, out.tables, e.tenant, Changed(w.tables, out.tables, e.tenant))
            && (out.Completed? ==> out.Ids() == Changed(w.tables, out.tables, e.tenant))
  {
    hide C.RunIngestion, C.ReportsExactly, C.IdsStay, C.Wf, C.ForTenant, C.DistinctUris, C.IngestAll, C.Committed, Changed;
    var out := C.RunIngestion(cfg.chunk, w.tables, e.tenant, e.source, e.fails);
    C.RunKeepsWf(cfg.chunk, w.tables, e.tenant, e.source, e.fails);
    ChangedIsReported(cfg, w.tables, out.tables, e.tenant);
    if out.Completed? {
      C.CompletesExactly(cfg.chunk, w.tables, e.tenant, e.source, e.fails);
      NoFailuresAreAlike(cfg, w.tables, e.tenant, e.source, e.fails);
      C.RunReportsExactly(cfg.chunk, w.tables, e.tenant, e.source);
      C.RunSyncs(cfg.chunk, w.tables, e.tenant, e.source);
      ReportsAreUnique(w.tables, out.tables, e.tenant, out.Ids(), Changed(w.tables, out.tables, e.tenant));
    } else {
      AbortedIdsStay(w, e, cfg);
    }
  }

  lemma AbortedIdsStay(w: World, e: Event, cfg: Config)
    requires C.Wf(cfg.chunk, w.tables) && e.Ingest? && C.DistinctUris(C.ForTenant(e.source, e.tenant))
    requires C.RunIngestion(cfg.chunk, w.tables, e.tenant, e.source, e.fails).Aborted?
    ensures C.IdsStay(w.tables, C.RunIngestion(cfg.chunk, w.tables, e.tenant, e.source, e.fails).tables)
  {
    hide C.RunIngestion, C.IdsStay, C.Wf, C.ForTenant, C.DistinctUris, C.IngestAll, C.Committed, C.AllOf;
    var raws := C.ForTenant(e.source, e.tenant);
    C.TenantOnly(e.source, e.tenant);
    C.CommittedUris(e.fails, raws, e.tenant);
    C.AbortedIs(cfg.chunk, w.tables, e.tenant, e.source, e.fails);
    C.IngestAllEffect(cfg.chunk, w.tables, e.tenant, C.Committed(e.fails, raws));
  }

  // An ingestion, however it ends, leaves the tenant's cache coherent exactly when it can drop all the entries that cite
  // what it changed: they fit a page and it completes and is heard, or there are none.
  lemma IngestKeepsCoherence(w: World, e: Event, w': World, cfg: Config)
    requires C.Wf(cfg.chunk, w.tables) && e.Ingest? && C.DistinctUris(C.ForTenant(e.source, e.tenant))
    requires Next(w, e, cfg) == Some(w') && AllCoherent(w, e.tenant)
    ensures AllCoherent(w', e.tenant) <==> |Stale(w, w'.tables, e.tenant)| <= CanDrop(w, e, cfg)
  {
    hide C.RunIngestion, C.ReportsExactly, C.IdsStay, C.Wf, Coherent, C.ForTenant, C.DistinctUris, Changed;
    var tenant := e.tenant;
    var out := C.RunIngestion(cfg.chunk, w.tables, tenant, e.source, e.fails);
    IngestionIs(w, e, cfg);
    var ids := Changed(w.tables, out.tables, tenant);
    var m := Matching(w.entries, tenant, ids);
    var told := e.delivered && out.Completed?;
    var page := if told && ids != {} then e.page else {};
    if ids == {} { NothingMatches(w.entries, tenant); }
    assert w'.entries == w.entries - page;
    if told {
      PageTakesAll(w.entries, tenant, ids, page);
    } else {
      assert |m| == 0 <==> m == {};
    }
    forall k | k in w'.entries && w'.entries[k].tenant == tenant
      ensures Coherent(w'.tables, w'.entries[k]) <==> k !in m
    {
      if k in m {
        ReportedIsStale(cfg, w.tables, w'.tables, ids, w.entries[k]);
      } else {
        UntouchedStaysCoherent(w.tables, w'.tables, ids, w.entries[k]);
      }
    }
    if page != m {
      var k :| k in m && k !in page;
      assert k in w'.entries && !Coherent(w'.tables, w'.entries[k]);
    }
  }

  // ---- Other events ----------------------------------------------------------------------------------

  lemma {:induction false} ForeignIngest(cfg: Config, t: C.Tables, tenant: string, raws: seq<C.Raw>, key: C.Key)
    requires C.AllOf(raws, tenant) && key.0 != tenant
    ensures C.Untouched(t, C.IngestAll(cfg.chunk, t, raws).0, key)
  {
    if raws != [] {
      ForeignIngest(cfg, t, tenant, raws[..|raws| - 1], key);
    }
  }

  // A tenant's ingestion, however it ends, leaves other tenants' documents alone.
  lemma ForeignRun(cfg: Config, t: C.Tables, tenant: string, source: seq<C.Raw>, fails: nat -> bool, key: C.Key)
    requires key.0 != tenant
    ensures C.Untouched(t, C.RunIngestion(cfg.chunk, t, tenant, source, fails).tables, key)
  {
    hide C.IngestAll, C.Tombstone;
    var raws := C.ForTenant(source, tenant);
    var committed := C.Committed(fails, raws);
    C.TenantOnly(source, tenant);
    ForeignIngest(cfg, t, tenant, committed, key);
    var mid := C.IngestAll(cfg.chunk, t, committed).0;
    if C.StoppedAt(fails, raws) > |raws| {
      var keys := C.Missing(mid, tenant, C.Seen(raws));
      C.TombstoneRows(mid, keys);
      assert key !in keys;
      assert C.Untouched(mid, C.Tombstone(mid, keys), key);
    }
  }

  lemma ForeignStaysCoherent(t: C.Tables, after: C.Tables, e: Entry)
    requires Coherent(t, e) && forall key: C.Key | key.0 == e.tenant :: C.Untouched(t, after, key)
    ensures Coherent(after, e)
  {
    forall id | id in e.docIds ensures id in e.written && LiveAs(after, e.tenant, id, e.written[id]) {
      var key :| LiveAt(t, e.tenant, id, e.written[id], key);
      assert C.Untouched(t, after, key);
      assert LiveAt(after, e.tenant, id, e.written[id], key);
    }
  }

  lemma ForeignEventKeeps(w: World, e: Event, w': World, tenant: string, cfg: Config)
    requires e.Ingest? && e.tenant != tenant && Next(w, e, cfg) == Some(w') && AllCoherent(w, tenant)
    ensures AllCoherent(w', tenant)
  {
    hide C.RunIngestion, Coherent, C.Untouched;
    forall key: C.Key | key.0 == tenant ensures C.Untouched(w.tables, w'.tables, key) {
      ForeignRun(cfg, w.tables, e.tenant, e.source, e.fails, key);
    }
    forall k | k in w'.entries && w'.entries[k].tenant == tenant ensures Coherent(w'.tables, w'.entries[k]) {
      ForeignStaysCoherent(w.tables, w'.tables, w.entries[k]);
    }
  }

  // An entry is coherent when it is written.
  lemma FinishKeeps(w: World, e: Event, w': World, tenant: string, cfg: Config)
    requires e.Finish? && Next(w, e, cfg) == Some(w') && AllCoherent(w, tenant)
    ensures AllCoherent(w', tenant)
  {
    hide IsCacheable, LiveAs, AclHash;
  }

  // ---- Whole runs ------------------------------------------------------------------------------------

  ghost function Steps(events: seq<Event>, cfg: Config): Option<World>
  {
    if events == [] then Some(EMPTY)
    else
      var before := Steps(events[..|events| - 1], cfg);
      if before.None? then None else Next(before.value, events[|events| - 1], cfg)
  }

  // Every ingestion of the tenant so far named each document once and could drop all the entries that cite what it changed.
  ghost predicate KeptUp(events: seq<Event>, tenant: string, cfg: Config)
  {
    events == [] ||
    (var (init, e) := (events[..|events| - 1], events[|events| - 1]);
     && KeptUp(init, tenant, cfg)
     && (e.Ingest? && e.tenant == tenant && Steps(events, cfg).Some? ==>
           C.DistinctUris(C.ForTenant(e.source, e.tenant))
           && var (before, after) := (Steps(init, cfg).value, Steps(events, cfg).value);
              |Stale(before, after.tables, tenant)| <= CanDrop(before, e, cfg)))
  }

  lemma {:induction false} TablesStayWf(events: seq<Event>, w: World, cfg: Config)
    requires Steps(events, cfg) == Some(w)
    ensures C.Wf(cfg.chunk, w.tables)
  {
    hide C.Wf, C.RunIngestion, ReadNow, Eligible, OnePage;
    if events == [] {
      NothingIsWf(cfg);
    } else {
      var init, e := events[..|events| - 1], events[|events| - 1];
      var before := Steps(init, cfg).value;
      TablesStayWf(init, before, cfg);
      if e.Ingest? {
        C.RunKeepsWf(cfg.chunk, before.tables, e.tenant, e.source, e.fails);
      }
    }
  }

  lemma NothingIsWf(cfg: Config)
    ensures C.Wf(cfg.chunk, EMPTY.tables)
  {
  }

  // As long as each of its ingestions can drop what it makes stale, a tenant's cache never holds an answer that cites a
  // document changed or deleted since.
  lemma {:induction false} CacheStaysCoherent(
      events: seq<Event>, w: World, tenant: string, cfg: Config)
    requires Steps(events, cfg) == Some(w) && KeptUp(events, tenant, cfg)
    ensures AllCoherent(w, tenant)
  {
    hide Next, C.Wf, Coherent, Stale, CanDrop, C.DistinctUris, C.ForTenant;
    if events != [] {
      var init, e := events[..|events| - 1], events[|events| - 1];
      var before := Steps(init, cfg).value;
      CacheStaysCoherent(init, before, tenant, cfg);
      match e {
        case Finish(_, _) => FinishKeeps(before, e, w, tenant, cfg);
        case Expire(_) => ExpireKeeps(before, e, w, tenant, cfg);
        case Ingest(other, _, _, _, _) =>
          if other == tenant {
            TablesStayWf(init, before, cfg);
            IngestKeepsCoherence(before, e, w, cfg);
          } else {
            ForeignEventKeeps(before, e, w, tenant, cfg);
          }
      }
    }
  }

  lemma ExpireKeeps(w: World, e: Event, w': World, tenant: string, cfg: Config)
    requires e.Expire? && Next(w, e, cfg) == Some(w') && AllCoherent(w, tenant)
    ensures AllCoherent(w', tenant)
  {
  }

  // An answer fit for somebody else: not itself out of the cache, embedded, neither refused nor missing its retrieval,
  // flagged by no guardrail, free of personal data in question and answer, its agent and all its tools cacheable.
  predicate FitToShare(r: Run, cfg: Config)
  {
    && !r.served && r.embedded && !r.refused && "retrieval" !in r.degraded
    && (forall e <- r.events :: e.action != "flag" && e.rule != "pii_redaction" && e.rule != "pii_leakage")
    && r.agent in cfg.profiles && cfg.profiles[r.agent]
    && (forall t <- r.tools :: t in cfg.tools && cfg.tools[t])
  }

  lemma EligibleIsFit(r: Run, cfg: Config)
    ensures Eligible(r, cfg) <==> FitToShare(r, cfg)
  {
    if FitToShare(r, cfg) {
      forall e | e in r.events ensures e.action != "flag" && e.rule !in PII_RULES {}
    }
  }

  // Every entry was written by a run fit to be shared, in that run's own namespace.
  predicate Rightful(e: Entry, cfg: Config)
  {
    && FitToShare(e.from, cfg) && e.docIds == e.from.cited
    && e.tenant == e.from.tenant && e.agent == e.from.agent && e.prompt == e.from.prompt && e.aclHash == AclHash(e.from.groups)
  }

  lemma {:induction false} EntriesAreRightful(
      events: seq<Event>, w: World, cfg: Config)
    requires Steps(events, cfg) == Some(w)
    ensures forall k <- w.entries :: Rightful(w.entries[k], cfg)
  {
    hide C.RunIngestion, ReadNow, Eligible, FitToShare, OnePage, AclHash;
    if events != [] {
      var (init, e) := (events[..|events| - 1], events[|events| - 1]);
      EntriesAreRightful(init, Steps(init, cfg).value, cfg);
      if e.Finish? {
        EligibleIsFit(e.run, cfg);
      }
    }
  }

  lemma {:induction false} KeysAreTaken(events: seq<Event>, w: World, cfg: Config)
    requires Steps(events, cfg) == Some(w)
    ensures forall k <- w.entries :: k < w.nextKey
  {
    hide C.RunIngestion, ReadNow, Eligible, OnePage, EntryFor;
    if events != [] {
      var init := events[..|events| - 1];
      KeysAreTaken(init, Steps(init, cfg).value, cfg);
    }
  }

  // In any run, a finished run fit to be shared adds an entry of its own and takes none away; no other finished run changes
  // the cache.
  lemma FinishWritesExactly(events: seq<Event>, w: World, run: Run, written: map<nat, string>, w': World, cfg: Config)
      returns (k: nat)
    requires Steps(events, cfg) == Some(w) && Next(w, Finish(run, written), cfg) == Some(w')
    ensures w'.tables == w.tables
    ensures FitToShare(run, cfg) ==>
              k !in w.entries && w'.entries == w.entries[k :=
                Entry(run.tenant, run.agent, AclHash(run.groups), run.prompt, run.cited, run, written)]
    ensures !FitToShare(run, cfg) ==> w'.entries == w.entries
  {
    hide ReadNow, Eligible, FitToShare, AclHash, Steps;
    KeysAreTaken(events, w, cfg);
    EligibleIsFit(run, cfg);
    k := w.nextKey;
  }

  // Whoever a cached answer is served to holds groups that come to the pieces of the run it came from, asks the same agent
  // of the same tenant under the same prompt, and that run was fit to be shared. Where no name has a comma the groups are
  // the same, a nameless one alone being as good as none.
  lemma HitsComeFromEquals(
      events: seq<Event>, w: World, cfg: Config,
      k: nat, tenant: string, agent: string, groups: seq<string>, prompt: string)
    requires Steps(events, cfg) == Some(w) && k in w.entries
    requires SameNamespace(w.entries[k], tenant, agent, AclHash(groups), prompt)
    ensures var run := w.entries[k].from;
            && run.tenant == tenant && run.agent == agent && run.prompt == prompt && FitToShare(run, cfg)
            && (Pieces(run.groups) == Pieces(groups) || (Blank(Pieces(run.groups)) && Blank(Pieces(groups))))
            && (CommaFree(run.groups) && CommaFree(groups) ==>
                  multiset(run.groups) == multiset(groups) || (Blank(run.groups) && Blank(groups)))
  {
    hide Steps, AclHash, FitToShare, Pieces, CommaFree;
    EntriesAreRightful(events, w, cfg);
    var run := w.entries[k].from;
    assert Rightful(w.entries[k], cfg);
    AclHashIsCanonical(run.groups, groups);
    if CommaFree(run.groups) && CommaFree(groups) {
      PlainGroupsShareExactly(run.groups, groups);
    }
  }
}
