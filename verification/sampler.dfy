/** The smoke tier's stratified sample. */
module Sampler {
  import opened Collections
  import opened Orders

  datatype Item = Item(id: string, tags: seq<string>)

  predicate DistinctIds(items: seq<Item>)
  {
    forall i, j | 0 <= i < j < |items| :: items[i].id != items[j].id
  }

  function Ids(items: seq<Item>): (r: set<string>)
    ensures forall x :: x in r <==> exists i :: 0 <= i < |items| && items[i].id == x
  {
    set i | 0 <= i < |items| :: items[i].id
  }

  // ---- sorted(key=id) ------------------------------------------------------------

  function InsertById(sorted: seq<Item>, x: Item): (r: seq<Item>)
    ensures multiset(r) == multiset(sorted) + multiset{x}
  {
    if sorted == [] || !LexLeq(sorted[0].id, x.id) then [x] + sorted
    else
      assert sorted == [sorted[0]] + sorted[1..];
      [sorted[0]] + InsertById(sorted[1..], x)
  }

  function SortById(items: seq<Item>): (r: seq<Item>)
    ensures multiset(r) == multiset(items)
  {
    if items == [] then []
    else
      var n := |items| - 1;
      assert items == items[..n] + [items[n]];
      InsertById(SortById(items[..n]), items[n])
  }

  predicate SortedById(items: seq<Item>)
  {
    forall i, j | 0 <= i < j < |items| :: LexLeq(items[i].id, items[j].id)
  }

  lemma {:induction false} InsertByIdSorts(sorted: seq<Item>, x: Item)
    requires SortedById(sorted)
    ensures SortedById(InsertById(sorted, x))
  {
    if sorted != [] {
      LexTotal(x.id, sorted[0].id);
      if !LexLeq(sorted[0].id, x.id) {
        forall j | 0 <= j < |sorted| ensures LexLeq(x.id, sorted[j].id) {
          if j > 0 { LexTransitive(x.id, sorted[0].id, sorted[j].id); }
        }
      } else {
        InsertByIdSorts(sorted[1..], x);
        FirstLeads(sorted, x);
        PrependSorts(sorted[0], InsertById(sorted[1..], x));
      }
    }
  }

  lemma FirstLeads(sorted: seq<Item>, x: Item)
    requires sorted != [] && SortedById(sorted) && LexLeq(sorted[0].id, x.id)
    ensures forall y <- InsertById(sorted[1..], x) :: LexLeq(sorted[0].id, y.id)
  {
    hide InsertById, LexLeq;
    var r := InsertById(sorted[1..], x);
    forall y | y in r ensures LexLeq(sorted[0].id, y.id) {
      assert y in multiset(r);
      assert y in sorted[1..] || y == x;
    }
  }

  lemma PrependSorts(x: Item, xs: seq<Item>)
    requires SortedById(xs) && forall y <- xs :: LexLeq(x.id, y.id)
    ensures SortedById([x] + xs)
  {
    hide LexLeq;
    forall j | 0 < j < |[x] + xs| ensures ([x] + xs)[j] == xs[j - 1] && LexLeq(x.id, xs[j - 1].id) {
      assert xs[j - 1] in xs;
    }
  }

  lemma {:induction false} SortByIdSorts(items: seq<Item>)
    ensures SortedById(SortById(items))
  {
    if items != [] {
      SortByIdSorts(items[..|items| - 1]);
      InsertByIdSorts(SortById(items[..|items| - 1]), items[|items| - 1]);
    }
  }

  // Ids tell the items of `items` apart.
  predicate Identified(items: seq<Item>)
  {
    forall x, y | x in items && y in items && x.id == y.id :: x == y
  }

  lemma {:induction false} SortedItemsUnique(a: seq<Item>, b: seq<Item>)
    requires SortedById(a) && SortedById(b) && multiset(a) == multiset(b) && Identified(a)
    ensures a == b
  {
    hide SortedById, Identified;
    assert |a| == |multiset(a)| == |multiset(b)| == |b|;
    if a != [] {
      SameFirst(a, b);
      assert a == [a[0]] + a[1..] && b == [b[0]] + b[1..];
      assert multiset(a[1..]) == multiset(a) - multiset{a[0]};
      assert multiset(b[1..]) == multiset(b) - multiset{b[0]};
      SortedTail(a);
      SortedTail(b);
      SortedItemsUnique(a[1..], b[1..]);
    }
  }

  lemma SortedTail(a: seq<Item>)
    requires a != [] && SortedById(a)
    ensures SortedById(a[1..]) && (Identified(a) ==> Identified(a[1..]))
  {
    hide LexLeq;
  }

  lemma SameFirst(a: seq<Item>, b: seq<Item>)
    requires a != [] && b != [] && SortedById(a) && SortedById(b) && multiset(a) == multiset(b) && Identified(a)
    ensures a[0] == b[0]
  {
    hide LexLeq;
    assert a[0] in multiset(b) && b[0] in multiset(a);
    var i :| 0 <= i < |b| && b[i] == a[0];
    var j :| 0 <= j < |a| && a[j] == b[0];
    LexTotal(a[0].id, b[0].id);
    assert i > 0 ==> LexLeq(b[0].id, a[0].id);
    assert j > 0 ==> LexLeq(a[0].id, b[0].id);
  }

  lemma SortByIdIsCanonical(items: seq<Item>, other: seq<Item>)
    requires Identified(items) && multiset(items) == multiset(other)
    ensures SortById(items) == SortById(other)
  {
    SortByIdSorts(items);
    SortByIdSorts(other);
    SameMembers(items, SortById(items));
    SortedItemsUnique(SortById(items), SortById(other));
  }

  // ---- The buckets -----------------------------------------------------------------

  function Times(tags: seq<string>, tag: string): nat
  {
    multiset(tags)[tag]
  }

  function Repeat(x: Item, n: nat): (r: seq<Item>)
    ensures |r| == n && forall y <- r :: y == x
    ensures multiset(r) == multiset{}[x := n]
  {
    if n == 0 then [] else Repeat(x, n - 1) + [x]
  }

  // An item is in a tag's bucket once for each time it carries the tag.
  function Bucket(items: seq<Item>, tag: string): (r: seq<Item>)
    ensures forall x :: x in r <==> x in items && tag in x.tags
  {
    if items == [] then []
    else
      var n := |items| - 1;
      assert items == items[..n] + [items[n]];
      Bucket(items[..n], tag) + Repeat(items[n], Times(items[n].tags, tag))
  }

  function AllTags(items: seq<Item>): (r: set<string>)
    ensures forall t :: t in r <==> exists i :: 0 <= i < |items| && t in items[i].tags
  {
    set i, t | 0 <= i < |items| && t in items[i].tags :: t
  }

  lemma OneMore(m: nat, k: nat)
    ensures (m + 1) * k == m * k + k
  {
  }

  lemma BucketStep(items: seq<Item>, tag: string, x: Item)
    requires items != []
    ensures var (init, last) := (items[..|items| - 1], items[|items| - 1]);
            && multiset(Bucket(items, tag))[x] == multiset(Bucket(init, tag))[x] + (if x == last then Times(x.tags, tag) else 0)
            && multiset(items)[x] == multiset(init)[x] + if x == last then 1 else 0
  {
    hide Times;
    var (init, last) := (items[..|items| - 1], items[|items| - 1]);
    assert items == init + [last];
    assert multiset(Bucket(items, tag)) == multiset(Bucket(init, tag)) + multiset(Repeat(last, Times(last.tags, tag)));
  }

  lemma {:induction false} BucketCounts(items: seq<Item>, tag: string, x: Item)
    ensures multiset(Bucket(items, tag))[x] == multiset(items)[x] * Times(x.tags, tag)
  {
    hide Times, Bucket;
    if items == [] {
      NoBucket(tag);
    } else {
      var init := items[..|items| - 1];
      BucketCounts(init, tag, x);
      BucketStep(items, tag, x);
      OneMore(multiset(init)[x], Times(x.tags, tag));
    }
  }

  lemma NoBucket(tag: string)
    ensures Bucket([], tag) == []
  {}

  lemma BucketIsCanonical(items: seq<Item>, other: seq<Item>, tag: string)
    requires multiset(items) == multiset(other)
    ensures multiset(Bucket(items, tag)) == multiset(Bucket(other, tag))
  {
    forall x ensures multiset(Bucket(items, tag))[x] == multiset(Bucket(other, tag))[x] {
      BucketCounts(items, tag, x);
      BucketCounts(other, tag, x);
    }
  }

  // ---- Choosing ----------------------------------------------------------------------

  datatype Pick = Pick(chosen: seq<Item>, added: nat)

  // A tag walks its own bucket past items already taken until it has added `quota` new ones.
  function Claim(tagged: seq<Item>, chosen: seq<Item>, quota: int): Pick
  {
    if tagged == [] then Pick(chosen, 0)
    else
      var p, x := Claim(tagged[..|tagged| - 1], chosen, quota), tagged[|tagged| - 1];
      if p.added >= quota || x.id in Ids(p.chosen) then p else Pick(p.chosen + [x], p.added + 1)
  }

  function ClaimAll(tags: seq<string>, items: seq<Item>, quota: int): seq<Item>
  {
    if tags == [] then []
    else Claim(SortById(Bucket(items, tags[|tags| - 1])), ClaimAll(tags[..|tags| - 1], items, quota), quota).chosen
  }

  function Claimed(items: seq<Item>, quota: int): seq<Item>
  {
    ClaimAll(SortedSet(AllTags(items)), items, quota)
  }

  function Remainder(items: seq<Item>, ids: set<string>): (r: seq<Item>)
    ensures forall x :: x in r <==> x in items && x.id !in ids
  {
    if items == [] then []
    else
      var n := |items| - 1;
      assert items == items[..n] + [items[n]];
      if items[n].id in ids then Remainder(items[..n], ids) else Remainder(items[..n], ids) + [items[n]]
  }

  function TopUp(rest: seq<Item>, chosen: seq<Item>, total: int): seq<Item>
  {
    if rest == [] then chosen
    else
      var before := TopUp(rest[..|rest| - 1], chosen, total);
      if |before| >= total then before else before + [rest[|rest| - 1]]
  }

  function Sample(items: seq<Item>, quota: int, total: int): seq<Item>
  {
    var claimed := Claimed(items, quota);
    SortById(TopUp(SortById(Remainder(items, Ids(claimed))), claimed, total))
  }

  method StratifiedSample(items: seq<Item>, quota: int, total: int) returns (sample: seq<Item>)
    ensures sample == Sample(items, quota, total)
  {
    hide Bucket, Claim, TopUp, Remainder, SortById, InsertById, Ids, AllTags, SortedSet, NonEmpty;
    var byTag := GroupByTag(items);
    BucketKeys(byTag, items);
    var tags := SortedSet(byTag.Keys);
    var chosen: seq<Item> := [];
    for i := 0 to |tags|
      invariant chosen == ClaimAll(tags[..i], items, quota)
    {
      assert tags[i] in byTag;
      assert At(byTag, tags[i]) == Bucket(items, tags[i]);
      chosen := ClaimQuota(SortById(byTag[tags[i]]), chosen, quota);
      assert tags[..i + 1][..i] == tags[..i];
    }
    assert tags[..|tags|] == tags;
    chosen := FillUp(SortById(Remainder(items, Ids(chosen))), chosen, total);
    sample := SortById(chosen);
  }

  method GroupByTag(items: seq<Item>) returns (byTag: map<string, seq<Item>>)
    ensures Bucketed(byTag, items)
  {
    hide Bucket, Repeat, Times;
    byTag := map[];
    NothingBucketed();
    for i := 0 to |items|
      invariant Bucketed(byTag, items[..i])
    {
      var tags := items[i].tags;
      BucketItemBegins(byTag, items[..i], items[i]);
      for k := 0 to |tags|
        invariant BucketedMidway(byTag, items[..i], items[i], tags[..k])
      {
        assert tags[..k + 1] == tags[..k] + [tags[k]];
        BucketOneMore(byTag, items[..i], items[i], tags[..k], tags[k]);
        byTag := byTag[tags[k] := At(byTag, tags[k]) + [items[i]]];
      }
      assert tags[..|tags|] == tags;
      assert items[..i + 1] == items[..i] + [items[i]];
      BucketItemDone(byTag, items[..i], items[i]);
    }
    assert items[..|items|] == items;
  }

  method ClaimQuota(tagged: seq<Item>, before: seq<Item>, quota: int) returns (chosen: seq<Item>)
    ensures chosen == Claim(tagged, before, quota).chosen
  {
    chosen := before;
    var added := 0;
    var k := 0;
    while k < |tagged| && added < quota
      invariant 0 <= k <= |tagged| && added >= 0
      invariant Pick(chosen, added) == Claim(tagged[..k], before, quota)
    {
      assert tagged[..k + 1][..k] == tagged[..k];
      if tagged[k].id !in Ids(chosen) {
        chosen := chosen + [tagged[k]];
        added := added + 1;
      }
      k := k + 1;
    }
    ClaimStops(tagged, before, quota, k);
  }

  method FillUp(rest: seq<Item>, before: seq<Item>, total: int) returns (chosen: seq<Item>)
    ensures chosen == TopUp(rest, before, total)
  {
    chosen := before;
    var j := 0;
    while j < |rest| && |chosen| < total
      invariant 0 <= j <= |rest| && chosen == TopUp(rest[..j], before, total)
    {
      assert rest[..j + 1][..j] == rest[..j];
      chosen := chosen + [rest[j]];
      j := j + 1;
    }
    TopUpStops(rest, before, total, j);
  }

  function At(byTag: map<string, seq<Item>>, tag: string): seq<Item>
  {
    if tag in byTag then byTag[tag] else []
  }

  predicate NonEmpty(byTag: map<string, seq<Item>>)
  {
    forall tag <- byTag :: byTag[tag] != []
  }

  ghost predicate Bucketed(byTag: map<string, seq<Item>>, items: seq<Item>)
  {
    NonEmpty(byTag) && forall tag :: At(byTag, tag) == Bucket(items, tag)
  }

  // After the first tags of one more item.
  ghost predicate BucketedMidway(byTag: map<string, seq<Item>>, items: seq<Item>, x: Item, tags: seq<string>)
  {
    NonEmpty(byTag) && forall tag :: At(byTag, tag) == Bucket(items, tag) + Repeat(x, Times(tags, tag))
  }

  lemma NothingBucketed()
    ensures Bucketed(map[], [])
  {
  }

  lemma BucketItemBegins(byTag: map<string, seq<Item>>, items: seq<Item>, x: Item)
    requires Bucketed(byTag, items)
    ensures BucketedMidway(byTag, items, x, [])
  {
    hide Bucket;
    forall tag ensures At(byTag, tag) == Bucket(items, tag) + Repeat(x, Times([], tag)) {
      assert Repeat(x, 0) == [];
    }
  }

  lemma BucketOneMore(byTag: map<string, seq<Item>>, items: seq<Item>, x: Item, tags: seq<string>, tag: string)
    requires BucketedMidway(byTag, items, x, tags)
    ensures BucketedMidway(byTag[tag := At(byTag, tag) + [x]], items, x, tags + [tag])
  {
    hide Bucket, Repeat, Times, At, NonEmpty;
    var byTag' := byTag[tag := At(byTag, tag) + [x]];
    AtAppend(byTag, tag, x);
    forall t ensures At(byTag', t) == Bucket(items, t) + Repeat(x, Times(tags + [tag], t)) {
      CountOneMore(x, tags, tag, t);
      assert At(byTag, t) == Bucket(items, t) + Repeat(x, Times(tags, t));
      Reassociate(Bucket(items, t), Repeat(x, Times(tags, t)), [x]);
    }
  }

  lemma Reassociate(a: seq<Item>, b: seq<Item>, c: seq<Item>)
    ensures a + b + c == a + (b + c)
  {
  }

  lemma AtAppend(byTag: map<string, seq<Item>>, tag: string, x: Item)
    requires NonEmpty(byTag)
    ensures var byTag' := byTag[tag := At(byTag, tag) + [x]];
            NonEmpty(byTag') && forall t :: At(byTag', t) == if t == tag then At(byTag, t) + [x] else At(byTag, t)
  {
  }

  lemma CountOneMore(x: Item, tags: seq<string>, tag: string, t: string)
    ensures Repeat(x, Times(tags + [tag], t)) == if t == tag then Repeat(x, Times(tags, t)) + [x] else Repeat(x, Times(tags, t))
  {
    assert Times(tags + [tag], t) == Times(tags, t) + if t == tag then 1 else 0;
  }

  lemma BucketItemDone(byTag: map<string, seq<Item>>, items: seq<Item>, x: Item)
    requires BucketedMidway(byTag, items, x, x.tags)
    ensures Bucketed(byTag, items + [x])
  {
    hide Repeat, Times;
    assert (items + [x])[..|items|] == items;
  }

  lemma BucketKeys(byTag: map<string, seq<Item>>, items: seq<Item>)
    requires Bucketed(byTag, items)
    ensures byTag.Keys == AllTags(items)
  {
    forall tag ensures tag in byTag <==> tag in AllTags(items) {
      var b := Bucket(items, tag);
      assert At(byTag, tag) == b;
      if tag in byTag {
        assert b[0] in b;
      }
      if i :| 0 <= i < |items| && tag in items[i].tags {
        assert items[i] in b;
      }
    }
  }

  lemma {:induction false} ClaimStops(tagged: seq<Item>, chosen: seq<Item>, quota: int, k: nat)
    requires k <= |tagged| && (k == |tagged| || Claim(tagged[..k], chosen, quota).added >= quota)
    ensures Claim(tagged, chosen, quota) == Claim(tagged[..k], chosen, quota)
  {
    if k < |tagged| {
      var n := |tagged| - 1;
      assert tagged[..n][..k] == tagged[..k];
      ClaimStops(tagged[..n], chosen, quota, k);
    } else {
      assert tagged[..k] == tagged;
    }
  }

  lemma {:induction false} TopUpStops(rest: seq<Item>, chosen: seq<Item>, total: int, k: nat)
    requires k <= |rest| && (k == |rest| || |TopUp(rest[..k], chosen, total)| >= total)
    ensures TopUp(rest, chosen, total) == TopUp(rest[..k], chosen, total)
  {
    if k < |rest| {
      var n := |rest| - 1;
      assert rest[..n][..k] == rest[..k];
      TopUpStops(rest[..n], chosen, total, k);
    } else {
      assert rest[..k] == rest;
    }
  }

  // ---- What the sample guarantees -------------------------------------------------------

  function Members(items: seq<Item>): set<Item>
  {
    set x | x in items
  }

  function Tagged(items: seq<Item>, tag: string): (r: set<Item>)
    ensures forall x :: x in r <==> x in items && tag in x.tags
  {
    set x | x in items && tag in x.tags
  }

  lemma DistinctMembers(items: seq<Item>)
    requires DistinctIds(items)
    ensures |Members(items)| == |items| && Identified(items)
  {
    MembersCount(items);
    forall x, y | x in items && y in items && x.id == y.id ensures x == y {
      var i :| 0 <= i < |items| && items[i] == x;
      var j :| 0 <= j < |items| && items[j] == y;
    }
  }

  lemma {:induction false} MembersCount(items: seq<Item>)
    requires DistinctIds(items)
    ensures |Members(items)| == |items|
  {
    if items != [] {
      var init, last := items[..|items| - 1], items[|items| - 1];
      assert items == init + [last];
      MembersCount(init);
      assert Members(items) == Members(init) + {last};
      assert last !in init;
    }
  }

  lemma SubsetSize<T>(a: set<T>, b: set<T>)
    requires a <= b
    ensures |a| <= |b|
  {
    assert b == a + (b - a);
  }

  // What one tag's turn does: it keeps what was chosen and adds new, distinct items of its bucket, until it has
  // added its quota or run out.
  ghost predicate GoodClaim(tagged: seq<Item>, chosen: seq<Item>, quota: int, p: Pick)
  {
    && |p.chosen| == |chosen| + p.added && p.chosen[..|chosen|] == chosen && DistinctIds(p.chosen)
    && (forall x <- p.chosen[|chosen|..] :: x in tagged)
    && (p.added >= quota || forall x <- tagged :: x.id in Ids(p.chosen))
  }

  lemma {:induction false} ClaimIsGood(tagged: seq<Item>, chosen: seq<Item>, quota: int)
    requires DistinctIds(chosen)
    ensures GoodClaim(tagged, chosen, quota, Claim(tagged, chosen, quota))
  {
    if tagged != [] {
      var init, x := tagged[..|tagged| - 1], tagged[|tagged| - 1];
      assert tagged == init + [x];
      ClaimIsGood(init, chosen, quota);
      var (p, p') := (Claim(init, chosen, quota), Claim(tagged, chosen, quota));
      if p' != p {
        NewStaysDistinct(p.chosen, x);
        assert p'.chosen[|chosen|..] == p.chosen[|chosen|..] + [x];
        assert p'.chosen[..|chosen|] == p.chosen[..|chosen|];
      }
    }
  }

  lemma NewStaysDistinct(chosen: seq<Item>, x: Item)
    requires DistinctIds(chosen) && x.id !in Ids(chosen)
    ensures DistinctIds(chosen + [x]) && forall id :: id in Ids(chosen + [x]) <==> id in Ids(chosen) || id == x.id
  {
    var all := chosen + [x];
    forall i | 0 <= i < |chosen| ensures chosen[i].id in Ids(chosen) {}
    forall id ensures id in Ids(all) <==> id in Ids(chosen) || id == x.id {
      if i :| 0 <= i < |all| && all[i].id == id {
        if i < |chosen| { assert chosen[i].id == id; }
      }
      if i :| 0 <= i < |chosen| && chosen[i].id == id { assert all[i].id == id; }
      assert all[|chosen|].id == x.id;
    }
  }

  predicate Within(chosen: seq<Item>, items: seq<Item>)
  {
    DistinctIds(chosen) && forall x <- chosen :: x in items
  }

  lemma ClaimMeetsQuota(items: seq<Item>, chosen: seq<Item>, tag: string, quota: int)
    requires DistinctIds(items) && Within(chosen, items)
    ensures var after := Claim(SortById(Bucket(items, tag)), chosen, quota).chosen;
            && Within(after, items) && (forall x <- chosen :: x in after)
            && |Tagged(after, tag)| >= Min(quota, |Tagged(items, tag)|)
  {
    hide Claim, Bucket, SortById, InsertById, Ids;
    var tagged := SortById(Bucket(items, tag));
    var p := Claim(tagged, chosen, quota);
    ClaimIsGood(tagged, chosen, quota);
    SameMembers(tagged, Bucket(items, tag));
    var fresh_ := p.chosen[|chosen|..];
    assert p.chosen == chosen + fresh_;
    DistinctMembers(items);
    if p.added >= quota {
      DistinctMembers(fresh_);
      SubsetSize(Members(fresh_), Tagged(p.chosen, tag));
    } else {
      forall x | x in Tagged(items, tag) ensures x in Tagged(p.chosen, tag) {
        assert x in tagged;
        IdMeansItem(p.chosen, items, x);
      }
      SubsetSize(Tagged(items, tag), Tagged(p.chosen, tag));
    }
  }

  lemma IdMeansItem(chosen: seq<Item>, items: seq<Item>, x: Item)
    requires Identified(items) && x in items && x.id in Ids(chosen) && forall y <- chosen :: y in items
    ensures x in chosen
  {
    var i :| 0 <= i < |chosen| && chosen[i].id == x.id;
    assert chosen[i] in chosen;
  }

  lemma {:induction false} ClaimAllMeetsQuotas(tags: seq<string>, items: seq<Item>, quota: int)
    requires DistinctIds(items)
    ensures var chosen := ClaimAll(tags, items, quota);
            Within(chosen, items) && forall tag <- tags :: |Tagged(chosen, tag)| >= Min(quota, |Tagged(items, tag)|)
  {
    hide Claim, Bucket, SortById, Tagged, DistinctIds;
    if tags == [] {
      NothingWithin(items);
    } else {
      var init, last := tags[..|tags| - 1], tags[|tags| - 1];
      var before, after := ClaimAll(init, items, quota), ClaimAll(tags, items, quota);
      ClaimAllMeetsQuotas(init, items, quota);
      ClaimMeetsQuota(items, before, last, quota);
      forall tag | tag in tags ensures |Tagged(after, tag)| >= Min(quota, |Tagged(items, tag)|) {
        TaggedGrows(before, after, tag);
        assert tag in init || tag == last;
      }
    }
  }

  lemma NothingWithin(items: seq<Item>)
    ensures Within([], items)
  {
  }

  lemma TaggedGrows(a: seq<Item>, b: seq<Item>, tag: string)
    requires forall x <- a :: x in b
    ensures |Tagged(a, tag)| <= |Tagged(b, tag)|
  {
    SubsetSize(Tagged(a, tag), Tagged(b, tag));
  }

  lemma {:induction false} TopUpIs(rest: seq<Item>, chosen: seq<Item>, total: int)
    ensures var n := Max(0, Min(|rest|, total - |chosen|));
            TopUp(rest, chosen, total) == chosen + rest[..n]
  {
    if rest != [] {
      var init := rest[..|rest| - 1];
      TopUpIs(init, chosen, total);
      var m, n := Max(0, Min(|init|, total - |chosen|)), Max(0, Min(|rest|, total - |chosen|));
      assert init[..m] == rest[..m];
      if n == |rest| {
        assert rest[..n] == rest[..m] + [rest[|rest| - 1]];
      }
    }
  }

  lemma {:induction false} RemainderDistinct(items: seq<Item>, ids: set<string>)
    requires DistinctIds(items)
    ensures DistinctIds(Remainder(items, ids))
  {
    if items != [] {
      var init, last := items[..|items| - 1], items[|items| - 1];
      RemainderDistinct(init, ids);
      var r := Remainder(init, ids);
      forall i | 0 <= i < |r| ensures r[i].id != last.id {
        assert r[i] in r;
        var k :| 0 <= k < |init| && init[k] == r[i];
        assert items[k] == init[k];
      }
    }
  }

  lemma PermutedDistinct(a: seq<Item>, b: seq<Item>)
    requires DistinctIds(a) && multiset(a) == multiset(b)
    ensures DistinctIds(b)
  {
    DistinctMembers(a);
    SameMembers(a, b);
    forall i, j | 0 <= i < j < |b| ensures b[i].id != b[j].id {
      if b[i].id == b[j].id {
        assert b[i] in b && b[j] in b;
        assert b == b[..i] + [b[i]] + b[i + 1..j] + [b[j]] + b[j + 1..];
        assert multiset(b)[b[i]] >= 2;
        OnceEach(a, b[i]);
      }
    }
  }

  lemma {:induction false} OnceEach(items: seq<Item>, x: Item)
    requires DistinctIds(items)
    ensures multiset(items)[x] <= 1
  {
    if items != [] {
      var init, last := items[..|items| - 1], items[|items| - 1];
      assert items == init + [last];
      OnceEach(init, x);
      forall k | 0 <= k < |init| ensures init[k] != last { assert items[k] == init[k]; }
    }
  }

  // What is chosen before the last sort: the claims, then enough of the rest.
  lemma ChosenIs(items: seq<Item>, quota: int, total: int)
    requires DistinctIds(items)
    ensures var claimed := Claimed(items, quota);
            var chosen := TopUp(SortById(Remainder(items, Ids(claimed))), claimed, total);
            && Within(claimed, items) && Within(chosen, items) && (forall x <- claimed :: x in chosen)
            && |chosen| == Max(|claimed|, Min(total, |items|))
  {
    hide Claim, ClaimAll, Bucket, SortById, InsertById, TopUp, Ids, Remainder, DistinctIds;
    var claimed := Claimed(items, quota);
    ClaimAllMeetsQuotas(SortedSet(AllTags(items)), items, quota);
    var left := Remainder(items, Ids(claimed));
    var rest := SortById(left);
    RemainderDistinct(items, Ids(claimed));
    PermutedDistinct(left, rest);
    SameMembers(left, rest);
    LeftSize(items, claimed);
    assert |rest| == |multiset(rest)| == |multiset(left)| == |left|;
    TopUpIs(rest, claimed, total);
    var n := Max(0, Min(|rest|, total - |claimed|));
    JoinDistinct(claimed, rest, n);
  }

  lemma JoinDistinct(claimed: seq<Item>, rest: seq<Item>, n: nat)
    requires DistinctIds(claimed) && DistinctIds(rest) && n <= |rest| && forall x <- rest :: x.id !in Ids(claimed)
    ensures DistinctIds(claimed + rest[..n])
  {
    forall j | 0 <= j < |claimed| ensures claimed[j].id in Ids(claimed) {}
    forall i, j | 0 <= i < |claimed| && 0 <= j < n ensures claimed[i].id != rest[j].id {
      assert rest[j] in rest;
    }
  }

  lemma LeftSize(items: seq<Item>, claimed: seq<Item>)
    requires DistinctIds(items) && Within(claimed, items)
    ensures |Remainder(items, Ids(claimed))| == |items| - |claimed|
  {
    var left := Remainder(items, Ids(claimed));
    RemainderDistinct(items, Ids(claimed));
    DistinctMembers(items);
    DistinctMembers(claimed);
    DistinctMembers(left);
    forall x ensures x in Members(left) <==> x in Members(items) - Members(claimed) {
      if x in items && x.id in Ids(claimed) { IdMeansItem(claimed, items, x); }
      if x in claimed {
        var i :| 0 <= i < |claimed| && claimed[i] == x;
      }
    }
    assert Members(left) == Members(items) - Members(claimed);
    assert Members(claimed) <= Members(items);
  }

  // The sample holds distinct items of the input in id order, at least its quota of every tag, and exactly as many
  // items as the claims need or the total asks for.
  lemma SampleGuarantees(items: seq<Item>, quota: int, total: int)
    requires DistinctIds(items)
    ensures var sample := Sample(items, quota, total);
            && Within(sample, items) && SortedById(sample)
            && |sample| == Max(|Claimed(items, quota)|, Min(total, |items|))
            && forall tag <- AllTags(items) :: |Tagged(sample, tag)| >= Min(quota, |Tagged(items, tag)|)
  {
    hide ClaimAll, SortById, TopUp, Remainder, DistinctIds, LexLeq, AllTags, Tagged;
    var claimed := Claimed(items, quota);
    var chosen := TopUp(SortById(Remainder(items, Ids(claimed))), claimed, total);
    var sample := Sample(items, quota, total);
    ChosenIs(items, quota, total);
    SortByIdSorts(chosen);
    SameMembers(chosen, sample);
    PermutedDistinct(chosen, sample);
    assert |sample| == |multiset(sample)| == |multiset(chosen)| == |chosen|;
    ClaimAllMeetsQuotas(SortedSet(AllTags(items)), items, quota);
    forall tag | tag in AllTags(items) ensures |Tagged(sample, tag)| >= Min(quota, |Tagged(items, tag)|) {
      TaggedGrows(claimed, sample, tag);
      assert tag in SortedSet(AllTags(items));
    }
  }

  // ---- Which items those are -----------------------------------------------------------------

  // The first n of the free items in id order, or all of them if there are fewer.
  ghost predicate TakesFirst(taken: seq<Item>, free: set<Item>, n: int)
  {
    && SortedById(taken) && DistinctIds(taken) && |taken| == Max(0, Min(n, |free|))
    && (forall x <- taken :: x in free)
    && forall x <- taken, y <- free :: y !in taken ==> LexLeq(x.id, y.id)
  }

  // `taken` comes no later than anything of `tagged` that `ids` does not name.
  ghost predicate Ahead(taken: seq<Item>, tagged: seq<Item>, ids: set<string>)
  {
    forall x <- taken, y <- tagged :: y.id !in ids ==> LexLeq(x.id, y.id)
  }

  // What a turn adds comes in order, is new, and is ahead of everything it leaves.
  ghost predicate AddsFirst(tagged: seq<Item>, chosen: seq<Item>, quota: int, p: Pick)
    requires |p.chosen| >= |chosen|
  {
    var taken := p.chosen[|chosen|..];
    && SortedById(taken) && p.added <= Max(0, quota) && Ahead(taken, tagged, Ids(p.chosen))
    && forall x <- taken :: x.id !in Ids(chosen)
  }

  lemma {:induction false} ClaimAddsFirst(tagged: seq<Item>, chosen: seq<Item>, quota: int)
    requires DistinctIds(chosen) && SortedById(tagged)
    ensures var p := Claim(tagged, chosen, quota);
            GoodClaim(tagged, chosen, quota, p) && AddsFirst(tagged, chosen, quota, p)
  {
    hide LexLeq, Ids, DistinctIds, SortedById, Ahead;
    ClaimIsGood(tagged, chosen, quota);
    if tagged == [] {
      NothingAdded(chosen, quota);
    } else {
      var init, x := tagged[..|tagged| - 1], tagged[|tagged| - 1];
      var (p, p') := (Claim(init, chosen, quota), Claim(tagged, chosen, quota));
      assert tagged == init + [x];
      PrefixSorted(init, x);
      ClaimAddsFirst(init, chosen, quota);
      var taken := p.chosen[|chosen|..];
      LastIsLater(init, x, taken);
      if p' == p {
        AheadOfOneMore(taken, init, x, Ids(p.chosen));
      } else {
        assert p'.chosen[|chosen|..] == taken + [x];
        IdsGrow(p.chosen, x);
        AppendSorted(taken, x);
        NothingLeft(taken + [x], init, x, Ids(p'.chosen));
        ChosenKeeps(chosen, p.chosen);
      }
    }
  }

  lemma NothingAdded(chosen: seq<Item>, quota: int)
    ensures Claim([], chosen, quota) == Pick(chosen, 0) && chosen[|chosen|..] == []
    ensures SortedById([]) && Ahead([], [], Ids(chosen))
  {}

  lemma PrefixSorted(init: seq<Item>, x: Item)
    requires SortedById(init + [x])
    ensures SortedById(init)
  {
    hide LexLeq;
    forall i, j | 0 <= i < j < |init| ensures LexLeq(init[i].id, init[j].id) {
      assert (init + [x])[i] == init[i] && (init + [x])[j] == init[j];
    }
  }

  lemma LastIsLater(init: seq<Item>, x: Item, taken: seq<Item>)
    requires SortedById(init + [x]) && forall y <- taken :: y in init
    ensures forall y <- taken :: LexLeq(y.id, x.id)
  {
    hide LexLeq;
    forall y | y in taken ensures LexLeq(y.id, x.id) {
      var i :| 0 <= i < |init| && init[i] == y;
      assert (init + [x])[i] == y && (init + [x])[|init|] == x;
    }
  }

  lemma AppendSorted(taken: seq<Item>, x: Item)
    requires SortedById(taken) && forall y <- taken :: LexLeq(y.id, x.id)
    ensures SortedById(taken + [x])
  {
    hide LexLeq;
    forall i, j | 0 <= i < j < |taken + [x]| ensures LexLeq((taken + [x])[i].id, (taken + [x])[j].id) {
      assert taken[i] in taken;
    }
  }

  lemma AheadOfOneMore(taken: seq<Item>, init: seq<Item>, x: Item, ids: set<string>)
    requires Ahead(taken, init, ids) && forall y <- taken :: LexLeq(y.id, x.id)
    ensures Ahead(taken, init + [x], ids)
  {
    hide LexLeq;
  }

  lemma NothingLeft(taken: seq<Item>, init: seq<Item>, x: Item, ids: set<string>)
    requires x.id in ids && forall y <- init :: y.id in ids
    ensures Ahead(taken, init + [x], ids)
  {
    hide LexLeq;
  }

  lemma IdsGrow(chosen: seq<Item>, x: Item)
    ensures x.id in Ids(chosen + [x]) && forall id :: id in Ids(chosen) ==> id in Ids(chosen + [x])
  {
    forall id | id in Ids(chosen) ensures id in Ids(chosen + [x]) {
      var i :| 0 <= i < |chosen| && chosen[i].id == id;
      assert (chosen + [x])[i].id == id;
    }
    assert (chosen + [x])[|chosen|].id == x.id;
  }

  lemma ChosenKeeps(chosen: seq<Item>, after: seq<Item>)
    requires |chosen| <= |after| && after[..|chosen|] == chosen
    ensures forall id :: id in Ids(chosen) ==> id in Ids(after)
  {
    forall id | id in Ids(chosen) ensures id in Ids(after) {
      var i :| 0 <= i < |chosen| && chosen[i].id == id;
      assert after[i].id == id;
    }
  }

  // One tag's turn takes the first `quota`, in id order, of its items that nobody took before.
  lemma TurnTakesFirst(items: seq<Item>, chosen: seq<Item>, tag: string, quota: int)
    requires DistinctIds(items) && Within(chosen, items)
    ensures var after := Claim(SortById(Bucket(items, tag)), chosen, quota).chosen;
            && |chosen| <= |after| && after[..|chosen|] == chosen
            && TakesFirst(after[|chosen|..], Tagged(items, tag) - Members(chosen), quota)
  {
    hide Claim, Bucket, SortById, InsertById, Ids, LexLeq, SortedById, DistinctIds, TakesFirst, Ahead;
    var tagged := SortById(Bucket(items, tag));
    var p := Claim(tagged, chosen, quota);
    SortByIdSorts(Bucket(items, tag));
    ClaimAddsFirst(tagged, chosen, quota);
    SameMembers(tagged, Bucket(items, tag));
    var taken := p.chosen[|chosen|..];
    assert p.chosen == chosen + taken;
    DistinctTail(chosen, taken);
    DistinctMembers(items);
    TakenIs(items, chosen, tagged, taken, Tagged(items, tag) - Members(chosen), quota);
  }

  lemma DistinctTail(chosen: seq<Item>, taken: seq<Item>)
    requires DistinctIds(chosen + taken)
    ensures DistinctIds(taken)
  {
    forall i, j | 0 <= i < j < |taken| ensures taken[i].id != taken[j].id {
      assert (chosen + taken)[|chosen| + i] == taken[i] && (chosen + taken)[|chosen| + j] == taken[j];
    }
  }

  lemma TakenIs(items: seq<Item>, chosen: seq<Item>, tagged: seq<Item>, taken: seq<Item>, free: set<Item>, quota: int)
    requires Identified(items) && (forall x <- chosen :: x in items) && (forall x <- tagged :: x in items)
    requires forall x :: x in free <==> x in tagged && x !in chosen
    requires (forall x <- taken :: x in tagged && x.id !in Ids(chosen)) && SortedById(taken) && DistinctIds(taken)
    requires |taken| <= Max(0, quota) && Ahead(taken, tagged, Ids(chosen + taken))
    requires |taken| >= quota || forall x <- tagged :: x.id in Ids(chosen + taken)
    ensures TakesFirst(taken, free, quota)
  {
    hide Ids, LexLeq, SortedById, DistinctIds;
    forall x | x in taken ensures x in free {
      if x in chosen { InIds(chosen, x); }
    }
    forall x | x in free && x !in taken ensures x.id !in Ids(chosen + taken) {
      if x.id in Ids(chosen + taken) { IdMeansItem(chosen + taken, items, x); }
    }
    DistinctMembers(taken);
    SubsetSize(Members(taken), free);
    if |taken| < quota {
      SubsetSize(free, Members(taken));
    }
  }

  lemma InIds(chosen: seq<Item>, x: Item)
    requires x in chosen
    ensures x.id in Ids(chosen)
  {
    var i :| 0 <= i < |chosen| && chosen[i] == x;
  }

  function Joined(turns: seq<seq<Item>>): seq<Item>
  {
    if turns == [] then [] else Joined(turns[..|turns| - 1]) + turns[|turns| - 1]
  }

  ghost predicate TurnAt(turns: seq<seq<Item>>, tags: seq<string>, items: seq<Item>, quota: int, i: nat)
    requires i < |turns| == |tags|
  {
    TakesFirst(turns[i], Tagged(items, tags[i]) - Members(Joined(turns[..i])), quota)
  }

  lemma {:induction false} TurnsAre(tags: seq<string>, items: seq<Item>, quota: int) returns (turns: seq<seq<Item>>)
    requires DistinctIds(items)
    ensures |turns| == |tags| && Joined(turns) == ClaimAll(tags, items, quota)
    ensures forall i | 0 <= i < |tags| :: TurnAt(turns, tags, items, quota, i)
  {
    hide Claim, Bucket, SortById, TakesFirst, DistinctIds;
    if tags == [] {
      return [];
    }
    var n := |tags| - 1;
    var before := TurnsAre(tags[..n], items, quota);
    var chosen := ClaimAll(tags[..n], items, quota);
    ClaimAllMeetsQuotas(tags[..n], items, quota);
    TurnTakesFirst(items, chosen, tags[n], quota);
    var after := ClaimAll(tags, items, quota);
    turns := before + [after[|chosen|..]];
    assert turns[..n] == before;
    assert after == chosen + after[|chosen|..];
    forall i | 0 <= i < |tags| ensures TurnAt(turns, tags, items, quota, i) {
      if i < n {
        assert TurnAt(before, tags[..n], items, quota, i);
        assert turns[..i] == before[..i];
      }
    }
  }

  // The whole sample, said without the loops: tag after tag in alphabetical order takes the first `quota` of its items not
  // yet taken, and the first of the rest fill it up to `total`.
  lemma SampleIsTheFirstOfEach(items: seq<Item>, quota: int, total: int) returns (turns: seq<seq<Item>>, filled: seq<Item>)
    requires DistinctIds(items)
    ensures var tags := SortedSet(AllTags(items));
            && |turns| == |tags| && (forall i, j | 0 <= i < j < |tags| :: LexLeq(tags[i], tags[j]))
            && (forall i | 0 <= i < |tags| :: TurnAt(turns, tags, items, quota, i))
            && TakesFirst(filled, Members(items) - Members(Joined(turns)), total - |Joined(turns)|)
            && multiset(Sample(items, quota, total)) == multiset(Joined(turns)) + multiset(filled)
  {
    hide ClaimAll, Bucket, SortById, InsertById, TopUp, Remainder, Ids, LexLeq, TurnAt, TakesFirst, DistinctIds, AllTags;
    SortedSetRises(AllTags(items));
    var tags := SortedSet(AllTags(items));
    turns := TurnsAre(tags, items, quota);
    ClaimAllMeetsQuotas(tags, items, quota);
    filled := FillTakesFirst(items, Claimed(items, quota), total);
  }

  lemma FillTakesFirst(items: seq<Item>, claimed: seq<Item>, total: int) returns (filled: seq<Item>)
    requires DistinctIds(items) && Within(claimed, items)
    ensures TakesFirst(filled, Members(items) - Members(claimed), total - |claimed|)
    ensures TopUp(SortById(Remainder(items, Ids(claimed))), claimed, total) == claimed + filled
  {
    hide SortById, TopUp, Remainder, Ids, LexLeq, SortedById;
    var left := Remainder(items, Ids(claimed));
    var rest := SortById(left);
    RemainderDistinct(items, Ids(claimed));
    PermutedDistinct(left, rest);
    SameMembers(left, rest);
    SortByIdSorts(left);
    TopUpIs(rest, claimed, total);
    var n := Max(0, Min(|rest|, total - |claimed|));
    filled := rest[..n];
    var free := Members(items) - Members(claimed);
    DistinctMembers(items);
    DistinctMembers(rest);
    forall x ensures x in free <==> x in rest {
      if x in items && x.id in Ids(claimed) { IdMeansItem(claimed, items, x); }
      if x in claimed { InIds(claimed, x); }
    }
    assert Members(rest) == free;
    PrefixIsFirst(rest, n);
    assert |free| == |rest|;
  }

  lemma PrefixIsFirst(rest: seq<Item>, n: nat)
    requires n <= |rest| && SortedById(rest) && DistinctIds(rest)
    ensures SortedById(rest[..n]) && DistinctIds(rest[..n])
    ensures forall x <- rest[..n], y <- rest :: y !in rest[..n] ==> LexLeq(x.id, y.id)
  {
    hide LexLeq;
    forall k | 0 <= k < n ensures rest[k] in rest[..n] { assert rest[..n][k] == rest[k]; }
    forall x, y | x in rest[..n] && y in rest && y !in rest[..n] ensures LexLeq(x.id, y.id) {
      var i :| 0 <= i < n && rest[i] == x;
      var j :| 0 <= j < |rest| && rest[j] == y;
    }
  }

  // ---- Order of the input --------------------------------------------------------------------

  lemma {:induction false} ClaimAllIsCanonical(tags: seq<string>, items: seq<Item>, other: seq<Item>, quota: int)
    requires DistinctIds(items) && multiset(items) == multiset(other)
    ensures ClaimAll(tags, items, quota) == ClaimAll(tags, other, quota)
  {
    hide Bucket, SortById, Claim;
    if tags != [] {
      var n := |tags| - 1;
      ClaimAllIsCanonical(tags[..n], items, other, quota);
      BucketIsCanonical(items, other, tags[n]);
      DistinctMembers(items);
      BucketIdentified(items, tags[n]);
      SortByIdIsCanonical(Bucket(items, tags[n]), Bucket(other, tags[n]));
    }
  }

  lemma BucketIdentified(items: seq<Item>, tag: string)
    requires Identified(items)
    ensures Identified(Bucket(items, tag))
  {
  }

  lemma {:induction false} RemainderCounts(items: seq<Item>, ids: set<string>, x: Item)
    ensures multiset(Remainder(items, ids))[x] == if x.id in ids then 0 else multiset(items)[x]
  {
    if items != [] {
      var init, last := items[..|items| - 1], items[|items| - 1];
      assert items == init + [last];
      RemainderCounts(init, ids, x);
    }
  }

  lemma SameTags(items: seq<Item>, other: seq<Item>)
    requires multiset(items) == multiset(other)
    ensures AllTags(items) == AllTags(other)
  {
    SameMembers(items, other);
    forall t ensures t in AllTags(items) <==> t in AllTags(other) {
      if i :| 0 <= i < |items| && t in items[i].tags {
        assert items[i] in other;
        var j :| 0 <= j < |other| && other[j] == items[i];
      }
      if j :| 0 <= j < |other| && t in other[j].tags {
        assert other[j] in items;
        var i :| 0 <= i < |items| && items[i] == other[j];
      }
    }
  }

  // The sample depends on which items there are, not on the order they come in.
  lemma SampleIgnoresOrder(items: seq<Item>, other: seq<Item>, quota: int, total: int)
    requires DistinctIds(items) && multiset(items) == multiset(other)
    ensures Sample(items, quota, total) == Sample(other, quota, total)
  {
    hide SortById, ClaimAll, TopUp, Remainder, AllTags, DistinctIds;
    SameTags(items, other);
    ClaimAllIsCanonical(SortedSet(AllTags(items)), items, other, quota);
    var ids := Ids(Claimed(items, quota));
    var (a, b) := (Remainder(items, ids), Remainder(other, ids));
    DistinctMembers(items);
    forall x ensures multiset(a)[x] == multiset(b)[x] {
      RemainderCounts(items, ids, x);
      RemainderCounts(other, ids, x);
    }
    assert multiset(a) == multiset(b);
    assert Identified(a);
    SortByIdIsCanonical(a, b);
  }
}
