/** Small facts about numbers, sequences and sets. */
module Collections {
  function Min(a: int, b: int): int { if a < b then a else b }

  function Max(a: int, b: int): int { if a < b then b else a }

  // The places below n where `p` holds.
  function Places(n: nat, p: nat -> bool): set<nat>
  {
    set i: nat | i < n && p(i)
  }

  lemma OneMorePlace(n: nat, p: nat -> bool)
    ensures |Places(n + 1, p)| == |Places(n, p)| + if p(n) then 1 else 0
  {
    assert Places(n + 1, p) == Places(n, p) + if p(n) then {n} else {};
  }

  // From j on: one more if j is one.
  lemma PlacesFrom(n: nat, j: nat, p: nat -> bool)
    requires j < n
    ensures |Places(n, (k: nat) => j <= k && p(k))| == |Places(n, (k: nat) => j + 1 <= k && p(k))| + if p(j) then 1 else 0
  {
    var (from, after) := (Places(n, (k: nat) => j <= k && p(k)), Places(n, (k: nat) => j + 1 <= k && p(k)));
    assert from == after + if p(j) then {j} else {};
  }

  lemma NoPlacesFrom(n: nat, p: nat -> bool)
    ensures Places(n, (k: nat) => n <= k && p(k)) == {}
  {}

  lemma SamePlaces(n: nat, p: nat -> bool, q: nat -> bool)
    requires forall i: nat | i < n :: p(i) == q(i)
    ensures Places(n, p) == Places(n, q)
  {}

  // `places` lists them in order.
  ghost predicate Lists(places: seq<nat>, n: nat, p: nat -> bool)
  {
    && (forall i, j | 0 <= i < j < |places| :: places[i] < places[j])
    && forall k: nat :: k in places <==> k < n && p(k)
  }

  lemma ListsOneMore(places: seq<nat>, n: nat, p: nat -> bool)
    requires Lists(places, n, p)
    ensures Lists(if p(n) then places + [n] else places, n + 1, p)
  {
    forall i | 0 <= i < |places| ensures places[i] < n { assert places[i] in places; }
  }

  lemma SameMembers<T(!new)>(a: seq<T>, b: seq<T>)
    requires multiset(a) == multiset(b)
    ensures forall x :: x in a <==> x in b
  {
    forall x ensures x in a <==> x in b {
      assert x in multiset(a) <==> x in multiset(b);
    }
  }
}
