/** Python's order on strings, and sorting by it. */
module Orders {
  predicate LexLeq(a: string, b: string)
  {
    a == "" || (b != "" && (a[0] < b[0] || (a[0] == b[0] && LexLeq(a[1..], b[1..]))))
  }

  lemma {:induction false} LexTotal(a: string, b: string)
    ensures LexLeq(a, b) || LexLeq(b, a)
    ensures LexLeq(a, b) && LexLeq(b, a) ==> a == b
    ensures LexLeq(a, a)
  {
    if a != "" {
      LexTotal(a[1..], a[1..]);
      if b != "" {
        LexTotal(a[1..], b[1..]);
        assert a == [a[0]] + a[1..] && b == [b[0]] + b[1..];
      }
    }
  }

  lemma {:induction false} LexTransitive(a: string, b: string, c: string)
    requires LexLeq(a, b) && LexLeq(b, c)
    ensures LexLeq(a, c)
  {
    if a != "" && a[0] == b[0] && b[0] == c[0] {
      LexTransitive(a[1..], b[1..], c[1..]);
    }
  }

  predicate Least(m: string, s: set<string>)
  {
    m in s && forall x <- s :: LexLeq(m, x)
  }

  lemma {:induction false} HasLeast(s: set<string>) returns (m: string)
    requires s != {}
    ensures Least(m, s)
    decreases |s|
  {
    var x :| x in s;
    var rest := s - {x};
    if rest == {} {
      m := x;
      LexTotal(x, x);
      forall y | y in s ensures LexLeq(x, y) { assert y !in rest; }
    } else {
      var n := HasLeast(rest);
      LexTotal(x, n);
      LexTotal(x, x);
      m := if LexLeq(x, n) then x else n;
      forall y | y in s ensures LexLeq(m, y) {
        if y != x {
          assert y in rest;
          if m == x { LexTransitive(x, n, y); }
        }
      }
    }
  }

  lemma LeastIsUnique(a: string, b: string, s: set<string>)
    requires Least(a, s) && Least(b, s)
    ensures a == b
  {
    LexTotal(a, b);
  }

  function LeastOf(s: set<string>): (m: string)
    requires s != {}
    ensures Least(m, s)
  {
    assert exists m :: Least(m, s) by { var m := HasLeast(s); }
    assert forall a, b | Least(a, s) && Least(b, s) :: a == b by {
      forall a, b | Least(a, s) && Least(b, s) ensures a == b { LeastIsUnique(a, b, s); }
    }
    var m :| Least(m, s);
    m
  }

  // sorted() of distinct strings.
  function SortedSet(s: set<string>): (r: seq<string>)
    ensures forall x :: x in r <==> x in s
    decreases |s|
  {
    if s == {} then []
    else
      var m := LeastOf(s);
      [m] + SortedSet(s - {m})
  }

  lemma {:induction false} SortedSetRises(s: set<string>)
    ensures forall i, j | 0 <= i < j < |SortedSet(s)| :: LexLeq(SortedSet(s)[i], SortedSet(s)[j])
    decreases |s|
  {
    hide LexLeq;
    if s != {} {
      var m := LeastOf(s);
      var rest := SortedSet(s - {m});
      SortedSetRises(s - {m});
      forall j | 0 <= j < |rest| ensures LexLeq(m, rest[j]) {
        assert rest[j] in rest;
      }
    }
  }

  // sorted() of strings, duplicates kept.
  function InsertString(sorted: seq<string>, x: string): (r: seq<string>)
    ensures multiset(r) == multiset(sorted) + multiset{x}
  {
    if sorted == [] || LexLeq(x, sorted[0]) then [x] + sorted
    else
      assert sorted == [sorted[0]] + sorted[1..];
      [sorted[0]] + InsertString(sorted[1..], x)
  }

  function SortStrings(xs: seq<string>): (r: seq<string>)
    ensures multiset(r) == multiset(xs)
  {
    if xs == [] then []
    else
      assert xs == [xs[0]] + xs[1..];
      InsertString(SortStrings(xs[1..]), xs[0])
  }

  predicate Increasing(xs: seq<string>)
  {
    forall i, j | 0 <= i < j < |xs| :: LexLeq(xs[i], xs[j])
  }

  lemma {:induction false} InsertIncreases(sorted: seq<string>, x: string)
    requires Increasing(sorted)
    ensures Increasing(InsertString(sorted, x))
  {
    if sorted != [] {
      LexTotal(x, sorted[0]);
      if LexLeq(x, sorted[0]) {
        forall j | 0 <= j < |sorted| ensures LexLeq(x, sorted[j]) {
          if j > 0 { LexTransitive(x, sorted[0], sorted[j]); }
        }
      } else {
        InsertIncreases(sorted[1..], x);
        FirstLeads(sorted, x);
        PrependIncreases(sorted[0], InsertString(sorted[1..], x));
      }
    }
  }

  lemma FirstLeads(sorted: seq<string>, x: string)
    requires sorted != [] && Increasing(sorted) && LexLeq(sorted[0], x)
    ensures forall y <- InsertString(sorted[1..], x) :: LexLeq(sorted[0], y)
  {
    hide InsertString, LexLeq;
    var r := InsertString(sorted[1..], x);
    forall y | y in r ensures LexLeq(sorted[0], y) {
      assert y in multiset(r);
      assert y in sorted[1..] || y == x;
    }
  }

  lemma PrependIncreases(x: string, xs: seq<string>)
    requires Increasing(xs) && forall y <- xs :: LexLeq(x, y)
    ensures Increasing([x] + xs)
  {
    hide LexLeq;
    forall j | 0 < j < |[x] + xs| ensures ([x] + xs)[j] == xs[j - 1] && LexLeq(x, xs[j - 1]) {
      assert xs[j - 1] in xs;
    }
  }

  lemma {:induction false} SortIncreases(xs: seq<string>)
    ensures Increasing(SortStrings(xs))
  {
    if xs != [] {
      SortIncreases(xs[1..]);
      InsertIncreases(SortStrings(xs[1..]), xs[0]);
    }
  }

  // There is only one way to sort a multiset of strings.
  lemma {:induction false} SortedUnique(a: seq<string>, b: seq<string>)
    requires Increasing(a) && Increasing(b) && multiset(a) == multiset(b)
    ensures a == b
  {
    assert |a| == |multiset(a)| == |multiset(b)| == |b|;
    if a != [] {
      SameFirst(a, b);
      assert a == [a[0]] + a[1..] && b == [b[0]] + b[1..];
      assert multiset(a[1..]) == multiset(a) - multiset{a[0]};
      assert multiset(b[1..]) == multiset(b) - multiset{b[0]};
      SortedUnique(a[1..], b[1..]);
    }
  }

  lemma SameFirst(a: seq<string>, b: seq<string>)
    requires a != [] && b != [] && Increasing(a) && Increasing(b) && multiset(a) == multiset(b)
    ensures a[0] == b[0]
  {
    hide LexLeq;
    assert a[0] in multiset(b) && b[0] in multiset(a);
    var i :| 0 <= i < |b| && b[i] == a[0];
    var j :| 0 <= j < |a| && a[j] == b[0];
    LexTotal(a[0], b[0]);
    assert i > 0 ==> LexLeq(b[0], a[0]);
    assert j > 0 ==> LexLeq(a[0], b[0]);
  }

  lemma SortIsCanonical(xs: seq<string>, ys: seq<string>)
    ensures SortStrings(xs) == SortStrings(ys) <==> multiset(xs) == multiset(ys)
  {
    SortIncreases(xs);
    SortIncreases(ys);
    if multiset(xs) == multiset(ys) {
      SortedUnique(SortStrings(xs), SortStrings(ys));
    }
  }
}
