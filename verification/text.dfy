/** Searching and replacing in strings, and writing numbers in decimal. */
module Text {
  predicate OccursAt(p: string, s: string, k: int)
  {
    0 <= k <= |s| - |p| && s[k..k + |p|] == p
  }

  ghost predicate Occurs(p: string, s: string)
  {
    exists k :: OccursAt(p, s, k)
  }

  // str.replace: left to right, without overlaps, and never into what was just put in.
  function Replace(s: string, p: string, o: string): string
    requires p != ""
  {
    if |s| < |p| then s
    else if s[..|p|] == p then o + Replace(s[|p|..], p, o)
    else [s[0]] + Replace(s[1..], p, o)
  }

  // How many replacements that makes.
  function Hits(s: string, p: string): nat
    requires p != ""
  {
    if |s| < |p| then 0
    else if s[..|p|] == p then 1 + Hits(s[|p|..], p)
    else Hits(s[1..], p)
  }

  lemma {:induction false} HitsIffOccurs(s: string, p: string)
    requires p != ""
    ensures Hits(s, p) > 0 <==> Occurs(p, s)
  {
    if |s| >= |p| {
      if s[..|p|] == p {
        assert OccursAt(p, s, 0);
      } else {
        HitsIffOccurs(s[1..], p);
        if Occurs(p, s[1..]) {
          var k :| OccursAt(p, s[1..], k);
          assert s[1..][k..k + |p|] == s[k + 1..k + 1 + |p|];
          assert OccursAt(p, s, k + 1);
        }
        if Occurs(p, s) {
          var k :| OccursAt(p, s, k);
          if k > 0 {
            assert s[1..][k - 1..k - 1 + |p|] == s[k..k + |p|];
            assert OccursAt(p, s[1..], k - 1);
          }
        }
      }
    }
  }

  lemma {:induction false} ReplaceNothing(s: string, p: string, o: string)
    requires p != "" && Hits(s, p) == 0
    ensures Replace(s, p, o) == s
  {
    if |s| >= |p| {
      ReplaceNothing(s[1..], p, o);
    }
  }

  // ---- Bracketed tokens ---------------------------------------------------------

  predicate BracketFree(s: string)
  {
    '[' !in s && ']' !in s
  }

  // "[...]" with no bracket inside.
  predicate Token(q: string)
  {
    |q| >= 2 && q[0] == '[' && q[|q| - 1] == ']' && BracketFree(q[1..|q| - 1])
  }

  lemma TokenInside(q: string, k: int)
    requires Token(q) && 0 < k < |q|
    ensures q[k] != '[' && (q[k] == ']' <==> k == |q| - 1)
  {
    if k < |q| - 1 {
      assert q[k] == q[1..|q| - 1][k - 1];
    }
  }

  // Two tokens that start at the same place are the same token.
  lemma TokensAlign(p: string, q: string, y: string)
    requires Token(p) && Token(q) && |p| <= |q + y| && (q + y)[..|p|] == p
    ensures p == q
  {
    if |p| < |q| {
      TokenInside(q, |p| - 1);
    } else if |q| < |p| {
      TokenInside(p, |q| - 1);
    } else {
      assert (q + y)[..|p|] == q;
    }
  }

  lemma {:induction false} SkipPlain(z: string, y: string, p: string, o: string)
    requires Token(p) && '[' !in z
    ensures Replace(z + y, p, o) == z + Replace(y, p, o) && Hits(z + y, p) == Hits(y, p)
  {
    if z == "" {
      assert z + y == y;
    } else {
      SkipPlain(z[1..], y, p, o);
      assert (z + y)[1..] == z[1..] + y;
      assert (z + y)[0] == z[0] && z[0] in z;
      if |z + y| < |p| {
        ShortStays(y, p, o);
      }
    }
  }

  lemma ShortStays(y: string, p: string, o: string)
    requires p != "" && |y| < |p|
    ensures Replace(y, p, o) == y && Hits(y, p) == 0
  {
  }

  lemma ReplaceMatch(s: string, p: string, o: string)
    requires p != "" && p <= s
    ensures Replace(s, p, o) == o + Replace(s[|p|..], p, o) && Hits(s, p) == 1 + Hits(s[|p|..], p)
  {
  }

  lemma ReplaceSkip(s: string, p: string, o: string)
    requires p != "" && s != "" && !(p <= s)
    ensures Replace(s, p, o) == [s[0]] + Replace(s[1..], p, o) && Hits(s, p) == Hits(s[1..], p)
  {
    if |s| < |p| {
      ShortStays(s, p, o);
      ShortStays(s[1..], p, o);
    }
  }

  lemma TokenFirst(q: string, y: string, p: string, o: string)
    requires Token(p) && Token(q)
    ensures Replace(q + y, p, o) == (if q == p then o else q) + Replace(y, p, o)
    ensures Hits(q + y, p) == (if q == p then 1 else 0) + Hits(y, p)
  {
    hide Replace, Hits;
    if q == p {
      ReplaceMatch(q + y, p, o);
      assert (q + y)[|p|..] == y;
    } else {
      forall c | c in q[1..] ensures c != '[' {
        var k :| 0 <= k < |q[1..]| && q[1..][k] == c;
        TokenInside(q, k + 1);
      }
      SkipPlain(q[1..], y, p, o);
      assert (q + y)[1..] == q[1..] + y;
      if p <= q + y {
        TokensAlign(p, q, y);
      }
      ReplaceSkip(q + y, p, o);
      assert [(q + y)[0]] + q[1..] == q;
    }
  }

  // A token is replaced whole or not at all, and splits the text around it into independent halves.
  lemma {:induction false} ReplaceAroundToken(x: string, q: string, y: string, p: string, o: string)
    requires Token(p) && Token(q)
    ensures Replace(x + q + y, p, o) == Replace(x, p, o) + (if q == p then o else q) + Replace(y, p, o)
    ensures Hits(x + q + y, p) == Hits(x, p) + (if q == p then 1 else 0) + Hits(y, p)
  {
    hide Replace, Hits;
    var s := x + q + y;
    assert s[|x|] == '[';
    if x == "" {
      TokenFirst(q, y, p, o);
      ShortStays(x, p, o);
      assert s == q + y;
    } else if p <= s {
      if |x| < |p| {
        TokenInside(p, |x|);
        assert false;
      }
      assert p <= x;
      assert s[|p|..] == x[|p|..] + q + y;
      ReplaceMatch(s, p, o);
      ReplaceMatch(x, p, o);
      ReplaceAroundToken(x[|p|..], q, y, p, o);
    } else {
      assert s[1..] == x[1..] + q + y;
      assert !(p <= x);
      ReplaceSkip(s, p, o);
      ReplaceSkip(x, p, o);
      ReplaceAroundToken(x[1..], q, y, p, o);
    }
  }

  // A different token survives.
  lemma TokenSurvives(s: string, q: string, p: string, o: string)
    requires Token(p) && Token(q) && p != q && Occurs(q, s)
    ensures Occurs(q, Replace(s, p, o))
  {
    var k :| OccursAt(q, s, k);
    var x, y := s[..k], s[k + |q|..];
    assert s == x + q + y;
    ReplaceAroundToken(x, q, y, p, o);
    var (x', y') := (Replace(x, p, o), Replace(y, p, o));
    assert (x' + q + y')[|x'|..|x'| + |q|] == q;
    assert OccursAt(q, x' + q + y', |x'|);
  }

  // ---- Counting opening brackets -------------------------------------------------

  function Opens(s: string): nat
  {
    if s == "" then 0 else (if s[0] == '[' then 1 else 0) + Opens(s[1..])
  }

  lemma {:induction false} OpensConcat(a: string, b: string)
    ensures Opens(a + b) == Opens(a) + Opens(b)
  {
    if a == "" {
      assert a + b == b;
    } else {
      assert (a + b)[1..] == a[1..] + b;
      OpensConcat(a[1..], b);
    }
  }

  lemma {:induction false} NoOpens(s: string)
    requires '[' !in s
    ensures Opens(s) == 0
  {
    if s != "" {
      assert s[0] in s;
      NoOpens(s[1..]);
    }
  }

  lemma TokenOpensOnce(q: string)
    requires Token(q)
    ensures Opens(q) == 1
  {
    forall c | c in q[1..] ensures c != '[' {
      var k :| 0 <= k < |q[1..]| && q[1..][k] == c;
      TokenInside(q, k + 1);
    }
    NoOpens(q[1..]);
  }

  lemma {:induction false} ReplaceCloses(s: string, p: string, o: string)
    requires Token(p) && BracketFree(o)
    ensures Opens(Replace(s, p, o)) == Opens(s) - Hits(s, p)
  {
    if |s| >= |p| {
      if s[..|p|] == p {
        assert s == p + s[|p|..];
        OpensConcat(p, s[|p|..]);
        TokenOpensOnce(p);
        ReplaceCloses(s[|p|..], p, o);
        OpensConcat(o, Replace(s[|p|..], p, o));
        NoOpens(o);
      } else {
        ReplaceCloses(s[1..], p, o);
        OpensConcat([s[0]], s[1..]);
        OpensConcat([s[0]], Replace(s[1..], p, o));
        assert s == [s[0]] + s[1..];
      }
    }
  }

  // ---- Decimal ----------------------------------------------------------------------

  function DigitChar(d: nat): (c: char)
    requires d < 10
    ensures '0' <= c <= '9'
  {
    (48 + d) as char
  }

  function Decimal(n: nat): (s: string)
    ensures |s| > 0 && forall k | 0 <= k < |s| :: '0' <= s[k] <= '9'
  {
    if n < 10 then [DigitChar(n)] else Decimal(n / 10) + [DigitChar(n % 10)]
  }

  lemma {:induction false} DecimalInjective(m: nat, n: nat)
    requires Decimal(m) == Decimal(n)
    ensures m == n
  {
    var s, t := Decimal(m), Decimal(n);
    assert s[|s| - 1] == DigitChar(m % 10) && t[|t| - 1] == DigitChar(n % 10);
    if m >= 10 {
      assert s[..|s| - 1] == Decimal(m / 10);
    }
    if n >= 10 {
      assert t[..|t| - 1] == Decimal(n / 10);
    }
    if m >= 10 && n >= 10 {
      DecimalInjective(m / 10, n / 10);
    }
  }
}
