/** When restoring a redacted text gives the text back. */
module PiiProofs {
  import opened Collections
  import opened Text
  import opened Pii

  // ---- The placeholders ----------------------------------------------------------------

  lemma NameIsToken(spans: seq<Span>, j: nat)
    requires j < |spans| && BracketFree(spans[j].entity)
    ensures Token(Name(spans, j))
  {
    var short, digits := Short(spans[j].entity), Decimal(Rank(spans, j));
    var q := Name(spans, j);
    assert q[1..|q| - 1] == short + "_" + digits;
    forall c | c in short ensures c != '[' && c != ']' {
      assert c in spans[j].entity;
    }
    forall c | c in digits ensures '0' <= c <= '9' {
      var k :| 0 <= k < |digits| && digits[k] == c;
    }
  }

  lemma LongerDiffers(a: string, m: nat, b: string, n: nat)
    requires |a| < |b|
    ensures Placeholder(a, m) != Placeholder(b, n)
  {
    var (p, q, d) := (Placeholder(a, m), Placeholder(b, n), Decimal(m));
    var k := |b| + 1;
    assert q[k] == '_';
    if k < |p| {
      assert p[k] == (d + "]")[k - |a| - 2];
    }
  }

  lemma PlaceholderInjective(a: string, m: nat, b: string, n: nat)
    requires Placeholder(a, m) == Placeholder(b, n)
    ensures a == b && m == n
  {
    if |a| < |b| {
      LongerDiffers(a, m, b, n);
    } else if |b| < |a| {
      LongerDiffers(b, n, a, m);
    } else {
      var p := Placeholder(a, m);
      assert a == p[1..|a| + 1] && b == p[1..|a| + 1];
      assert Decimal(m) == p[|a| + 2..|p| - 1] && Decimal(n) == p[|a| + 2..|p| - 1];
      DecimalInjective(m, n);
    }
  }

  // A masked result reads "[KIND_n]": its kind without "ID_", numbered from the right among those of its kind.
  lemma NamesAreNumbered(spans: seq<Span>, j: nat)
    requires j < |spans|
    ensures var kind := (s: Span) => if "ID_" <= s.entity then s.entity[3..] else s.entity;
            var after := Places(|spans|, (k: nat) => j < k < |spans| && kind(spans[k]) == kind(spans[j]));
            Names(spans)[j] == "[" + kind(spans[j]) + "_" + Decimal(1 + |after|) + "]"
  {
    hide Decimal, Places, Later;
    var kind := (s: Span) => if "ID_" <= s.entity then s.entity[3..] else s.entity;
    var same := (k: nat) => k < |spans| && Short(spans[k].entity) == Short(spans[j].entity);
    LaterAre(spans, j + 1, Short(spans[j].entity), same);
    SamePlaces(|spans|, (k: nat) => j + 1 <= k && same(k), (k: nat) => j < k < |spans| && kind(spans[k]) == kind(spans[j]));
  }

  lemma {:induction false} LaterAre(spans: seq<Span>, j: nat, short: string, same: nat -> bool)
    requires j <= |spans| && forall k: nat | k < |spans| :: same(k) <==> Short(spans[k].entity) == short
    ensures Later(spans, j, short) == |Places(|spans|, (k: nat) => j <= k && same(k))|
    decreases |spans| - j
  {
    hide Places;
    if j == |spans| {
      NoPlacesFrom(|spans|, same);
    } else {
      LaterAre(spans, j + 1, short, same);
      PlacesFrom(|spans|, j, same);
    }
  }

  lemma {:induction false} LaterFalls(spans: seq<Span>, i: nat, j: nat, short: string)
    requires i < j <= |spans|
    ensures Later(spans, i, short) >= Later(spans, j, short)
    ensures Short(spans[i].entity) == short ==> Later(spans, i, short) > Later(spans, j, short)
    decreases j - i
  {
    if i + 1 < j {
      LaterFalls(spans, i + 1, j, short);
    }
  }

  lemma NamesDiffer(spans: seq<Span>, i: nat, j: nat)
    requires i < j < |spans|
    ensures Name(spans, i) != Name(spans, j)
  {
    if Name(spans, i) == Name(spans, j) {
      var short := Short(spans[j].entity);
      PlaceholderInjective(Short(spans[i].entity), Rank(spans, i), short, Rank(spans, j));
      LaterFalls(spans, j, j + 1, short);
      if i + 1 < j {
        LaterFalls(spans, i + 1, j, short);
      }
    }
  }

  predicate Tokens(names: seq<string>)
  {
    && (forall j | 0 <= j < |names| :: Token(names[j]))
    && (forall i, j | 0 <= i < j < |names| :: names[i] != names[j])
  }

  lemma NamesAreTokens(text: string, spans: seq<Span>)
    requires AllInText(text, spans)
    ensures Tokens(Names(spans))
  {
    var names := Names(spans);
    forall j | 0 <= j < |names| ensures Token(names[j]) {
      assert InText(text, spans[j]);
      NameIsToken(spans, j);
    }
    forall i, j | 0 <= i < j < |names| ensures names[i] != names[j] {
      NamesDiffer(spans, i, j);
    }
  }

  // ---- Occurrences in a masked text -------------------------------------------------------

  function NameHits(names: seq<string>, p: string): nat
  {
    if names == [] then 0 else (if names[0] == p then 1 else 0) + NameHits(names[1..], p)
  }

  // Hits in the text left between the spans.
  function GapHits(text: string, spans: seq<Span>, from: nat, p: string): nat
    requires p != "" && from <= |text| && Laid(spans, from) && AllInText(text, spans)
    decreases |spans|
  {
    if spans == [] then Hits(text[from..], p)
    else
      RestLaid(text, spans, from);
      Hits(text[from..spans[0].start], p) + GapHits(text, spans[1..], spans[0].end, p)
  }

  lemma {:induction false} MaskedHits(text: string, spans: seq<Span>, names: seq<string>, from: nat, p: string)
    requires from <= |text| && |names| == |spans| && Laid(spans, from) && AllInText(text, spans)
    requires Token(p) && Tokens(names)
    ensures Hits(Masked(text, spans, names, from), p) == GapHits(text, spans, from, p) + NameHits(names, p)
    decreases |spans|
  {
    hide Hits;
    if spans != [] {
      RestLaid(text, spans, from);
      MaskedHits(text, spans[1..], names[1..], spans[0].end, p);
      ReplaceAroundToken(text[from..spans[0].start], names[0], Masked(text, spans[1..], names[1..], spans[0].end), p, "");
    }
  }

  // Every occurrence of p in the text runs into one of the spans.
  ghost predicate Covered(text: string, spans: seq<Span>, p: string)
  {
    forall k :: OccursAt(p, text, k) ==> Touched(spans, k, k + |p|)
  }

  predicate Touched(spans: seq<Span>, start: int, end: int)
  {
    exists i | 0 <= i < |spans| :: spans[i].start < end && start < spans[i].end
  }

  ghost predicate CoveredFrom(text: string, spans: seq<Span>, from: nat, p: string)
  {
    forall k | k >= from :: OccursAt(p, text, k) ==> Touched(spans, k, k + |p|)
  }

  lemma SliceOfSlice(text: string, a: nat, b: nat, i: nat, j: nat)
    requires a <= b <= |text| && i <= j <= b - a
    ensures text[a..b][i..j] == text[a + i..a + j]
  {
    var (l, r) := (text[a..b][i..j], text[a + i..a + j]);
    forall k | 0 <= k < j - i ensures l[k] == r[k] {
      assert l[k] == text[a..b][i + k];
    }
  }

  lemma OccursInSlice(text: string, a: nat, b: nat, p: string)
    requires a <= b <= |text|
    ensures Occurs(p, text[a..b]) <==> exists k :: a <= k <= b - |p| && OccursAt(p, text, k)
  {
    var s := text[a..b];
    if Occurs(p, s) {
      var k :| OccursAt(p, s, k);
      SliceOfSlice(text, a, b, k, k + |p|);
      assert OccursAt(p, text, a + k);
    }
    if k :| a <= k <= b - |p| && OccursAt(p, text, k) {
      SliceOfSlice(text, a, b, k - a, k - a + |p|);
      assert OccursAt(p, s, k - a);
    }
  }

  lemma {:induction false} NoGapHitsIffCovered(text: string, spans: seq<Span>, from: nat, p: string)
    requires p != "" && from <= |text| && Laid(spans, from) && AllInText(text, spans)
    ensures GapHits(text, spans, from, p) == 0 <==> CoveredFrom(text, spans, from, p)
    decreases |spans|
  {
    if spans == [] {
      HitsIffOccurs(text[from..], p);
      OccursInSlice(text, from, |text|, p);
      assert text[from..|text|] == text[from..];
    } else {
      RestLaid(text, spans, from);
      var s := spans[0];
      HitsIffOccurs(text[from..s.start], p);
      OccursInSlice(text, from, s.start, p);
      NoGapHitsIffCovered(text, spans[1..], s.end, p);
      CoveredSplits(text, spans, from, p);
    }
  }

  lemma CoveredSplits(text: string, spans: seq<Span>, from: nat, p: string)
    requires p != "" && spans != [] && from <= |text| && Laid(spans, from) && AllInText(text, spans)
    ensures CoveredFrom(text, spans, from, p) <==>
            !(exists k :: from <= k <= spans[0].start - |p| && OccursAt(p, text, k)) && CoveredFrom(text, spans[1..], spans[0].end, p)
  {
    var s := spans[0];
    if CoveredFrom(text, spans, from, p) {
      forall k | k >= s.end && OccursAt(p, text, k) ensures Touched(spans[1..], k, k + |p|) {
        var i :| 0 <= i < |spans| && spans[i].start < k + |p| && k < spans[i].end;
        assert spans[1..][i - 1] == spans[i];
      }
      forall k | from <= k <= s.start - |p| ensures !OccursAt(p, text, k) {
        assert !Touched(spans, k, k + |p|);
      }
    }
    if !(exists k :: from <= k <= s.start - |p| && OccursAt(p, text, k)) && CoveredFrom(text, spans[1..], s.end, p) {
      forall k | k >= from && OccursAt(p, text, k) ensures Touched(spans, k, k + |p|) {
        if k >= s.end {
          var i :| 0 <= i < |spans[1..]| && spans[1..][i].start < k + |p| && k < spans[1..][i].end;
          assert spans[i + 1] == spans[1..][i];
        } else {
          assert spans[0].start < k + |p| && k < spans[0].end;
        }
      }
    }
  }

  // ---- Restoring -----------------------------------------------------------------------------

  lemma LastHit(names: seq<string>, n: nat)
    requires Tokens(names) && |names| == n + 1
    ensures Tokens(names[..n]) && NameHits(names, names[n]) == 1
  {
    OneHit(names, n);
  }

  lemma {:induction false} OneHit(names: seq<string>, i: nat)
    requires Tokens(names) && i < |names|
    ensures NameHits(names, names[i]) == 1
  {
    if i == 0 {
      NoHit(names[1..], names[0]);
    } else {
      assert names[1..][i - 1] == names[i];
      OneHit(names[1..], i - 1);
    }
  }

  lemma {:induction false} NoHit(names: seq<string>, p: string)
    requires p !in names
    ensures NameHits(names, p) == 0
  {
    if names != [] {
      assert names[0] in names;
      NoHit(names[1..], p);
    }
  }

  // Replacing the last name, when nothing else matches it, puts the last span's text back and leaves the rest masked.
  lemma {:induction false} RestoreLast(text: string, spans: seq<Span>, names: seq<string>, from: nat)
    requires spans != [] && from <= |text| && |names| == |spans| && Laid(spans, from) && AllInText(text, spans) && Tokens(names)
    requires GapHits(text, spans, from, names[|names| - 1]) == 0
    ensures var n := |spans| - 1;
            && InText(text, spans[n])
            && Replace(Masked(text, spans, names, from), names[n], text[spans[n].start..spans[n].end])
               == Masked(text, spans[..n], names[..n], from)
    decreases |spans|
  {
    hide Replace, Hits, Token, OccursAt;
    var n := |spans| - 1;
    TokenIsSome(names[n]);
    if n == 0 {
      RestoreOnly(text, spans[0], names, from);
      assert spans == [spans[0]];
    } else {
      RestLaid(text, spans, from);
      RestoreLast(text, spans[1..], names[1..], spans[0].end);
      assert spans[1..][..n - 1] == spans[..n][1..];
      assert names[1..][..n - 1] == names[..n][1..];
      RestLaid(text, spans[..n], from);
      var (s, p) := (spans[0], names[n]);
      ReplaceAroundToken(text[from..s.start], names[0], Masked(text, spans[1..], names[1..], s.end), p, text[spans[n].start..spans[n].end]);
      ReplaceNothing(text[from..s.start], p, text[spans[n].start..spans[n].end]);
    }
  }

  lemma TokenIsSome(q: string)
    requires Token(q)
    ensures q != ""
  {}

  lemma RestoreOnly(text: string, s: Span, names: seq<string>, from: nat)
    requires from <= |text| && |names| == 1 && Laid([s], from) && AllInText(text, [s]) && Tokens(names)
    requires GapHits(text, [s], from, names[0]) == 0
    ensures InText(text, s)
    ensures Replace(Masked(text, [s], names, from), names[0], text[s.start..s.end]) == Masked(text, [], [], from)
  {
    hide Replace, Hits, Token, OccursAt;
    TokenIsSome(names[0]);
    assert InText(text, [s][0]) && [s][1..] == [] && names[1..] == [];
    var o := text[s.start..s.end];
    ReplaceAroundToken(text[from..s.start], names[0], text[s.end..], names[0], o);
    ReplaceNothing(text[from..s.start], names[0], o);
    ReplaceNothing(text[s.end..], names[0], o);
    assert text[from..s.start] + o + text[s.end..] == text[from..];
  }

  // No generated placeholder occurs in the text clear of the spans still masked when it is restored.
  ghost predicate NoClash(text: string, spans: seq<Span>, names: seq<string>)
    requires |names| == |spans|
  {
    forall j | 0 <= j < |spans| :: Covered(text, spans[..j + 1], names[j])
  }

  lemma LastIsClear(text: string, spans: seq<Span>, names: seq<string>)
    requires spans != [] && |names| == |spans| && Laid(spans, 0) && AllInText(text, spans) && Tokens(names)
    ensures Covered(text, spans, names[|names| - 1]) <==> GapHits(text, spans, 0, names[|names| - 1]) == 0
  {
    var p := names[|names| - 1];
    NoGapHitsIffCovered(text, spans, 0, p);
    forall k | OccursAt(p, text, k) ensures k >= 0 {}
  }

  lemma PrefixOfPrefix(spans: seq<Span>, n: nat, j: nat)
    requires j <= n <= |spans|
    ensures spans[..n][..j] == spans[..j]
  {
  }

  lemma NoClashPrefix(text: string, spans: seq<Span>, names: seq<string>)
    requires spans != [] && |names| == |spans|
    ensures var n := |spans| - 1;
            NoClash(text, spans, names) <==> Covered(text, spans, names[n]) && NoClash(text, spans[..n], names[..n])
  {
    var n := |spans| - 1;
    assert spans[..n + 1] == spans;
    if Covered(text, spans, names[n]) && NoClash(text, spans[..n], names[..n]) {
      forall j | 0 <= j < |spans| ensures Covered(text, spans[..j + 1], names[j]) {
        if j < n { PrefixOfPrefix(spans, n, j + 1); assert Covered(text, spans[..n][..j + 1], names[..n][j]); }
      }
    }
    if NoClash(text, spans, names) {
      forall j | 0 <= j < n ensures Covered(text, spans[..n][..j + 1], names[..n][j]) {
        PrefixOfPrefix(spans, n, j + 1);
        assert Covered(text, spans[..j + 1], names[j]);
      }
    }
  }

  lemma PrefixLaid(text: string, spans: seq<Span>, n: nat)
    requires n <= |spans| && Laid(spans, 0) && AllInText(text, spans)
    ensures Laid(spans[..n], 0) && AllInText(text, spans[..n])
  {
  }

  lemma {:induction false} RoundTrip(text: string, spans: seq<Span>, names: seq<string>)
    requires |names| == |spans| && Laid(spans, 0) && AllInText(text, spans) && Tokens(names)
    requires NoClash(text, spans, names)
    ensures RestoreAll(Masked(text, spans, names, 0), Pairs(text, spans, names)) == text
    decreases |spans|
  {
    hide Replace, Hits, Covered;
    if spans != [] {
      var n := |spans| - 1;
      PrefixLaid(text, spans, n);
      LastHit(names, n);
      NoClashPrefix(text, spans, names);
      LastIsClear(text, spans, names);
      RestoreLast(text, spans, names, 0);
      RoundTrip(text, spans[..n], names[..n]);
      PairsUnfold(text, spans, names);
    }
  }

  lemma PairsUnfold(text: string, spans: seq<Span>, names: seq<string>)
    requires spans != [] && |names| == |spans| && Laid(spans, 0) && AllInText(text, spans)
    ensures var n := |spans| - 1;
            && InText(text, spans[n]) && AllInText(text, spans[..n])
            && Pairs(text, spans, names)[0] == (names[n], text[spans[n].start..spans[n].end])
            && Pairs(text, spans, names)[1..] == Pairs(text, spans[..n], names[..n])
  {
    assert InText(text, spans[|spans| - 1]);
  }

  // ---- When it does not -----------------------------------------------------------------------

  // What every recognizer matches: digits, dots, dashes and a plus sign.
  predicate PlainMatches(text: string, spans: seq<Span>)
    requires AllInText(text, spans)
  {
    forall i | 0 <= i < |spans| :: PlainMatch(text, spans[i])
  }

  predicate PlainMatch(text: string, s: Span)
  {
    InText(text, s) && BracketFree(text[s.start..s.end])
  }

  predicate PlainMapping(m: Mapping)
  {
    forall i | 0 <= i < |m| :: Token(m[i].0) && BracketFree(m[i].1)
  }

  lemma {:induction false} PairsArePlain(text: string, spans: seq<Span>, names: seq<string>)
    requires |names| == |spans| && AllInText(text, spans) && Tokens(names) && PlainMatches(text, spans)
    ensures PlainMapping(Pairs(text, spans, names))
  {
    if spans != [] {
      var n := |spans| - 1;
      assert AllInText(text, spans[..n]);
      assert PlainMatch(text, spans[n]);
      assert PlainMatches(text, spans[..n]) by {
        forall i | 0 <= i < n ensures PlainMatch(text, spans[..n][i]) { assert PlainMatch(text, spans[i]); }
      }
      PairsArePlain(text, spans[..n], names[..n]);
    }
  }

  lemma {:induction false} MaskedOpens(text: string, spans: seq<Span>, names: seq<string>, from: nat)
    requires from <= |text| && |names| == |spans| && Laid(spans, from) && AllInText(text, spans)
    requires Tokens(names) && PlainMatches(text, spans)
    ensures Opens(Masked(text, spans, names, from)) == Opens(text[from..]) + |spans|
    decreases |spans|
  {
    if spans != [] {
      var s := spans[0];
      RestLaid(text, spans, from);
      assert PlainMatch(text, s);
      assert PlainMatches(text, spans[1..]) by {
        forall i | 0 <= i < |spans[1..]| ensures PlainMatch(text, spans[1..][i]) { assert PlainMatch(text, spans[i + 1]); }
      }
      MaskedOpens(text, spans[1..], names[1..], s.end);
      var (gap, match_, tail) := (text[from..s.start], text[s.start..s.end], text[s.end..]);
      OpensOfThree(gap, names[0], Masked(text, spans[1..], names[1..], s.end));
      OpensOfThree(gap, match_, tail);
      assert gap + match_ + tail == text[from..];
      TokenOpensOnce(names[0]);
      NoOpens(match_);
    }
  }

  lemma OpensOfThree(a: string, b: string, c: string)
    ensures Opens(a + b + c) == Opens(a) + Opens(b) + Opens(c)
  {
    OpensConcat(a + b, c);
    OpensConcat(a, b);
  }

  ghost predicate AllOccur(m: Mapping, s: string)
  {
    forall i | 0 <= i < |m| :: Occurs(m[i].0, s)
  }

  predicate DistinctKeys(m: Mapping)
  {
    forall i, j | 0 <= i < j < |m| :: m[i].0 != m[j].0
  }

  // Every entry closes at least one bracket.
  lemma {:induction false} RestoreCloses(s: string, m: Mapping)
    requires PlainMapping(m) && DistinctKeys(m) && AllOccur(m, s)
    ensures Opens(RestoreAll(s, m)) <= Opens(s) - |m|
    decreases |m|
  {
    hide Replace, Hits, Opens, Occurs;
    if m != [] {
      var (p, o) := (m[0].0, m[0].1);
      HitsIffOccurs(s, p);
      ReplaceCloses(s, p, o);
      OthersSurvive(s, m);
      RestoreCloses(Replace(s, p, o), m[1..]);
    }
  }

  lemma NamesOccur(text: string, spans: seq<Span>, names: seq<string>)
    requires |names| == |spans| && Laid(spans, 0) && AllInText(text, spans) && Tokens(names)
    ensures AllOccur(Pairs(text, spans, names), Masked(text, spans, names, 0))
  {
    hide Hits, Masked, Occurs;
    var m := Pairs(text, spans, names);
    forall i | 0 <= i < |m| ensures Occurs(m[i].0, Masked(text, spans, names, 0)) {
      OneHit(names, |names| - 1 - i);
      MaskedHits(text, spans, names, 0, m[i].0);
      HitsIffOccurs(Masked(text, spans, names, 0), m[i].0);
    }
  }

  lemma OthersSurvive(s: string, m: Mapping)
    requires m != [] && PlainMapping(m) && DistinctKeys(m) && AllOccur(m, s)
    ensures AllOccur(m[1..], Replace(s, m[0].0, m[0].1))
  {
    hide Replace, Hits, Occurs;
    forall i | 0 <= i < |m[1..]| ensures Occurs(m[1..][i].0, Replace(s, m[0].0, m[0].1)) {
      assert Occurs(m[i + 1].0, s);
      TokenSurvives(s, m[i + 1].0, m[0].0, m[0].1);
    }
  }

  // An extra match costs a bracket that never comes back.
  lemma ExtraHitLosesABracket(s: string, m: Mapping)
    requires m != [] && PlainMapping(m) && DistinctKeys(m) && AllOccur(m, s) && Hits(s, m[0].0) > 1
    ensures Opens(RestoreAll(s, m)) < Opens(s) - |m|
  {
    hide Replace, Hits, Opens, Occurs;
    OthersSurvive(s, m);
    ReplaceCloses(s, m[0].0, m[0].1);
    RestoreCloses(Replace(s, m[0].0, m[0].1), m[1..]);
  }

  lemma ClashLosesABracket(text: string, spans: seq<Span>, names: seq<string>)
    requires spans != [] && |names| == |spans| && Laid(spans, 0) && AllInText(text, spans) && Tokens(names)
    requires PlainMatches(text, spans) && GapHits(text, spans, 0, names[|names| - 1]) > 0
    ensures Opens(RestoreAll(Masked(text, spans, names, 0), Pairs(text, spans, names))) < Opens(text)
  {
    hide Replace, Hits, Opens, Masked, GapHits, Token, RestoreAll, PlainMapping, AllOccur, NameHits, PlainMatches;
    PairsArePlain(text, spans, names);
    NamesOccur(text, spans, names);
    OneHit(names, |spans| - 1);
    MaskedHits(text, spans, names, 0, names[|spans| - 1]);
    MaskedOpens(text, spans, names, 0);
    assert text[0..] == text;
    ExtraHitLosesABracket(Masked(text, spans, names, 0), Pairs(text, spans, names));
  }

  lemma {:induction false} ClashBreaksRoundTrip(text: string, spans: seq<Span>, names: seq<string>)
    requires |names| == |spans| && Laid(spans, 0) && AllInText(text, spans) && Tokens(names)
    requires PlainMatches(text, spans) && !NoClash(text, spans, names)
    ensures RestoreAll(Masked(text, spans, names, 0), Pairs(text, spans, names)) != text
    decreases |spans|
  {
    hide Replace, Hits, Covered, Opens;
    var n := |spans| - 1;
    LastIsClear(text, spans, names);
    if !Covered(text, spans, names[n]) {
      ClashLosesABracket(text, spans, names);
    } else {
      PrefixLaid(text, spans, n);
      LastHit(names, n);
      NoClashPrefix(text, spans, names);
      RestoreLast(text, spans, names, 0);
      assert PlainMatches(text, spans[..n]) by {
        forall i | 0 <= i < n ensures PlainMatch(text, spans[..n][i]) { assert PlainMatch(text, spans[i]); }
      }
      ClashBreaksRoundTrip(text, spans[..n], names[..n]);
      PairsUnfold(text, spans, names);
    }
  }

  // ---- Main results ------------------------------------------------------------------------------

  function Redacted(text: string, results: seq<Span>): string
    requires AllInText(text, results)
  {
    var kept := NonOverlapping(Confident(results));
    KeptAreLaid(text, results);
    Masked(text, kept, Names(kept), 0)
  }

  function RedactionMap(text: string, results: seq<Span>): (m: Mapping)
    requires AllInText(text, results)
    ensures forall i | 0 <= i < |m| :: m[i].0 != ""
  {
    var kept := NonOverlapping(Confident(results));
    KeptAreLaid(text, results);
    Pairs(text, kept, Names(kept))
  }

  lemma KeptAreLaid(text: string, results: seq<Span>)
    requires AllInText(text, results)
    ensures var kept := NonOverlapping(Confident(results)); Laid(kept, 0) && AllInText(text, kept) && Tokens(Names(kept))
    ensures forall s <- NonOverlapping(Confident(results)) :: s in results
  {
    hide NonOverlapping, Names, Laid, Tokens, BeatenIn;
    InTextAll(text, results, Confident(results));
    KeptSpans(text, Confident(results));
    NamesAreTokens(text, NonOverlapping(Confident(results)));
  }

  // Restoring a redacted text gives the text back if no generated placeholder occurs in it.
  lemma RestoreUndoesRedact(text: string, results: seq<Span>)
    requires AllInText(text, results)
    requires forall p <- Names(NonOverlapping(Confident(results))) :: !Occurs(p, text)
    ensures RestoreAll(Redacted(text, results), RedactionMap(text, results)) == text
  {
    hide NonOverlapping, Masked, Pairs;
    var kept := NonOverlapping(Confident(results));
    KeptAreLaid(text, results);
    assert NoClash(text, kept, Names(kept)) by {
      forall j | 0 <= j < |kept| ensures Covered(text, kept[..j + 1], Names(kept)[j]) {
        assert !Occurs(Names(kept)[j], text);
      }
    }
    RoundTrip(text, kept, Names(kept));
  }

  // Exactly: when the matches hold no brackets, as all of the recognizers' do, the round trip works if and only if every
  // occurrence of a placeholder in the text runs into the span it stands for or one to the left of that.
  lemma RestoreUndoesRedactExactly(text: string, results: seq<Span>)
    requires AllInText(text, results) && PlainMatches(text, results)
    ensures var kept := NonOverlapping(Confident(results));
            RestoreAll(Redacted(text, results), RedactionMap(text, results)) == text
            <==> NoClash(text, kept, Names(kept))
  {
    hide NonOverlapping, Masked, Pairs, NoClash, RestoreAll;
    var kept := NonOverlapping(Confident(results));
    KeptAreLaid(text, results);
    assert PlainMatches(text, kept) by {
      forall i | 0 <= i < |kept| ensures PlainMatch(text, kept[i]) {
        assert kept[i] in results;
        var k :| 0 <= k < |results| && results[k] == kept[i];
        assert PlainMatch(text, results[k]);
      }
    }
    if NoClash(text, kept, Names(kept)) {
      RoundTrip(text, kept, Names(kept));
    } else {
      ClashBreaksRoundTrip(text, kept, Names(kept));
    }
  }
}
