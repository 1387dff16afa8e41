/**
 Redacting personal data out of a request and putting it back into the
 answer. What the analyzer finds is an arbitrary list of spans.
 */
module Pii {
  import opened Collections
  import opened Text

  const REDACT_SCORE_THRESHOLD: real := 0.6

  datatype Span = Span(entity: string, start: nat, end: nat, score: real)

  predicate Overlap(a: Span, b: Span)
  {
    a.start < b.end && b.start < a.end
  }

  // Every recognizer matches at least nine characters, none of them a bracket, and is named without brackets.
  predicate InText(text: string, s: Span)
  {
    s.start < s.end <= |text| && BracketFree(s.entity)
  }

  predicate AllInText(text: string, spans: seq<Span>)
  {
    forall i | 0 <= i < |spans| :: InText(text, spans[i])
  }

  // ---- Choosing the spans to redact ----------------------------------------------

  // sorted(key=score, reverse=True): highest first, and the earlier of two equals stays first.
  function ByScore(spans: seq<Span>): (r: seq<Span>)
    ensures multiset(r) == multiset(spans)
  {
    if spans == [] then []
    else
      assert spans == spans[..|spans| - 1] + [spans[|spans| - 1]];
      InsertByScore(ByScore(spans[..|spans| - 1]), spans[|spans| - 1])
  }

  function InsertByScore(sorted: seq<Span>, s: Span): (r: seq<Span>)
    ensures multiset(r) == multiset(sorted) + multiset{s}
  {
    if sorted == [] || sorted[|sorted| - 1].score >= s.score then sorted + [s]
    else
      assert sorted == sorted[..|sorted| - 1] + [sorted[|sorted| - 1]];
      InsertByScore(sorted[..|sorted| - 1], s) + [sorted[|sorted| - 1]]
  }

  predicate Falling(spans: seq<Span>)
  {
    forall i, j | 0 <= i < j < |spans| :: spans[i].score >= spans[j].score
  }

  function ByStart(spans: seq<Span>): (r: seq<Span>)
    ensures multiset(r) == multiset(spans)
  {
    if spans == [] then []
    else
      assert spans == spans[..|spans| - 1] + [spans[|spans| - 1]];
      InsertByStart(ByStart(spans[..|spans| - 1]), spans[|spans| - 1])
  }

  function InsertByStart(sorted: seq<Span>, s: Span): (r: seq<Span>)
    ensures multiset(r) == multiset(sorted) + multiset{s}
  {
    if sorted == [] || sorted[|sorted| - 1].start <= s.start then sorted + [s]
    else
      assert sorted == sorted[..|sorted| - 1] + [sorted[|sorted| - 1]];
      InsertByStart(sorted[..|sorted| - 1], s) + [sorted[|sorted| - 1]]
  }

  predicate Clashes(kept: seq<Span>, s: Span)
  {
    exists i | 0 <= i < |kept| :: Overlap(s, kept[i])
  }

  function Greedy(spans: seq<Span>): seq<Span>
  {
    if spans == [] then []
    else
      var kept, s := Greedy(spans[..|spans| - 1]), spans[|spans| - 1];
      if Clashes(kept, s) then kept else kept + [s]
  }

  function NonOverlapping(results: seq<Span>): seq<Span>
  {
    ByStart(Greedy(ByScore(results)))
  }

  function Confident(results: seq<Span>): (r: seq<Span>)
    ensures forall s :: s in r <==> s in results && s.score >= REDACT_SCORE_THRESHOLD
  {
    if results == [] then []
    else
      var rest, s := Confident(results[..|results| - 1]), results[|results| - 1];
      if s.score >= REDACT_SCORE_THRESHOLD then rest + [s] else rest
  }

  predicate Disjoint(spans: seq<Span>)
  {
    forall i, j | 0 <= i < j < |spans| :: !Overlap(spans[i], spans[j])
  }

  // In text order, one after the other.
  predicate Laid(spans: seq<Span>, from: int)
  {
    && (forall i | 0 <= i < |spans| :: from <= spans[i].start < spans[i].end)
    && (forall i, j | 0 <= i < j < |spans| :: spans[i].end <= spans[j].start)
  }

  lemma {:induction false} ByScoreFalls(spans: seq<Span>)
    ensures Falling(ByScore(spans))
  {
    if spans != [] {
      ByScoreFalls(spans[..|spans| - 1]);
      InsertFalls(ByScore(spans[..|spans| - 1]), spans[|spans| - 1]);
    }
  }

  lemma {:induction false} InsertFalls(sorted: seq<Span>, s: Span)
    requires Falling(sorted)
    ensures Falling(InsertByScore(sorted, s))
  {
    if sorted != [] && sorted[|sorted| - 1].score < s.score {
      var init, last := sorted[..|sorted| - 1], sorted[|sorted| - 1];
      InsertFalls(init, s);
      MembersFall(init, s, last);
      AppendFalls(InsertByScore(init, s), last);
    }
  }

  lemma MembersFall(init: seq<Span>, s: Span, last: Span)
    requires Falling(init + [last]) && last.score < s.score
    ensures forall x <- InsertByScore(init, s) :: x.score >= last.score
  {
    hide InsertByScore;
    SameMembers(InsertByScore(init, s), init + [s]);
    forall x | x in init ensures x.score >= last.score {
      var k :| 0 <= k < |init| && init[k] == x;
      assert (init + [last])[k] == x && (init + [last])[|init|] == last;
    }
  }

  lemma AppendFalls(spans: seq<Span>, last: Span)
    requires Falling(spans) && forall x <- spans :: x.score >= last.score
    ensures Falling(spans + [last])
  {
  }

  lemma {:induction false} GreedyKeeps(spans: seq<Span>)
    requires Falling(spans)
    ensures Disjoint(Greedy(spans))
    ensures forall s <- Greedy(spans) :: s in spans
    ensures forall s <- spans :: s in Greedy(spans) || BeatenIn(Greedy(spans), s)
  {
    if spans != [] {
      var init, s := spans[..|spans| - 1], spans[|spans| - 1];
      GreedyKeeps(init);
      var kept := Greedy(init);
      if Clashes(kept, s) {
        var i :| 0 <= i < |kept| && Overlap(s, kept[i]);
        assert kept[i] in init;
        assert BeatenIn(kept, s);
      } else {
        forall x | x in init && BeatenIn(kept, x) ensures BeatenIn(kept + [s], x) {
          var i :| 0 <= i < |kept| && Overlap(x, kept[i]) && kept[i].score >= x.score;
          assert (kept + [s])[i] == kept[i];
        }
      }
    }
  }

  // Something kept overlaps it and scores at least as high.
  ghost predicate BeatenIn(kept: seq<Span>, s: Span)
  {
    exists i :: 0 <= i < |kept| && Overlap(s, kept[i]) && kept[i].score >= s.score
  }

  lemma {:induction false} ByStartLays(spans: seq<Span>)
    requires Disjoint(spans) && forall s <- spans :: s.start < s.end
    ensures Laid(ByStart(spans), 0)
  {
    if spans != [] {
      var init, s := spans[..|spans| - 1], spans[|spans| - 1];
      ByStartLays(init);
      forall x | x in ByStart(init) ensures !Overlap(x, s) && x.start < x.end {
        assert x in multiset(ByStart(init));
        var i :| 0 <= i < |init| && init[i] == x;
        assert spans[i] == x;
      }
      assert s in spans;
      InsertLays(ByStart(init), s);
    }
  }

  lemma {:induction false} InsertLays(sorted: seq<Span>, s: Span)
    requires Laid(sorted, 0) && s.start < s.end && forall x <- sorted :: !Overlap(x, s)
    ensures Laid(InsertByStart(sorted, s), 0)
  {
    hide Laid;
    if sorted == [] || sorted[|sorted| - 1].start <= s.start {
      EndsBefore(sorted, s);
      LaidAppend(sorted, s);
    } else {
      var init, last := sorted[..|sorted| - 1], sorted[|sorted| - 1];
      assert sorted == init + [last] && last in sorted;
      forall x | x in init ensures x in sorted {}
      LaidInit(init, last);
      InsertLays(init, s);
      SameMembers(InsertByStart(init, s), init + [s]);
      LaidAppend(InsertByStart(init, s), last);
    }
  }

  lemma EndsBefore(sorted: seq<Span>, s: Span)
    requires Laid(sorted, 0) && s.start < s.end && (forall x <- sorted :: !Overlap(x, s))
    requires sorted != [] ==> sorted[|sorted| - 1].start <= s.start
    ensures forall x <- sorted :: x.end <= s.start
  {
    if sorted != [] {
      assert sorted[|sorted| - 1] in sorted;
    }
  }

  lemma LaidAppend(spans: seq<Span>, s: Span)
    requires Laid(spans, 0) && s.start < s.end && forall x <- spans :: x.end <= s.start
    ensures Laid(spans + [s], 0)
  {
    forall i | 0 <= i < |spans| ensures spans[i].end <= s.start { assert spans[i] in spans; }
  }

  lemma LaidInit(init: seq<Span>, last: Span)
    requires Laid(init + [last], 0)
    ensures Laid(init, 0) && last.start < last.end && forall x <- init :: x.end <= last.start
  {
    var all := init + [last];
    assert all[|init|] == last;
    forall i | 0 <= i < |init| ensures all[i] == init[i] && init[i].end <= last.start {}
    assert Laid(init, 0);
  }

  lemma BeatenInSame(a: seq<Span>, b: seq<Span>, s: Span)
    requires (forall x :: x in a <==> x in b) && BeatenIn(a, s)
    ensures BeatenIn(b, s)
  {
    var i :| 0 <= i < |a| && Overlap(s, a[i]) && a[i].score >= s.score;
    assert a[i] in b;
    var j :| 0 <= j < |b| && b[j] == a[i];
  }

  // The spans kept are disjoint and in text order; all come from the results, and each one left out overlaps a
  // kept one of at least its score.
  lemma KeptSpans(text: string, results: seq<Span>)
    requires AllInText(text, results)
    ensures var kept := NonOverlapping(results);
            && Laid(kept, 0) && AllInText(text, kept)
            && (forall s <- kept :: s in results)
            && (forall s <- results :: s in kept || BeatenIn(kept, s))
  {
    hide ByScore, Greedy, ByStart, Falling, Disjoint, Laid, BeatenIn, InText;
    var sorted := ByScore(results);
    var chosen := Greedy(sorted);
    var kept := ByStart(chosen);
    SameMembers(sorted, results);
    SameMembers(kept, chosen);
    ByScoreFalls(results);
    GreedyKeeps(sorted);
    InTextAll(text, results, kept);
    InTextAll(text, results, chosen);
    NonEmptyAll(text, chosen);
    ByStartLays(chosen);
    forall s | s in results && s !in kept ensures BeatenIn(kept, s) {
      BeatenInSame(chosen, kept, s);
    }
  }

  // ---- Who wins an overlap ---------------------------------------------------------------

  function First(spans: seq<Span>, s: Span): (k: nat)
    requires s in spans
    ensures k < |spans| && spans[k] == s && s !in spans[..k]
  {
    if spans[0] == s then 0
    else
      assert spans == [spans[0]] + spans[1..];
      var k := First(spans[1..], s);
      assert spans[..k + 1] == [spans[0]] + spans[1..][..k];
      k + 1
  }

  lemma FirstOneMore(spans: seq<Span>, x: Span, s: Span)
    requires s in spans
    ensures First(spans + [x], s) == First(spans, s)
  {
    var (j, k) := (First(spans + [x], s), First(spans, s));
    assert (spans + [x])[..k] == spans[..k];
    forall i | 0 <= i < k ensures spans[i] != s { assert spans[..k][i] == spans[i]; }
    forall i | 0 <= i < j ensures (spans + [x])[i] != s { assert (spans + [x])[..j][i] == (spans + [x])[i]; }
    assert (spans + [x])[k] == spans[k] == s;
    assert j <= k;
    assert (spans + [x])[j] == spans[j];
  }

  lemma FirstOfLast(spans: seq<Span>, x: Span)
    requires x !in spans
    ensures First(spans + [x], x) == |spans|
  {
    var j := First(spans + [x], x);
    forall i | 0 <= i < |spans| ensures spans[i] != x {}
    forall i | 0 <= i < j ensures (spans + [x])[i] != x { assert (spans + [x])[..j][i] == (spans + [x])[i]; }
  }

  // It scores higher, or the same and was reported earlier.
  predicate Outranks(results: seq<Span>, a: Span, b: Span)
    requires a in results && b in results
  {
    a.score > b.score || (a.score == b.score && First(results, a) < First(results, b))
  }

  // Wherever a span first stands in `sorted`, all others before it outrank it.
  predicate Ranked(sorted: seq<Span>, results: seq<Span>)
    requires forall s <- sorted :: s in results
  {
    forall p, q | 0 <= p < q < |sorted| && sorted[q] !in sorted[..q] :: Outranks(results, sorted[p], sorted[q])
  }

  lemma InsertIs(sorted: seq<Span>, x: Span) returns (k: nat)
    ensures k <= |sorted| && InsertByScore(sorted, x) == sorted[..k] + [x] + sorted[k..]
    ensures (k > 0 ==> sorted[k - 1].score >= x.score) && forall i | k <= i < |sorted| :: sorted[i].score < x.score
  {
    hide InsertByScore;
    var front, back := InsertSplits(sorted, x);
    k := |front|;
    assert sorted[..k] == front;
    assert sorted[k..] == back;
  }

  lemma {:induction false} InsertSplits(sorted: seq<Span>, x: Span) returns (front: seq<Span>, back: seq<Span>)
    ensures sorted == front + back && InsertByScore(sorted, x) == front + [x] + back
    ensures (front != [] ==> front[|front| - 1].score >= x.score) && forall i | 0 <= i < |back| :: back[i].score < x.score
  {
    hide InsertByScore;
    InsertUnfolds(sorted, x);
    if sorted == [] || sorted[|sorted| - 1].score >= x.score {
      front, back := sorted, [];
      assert sorted + [] == sorted;
      assert (sorted + [x]) + [] == sorted + [x];
    } else {
      var init, last := sorted[..|sorted| - 1], sorted[|sorted| - 1];
      var back';
      front, back' := InsertSplits(init, x);
      back := back' + [last];
      assert sorted == init + [last];
      LastRegroups(front, back', last);
      LastRegroups(front + [x], back', last);
    }
  }

  lemma LastRegroups(front: seq<Span>, back: seq<Span>, last: Span)
    ensures (front + back) + [last] == front + (back + [last])
  {}

  lemma InsertUnfolds(sorted: seq<Span>, x: Span)
    ensures InsertByScore(sorted, x) ==
            if sorted == [] || sorted[|sorted| - 1].score >= x.score then sorted + [x]
            else InsertByScore(sorted[..|sorted| - 1], x) + [sorted[|sorted| - 1]]
  {}

  lemma AtLeast(sorted: seq<Span>, k: nat, score: real)
    requires Falling(sorted) && k <= |sorted| && (k > 0 ==> sorted[k - 1].score >= score)
    ensures forall i | 0 <= i < k :: sorted[i].score >= score
  {}

  lemma {:induction false} ByScoreRanks(results: seq<Span>)
    ensures forall s <- ByScore(results) :: s in results
    ensures Ranked(ByScore(results), results)
  {
    hide InsertByScore, Outranks, First;
    SameMembers(ByScore(results), results);
    if results != [] {
      var init, x := results[..|results| - 1], results[|results| - 1];
      assert results == init + [x];
      var before := ByScore(init);
      ByScoreRanks(init);
      ByScoreFalls(init);
      SameMembers(before, init);
      var k := InsertIs(before, x);
      AtLeast(before, k, x.score);
      var after := before[..k] + [x] + before[k..];
      assert ByScore(results) == after;
      forall p, q | 0 <= p < q < |after| && after[q] !in after[..q] ensures Outranks(results, after[p], after[q]) {
        InsertedOutranks(init, before, x, k, p, q);
      }
    }
  }

  lemma InsertedOutranks(init: seq<Span>, before: seq<Span>, x: Span, k: nat, p: nat, q: nat)
    requires (forall s :: s in before <==> s in init) && Ranked(before, init) && k <= |before|
    requires (forall i | 0 <= i < k :: before[i].score >= x.score) && forall i | k <= i < |before| :: before[i].score < x.score
    requires var after := before[..k] + [x] + before[k..]; p < q < |after| && after[q] !in after[..q]
    ensures var after := before[..k] + [x] + before[k..];
            after[p] in init + [x] && after[q] in init + [x] && Outranks(init + [x], after[p], after[q])
  {
    hide First;
    var after := before[..k] + [x] + before[k..];
    var (u, v) := (after[p], after[q]);
    if q == k {
      forall i | 0 <= i < |before| ensures before[i] != x {
        if i < k { assert after[..q][i] == before[i]; }
      }
      FirstOfLast(init, x);
      FirstOneMore(init, x, u);
    } else if p != k {
      var (p', q') := (if p < k then p else p - 1, if q < k then q else q - 1);
      assert before[p'] == u && before[q'] == v;
      StandsFirst(before, x, k, q, q');
      FirstOneMore(init, x, u);
      FirstOneMore(init, x, v);
    } else {
      assert v == before[q - 1] && v in before;
    }
  }

  lemma StandsFirst(before: seq<Span>, x: Span, k: nat, q: nat, q': nat)
    requires k <= |before| && q != k && q' == (if q < k then q else q - 1) && q' < |before|
    requires var after := before[..k] + [x] + before[k..]; q < |after| && after[q] !in after[..q]
    ensures before[q'] !in before[..q']
  {
    var after := before[..k] + [x] + before[k..];
    forall i | 0 <= i < q' ensures before[i] != before[q'] {
      var j := if i < k then i else i + 1;
      assert after[j] == before[i] && after[..q][j] == after[j];
    }
  }

  // Something kept stands before it in the list.
  ghost predicate LostTo(spans: seq<Span>, kept: seq<Span>, s: Span)
  {
    exists p, q :: LostAt(spans, kept, s, p, q)
  }

  predicate LostAt(spans: seq<Span>, kept: seq<Span>, s: Span, p: int, q: int)
  {
    0 <= p < q < |spans| && spans[q] == s && s !in spans[..q] && spans[p] in kept && Overlap(s, spans[p])
  }

  lemma {:induction false} GreedyDrops(spans: seq<Span>)
    requires forall s <- spans :: s.start < s.end
    ensures forall s <- Greedy(spans) :: s in spans
    ensures forall s <- spans :: s in Greedy(spans) || LostTo(spans, Greedy(spans), s)
  {
    if spans != [] {
      var init, x := spans[..|spans| - 1], spans[|spans| - 1];
      assert spans == init + [x];
      GreedyDrops(init);
      var (kept, kept') := (Greedy(init), Greedy(spans));
      forall s | s in spans ensures s in kept' || LostTo(spans, kept', s) {
        if s in init {
          if s !in kept {
            var p, q :| LostAt(init, kept, s, p, q);
            assert spans[..q] == init[..q];
            assert LostAt(spans, kept', s, p, q);
          }
        } else if Clashes(kept, x) {
          var i :| 0 <= i < |kept| && Overlap(x, kept[i]);
          assert kept[i] in init;
          var p :| 0 <= p < |init| && init[p] == kept[i];
          assert spans[..|init|] == init;
          assert LostAt(spans, kept', x, p, |init|);
        }
      }
    }
  }

  ghost predicate Outranked(results: seq<Span>, kept: seq<Span>, s: Span)
    requires s in results && forall k <- kept :: k in results
  {
    exists k :: k in kept && Share(s, k) && Outranks(results, k, s)
  }

  // Some character is in both.
  ghost predicate Share(a: Span, b: Span)
  {
    exists c: int :: In(a, c) && In(b, c)
  }

  predicate In(s: Span, c: int)
  {
    s.start <= c < s.end
  }

  lemma ShareIsOverlap(a: Span, b: Span)
    requires a.start < a.end && b.start < b.end
    ensures Share(a, b) <==> Overlap(a, b)
  {
    if Overlap(a, b) {
      var c := if a.start < b.start then b.start else a.start;
      assert In(a, c) && In(b, c);
    }
  }

  // Exactly which results are kept: those that share no character with a kept one that scores higher, or as high
  // and was reported earlier.
  lemma KeptExactly(text: string, results: seq<Span>)
    requires AllInText(text, results)
    ensures forall k <- NonOverlapping(results) :: k in results
    ensures forall s <- results :: s in NonOverlapping(results) <==> !Outranked(results, NonOverlapping(results), s)
  {
    hide ByScore, Greedy, ByStart, Falling, Outranks, InText, Share, Overlap, Disjoint;
    NonEmptyAll(text, results);
    forall a, b | a in results && b in results ensures Share(a, b) <==> Overlap(a, b) {
      ShareIsOverlap(a, b);
    }
    var sorted := ByScore(results);
    var chosen := Greedy(sorted);
    var kept := ByStart(chosen);
    SameMembers(sorted, results);
    SameMembers(kept, chosen);
    ByScoreRanks(results);
    ByScoreFalls(results);
    InTextAll(text, results, sorted);
    NonEmptyAll(text, sorted);
    GreedyDrops(sorted);
    GreedyKeeps(sorted);
    forall s | s in results && s !in kept ensures Outranked(results, kept, s) {
      var p, q :| LostAt(sorted, chosen, s, p, q);
      assert Outranks(results, sorted[p], sorted[q]);
    }
    OnlyThemselves(chosen);
    forall s | s in kept ensures !Outranked(results, kept, s) {
      NotOverItself(results, s);
    }
  }

  lemma OnlyThemselves(chosen: seq<Span>)
    requires Disjoint(chosen)
    ensures forall s, k | s in chosen && k in chosen && Overlap(s, k) :: s == k
  {
    forall i, j | 0 <= i < |chosen| && 0 <= j < |chosen| && i != j
      ensures !Overlap(chosen[i], chosen[j])
    {
      if i < j {
        assert !Overlap(chosen[i], chosen[j]);
      } else {
        assert !Overlap(chosen[j], chosen[i]);
      }
    }
  }

  lemma NotOverItself(results: seq<Span>, s: Span)
    requires s in results
    ensures !Outranks(results, s, s)
  {}

  lemma InTextAll(text: string, from: seq<Span>, spans: seq<Span>)
    requires AllInText(text, from) && forall s <- spans :: s in from
    ensures AllInText(text, spans)
  {
    forall i | 0 <= i < |spans| ensures InText(text, spans[i]) {
      assert spans[i] in from;
    }
  }

  lemma NonEmptyAll(text: string, spans: seq<Span>)
    requires AllInText(text, spans)
    ensures forall s <- spans :: s.start < s.end
  {
    forall s | s in spans ensures s.start < s.end {
      var i :| 0 <= i < |spans| && spans[i] == s;
      assert InText(text, spans[i]);
    }
  }

  // ---- Redaction ---------------------------------------------------------------------

  function Short(entity: string): string
  {
    if "ID_" <= entity then entity[3..] else entity
  }

  function Placeholder(short: string, n: nat): string
  {
    "[" + short + "_" + Decimal(n) + "]"
  }

  // Spans are numbered from the right: one more than the later spans of the same short name.
  function Rank(spans: seq<Span>, j: nat): (r: nat)
    requires j < |spans|
  {
    1 + Later(spans, j + 1, Short(spans[j].entity))
  }

  function Later(spans: seq<Span>, j: nat, short: string): nat
    requires j <= |spans|
    decreases |spans| - j
  {
    if j == |spans| then 0 else (if Short(spans[j].entity) == short then 1 else 0) + Later(spans, j + 1, short)
  }

  function Name(spans: seq<Span>, j: nat): string
    requires j < |spans|
  {
    Placeholder(Short(spans[j].entity), Rank(spans, j))
  }

  function Names(spans: seq<Span>): (r: seq<string>)
    ensures |r| == |spans| && forall j | 0 <= j < |r| :: r[j] == Name(spans, j)
  {
    seq(|spans|, j requires 0 <= j < |spans| => Name(spans, j))
  }

  // The text from `from` on, each span replaced by its name.
  function Masked(text: string, spans: seq<Span>, names: seq<string>, from: nat): string
    requires from <= |text| && |names| == |spans| && Laid(spans, from) && AllInText(text, spans)
    decreases |spans|
  {
    if spans == [] then text[from..]
    else
      RestLaid(text, spans, from);
      text[from..spans[0].start] + names[0] + Masked(text, spans[1..], names[1..], spans[0].end)
  }

  lemma RestLaid(text: string, spans: seq<Span>, from: nat)
    requires spans != [] && Laid(spans, from) && AllInText(text, spans)
    ensures Laid(spans[1..], spans[0].end) && AllInText(text, spans[1..]) && InText(text, spans[0])
  {
  }

  // A dictionary in insertion order; assigning to a key it has keeps the key's place.
  type Mapping = seq<(string, string)>

  predicate Has(m: Mapping, key: string)
  {
    exists i | 0 <= i < |m| :: m[i].0 == key
  }

  function Put(m: Mapping, key: string, value: string): Mapping
  {
    if m == [] then [(key, value)]
    else if m[0].0 == key then [(key, value)] + m[1..]
    else [m[0]] + Put(m[1..], key, value)
  }

  lemma {:induction false} PutFresh(m: Mapping, key: string, value: string)
    requires !Has(m, key)
    ensures Put(m, key, value) == m + [(key, value)]
  {
    if m != [] {
      assert m[0].0 != key;
      forall i | 0 <= i < |m[1..]| ensures m[1..][i].0 != key { assert m[i + 1].0 != key; }
      PutFresh(m[1..], key, value);
    }
  }

  // Each name with what it stands for, rightmost first.
  function Pairs(text: string, spans: seq<Span>, names: seq<string>): (m: Mapping)
    requires |names| == |spans| && AllInText(text, spans)
    ensures |m| == |names| && forall i | 0 <= i < |m| :: m[i].0 == names[|names| - 1 - i]
  {
    if spans == [] then []
    else
      var n := |spans| - 1;
      assert InText(text, spans[n]);
      [(names[n], text[spans[n].start..spans[n].end])] + Pairs(text, spans[..n], names[..n])
  }

  function RestoreAll(text: string, mapping: Mapping): string
    requires forall i | 0 <= i < |mapping| :: mapping[i].0 != ""
    decreases |mapping|
  {
    if mapping == [] then text
    else RestoreAll(Replace(text, mapping[0].0, mapping[0].1), mapping[1..])
  }
}
