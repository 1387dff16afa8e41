/** Which characters of a text its redaction still shows. */
module PiiCoverage {
  import opened Pii
  import opened PiiProofs
  import opened Text
  import opened Wrappers

  predicate Within(s: Span, p: int)
  {
    s.start <= p < s.end
  }

  predicate InsideOne(spans: seq<Span>, p: int)
  {
    exists i | 0 <= i < |spans| :: Within(spans[i], p)
  }

  // For each character of the masked text, the place in the text it was copied from; none for a placeholder's.
  function Sources(text: string, spans: seq<Span>, names: seq<string>, from: nat): seq<Option<nat>>
    requires from <= |text| && |names| == |spans| && Laid(spans, from) && AllInText(text, spans)
    decreases |spans|
  {
    if spans == [] then Copied(from, |text|)
    else
      RestLaid(text, spans, from);
      Copied(from, spans[0].start) + Made(|names[0]|) + Sources(text, spans[1..], names[1..], spans[0].end)
  }

  function Copied(from: nat, to: nat): (r: seq<Option<nat>>)
    requires from <= to
    ensures |r| == to - from && forall k | 0 <= k < |r| :: r[k] == Some(from + k)
  {
    seq(to - from, (k: nat) => Some(from + k))
  }

  function Made(n: nat): (r: seq<Option<nat>>)
    ensures |r| == n && forall k | 0 <= k < n :: r[k] == None
  {
    seq(n, (k: nat) => None)
  }

  predicate Shows(masked: string, sources: seq<Option<nat>>, text: string)
  {
    |sources| == |masked| && forall k | 0 <= k < |sources| :: ShowsAt(masked, sources, text, k)
  }

  predicate ShowsAt(masked: string, sources: seq<Option<nat>>, text: string, k: nat)
    requires k < |sources| == |masked|
  {
    sources[k].Some? ==> sources[k].value < |text| && masked[k] == text[sources[k].value]
  }

  lemma ShowsBoth(a: string, a': seq<Option<nat>>, b: string, b': seq<Option<nat>>, text: string)
    requires Shows(a, a', text) && Shows(b, b', text)
    ensures Shows(a + b, a' + b', text)
  {
    forall k | 0 <= k < |a' + b'| ensures ShowsAt(a + b, a' + b', text, k) {
      if k < |a'| {
        assert ShowsAt(a, a', text, k);
      } else {
        assert ShowsAt(b, b', text, k - |a'|);
      }
    }
  }

  // The sources do describe the masked text.
  lemma {:induction false} SourcesShow(text: string, spans: seq<Span>, names: seq<string>, from: nat)
    requires from <= |text| && |names| == |spans| && Laid(spans, from) && AllInText(text, spans)
    ensures Shows(Masked(text, spans, names, from), Sources(text, spans, names, from), text)
    decreases |spans|
  {
    hide Shows, Laid, AllInText;
    if spans == [] {
      CopiedShows(text, from, |text|);
      assert text[from..] == text[from..|text|];
    } else {
      Ahead(text, spans, from);
      RestLaid(text, spans, from);
      SourcesShow(text, spans[1..], names[1..], spans[0].end);
      CopiedShows(text, from, spans[0].start);
      MadeShows(text, names[0]);
      ShowsBoth(text[from..spans[0].start], Copied(from, spans[0].start), names[0], Made(|names[0]|), text);
      ShowsBoth(text[from..spans[0].start] + names[0], Copied(from, spans[0].start) + Made(|names[0]|),
                Masked(text, spans[1..], names[1..], spans[0].end),
                Sources(text, spans[1..], names[1..], spans[0].end), text);
    }
  }

  lemma Ahead(text: string, spans: seq<Span>, from: nat)
    requires spans != [] && Laid(spans, from) && AllInText(text, spans)
    ensures from <= spans[0].start < spans[0].end <= |text|
  {
    assert InText(text, spans[0]);
  }

  lemma CopiedShows(text: string, from: nat, to: nat)
    requires from <= to <= |text|
    ensures Shows(text[from..to], Copied(from, to), text)
  {}

  lemma MadeShows(text: string, name: string)
    ensures Shows(name, Made(|name|), text)
  {}

  // And they name every place outside the spans, and none inside.
  lemma {:induction false} ShownExactly(text: string, spans: seq<Span>, names: seq<string>, from: nat, p: nat)
    requires from <= |text| && |names| == |spans| && Laid(spans, from) && AllInText(text, spans)
    ensures Some(p) in Sources(text, spans, names, from) <==> from <= p < |text| && !InsideOne(spans, p)
    decreases |spans|
  {
    hide Laid, AllInText, InsideOne;
    if spans == [] {
      NoneInside(p);
      CopiedHolds(from, |text|, p);
    } else {
      Ahead(text, spans, from);
      RestLaid(text, spans, from);
      ShownExactly(text, spans[1..], names[1..], spans[0].end, p);
      CopiedHolds(from, spans[0].start, p);
      InsideRest(spans, from, p);
    }
  }

  lemma CopiedHolds(from: nat, to: nat, p: nat)
    requires from <= to
    ensures Some(p) in Copied(from, to) <==> from <= p < to
  {
    if from <= p < to {
      assert Copied(from, to)[p - from] == Some(p);
    }
  }

  lemma NoneInside(p: int)
    ensures !InsideOne([], p)
  {}

  lemma InsideRest(spans: seq<Span>, from: nat, p: int)
    requires spans != [] && Laid(spans, from)
    ensures InsideOne(spans, p) <==> Within(spans[0], p) || InsideOne(spans[1..], p)
    ensures InsideOne(spans[1..], p) ==> p >= spans[0].end
  {
    if i :| 0 <= i < |spans| && Within(spans[i], p) {
      if i > 0 { assert spans[1..][i - 1] == spans[i]; }
    }
    if i :| 0 <= i < |spans[1..]| && Within(spans[1..][i], p) {
      assert spans[i + 1] == spans[1..][i];
    }
  }

  // ---- When nothing reported is shown ------------------------------------------------------------

  // From the i-th on, kept spans follow one another without a gap up to `end`.
  predicate RunsOn(kept: seq<Span>, i: nat, end: nat)
    requires i < |kept|
    decreases |kept| - i
  {
    end <= kept[i].end || (i + 1 < |kept| && kept[i + 1].start == kept[i].end && RunsOn(kept, i + 1, end))
  }

  // `s` begins inside a kept span, and kept spans run on to its end.
  predicate CoveredBy(kept: seq<Span>, s: Span)
  {
    exists i | 0 <= i < |kept| :: Within(kept[i], s.start) && RunsOn(kept, i, s.end)
  }

  lemma {:induction false} RunsOnCovers(kept: seq<Span>, i: nat, end: nat, p: int)
    requires i < |kept| && RunsOn(kept, i, end) && kept[i].start <= p < end
    ensures InsideOne(kept, p)
    decreases |kept| - i
  {
    if p < kept[i].end {
      assert Within(kept[i], p);
    } else {
      RunsOnCovers(kept, i + 1, end, p);
    }
  }

  // Where they do not run on, the first place they leave bare.
  lemma {:induction false} GapIsBare(kept: seq<Span>, i: nat, end: nat) returns (p: nat)
    requires i < |kept| && Laid(kept, 0) && !RunsOn(kept, i, end)
    ensures kept[i].end <= p < end && !InsideOne(kept, p)
    decreases |kept| - i
  {
    if i + 1 < |kept| && kept[i + 1].start == kept[i].end {
      p := GapIsBare(kept, i + 1, end);
    } else {
      p := kept[i].end;
      forall j | 0 <= j < |kept| ensures !Within(kept[j], p) {
        if j > i + 1 {
          assert kept[i + 1].end <= kept[j].start;
        }
      }
    }
  }

  lemma CoveredExactly(kept: seq<Span>, s: Span)
    requires Laid(kept, 0) && s.start < s.end
    ensures CoveredBy(kept, s) <==> forall p: nat | Within(s, p) :: InsideOne(kept, p)
  {
    hide Laid, RunsOn;
    if CoveredBy(kept, s) {
      var i :| 0 <= i < |kept| && Within(kept[i], s.start) && RunsOn(kept, i, s.end);
      forall p: nat | Within(s, p) ensures InsideOne(kept, p) {
        RunsOnCovers(kept, i, s.end, p);
      }
    } else if forall p: nat | Within(s, p) :: InsideOne(kept, p) {
      assert Within(s, s.start) && InsideOne(kept, s.start);
      var i :| 0 <= i < |kept| && Within(kept[i], s.start);
      var p := GapIsBare(kept, i, s.end);
      assert Within(s, p);
    }
  }

  // Some result that scores at least 0.6 covers the character.
  predicate Reported(results: seq<Span>, p: int)
  {
    exists s <- results :: s.score >= 0.6 && Within(s, p)
  }

  // The places of the text the redacted text still shows.
  function RedactedSources(text: string, results: seq<Span>): seq<Option<nat>>
    requires AllInText(text, results)
  {
    var kept := NonOverlapping(Confident(results));
    KeptAreLaid(text, results);
    Sources(text, kept, Names(kept), 0)
  }

  // The confident results keep the order in which they were reported.
  lemma {:induction false} ConfidentInOrder(results: seq<Span>, a: Span, b: Span)
    requires a in Confident(results) && b in Confident(results)
    ensures First(Confident(results), a) < First(Confident(results), b) <==> First(results, a) < First(results, b)
  {
    var (init, x) := (results[..|results| - 1], results[|results| - 1]);
    assert results == init + [x];
    var before := Confident(init);
    forall s | s in before ensures First(Confident(results), s) == First(before, s) && First(results, s) == First(init, s) {
      FirstOneMore(init, x, s);
      FirstOneMore(before, x, s);
    }
    if x !in before && x.score >= REDACT_SCORE_THRESHOLD {
      FirstOfLast(init, x);
      FirstOfLast(before, x);
    }
    if a in before && b in before {
      ConfidentInOrder(init, a, b);
    }
  }

  // What is masked: exactly the characters of the results that score at least 0.6 and share none with a masked one that
  // scores higher, or as high and was reported earlier.
  lemma MaskedExactly(text: string, results: seq<Span>)
    requires AllInText(text, results)
    ensures var kept := NonOverlapping(Confident(results));
            && (forall s <- kept :: s in results)
            && (forall s <- results :: s in kept <==> s.score >= 0.6 && !Outranked(results, kept, s))
            && forall p: nat :: Some(p) in RedactedSources(text, results) <==>
                 p < |text| && forall s <- kept :: !(s.start <= p < s.end)
  {
    hide NonOverlapping, Confident, Names, Laid, AllInText, Sources, Share, First;
    var confident := Confident(results);
    var kept := NonOverlapping(confident);
    KeptAreLaid(text, results);
    ConfidentInText(text, results);
    KeptExactly(text, confident);
    forall s | s in confident
      ensures forall k <- kept :: Outranks(confident, k, s) <==> Outranks(results, k, s)
    {
      forall k | k in kept ensures Outranks(confident, k, s) <==> Outranks(results, k, s) {
        ConfidentInOrder(results, k, s);
      }
    }
    forall p: nat ensures Some(p) in RedactedSources(text, results) <==> p < |text| && !InsideOne(kept, p) {
      ShownExactly(text, kept, Names(kept), 0, p);
    }
  }

  lemma ConfidentInText(text: string, results: seq<Span>)
    requires AllInText(text, results)
    ensures AllInText(text, Confident(results))
  {
    InTextAll(text, results, Confident(results));
  }

  // No character reported with enough confidence is shown exactly when every such result begins inside a kept span and
  // kept spans run on without a gap to its end. A result that lost to another need not.
  lemma EveryReportIsMaskedExactly(text: string, results: seq<Span>)
    requires AllInText(text, results)
    ensures Shows(Redacted(text, results), RedactedSources(text, results), text)
    ensures var kept := NonOverlapping(Confident(results));
            (forall p: nat | Reported(results, p) :: Some(p) !in RedactedSources(text, results))
            <==> forall s <- results :: s.score >= 0.6 ==> CoveredBy(kept, s)
  {
    hide NonOverlapping, Confident, Names, Laid, AllInText, Sources, Masked, CoveredBy, Within, InsideOne, Shows;
    assert forall s :: s in Confident(results) <==> s in results && s.score >= 0.6;
    var kept := NonOverlapping(Confident(results));
    KeptAreLaid(text, results);
    SourcesShow(text, kept, Names(kept), 0);
    forall s | s in Confident(results)
      ensures s.end <= |text| && (CoveredBy(kept, s) <==> forall p: nat | Within(s, p) :: InsideOne(kept, p))
    {
      ResultInText(text, results, s);
      CoveredExactly(kept, s);
    }
    forall p: nat ensures Some(p) in RedactedSources(text, results) <==> p < |text| && !InsideOne(kept, p) {
      ShownExactly(text, kept, Names(kept), 0, p);
    }
    forall s, p: nat | s in Confident(results) && Within(s, p) ensures p < |text| {
      ResultInText(text, results, s);
      WithinText(text, s, p);
    }
  }

  lemma WithinText(text: string, s: Span, p: int)
    requires Within(s, p) && s.end <= |text|
    ensures p < |text|
  {}

  lemma ResultInText(text: string, results: seq<Span>, s: Span)
    requires AllInText(text, results) && s in Confident(results)
    ensures s.start < s.end <= |text|
  {
    assert s in results;
    var i :| 0 <= i < |results| && results[i] == s;
    assert InText(text, results[i]);
  }

  // It happens: the part of a result that hangs over the one it lost to stays readable.
  lemma OverhangIsShown()
    ensures var (text, results) := ("081234567890", [Span("ID_NO_HP", 0, 9, 0.75), Span("ID_NO_REKENING", 3, 12, 0.65)]);
            && AllInText(text, results)
            && Reported(results, 11) && Some(11) in RedactedSources(text, results)
  {
    hide NonOverlapping, Confident, Names, Sources;
    var (text, a, b) := ("081234567890", Span("ID_NO_HP", 0, 9, 0.75), Span("ID_NO_REKENING", 3, 12, 0.65));
    FirstOfTwoKept(a, b);
    assert InText(text, a) && InText(text, b);
    assert Within(b, 11) && b in [a, b];
    assert !InsideOne([a], 11);
    assert Laid([a], 0) && AllInText(text, [a]);
    ShownExactly(text, [a], Names([a]), 0, 11);
  }

  lemma FirstOfTwoKept(a: Span, b: Span)
    requires a.score > b.score >= REDACT_SCORE_THRESHOLD && Overlap(b, a)
    ensures Confident([a, b]) == [a, b] && NonOverlapping(Confident([a, b])) == [a]
  {
    assert [a, b][..1] == [a] && [a][..0] == [];
    assert Confident([a]) == [a];
    assert ByScore([a]) == [a] && ByScore([a, b]) == [a, b];
    assert Greedy([a]) == [a] && Clashes([a], b);
    assert ByStart([a]) == [a];
  }
}
