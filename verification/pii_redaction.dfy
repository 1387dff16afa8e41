/** The redaction and restoration loops, refining the functions the round trip is proved about. */
module PiiRedaction {
  import opened Text
  import opened Pii
  import opened PiiProofs

  method NonOverlappingResults(results: seq<Span>) returns (kept: seq<Span>)
    ensures kept == NonOverlapping(results)
  {
    var sorted := ByScore(results);
    kept := [];
    for i := 0 to |sorted|
      invariant kept == Greedy(sorted[..i])
    {
      assert sorted[..i + 1][..i] == sorted[..i];
      if !Clashes(kept, sorted[i]) {
        kept := kept + [sorted[i]];
      }
    }
    assert sorted[..|sorted|] == sorted;
    kept := ByStart(kept);
  }

  lemma Regroup(a: string, b: string, c: string, d: string)
    ensures (a + b) + c + d == a + (b + c + d)
  {
  }

  lemma MaskedFrom(text: string, spans: seq<Span>, names: seq<string>, from: nat)
    requires from <= |text| && |names| == |spans| && Laid(spans, from) && AllInText(text, spans)
    ensures Masked(text, spans, names, 0) == text[..from] + Masked(text, spans, names, from)
  {
    if spans == [] {
      assert text[0..] == text[..from] + text[from..];
    } else {
      RestLaid(text, spans, from);
      var start := spans[0].start;
      assert text[0..start] == text[..from] + text[from..start];
      Regroup(text[..from], text[from..start], names[0], Masked(text, spans[1..], names[1..], spans[0].end));
    }
  }

  lemma MaskOneMore(text: string, spans: seq<Span>, names: seq<string>)
    requires spans != [] && |names| == |spans| && Laid(spans, 0) && AllInText(text, spans)
    ensures Laid(spans[1..], 0) && AllInText(text, spans[1..])
    ensures var (s, out) := (spans[0], Masked(text, spans[1..], names[1..], 0));
            && s.end <= |out|
            && Masked(text, spans, names, 0) == out[..s.start] + names[0] + out[s.end..]
  {
    var s := spans[0];
    RestLaid(text, spans, 0);
    MaskedFrom(text, spans[1..], names[1..], s.end);
    var (out, tail) := (Masked(text, spans[1..], names[1..], 0), Masked(text, spans[1..], names[1..], s.end));
    assert out == text[..s.end] + tail;
    assert out[..s.start] == text[0..s.start];
    assert out[s.end..] == tail;
  }

  lemma {:induction false} PairsOneMore(text: string, spans: seq<Span>, names: seq<string>)
    requires spans != [] && |names| == |spans| && AllInText(text, spans)
    ensures AllInText(text, spans[1..]) && InText(text, spans[0])
    ensures Pairs(text, spans, names) == Pairs(text, spans[1..], names[1..]) + [(names[0], text[spans[0].start..spans[0].end])]
  {
    hide Pairs, InText;
    var n := |spans| - 1;
    assert InText(text, spans[0]);
    PairsLast(text, spans, names);
    if n == 0 {
      assert spans[..0] == [] && spans[1..] == [];
      NoPairs(text);
    } else {
      PairsOneMore(text, spans[..n], names[..n]);
      assert spans[..n][1..] == spans[1..][..n - 1] && names[..n][1..] == names[1..][..n - 1];
      assert spans[1..][n - 1] == spans[n] && names[1..][n - 1] == names[n];
      PairsLast(text, spans[1..], names[1..]);
    }
  }

  lemma NoPairs(text: string)
    ensures Pairs(text, [], []) == []
  {
  }

  lemma PairsLast(text: string, spans: seq<Span>, names: seq<string>)
    requires spans != [] && |names| == |spans| && AllInText(text, spans)
    ensures var n := |spans| - 1;
            && AllInText(text, spans[..n]) && InText(text, spans[n]) && spans[n].start <= spans[n].end <= |text|
            && Pairs(text, spans, names) == [(names[n], text[spans[n].start..spans[n].end])] + Pairs(text, spans[..n], names[..n])
  {
    assert InText(text, spans[|spans| - 1]);
  }

  predicate Counted(counters: map<string, nat>, spans: seq<Span>, i: nat, short: string)
    requires i <= |spans|
  {
    (if short in counters then counters[short] else 0) == Later(spans, i, short)
  }

  ghost predicate AllCounted(counters: map<string, nat>, spans: seq<Span>, i: nat)
    requires i <= |spans|
  {
    forall short :: Counted(counters, spans, i, short)
  }

  lemma CountOne(counters: map<string, nat>, spans: seq<Span>, i: nat)
    requires i < |spans| && AllCounted(counters, spans, i + 1)
    ensures var short := Short(spans[i].entity);
            var n := (if short in counters then counters[short] else 0) + 1;
            n == Rank(spans, i) && AllCounted(counters[short := n], spans, i)
  {
    var short := Short(spans[i].entity);
    assert Counted(counters, spans, i + 1, short);
    var counters' := counters[short := Rank(spans, i)];
    forall other ensures Counted(counters', spans, i, other) {
      assert Counted(counters, spans, i + 1, other);
    }
  }

  // One turn of the loop, on values.
  lemma RedactOne(text: string, kept: seq<Span>, names: seq<string>, i: nat)
    requires i < |kept| == |names| && Laid(kept, 0) && AllInText(text, kept) && Tokens(names)
    ensures Laid(kept[i..], 0) && AllInText(text, kept[i..]) && Laid(kept[i + 1..], 0) && AllInText(text, kept[i + 1..])
    ensures var (s, out) := (kept[i], Masked(text, kept[i + 1..], names[i + 1..], 0));
            && s.start <= s.end <= |out| && s.end <= |text|
            && Masked(text, kept[i..], names[i..], 0) == out[..s.start] + names[i] + out[s.end..]
            && Put(Pairs(text, kept[i + 1..], names[i + 1..]), names[i], text[s.start..s.end]) == Pairs(text, kept[i..], names[i..])
  {
    hide Masked, Pairs, Put, Has, Tokens, Token;
    LaidSuffix(text, kept, i);
    LaidSuffix(text, kept, i + 1);
    assert kept[i..][1..] == kept[i + 1..] && names[i..][1..] == names[i + 1..];
    MaskOneMore(text, kept[i..], names[i..]);
    PairsOneMore(text, kept[i..], names[i..]);
    StillFresh(text, kept, names, i);
    PutFresh(Pairs(text, kept[i + 1..], names[i + 1..]), names[i], text[kept[i].start..kept[i].end]);
  }

  method RedactInput(text: string, analysis: seq<Span>) returns (out: string, mapping: Mapping)
    requires AllInText(text, analysis)
    ensures out == Redacted(text, analysis) && mapping == RedactionMap(text, analysis)
  {
    hide Masked, Pairs, NonOverlapping, Confident, Redacted, RedactionMap, Tokens, Laid, Put, AllCounted, Rank, Later;
    KeptAreLaid(text, analysis);
    RedactedIs(text, analysis);
    var kept := NonOverlappingResults(Confident(analysis));
    ghost var names := Names(kept);
    out, mapping := text, [];
    var counters: map<string, nat> := map[];
    LaidSuffix(text, kept, |kept|);
    NothingMasked(text, kept[|kept|..], names[|kept|..]);
    NothingCounted(kept);
    for i := |kept| downto 0
      invariant Laid(kept[i..], 0) && AllInText(text, kept[i..])
      invariant out == Masked(text, kept[i..], names[i..], 0)
      invariant mapping == Pairs(text, kept[i..], names[i..])
      invariant AllCounted(counters, kept, i)
    {
      var s := kept[i];
      var short := Short(s.entity);
      CountOne(counters, kept, i);
      RedactOne(text, kept, names, i);
      counters := counters[short := (if short in counters then counters[short] else 0) + 1];
      var placeholder := Placeholder(short, counters[short]);
      mapping := Put(mapping, placeholder, text[s.start..s.end]);
      out := out[..s.start] + placeholder + out[s.end..];
    }
    assert kept[0..] == kept && names[0..] == names;
  }

  lemma NothingCounted(spans: seq<Span>)
    ensures AllCounted(map[], spans, |spans|)
  {
  }

  lemma RedactedIs(text: string, results: seq<Span>)
    requires AllInText(text, results)
    ensures var kept := NonOverlapping(Confident(results));
            && Laid(kept, 0) && AllInText(text, kept)
            && Redacted(text, results) == Masked(text, kept, Names(kept), 0)
            && RedactionMap(text, results) == Pairs(text, kept, Names(kept))
  {
    KeptAreLaid(text, results);
  }

  lemma NothingMasked(text: string, spans: seq<Span>, names: seq<string>)
    requires spans == [] && names == []
    ensures Masked(text, spans, names, 0) == text && Pairs(text, spans, names) == []
  {
    assert text[0..] == text;
  }

  lemma LaidSuffix(text: string, spans: seq<Span>, i: nat)
    requires i <= |spans| && Laid(spans, 0) && AllInText(text, spans)
    ensures Laid(spans[i..], 0) && AllInText(text, spans[i..])
  {
  }

  lemma StillFresh(text: string, spans: seq<Span>, names: seq<string>, i: nat)
    requires i < |spans| == |names| && Tokens(names) && AllInText(text, spans[i + 1..])
    ensures !Has(Pairs(text, spans[i + 1..], names[i + 1..]), names[i])
  {
    var m := Pairs(text, spans[i + 1..], names[i + 1..]);
    forall k | 0 <= k < |m| ensures m[k].0 != names[i] {
      assert m[k].0 == names[|names| - 1 - k];
    }
  }

  method RestoreInput(text: string, mapping: Mapping) returns (restored: string)
    requires forall i | 0 <= i < |mapping| :: mapping[i].0 != ""
    ensures restored == RestoreAll(text, mapping)
  {
    restored := text;
    for i := 0 to |mapping|
      invariant RestoreAll(restored, mapping[i..]) == RestoreAll(text, mapping)
    {
      assert mapping[i..][0] == mapping[i] && mapping[i..][1..] == mapping[i + 1..];
      restored := Replace(restored, mapping[i].0, mapping[i].1);
    }
  }

  // The proviso is needed: a user who types a placeholder next to a number that earns it gets the number twice.
  lemma TypedPlaceholder()
    ensures var text := "[NIK_1] 1234567890123456";
            var results := [Span("ID_NIK", 8, 24, 0.7)];
            && AllInText(text, results)
            && RestoreAll(Redacted(text, results), RedactionMap(text, results)) != text
  {
    hide RestoreAll, Redacted, RedactionMap, NoClash, NonOverlapping, Confident, Names, PlainMatches;
    var text := "[NIK_1] 1234567890123456";
    var s := Span("ID_NIK", 8, 24, 0.7);
    TypedMatch();
    OneSpanKept(s);
    TypedClash();
    RestoreUndoesRedactExactly(text, [s]);
  }

  lemma TypedMatch()
    ensures var (text, s) := ("[NIK_1] 1234567890123456", Span("ID_NIK", 8, 24, 0.7));
            AllInText(text, [s]) && PlainMatches(text, [s])
  {
    var (text, s) := ("[NIK_1] 1234567890123456", Span("ID_NIK", 8, 24, 0.7));
    assert text[8..24] == "1234567890123456";
    assert InText(text, s) && PlainMatch(text, s);
  }

  lemma TypedClash()
    ensures var (text, s) := ("[NIK_1] 1234567890123456", Span("ID_NIK", 8, 24, 0.7));
            !NoClash(text, [s], Names([s]))
  {
    var (text, s) := ("[NIK_1] 1234567890123456", Span("ID_NIK", 8, 24, 0.7));
    assert Short("ID_NIK") == "NIK" && Decimal(1) == "1";
    assert Name([s], 0) == "[NIK_1]";
    assert OccursAt("[NIK_1]", text, 0) && [s][..1] == [s] && !Touched([s], 0, 7);
    assert !Covered(text, [s][..1], Names([s])[0]);
  }

  lemma OneSpanKept(s: Span)
    requires s.score >= REDACT_SCORE_THRESHOLD
    ensures NonOverlapping(Confident([s])) == [s]
  {
    assert [s][..0] == [];
    assert Confident([s]) == [s];
    assert ByScore([s]) == [s];
    assert Greedy([s]) == [s];
  }
}
