/**
 The section a block is filed under, against the headings a reader would call
 open at its place.
 */
module Breadcrumb {
  import opened Chunking
  import opened Wrappers

  // The headings of a document have one to six hashes.
  type Headers = headers: seq<Header> | forall h <- headers :: h.level >= 1

  // The headings a reader would call open after `headers`: a heading closes every open one at its level or deeper.
  function Open(headers: seq<Header>): (r: seq<Header>)
  {
    if headers == [] then []
    else
      var h := headers[|headers| - 1];
      Above(Open(headers[..|headers| - 1]), h.level) + [h]
  }

  function Above(open: seq<Header>, level: nat): (r: seq<Header>)
    ensures |r| <= |open| && r == open[..|r|] && forall h <- r :: h.level < level
    ensures |r| < |open| ==> open[|r|].level >= level
  {
    if open == [] || open[0].level >= level then [] else [open[0]] + Above(open[1..], level)
  }

  function Stack(headers: seq<Header>): seq<string>
    requires forall h <- headers :: h.level >= 1
  {
    if headers == [] then []
    else
      assert forall h <- headers[..|headers| - 1] :: h in headers;
      assert headers[|headers| - 1] in headers;
      Push(Stack(headers[..|headers| - 1]), headers[|headers| - 1])
  }

  function Titles(headers: seq<Header>): (r: seq<string>)
    ensures |r| == |headers| && forall i | 0 <= i < |r| :: r[i] == headers[i].title
  {
    seq(|headers|, i requires 0 <= i < |headers| => headers[i].title)
  }

  function Kept(depth: nat, level: nat): nat
    requires level >= 1
  {
    if level - 1 < depth then level - 1 else depth
  }

  // The deepest heading the slice assignment keeps is above the new one: it drops what this heading closes, no more
  // and no less.
  predicate ClosesRightly(headers: seq<Header>, k: nat)
    requires k < |headers| && headers[k].level >= 1
  {
    var open := Open(headers[..k]);
    var kept := Kept(|open|, headers[k].level);
    kept == 0 || open[kept - 1].level < headers[k].level
  }

  // Open headings go down level by level.
  predicate Nested(open: seq<Header>)
  {
    && (forall i | 0 <= i < |open| :: open[i].level >= i + 1)
    && (forall i, j | 0 <= i < j < |open| :: open[i].level < open[j].level)
  }

  lemma {:induction false} OpenIsNested(headers: seq<Header>)
    requires forall h <- headers :: h.level >= 1
    ensures Nested(Open(headers))
  {
    if headers != [] {
      var init, h := headers[..|headers| - 1], headers[|headers| - 1];
      assert h in headers;
      forall x | x in init ensures x in headers {}
      OpenIsNested(init);
      NestedAbove(Open(init), h);
    }
  }

  lemma NestedAbove(open: seq<Header>, h: Header)
    requires Nested(open) && h.level >= 1
    ensures Nested(Above(open, h.level) + [h])
  {
    var above := Above(open, h.level);
    forall i | 0 <= i < |above| ensures open[i].level < h.level {
      assert above[i] in above;
    }
    if above != [] {
      assert open[|above| - 1].level >= |above|;
    }
  }

  lemma KeptIsAbove(open: seq<Header>, level: nat)
    requires Nested(open) && level >= 1
    ensures var kept := Kept(|open|, level);
            kept == |Above(open, level)| <==> kept == 0 || open[kept - 1].level < level
  {
    hide Above, Nested;
    var (kept, above) := (Kept(|open|, level), Above(open, level));
    if |above| > kept {
      assert above[kept] in above && above[kept] == open[kept];
      NestedAt(open, kept, kept);
    } else if |above| == kept > 0 {
      assert above[kept - 1] in above && above[kept - 1] == open[kept - 1];
    } else if |above| < kept {
      NestedAt(open, |above|, kept - 1);
    }
  }

  lemma NestedAt(open: seq<Header>, i: nat, j: nat)
    requires Nested(open) && i <= j < |open|
    ensures open[i].level >= i + 1 && open[i].level <= open[j].level
  {}

  lemma PushAgrees(open: seq<Header>, h: Header)
    requires h.level >= 1
    ensures Push(Titles(open), h) == Titles(Above(open, h.level) + [h]) <==> Kept(|open|, h.level) == |Above(open, h.level)|
  {
    hide Push, Above, Kept;
    PushIs(Titles(open), h);
    var above := Above(open, h.level);
    assert Titles(above + [h]) == Titles(above) + [h.title];
    assert Titles(above) == Titles(open)[..|above|];
    assert |Push(Titles(open), h)| == Kept(|open|, h.level) + 1;
    assert |Titles(above + [h])| == |above| + 1;
  }

  lemma PushIs(stack: seq<string>, h: Header)
    requires h.level >= 1
    ensures Kept(|stack|, h.level) <= |stack| && Push(stack, h) == stack[..Kept(|stack|, h.level)] + [h.title]
  {
  }

  // ---- When the breadcrumb is right ------------------------------------------------------

  // The stack with the headings instead of their titles.
  function Standing(headers: Headers): (r: seq<Header>)
    ensures |r| == Depth(headers) && forall i | 0 <= i < |r| :: r[i].level >= i + 1
    ensures headers != [] ==> r != []
  {
    if headers == [] then []
    else
      assert forall h <- headers[..|headers| - 1] :: h in headers;
      var (rest, h) := (Standing(headers[..|headers| - 1]), headers[|headers| - 1]);
      assert h in headers;
      rest[..Kept(|rest|, h.level)] + [h]
  }

  // How deep the slice assignments leave the stack; it depends on the levels alone.
  function Depth(headers: Headers): nat
  {
    if headers == [] then 0
    else
      assert forall h <- headers[..|headers| - 1] :: h in headers;
      assert headers[|headers| - 1] in headers;
      Kept(Depth(headers[..|headers| - 1]), headers[|headers| - 1].level) + 1
  }

  lemma {:induction false} StandingTitles(headers: Headers)
    ensures Stack(headers) == Titles(Standing(headers))
  {
    if headers != [] {
      var (init, h) := (headers[..|headers| - 1], headers[|headers| - 1]);
      forall x | x in init ensures x in headers {}
      assert h in headers;
      StandingTitles(init);
      PushIs(Titles(Standing(init)), h);
    }
  }

  // `a` is `b` with some headings left out.
  predicate Thins(a: seq<Header>, b: seq<Header>)
  {
    a == [] || (b != [] && (Thins(a, b[..|b| - 1]) ||
                            (a[|a| - 1] == b[|b| - 1] && Thins(a[..|a| - 1], b[..|b| - 1]))))
  }

  lemma {:induction false} PrefixThins(a: seq<Header>, b: seq<Header>, n: nat)
    requires Thins(a, b) && n <= |a|
    ensures Thins(a[..n], b)
  {
    if n == |a| {
      assert a[..n] == a;
    } else if n > 0 {
      if Thins(a, b[..|b| - 1]) {
        PrefixThins(a, b[..|b| - 1], n);
      } else {
        assert a[..|a| - 1][..n] == a[..n];
        PrefixThins(a[..|a| - 1], b[..|b| - 1], n);
      }
    }
  }

  // A heading that stays open stays on the stack.
  lemma {:induction false} AboveThins(open: seq<Header>, stack: seq<Header>, level: nat)
    requires Thins(open, stack) && level >= 1 && forall i | 0 <= i < |stack| :: stack[i].level >= i + 1
    ensures Thins(Above(open, level), stack[..Kept(|stack|, level)])
  {
    hide Above;
    var above := Above(open, level);
    if |stack| <= level - 1 {
      assert stack[..Kept(|stack|, level)] == stack;
      PrefixThins(open, stack, |above|);
    } else if open != [] {
      var rest := stack[..|stack| - 1];
      assert stack[..level - 1] == rest[..level - 1];
      if Thins(open, rest) {
        AboveThins(open, rest, level);
      } else {
        AboveThins(open[..|open| - 1], rest, level);
        AboveOfInit(open, level);
      }
    }
  }

  lemma {:induction false} AboveOfInit(open: seq<Header>, level: nat)
    requires open != [] && open[|open| - 1].level >= level
    ensures Above(open[..|open| - 1], level) == Above(open, level)
  {
    if |open| > 1 && open[0].level < level {
      assert open[..|open| - 1][1..] == open[1..][..|open| - 2];
      AboveOfInit(open[1..], level);
    }
  }

  lemma ThinsOneMore(a: seq<Header>, b: seq<Header>, h: Header)
    requires Thins(a, b)
    ensures Thins(a + [h], b + [h])
  {
    assert (a + [h])[..|a|] == a && (b + [h])[..|b|] == b;
  }

  lemma {:induction false} OpenThinsStanding(headers: Headers)
    ensures Thins(Open(headers), Standing(headers))
  {
    hide Above, Thins;
    if headers == [] {
      NoneThins();
    } else {
      var (init, h) := (headers[..|headers| - 1], headers[|headers| - 1]);
      forall x | x in init ensures x in headers {}
      assert h in headers;
      OpenThinsStanding(init);
      AboveThins(Open(init), Standing(init), h.level);
      ThinsOneMore(Above(Open(init), h.level), Standing(init)[..Kept(|Standing(init)|, h.level)], h);
    }
  }

  lemma NoneThins()
    ensures Thins([], [])
  {}

  // What a path of these headings weighs: its titles, and three characters to set off each.
  function Weight(headers: seq<Header>): nat
  {
    if headers == [] then 0 else Weight(headers[..|headers| - 1]) + |headers[|headers| - 1].title| + 3
  }

  lemma {:induction false} ThinWeighsLess(a: seq<Header>, b: seq<Header>)
    requires Thins(a, b)
    ensures |a| <= |b| && Weight(a) <= Weight(b)
    ensures |a| == |b| ==> a == b
    ensures |a| < |b| ==> Weight(a) < Weight(b)
  {
    if a != [] {
      if Thins(a, b[..|b| - 1]) {
        ThinWeighsLess(a, b[..|b| - 1]);
      } else {
        ThinWeighsLess(a[..|a| - 1], b[..|b| - 1]);
        assert a == a[..|a| - 1] + [a[|a| - 1]] && b == b[..|b| - 1] + [b[|b| - 1]];
      }
    }
  }

  lemma {:induction false} PathWeight(headers: seq<Header>)
    requires headers != []
    ensures |Join(Titles(headers), " > ")| + 3 == Weight(headers)
  {
    var n := |headers| - 1;
    assert Titles(headers)[..n] == Titles(headers[..n]);
    if n > 0 {
      PathWeight(headers[..n]);
    } else {
      assert headers[..0] == [];
    }
  }

  // The stack is as deep as the headings that are open are many.
  predicate FiledRightly(headers: Headers)
  {
    Depth(headers) == |Open(headers)|
  }

  // At any place the section stack, and the path a block is filed under, are those of the open headings exactly when
  // the stack is as deep as the headings open there are many.
  lemma BreadcrumbIsRight(headers: Headers)
    ensures Stack(headers) == Titles(Open(headers)) <==> FiledRightly(headers)
    ensures Section(Stack(headers)) == Section(Titles(Open(headers))) <==> FiledRightly(headers)
  {
    hide Open, Standing, Stack, Titles, Thins, Weight, Join, Depth;
    var (open, standing) := (Open(headers), Standing(headers));
    StandingTitles(headers);
    OpenThinsStanding(headers);
    ThinWeighsLess(open, standing);
    if headers == [] {
      NothingOpen();
    } else {
      OpenIsThere(headers);
      PathWeight(open);
      PathWeight(standing);
    }
  }

  lemma OpenIsThere(headers: seq<Header>)
    requires headers != []
    ensures Open(headers) != []
  {}

  lemma NothingOpen()
    ensures Stack([]) == Titles(Open([]))
  {
  }

  // ---- From headings to documents ----------------------------------------------------

  function HeadersOf(lines: seq<string>): (r: seq<Header>)
    ensures forall h <- r :: 1 <= h.level <= 6
  {
    if lines == [] then []
    else
      var rest, h := HeadersOf(lines[..|lines| - 1]), ParseHeader(lines[|lines| - 1]);
      if h.Some? then rest + [h.value] else rest
  }

  // The scan's stack is the stack of the headings it has passed.
  lemma {:induction false} StackOfLines(lines: seq<string>)
    ensures ScanLines(lines).stack == Stack(HeadersOf(lines))
  {
    hide ParseHeader, Flushed, Push;
    if lines != [] {
      var init := lines[..|lines| - 1];
      StackOfLines(init);
      var h := ParseHeader(lines[|lines| - 1]);
      if h.Some? {
        StackOfOneMore(HeadersOf(init), h.value);
      }
    }
  }

  lemma StackOfOneMore(headers: seq<Header>, h: Header)
    requires (forall x <- headers :: x.level >= 1) && h.level >= 1
    ensures Stack(headers + [h]) == Push(Stack(headers), h)
    ensures Open(headers + [h]) == Above(Open(headers), h.level) + [h]
  {
    assert (headers + [h])[..|headers|] == headers;
  }

  // The blocks filed as a reader would: under the headings open at their place.
  datatype Outline = Outline(blocks: seq<Block>, buffer: seq<string>)

  function OutlineLines(lines: seq<string>): Outline
  {
    if lines == [] then Outline([], [])
    else
      var init := lines[..|lines| - 1];
      var o := OutlineLines(init);
      if ParseHeader(lines[|lines| - 1]).Some? then Outline(Flushed(o.blocks, Titles(Open(HeadersOf(init))), o.buffer), [])
      else o.(buffer := o.buffer + [lines[|lines| - 1]])
  }

  function OutlineBlocks(text: string): seq<Block>
  {
    var lines := SplitLines(text, "");
    var o := OutlineLines(lines);
    Flushed(o.blocks, Titles(Open(HeadersOf(lines))), o.buffer)
  }

  predicate AllCloseRightly(headers: seq<Header>)
    requires forall h <- headers :: h.level >= 1
  {
    forall k | 0 <= k < |headers| :: ClosesRightly(headers, k)
  }

  // After the first n lines the section stack is the headings open there.
  predicate InStep(lines: seq<string>, n: nat)
    requires n <= |lines|
  {
    ScanLines(lines[..n]).stack == Titles(Open(HeadersOf(lines[..n])))
  }

  lemma ClosesAlike(headers: seq<Header>, all: seq<Header>, k: nat)
    requires headers <= all && k < |headers| && headers[k].level >= 1
    ensures ClosesRightly(all, k) <==> ClosesRightly(headers, k)
  {
    hide Open;
    assert all[..k] == headers[..k];
  }

  lemma CloseOneMore(headers: seq<Header>, h: Header)
    requires (forall x <- headers :: x.level >= 1) && h.level >= 1
    ensures AllCloseRightly(headers + [h]) <==> AllCloseRightly(headers) && ClosesRightly(headers + [h], |headers|)
  {
    hide ClosesRightly;
    var all := headers + [h];
    forall k | 0 <= k < |headers| ensures ClosesRightly(all, k) <==> ClosesRightly(headers, k) {
      ClosesAlike(headers, all, k);
    }
  }

  lemma StepAgrees(headers: seq<Header>, h: Header)
    requires (forall x <- headers :: x.level >= 1) && h.level >= 1
    requires Stack(headers) == Titles(Open(headers))
    ensures Stack(headers + [h]) == Titles(Open(headers + [h])) <==> ClosesRightly(headers + [h], |headers|)
  {
    hide Open, Stack, Push, Above, Titles, Nested, Kept, ClosesRightly;
    StackOfOneMore(headers, h);
    OpenIsNested(headers);
    PushAgrees(Open(headers), h);
    ClosesAbove(headers, h);
  }

  lemma ClosesAbove(headers: seq<Header>, h: Header)
    requires Nested(Open(headers)) && h.level >= 1
    ensures ClosesRightly(headers + [h], |headers|) <==> Kept(|Open(headers)|, h.level) == |Above(Open(headers), h.level)|
  {
    hide Open, Above, Nested;
    KeptIsAbove(Open(headers), h.level);
    assert (headers + [h])[..|headers|] == headers;
  }

  // Line by line, the stack is right all through a document exactly when every heading closes rightly.
  lemma {:induction false} DocumentIsInStep(lines: seq<string>, n: nat)
    requires n <= |lines|
    ensures (forall m | 0 <= m <= n :: InStep(lines, m)) <==> AllCloseRightly(HeadersOf(lines[..n]))
  {
    hide ScanLines, Open, Stack, Titles, ClosesRightly, ParseHeader, HeadersOf, AllCloseRightly;
    StackOfLines(lines[..n]);
    if n == 0 {
      NoLines(lines);
    } else {
      DocumentIsInStep(lines, n - 1);
      StackOfLines(lines[..n - 1]);
      assert lines[..n][..n - 1] == lines[..n - 1];
      HeadersOneMore(lines[..n]);
      var h := ParseHeader(lines[n - 1]);
      if h.Some? {
        CloseOneMore(HeadersOf(lines[..n - 1]), h.value);
        if InStep(lines, n - 1) {
          StepAgrees(HeadersOf(lines[..n - 1]), h.value);
          assert InStep(lines, n) <==> ClosesRightly(HeadersOf(lines[..n]), |HeadersOf(lines[..n - 1])|);
        } else {
          assert !(forall m | 0 <= m <= n :: InStep(lines, m));
        }
      } else {
        assert InStep(lines, n) <==> InStep(lines, n - 1);
      }
    }
  }

  lemma HeadersOneMore(lines: seq<string>)
    requires lines != []
    ensures var (init, h) := (lines[..|lines| - 1], ParseHeader(lines[|lines| - 1]));
            (h.Some? ==> h.value.level >= 1) && HeadersOf(lines) == if h.Some? then HeadersOf(init) + [h.value] else HeadersOf(init)
  {
  }

  lemma NoLines(lines: seq<string>)
    ensures InStep(lines, 0) && HeadersOf(lines[..0]) == [] && AllCloseRightly([])
  {
    assert lines[..0] == [];
  }

  // The headings above each block of a document, the block's text, and the lines that wait for the next one.
  datatype Layout = Layout(owners: seq<Headers>, texts: seq<string>, buffer: seq<string>)

  function LayoutOf(lines: seq<string>): (r: Layout)
    ensures |r.owners| == |r.texts|
  {
    if lines == [] then Layout([], [], [])
    else
      var init := lines[..|lines| - 1];
      var l := LayoutOf(init);
      if ParseHeader(lines[|lines| - 1]).Some? then WithBlock(l, HeadersOf(init))
      else l.(buffer := l.buffer + [lines[|lines| - 1]])
  }

  function WithBlock(l: Layout, headers: Headers): (r: Layout)
    requires |l.owners| == |l.texts|
    ensures |r.owners| == |r.texts| && r.buffer == []
  {
    var content := Strip(Join(l.buffer, "\n"));
    if content == "" then l.(buffer := []) else Layout(l.owners + [headers], l.texts + [content], [])
  }

  // For each block of the text, every heading before it.
  function Owners(text: string): seq<Headers>
  {
    var lines := SplitLines(text, "");
    WithBlock(LayoutOf(lines), HeadersOf(lines)).owners
  }

  predicate AsScanned(blocks: seq<Block>, owners: seq<Headers>, texts: seq<string>)
  {
    && |blocks| == |owners| == |texts|
    && forall i | 0 <= i < |blocks| :: blocks[i] == Block(Section(Stack(owners[i])), texts[i])
  }

  predicate AsOutlined(blocks: seq<Block>, owners: seq<Headers>, texts: seq<string>)
  {
    && |blocks| == |owners| == |texts|
    && forall i | 0 <= i < |blocks| :: blocks[i] == Block(Section(Titles(Open(owners[i]))), texts[i])
  }

  lemma {:induction false} LayoutFits(lines: seq<string>)
    ensures ScanLines(lines).buffer == OutlineLines(lines).buffer == LayoutOf(lines).buffer
    ensures var l := LayoutOf(lines);
            && AsScanned(ScanLines(lines).blocks, l.owners, l.texts)
            && AsOutlined(OutlineLines(lines).blocks, l.owners, l.texts)
  {
    hide Open, Stack, Titles, ParseHeader, Flushed, Push, Section, HeadersOf, WithBlock, AsScanned, AsOutlined;
    if lines == [] {
      NoBlocks();
    } else {
      var init := lines[..|lines| - 1];
      LayoutFits(init);
      StackOfLines(init);
      FlushFits(ScanLines(init), OutlineLines(init), LayoutOf(init), HeadersOf(init));
      if ParseHeader(lines[|lines| - 1]).Some? {
        assert LayoutOf(lines) == WithBlock(LayoutOf(init), HeadersOf(init));
      }
    }
  }

  lemma NoBlocks()
    ensures AsScanned([], [], []) && AsOutlined([], [], [])
  {}

  lemma FlushFits(s: Scan, o: Outline, l: Layout, headers: Headers)
    requires |l.owners| == |l.texts|
    requires s.buffer == o.buffer == l.buffer && s.stack == Stack(headers)
    requires AsScanned(s.blocks, l.owners, l.texts) && AsOutlined(o.blocks, l.owners, l.texts)
    ensures var l' := WithBlock(l, headers);
            && AsScanned(Flushed(s.blocks, s.stack, s.buffer), l'.owners, l'.texts)
            && AsOutlined(Flushed(o.blocks, Titles(Open(headers)), o.buffer), l'.owners, l'.texts)
  {
    hide Open, Stack, Titles, Section, Join, Strip;
  }

  // Every block of a document is filed under the headings open at its place exactly when that holds of the headings
  // before each block, and for each of them the stack is as deep as the headings open there are many.
  lemma SectionsFollowTheOutline(text: string)
    ensures BlocksBySection(text) == OutlineBlocks(text) <==> forall o <- Owners(text) :: FiledRightly(o)
  {
    hide SplitLines, ScanLines, OutlineLines, HeadersOf, Open, Stack, Titles, Flushed, Section, LayoutOf, WithBlock;
    hide FiledRightly, AsScanned, AsOutlined;
    var lines := SplitLines(text, "");
    LayoutFits(lines);
    StackOfLines(lines);
    FlushFits(ScanLines(lines), OutlineLines(lines), LayoutOf(lines), HeadersOf(lines));
    SameBlocks(BlocksBySection(text), OutlineBlocks(text), WithBlock(LayoutOf(lines), HeadersOf(lines)));
  }

  lemma SameBlocks(scanned: seq<Block>, outlined: seq<Block>, l: Layout)
    requires AsScanned(scanned, l.owners, l.texts) && AsOutlined(outlined, l.owners, l.texts)
    ensures scanned == outlined <==> forall o <- l.owners :: FiledRightly(o)
  {
    hide Open, Stack, Titles, Section, FiledRightly;
    forall i | 0 <= i < |l.owners| ensures scanned[i] == outlined[i] <==> FiledRightly(l.owners[i]) {
      assert l.owners[i] in l.owners;
      BreadcrumbIsRight(l.owners[i]);
    }
    if forall o <- l.owners :: FiledRightly(o) {
      forall i | 0 <= i < |scanned| ensures scanned[i] == outlined[i] {
        assert l.owners[i] in l.owners;
      }
    }
  }

  // In a document whose headings all close rightly every place is right.
  lemma {:induction false} ClosingFilesRightly(headers: Headers, n: nat)
    requires n <= |headers| && AllCloseRightly(headers)
    ensures FiledRightly(headers[..n])
  {
    hide Open, Above, Nested;
    if n == 0 {
      NoneOpen();
      assert headers[..0] == [];
    } else {
      var h := headers[n - 1];
      ClosingFilesRightly(headers, n - 1);
      OpenIsNested(headers[..n - 1]);
      OpenOneMore(headers, n - 1);
      assert h in headers && headers[..n][..n - 1] == headers[..n - 1] && headers[..n][n - 1] == h;
      KeptIsAbove(Open(headers[..n - 1]), h.level);
      assert ClosesRightly(headers, n - 1);
    }
  }

  // No level is skipped on the way down: that is enough.
  predicate Graded(headers: seq<Header>)
  {
    forall k | 0 <= k < |headers| :: headers[k].level <= |Open(headers[..k])| + 1
  }

  lemma {:induction false} GradedOpens(headers: seq<Header>, n: nat)
    requires n <= |headers| && Graded(headers) && forall h <- headers :: h.level >= 1
    ensures forall i | 0 <= i < |Open(headers[..n])| :: Open(headers[..n])[i].level == i + 1
  {
    hide Above, Open, Stack;
    if n == 0 {
      NoneOpen();
      assert headers[..0] == [];
    } else {
      GradedOpens(headers, n - 1);
      OpenOneMore(headers, n - 1);
      assert headers[n - 1] in headers;
      GradedOne(Open(headers[..n - 1]), headers[n - 1]);
    }
  }

  lemma OpenOneMore(headers: seq<Header>, k: nat)
    requires k < |headers|
    ensures Open(headers[..k + 1]) == Above(Open(headers[..k]), headers[k].level) + [headers[k]]
  {
    assert headers[..k + 1][..k] == headers[..k];
  }

  lemma NoneOpen()
    ensures Open([]) == []
  {
  }

  lemma GradedOne(open: seq<Header>, h: Header)
    requires 1 <= h.level <= |open| + 1 && forall i | 0 <= i < |open| :: open[i].level == i + 1
    ensures var r := Above(open, h.level) + [h]; forall i | 0 <= i < |r| :: r[i].level == i + 1
  {
    hide Above;
    AboveGraded(open, h.level);
  }

  lemma {:induction false} AboveGraded(open: seq<Header>, level: nat)
    requires 1 <= level <= |open| + 1 && forall i | 0 <= i < |open| :: open[i].level == i + 1
    ensures |Above(open, level)| == level - 1
  {
    var above := Above(open, level);
    forall i | 0 <= i < |above| ensures open[i].level < level {
      assert above[i] in above;
    }
    assert level - 1 < |open| ==> open[level - 1].level == level;
    assert |above| < |open| ==> open[|above|].level == |above| + 1;
  }

  lemma GradedClosesRightly(headers: seq<Header>)
    requires Graded(headers) && forall h <- headers :: h.level >= 1
    ensures AllCloseRightly(headers)
  {
    hide Open;
    forall k | 0 <= k < |headers| ensures ClosesRightly(headers, k) {
      assert headers[k] in headers;
      GradedOpens(headers, k);
    }
  }

  // ---- A document that breaks it --------------------------------------------------------

  const SKIPPED: string := "### a\n## b\nx"

  lemma SkippedLines()
    ensures SplitLines(SKIPPED, "") == ["### a", "## b", "x"]
  {
    hide SplitLines;
    LinesOf("### a", "\n", "## b\nx");
    LinesOf("## b", "\n", "x");
    LinesOf("x", "\n", "");
    assert SKIPPED == "### a" + ("\n" + "## b\nx");
    assert "## b\nx" == "## b" + ("\n" + "x");
  }

  lemma HashesThenTitle(n: nat, line: string, title: string)
    requires 1 <= n <= 6 && |line| == n + 1 + |title| && (forall i | 0 <= i < n :: line[i] == '#')
    requires line[n] == ' ' && line[n + 1..] == title && Trim(title)
    ensures ParseHeader(line) == Some(Header(n, title))
  {
    hide Hashes, Strip, Trim;
    assert line[n..] == [' '] + title;
    StripAfterSpace(title);
    HeadingExactly(line, n, title);
  }

  lemma StripAfterSpace(title: string)
    requires Trim(title)
    ensures Strip([' '] + title) == title
  {
    assert ([' '] + title)[1..] == title;
    assert LStrip([' '] + title) == LStrip(title) == title;
  }

  lemma SkippedHeaders()
    ensures ParseHeader("### a") == Some(Header(3, "a")) && ParseHeader("## b") == Some(Header(2, "b"))
    ensures ParseHeader("x") == None
  {
    hide ParseHeader;
    HashesThenTitle(3, "### a", "a");
    HashesThenTitle(2, "## b", "b");
    NotAHeader();
  }

  lemma NotAHeader()
    ensures ParseHeader("x") == None
  {
    assert Hashes("x") == 0;
  }

  lemma SkippedScan()
    ensures ScanLines(["### a", "## b", "x"]) == Scan([], ["a", "b"], ["x"])
    ensures HeadersOf(["### a", "## b", "x"]) == [Header(3, "a"), Header(2, "b")]
  {
    hide ParseHeader, Push, Flushed;
    var lines := ["### a", "## b", "x"];
    SkippedHeaders();
    PushBoth();
    FlushNothing();
    assert lines[..2] == ["### a", "## b"] && lines[..2][..1] == ["### a"] && lines[..2][..1][..0] == [];
    assert ScanLines(["### a"]) == Scan([], ["a"], []);
    assert ScanLines(["### a", "## b"]) == Scan([], ["a", "b"], []);
    assert HeadersOf(["### a"]) == [Header(3, "a")];
  }

  lemma FlushNothing()
    ensures forall stack :: Flushed([], stack, []) == []
  {
  }

  lemma PushBoth()
    ensures Push([], Header(3, "a")) == ["a"] && Push(["a"], Header(2, "b")) == ["a", "b"]
  {
    assert ["a"][..1] == ["a"];
  }

  lemma FirstHeading(h: Header)
    requires h.level >= 1
    ensures Open([h]) == [h]
  {
    assert [h][..0] == [];
  }

  lemma FlushX(stack: seq<string>)
    ensures Flushed([], stack, ["x"]) == [Block(Section(stack), "x")]
  {
    hide Join, Section, Strip;
    JoinOne("x", "\n");
    StripTrims("x");
  }

  lemma JoinOne(a: string, sep: string)
    ensures Join([a], sep) == a
  {
  }

  lemma JoinTwo(a: string, b: string, sep: string)
    ensures Join([a, b], sep) == a + sep + b
  {
    assert [a, b][..1] == [a];
  }

  // A document opening with "### a" and then "## b" files b's text under "a > b".
  lemma SkippedLevelMisfiles()
    ensures BlocksBySection(SKIPPED) == [Block(Some("a > b"), "x")]
    ensures OutlineBlocks(SKIPPED) == [Block(Some("b"), "x")]
    ensures !FiledRightly(HeadersOf(SplitLines(SKIPPED, ""))) && !AllCloseRightly(HeadersOf(SplitLines(SKIPPED, "")))
  {
    hide SplitLines, ScanLines, OutlineLines, Flushed, Section, Open, AllCloseRightly, ParseHeader;
    var lines := ["### a", "## b", "x"];
    var headers := [Header(3, "a"), Header(2, "b")];
    SkippedLines();
    SkippedScan();
    SkippedOutline();
    FlushX(["a", "b"]);
    FlushX(["b"]);
    TwoSections();
    SkippedOpen();
    SkippedDepth();
    assert headers[..2] == headers;
    if AllCloseRightly(headers) {
      ClosingFilesRightly(headers, 2);
    }
  }

  lemma TwoSections()
    ensures Section(["a", "b"]) == Some("a > b") && Section(["b"]) == Some("b")
  {
    hide Join;
    JoinTwo("a", "b", " > ");
    JoinOne("b", " > ");
    assert "a" + " > " + "b" == "a > b";
  }

  lemma SkippedOutline()
    ensures OutlineLines(["### a", "## b", "x"]) == Outline([], ["x"])
    ensures Titles(Open(HeadersOf(["### a", "## b", "x"]))) == ["b"]
  {
    hide ParseHeader, Flushed, Open, HeadersOf;
    var lines := ["### a", "## b", "x"];
    SkippedHeaders();
    SkippedScan();
    FlushNothing();
    SkippedOpen();
    assert lines[..2] == ["### a", "## b"] && lines[..2][..1] == ["### a"] && lines[..2][..1][..0] == [];
    assert OutlineLines(["### a"]) == Outline([], []);
    assert OutlineLines(["### a", "## b"]) == Outline([], []);
    assert Titles([Header(2, "b")]) == ["b"];
  }

  lemma SkippedOpen()
    ensures Open([Header(3, "a"), Header(2, "b")]) == [Header(2, "b")]
  {
    hide Open, Above;
    FirstHeading(Header(3, "a"));
    StackOfOneMore([Header(3, "a")], Header(2, "b"));
    assert [Header(3, "a")] + [Header(2, "b")] == [Header(3, "a"), Header(2, "b")];
    NothingAbove();
  }

  lemma SkippedDepth()
    ensures Depth([Header(3, "a"), Header(2, "b")]) == 2
  {
    assert [Header(3, "a"), Header(2, "b")][..1] == [Header(3, "a")] && [Header(3, "a")][..0] == [];
  }

  lemma NothingAbove()
    ensures Above([Header(3, "a")], 2) == []
  {
  }
}
