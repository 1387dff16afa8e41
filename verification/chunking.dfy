/** Splitting a markdown document into header-aware blocks and packing them into overlapping chunks. */
module Chunking {
  import opened Collections
  import opened Wrappers

  // ---- Strings -------------------------------------------------------------------

  // str.isspace
  predicate Space(c: char)
  {
    var n := c as int;
    9 <= n <= 13 || 28 <= n <= 32 || n == 0x85 || n == 0xA0 || n == 0x1680 || 0x2000 <= n <= 0x200A
    || n == 0x2028 || n == 0x2029 || n == 0x202F || n == 0x205F || n == 0x3000
  }

  function LStrip(s: string): (r: string)
    ensures r == "" || !Space(r[0])
    ensures |r| <= |s| && r == s[|s| - |r|..]
    ensures s != "" && !Space(s[0]) ==> r == s
  {
    if s == "" || !Space(s[0]) then s else LStrip(s[1..])
  }

  function RStrip(s: string): (r: string)
    ensures r == "" || !Space(r[|r| - 1])
    ensures r <= s
    ensures s != "" && !Space(s[|s| - 1]) ==> r == s
  {
    if s == "" || !Space(s[|s| - 1]) then s else RStrip(s[..|s| - 1])
  }

  function Strip(s: string): string
  {
    RStrip(LStrip(s))
  }

  // Neither end is a space, and there is something between them.
  predicate Trim(s: string)
  {
    s != "" && !Space(s[0]) && !Space(s[|s| - 1])
  }

  lemma StripTrims(s: string)
    ensures Strip(s) == "" || Trim(Strip(s))
    ensures Trim(s) ==> Strip(s) == s
  {
    var l := LStrip(s);
    if Strip(s) != "" {
      assert Strip(s)[0] == l[0];
    }
  }

  function Join(parts: seq<string>, sep: string): string
  {
    if parts == [] then ""
    else if |parts| == 1 then parts[0]
    else Join(parts[..|parts| - 1], sep) + sep + parts[|parts| - 1]
  }

  // The characters that are not white space.
  function Ink(s: string): string
  {
    if s == "" then "" else (if Space(s[0]) then "" else [s[0]]) + Ink(s[1..])
  }

  function InkOfAll(parts: seq<string>): string
  {
    if parts == [] then "" else InkOfAll(parts[..|parts| - 1]) + Ink(parts[|parts| - 1])
  }

  lemma {:induction false} InkConcat(a: string, b: string)
    ensures Ink(a + b) == Ink(a) + Ink(b)
  {
    if a == "" {
      assert a + b == b;
    } else {
      assert (a + b)[1..] == a[1..] + b;
      InkConcat(a[1..], b);
    }
  }

  lemma {:induction false} NoInk(s: string)
    requires forall c <- s :: Space(c)
    ensures Ink(s) == ""
  {
    if s != "" {
      assert s[0] in s;
      NoInk(s[1..]);
    }
  }

  lemma {:induction false} LStripInk(s: string)
    ensures Ink(LStrip(s)) == Ink(s)
  {
    if s != "" && Space(s[0]) {
      LStripInk(s[1..]);
    }
  }

  lemma {:induction false} RStripInk(s: string)
    ensures Ink(RStrip(s)) == Ink(s)
  {
    if s != "" && Space(s[|s| - 1]) {
      var init := s[..|s| - 1];
      RStripInk(init);
      assert s == init + [s[|s| - 1]];
      InkConcat(init, [s[|s| - 1]]);
      assert Ink([s[|s| - 1]]) == "";
    }
  }

  lemma {:induction false} JoinInk(parts: seq<string>, sep: string)
    requires forall c <- sep :: Space(c)
    ensures Ink(Join(parts, sep)) == InkOfAll(parts)
  {
    if |parts| == 1 {
      assert parts[..0] == [];
    } else if |parts| > 1 {
      var init, last := parts[..|parts| - 1], parts[|parts| - 1];
      JoinInk(init, sep);
      InkConcat(Join(init, sep) + sep, last);
      InkConcat(Join(init, sep), sep);
      NoInk(sep);
    }
  }

  // ---- Lines and headers --------------------------------------------------------------

  predicate LineBreak(c: char)
  {
    var n := c as int;
    10 <= n <= 13 || 28 <= n <= 30 || n == 0x85 || n == 0x2028 || n == 0x2029
  }

  // str.splitlines: "\r\n" breaks once, and nothing follows a break at the very end.
  function SplitLines(s: string, line: string): seq<string>
  {
    if s == "" then (if line == "" then [] else [line])
    else if !LineBreak(s[0]) then SplitLines(s[1..], line + [s[0]])
    else if s[0] == '\r' && |s| > 1 && s[1] == '\n' then [line] + SplitLines(s[2..], "")
    else [line] + SplitLines(s[1..], "")
  }

  // A text is its first line, a break and the lines of the rest; a carriage return with a line feed is one break. What
  // follows the last break is a line only if there is anything.
  lemma LinesOf(first: string, br: string, rest: string)
    requires forall c <- first :: !LineBreak(c)
    requires (|br| == 1 && LineBreak(br[0]) && !(br == "\r" && rest != "" && rest[0] == '\n')) || br == "\r\n"
    ensures SplitLines(first + (br + rest), "") == [first] + SplitLines(rest, "")
    ensures SplitLines(first, "") == if first == "" then [] else [first]
  {
    RunOn(first, br + rest, "");
    RunOn(first, "", "");
    assert first + "" == first && "" + first == first;
    if |br| == 1 {
      assert (br + rest)[1..] == rest;
    } else {
      assert (br + rest)[2..] == rest;
    }
  }

  lemma {:induction false} RunOn(z: string, rest: string, line: string)
    requires forall c <- z :: !LineBreak(c)
    ensures SplitLines(z + rest, line) == SplitLines(rest, line + z)
  {
    if z == "" {
      assert z + rest == rest && line + z == line;
    } else {
      assert z[0] in z;
      assert (z + rest)[1..] == z[1..] + rest && (line + [z[0]]) + z[1..] == line + z;
      RunOn(z[1..], rest, line + [z[0]]);
    }
  }

  function Hashes(line: string): (n: nat)
    ensures n <= |line|
  {
    if line == "" || line[0] != '#' then 0 else 1 + Hashes(line[1..])
  }

  datatype Header = Header(level: nat, title: string)

  // One to six hashes, white space, and the rest.
  function ParseHeader(line: string): (h: Option<Header>)
    ensures h.Some? ==> 1 <= h.value.level <= 6
  {
    var n := Hashes(line);
    if 1 <= n <= 6 && n < |line| && Space(line[n]) then Some(Header(n, Strip(line[n..]))) else None
  }

  // A line is a heading of level n exactly when it starts with n hashes, one to six, and white space after them; what
  // follows is its title.
  lemma HeadingExactly(line: string, n: nat, title: string)
    ensures ParseHeader(line) == Some(Header(n, title)) <==>
            && 1 <= n <= 6 && n < |line| && (forall i | 0 <= i < n :: line[i] == '#') && Space(line[n])
            && title == Strip(line[n..])
  {
    if n < |line| && (forall i | 0 <= i < n :: line[i] == '#') && Space(line[n]) {
      HashesCount(line, n);
    }
    AllHashes(line);
  }

  lemma {:induction false} HashesCount(line: string, n: nat)
    requires n < |line| && (forall i | 0 <= i < n :: line[i] == '#') && line[n] != '#'
    ensures Hashes(line) == n
  {
    if n > 0 {
      HashesCount(line[1..], n - 1);
    }
  }

  lemma {:induction false} AllHashes(line: string)
    ensures forall i | 0 <= i < Hashes(line) :: line[i] == '#'
  {
    if line != "" && line[0] == '#' {
      AllHashes(line[1..]);
      forall i | 0 <= i < Hashes(line) ensures line[i] == '#' {
        if i > 0 { assert line[i] == line[1..][i - 1]; }
      }
    }
  }

  datatype Block = Block(section: Option<string>, text: string)

  // section_stack[level - 1 :] = [title]
  function Push(stack: seq<string>, h: Header): (r: seq<string>)
    requires h.level >= 1
    ensures r != [] && r[|r| - 1] == h.title && |r| <= h.level
  {
    (if h.level - 1 < |stack| then stack[..h.level - 1] else stack) + [h.title]
  }

  function Section(stack: seq<string>): Option<string>
  {
    var path := Join(stack, " > ");
    if path == "" then None else Some(path)
  }

  function Flushed(blocks: seq<Block>, stack: seq<string>, buffer: seq<string>): seq<Block>
  {
    var content := Strip(Join(buffer, "\n"));
    if content == "" then blocks else blocks + [Block(Section(stack), content)]
  }

  datatype Scan = Scan(blocks: seq<Block>, stack: seq<string>, buffer: seq<string>)

  function ScanLines(lines: seq<string>): Scan
  {
    if lines == [] then Scan([], [], [])
    else
      var s, line := ScanLines(lines[..|lines| - 1]), lines[|lines| - 1];
      var h := ParseHeader(line);
      if h.Some? then Scan(Flushed(s.blocks, s.stack, s.buffer), Push(s.stack, h.value), [])
      else s.(buffer := s.buffer + [line])
  }

  function BlocksBySection(text: string): seq<Block>
  {
    var s := ScanLines(SplitLines(text, ""));
    Flushed(s.blocks, s.stack, s.buffer)
  }

  method SplitIntoBlocks(text: string) returns (blocks: seq<Block>)
    ensures blocks == BlocksBySection(text)
  {
    hide ParseHeader, Flushed, Push, SplitLines;
    var lines := SplitLines(text, "");
    blocks := [];
    var stack: seq<string> := [];
    var buffer: seq<string> := [];
    for i := 0 to |lines|
      invariant Scan(blocks, stack, buffer) == ScanLines(lines[..i])
    {
      assert lines[..i + 1][..i] == lines[..i];
      var header := ParseHeader(lines[i]);
      if header.Some? {
        blocks := Flushed(blocks, stack, buffer);
        buffer := [];
        stack := Push(stack, header.value);
      } else {
        buffer := buffer + [lines[i]];
      }
    }
    assert lines[..|lines|] == lines;
    blocks := Flushed(blocks, stack, buffer);
  }

  // A document without headings is one block without a section, or none if it is blank.
  lemma PlainDocument(text: string)
    requires forall line <- SplitLines(text, "") :: ParseHeader(line).None?
    ensures var content := Strip(Join(SplitLines(text, ""), "\n"));
            BlocksBySection(text) == if content == "" then [] else [Block(None, content)]
  {
    hide ParseHeader, SplitLines, Strip;
    PlainScan(SplitLines(text, ""));
  }

  lemma {:induction false} PlainScan(lines: seq<string>)
    requires forall line <- lines :: ParseHeader(line).None?
    ensures ScanLines(lines) == Scan([], [], lines)
  {
    hide ParseHeader, Flushed;
    if lines != [] {
      var (init, last) := (lines[..|lines| - 1], lines[|lines| - 1]);
      assert lines == init + [last] && last in lines;
      forall line | line in init ensures line in lines {}
      PlainScan(init);
    }
  }

  // ---- Every word survives, in order --------------------------------------------------------

  function PlainLines(lines: seq<string>): seq<string>
  {
    if lines == [] then []
    else
      var rest, line := PlainLines(lines[..|lines| - 1]), lines[|lines| - 1];
      if ParseHeader(line).Some? then rest else rest + [line]
  }

  function Texts(blocks: seq<Block>): (r: seq<string>)
    ensures |r| == |blocks| && forall i | 0 <= i < |r| :: r[i] == blocks[i].text
  {
    seq(|blocks|, i requires 0 <= i < |blocks| => blocks[i].text)
  }

  predicate Trimmed(blocks: seq<Block>)
  {
    forall i | 0 <= i < |blocks| :: Trim(blocks[i].text)
  }

  lemma InkOfOneMore(parts: seq<string>, x: string)
    ensures InkOfAll(parts + [x]) == InkOfAll(parts) + Ink(x)
  {
    assert (parts + [x])[..|parts|] == parts;
  }

  lemma FlushKeeps(blocks: seq<Block>, stack: seq<string>, buffer: seq<string>)
    requires Trimmed(blocks)
    ensures Trimmed(Flushed(blocks, stack, buffer))
    ensures InkOfAll(Texts(Flushed(blocks, stack, buffer))) == InkOfAll(Texts(blocks)) + InkOfAll(buffer)
  {
    hide Ink, Strip;
    var joined := Join(buffer, "\n");
    StripTrims(joined);
    StripInk(joined);
    JoinInk(buffer, "\n");
    if Strip(joined) == "" {
      EmptyInk();
    } else {
      var after := Flushed(blocks, stack, buffer);
      assert Texts(after) == Texts(blocks) + [Strip(joined)];
      InkOfOneMore(Texts(blocks), Strip(joined));
    }
  }

  lemma EmptyInk()
    ensures Ink("") == ""
  {
  }

  lemma StripInk(s: string)
    ensures Ink(Strip(s)) == Ink(s)
  {
    LStripInk(s);
    RStripInk(LStrip(s));
  }

  lemma {:induction false} ScanKeeps(lines: seq<string>)
    ensures var s := ScanLines(lines);
            Trimmed(s.blocks) && InkOfAll(Texts(s.blocks)) + InkOfAll(s.buffer) == InkOfAll(PlainLines(lines))
  {
    hide ParseHeader, Flushed, Ink;
    if lines != [] {
      var init, line := lines[..|lines| - 1], lines[|lines| - 1];
      ScanKeeps(init);
      var s := ScanLines(init);
      if ParseHeader(line).Some? {
        FlushKeeps(s.blocks, s.stack, s.buffer);
        assert InkOfAll([]) == "";
      } else {
        InkOfOneMore(s.buffer, line);
        InkOfOneMore(PlainLines(init), line);
      }
    }
  }

  // No block is blank or padded, and the blocks hold exactly the words of the lines that are not headers, in order.
  lemma BlocksKeepEveryWord(text: string)
    ensures var blocks := BlocksBySection(text);
            Trimmed(blocks) && InkOfAll(Texts(blocks)) == InkOfAll(PlainLines(SplitLines(text, "")))
  {
    hide SplitLines, ScanLines, Flushed, PlainLines;
    var lines := SplitLines(text, "");
    var s := ScanLines(lines);
    ScanKeeps(lines);
    FlushKeeps(s.blocks, s.stack, s.buffer);
  }

  // ---- Packing ----------------------------------------------------------------------------

  const SEPARATOR: string := "\n\n"

  datatype Chunk = Chunk(content: string, section: Option<string>)

  datatype Packing = Packing(chunks: seq<Chunk>, text: string, section: Option<string>)

  // text[-n:], or nothing when n is 0.
  function Last(s: string, n: nat): (r: string)
    ensures |r| == (if n < |s| then n else |s|) && r == s[|s| - |r|..]
  {
    if n < |s| then s[|s| - n..] else s
  }

  function Add(p: Packing, b: Block, target: int, overlap: nat): Packing
  {
    var candidate := if p.text != "" then p.text + SEPARATOR + b.text else b.text;
    if |candidate| <= target || p.text == "" then Packing(p.chunks, candidate, b.section)
    else
      Packing(p.chunks + [Chunk(Strip(p.text), p.section)], Strip(Last(p.text, overlap) + SEPARATOR + b.text), b.section)
  }

  function Pack(blocks: seq<Block>, target: int, overlap: nat): Packing
  {
    if blocks == [] then Packing([], "", None)
    else Add(Pack(blocks[..|blocks| - 1], target, overlap), blocks[|blocks| - 1], target, overlap)
  }

  function ChunkBlocks(blocks: seq<Block>, target: int, overlap: nat): seq<Chunk>
  {
    var p := Pack(blocks, target, overlap);
    if Strip(p.text) == "" then p.chunks else p.chunks + [Chunk(Strip(p.text), p.section)]
  }

  method ChunkMarkdown(text: string, target: int, overlap: nat) returns (chunks: seq<Chunk>)
    ensures chunks == ChunkBlocks(BlocksBySection(text), target, overlap)
  {
    hide Strip, BlocksBySection;
    var blocks := SplitIntoBlocks(text);
    chunks := [];
    var section: Option<string> := None;
    var current := "";
    for i := 0 to |blocks|
      invariant Packing(chunks, current, section) == Pack(blocks[..i], target, overlap)
    {
      assert blocks[..i + 1][..i] == blocks[..i];
      var b := blocks[i];
      var candidate := if current != "" then current + SEPARATOR + b.text else b.text;
      if |candidate| <= target || current == "" {
        current := candidate;
      } else {
        chunks := chunks + [Chunk(Strip(current), section)];
        current := Strip(Last(current, overlap) + SEPARATOR + b.text);
      }
      section := b.section;
    }
    assert blocks[..|blocks|] == blocks;
    if Strip(current) != "" {
      chunks := chunks + [Chunk(Strip(current), section)];
    }
  }

  // ---- What the chunks are ---------------------------------------------------------------------

  lemma {:induction false} LStripDropsSpace(s: string)
    ensures forall i | 0 <= i < |s| - |LStrip(s)| :: Space(s[i])
  {
    if s != "" && Space(s[0]) {
      LStripDropsSpace(s[1..]);
      forall i | 0 < i < |s| - |LStrip(s)| ensures Space(s[i]) {
        assert s[i] == s[1..][i - 1];
      }
    }
  }

  // What a chunk carries over from the one before it: its last `overlap` characters, or all of it, from the first that is not
  // white space.
  function Lead(prev: string, overlap: nat): (r: string)
    ensures |r| <= overlap && |r| <= |prev| && r == prev[|prev| - |r|..] && (r == "" || !Space(r[0]))
    ensures forall i | 0 <= i < |prev| - |r| && |prev| - overlap <= i :: Space(prev[i])
  {
    var last := Last(prev, overlap);
    LStripDropsSpace(last);
    LStrip(last)
  }

  function Compose(lead: string, body: string): string
  {
    if lead == "" then body else lead + "\n\n" + body
  }

  // The blocks that went into one chunk.
  datatype Group = Group(blocks: seq<Block>, content: string, section: Option<string>)

  function Flatten(groups: seq<Group>): seq<Block>
  {
    if groups == [] then [] else Flatten(groups[..|groups| - 1]) + groups[|groups| - 1].blocks
  }

  // The content is what the chunk carries over from `prev`, then its own blocks joined; the section is the last block's.
  predicate Made(prev: string, g: Group, overlap: nat)
  {
    && g.blocks != [] && Trim(g.content)
    && g.content == Compose(Lead(prev, overlap), Join(Texts(g.blocks), "\n\n"))
    && g.section == g.blocks[|g.blocks| - 1].section
  }

  // The chunk could not have taken the next one's first block as well.
  predicate Full(g: Group, next: Group, target: int)
  {
    next.blocks != [] && |g.content| + 2 + |next.blocks[0].text| > target
  }

  function Before(groups: seq<Group>, i: nat): string
    requires i <= |groups|
  {
    if i == 0 then "" else groups[i - 1].content
  }

  // One group in its place.
  predicate Placed(groups: seq<Group>, i: nat, target: int, overlap: nat)
    requires i < |groups|
  {
    Made(Before(groups, i), groups[i], overlap) && (i > 0 ==> Full(groups[i - 1], groups[i], target))
  }

  predicate Chain(groups: seq<Group>, target: int, overlap: nat)
  {
    forall i | 0 <= i < |groups| :: Placed(groups, i, target, overlap)
  }

  predicate Match(chunks: seq<Chunk>, groups: seq<Group>)
  {
    |chunks| == |groups| && forall i | 0 <= i < |chunks| :: chunks[i] == Chunk(groups[i].content, groups[i].section)
  }

  lemma TrimsAround(a: string, b: string)
    requires Trim(a) && Trim(b)
    ensures Trim(a + SEPARATOR + b)
  {
  }

  // The strip after an overlap only removes white space the overlap starts with.
  lemma OverlapStrip(prev: string, b: string, overlap: nat)
    requires Trim(prev) && Trim(b)
    ensures Strip(Last(prev, overlap) + SEPARATOR + b) == Compose(Lead(prev, overlap), b)
    ensures Trim(Compose(Lead(prev, overlap), b))
  {
    hide Strip, LStrip;
    var o := Last(prev, overlap);
    if o == "" {
      SeparatorStrips(b);
      assert o + SEPARATOR + b == SEPARATOR + b;
      assert Lead(prev, overlap) == "";
    } else {
      assert o[|o| - 1] == prev[|prev| - 1];
      LeadStrips(o, b);
    }
  }

  lemma LeadStrips(o: string, b: string)
    requires o != "" && !Space(o[|o| - 1]) && Trim(b)
    ensures LStrip(o) != "" && Strip(o + SEPARATOR + b) == LStrip(o) + SEPARATOR + b
    ensures Trim(LStrip(o) + SEPARATOR + b)
  {
    hide LStrip, RStrip, Space, Trim;
    var lead := LStrip(o);
    LStripPrefix(o, SEPARATOR + b);
    LeadIsTrim(o);
    TrimsAround(lead, b);
    TrimmedStays(lead + SEPARATOR + b);
    Associate(o, b);
    Associate(lead, b);
  }

  lemma LeadIsTrim(o: string)
    requires o != "" && !Space(o[|o| - 1]) && LStrip(o) != ""
    ensures Trim(LStrip(o))
  {
    hide LStrip, Space;
    assert LStrip(o)[|LStrip(o)| - 1] == o[|o| - 1];
  }

  lemma Associate(a: string, b: string)
    ensures a + SEPARATOR + b == a + (SEPARATOR + b)
  {
  }

  lemma SeparatorStrips(b: string)
    requires Trim(b)
    ensures Strip(SEPARATOR + b) == b
  {
    assert (SEPARATOR + b)[1..] == "\n" + b;
    assert ("\n" + b)[1..] == b;
    assert LStrip("\n" + b) == b;
  }

  lemma TrimmedStays(s: string)
    requires Trim(s)
    ensures RStrip(s) == s
  {
  }

  lemma {:induction false} LStripPrefix(a: string, b: string)
    requires a != "" && !Space(a[|a| - 1])
    ensures LStrip(a) != "" && LStrip(a + b) == LStrip(a) + b
  {
    if Space(a[0]) {
      assert (a + b)[1..] == a[1..] + b;
      LStripPrefix(a[1..], b);
    }
  }

  lemma FlattenLast(groups: seq<Group>, g: Group)
    ensures Flatten(groups + [g]) == Flatten(groups) + g.blocks
  {
    assert (groups + [g])[..|groups|] == groups;
  }

  lemma JoinOneMore(parts: seq<string>, x: string)
    requires parts != []
    ensures Join(parts + [x], SEPARATOR) == Join(parts, SEPARATOR) + SEPARATOR + x
  {
    assert (parts + [x])[..|parts|] == parts;
  }

  lemma Regroup(a: string, b: string, c: string)
    ensures a + SEPARATOR + b + SEPARATOR + c == a + SEPARATOR + (b + SEPARATOR + c)
  {
  }

  // The block joins the open group.
  lemma Extends(prev: string, g: Group, overlap: nat, b: Block)
    requires Made(prev, g, overlap) && Trim(b.text)
    ensures Made(prev, Group(g.blocks + [b], g.content + SEPARATOR + b.text, b.section), overlap)
  {
    hide Lead, Join, Trim;
    assert Texts(g.blocks + [b]) == Texts(g.blocks) + [b.text];
    JoinOneMore(Texts(g.blocks), b.text);
    TrimsAround(g.content, b.text);
    Regroup(Lead(prev, overlap), Join(Texts(g.blocks), SEPARATOR), b.text);
  }

  // The block opens a group of its own.
  lemma Starts(prev: string, b: Block, overlap: nat, text: string)
    requires Trim(text) && text == Compose(Lead(prev, overlap), b.text)
    ensures Made(prev, Group([b], text, b.section), overlap)
  {
    assert Texts([b]) == [b.text];
  }

  lemma ChainAppend(groups: seq<Group>, g: Group, target: int, overlap: nat)
    requires Chain(groups, target, overlap) && Made(Before(groups, |groups|), g, overlap)
    requires groups != [] ==> Full(groups[|groups| - 1], g, target)
    ensures Chain(groups + [g], target, overlap)
  {
    hide Placed, Made, Full, Before;
    var all := groups + [g];
    assert all[..|groups|] == groups;
    PlacedLast(groups, g, target, overlap);
    forall i | 0 <= i < |all| ensures Placed(all, i, target, overlap) {
      if i < |groups| {
        PlacedPrefix(all, |groups|, i, target, overlap);
      }
    }
  }

  lemma PlacedLast(groups: seq<Group>, g: Group, target: int, overlap: nat)
    requires Made(Before(groups, |groups|), g, overlap) && (groups != [] ==> Full(groups[|groups| - 1], g, target))
    ensures Placed(groups + [g], |groups|, target, overlap)
  {
    hide Made, Full;
  }

  lemma PlacedPrefix(groups: seq<Group>, n: nat, i: nat, target: int, overlap: nat)
    requires i < n <= |groups|
    ensures Placed(groups[..n], i, target, overlap) <==> Placed(groups, i, target, overlap)
  {
    hide Made, Full;
  }

  lemma ChainPrefix(groups: seq<Group>, n: nat, target: int, overlap: nat)
    requires n <= |groups| && Chain(groups, target, overlap)
    ensures Chain(groups[..n], target, overlap)
  {
    hide Placed;
    forall i | 0 <= i < n ensures Placed(groups[..n], i, target, overlap) {
      PlacedPrefix(groups, n, i, target, overlap);
    }
  }

  // The last group is the one still open.
  predicate Packs(p: Packing, groups: seq<Group>, blocks: seq<Block>, target: int, overlap: nat)
  {
    && groups != [] && Flatten(groups) == blocks && Chain(groups, target, overlap)
    && Match(p.chunks + [Chunk(p.text, p.section)], groups)
  }

  lemma PackOne(b: Block, target: int, overlap: nat)
    ensures Pack([b], target, overlap) == Packing([], b.text, b.section)
  {
    assert [b][..0] == [];
  }

  lemma NoLead(overlap: nat)
    ensures Lead("", overlap) == ""
  {
  }

  lemma PackFirst(b: Block, target: int, overlap: nat)
    requires Trim(b.text)
    ensures Packs(Pack([b], target, overlap), [Group([b], b.text, b.section)], [b], target, overlap)
  {
    hide Trim, Pack, Made, Lead, Full, Flatten, Compose, Chain, Match, Texts, Join;
    var g := Group([b], b.text, b.section);
    PackOne(b, target, overlap);
    NoLead(overlap);
    ComposeNothing(b.text);
    Starts("", b, overlap, b.text);
    FlattenNothing();
    FlattenLast([], g);
    NoChain(target, overlap);
    ChainAppend([], g, target, overlap);
    assert [] + [g] == [g] && [] + [b] == [b];
    OneMatches(b, g);
  }

  lemma OneMatches(b: Block, g: Group)
    requires g == Group([b], b.text, b.section)
    ensures Match([] + [Chunk(b.text, b.section)], [g])
  {}

  lemma ComposeNothing(body: string)
    ensures Compose("", body) == body
  {}

  lemma NoChain(target: int, overlap: nat)
    ensures Chain([], target, overlap)
  {}

  lemma FlattenNothing()
    ensures Flatten([]) == []
  {
  }

  lemma PackJoins(p: Packing, groups: seq<Group>, init: seq<Block>, target: int, overlap: nat, b: Block) returns (groups': seq<Group>)
    requires Packs(p, groups, init, target, overlap) && Trim(b.text)
    ensures Packs(Packing(p.chunks, p.text + SEPARATOR + b.text, b.section), groups', init + [b], target, overlap)
  {
    hide Trim, Flatten, Full, Made, Chain;
    var m := |groups| - 1;
    var (rest, g) := (groups[..m], groups[m]);
    var g' := Group(g.blocks + [b], g.content + SEPARATOR + b.text, b.section);
    assert groups == rest + [g];
    MatchLast(p.chunks, Chunk(p.text, p.section), rest, g);
    LastPlaced(groups, target, overlap);
    Extends(Before(groups, m), g, overlap, b);
    ChainPrefix(groups, m, target, overlap);
    if m > 0 { FullStill(rest[m - 1], g, g', target, overlap, Before(groups, m)); }
    ChainAppend(rest, g', target, overlap);
    FlattenLast(rest, g);
    FlattenLast(rest, g');
    groups' := rest + [g'];
  }

  lemma LastPlaced(groups: seq<Group>, target: int, overlap: nat)
    requires groups != [] && Chain(groups, target, overlap)
    ensures var m := |groups| - 1;
            && Made(Before(groups, m), groups[m], overlap) && Before(groups[..m], m) == Before(groups, m)
            && (m > 0 ==> Full(groups[m - 1], groups[m], target))
  {
    hide Made, Full;
    assert Placed(groups, |groups| - 1, target, overlap);
  }

  lemma FullStill(before: Group, g: Group, g': Group, target: int, overlap: nat, prev: string)
    requires Full(before, g, target) && Made(prev, g, overlap) && |g'.blocks| > |g.blocks| && g'.blocks[..|g.blocks|] == g.blocks
    ensures Full(before, g', target)
  {
    assert g'.blocks[0] == g'.blocks[..|g.blocks|][0];
  }

  lemma MatchLast(chunks: seq<Chunk>, c: Chunk, rest: seq<Group>, g: Group)
    requires Match(chunks + [c], rest + [g])
    ensures Match(chunks, rest) && c == Chunk(g.content, g.section)
  {
    assert forall i | 0 <= i < |chunks| :: (chunks + [c])[i] == chunks[i] && (rest + [g])[i] == rest[i];
    assert (chunks + [c])[|chunks|] == c && (rest + [g])[|rest|] == g;
  }

  lemma PackOpens(p: Packing, groups: seq<Group>, init: seq<Block>, target: int, overlap: nat, b: Block, text: string)
      returns (groups': seq<Group>)
    requires Packs(p, groups, init, target, overlap) && Trim(b.text)
    requires |p.text + SEPARATOR + b.text| > target
    requires Trim(text) && text == Compose(Lead(p.text, overlap), b.text)
    ensures Packs(Packing(p.chunks + [Chunk(p.text, p.section)], text, b.section), groups', init + [b], target, overlap)
  {
    hide Trim, Flatten, Made, Lead, Chain;
    var g := Group([b], text, b.section);
    var m := |groups| - 1;
    assert groups == groups[..m] + [groups[m]];
    MatchLast(p.chunks, Chunk(p.text, p.section), groups[..m], groups[m]);
    Starts(p.text, b, overlap, text);
    ChainAppend(groups, g, target, overlap);
    FlattenLast(groups, g);
    groups' := groups + [g];
  }

  lemma PackIsTrim(p: Packing, groups: seq<Group>, blocks: seq<Block>, target: int, overlap: nat)
    requires Packs(p, groups, blocks, target, overlap)
    ensures Trim(p.text) && p.text != ""
  {
    var m := |groups| - 1;
    LastPlaced(groups, target, overlap);
    assert (p.chunks + [Chunk(p.text, p.section)])[m] == Chunk(p.text, p.section);
  }

  lemma {:induction false} PackGroups(blocks: seq<Block>, target: int, overlap: nat) returns (groups: seq<Group>)
    requires blocks != [] && Trimmed(blocks)
    ensures Packs(Pack(blocks, target, overlap), groups, blocks, target, overlap)
  {
    hide Strip, Lead, Trim, Packs;
    var n := |blocks| - 1;
    var init, b := blocks[..n], blocks[n];
    assert Trim(b.text);
    if n == 0 {
      PackFirst(b, target, overlap);
      groups := [Group([b], b.text, b.section)];
      assert blocks == [b];
      return;
    }
    groups := PackGroups(init, target, overlap);
    var p := Pack(init, target, overlap);
    assert init + [b] == blocks;
    PackIsTrim(p, groups, init, target, overlap);
    if |p.text + SEPARATOR + b.text| <= target {
      groups := PackJoins(p, groups, init, target, overlap, b);
    } else {
      StripTrims(p.text);
      OverlapStrip(p.text, b.text, overlap);
      groups := PackOpens(p, groups, init, target, overlap, b, Compose(Lead(p.text, overlap), b.text));
    }
  }

  // ---- Main results -------------------------------------------------------------------------------

  // Chunks are consecutive, non-empty groups of the blocks, none lost, repeated or moved, each with what it carries
  // over from the chunk before; and each is as full as the target lets it be.
  lemma ChunksAreGroups(text: string, target: int, overlap: nat) returns (groups: seq<Group>)
    ensures var blocks := BlocksBySection(text);
            && Flatten(groups) == blocks && Chain(groups, target, overlap)
            && Match(ChunkBlocks(blocks, target, overlap), groups)
  {
    hide BlocksBySection, Pack, Chain, Strip, Trim;
    var blocks := BlocksBySection(text);
    BlocksKeepEveryWord(text);
    if blocks == [] {
      groups := [];
      NothingPacked(target, overlap);
    } else {
      groups := PackGroups(blocks, target, overlap);
      var p := Pack(blocks, target, overlap);
      PackIsTrim(p, groups, blocks, target, overlap);
      StripTrims(p.text);
    }
  }

  lemma NothingPacked(target: int, overlap: nat)
    ensures ChunkBlocks([], target, overlap) == [] && Chain([], target, overlap)
  {
  }

  // The strip of a finished chunk never removes anything: what is stored is the text as it was packed.
  lemma FinalStripIsIdle(blocks: seq<Block>, target: int, overlap: nat)
    requires blocks != [] && Trimmed(blocks)
    ensures var p := Pack(blocks, target, overlap); Strip(p.text) == p.text && p.text != ""
  {
    hide Pack, Strip, Packs;
    var groups := PackGroups(blocks, target, overlap);
    PackIsTrim(Pack(blocks, target, overlap), groups, blocks, target, overlap);
    StripTrims(Pack(blocks, target, overlap).text);
  }

  predicate NoLonger(blocks: seq<Block>, longest: nat)
  {
    forall i | 0 <= i < |blocks| :: |blocks[i].text| <= longest
  }

  predicate Bounded(p: Packing, bound: int)
  {
    |p.text| <= bound && forall i | 0 <= i < |p.chunks| :: |p.chunks[i].content| <= bound
  }

  lemma StripShortens(s: string)
    ensures |Strip(s)| <= |s|
  {
  }

  // No chunk is longer than the target, or than the overlap and the longest block together, whichever is more.
  lemma {:induction false} ChunksAreBounded(blocks: seq<Block>, target: int, overlap: nat, longest: nat)
    requires NoLonger(blocks, longest)
    ensures Bounded(Pack(blocks, target, overlap), Max(target, overlap + |SEPARATOR| + longest))
    ensures forall c <- ChunkBlocks(blocks, target, overlap) :: |c.content| <= Max(target, overlap + |SEPARATOR| + longest)
  {
    hide Strip;
    var bound := Max(target, overlap + |SEPARATOR| + longest);
    if blocks != [] {
      var n := |blocks| - 1;
      ChunksAreBounded(blocks[..n], target, overlap, longest);
      var p := Pack(blocks[..n], target, overlap);
      StripShortens(p.text);
      StripShortens(Last(p.text, overlap) + SEPARATOR + blocks[n].text);
      assert |blocks[n].text| <= longest;
    }
    var p := Pack(blocks, target, overlap);
    StripShortens(p.text);
    forall c | c in ChunkBlocks(blocks, target, overlap) ensures |c.content| <= bound {
      if c in p.chunks {
        var i :| 0 <= i < |p.chunks| && p.chunks[i] == c;
      }
    }
  }
}
