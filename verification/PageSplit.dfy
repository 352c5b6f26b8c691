/** Splitting a rationale page into article files and putting it back together, as
    `migrate_rationale_split.py` does before it writes anything. */
module PageSplit {
  import opened Basics
  import opened Text

  // ----- headings outside fences -----

  datatype Fence = Outside | Inside(mark: char)

  /** The fence character of a line that opens or closes a fence. */
  function FenceMark(line: string): Option<char> {
    if StartsWith(line, "```", 0) then Some('`')
    else if StartsWith(line, "~~~", 0) then Some('~')
    else None
  }

  function NextFence(f: Fence, line: string): Fence {
    var m := FenceMark(line);
    if m.None? then f
    else if f.Outside? then Inside(m.value)
    else if StartsWith(Strip(line), [f.mark, f.mark, f.mark], 0) then Outside
    else f
  }

  datatype Head = Head(at: nat, level: nat, title: string)

  function HeadOf(i: nat, line: string): (h: Option<Head>)
    ensures h.Some? ==> h.value.at == i && 1 <= h.value.level <= 3
    ensures h.Some? ==> line == Hashes(h.value.level) + h.value.title
  {
    if StartsWith(line, "### ", 0) then Some(Head(i, 3, line[4..]))
    else if StartsWith(line, "## ", 0) then Some(Head(i, 2, line[3..]))
    else if StartsWith(line, "# ", 0) then Some(Head(i, 1, line[2..]))
    else None
  }

  function Hashes(level: nat): string {
    if level == 1 then "# " else if level == 2 then "## " else "### "
  }

  /** The headings from line `i` on, the fence being `f` there. */
  function Heads(ls: seq<string>, i: nat, f: Fence): (hs: seq<Head>)
    requires i <= |ls|
    ensures forall k :: 0 <= k < |hs| ==> i <= hs[k].at < |ls| && HeadOf(hs[k].at, ls[hs[k].at]) == Some(hs[k])
    ensures forall j, k :: 0 <= j < k < |hs| ==> hs[j].at < hs[k].at
    decreases |ls| - i
  {
    if i == |ls| then []
    else
      var rest := Heads(ls, i + 1, NextFence(f, ls[i]));
      if f.Outside? && FenceMark(ls[i]).None? && HeadOf(i, ls[i]).Some? then [HeadOf(i, ls[i]).value] + rest else rest
  }

  datatype Block = Block(level: nat, title: string, lines: seq<string>)

  predicate Ordered(ls: seq<string>, hs: seq<Head>) {
    && (forall k :: 0 <= k < |hs| ==> hs[k].at < |ls|)
    && (forall j, k :: 0 <= j < k < |hs| ==> hs[j].at < hs[k].at)
  }

  function NextAt(ls: seq<string>, hs: seq<Head>, k: nat): nat
    requires k < |hs|
  {
    if k + 1 < |hs| then hs[k + 1].at else |ls|
  }

  function BlocksFrom(ls: seq<string>, hs: seq<Head>, k: nat): seq<Block>
    requires Ordered(ls, hs) && k <= |hs|
    decreases |hs| - k
  {
    if k == |hs| then []
    else [Block(hs[k].level, hs[k].title, ls[hs[k].at..NextAt(ls, hs, k)])] + BlocksFrom(ls, hs, k + 1)
  }

  function Blocks(text: string): seq<Block> {
    var ls := Lines(text, '\n');
    BlocksFrom(ls, Heads(ls, 0, Outside), 0)
  }

  lemma HeadsStep(ls: seq<string>, i: nat, f: Fence)
    requires i < |ls|
    ensures Heads(ls, i, f) ==
      (if f.Outside? && FenceMark(ls[i]).None? && HeadOf(i, ls[i]).Some? then [HeadOf(i, ls[i]).value] else [])
      + Heads(ls, i + 1, NextFence(f, ls[i]))
  {
    hide FenceMark, NextFence, HeadOf;
  }

  lemma BlocksStep(ls: seq<string>, hs: seq<Head>, k: nat)
    requires Ordered(ls, hs) && k < |hs|
    ensures BlocksFrom(ls, hs, k) ==
      [Block(hs[k].level, hs[k].title, ls[hs[k].at..NextAt(ls, hs, k)])] + BlocksFrom(ls, hs, k + 1)
  {
  }

  lemma NoHeads(ls: seq<string>, f: Fence)
    ensures Heads(ls, |ls|, f) == []
  {
  }

  lemma NoBlocks(ls: seq<string>, hs: seq<Head>)
    requires Ordered(ls, hs)
    ensures BlocksFrom(ls, hs, |hs|) == []
  {
  }

  method FindHeads(ls: seq<string>) returns (heads: seq<Head>)
    ensures heads == Heads(ls, 0, Outside)
  {
    hide FenceMark, Strip, StartsWith, HeadOf, Heads;
    var inFence, mark := false, '`';
    heads := [];
    for i := 0 to |ls|
      invariant heads + Heads(ls, i, if inFence then Inside(mark) else Outside) == Heads(ls, 0, Outside)
    {
      ghost var f := if inFence then Inside(mark) else Outside;
      HeadsStep(ls, i, f);
      ghost var rest := Heads(ls, i + 1, NextFence(f, ls[i]));
      assert [] + rest == rest;
      var m := FenceMark(ls[i]);
      if m.Some? {
        if !inFence {
          inFence, mark := true, m.value;
        } else if StartsWith(Strip(ls[i]), [mark, mark, mark], 0) {
          inFence := false;
        }
        continue;
      }
      if inFence {
        continue;
      }
      var h := HeadOf(i, ls[i]);
      if h.Some? {
        Regroup(heads, [h.value], rest);
        heads := heads + [h.value];
      }
    }
    NoHeads(ls, if inFence then Inside(mark) else Outside);
  }

  method ParseBlocks(text: string) returns (blocks: seq<Block>)
    ensures blocks == Blocks(text)
  {
    hide Heads, BlocksFrom;
    var ls := Lines(text, '\n');
    var heads := FindHeads(ls);
    blocks := [];
    for k := 0 to |heads|
      invariant blocks + BlocksFrom(ls, heads, k) == BlocksFrom(ls, heads, 0)
    {
      BlocksStep(ls, heads, k);
      var next := if k + 1 < |heads| then heads[k + 1].at else |ls|;
      var b := Block(heads[k].level, heads[k].title, ls[heads[k].at..next]);
      Regroup(blocks, [b], BlocksFrom(ls, heads, k + 1));
      blocks := blocks + [b];
    }
    NoBlocks(ls, heads);
  }

  // ----- pages put together from blocks -----

  /** A line of text, or a fenced passage: its first line, its inside and its last line. */
  datatype Passage = TextLine(line: string) | Fenced(mark: char, first: string, inside: seq<string>, last: string)

  function PassageLines(x: Passage): seq<string> {
    match x
    case TextLine(line) => [line]
    case Fenced(_, first, inside, last) => [first] + inside + [last]
  }

  function BodyLines(xs: seq<Passage>): seq<string> {
    if xs == [] then [] else PassageLines(xs[0]) + BodyLines(xs[1..])
  }

  /** Three fence characters at the start of the line. */
  predicate Marked(line: string, mark: char) {
    |line| >= 3 && line[0] == mark && line[1] == mark && line[2] == mark
  }

  /** One to three hashes and a space. */
  predicate Heading(line: string, level: nat) {
    1 <= level <= 3 && |line| > level && line[level] == ' ' && forall k :: 0 <= k < level ==> line[k] == '#'
  }

  predicate PassageFits(x: Passage) {
    match x
    case TextLine(line) => !Marked(line, '`') && !Marked(line, '~') && forall level :: 1 <= level <= 3 ==>
      !Heading(line, level)
    case Fenced(mark, first, inside, last) =>
      && (mark == '`' || mark == '~') && Marked(first, mark) && Marked(last, mark)
      && forall k :: 0 <= k < |inside| ==> !Marked(inside[k], mark)
  }

  /** A heading and what stands under it. */
  datatype Piece = Piece(level: nat, heading: string, body: seq<Passage>)

  predicate PieceFits(x: Piece) {
    Heading(x.heading, x.level) && forall k :: 0 <= k < |x.body| ==> PassageFits(x.body[k])
  }

  function PieceBlock(x: Piece): Block
    requires PieceFits(x)
  {
    Block(x.level, x.heading[x.level + 1..], [x.heading] + BodyLines(x.body))
  }

  function PieceBlocks(xs: seq<Piece>): seq<Block>
    requires forall k :: 0 <= k < |xs| ==> PieceFits(xs[k])
  {
    if xs == [] then [] else [PieceBlock(xs[0])] + PieceBlocks(xs[1..])
  }

  function PageOf(xs: seq<Piece>): seq<string> {
    if xs == [] then [] else [xs[0].heading] + BodyLines(xs[0].body) + PageOf(xs[1..])
  }

  lemma FenceMarkIs(line: string)
    ensures FenceMark(line) == if Marked(line, '`') then Some('`') else if Marked(line, '~') then Some('~') else None
  {
    if |line| >= 3 {
      var u := line[0..3];
      assert u[0] == line[0] && u[1] == line[1] && u[2] == line[2];
      assert u == [line[0], line[1], line[2]];
    }
  }

  /** A fence is closed exactly by a line that begins with its own mark. */
  lemma FenceClosed(line: string, mark: char)
    requires mark == '`' || mark == '~'
    ensures NextFence(Inside(mark), line) == if Marked(line, mark) then Outside else Inside(mark)
  {
    FenceMarkIs(line);
    if FenceMark(line).Some? {
      hide Strip;
      var a, b := StripSplit(line);
      assert !IsSpace(line[0]) && !IsSpace(line[2]) && !IsSpace(line[1]);
      assert a == 0 && b >= 3;
      var u, v := Strip(line), [mark, mark, mark];
      assert u[0] == line[0] && u[1] == line[1] && u[2] == line[2];
      if StartsWith(u, v, 0) {
        assert u[0..3][0] == u[0];
      }
      assert u[0..3] == [u[0], u[1], u[2]];
    }
  }

  lemma HeadingStarts(line: string)
    ensures StartsWith(line, "# ", 0) <==> Heading(line, 1)
    ensures StartsWith(line, "## ", 0) <==> Heading(line, 2)
    ensures StartsWith(line, "### ", 0) <==> Heading(line, 3)
  {
    if |line| >= 2 {
      assert line[0..2] == [line[0], line[1]];
    }
    if |line| >= 3 {
      assert line[0..3] == [line[0], line[1], line[2]];
    }
    if |line| >= 4 {
      assert line[0..4] == [line[0], line[1], line[2], line[3]];
    }
  }

  lemma HeadIs(i: nat, line: string, level: nat)
    ensures Heading(line, level) ==> HeadOf(i, line) == Some(Head(i, level, line[level + 1..]))
    ensures (forall l: nat :: !Heading(line, l)) ==> HeadOf(i, line) == None
  {
    HeadingStarts(line);
  }

  /** The lines stand in `ls` from `i` on. */
  ghost predicate LinesAt(ls: seq<string>, i: nat, x: seq<string>) {
    i + |x| <= |ls| && ls[i..i + |x|] == x
  }

  lemma LinesAtSplit(ls: seq<string>, i: nat, x: seq<string>, y: seq<string>)
    requires LinesAt(ls, i, x + y)
    ensures LinesAt(ls, i, x) && LinesAt(ls, i + |x|, y)
  {
    var w := ls[i..i + |x + y|];
    assert w[..|x|] == x && w[|x|..] == y;
    assert w[..|x|] == ls[i..i + |x|];
    assert w[|x|..] == ls[i + |x|..i + |x| + |y|];
  }

  lemma LineIs(ls: seq<string>, i: nat, x: seq<string>, k: nat)
    requires LinesAt(ls, i, x) && k < |x|
    ensures i + k < |ls| && ls[i + k] == x[k]
  {
  }

  lemma {:induction false} InsideFence(ls: seq<string>, i: nat, j: nat, mark: char)
    requires i <= j <= |ls| && (mark == '`' || mark == '~') && forall k :: i <= k < j ==> !Marked(ls[k], mark)
    ensures Heads(ls, i, Inside(mark)) == Heads(ls, j, Inside(mark))
    decreases j - i
  {
    hide Marked, FenceMark, HeadOf, NextFence;
    if i < j {
      FenceClosed(ls[i], mark);
      HeadsStep(ls, i, Inside(mark));
      InsideFence(ls, i + 1, j, mark);
    }
  }

  /** No heading is found in a passage, and no fence is left open by it. */
  lemma PassageHeads(ls: seq<string>, i: nat, x: Passage)
    requires PassageFits(x) && LinesAt(ls, i, PassageLines(x))
    ensures i + |PassageLines(x)| <= |ls|
    ensures Heads(ls, i, Outside) == Heads(ls, i + |PassageLines(x)|, Outside)
  {
    hide Marked, FenceMark, HeadOf, NextFence, Heading, Heads, LinesAt;
    var p := PassageLines(x);
    LineIs(ls, i, p, |p| - 1);
    LineIs(ls, i, p, 0);
    HeadsStep(ls, i, Outside);
    FenceMarkIs(ls[i]);
    FenceOpens(ls[i]);
    match x
    case TextLine(line) =>
      NoHeading(line);
      HeadIs(i, line, 1);
    case Fenced(mark, first, inside, last) =>
      var e := i + |inside| + 1;
      OneMark(first, mark);
      forall k | i + 1 <= k < e ensures k < |ls| && !Marked(ls[k], mark) {
        LineIs(ls, i, p, k - i);
        assert p[k - i] == inside[k - i - 1];
      }
      assert ls[e] == last;
      InsideFence(ls, i + 1, e, mark);
      HeadsStep(ls, e, Inside(mark));
      FenceClosed(last, mark);
  }

  lemma NoHeading(line: string)
    requires forall level :: 1 <= level <= 3 ==> !Heading(line, level)
    ensures forall l: nat :: !Heading(line, l)
  {
  }

  lemma OneMark(line: string, mark: char)
    requires Marked(line, mark)
    ensures mark != '`' ==> !Marked(line, '`')
  {
  }

  lemma FenceOpens(line: string)
    ensures NextFence(Outside, line) == if FenceMark(line).Some? then Inside(FenceMark(line).value) else Outside
  {
    hide FenceMark;
  }

  lemma {:induction false} BodyHeads(ls: seq<string>, i: nat, xs: seq<Passage>)
    requires (forall k :: 0 <= k < |xs| ==> PassageFits(xs[k])) && LinesAt(ls, i, BodyLines(xs))
    ensures i + |BodyLines(xs)| <= |ls|
    ensures Heads(ls, i, Outside) == Heads(ls, i + |BodyLines(xs)|, Outside)
    decreases |xs|
  {
    hide PassageFits, Heads, PassageLines;
    if xs != [] {
      var p := PassageLines(xs[0]);
      LinesAtSplit(ls, i, p, BodyLines(xs[1..]));
      hide LinesAt;
      PassageHeads(ls, i, xs[0]);
      BodyHeads(ls, i + |p|, xs[1..]);
    }
  }

  function HeadsOf(xs: seq<Piece>, i: nat): seq<Head>
    requires forall k :: 0 <= k < |xs| ==> PieceFits(xs[k])
  {
    if xs == [] then []
    else
      assert PieceFits(xs[0]);
      [Head(i, xs[0].level, xs[0].heading[xs[0].level + 1..])] + HeadsOf(xs[1..], i + 1 + |BodyLines(xs[0].body)|)
  }

  lemma PieceHeads(ls: seq<string>, i: nat, x: Piece)
    requires PieceFits(x) && LinesAt(ls, i, [x.heading] + BodyLines(x.body))
    ensures i + 1 + |BodyLines(x.body)| <= |ls|
    ensures Heads(ls, i, Outside) == [Head(i, x.level, x.heading[x.level + 1..])]
      + Heads(ls, i + 1 + |BodyLines(x.body)|, Outside)
  {
    hide Marked, FenceMark, HeadOf, NextFence, Heads, LinesAt, PassageFits, BodyLines;
    LinesAtSplit(ls, i, [x.heading], BodyLines(x.body));
    LineIs(ls, i, [x.heading], 0);
    HeadsStep(ls, i, Outside);
    HeadIs(i, x.heading, x.level);
    HeadingOpensNothing(x.heading, x.level);
    FenceOpens(x.heading);
    BodyHeads(ls, i + 1, x.body);
    hide Heading;
  }

  lemma HeadingOpensNothing(line: string, level: nat)
    requires Heading(line, level)
    ensures FenceMark(line) == None
  {
    FenceMarkIs(line);
    assert line[0] == '#';
    hide FenceMark;
  }

  lemma {:induction false} PageHeads(ls: seq<string>, i: nat, xs: seq<Piece>)
    requires i <= |ls| && ls[i..] == PageOf(xs) && forall k :: 0 <= k < |xs| ==> PieceFits(xs[k])
    ensures Heads(ls, i, Outside) == HeadsOf(xs, i)
    decreases |xs|
  {
    hide Heads, PieceFits, BodyLines, PageOf, HeadsOf, LinesAt;
    if xs == [] {
      PageNothing();
      NoHeadsOf(i);
      assert i == |ls|;
      NoHeads(ls, Outside);
    } else {
      PageSplits(ls, i, xs);
      HeadsOfStep(xs, i);
      PieceHeads(ls, i, xs[0]);
      PageHeads(ls, i + 1 + |BodyLines(xs[0].body)|, xs[1..]);
    }
  }

  lemma PageSplits(ls: seq<string>, i: nat, xs: seq<Piece>)
    requires i <= |ls| && xs != [] && ls[i..] == PageOf(xs)
    ensures var u := [xs[0].heading] + BodyLines(xs[0].body); var e := i + 1 + |BodyLines(xs[0].body)|;
      LinesAt(ls, i, u) && e <= |ls| && ls[e..] == PageOf(xs[1..]) && ls[i..e] == u
  {
    hide BodyLines;
    var u, v := [xs[0].heading] + BodyLines(xs[0].body), PageOf(xs[1..]);
    var w := ls[i..];
    assert w == u + v && w[..|u|] == u && w[|u|..] == v;
    assert w[..|u|] == ls[i..i + |u|] && w[|u|..] == ls[i + |u|..];
  }

  lemma HeadsOfStep(xs: seq<Piece>, i: nat)
    requires xs != [] && forall k :: 0 <= k < |xs| ==> PieceFits(xs[k])
    ensures var hs := HeadsOf(xs, i); var rest := HeadsOf(xs[1..], i + 1 + |BodyLines(xs[0].body)|);
      && hs == [Head(i, xs[0].level, xs[0].heading[xs[0].level + 1..])] + rest
      && |hs| == 1 + |rest| && (xs[1..] != [] ==> rest != [] && rest[0].at == i + 1 + |BodyLines(xs[0].body)|)
      && (xs[1..] == [] ==> rest == [])
  {
    hide PieceFits, BodyLines;
  }

  lemma {:induction false} PageBlocks(ls: seq<string>, hs: seq<Head>, k: nat, i: nat, xs: seq<Piece>)
    requires Ordered(ls, hs) && k <= |hs| && i <= |ls| && ls[i..] == PageOf(xs)
    requires (forall j :: 0 <= j < |xs| ==> PieceFits(xs[j])) && hs[k..] == HeadsOf(xs, i)
    ensures BlocksFrom(ls, hs, k) == PieceBlocks(xs)
    decreases |xs|
  {
    hide PieceFits, BodyLines, HeadsOf, Ordered, PageOf, BlocksFrom;
    if xs == [] {
      NoHeadsOf(i);
      NoBlocks(ls, hs);
    } else {
      HeadsOfStep(xs, i);
      PageSplits(ls, i, xs);
      var e := i + 1 + |BodyLines(xs[0].body)|;
      var rest := HeadsOf(xs[1..], e);
      assert hs[k] == hs[k..][0] && hs[k + 1..] == rest by { assert hs[k + 1..] == hs[k..][1..]; }
      assert hs[k + 1..] != [] ==> hs[k + 1] == hs[k + 1..][0];
      if xs[1..] == [] {
        PageNothing();
        assert e == |ls|;
      }
      assert NextAt(ls, hs, k) == e;
      BlocksStep(ls, hs, k);
      PageBlocks(ls, hs, k + 1, e, xs[1..]);
    }
  }

  lemma NoHeadsOf(i: nat)
    ensures HeadsOf([], i) == []
  {
  }

  lemma PageNothing()
    ensures PageOf([]) == []
  {
  }

  /** A page put together from headings and what stands under them is parsed into just these: a line of
      hashes in a fence is no heading, and a fence is closed only by its own mark. */
  lemma PagePrintParse(xs: seq<Piece>)
    requires xs != [] && (forall k :: 0 <= k < |xs| ==> PieceFits(xs[k]))
    requires forall k :: 0 <= k < |PageOf(xs)| ==> '\n' !in PageOf(xs)[k]
    ensures Blocks(Join(PageOf(xs), '\n')) == PieceBlocks(xs)
  {
    hide PieceFits, PageOf, Heads, HeadsOf, Join, Lines, BodyLines;
    var ls := PageOf(xs);
    PageStarts(xs);
    LinesOfJoin(ls, '\n');
    assert ls[0..] == ls;
    PageHeads(ls, 0, xs);
    var hs := Heads(ls, 0, Outside);
    assert hs[0..] == hs;
    PageBlocks(ls, hs, 0, 0, xs);
  }

  lemma PageStarts(xs: seq<Piece>)
    requires xs != []
    ensures PageOf(xs) != []
  {
  }

  // ----- the plan -----

  function HasChildren(blocks: seq<Block>, j: nat): bool
    decreases |blocks| - j
  {
    if j >= |blocks| then false
    else if blocks[j].level == 2 then false
    else if blocks[j].level == 3 then true
    else HasChildren(blocks, j + 1)
  }

  method SectionHasChildren(blocks: seq<Block>, i: nat) returns (b: bool)
    requires i < |blocks|
    ensures b == HasChildren(blocks, i + 1)
  {
    for j := i + 1 to |blocks|
      invariant HasChildren(blocks, j) == HasChildren(blocks, i + 1)
    {
      if blocks[j].level == 2 {
        return false;
      }
      if blocks[j].level == 3 {
        return true;
      }
    }
    b := false;
  }

  /** The tables of titles, slugs, types and directions; an entry that is missing reads as empty. */
  datatype Tables = Tables(topic: string, topicTitle: string, sectionSlug: string -> string, flatType: string -> string,
                           slug: string -> string, direction: string -> (string, bool))

  datatype Emitted = Emitted(path: string, title: string, heading: string, body: seq<string>, typeName: string,
                             direction: string, overview: bool, inferred: bool, order: nat)

  predicate Blank(body: seq<string>) {
    forall k :: 0 <= k < |body| ==> Strip(body[k]) == []
  }

  /** A `##` heading with articles below it and no text of its own: regenerated, not emitted. */
  predicate Scaffold(blocks: seq<Block>, i: nat)
    requires i < |blocks| && blocks[i].lines != []
  {
    blocks[i].level == 2 && HasChildren(blocks, i + 1) && Blank(blocks[i].lines[1..])
  }

  function Prepend<T>(x: seq<T>, r: Option<seq<T>>): Option<seq<T>> {
    if r.None? then None else Some(x + r.value)
  }

  /** The file for block `i`; a missing section slug or article type is an assertion failure. */
  function EmitBlock(t: Tables, b: Block, current: Option<string>, order: nat): Option<Emitted>
    requires b.lines != []
  {
    if b.level == 2 then
      var slug := t.sectionSlug(b.title);
      if slug == [] then None
      else Some(Emitted(slug + ".md", b.title, b.lines[0], b.lines[1..], b.title, "\U{2014}", true, false, order))
    else
      var typeName := if current.Some? then current.value else t.flatType(b.title);
      if typeName == [] then None
      else
        var d := t.direction(b.title);
        Some(Emitted(t.slug(b.title) + ".md", b.title, b.lines[0], b.lines[1..], typeName, d.0, false, d.1, order))
  }

  predicate Shaped(blocks: seq<Block>) {
    forall k :: 0 <= k < |blocks| ==> blocks[k].lines != []
  }

  function PlanFrom(t: Tables, blocks: seq<Block>, i: nat, current: Option<string>, order: nat): Option<seq<Emitted>>
    requires Shaped(blocks) && i <= |blocks|
    decreases |blocks| - i
  {
    if i == |blocks| then Some([])
    else
      var b := blocks[i];
      var now := if b.level == 2 then Some(b.title) else current;
      if b.level == 1 || Scaffold(blocks, i) then PlanFrom(t, blocks, i + 1, now, order)
      else
        var em := EmitBlock(t, b, now, order + 1);
        if em.None? then None else Prepend([em.value], PlanFrom(t, blocks, i + 1, now, order + 1))
  }

  /** The body of the last level-1 block from `i` on. */
  function IntroFrom(blocks: seq<Block>, i: nat, intro: seq<string>): seq<string>
    requires Shaped(blocks) && i <= |blocks|
    decreases |blocks| - i
  {
    if i == |blocks| then intro
    else IntroFrom(blocks, i + 1, if blocks[i].level == 1 then blocks[i].lines[1..] else intro)
  }

  method AnyText(body: seq<string>) returns (any: bool)
    ensures any == !Blank(body)
  {
    hide Strip;
    for k := 0 to |body|
      invariant forall j :: 0 <= j < k ==> Strip(body[j]) == []
    {
      if Strip(body[k]) != [] {
        return true;
      }
    }
    any := false;
  }

  method BuildPlan(t: Tables, blocks: seq<Block>) returns (plan: Option<(seq<string>, seq<Emitted>)>)
    requires Shaped(blocks)
    ensures var ems := PlanFrom(t, blocks, 0, None, 0);
      plan == if ems.None? then None else Some((IntroFrom(blocks, 0, []), ems.value))
  {
    hide Blank, HasChildren, EmitBlock;
    var intro: seq<string> := [];
    var emitted: seq<Emitted> := [];
    var order := 0;
    var current: Option<string> := None;
    PrependNothing(PlanFrom(t, blocks, 0, None, 0));
    for i := 0 to |blocks|
      invariant IntroFrom(blocks, i, intro) == IntroFrom(blocks, 0, [])
      invariant Prepend(emitted, PlanFrom(t, blocks, i, current, order)) == PlanFrom(t, blocks, 0, None, 0)
    {
      var b := blocks[i];
      if b.level == 1 {
        intro := b.lines[1..];
        continue;
      }
      if b.level == 2 {
        current := Some(b.title);
        var children := SectionHasChildren(blocks, i);
        var any := AnyText(b.lines[1..]);
        if children && !any {
          continue;
        }
      }
      order := order + 1;
      var em := EmitBlock(t, b, current, order);
      if em.None? {
        return None;
      }
      PrependTwice(emitted, [em.value], PlanFrom(t, blocks, i + 1, current, order));
      emitted := emitted + [em.value];
    }
    assert emitted + [] == emitted;
    plan := Some((intro, emitted));
  }

  // ----- the plan, read off the blocks -----

  /** `s` is the section that block `k` stands under. */
  predicate Under(blocks: seq<Block>, s: nat, k: nat) {
    s < k <= |blocks| && blocks[s].level == 2 && forall m :: s < m < k ==> blocks[m].level != 2
  }

  /** An article stands under section `k`. */
  predicate HasArticle(blocks: seq<Block>, k: nat) {
    exists j :: k < j < |blocks| && blocks[j].level == 3 && forall m :: k < m < j ==> blocks[m].level != 2
  }

  /** A section or an article, unless it is a section with articles and no text of its own. */
  predicate Emits(blocks: seq<Block>, k: nat)
    requires k < |blocks| && blocks[k].lines != []
  {
    blocks[k].level != 1 && !(blocks[k].level == 2 && HasArticle(blocks, k) && Blank(blocks[k].lines[1..]))
  }

  /** An article has the type of its section's title; without a section, the one of the table. */
  ghost predicate ArticleType(t: Tables, blocks: seq<Block>, k: nat, name: string)
    requires k < |blocks|
  {
    || (exists s: nat :: Under(blocks, s, k) && name == blocks[s].title)
    || ((forall s: nat :: !Under(blocks, s, k)) && name == t.flatType(blocks[k].title))
  }

  ghost predicate EntryMissing(t: Tables, blocks: seq<Block>, k: nat)
    requires k < |blocks|
  {
    if blocks[k].level == 2 then t.sectionSlug(blocks[k].title) == [] else ArticleType(t, blocks, k, [])
  }

  /** The file for block `k`, at its place in the order. */
  ghost predicate Describes(t: Tables, blocks: seq<Block>, k: nat, order: nat, em: Emitted)
    requires k < |blocks| && blocks[k].lines != []
  {
    var b := blocks[k];
    && em.title == b.title && em.heading == b.lines[0] && em.body == b.lines[1..] && em.order == order
    && (em.overview <==> b.level == 2)
    && (b.level == 2 ==> em.path == t.sectionSlug(b.title) + ".md" && em.typeName == b.title)
    && (b.level == 2 ==> em.direction == "\U{2014}" && !em.inferred)
    && (b.level != 2 ==> em.path == t.slug(b.title) + ".md" && ArticleType(t, blocks, k, em.typeName))
    && (b.level != 2 ==> (em.direction, em.inferred) == t.direction(b.title))
  }

  lemma {:induction false} ChildrenAre(blocks: seq<Block>, k: nat, i: nat)
    requires k < i <= |blocks| && forall m :: k < m < i ==> blocks[m].level != 2 && blocks[m].level != 3
    ensures HasChildren(blocks, i) <==> HasArticle(blocks, k)
    decreases |blocks| - i
  {
    if i < |blocks| && blocks[i].level != 2 && blocks[i].level != 3 {
      ChildrenAre(blocks, k, i + 1);
    }
  }

  lemma EmitsIs(blocks: seq<Block>, k: nat)
    requires k < |blocks| && blocks[k].lines != []
    ensures Emits(blocks, k) <==> !(blocks[k].level == 1 || Scaffold(blocks, k))
  {
    hide Blank, HasChildren, HasArticle;
    ChildrenAre(blocks, k, k + 1);
  }

  /** The section the loop remembers when it comes to block `k`. */
  ghost predicate Remembers(blocks: seq<Block>, k: nat, current: Option<string>) {
    match current
    case None => forall s: nat :: !Under(blocks, s, k)
    case Some(title) => exists s: nat :: Under(blocks, s, k) && title == blocks[s].title
  }

  lemma RemembersNext(blocks: seq<Block>, k: nat, current: Option<string>)
    requires k < |blocks| && Remembers(blocks, k, current)
    ensures Remembers(blocks, k + 1, if blocks[k].level == 2 then Some(blocks[k].title) else current)
  {
    if blocks[k].level == 2 {
      assert Under(blocks, k, k + 1);
    } else {
      hide Under;
      if current.Some? {
        var s: nat :| Under(blocks, s, k) && current.value == blocks[s].title;
        UnderNext(blocks, s, k);
      } else {
        var next := k + 1;
        forall s: nat ensures !Under(blocks, s, next) {
          UnderNext(blocks, s, k);
        }
      }
    }
  }

  lemma UnderNext(blocks: seq<Block>, s: nat, k: nat)
    requires k < |blocks| && blocks[k].level != 2
    ensures Under(blocks, s, k + 1) <==> Under(blocks, s, k)
  {
    if Under(blocks, s, k + 1) {
      assert s != k;
    }
  }

  lemma OneSection(blocks: seq<Block>, k: nat, s: nat, r: nat)
    requires Under(blocks, s, k) && Under(blocks, r, k)
    ensures s == r
  {
  }

  lemma TypeRemembered(t: Tables, blocks: seq<Block>, k: nat, current: Option<string>, name: string)
    requires k < |blocks| && Remembers(blocks, k, current)
    ensures ArticleType(t, blocks, k, name) <==>
      name == if current.Some? then current.value else t.flatType(blocks[k].title)
  {
    hide Under;
    forall s: nat, r: nat | Under(blocks, s, k) && Under(blocks, r, k) ensures s == r {
      OneSection(blocks, k, s, r);
    }
  }

  /** What the loop emits for a block is its file, and fails when an entry is missing. */
  lemma EmittedDescribes(t: Tables, blocks: seq<Block>, k: nat, current: Option<string>, order: nat)
    requires k < |blocks| && blocks[k].lines != [] && Remembers(blocks, k, current)
    ensures var now := if blocks[k].level == 2 then Some(blocks[k].title) else current;
      var em := EmitBlock(t, blocks[k], now, order);
      && (em.None? <==> EntryMissing(t, blocks, k))
      && (em.Some? ==> Describes(t, blocks, k, order, em.value))
  {
    hide ArticleType, Remembers;
    var name := if current.Some? then current.value else t.flatType(blocks[k].title);
    TypeRemembered(t, blocks, k, current, name);
    TypeRemembered(t, blocks, k, current, []);
  }

  ghost predicate Listed(t: Tables, blocks: seq<Block>, i: nat, order: nat, ems: seq<Emitted>, at: seq<nat>)
    requires Shaped(blocks)
  {
    && |at| == |ems|
    && (forall j, k :: 0 <= j < k < |at| ==> at[j] < at[k])
    && (forall k: nat :: k in at <==> i <= k < |blocks| && Emits(blocks, k))
    && (forall j :: 0 <= j < |at| ==> at[j] < |blocks| && Describes(t, blocks, at[j], order + j + 1, ems[j]))
  }

  lemma ListedNext(t: Tables, blocks: seq<Block>, i: nat, order: nat, em: Emitted, ems: seq<Emitted>, at: seq<nat>)
    requires Shaped(blocks) && i < |blocks| && Emits(blocks, i) && Describes(t, blocks, i, order + 1, em)
    requires Listed(t, blocks, i + 1, order + 1, ems, at)
    ensures Listed(t, blocks, i, order, [em] + ems, [i] + at)
  {
    hide Emits, Describes;
    var now, all := [i] + at, [em] + ems;
    forall j | 0 <= j < |now|
      ensures now[j] < |blocks| && blocks[now[j]].lines != [] && Describes(t, blocks, now[j], order + j + 1, all[j])
    {
      if j > 0 {
        assert now[j] == at[j - 1] && all[j] == ems[j - 1] && order + j + 1 == order + 1 + (j - 1) + 1;
      }
    }
    forall j, k | 0 <= j < k < |now| ensures now[j] < now[k] {
      assert now[k] == at[k - 1] && at[k - 1] in at;
    }
    forall k: nat ensures k in now <==> i <= k < |blocks| && Emits(blocks, k) {
      assert k in now <==> k == i || k in at;
    }
  }

  lemma ListedSkip(t: Tables, blocks: seq<Block>, i: nat, order: nat, ems: seq<Emitted>, at: seq<nat>)
    requires Shaped(blocks) && i < |blocks| && !Emits(blocks, i) && Listed(t, blocks, i + 1, order, ems, at)
    ensures Listed(t, blocks, i, order, ems, at)
  {
    hide Emits, Describes;
  }

  ghost predicate SomeMissing(t: Tables, blocks: seq<Block>, i: nat)
    requires Shaped(blocks)
  {
    exists k :: i <= k < |blocks| && Emits(blocks, k) && EntryMissing(t, blocks, k)
  }

  lemma {:induction false} PlanFromIs(t: Tables, blocks: seq<Block>, i: nat, current: Option<string>, order: nat)
      returns (at: seq<nat>)
    requires Shaped(blocks) && i <= |blocks| && Remembers(blocks, i, current)
    ensures var plan := PlanFrom(t, blocks, i, current, order);
      && (plan.None? <==> SomeMissing(t, blocks, i))
      && (plan.Some? ==> Listed(t, blocks, i, order, plan.value, at))
    decreases |blocks| - i
  {
    hide Emits, EntryMissing, Describes, Remembers, Scaffold, EmitBlock;
    at := [];
    if i < |blocks| {
      hide Listed;
      var b := blocks[i];
      var now := if b.level == 2 then Some(b.title) else current;
      RemembersNext(blocks, i, current);
      EmitsIs(blocks, i);
      if Emits(blocks, i) {
        EmittedDescribes(t, blocks, i, current, order + 1);
        var em := EmitBlock(t, b, now, order + 1);
        at := PlanFromIs(t, blocks, i + 1, now, order + 1);
        var rest := PlanFrom(t, blocks, i + 1, now, order + 1);
        if em.Some? && rest.Some? {
          ListedNext(t, blocks, i, order, em.value, rest.value, at);
        }
        at := [i] + at;
      } else {
        at := PlanFromIs(t, blocks, i + 1, now, order);
        var rest := PlanFrom(t, blocks, i + 1, now, order);
        if rest.Some? {
          ListedSkip(t, blocks, i, order, rest.value, at);
        }
      }
    }
  }

  /** The plan has one file for every block that emits one, in their order and numbered from 1, with the
      metadata of the block and its section; it fails exactly when an entry is missing for one of them. */
  lemma PlanIs(t: Tables, blocks: seq<Block>) returns (at: seq<nat>)
    requires Shaped(blocks)
    ensures var plan := PlanFrom(t, blocks, 0, None, 0);
      && (plan.None? <==> SomeMissing(t, blocks, 0))
      && (plan.Some? ==> Listed(t, blocks, 0, 0, plan.value, at))
  {
    hide PlanFrom, Listed, SomeMissing;
    assert Remembers(blocks, 0, None);
    at := PlanFromIs(t, blocks, 0, None, 0);
  }

  // ----- the files -----

  const INTRO := "_intro.md"

  function NavLine(t: Tables): string {
    "[\U{2190} " + t.topicTitle + "](README.md) \U{b7} " + "[All rationale topics]" + "(../README.md)"
  }

  function MetaLine(t: Tables, em: Emitted): string {
    "<!-- rationale: topic=" + t.topic + " type=\"" + em.typeName + "\" direction=\"" + em.direction +
    "\" kind=" + (if em.overview then "overview" else "article") + " order=" + Decimal(em.order) +
    (if em.inferred then " direction-inferred=true" else "") + " -->"
  }

  function PageLines(t: Tables, em: Emitted): seq<string> {
    [NavLine(t), "", MetaLine(t, em), "", "# " + em.title] + em.body
  }

  function PageText(t: Tables, em: Emitted): string {
    Join(PageLines(t, em), '\n')
  }

  // ----- the metadata line read back -----

  /** The fields of `_META_RE` in scripts/generate_rationale_index.py; the order as it is written. */
  datatype Meta = Meta(topic: string, typeName: string, direction: string, kind: string, order: string, inferred: bool)

  /** What follows the literal text. */
  function Past(s: Option<string>, text: string): Option<string> {
    if s.Some? && StartsWith(s.value, text, 0) then Some(s.value[|text|..]) else None
  }

  /** `\s*` before a character that is no white space. */
  function Gap(s: Option<string>): Option<string> {
    if s.None? then None else Some(LStrip(s.value))
  }

  /** `\s+`. */
  function Space(s: Option<string>): Option<string> {
    if s.Some? && s.value != [] && IsSpace(s.value[0]) then Gap(s) else None
  }

  /** The longest prefix of characters of a kind, and what follows it. */
  function Taken(s: string, ok: char -> bool): nat {
    if s == [] || !ok(s[0]) then 0 else 1 + Taken(s[1..], ok)
  }

  lemma {:induction false} TakenWithin(s: string, ok: char -> bool)
    ensures Taken(s, ok) <= |s|
  {
    if s != [] && ok(s[0]) {
      TakenWithin(s[1..], ok);
    }
  }

  function Take(s: Option<string>, ok: char -> bool): Option<(string, string)> {
    if s.None? then None
    else
      TakenWithin(s.value, ok);
      Some((s.value[..Taken(s.value, ok)], s.value[Taken(s.value, ok)..]))
  }

  const NOT_SPACE: char -> bool := c => !IsSpace(c)
  const NOT_QUOTE: char -> bool := c => c != '"'
  const DIGIT: char -> bool := c => IsDigit(c)

  /** The regular expression, matched from the start of the line. Its `+` never gives a character back:
      what follows cannot begin with one. */
  function ReadMeta(line: string): Option<Meta> {
    var topic := Take(Past(Gap(Past(Gap(Past(Some(line), "<!--")), "rationale:")), "topic="), NOT_SPACE);
    if topic.None? || topic.value.0 == [] then None else
    var typeName := Take(Past(Space(Some(topic.value.1)), "type=\""), NOT_QUOTE);
    if typeName.None? then None else
    var direction := Take(Past(Space(Past(Some(typeName.value.1), "\"")), "direction=\""), NOT_QUOTE);
    if direction.None? then None else
    var kind := Take(Past(Space(Past(Some(direction.value.1), "\"")), "kind="), NOT_SPACE);
    if kind.None? || kind.value.0 == [] then None else
    var order := Take(Past(Space(Some(kind.value.1)), "order="), DIGIT);
    if order.None? || order.value.0 == [] then None else
    var rest := Past(Space(Some(order.value.1)), "direction-inferred=true");
    if Past(Gap(if rest.Some? then rest else Some(order.value.1)), "-->").None? then None
    else Some(Meta(topic.value.0, typeName.value.0, direction.value.0, kind.value.0, order.value.0, rest.Some?))
  }

  lemma PastText(text: string, rest: string)
    ensures Past(Some(text + rest), text) == Some(rest)
  {
    var s := text + rest;
    assert s[0..|text|] == text && s[|text|..] == rest;
  }

  lemma OneSpace(rest: string)
    requires rest != [] && !IsSpace(rest[0])
    ensures Space(Some(" " + rest)) == Some(rest) && Gap(Some(" " + rest)) == Some(rest)
    ensures Gap(Some(rest)) == Some(rest)
  {
    assert (" " + rest)[1..] == rest;
    assert LStrip(rest) == rest;
  }

  lemma {:induction false} TakesAll(x: string, rest: string, ok: char -> bool)
    requires (forall k :: 0 <= k < |x| ==> ok(x[k])) && (rest != [] ==> !ok(rest[0]))
    ensures Taken(x + rest, ok) == |x| && Take(Some(x + rest), ok) == Some((x, rest))
  {
    var s := x + rest;
    if x == [] {
      assert s == rest;
    } else {
      assert s[1..] == x[1..] + rest;
      TakesAll(x[1..], rest, ok);
    }
    assert s[..|x|] == x && s[|x|..] == rest;
  }

  /** What the pieces of the line are, from its end. */
  function MetaEnd(inferred: bool): string {
    if inferred then " direction-inferred=true -->" else " -->"
  }

  function KindName(overview: bool): string {
    if overview then "overview" else "article"
  }

  function OrderPart(em: Emitted): string {
    " order=" + (Decimal(em.order) + MetaEnd(em.inferred))
  }

  function KindPart(em: Emitted): string {
    "\" kind=" + (KindName(em.overview) + OrderPart(em))
  }

  function DirectionPart(em: Emitted): string {
    "\" direction=\"" + (em.direction + KindPart(em))
  }

  function TypePart(em: Emitted): string {
    " type=\"" + (em.typeName + DirectionPart(em))
  }

  lemma MetaParts(t: Tables, em: Emitted)
    ensures MetaLine(t, em) == "<!-- rationale: topic=" + (t.topic + TypePart(em))
  {
    hide Decimal;
    var p1 := "<!-- rationale: topic=" + t.topic;
    var p2 := p1 + " type=\"";
    var p3 := p2 + em.typeName;
    var p4 := p3 + "\" direction=\"";
    var p5 := p4 + em.direction;
    var p6 := p5 + "\" kind=";
    var p7 := p6 + KindName(em.overview);
    var p8 := p7 + " order=";
    var p9 := p8 + Decimal(em.order);
    var mark := if em.inferred then " direction-inferred=true" else "";
    var e := MetaEnd(em.inferred);
    assert mark + " -->" == e;
    Regroup(p9, mark, " -->");
    Regroup(p8, Decimal(em.order), e);
    Regroup(p7, " order=", Decimal(em.order) + e);
    Regroup(p6, KindName(em.overview), OrderPart(em));
    Regroup(p5, "\" kind=", KindName(em.overview) + OrderPart(em));
    Regroup(p4, em.direction, KindPart(em));
    Regroup(p3, "\" direction=\"", em.direction + KindPart(em));
    Regroup(p2, em.typeName, DirectionPart(em));
    Regroup(p1, " type=\"", em.typeName + DirectionPart(em));
    Regroup("<!-- rationale: topic=", t.topic, TypePart(em));
    assert MetaLine(t, em) == p9 + mark + " -->";
  }

  lemma TopicRead(topic: string, rest: string)
    requires topic != [] && (forall k :: 0 <= k < |topic| ==> !IsSpace(topic[k]))
    ensures var line := "<!-- rationale: topic=" + (topic + (" " + rest));
      Take(Past(Gap(Past(Gap(Past(Some(line), "<!--")), "rationale:")), "topic="), NOT_SPACE) ==
        Some((topic, " " + rest))
  {
    hide Past, Gap, Take;
    var u := "topic=" + (topic + (" " + rest));
    var v := "rationale:" + (" " + u);
    assert "<!-- rationale: topic=" + (topic + (" " + rest)) == "<!--" + (" " + v);
    PastText("<!--", " " + v);
    OneSpace(v);
    PastText("rationale:", " " + u);
    OneSpace(u);
    PastText("topic=", topic + (" " + rest));
    TakesAll(topic, " " + rest, NOT_SPACE);
  }

  /** A quoted field, read from the quote or the space before its name. */
  lemma QuotedRead(name: string, x: string, rest: string)
    requires name != [] && !IsSpace(name[0]) && '"' !in x
    ensures Take(Past(Space(Some(" " + (name + (x + ("\"" + rest))))), name), NOT_QUOTE) == Some((x, "\"" + rest))
  {
    hide Past, Space, Take;
    var u := x + ("\"" + rest);
    OneSpace(name + u);
    PastText(name, u);
    TakesAll(x, "\"" + rest, NOT_QUOTE);
  }

  lemma WordRead(name: string, x: string, rest: string, ok: char -> bool)
    requires name != [] && !IsSpace(name[0]) && (forall k :: 0 <= k < |x| ==> ok(x[k])) && !ok(' ')
    ensures Take(Past(Space(Some(" " + (name + (x + (" " + rest))))), name), ok) == Some((x, " " + rest))
  {
    hide Past, Space, Take;
    var u := x + (" " + rest);
    OneSpace(name + u);
    PastText(name, u);
    TakesAll(x, " " + rest, ok);
  }

  lemma EndRead(inferred: bool)
    ensures var rest := Past(Space(Some(MetaEnd(inferred))), "direction-inferred=true");
      && (rest.Some? <==> inferred)
      && Past(Gap(if rest.Some? then rest else Some(MetaEnd(inferred))), "-->").Some?
  {
    hide Space, Gap;
    if inferred {
      assert MetaEnd(true) == " " + ("direction-inferred=true" + " -->");
      OneSpace("direction-inferred=true" + " -->");
      PastText("direction-inferred=true", " -->");
    } else {
      assert MetaEnd(false) == " " + "-->";
    }
    OneSpace("-->");
    PastText("-->", "");
    assert "-->" + "" == "-->";
    assert " " + "-->" == " -->";
  }

  lemma KindIsWord(overview: bool)
    ensures var k := KindName(overview); k != [] && forall i :: 0 <= i < |k| ==> NOT_SPACE(k[i])
  {
  }

  /** The index generator reads from a page's metadata line the topic, type, direction, kind and order
      it was written with. */
  lemma MetaReadBack(t: Tables, em: Emitted)
    requires t.topic != [] && (forall k :: 0 <= k < |t.topic| ==> !IsSpace(t.topic[k]))
    requires '"' !in em.typeName && '"' !in em.direction
    ensures ReadMeta(MetaLine(t, em)) ==
      Some(Meta(t.topic, em.typeName, em.direction, KindName(em.overview), Decimal(em.order), em.inferred))
  {
    hide Past, Space, Gap, Take, Decimal, MetaLine, KindName, IsSpace;
    MetaParts(t, em);
    var e := MetaEnd(em.inferred);
    assert e == " " + e[1..];
    var o := "order=" + (Decimal(em.order) + e);
    var k := "kind=" + (KindName(em.overview) + (" " + o));
    var d := "direction=\"" + (em.direction + ("\"" + (" " + k)));
    var y := "type=\"" + (em.typeName + ("\"" + (" " + d)));
    assert OrderPart(em) == " " + o;
    assert KindPart(em) == "\"" + (" " + k);
    assert DirectionPart(em) == "\"" + (" " + d);
    assert TypePart(em) == " " + y;
    hide TypePart, DirectionPart, KindPart, OrderPart, MetaEnd;
    TopicRead(t.topic, y);
    NamesBegin();
    QuotedRead("type=\"", em.typeName, " " + d);
    PastText("\"", " " + d);
    QuotedRead("direction=\"", em.direction, " " + k);
    PastText("\"", " " + k);
    KindIsWord(em.overview);
    WordRead("kind=", KindName(em.overview), o, NOT_SPACE);
    WordRead("order=", Decimal(em.order), e[1..], DIGIT);
    EndRead(em.inferred);
  }

  lemma NamesBegin()
    ensures !IsSpace("type=\""[0]) && !IsSpace("direction=\""[0]) && !IsSpace("kind="[0]) && !IsSpace("order="[0])
    ensures !NOT_SPACE(' ') && !DIGIT(' ')
  {
  }

  predicate DistinctPaths(ems: seq<Emitted>) {
    forall j, k :: 0 <= j < k < |ems| ==> ems[j].path != ems[k].path
  }

  /** The intro partial first, then a page an emitted file; a path met twice stops the run. */
  method WritePages(t: Tables, intro: seq<string>, ems: seq<Emitted>) returns (files: Option<map<string, string>>)
    ensures files.Some? <==> DistinctPaths(ems)
    ensures files.Some? ==> Hold(t, ems, files.value)
    ensures files.Some? ==> INTRO in files.value
    ensures files.Some? && (forall k :: 0 <= k < |ems| ==> ems[k].path != INTRO) ==>
      files.value[INTRO] == Join(intro, '\n')
  {
    hide PageText, Join;
    var out := map[INTRO := Join(intro, '\n')];
    var seen: set<string> := {};
    for k := 0 to |ems|
      invariant forall p :: p in seen <==> exists j :: 0 <= j < k && ems[j].path == p
      invariant forall i, j :: 0 <= i < j < k ==> ems[i].path != ems[j].path
      invariant forall j :: 0 <= j < k ==> ems[j].path in out && out[ems[j].path] == PageText(t, ems[j])
      invariant INTRO in out
      invariant (forall j :: 0 <= j < k ==> ems[j].path != INTRO) ==> out[INTRO] == Join(intro, '\n')
    {
      if ems[k].path in seen {
        return None;
      }
      seen := seen + {ems[k].path};
      out := out[ems[k].path := PageText(t, ems[k])];
    }
    files := Some(out);
  }

  /** Every emitted file is there with its text. */
  predicate Hold(t: Tables, ems: seq<Emitted>, files: map<string, string>) {
    forall k :: 0 <= k < |ems| ==> ems[k].path in files && files[ems[k].path] == PageText(t, ems[k])
  }

  /** The lines after the first one equal to `marker`. */
  function After(ls: seq<string>, marker: string): Option<seq<string>> {
    if ls == [] then None else if ls[0] == marker then Some(ls[1..]) else After(ls[1..], marker)
  }

  method ExtractBody(page: string, title: string) returns (body: Option<seq<string>>)
    ensures body == After(Lines(page, '\n'), "# " + title)
  {
    var ls := Lines(page, '\n');
    var marker := "# " + title;
    for i := 0 to |ls|
      invariant After(ls[i..], marker) == After(ls, marker)
    {
      if ls[i] == marker {
        return Some(ls[i + 1..]);
      }
    }
    body := None;
  }

  // ----- reconstruction -----

  type Queues = map<string, seq<Emitted>>

  function Queue(q: Queues, heading: string): seq<Emitted> {
    if heading in q then q[heading] else []
  }

  function WithHeading(ems: seq<Emitted>, heading: string): seq<Emitted> {
    if ems == [] then []
    else (if ems[0].heading == heading then [ems[0]] else []) + WithHeading(ems[1..], heading)
  }

  ghost predicate Queued(q: Queues, ems: seq<Emitted>) {
    forall h :: Queue(q, h) == WithHeading(ems, h)
  }

  lemma {:induction false} WithHeadingSnoc(ems: seq<Emitted>, em: Emitted, h: string)
    ensures WithHeading(ems + [em], h) == WithHeading(ems, h) + (if em.heading == h then [em] else [])
  {
    if ems == [] {
      assert (ems + [em])[1..] == [];
    } else {
      WithHeadingSnoc(ems[1..], em, h);
      assert (ems + [em])[1..] == ems[1..] + [em];
    }
  }

  /** `by_heading`: each emitted file joins the queue of its heading. */
  function Grouped(ems: seq<Emitted>): Queues {
    if ems == [] then map[]
    else
      var em := ems[|ems| - 1];
      var q := Grouped(ems[..|ems| - 1]);
      q[em.heading := Queue(q, em.heading) + [em]]
  }

  lemma {:induction false} GroupedIsQueued(ems: seq<Emitted>)
    ensures Queued(Grouped(ems), ems)
  {
    if ems != [] {
      var em, before := ems[|ems| - 1], ems[..|ems| - 1];
      GroupedIsQueued(before);
      assert ems == before + [em];
      forall h ensures Queue(Grouped(ems), h) == WithHeading(ems, h) {
        WithHeadingSnoc(before, em, h);
        assert Queue(Grouped(before), h) == WithHeading(before, h);
      }
    }
  }

  method GroupByHeading(ems: seq<Emitted>) returns (q: Queues)
    ensures q == Grouped(ems)
  {
    q := map[];
    for k := 0 to |ems|
      invariant q == Grouped(ems[..k])
    {
      assert ems[..k + 1][..k] == ems[..k];
      q := q[ems[k].heading := Queue(q, ems[k].heading) + [ems[k]]];
    }
    assert ems[..|ems|] == ems;
  }

  /** The body `_reconstruct` finds for block `i`: the next file of its heading, opened and searched. */
  function Recover(q: Queues, files: map<string, string>, heading: string): Option<seq<string>> {
    var waiting := Queue(q, heading);
    if waiting == [] || waiting[0].path !in files then None
    else After(Lines(files[waiting[0].path], '\n'), "# " + waiting[0].title)
  }

  function Popped(q: Queues, heading: string): Queues
    requires Queue(q, heading) != []
  {
    q[heading := Queue(q, heading)[1..]]
  }

  function Rebuild(blocks: seq<Block>, i: nat, q: Queues, files: map<string, string>): Option<seq<string>>
    requires Shaped(blocks) && i <= |blocks|
    decreases |blocks| - i
  {
    if i == |blocks| then Some([])
    else
      var b := blocks[i];
      if b.level == 1 then
        if INTRO !in files then None
        else Prepend([b.lines[0]] + Lines(files[INTRO], '\n'), Rebuild(blocks, i + 1, q, files))
      else if Scaffold(blocks, i) then Prepend(b.lines, Rebuild(blocks, i + 1, q, files))
      else
        var body := Recover(q, files, b.lines[0]);
        if body.None? then None
        else Prepend([b.lines[0]] + body.value, Rebuild(blocks, i + 1, Popped(q, b.lines[0]), files))
  }

  method Reconstruct(blocks: seq<Block>, ems: seq<Emitted>, files: map<string, string>)
    returns (page: Option<string>)
    requires Shaped(blocks)
    ensures var r := Rebuild(blocks, 0, Grouped(ems), files);
      page == if r.None? then None else Some(Join(r.value, '\n'))
  {
    hide Lines, After, Blank, HasChildren, Grouped, Join;
    var q := GroupByHeading(ems);
    var out: seq<string> := [];
    PrependNothing(Rebuild(blocks, 0, q, files));
    for i := 0 to |blocks|
      invariant Prepend(out, Rebuild(blocks, i, q, files)) == Rebuild(blocks, 0, Grouped(ems), files)
    {
      var b := blocks[i];
      if b.level == 1 {
        if INTRO !in files {
          return None;
        }
        var intro := [b.lines[0]] + Lines(files[INTRO], '\n');
        PrependTwice(out, intro, Rebuild(blocks, i + 1, q, files));
        out := out + intro;
        continue;
      }
      var children := false;
      var any := true;
      if b.level == 2 {
        children := SectionHasChildren(blocks, i);
        any := AnyText(b.lines[1..]);
      }
      if children && !any {
        PrependTwice(out, b.lines, Rebuild(blocks, i + 1, q, files));
        out := out + b.lines;
        continue;
      }
      var waiting := Queue(q, b.lines[0]);
      if waiting == [] || waiting[0].path !in files {
        return None;
      }
      var body := ExtractBody(files[waiting[0].path], waiting[0].title);
      if body.None? {
        return None;
      }
      q := Popped(q, b.lines[0]);
      PrependTwice(out, [b.lines[0]] + body.value, Rebuild(blocks, i + 1, q, files));
      out := out + ([b.lines[0]] + body.value);
    }
    page := Some(Join(out, '\n'));
    assert out + [] == out;
  }

  lemma PrependNothing<T>(r: Option<seq<T>>)
    ensures Prepend([], r) == r
  {
    if r.Some? {
      assert [] + r.value == r.value;
    }
  }

  lemma PrependTwice<T>(x: seq<T>, y: seq<T>, r: Option<seq<T>>)
    ensures Prepend(x, Prepend(y, r)) == Prepend(x + y, r)
  {
    if r.Some? {
      Regroup(x, y, r.value);
    }
  }

  // ----- split then reconstruct -----

  predicate OneLine(s: string) {
    '\n' !in s
  }

  ghost predicate SingleLines(t: Tables) {
    && OneLine(t.topic) && OneLine(t.topicTitle)
    && forall s: string :: OneLine(t.flatType(s)) && OneLine(t.direction(s).0)
  }

  predicate AllOneLine(ls: seq<string>) {
    forall k :: 0 <= k < |ls| ==> OneLine(ls[k])
  }

  /** A block starts with its heading and holds whole lines. */
  predicate GoodBlock(b: Block) {
    && 1 <= b.level <= 3 && b.lines != [] && b.lines[0] == Hashes(b.level) + b.title
    && OneLine(b.title) && AllOneLine(b.lines)
  }

  predicate GoodBlocks(blocks: seq<Block>) {
    forall k :: 0 <= k < |blocks| ==> GoodBlock(blocks[k])
  }

  function Gather(blocks: seq<Block>): seq<string> {
    if blocks == [] then [] else blocks[0].lines + Gather(blocks[1..])
  }

  lemma BlockIsGood(ls: seq<string>, k: nat)
    requires AllOneLine(ls) && k < |Heads(ls, 0, Outside)|
    ensures var hs := Heads(ls, 0, Outside); GoodBlock(Block(hs[k].level, hs[k].title, ls[hs[k].at..NextAt(ls, hs, k)]))
  {
    hide Heads, HeadOf, OneLine;
    var hs := Heads(ls, 0, Outside);
    assert HeadOf(hs[k].at, ls[hs[k].at]) == Some(hs[k]);
    var lines := ls[hs[k].at..NextAt(ls, hs, k)];
    assert forall j :: 0 <= j < |lines| ==> lines[j] == ls[hs[k].at + j];
    TitleOneLine(lines[0], Hashes(hs[k].level), hs[k].title);
  }

  /** The blocks from the `k`-th heading on are well formed and hold the lines from there on. */
  ghost predicate Covers(ls: seq<string>, k: nat, blocks: seq<Block>) {
    var hs := Heads(ls, 0, Outside);
    GoodBlocks(blocks) && |blocks| == |hs| - k && Gather(blocks) == (if k < |hs| then ls[hs[k].at..] else [])
  }

  lemma CoversNext(ls: seq<string>, k: nat, b: Block, rest: seq<Block>)
    requires k < |Heads(ls, 0, Outside)| && GoodBlock(b) && Covers(ls, k + 1, rest)
    requires var hs := Heads(ls, 0, Outside); b.lines == ls[hs[k].at..NextAt(ls, hs, k)]
    ensures Covers(ls, k, [b] + rest)
  {
    hide Heads, GoodBlock;
    var hs := Heads(ls, 0, Outside);
    assert ([b] + rest)[1..] == rest;
    if k + 1 < |hs| {
      SliceConcat(ls, hs[k].at, hs[k + 1].at, |ls|);
    }
  }

  lemma {:induction false} BlocksAreGood(ls: seq<string>, k: nat)
    requires AllOneLine(ls)
    requires k <= |Heads(ls, 0, Outside)|
    ensures Covers(ls, k, BlocksFrom(ls, Heads(ls, 0, Outside), k))
    decreases |Heads(ls, 0, Outside)| - k
  {
    hide Heads, GoodBlock, BlocksFrom, AllOneLine;
    var hs := Heads(ls, 0, Outside);
    if k == |hs| {
      NoBlocks(ls, hs);
    } else {
      hide Covers;
      BlocksAreGood(ls, k + 1);
      BlocksStep(ls, hs, k);
      BlockIsGood(ls, k);
      var b := Block(hs[k].level, hs[k].title, ls[hs[k].at..NextAt(ls, hs, k)]);
      CoversNext(ls, k, b, BlocksFrom(ls, hs, k + 1));
    }
  }

  lemma TitleOneLine(line: string, p: string, title: string)
    requires OneLine(line) && line == p + title
    ensures OneLine(title)
  {
    assert forall k :: 0 <= k < |title| ==> title[k] == line[|p| + k];
  }

  // The page of an emitted file, searched for its title.

  lemma OneLineConcat(x: string, y: string)
    ensures OneLine(x) && OneLine(y) ==> OneLine(x + y)
  {
  }

  lemma DecimalOneLine(n: nat)
    ensures OneLine(Decimal(n))
  {
    assert forall k :: 0 <= k < |Decimal(n)| ==> IsDigit(Decimal(n)[k]);
  }

  lemma Concat3(x: string, y: string, z: string)
    requires OneLine(x) && OneLine(y) && OneLine(z)
    ensures OneLine(x + y + z)
  {
  }

  lemma MetaLiterals()
    ensures OneLine("<!-- rationale: topic=") && OneLine(" type=\"") && OneLine("\" direction=\"") &&
      OneLine("\" kind=")
  {
  }

  lemma KindLiterals()
    ensures OneLine("overview") && OneLine("article") && OneLine(" order=") && OneLine("") && OneLine(" -->")
  {
  }

  lemma InferredLiteral()
    ensures OneLine(" direction-inferred=true")
  {
  }

  lemma NavLiterals()
    ensures OneLine("[\U{2190} ") && OneLine("](README.md) \U{b7} ") && OneLine("[All rationale topics]") &&
      OneLine("(../README.md)")
  {
  }

  lemma HeaderOneLine(t: Tables, em: Emitted)
    requires SingleLines(t) && OneLine(em.typeName) && OneLine(em.direction)
    ensures OneLine(NavLine(t)) && OneLine(MetaLine(t, em))
  {
    hide Decimal, SingleLines, OneLine;
    TopicOneLine(t);
    DecimalOneLine(em.order);
    MetaLiterals();
    KindLiterals();
    InferredLiteral();
    NavLiterals();
    Concat3("[\U{2190} ", t.topicTitle, "](README.md) \U{b7} ");
    Concat3("[\U{2190} " + t.topicTitle + "](README.md) \U{b7} ", "[All rationale topics]", "(../README.md)");
    var m1 := "<!-- rationale: topic=" + t.topic + " type=\"";
    Concat3("<!-- rationale: topic=", t.topic, " type=\"");
    var m2 := m1 + em.typeName + "\" direction=\"";
    Concat3(m1, em.typeName, "\" direction=\"");
    var m3 := m2 + em.direction + "\" kind=";
    Concat3(m2, em.direction, "\" kind=");
    var kind := if em.overview then "overview" else "article";
    var m4 := m3 + kind + " order=";
    Concat3(m3, kind, " order=");
    var inferred := if em.inferred then " direction-inferred=true" else "";
    var m5 := m4 + Decimal(em.order) + inferred;
    Concat3(m4, Decimal(em.order), inferred);
    OneLineConcat(m5, " -->");
    assert MetaLine(t, em) == m5 + " -->";
  }

  lemma TopicOneLine(t: Tables)
    requires SingleLines(t)
    ensures OneLine(t.topic) && OneLine(t.topicTitle)
  {
  }

  predicate GoodPage(em: Emitted) {
    OneLine(em.title) && OneLine(em.typeName) && OneLine(em.direction) && AllOneLine(em.body)
  }

  lemma AfterSkips(a: string, b: string, c: string, d: string, marker: string, body: seq<string>)
    requires a != marker && b != marker && c != marker && d != marker
    ensures After([a, b, c, d, marker] + body, marker) == Some(body)
  {
    hide After;
    var ls := [a, b, c, d, marker] + body;
    AfterNext(ls, marker);
    AfterNext(ls[1..], marker);
    AfterNext(ls[2..], marker);
    AfterNext(ls[3..], marker);
    AfterNext(ls[4..], marker);
    assert ls[1..][1..] == ls[2..] && ls[2..][1..] == ls[3..] && ls[3..][1..] == ls[4..] && ls[4..][1..] == body;
  }

  lemma AfterNext(ls: seq<string>, marker: string)
    requires ls != []
    ensures After(ls, marker) == if ls[0] == marker then Some(ls[1..]) else After(ls[1..], marker)
  {
  }

  lemma BodyComesBack(t: Tables, em: Emitted)
    requires SingleLines(t) && GoodPage(em)
    ensures After(Lines(PageText(t, em), '\n'), "# " + em.title) == Some(em.body)
  {
    hide Decimal, SingleLines, Lines, Join, After;
    HeaderOneLine(t, em);
    var ls := PageLines(t, em);
    var marker := "# " + em.title;
    OneLineConcat("# ", em.title);
    assert AllOneLine(ls);
    LinesOfJoin(ls, '\n');
    assert NavLine(t)[0] == '[' && MetaLine(t, em)[0] == '<' && marker[0] == '#';
    AfterSkips(NavLine(t), "", MetaLine(t, em), "", marker, em.body);
  }

  lemma EmittedIsGood(t: Tables, b: Block, current: Option<string>, order: nat)
    requires SingleLines(t) && GoodBlock(b) && (current.Some? ==> OneLine(current.value))
    requires EmitBlock(t, b, current, order).Some?
    ensures var em := EmitBlock(t, b, current, order).value;
      GoodPage(em) && em.title == b.title && em.heading == b.lines[0] && em.body == b.lines[1..]
  {
    assert OneLine(t.flatType(b.title)) && OneLine(t.direction(b.title).0);
  }

  // The rebuilt lines.

  function Restored(blocks: seq<Block>, i: nat, intro: seq<string>): seq<string>
    requires Shaped(blocks) && i <= |blocks|
    decreases |blocks| - i
  {
    if i == |blocks| then []
    else
      var lines := if blocks[i].level == 1 then [blocks[i].lines[0]] + intro else blocks[i].lines;
      lines + Restored(blocks, i + 1, intro)
  }

  lemma PopQueue(q: Queues, ems: seq<Emitted>)
    requires ems != [] && Queued(q, ems)
    ensures Queue(q, ems[0].heading) != [] && Queue(q, ems[0].heading)[0] == ems[0]
    ensures Queued(Popped(q, ems[0].heading), ems[1..])
  {
    var h := ems[0].heading;
    assert Queue(q, h) == WithHeading(ems, h) == [ems[0]] + WithHeading(ems[1..], h);
    forall g ensures Queue(Popped(q, h), g) == WithHeading(ems[1..], g) {
      assert Queue(q, g) == WithHeading(ems, g);
    }
  }

  lemma RebuildEmitted(t: Tables, b: Block, q: Queues, files: map<string, string>, ems: seq<Emitted>,
                       current: Option<string>, order: nat)
    requires SingleLines(t) && GoodBlock(b) && (current.Some? ==> OneLine(current.value))
    requires ems != [] && EmitBlock(t, b, current, order) == Some(ems[0])
    requires Queued(q, ems) && Hold(t, ems, files)
    ensures Recover(q, files, b.lines[0]) == Some(b.lines[1..])
    ensures Queue(q, b.lines[0]) != [] && Queued(Popped(q, b.lines[0]), ems[1..]) && Hold(t, ems[1..], files)
  {
    hide PageText, After, Lines, Queued, GoodPage, Queue;
    EmittedIsGood(t, b, current, order);
    PopQueue(q, ems);
    BodyComesBack(t, ems[0]);
    assert ems[0].path in files && files[ems[0].path] == PageText(t, ems[0]);
    assert forall k :: 0 <= k < |ems[1..]| ==> ems[1..][k] == ems[k + 1];
  }

  /** Every file is found again: the reconstruction never fails, and each block gets its body back. */
  lemma {:induction false} RebuildIs(t: Tables, blocks: seq<Block>, i: nat, current: Option<string>, order: nat,
                                     q: Queues, files: map<string, string>, ems: seq<Emitted>)
    requires SingleLines(t) && GoodBlocks(blocks) && Shaped(blocks) && i <= |blocks| &&
      (current.Some? ==> OneLine(current.value))
    requires PlanFrom(t, blocks, i, current, order) == Some(ems)
    requires Queued(q, ems) && Hold(t, ems, files) && INTRO in files
    ensures Rebuild(blocks, i, q, files) == Some(Restored(blocks, i, Lines(files[INTRO], '\n')))
    decreases |blocks| - i
  {
    hide Lines, Queued, Hold, EmitBlock, SingleLines, HasChildren, Blank, Recover, Popped;
    if i < |blocks| {
      var b := blocks[i];
      assert GoodBlock(b);
      var now := if b.level == 2 then Some(b.title) else current;
      if b.level == 1 || Scaffold(blocks, i) {
        RebuildIs(t, blocks, i + 1, now, order, q, files, ems);
      } else {
        var rest := PlanFrom(t, blocks, i + 1, now, order + 1).value;
        assert ems[0] == EmitBlock(t, b, now, order + 1).value && ems[1..] == rest;
        RebuildEmitted(t, b, q, files, ems, now, order + 1);
        RebuildIs(t, blocks, i + 1, now, order + 1, Popped(q, b.lines[0]), files, rest);
        assert [b.lines[0]] + b.lines[1..] == b.lines;
      }
    }
  }

  predicate OneTitle(blocks: seq<Block>) {
    forall j, k :: 0 <= j < k < |blocks| && blocks[j].level == 1 ==> blocks[k].level != 1
  }

  lemma {:induction false} IntroIs(blocks: seq<Block>, i: nat, k: nat, intro: seq<string>)
    requires Shaped(blocks) && OneTitle(blocks) && i <= |blocks| && k < |blocks| && blocks[k].level == 1
    requires i > k ==> intro == blocks[k].lines[1..]
    ensures IntroFrom(blocks, i, intro) == blocks[k].lines[1..]
    decreases |blocks| - i
  {
    if i < |blocks| {
      IntroIs(blocks, i + 1, k, if blocks[i].level == 1 then blocks[i].lines[1..] else intro);
    }
  }

  lemma {:induction false} RestoredSame(blocks: seq<Block>, i: nat, intro: seq<string>)
    requires Shaped(blocks) && i <= |blocks|
    requires forall k :: i <= k < |blocks| && blocks[k].level == 1 ==> blocks[k].lines[1..] == intro
    ensures Restored(blocks, i, intro) == Gather(blocks[i..])
    decreases |blocks| - i
  {
    if i < |blocks| {
      RestoredSame(blocks, i + 1, intro);
      var rest := blocks[i..];
      assert rest[1..] == blocks[i + 1..];
      assert blocks[i].lines == [blocks[i].lines[0]] + blocks[i].lines[1..];
    }
  }

  lemma {:induction false} RestoredLonger(blocks: seq<Block>, i: nat, intro: seq<string>)
    requires Shaped(blocks) && i <= |blocks| && intro != []
    requires forall k :: i <= k < |blocks| && blocks[k].level == 1 ==> |blocks[k].lines| == 1
    ensures |Restored(blocks, i, intro)| >= |Gather(blocks[i..])|
    ensures (exists k :: i <= k < |blocks| && blocks[k].level == 1) ==>
      |Restored(blocks, i, intro)| > |Gather(blocks[i..])|
    decreases |blocks| - i
  {
    if i < |blocks| {
      RestoredLonger(blocks, i + 1, intro);
      var rest := blocks[i..];
      assert rest[1..] == blocks[i + 1..];
    }
  }

  lemma {:induction false} RestoredOneLine(blocks: seq<Block>, i: nat, intro: seq<string>)
    requires GoodBlocks(blocks) && Shaped(blocks) && i <= |blocks| && AllOneLine(intro)
    ensures AllOneLine(Restored(blocks, i, intro))
    decreases |blocks| - i
  {
    hide OneLine;
    if i < |blocks| {
      assert GoodBlock(blocks[i]);
      assert OneLine(blocks[i].lines[0]);
      RestoredOneLine(blocks, i + 1, intro);
    }
  }

  /** Every title has text under it, and it is the same text as under the last one. */
  predicate SameTitles(blocks: seq<Block>)
    requires Shaped(blocks)
  {
    forall k :: 0 <= k < |blocks| && blocks[k].level == 1 ==>
      |blocks[k].lines| > 1 && blocks[k].lines[1..] == IntroFrom(blocks, 0, [])
  }

  /** The page is put back exactly: it is empty or starts with a heading, and its titles have text under
      them, the same under each. */
  predicate Faithful(text: string)
    requires Shaped(Blocks(text))
  {
    var ls := Lines(text, '\n');
    var hs := Heads(ls, 0, Outside);
    if hs == [] then text == []
    else hs[0].at == 0 && SameTitles(Blocks(text))
  }

  predicate TwoTitles(blocks: seq<Block>) {
    forall i, j, k :: 0 <= i < j < k < |blocks| && blocks[i].level == 1 && blocks[j].level == 1 ==> blocks[k].level != 1
  }

  /** The text under the last title closes the fences it opens, or there are at most two titles. */
  predicate Settled(blocks: seq<Block>)
    requires Shaped(blocks)
  {
    TwoTitles(blocks) || Closed(IntroFrom(blocks, 0, []))
  }

  lemma SameJoin(xs: seq<string>, ys: seq<string>)
    requires xs != [] && ys != [] && AllOneLine(xs) && AllOneLine(ys)
    ensures Join(xs, '\n') == Join(ys, '\n') <==> xs == ys
  {
    hide Join, Lines;
    LinesOfJoin(xs, '\n');
    LinesOfJoin(ys, '\n');
  }

  lemma FirstHead(ls: seq<string>, k: nat)
    requires k < |Heads(ls, 0, Outside)| && ls[0] == ls[Heads(ls, 0, Outside)[k].at]
    ensures Heads(ls, 0, Outside)[0].at == 0
  {
    var h := Heads(ls, 0, Outside)[k];
    assert HeadOf(h.at, ls[h.at]) == Some(h);
    HeadIsNoFence(h.at, ls[h.at]);
    assert HeadOf(0, ls[0]).Some?;
  }

  lemma HeadIsNoFence(i: nat, line: string)
    requires HeadOf(i, line).Some?
    ensures FenceMark(line).None? && forall j: nat :: HeadOf(j, line).Some?
  {
    hide StartsWith, Hashes;
    var h := HeadOf(i, line).value;
    HashFirst(h.level, h.title);
    FenceFirst(line);
  }

  lemma HashFirst(level: nat, title: string)
    ensures (Hashes(level) + title)[0] == '#'
  {
  }

  lemma FenceFirst(line: string)
    ensures FenceMark(line).Some? ==> line != [] && line[0] in {'`', '~'}
  {
    if StartsWith(line, "```", 0) {
      assert line[..3][0] == line[0];
    }
    if StartsWith(line, "~~~", 0) {
      assert line[..3][0] == line[0];
    }
  }

  lemma TitleBody(blocks: seq<Block>, k: nat)
    requires GoodBlocks(blocks) && Shaped(blocks) && OneTitle(blocks) && k < |blocks| && blocks[k].level == 1
    ensures IntroFrom(blocks, 0, []) == blocks[k].lines[1..] && AllOneLine(blocks[k].lines[1..])
  {
    hide OneLine;
    IntroIs(blocks, 0, k, []);
    assert GoodBlock(blocks[k]);
    assert forall j :: 0 <= j < |blocks[k].lines[1..]| ==> blocks[k].lines[1..][j] == blocks[k].lines[j + 1];
  }

  // Fences: what a line is depends on the fence open before it.

  /** The fence open before line `n`. */
  function FenceTo(ls: seq<string>, n: nat): Fence
    requires n <= |ls|
  {
    if n == 0 then Outside else NextFence(FenceTo(ls, n - 1), ls[n - 1])
  }

  predicate Closed(ls: seq<string>) {
    FenceTo(ls, |ls|) == Outside
  }

  predicate HeadLine(line: string) {
    FenceMark(line).None? && HeadOf(0, line).Some?
  }

  predicate HeadAt(ls: seq<string>, i: nat)
    requires i < |ls|
  {
    FenceTo(ls, i) == Outside && HeadLine(ls[i])
  }

  lemma HeadAnywhere(i: nat, line: string)
    ensures HeadOf(i, line).Some? <==> HeadOf(0, line).Some?
  {
    hide StartsWith;
  }

  /** The headings are at the lines that are headings. */
  lemma {:induction false} HeadsAre(ls: seq<string>, i: nat)
    requires i <= |ls|
    ensures forall j :: i <= j < |ls| ==>
      (HeadAt(ls, j) <==> exists h :: h in Heads(ls, i, FenceTo(ls, i)) && h.at == j)
    decreases |ls| - i
  {
    hide FenceMark, HeadOf, NextFence, Heads;
    var f := FenceTo(ls, i);
    if i < |ls| {
      HeadsAre(ls, i + 1);
      HeadsStep(ls, i, f);
      HeadAnywhere(i, ls[i]);
      var rest := Heads(ls, i + 1, NextFence(f, ls[i]));
      assert FenceTo(ls, i + 1) == NextFence(f, ls[i]);
      assert Heads(ls, i, f) == if HeadAt(ls, i) then [HeadOf(i, ls[i]).value] + rest else rest;
      assert forall h :: h in rest ==> h.at >= i + 1;
    }
  }

  /** A stretch of lines that starts outside a fence has the fences of the page. */
  lemma {:induction false} FenceShift(ls: seq<string>, p: nat, q: nat, j: nat)
    requires p <= q <= |ls| && FenceTo(ls, p) == Outside && j <= q - p
    ensures FenceTo(ls[p..q], j) == FenceTo(ls, p + j)
  {
    hide NextFence;
    if j > 0 {
      FenceShift(ls, p, q, j - 1);
    }
  }

  lemma {:induction false} FencePrefix(xs: seq<string>, ys: seq<string>, j: nat)
    requires j <= |xs| && xs <= ys
    ensures FenceTo(ys, j) == FenceTo(xs, j)
  {
    hide NextFence;
    if j > 0 {
      FencePrefix(xs, ys, j - 1);
    }
  }

  /** The lines under a heading hold no other, and the fences they open are closed before the next one. */
  predicate TightBlock(b: Block, last: bool) {
    b.lines != [] && HeadLine(b.lines[0]) && NoHeadIn(b.lines[1..]) && (last || Closed(b.lines[1..]))
  }

  predicate NoHeadIn(ls: seq<string>) {
    forall i :: 0 <= i < |ls| ==> !HeadAt(ls, i)
  }

  predicate Tight(blocks: seq<Block>) {
    forall k :: 0 <= k < |blocks| ==> TightBlock(blocks[k], k + 1 == |blocks|)
  }

  lemma HeadIsAt(ls: seq<string>, k: nat)
    requires k < |Heads(ls, 0, Outside)|
    ensures HeadAt(ls, Heads(ls, 0, Outside)[k].at)
  {
    hide Heads, HeadOf, HeadLine;
    HeadsAre(ls, 0);
    assert Heads(ls, 0, Outside)[k] in Heads(ls, 0, Outside);
  }

  lemma NoHeadBetween(ls: seq<string>, k: nat, j: nat)
    requires var hs := Heads(ls, 0, Outside); k < |hs| && hs[k].at < j < NextAt(ls, hs, k)
    ensures !HeadAt(ls, j)
  {
    hide Heads, HeadOf, HeadAt;
    HeadsAre(ls, 0);
    var hs := Heads(ls, 0, Outside);
    assert forall i :: 0 <= i < |hs| ==> hs[i].at != j;
  }

  lemma AfterHead(ls: seq<string>, p: nat)
    requires p < |ls| && HeadAt(ls, p)
    ensures FenceTo(ls, p + 1) == Outside
  {
    hide FenceMark, HeadOf;
  }

  lemma BlockIsTight(ls: seq<string>, k: nat)
    requires k < |Heads(ls, 0, Outside)|
    ensures var hs := Heads(ls, 0, Outside);
      TightBlock(Block(hs[k].level, hs[k].title, ls[hs[k].at..NextAt(ls, hs, k)]), k + 1 == |hs|)
  {
    hide Heads, HeadLine, FenceTo;
    var hs := Heads(ls, 0, Outside);
    var p, q := hs[k].at, NextAt(ls, hs, k);
    HeadIsAt(ls, k);
    AfterHead(ls, p);
    var body := ls[p..q][1..];
    assert body == ls[p + 1..q];
    forall j | 0 <= j < |body| ensures !HeadAt(body, j) {
      FenceShift(ls, p + 1, q, j);
      NoHeadBetween(ls, k, p + 1 + j);
    }
    if k + 1 < |hs| {
      HeadIsAt(ls, k + 1);
      FenceShift(ls, p + 1, q, |body|);
    }
  }

  lemma {:induction false} BlockAt(ls: seq<string>, hs: seq<Head>, i: nat, k: nat)
    requires Ordered(ls, hs) && i <= k < |hs|
    ensures |BlocksFrom(ls, hs, i)| == |hs| - i
    ensures BlocksFrom(ls, hs, i)[k - i] == Block(hs[k].level, hs[k].title, ls[hs[k].at..NextAt(ls, hs, k)])
    decreases |hs| - i
  {
    if i < k {
      BlockAt(ls, hs, i + 1, k);
    } else if i + 1 < |hs| {
      BlockAt(ls, hs, i + 1, i + 1);
    }
  }

  lemma BlocksAreTight(ls: seq<string>)
    ensures Tight(BlocksFrom(ls, Heads(ls, 0, Outside), 0))
  {
    hide Heads, TightBlock, BlocksFrom;
    var hs := Heads(ls, 0, Outside);
    if hs == [] {
      NoBlocks(ls, hs);
    } else {
      BlockAt(ls, hs, 0, 0);
    }
    forall k | 0 <= k < |hs| ensures TightBlock(BlocksFrom(ls, hs, 0)[k], k + 1 == |hs|) {
      BlockAt(ls, hs, 0, k);
      BlockIsTight(ls, k);
    }
  }

  lemma HeadBehind(xs: seq<string>, ys: seq<string>)
    requires xs <= ys && |xs| < |ys| && Closed(xs) && HeadLine(ys[|xs|])
    ensures !NoHeadIn(ys)
  {
    hide HeadLine, FenceTo;
    FencePrefix(xs, ys, |xs|);
    assert HeadAt(ys, |xs|);
  }

  /** Lines without headings, closed, end where a heading follows. */
  lemma SameStretch(xs: seq<string>, ys: seq<string>, a: seq<string>, b: seq<string>)
    requires xs + a == ys + b && a != [] && b != [] && a[0] == b[0] && HeadLine(a[0])
    requires NoHeadIn(xs) && NoHeadIn(ys) && Closed(xs) && Closed(ys)
    ensures xs == ys && a == b
  {
    hide HeadLine, NoHeadIn, Closed;
    var s := xs + a;
    assert s[..|xs|] == xs && s[..|ys|] == ys && s[|xs|] == a[0] && s[|ys|] == b[0];
    if |xs| < |ys| {
      HeadBehind(xs, ys);
    } else if |ys| < |xs| {
      HeadBehind(ys, xs);
    } else {
      SplitEqual(xs, a, ys, b);
    }
  }

  /** Where the restored lines are the lines of the blocks, each title has the intro under it. */
  lemma {:induction false} SameBodies(blocks: seq<Block>, i: nat, intro: seq<string>)
    requires Shaped(blocks) && Tight(blocks) && i <= |blocks| && NoHeadIn(intro) && Closed(intro)
    requires Restored(blocks, i, intro) == Gather(blocks[i..])
    ensures forall k :: i <= k < |blocks| && blocks[k].level == 1 ==> blocks[k].lines[1..] == intro
    decreases |blocks| - i
  {
    hide NoHeadIn, Closed, HeadLine;
    if i < |blocks| {
      var b := blocks[i];
      assert TightBlock(b, i + 1 == |blocks|);
      var body := b.lines[1..];
      var r, g := Restored(blocks, i + 1, intro), Gather(blocks[i + 1..]);
      assert blocks[i..][1..] == blocks[i + 1..] && b.lines == [b.lines[0]] + body;
      assert Gather(blocks[i..]) == [b.lines[0]] + (body + g);
      var mine := if b.level == 1 then intro else body;
      assert Restored(blocks, i, intro) == [b.lines[0]] + (mine + r);
      SplitEqual([b.lines[0]], mine + r, [b.lines[0]], body + g);
      if i + 1 == |blocks| {
        assert mine + [] == mine && body + [] == body;
      } else {
        assert TightBlock(blocks[i + 1], i + 2 == |blocks|);
        NextStarts(blocks, i + 1, intro);
        SameStretch(mine, body, r, g);
        SameBodies(blocks, i + 1, intro);
      }
    }
  }

  lemma NextStarts(blocks: seq<Block>, i: nat, intro: seq<string>)
    requires Shaped(blocks) && i < |blocks|
    ensures var r, g := Restored(blocks, i, intro), Gather(blocks[i..]);
      r != [] && g != [] && r[0] == g[0] == blocks[i].lines[0]
  {
  }

  /** The intro is what stands under the last title. */
  lemma {:induction false} LastBody(blocks: seq<Block>, i: nat, intro: seq<string>)
    requires Shaped(blocks) && i <= |blocks|
    ensures (forall k :: i <= k < |blocks| ==> blocks[k].level != 1) ==> IntroFrom(blocks, i, intro) == intro
    ensures (exists k :: i <= k < |blocks| && blocks[k].level == 1) ==>
      exists k :: i <= k < |blocks| && blocks[k].level == 1 && IntroFrom(blocks, i, intro) == blocks[k].lines[1..]
    decreases |blocks| - i
  {
    if i < |blocks| {
      LastBody(blocks, i + 1, if blocks[i].level == 1 then blocks[i].lines[1..] else intro);
    }
  }

  lemma EmptyLine()
    ensures NoHeadIn([""]) && Closed([""])
  {
    assert FenceTo([""], 0) == Outside && FenceMark("").None?;
    assert FenceTo([""], 1) == NextFence(Outside, "");
  }

  lemma BodyOneLine(b: Block)
    requires GoodBlock(b)
    ensures AllOneLine(b.lines[1..])
  {
    hide OneLine;
    assert forall j :: 0 <= j < |b.lines[1..]| ==> b.lines[1..][j] == b.lines[j + 1];
  }

  /** With one title: its text comes back, unless it has none. */
  lemma OneRestored(blocks: seq<Block>, intro: seq<string>, k: nat)
    requires GoodBlocks(blocks) && Shaped(blocks) && OneTitle(blocks) && k < |blocks| && blocks[k].level == 1
    requires intro == Lines(Join(IntroFrom(blocks, 0, []), '\n'), '\n')
    ensures Restored(blocks, 0, intro) == Gather(blocks) <==> SameTitles(blocks)
  {
    hide Lines, Join, GoodBlocks, IntroFrom, Restored, Gather, OneLine;
    assert blocks[0..] == blocks;
    TitleBody(blocks, k);
    IntroLines(blocks[k].lines[1..]);
    if |blocks[k].lines| > 1 {
      RestoredSame(blocks, 0, intro);
    } else {
      RestoredLonger(blocks, 0, intro);
    }
  }

  /** With two: what stands under the last must be as long as what stands under the first. */
  lemma TwoRestored(blocks: seq<Block>, intro: seq<string>, j: nat, k: nat)
    requires GoodBlocks(blocks) && Shaped(blocks) && TwoTitles(blocks)
    requires j < k < |blocks| && blocks[j].level == 1 && blocks[k].level == 1 && |blocks[k].lines| > 1
    requires IntroFrom(blocks, 0, []) == blocks[k].lines[1..] == intro
    ensures Restored(blocks, 0, intro) == Gather(blocks) <==> SameTitles(blocks)
  {
    hide IntroFrom, Restored, Gather, GoodBlock;
    assert blocks[0..] == blocks;
    if Restored(blocks, 0, intro) == Gather(blocks) {
      RestoredFrom(blocks, 0, j, intro);
      RestoredSame(blocks, j + 1, intro);
      TitleAt(blocks, j, intro);
    }
    if SameTitles(blocks) {
      RestoredSame(blocks, 0, intro);
    }
  }

  lemma TitleAt(blocks: seq<Block>, j: nat, intro: seq<string>)
    requires Shaped(blocks) && j < |blocks| && blocks[j].level == 1
    requires Restored(blocks, j, intro) == Gather(blocks[j..])
    requires Restored(blocks, j + 1, intro) == Gather(blocks[j + 1..])
    ensures blocks[j].lines[1..] == intro
  {
    var b, r := blocks[j], Gather(blocks[j + 1..]);
    assert blocks[j..][1..] == blocks[j + 1..] && b.lines == [b.lines[0]] + b.lines[1..];
    assert ([b.lines[0]] + intro) + r == b.lines + r;
    SplitEqual([b.lines[0]] + intro, r, b.lines, r);
    assert ([b.lines[0]] + intro)[1..] == intro;
  }

  /** Up to the first title the restored lines are the lines of the blocks. */
  lemma {:induction false} RestoredFrom(blocks: seq<Block>, i: nat, j: nat, intro: seq<string>)
    requires Shaped(blocks) && i <= j < |blocks| && forall k :: i <= k < j ==> blocks[k].level != 1
    requires Restored(blocks, i, intro) == Gather(blocks[i..])
    ensures Restored(blocks, j, intro) == Gather(blocks[j..])
    decreases j - i
  {
    if i < j {
      var r, q := Restored(blocks, i + 1, intro), Gather(blocks[i + 1..]);
      assert blocks[i..][1..] == blocks[i + 1..];
      SplitEqual(blocks[i].lines, r, blocks[i].lines, q);
      RestoredFrom(blocks, i + 1, j, intro);
    }
  }

  /** With several: the text under the last comes back under each. */
  lemma AllRestored(blocks: seq<Block>, intro: seq<string>, k: nat)
    requires GoodBlocks(blocks) && Shaped(blocks) && Tight(blocks) && Closed(IntroFrom(blocks, 0, []))
    requires k < |blocks| && blocks[k].level == 1 && IntroFrom(blocks, 0, []) == blocks[k].lines[1..]
    requires intro == Lines(Join(IntroFrom(blocks, 0, []), '\n'), '\n')
    ensures Restored(blocks, 0, intro) == Gather(blocks) <==> SameTitles(blocks)
  {
    hide Lines, Join, IntroFrom, Restored, Gather, GoodBlock, Closed, NoHeadIn, HeadLine;
    assert blocks[0..] == blocks;
    assert GoodBlock(blocks[k]) && TightBlock(blocks[k], k + 1 == |blocks|);
    BodyOneLine(blocks[k]);
    IntroLines(blocks[k].lines[1..]);
    EmptyLine();
    if Restored(blocks, 0, intro) == Gather(blocks) {
      SameBodies(blocks, 0, intro);
    }
    if SameTitles(blocks) {
      RestoredSame(blocks, 0, intro);
    }
  }

  lemma OpenRestored(blocks: seq<Block>, intro: seq<string>)
    requires GoodBlocks(blocks) && Shaped(blocks) && TwoTitles(blocks) && !OneTitle(blocks)
    requires !Closed(IntroFrom(blocks, 0, [])) && intro == Lines(Join(IntroFrom(blocks, 0, []), '\n'), '\n')
    ensures Restored(blocks, 0, intro) == Gather(blocks) <==> SameTitles(blocks)
  {
    hide Lines, Join, IntroFrom, Restored, Gather, GoodBlock, FenceTo;
    var j, k :| 0 <= j < k < |blocks| && blocks[j].level == 1 && blocks[k].level == 1;
    LastTitle(blocks, 0, [], k);
    assert GoodBlock(blocks[k]);
    BodyOneLine(blocks[k]);
    IntroLines(blocks[k].lines[1..]);
    assert Closed([]) by { NoFence(); }
    TwoRestored(blocks, intro, j, k);
  }

  lemma NoFence()
    ensures Closed([])
  {
  }

  lemma {:induction false} LastTitle(blocks: seq<Block>, i: nat, intro: seq<string>, k: nat)
    requires Shaped(blocks) && i <= |blocks| && k < |blocks| && blocks[k].level == 1
    requires forall j :: k < j < |blocks| ==> blocks[j].level != 1
    requires i > k ==> intro == blocks[k].lines[1..]
    ensures IntroFrom(blocks, i, intro) == blocks[k].lines[1..]
    decreases |blocks| - i
  {
    if i < |blocks| {
      LastTitle(blocks, i + 1, if blocks[i].level == 1 then blocks[i].lines[1..] else intro, k);
    }
  }

  /** The restored lines are the lines of the blocks exactly when each title has the same text under it. */
  lemma RestoredBlocks(blocks: seq<Block>, intro: seq<string>)
    requires GoodBlocks(blocks) && Shaped(blocks) && Tight(blocks) && Settled(blocks)
    requires intro == Lines(Join(IntroFrom(blocks, 0, []), '\n'), '\n')
    ensures Restored(blocks, 0, intro) == Gather(blocks) <==> SameTitles(blocks)
  {
    hide Lines, Join, GoodBlocks, IntroFrom, Restored, Gather, OneLine, Tight, Closed;
    LastBody(blocks, 0, []);
    if k :| 0 <= k < |blocks| && blocks[k].level == 1 {
      if OneTitle(blocks) {
        OneRestored(blocks, intro, k);
      } else if Closed(IntroFrom(blocks, 0, [])) {
        var j :| 0 <= j < |blocks| && blocks[j].level == 1 && IntroFrom(blocks, 0, []) == blocks[j].lines[1..];
        AllRestored(blocks, intro, j);
      } else {
        OpenRestored(blocks, intro);
      }
    } else {
      assert blocks[0..] == blocks;
      RestoredSame(blocks, 0, intro);
    }
  }

  lemma RestoredStarts(blocks: seq<Block>, intro: seq<string>)
    requires Shaped(blocks) && blocks != []
    ensures Restored(blocks, 0, intro) != [] && Restored(blocks, 0, intro)[0] == blocks[0].lines[0]
  {
  }

  lemma FirstBlock(ls: seq<string>)
    requires Heads(ls, 0, Outside) != []
    ensures var hs := Heads(ls, 0, Outside); var blocks := BlocksFrom(ls, hs, 0);
      blocks != [] && ls[hs[0].at..] != [] && blocks[0].lines != [] && blocks[0].lines[0] == ls[hs[0].at]
  {
    hide Heads;
  }

  lemma RestoredIff(text: string, intro: seq<string>)
    requires GoodBlocks(Blocks(text)) && Shaped(Blocks(text)) && Settled(Blocks(text))
    requires intro == Lines(Join(IntroFrom(Blocks(text), 0, []), '\n'), '\n')
    ensures Join(Restored(Blocks(text), 0, intro), '\n') == text <==> Faithful(text)
  {
    hide Join, Lines, Heads, BlocksFrom, GoodBlocks, IntroFrom, Restored, Gather, OneLine, Settled, SameTitles, Tight;
    var ls := Lines(text, '\n');
    var hs := Heads(ls, 0, Outside);
    var blocks := Blocks(text);
    LinesOneLine(text);
    JoinOfLines(text, '\n');
    BlocksAreGood(ls, 0);
    if hs == [] {
      assert blocks == [];
      assert Restored(blocks, 0, intro) == [] && Join([], '\n') == [] by { NothingRestored(intro); }
    } else {
      BlocksAreTight(ls);
      RestoredBlocks(blocks, intro);
      FirstBlock(ls);
      RestoredStarts(blocks, intro);
      LinesOneLine(Join(IntroFrom(blocks, 0, []), '\n'));
      RestoredOneLine(blocks, 0, intro);
      SameJoin(Restored(blocks, 0, intro), ls);
      if Restored(blocks, 0, intro) == ls {
        FirstHead(ls, 0);
      }
      if hs[0].at == 0 {
        assert ls[0..] == ls;
      }
    }
  }

  lemma NothingRestored(intro: seq<string>)
    ensures Restored([], 0, intro) == [] && Join([], '\n') == []
  {
  }

  /** Splitting and reconstructing a page never fails, and gives the page back exactly when it is
      `Faithful`, unless three titles or more stand on it and the last leaves a fence open. */
  lemma RoundTripIff(t: Tables, text: string, ems: seq<Emitted>, files: map<string, string>)
    requires SingleLines(t) && Shaped(Blocks(text))
    requires PlanFrom(t, Blocks(text), 0, None, 0) == Some(ems)
    requires Hold(t, ems, files) && INTRO in files && files[INTRO] == Join(IntroFrom(Blocks(text), 0, []), '\n')
    ensures Rebuild(Blocks(text), 0, Grouped(ems), files).Some?
    ensures Settled(Blocks(text)) ==>
      (Join(Rebuild(Blocks(text), 0, Grouped(ems), files).value, '\n') == text <==> Faithful(text))
  {
    hide Join, Lines, Heads, BlocksFrom, PlanFrom, Rebuild, Hold, Queued, Grouped, Restored, Gather, GoodBlocks;
    hide OneLine, IntroFrom, SingleLines, SameTitles, Settled, Faithful;
    var ls := Lines(text, '\n');
    LinesOneLine(text);
    BlocksAreGood(ls, 0);
    var blocks := Blocks(text);
    GroupedIsQueued(ems);
    RebuildIs(t, blocks, 0, None, 0, Grouped(ems), files, ems);
    if Settled(blocks) {
      RestoredIff(text, Lines(files[INTRO], '\n'));
    }
  }

  /** Three titles; under the last a fence is opened and not closed. */
  const OPEN_PAGE: seq<string> := ["# a", "```", "# b", "# b", "```", "# b", "# c", "```", "# b"]

  lemma TitleLine(i: nat, c: char)
    ensures var line := "# " + [c];
      FenceMark(line).None? && HeadOf(i, line) == Some(Head(i, 1, [c])) && forall f :: NextFence(f, line) == f
  {
    var line := "# " + [c];
    assert line[0..2] == "# " && line[2..] == [c];
    FenceFirst(line);
    assert line[1] == ' ' && "## "[1] == '#' && |line| == 3;
  }

  lemma FenceLine()
    ensures FenceMark("```") == Some('`')
    ensures NextFence(Outside, "```") == Inside('`') && NextFence(Inside('`'), "```") == Outside
  {
    var line := "```";
    assert line[0..3] == line;
    StripFixed(line);
    assert StartsWith(line, ['`', '`', '`'], 0);
  }

  lemma TitleStep(ls: seq<string>, i: nat, c: char)
    requires i < |ls| && ls[i] == "# " + [c]
    ensures Heads(ls, i, Outside) == [Head(i, 1, [c])] + Heads(ls, i + 1, Outside)
    ensures Heads(ls, i, Inside('`')) == Heads(ls, i + 1, Inside('`'))
  {
    hide FenceMark, HeadOf, NextFence, Heads;
    TitleLine(i, c);
    HeadsStep(ls, i, Outside);
    HeadsStep(ls, i, Inside('`'));
    assert [] + Heads(ls, i + 1, Inside('`')) == Heads(ls, i + 1, Inside('`'));
  }

  lemma FenceStep(ls: seq<string>, i: nat)
    requires i < |ls| && ls[i] == "```"
    ensures Heads(ls, i, Outside) == Heads(ls, i + 1, Inside('`'))
    ensures Heads(ls, i, Inside('`')) == Heads(ls, i + 1, Outside)
  {
    hide FenceMark, HeadOf, NextFence, Heads;
    FenceLine();
    HeadsStep(ls, i, Outside);
    HeadsStep(ls, i, Inside('`'));
    assert [] + Heads(ls, i + 1, Inside('`')) == Heads(ls, i + 1, Inside('`'));
    assert [] + Heads(ls, i + 1, Outside) == Heads(ls, i + 1, Outside);
  }

  lemma OpenHeads()
    ensures Heads(OPEN_PAGE, 0, Outside) == [Head(0, 1, "a"), Head(5, 1, "b"), Head(6, 1, "c")]
  {
    hide Heads;
    var ls := OPEN_PAGE;
    TitleStep(ls, 0, 'a');
    FenceStep(ls, 1);
    TitleStep(ls, 2, 'b');
    TitleStep(ls, 3, 'b');
    FenceStep(ls, 4);
    OpenLast(ls);
  }

  lemma OpenLast(ls: seq<string>)
    requires ls == OPEN_PAGE
    ensures Heads(ls, 5, Outside) == [Head(5, 1, "b"), Head(6, 1, "c")]
  {
    hide Heads;
    TitleStep(ls, 5, 'b');
    TitleStep(ls, 6, 'c');
    FenceStep(ls, 7);
    TitleStep(ls, 8, 'b');
    NoHeads(ls, Inside('`'));
  }

  /** So more than two titles need the fence to be closed: this page comes back although its titles do not
      have the same text under them. */
  lemma OpenPageComesBack()
    ensures var text := Join(OPEN_PAGE, '\n');
      && Shaped(Blocks(text)) && !Faithful(text) && !Settled(Blocks(text))
      && Join(Restored(Blocks(text), 0, Lines(Join(IntroFrom(Blocks(text), 0, []), '\n'), '\n')), '\n') == text
  {
    hide Join, Lines, Heads, FenceTo, OneLine;
    var ls := OPEN_PAGE;
    var text := Join(ls, '\n');
    assert AllOneLine(ls) by { OpenLines(); }
    LinesOfJoin(ls, '\n');
    OpenHeads();
    var a, b, c := Block(1, "a", ls[0..5]), Block(1, "b", ls[5..6]), Block(1, "c", ls[6..9]);
    var hs := Heads(ls, 0, Outside);
    BlocksStep(ls, hs, 0);
    BlocksStep(ls, hs, 1);
    BlocksStep(ls, hs, 2);
    NoBlocks(ls, hs);
    var blocks := [a, b, c];
    assert Blocks(text) == blocks;
    var intro := ["```", "# b"];
    assert c.lines[1..] == intro;
    assert IntroFrom(blocks, 0, []) == intro by { OpenIntro(blocks); }
    assert AllOneLine(intro) by { assert intro[0] == ls[1] && intro[1] == ls[2]; }
    LinesOfJoin(intro, '\n');
    OpenRestores(blocks, intro);
    OpenFence();
    assert blocks[0].level == 1 && blocks[1].level == 1 && blocks[2].level == 1;
    assert !TwoTitles(blocks);
  }

  lemma OpenLines()
    ensures AllOneLine(OPEN_PAGE)
  {
  }

  lemma OpenIntro(blocks: seq<Block>)
    requires Shaped(blocks) && |blocks| == 3 && forall k :: 0 <= k < 3 ==> blocks[k].level == 1
    ensures IntroFrom(blocks, 0, []) == blocks[2].lines[1..]
  {
    LastTitle(blocks, 0, [], 2);
  }

  lemma OpenRestores(blocks: seq<Block>, intro: seq<string>)
    requires intro == ["```", "# b"]
    requires blocks == [Block(1, "a", OPEN_PAGE[0..5]), Block(1, "b", OPEN_PAGE[5..6]), Block(1, "c", OPEN_PAGE[6..9])]
    ensures Restored(blocks, 0, intro) == OPEN_PAGE
  {
    assert Restored(blocks, 3, intro) == [];
    assert Restored(blocks, 2, intro) == ["# c"] + intro;
    assert Restored(blocks, 1, intro) == ["# b"] + intro + ["# c"] + intro;
    assert Restored(blocks, 0, intro) == ["# a"] + intro + (["# b"] + intro + ["# c"] + intro);
  }

  lemma OpenFence()
    ensures !Closed(["```", "# b"])
  {
    hide NextFence;
    var ls := ["```", "# b"];
    FenceLine();
    TitleLine(1, 'b');
    assert "# " + ['b'] == "# b";
    assert FenceTo(ls, 0) == Outside;
    assert FenceTo(ls, 1) == NextFence(Outside, ls[0]);
    assert FenceTo(ls, 2) == NextFence(FenceTo(ls, 1), ls[1]);
  }

  lemma LinesOneLine(text: string)
    ensures AllOneLine(Lines(text, '\n'))
  {
  }

  /** What reading the intro partial back gives. */
  lemma IntroLines(intro: seq<string>)
    requires AllOneLine(intro)
    ensures Lines(Join(intro, '\n'), '\n') == if intro == [] then [""] else intro
  {
    if intro != [] {
      LinesOfJoin(intro, '\n');
    }
  }

  /** How the run over one page ends. */
  datatype Outcome = MissingEntry | DuplicateSlug | Unfound | Mismatch | Written(files: map<string, string>)

  lemma BlocksShaped(text: string)
    ensures GoodBlocks(Blocks(text)) && Shaped(Blocks(text))
  {
    hide Lines, Heads, BlocksFrom, GoodBlock, Gather, OneLine;
    LinesOneLine(text);
    BlocksAreGood(Lines(text, '\n'), 0);
    BlocksHaveLines(Blocks(text));
  }

  lemma BlocksHaveLines(blocks: seq<Block>)
    requires GoodBlocks(blocks)
    ensures Shaped(blocks)
  {
    forall k | 0 <= k < |blocks| ensures blocks[k].lines != [] {
      assert GoodBlock(blocks[k]);
    }
  }

  /** The tables cover the page, and no two files share a name. */
  ghost predicate Plannable(t: Tables, text: string)
    requires Shaped(Blocks(text))
  {
    var plan := PlanFrom(t, Blocks(text), 0, None, 0);
    && plan.Some? && DistinctPaths(plan.value)
    && forall k :: 0 <= k < |plan.value| ==> plan.value[k].path != INTRO
  }

  /** The run over one page up to the first write: plan, page texts, reconstruction, comparison.
      On a plannable page the reconstruction never fails, and the abort fires exactly when the page is not
      `Faithful`. */
  method SplitPage(t: Tables, text: string) returns (r: Outcome)
    requires SingleLines(t)
    ensures Shaped(Blocks(text))
    ensures r == MissingEntry <==> PlanFrom(t, Blocks(text), 0, None, 0).None?
    ensures r == DuplicateSlug <==>
      PlanFrom(t, Blocks(text), 0, None, 0).Some? && !DistinctPaths(PlanFrom(t, Blocks(text), 0, None, 0).value)
    ensures r.Written? ==> Hold(t, PlanFrom(t, Blocks(text), 0, None, 0).value, r.files)
    ensures Plannable(t, text) ==> r.Written? || r.Mismatch?
    ensures Plannable(t, text) && Settled(Blocks(text)) ==> (r.Written? <==> Faithful(text))
  {
    hide Blocks, PlanFrom, IntroFrom, Rebuild, Grouped, Hold, Join, Faithful, Settled, DistinctPaths;
    BlocksShaped(text);
    var blocks := ParseBlocks(text);
    var plan := BuildPlan(t, blocks);
    if plan.None? {
      return MissingEntry;
    }
    var (intro, ems) := plan.value;
    var files := WritePages(t, intro, ems);
    if files.None? {
      return DuplicateSlug;
    }
    var page := Reconstruct(blocks, ems, files.value);
    if forall k :: 0 <= k < |ems| ==> ems[k].path != INTRO {
      RoundTripIff(t, text, ems, files.value);
    }
    if page.None? {
      return Unfound;
    }
    if page.value != text {
      return Mismatch;
    }
    r := Written(files.value);
  }
}
