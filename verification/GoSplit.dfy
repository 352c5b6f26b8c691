/** `_split_on_toplevel_go` and `_split_tsql` of src/unique/core/batch_splitter.py: T-SQL batches, cut
    at GO lines outside comments and strings. */
module GoSplit {
  import opened Basics
  import opened Text

  function SkipBlanks(s: string, i: nat): (k: nat)
    requires i <= |s|
    ensures i <= k <= |s|
    ensures forall j :: i <= j < k ==> s[j] in " \t"
    ensures k < |s| ==> s[k] !in " \t"
    decreases |s| - i
  {
    if i < |s| && s[i] in " \t" then SkipBlanks(s, i + 1) else i
  }

  /** `[ \t]*GO[ \t]*(?:\r?\n|\Z)` matched at `i`: the end of the match, or -1. */
  function GoEnd(s: string, i: nat): (e: int)
    requires i <= |s|
    ensures e == -1 || i + 2 <= e <= |s|
  {
    var a := SkipBlanks(s, i);
    if a + 1 < |s| && Upper(s[a]) == 'G' && Upper(s[a + 1]) == 'O' then
      var b := SkipBlanks(s, a + 2);
      if b == |s| then b
      else if s[b] == '\n' then b + 1
      else if Two(s, b, '\r', '\n') then b + 2
      else -1
    else -1
  }

  // ----- the automaton -----

  /** What the next character is read as; a GO line is read up to its end. */
  datatype Mode = Code(lineStart: bool) | LineComment | BlockHead | Block | BlockTail | Str | StrTail | GoLine(end: nat)

  function CodeStep(s: string, i: nat, lineStart: bool): Mode
    requires i < |s|
  {
    if Two(s, i, '/', '*') then BlockHead
    else if Two(s, i, '-', '-') then LineComment
    else if s[i] == '\'' then Str
    else if lineStart && GoEnd(s, i) != -1 then GoLine(GoEnd(s, i))
    else Code(s[i] == '\n')
  }

  function Step(s: string, i: nat, m: Mode): Mode
    requires i < |s|
  {
    match m
    case Code(lineStart) => CodeStep(s, i, lineStart)
    case LineComment => if i + 1 < |s| && s[i + 1] != '\n' then LineComment else Code(false)
    case BlockHead => Block
    case Block => if Two(s, i, '*', '/') then BlockTail else Block
    case BlockTail => Code(false)
    case Str => if s[i] != '\'' then Str else if i + 1 < |s| && s[i + 1] == '\'' then StrTail else Code(false)
    case StrTail => Str
    case GoLine(end) => if i + 1 < end then m else Code(true)
  }

  function ModeAt(s: string, i: nat): Mode
    requires i <= |s|
  {
    if i == 0 then Code(true) else Step(s, i - 1, ModeAt(s, i - 1))
  }

  /** A GO line starts at `i`, in code. */
  predicate Cut(s: string, i: nat)
    requires i <= |s|
  {
    ModeAt(s, i) == Code(true) && GoEnd(s, i) != -1
  }

  /** The parts, as slices, for a part that starts at `start` and a scan that has come to `i`. */
  function Parts(s: string, start: nat, i: nat): (r: seq<(nat, nat)>)
    requires start <= i <= |s|
    ensures |r| > 0
    ensures forall k :: 0 <= k < |r| ==> r[k].0 <= r[k].1 <= |s|
    decreases |s| - i
  {
    if i == |s| then [(start, |s|)]
    else if Cut(s, i) then [(start, i)] + Parts(s, GoEnd(s, i), GoEnd(s, i))
    else Parts(s, start, i + 1)
  }

  function Slices(s: string, parts: seq<(nat, nat)>): (r: seq<string>)
    requires forall k :: 0 <= k < |parts| ==> parts[k].0 <= parts[k].1 <= |s|
    ensures |r| == |parts|
  {
    seq(|parts|, k requires 0 <= k < |parts| => s[parts[k].0..parts[k].1])
  }

  // ----- tiling -----

  /** The parts with the GO lines between them put back. */
  function Rejoined(s: string, parts: seq<(nat, nat)>): string
    requires forall k :: 0 <= k < |parts| ==> parts[k].0 <= parts[k].1 <= |s|
    requires forall k :: 0 <= k < |parts| - 1 ==> parts[k].1 <= parts[k + 1].0
  {
    if parts == [] then []
    else if |parts| == 1 then s[parts[0].0..parts[0].1]
    else s[parts[0].0..parts[0].1] + s[parts[0].1..parts[1].0] + Rejoined(s, parts[1..])
  }

  /** What stands between two parts is a GO line, found in code. */
  ghost predicate GoBetween(s: string, parts: seq<(nat, nat)>) {
    forall k :: 0 <= k < |parts| - 1 ==>
      parts[k].1 <= |s| && Cut(s, parts[k].1) && parts[k + 1].0 == GoEnd(s, parts[k].1)
  }

  lemma GoFirst(s: string, start: nat, i: nat, rest: seq<(nat, nat)>)
    requires i <= |s| && Cut(s, i) && rest != [] && rest[0].0 == GoEnd(s, i) && GoBetween(s, rest)
    ensures GoBetween(s, [(start, i)] + rest)
  {
    hide Cut, GoEnd;
    var p := [(start, i)] + rest;
    forall k | 0 <= k < |p| - 1
      ensures p[k].1 <= |s| && Cut(s, p[k].1) && p[k + 1].0 == GoEnd(s, p[k].1)
    {
      if k > 0 {
        assert p[k] == rest[k - 1] && p[k + 1] == rest[k];
      }
    }
  }

  lemma {:induction false} PartsTile(s: string, start: nat, i: nat)
    requires start <= i <= |s|
    ensures var p := Parts(s, start, i);
      GoBetween(s, p) && p[0].0 == start && p[|p| - 1].1 == |s|
    decreases |s| - i
  {
    hide Cut, GoBetween;
    if i < |s| && Cut(s, i) {
      var e := GoEnd(s, i);
      CutEnds(s, i);
      PartsTile(s, e, e);
      GoFirst(s, start, i, Parts(s, e, e));
    } else if i < |s| {
      PartsTile(s, start, i + 1);
    } else {
      NothingBetween(s, start);
    }
  }

  lemma CutEnds(s: string, i: nat)
    requires i < |s| && Cut(s, i)
    ensures i < GoEnd(s, i) <= |s|
  {
    hide ModeAt;
  }

  lemma NothingBetween(s: string, start: nat)
    ensures GoBetween(s, [(start, |s|)])
  {
  }

  lemma RejoinedOne(s: string, parts: seq<(nat, nat)>)
    requires |parts| == 1 && parts[0].0 <= parts[0].1 == |s|
    ensures Rejoined(s, parts) == s[parts[0].0..]
  {
  }

  lemma RejoinedStep(s: string, parts: seq<(nat, nat)>)
    requires |parts| > 1
    requires forall k :: 0 <= k < |parts| ==> parts[k].0 <= parts[k].1 <= |s|
    requires forall k :: 0 <= k < |parts| - 1 ==> parts[k].1 <= parts[k + 1].0
    ensures Rejoined(s, parts) == s[parts[0].0..parts[0].1] + s[parts[0].1..parts[1].0] + Rejoined(s, parts[1..])
  {
  }

  lemma {:induction false} RejoinedIs(s: string, parts: seq<(nat, nat)>)
    requires forall k :: 0 <= k < |parts| ==> parts[k].0 <= parts[k].1 <= |s|
    requires forall k :: 0 <= k < |parts| - 1 ==> parts[k].1 <= parts[k + 1].0
    requires parts != [] && parts[|parts| - 1].1 == |s|
    ensures Rejoined(s, parts) == s[parts[0].0..]
  {
    hide Rejoined;
    if |parts| == 1 {
      RejoinedOne(s, parts);
    } else {
      var rest := parts[1..];
      RejoinedIs(s, rest);
      assert rest[0] == parts[1] && rest[|rest| - 1] == parts[|parts| - 1];
      RejoinedStep(s, parts);
      SliceConcat(s, parts[0].0, parts[0].1, parts[1].0);
      SliceConcat(s, parts[0].0, parts[1].0, |s|);
    }
  }

  /** The parts and the GO lines, in turn, are the script. */
  lemma Tiling(s: string)
    ensures var p := Parts(s, 0, 0);
      GoBetween(s, p) && (forall k :: 0 <= k < |p| - 1 ==> p[k].1 <= p[k + 1].0) && Rejoined(s, p) == s
  {
    PartsTile(s, 0, 0);
    var p := Parts(s, 0, 0);
    forall k | 0 <= k < |p| - 1 ensures p[k].1 <= p[k + 1].0 {
      assert Cut(s, p[k].1);
    }
    RejoinedIs(s, p);
    hide Parts, Cut;
  }

  // ----- the loop -----

  /** From `i` the automaton comes to `j` without a cut, and is there in code. */
  ghost predicate Passes(s: string, i: nat, j: nat, lineStart: bool) {
    i <= j <= |s| && (j < |s| ==> ModeAt(s, j) == Code(lineStart)) && forall k :: i <= k < j ==> !Cut(s, k)
  }

  lemma NextMode(s: string, i: nat)
    requires i < |s|
    ensures ModeAt(s, i + 1) == Step(s, i, ModeAt(s, i))
  {
  }

  lemma {:induction false} LineRun(s: string, i: nat, k: nat)
    requires i < k <= |s| && ModeAt(s, i).Code? && Two(s, i, '-', '-')
    requires forall j :: i <= j < k ==> s[j] != '\n'
    ensures ModeAt(s, k) == if k < |s| && s[k] != '\n' then LineComment else Code(false)
    ensures forall j :: i < j < k ==> ModeAt(s, j) == LineComment
    decreases k
  {
    NextMode(s, k - 1);
    if k > i + 1 {
      LineRun(s, i, k - 1);
    }
    hide ModeAt, GoEnd;
  }

  lemma NoGoAt(s: string, i: nat)
    requires i < |s| && s[i] in "-/'"
    ensures GoEnd(s, i) == -1
  {
    assert SkipBlanks(s, i) == i;
  }

  lemma SkipLineComment(s: string, i: nat, nl: int)
    requires i < |s| && ModeAt(s, i).Code? && Two(s, i, '-', '-') && nl == FindChar(s, '\n', i + 2)
    ensures Passes(s, i, if nl == -1 then |s| else nl, false)
  {
    LineRun(s, i, if nl == -1 then |s| else nl);
    NoGoAt(s, i);
    hide ModeAt, GoEnd;
  }

  lemma {:induction false} BlockRun(s: string, i: nat, k: nat)
    requires i + 2 <= k <= |s| && ModeAt(s, i).Code? && Two(s, i, '/', '*')
    requires forall j :: i + 2 <= j < k ==> !Two(s, j, '*', '/')
    ensures ModeAt(s, k) == Block
    ensures forall j :: i < j < k ==> ModeAt(s, j).BlockHead? || ModeAt(s, j).Block?
    decreases k
  {
    NextMode(s, k - 1);
    if k == i + 2 {
      NextMode(s, i);
    } else {
      BlockRun(s, i, k - 1);
    }
    hide ModeAt, GoEnd;
  }

  lemma SkipBlock(s: string, i: nat, close: int)
    requires i < |s| && ModeAt(s, i).Code? && Two(s, i, '/', '*') && close == FindPair(s, '*', '/', i + 2)
    ensures Passes(s, i, if close == -1 then |s| else close + 2, false)
  {
    hide ModeAt, GoEnd;
    BlockRun(s, i, if close == -1 then |s| else close);
    NoGoAt(s, i);
    if close != -1 {
      NextMode(s, close);
      NextMode(s, close + 1);
    }
  }

  /** In a string at `i + 1`, and still in it at `j`. */
  ghost predicate InString(s: string, i: nat, j: nat) {
    i < j <= |s| && ModeAt(s, j) == Str && forall k :: i < k < j ==> ModeAt(s, k).Str? || ModeAt(s, k).StrTail?
  }

  lemma StringStep(s: string, i: nat, j: nat)
    requires InString(s, i, j) && j < |s|
    ensures s[j] != '\'' ==> InString(s, i, j + 1)
    ensures Two(s, j, '\'', '\'') ==> InString(s, i, j + 2)
    ensures s[j] == '\'' && !Two(s, j, '\'', '\'') ==> ModeAt(s, j + 1) == Code(false)
  {
    NextMode(s, j);
    if j + 1 < |s| {
      NextMode(s, j + 1);
    }
    hide ModeAt;
  }

  lemma StringDone(s: string, i: nat, j: nat)
    requires i < |s| && s[i] == '\'' && (InString(s, i, j) && (j < |s| ==> ModeAt(s, j + 1) == Code(false)))
    ensures Passes(s, i, if j < |s| then j + 1 else j, false)
  {
    NoGoAt(s, i);
    hide ModeAt, GoEnd;
  }

  lemma {:induction false} GoRun(s: string, i: nat, k: nat)
    requires i < |s| && Cut(s, i) && i < k <= GoEnd(s, i)
    ensures ModeAt(s, k) == if k < GoEnd(s, i) then GoLine(GoEnd(s, i)) else Code(true)
    decreases k
  {
    hide ModeAt, GoEnd;
    NextMode(s, k - 1);
    if k > i + 1 {
      GoRun(s, i, k - 1);
    } else {
      if s[i] in "-/'" {
        NoGoAt(s, i);
      }
      assert ModeAt(s, i) == Code(true);
    }
  }

  lemma OneStep(s: string, i: nat, lineStart: bool)
    requires i < |s| && ModeAt(s, i) == Code(lineStart) && !Two(s, i, '/', '*') && !Two(s, i, '-', '-') && s[i] != '\''
    requires !(lineStart && GoEnd(s, i) != -1)
    ensures Passes(s, i, i + 1, s[i] == '\n')
  {
    hide ModeAt, GoEnd;
    NextMode(s, i);
    assert CodeStep(s, i, lineStart) == Code(s[i] == '\n');
    assert forall k :: i <= k < i + 1 ==> !Cut(s, k);
  }

  lemma {:induction false} NoCutRun(s: string, start: nat, i: nat, j: nat)
    requires start <= i <= j <= |s|
    requires forall k :: i <= k < j ==> !Cut(s, k)
    ensures Parts(s, start, i) == Parts(s, start, j)
    decreases j - i
  {
    hide Cut;
    if i < j {
      NoCutRun(s, start, i + 1, j);
    }
  }

  /** The parts found and those to come from `i` are the parts of the script. */
  ghost predicate Progress(s: string, done: seq<string>, start: nat, i: nat) {
    start <= i <= |s| && done + Slices(s, Parts(s, start, i)) == Slices(s, Parts(s, 0, 0))
  }

  lemma Advance(s: string, done: seq<string>, start: nat, i: nat, j: nat, lineStart: bool)
    requires Progress(s, done, start, i) && Passes(s, i, j, lineStart)
    ensures Progress(s, done, start, j)
  {
    NoCutRun(s, start, i, j);
  }

  lemma AdvanceGo(s: string, done: seq<string>, start: nat, i: nat)
    requires Progress(s, done, start, i) && i < |s| && Cut(s, i)
    ensures Progress(s, done + [s[start..i]], GoEnd(s, i), GoEnd(s, i))
  {
    hide Cut, GoEnd, Parts, Slices;
    var e := GoEnd(s, i);
    GoPart(s, start, i);
    SlicesStep(s, (start, i), Parts(s, e, e));
    Regroup(done, [s[start..i]], Slices(s, Parts(s, e, e)));
  }

  lemma GoPart(s: string, start: nat, i: nat)
    requires start <= i < |s| && Cut(s, i)
    ensures 0 <= GoEnd(s, i) <= |s| && Parts(s, start, i) == [(start, i)] + Parts(s, GoEnd(s, i), GoEnd(s, i))
  {
    hide GoEnd, ModeAt;
  }

  lemma SlicesStep(s: string, part: (nat, nat), rest: seq<(nat, nat)>)
    requires part.0 <= part.1 <= |s| && forall k :: 0 <= k < |rest| ==> rest[k].0 <= rest[k].1 <= |s|
    ensures Slices(s, [part] + rest) == [s[part.0..part.1]] + Slices(s, rest)
  {
  }

  /** The end of the string literal that starts at `i`: its closing quote, or the end of the text. */
  method StringEnd(s: string, i: nat) returns (j: nat)
    requires i < |s| && s[i] == '\'' && ModeAt(s, i).Code?
    ensures i < j <= |s| && InString(s, i, j) && (j < |s| ==> ModeAt(s, j + 1) == Code(false))
  {
    j := i + 1;
    NextMode(s, i);
    assert InString(s, i, j) by { hide ModeAt; }
    hide ModeAt, InString;
    while j < |s|
      invariant i < j <= |s| && InString(s, i, j)
    {
      StringStep(s, i, j);
      if s[j] == '\'' {
        if j + 1 < |s| && s[j + 1] == '\'' {
          j := j + 2;
          continue;
        }
        break;
      }
      j := j + 1;
    }
  }

  method SplitOnToplevelGo(sql: string) returns (parts: seq<string>)
    ensures parts == Slices(sql, Parts(sql, 0, 0))
  {
    hide ModeAt, GoEnd, Parts, Slices, Progress, Passes, InString;
    parts := [];
    var start: nat, i: nat := 0, 0;
    var n := |sql|;
    var lineStart := true;
    Begin(sql);
    while i < n
      invariant start <= i <= n + 1 && start <= n && Progress(sql, parts, start, Min(i, n))
      invariant i < n ==> ModeAt(sql, i) == Code(lineStart)
      decreases n + 1 - i
    {
      if Two(sql, i, '/', '*') {
        var end := FindPair(sql, '*', '/', i + 2);
        SkipBlock(sql, i, end);
        PassesTo(sql, parts, start, i, if end == -1 then n else end + 2, false);
        i := if end == -1 then n else end + 2;
        lineStart := false;
        continue;
      }
      if Two(sql, i, '-', '-') {
        var nl := FindChar(sql, '\n', i + 2);
        SkipLineComment(sql, i, nl);
        PassesTo(sql, parts, start, i, if nl == -1 then n else nl, false);
        i := if nl == -1 then n else nl;
        lineStart := false;
        continue;
      }
      if sql[i] == '\'' {
        var j := StringEnd(sql, i);
        StringDone(sql, i, j);
        PassesTo(sql, parts, start, i, if j < n then j + 1 else j, false);
        i := j + 1;
        lineStart := false;
        continue;
      }
      if lineStart {
        var end := GoEnd(sql, i);
        if end != -1 {
          AdvanceGo(sql, parts, start, i);
          GoRun(sql, i, end);
          GoEndBounds(sql, i);
          parts := parts + [sql[start..i]];
          start, i := end, end;
          continue;
        }
      }
      OneStep(sql, i, lineStart);
      PassesTo(sql, parts, start, i, i + 1, sql[i] == '\n');
      lineStart := sql[i] == '\n';
      i := i + 1;
    }
    Finish(sql, parts, start, Min(i, n));
    parts := parts + [sql[start..]];
  }

  lemma Begin(s: string)
    ensures Progress(s, [], 0, 0) && ModeAt(s, 0) == Code(true)
  {
    hide Parts;
  }

  lemma GoEndBounds(s: string, i: nat)
    requires i <= |s|
    ensures GoEnd(s, i) <= |s|
  {
  }

  lemma PassesTo(s: string, done: seq<string>, start: nat, i: nat, j: nat, lineStart: bool)
    requires Progress(s, done, start, i) && Passes(s, i, j, lineStart)
    ensures j <= |s| && Progress(s, done, start, j) && (j < |s| ==> ModeAt(s, j) == Code(lineStart))
  {
    Advance(s, done, start, i, j, lineStart);
    hide Progress, ModeAt;
  }

  lemma Finish(s: string, done: seq<string>, start: nat, i: nat)
    requires Progress(s, done, start, i) && i == |s|
    ensures done + [s[start..]] == Slices(s, Parts(s, 0, 0))
  {
    assert s[start..|s|] == s[start..];
    assert Slices(s, [(start, |s|)]) == [s[start..]];
  }

  // ----- line offsets -----

  /** A batch: its stripped text and the line of the script its raw part starts on. */
  datatype Batch = Batch(sql: string, lineOffset: nat)

  function BatchesOf(s: string, parts: seq<(nat, nat)>): seq<Batch>
    requires forall k :: 0 <= k < |parts| ==> parts[k].0 <= parts[k].1 <= |s|
  {
    if parts == [] then []
    else
      var n := |parts| - 1;
      var text := Strip(s[parts[n].0..parts[n].1]);
      BatchesOf(s, parts[..n]) + (if text == [] then [] else [Batch(text, LineOf(s, parts[n].0))])
  }

  lemma BlanksNoNewline(s: string, i: nat)
    requires i <= |s|
    ensures LineOf(s, SkipBlanks(s, i)) == LineOf(s, i)
  {
    var k := SkipBlanks(s, i);
    LineOfSlice(s, i, k);
    assert forall j :: 0 <= j < k - i ==> s[i..k][j] == s[i + j];
    CountNone(s[i..k], '\n');
  }

  lemma OneCharLine(s: string, i: nat)
    requires i < |s|
    ensures LineOf(s, i + 1) == LineOf(s, i) + (if s[i] == '\n' then 1 else 0)
  {
    assert s[..i + 1][..i] == s[..i];
  }

  /** A GO line holds one newline, except at the very end of the script. */
  lemma GoLineNewline(s: string, i: nat)
    requires i <= |s| && GoEnd(s, i) != -1
    ensures var e := GoEnd(s, i); LineOf(s, e) == LineOf(s, i) + 1 || e == |s|
  {
    hide LineOf;
    var a := SkipBlanks(s, i);
    BlanksNoNewline(s, i);
    OneCharLine(s, a);
    OneCharLine(s, a + 1);
    var b := SkipBlanks(s, a + 2);
    BlanksNoNewline(s, a + 2);
    if b < |s| {
      OneCharLine(s, b);
      if b + 1 < |s| {
        OneCharLine(s, b + 1);
      }
    }
    hide SkipBlanks;
  }

  lemma BatchesStep(s: string, parts: seq<(nat, nat)>, k: nat)
    requires forall j :: 0 <= j < |parts| ==> parts[j].0 <= parts[j].1 <= |s|
    requires k < |parts|
    ensures var text := Strip(s[parts[k].0..parts[k].1]);
      BatchesOf(s, parts[..k + 1])
      == BatchesOf(s, parts[..k]) + (if text == [] then [] else [Batch(text, LineOf(s, parts[k].0))])
  {
    assert parts[..k + 1][..k] == parts[..k];
    hide Strip, LineOf;
  }

  /** The counter of `_split_tsql` is the line of the next part, unless nothing is left. */
  lemma OffsetStep(s: string, parts: seq<(nat, nat)>, k: nat)
    requires parts == Parts(s, 0, 0) && k + 1 < |parts|
    ensures var (a, b) := parts[k]; var next := parts[k + 1].0;
      LineOf(s, next) == LineOf(s, a) + Count(s[a..b], '\n') + 1 || (next == |s| && parts[k + 1].1 == |s|)
  {
    PartsTile(s, 0, 0);
    LineOfSlice(s, parts[k].0, parts[k].1);
    assert Cut(s, parts[k].1) && parts[k + 1].0 == GoEnd(s, parts[k].1);
    GoLineNewline(s, parts[k].1);
    hide Parts, LineOf, GoEnd;
  }

  /** `_split_tsql`: every batch carries the number of newlines before its raw part. */
  method SplitTsql(sql: string) returns (batches: seq<Batch>)
    ensures batches == BatchesOf(sql, Parts(sql, 0, 0))
  {
    hide Parts, Strip, LineOf, GoEnd, ModeAt, BatchesOf, Count;
    var texts := SplitOnToplevelGo(sql);
    ghost var parts := Parts(sql, 0, 0);
    batches := [];
    var lineOffset: nat := 0;
    NoLines(sql, parts);
    for k := 0 to |texts|
      invariant batches == BatchesOf(sql, parts[..k])
      invariant k < |texts| ==> lineOffset == LineOf(sql, parts[k].0) || parts[k].0 == |sql|
    {
      var part := texts[k];
      assert part == sql[parts[k].0..parts[k].1];
      var stripped := Strip(part);
      BatchesStep(sql, parts, k);
      EmptyTail(sql, parts[k].0, parts[k].1);
      if stripped != [] {
        batches := batches + [Batch(stripped, lineOffset)];
      }
      if k + 1 < |texts| {
        NextOffset(sql, parts, k, lineOffset);
      }
      lineOffset := lineOffset + Count(part, '\n') + 1;
    }
    assert parts[..|parts|] == parts;
  }

  lemma NoLines(s: string, parts: seq<(nat, nat)>)
    requires parts == Parts(s, 0, 0)
    ensures LineOf(s, 0) == 0 && BatchesOf(s, parts[..0]) == [] && parts[0].0 == 0
  {
    PartsTile(s, 0, 0);
    hide Parts;
  }

  lemma EmptyTail(s: string, a: nat, b: nat)
    requires a <= b <= |s|
    ensures a == |s| ==> Strip(s[a..b]) == []
  {
  }

  lemma NextOffset(s: string, parts: seq<(nat, nat)>, k: nat, offset: nat)
    requires parts == Parts(s, 0, 0) && k + 1 < |parts|
    requires offset == LineOf(s, parts[k].0) || parts[k].0 == |s|
    ensures offset + Count(s[parts[k].0..parts[k].1], '\n') + 1 == LineOf(s, parts[k + 1].0) || parts[k + 1].0 == |s|
  {
    OffsetStep(s, parts, k);
    PartsTile(s, 0, 0);
    assert Cut(s, parts[k].1);
    hide Parts, LineOf, Count;
  }

  // ----- splitting a batch again -----

  /** `a..b` is one of the parts of `t`, without the GO lines round it. */
  ghost predicate PartAt(t: string, a: nat, b: nat) {
    && a <= b <= |t|
    && (a < |t| ==> ModeAt(t, a) == Code(true))
    && (b == |t| || Cut(t, b))
    && forall k :: a <= k < b ==> !Cut(t, k)
  }

  lemma {:induction false} PartsAreParts(t: string, start: nat, i: nat, k: nat)
    requires start <= i <= |t| && k < |Parts(t, start, i)|
    requires start < |t| ==> ModeAt(t, start) == Code(true)
    requires forall j :: start <= j < i ==> !Cut(t, j)
    ensures PartAt(t, Parts(t, start, i)[k].0, Parts(t, start, i)[k].1)
    decreases |t| - i
  {
    hide ModeAt, GoEnd;
    if i == |t| {
    } else if Cut(t, i) {
      if k > 0 {
        var e := GoEnd(t, i);
        GoRun(t, i, e);
        PartsAreParts(t, e, e, k - 1);
      }
    } else {
      PartsAreParts(t, start, i + 1, k);
    }
  }

  /** No GO line is read inside a part. */
  lemma {:induction false} NoGoLine(t: string, a: nat, b: nat, k: nat)
    requires PartAt(t, a, b) && a <= k <= b && k < |t|
    ensures !ModeAt(t, k).GoLine?
  {
    if k > a {
      NoGoLine(t, a, b, k - 1);
      NextMode(t, k - 1);
      assert !Cut(t, k - 1);
    }
    hide ModeAt, GoEnd;
  }

  /** The start of the line that `k` is on. */
  function LineStart(t: string, k: nat): (r: nat)
    requires k <= |t|
    ensures r <= k && (r == 0 || t[r - 1] == '\n')
    ensures forall j :: r <= j < k ==> t[j] != '\n'
  {
    if k == 0 || t[k - 1] == '\n' then k else LineStart(t, k - 1)
  }

  /** Inside a part the automaton is at the start of a line only after a newline. */
  lemma StartAfterNewline(t: string, a: nat, b: nat, k: nat)
    requires PartAt(t, a, b) && a < k <= b && k < |t| && ModeAt(t, k) == Code(true)
    ensures t[k - 1] == '\n'
  {
    NoGoLine(t, a, b, k - 1);
    NextMode(t, k - 1);
    hide ModeAt, GoEnd;
  }

  /** A GO line of a stripped part that does not reach its end is one of the script as well. */
  lemma InnerGo(t: string, p: nat, u: string, k: nat)
    requires p + |u| <= |t| && u == t[p..p + |u|] && k < |u| && u[|u| - 1] !in " \t"
    requires GoEnd(u, k) != -1 && SkipBlanks(u, k) + 2 < |u|
    ensures GoEnd(t, p + k) != -1
  {
    hide GoEnd, Upper, SkipBlanks;
    GoLetters(u, k);
    var a := SkipBlanks(u, k);
    BlanksAgree(t, p, u, k);
    BlanksAgree(t, p, u, a + 2);
    var b := SkipBlanks(u, a + 2);
    assert t[p + a] == u[a] && t[p + a + 1] == u[a + 1] && t[p + b] == u[b];
    assert b + 1 < |u| ==> t[p + b + 1] == u[b + 1];
    GoBefore(t, p + k, p + a);
  }

  lemma {:induction false} BlanksAgree(t: string, p: nat, u: string, k: nat)
    requires p + |u| <= |t| && u == t[p..p + |u|] && k < |u| && u[|u| - 1] !in " \t"
    ensures SkipBlanks(u, k) < |u| && SkipBlanks(t, p + k) == p + SkipBlanks(u, k)
    decreases |u| - k
  {
    assert t[p + k] == u[k];
    if u[k] in " \t" {
      BlanksAgree(t, p, u, k + 1);
    }
  }

  /** A GO line that reaches the end of a stripped text is its last line. */
  lemma OuterGoIsLast(u: string, k: nat)
    requires k < |u| && !IsSpace(u[|u| - 1]) && GoEnd(u, k) != -1 && SkipBlanks(u, k) + 2 >= |u|
    requires k == 0 || u[k - 1] == '\n'
    ensures k == LineStart(u, |u|)
  {
    var a := SkipBlanks(u, k);
    assert a + 2 == |u|;
    assert forall j :: k <= j < |u| ==> u[j] != '\n';
    assert k > 0 ==> u[k - 1] == '\n';
    hide GoEnd;
  }

  /** Stripping has brought a GO line to the first or the last line of the text, in code. */
  predicate ExposesGo(u: string) {
    GoEnd(u, 0) != -1 || Cut(u, LineStart(u, |u|))
  }

  /** `u` is what `strip` keeps of the part `a..b`, found at `p`. */
  ghost predicate Kept(t: string, a: nat, b: nat, p: nat, u: string) {
    && PartAt(t, a, b) && a <= p && p + |u| <= b && u == t[p..p + |u|]
    && u != [] && !IsSpace(u[0]) && !IsSpace(u[|u| - 1])
    && forall k :: a <= k < p || p + |u| <= k < b ==> IsSpace(t[k])
  }

  lemma SpaceStep(s: string, i: nat, lineStart: bool)
    requires i < |s| && IsSpace(s[i]) && ModeAt(s, i) == Code(lineStart) && !Cut(s, i)
    ensures ModeAt(s, i + 1) == Code(s[i] == '\n')
  {
    NextMode(s, i);
    hide ModeAt, GoEnd;
  }

  lemma {:induction false} LeadingSpace(t: string, a: nat, b: nat, k: nat)
    requires PartAt(t, a, b) && a <= k <= b && k < |t| && forall j :: a <= j < k ==> IsSpace(t[j])
    ensures ModeAt(t, k) == Code(k == a || t[k - 1] == '\n')
  {
    hide ModeAt, Cut, IsSpace;
    if k > a {
      LeadingSpace(t, a, b, k - 1);
      SpaceStep(t, k - 1, k - 1 == a || t[k - 2] == '\n');
    }
  }

  /** The automaton steps alike over the stripped text and over the script, up to a GO line. */
  lemma StepAgrees(t: string, p: nat, u: string, k: nat, x: Mode, y: Mode)
    requires p + |u| <= |t| && u == t[p..p + |u|] && k + 1 < |u|
    requires x == y || (x.Code? && y.Code?)
    requires !x.GoLine? && !y.GoLine?
    requires x == Code(true) ==> GoEnd(u, k) == -1
    requires y == Code(true) ==> GoEnd(t, p + k) == -1
    ensures Step(u, k, x) == Step(t, p + k, y)
  {
    hide GoEnd;
    assert u[k] == t[p + k] && u[k + 1] == t[p + k + 1];
  }

  lemma KeptWithin(t: string, a: nat, b: nat, p: nat, u: string, k: nat)
    requires Kept(t, a, b, p, u) && k < |u|
    ensures b <= |t| && !Cut(t, p + k)
  {
    hide ModeAt, GoEnd;
  }

  lemma FirstMode(s: string)
    ensures ModeAt(s, 0) == Code(true)
  {
  }

  lemma NotCutStart(s: string, i: nat)
    requires i < |s| && !Cut(s, i)
    ensures ModeAt(s, i) == Code(true) ==> GoEnd(s, i) == -1
  {
    hide ModeAt, GoEnd;
  }

  lemma {:induction false} ModesAgree(t: string, a: nat, b: nat, p: nat, u: string, k: nat)
    requires Kept(t, a, b, p, u) && k < |u|
    requires forall j :: 0 <= j < k ==> !Cut(u, j)
    ensures !ModeAt(u, k).GoLine?
    ensures ModeAt(u, k) == ModeAt(t, p + k) || (k == 0 && ModeAt(t, p).Code?)
  {
    hide GoEnd, ModeAt, Step, PartAt, Cut, IsSpace;
    KeptWithin(t, a, b, p, u, k);
    if k == 0 {
      NotGoLine(u, 0);
      LeadingSpace(t, a, b, p);
    } else {
      ModesAgree(t, a, b, p, u, k - 1);
      NoGoLine(t, a, b, p + (k - 1));
      NotGoLine(u, k - 1);
      NotGoLine(u, k);
      FirstMode(u);
      KeptWithin(t, a, b, p, u, k - 1);
      NotCutStart(u, k - 1);
      NotCutStart(t, p + (k - 1));
      StepAgrees(t, p, u, k - 1, ModeAt(u, k - 1), ModeAt(t, p + (k - 1)));
      NextMode(u, k - 1);
      NextMode(t, p + (k - 1));
    }
  }

  /** A GO line is entered only from its cut. */
  lemma {:induction false} NotGoLine(u: string, k: nat)
    requires k < |u| && forall j :: 0 <= j < k ==> !Cut(u, j)
    ensures !ModeAt(u, k).GoLine?
  {
    if k > 0 {
      NotGoLine(u, k - 1);
      NextMode(u, k - 1);
      assert !Cut(u, k - 1);
    }
    hide ModeAt, GoEnd;
  }

  /** The first cut of a stripped part, if there is one, is exposed by stripping. */
  lemma {:induction false} NoFirstCut(t: string, a: nat, b: nat, p: nat, u: string, k: nat)
    requires Kept(t, a, b, p, u) && k <= |u| && !ExposesGo(u)
    ensures forall j :: 0 <= j < k ==> !Cut(u, j)
  {
    if k > 0 {
      NoFirstCut(t, a, b, p, u, k - 1);
      CutIsExposed(t, a, b, p, u, k - 1);
    }
    hide Cut, ExposesGo, Kept;
  }

  lemma CutIsExposed(t: string, a: nat, b: nat, p: nat, u: string, k: nat)
    requires Kept(t, a, b, p, u) && k < |u| && forall j :: 0 <= j < k ==> !Cut(u, j)
    ensures Cut(u, k) ==> ExposesGo(u)
  {
    hide GoEnd, ModeAt, SkipBlanks;
    ModesAgree(t, a, b, p, u, k);
    assert !Cut(t, p + k);
    if Cut(u, k) && k > 0 {
      if SkipBlanks(u, k) + 2 < |u| {
        InnerGo(t, p, u, k);
      } else {
        StartAfterNewline(t, a, b, p + k);
        assert u[k - 1] == t[p + k - 1];
        OuterGoIsLast(u, k);
      }
    }
  }

  lemma {:induction false} SinglePart(s: string, start: nat, i: nat, k: nat)
    requires start <= i <= k < |s| && Parts(s, start, i) == [(start, |s|)]
    ensures !Cut(s, k)
    decreases |s| - i
  {
    hide Cut;
    if i < k {
      SinglePart(s, start, i + 1, k);
    }
  }

  /** A batch splits into itself again exactly when stripping has not made its first or its last
      line a GO line. */
  lemma ReSplitIff(t: string, a: nat, b: nat, p: nat, u: string)
    requires Kept(t, a, b, p, u)
    ensures Parts(u, 0, 0) == [(0, |u|)] <==> !ExposesGo(u)
  {
    if !ExposesGo(u) {
      NoFirstCut(t, a, b, p, u, |u|);
      NoCutRun(u, 0, 0, |u|);
    } else if Parts(u, 0, 0) == [(0, |u|)] {
      SinglePart(u, 0, 0, 0);
      SinglePart(u, 0, 0, LineStart(u, |u|));
    }
    hide Cut, GoEnd, ModeAt;
  }

  /** The only white space of the script is blanks, tabs and line ends, which may be CRLF. */
  predicate PlainSpace(t: string) {
    forall k :: 0 <= k < |t| && IsSpace(t[k]) ==> t[k] in " \t\n" || Two(t, k, '\r', '\n')
  }

  lemma {:induction false} SkipFrom(t: string, i: nat, j: nat)
    requires i <= j <= |t| && forall k :: i <= k < j ==> t[k] in " \t"
    ensures SkipBlanks(t, i) == SkipBlanks(t, j)
    decreases j - i
  {
    if i < j {
      SkipFrom(t, i + 1, j);
    }
  }

  /** After a kept text the script goes on with blanks up to a line end or its own end. */
  lemma TailIsPlain(t: string, a: nat, b: nat, p: nat, u: string)
    requires Kept(t, a, b, p, u) && PlainSpace(t)
    ensures var r := SkipBlanks(t, p + |u|); r == |t| || t[r] == '\n' || Two(t, r, '\r', '\n')
  {
    hide ModeAt, GoEnd, SkipBlanks;
    var q := p + |u|;
    var r := SkipBlanks(t, q);
    assert t[q - 1] == u[|u| - 1];
    if b < |t| {
      StartAfterNewline(t, a, b, b);
    }
  }

  lemma GoLetters(s: string, i: nat)
    requires i <= |s| && GoEnd(s, i) != -1
    ensures var a := SkipBlanks(s, i); a + 1 < |s| && Upper(s[a]) == 'G' && Upper(s[a + 1]) == 'O'
    ensures var r := SkipBlanks(s, SkipBlanks(s, i) + 2); r == |s| || s[r] == '\n' || Two(s, r, '\r', '\n')
  {
    hide SkipBlanks, Upper;
  }

  lemma GoBefore(s: string, i: nat, a: nat)
    requires i <= |s| && a == SkipBlanks(s, i) && a + 1 < |s| && Upper(s[a]) == 'G' && Upper(s[a + 1]) == 'O'
    requires var r := SkipBlanks(s, a + 2); r == |s| || s[r] == '\n' || Two(s, r, '\r', '\n')
    ensures GoEnd(s, i) != -1
  {
    hide SkipBlanks, Upper;
  }

  /** A GO line of the stripped text is one of the script. */
  lemma GoCarries(t: string, a: nat, b: nat, p: nat, u: string, k: nat, i: nat)
    requires Kept(t, a, b, p, u) && PlainSpace(t) && k < |u| && GoEnd(u, k) != -1
    requires i <= p + k && forall j :: i <= j < p + k ==> t[j] in " \t"
    ensures GoEnd(t, i) != -1
  {
    hide PartAt, PlainSpace, SkipBlanks, GoEnd, Upper, Two;
    KeptFits(t, a, b, p, u);
    SkipFrom(t, i, p + k);
    BlanksAgree(t, p, u, k);
    GoLetters(u, k);
    var x := SkipBlanks(u, k);
    if x + 2 < |u| {
      InnerGo(t, p, u, k);
      SameGo(t, i, p + k);
    } else {
      TailIsPlain(t, a, b, p, u);
      assert t[p + x] == u[x] && t[p + x + 1] == u[x + 1];
      GoBefore(t, i, p + x);
    }
  }

  lemma KeptFits(t: string, a: nat, b: nat, p: nat, u: string)
    requires Kept(t, a, b, p, u)
    ensures b <= |t| && u[|u| - 1] !in " \t"
  {
    hide ModeAt, Cut;
  }

  lemma SameGo(s: string, i: nat, j: nat)
    requires i <= |s| && j <= |s| && SkipBlanks(s, i) == SkipBlanks(s, j)
    ensures GoEnd(s, i) == GoEnd(s, j)
  {
    hide SkipBlanks, Upper, Two;
  }

  /** With plain white space the first line of a batch is no GO line. */
  lemma FirstLinePlain(t: string, a: nat, b: nat, p: nat, u: string)
    requires Kept(t, a, b, p, u) && PlainSpace(t)
    ensures GoEnd(u, 0) == -1
  {
    hide ModeAt, GoEnd;
    var l := LineStart(t, p);
    var i := if l < a then a else l;
    assert forall j :: i <= j < p ==> IsSpace(t[j]) && t[j] != '\n';
    assert forall j :: i <= j < p ==> t[j] in " \t" by { assert t[p] == u[0]; }
    LeadingSpace(t, a, b, i);
    assert !Cut(t, i);
    if GoEnd(u, 0) != -1 {
      GoCarries(t, a, b, p, u, 0, i);
    }
  }

  lemma {:induction false} PlainNoCut(t: string, a: nat, b: nat, p: nat, u: string, k: nat)
    requires Kept(t, a, b, p, u) && PlainSpace(t) && k <= |u|
    ensures forall j :: 0 <= j < k ==> !Cut(u, j)
  {
    hide ModeAt, GoEnd, PlainSpace;
    if k > 0 {
      PlainNoCut(t, a, b, p, u, k - 1);
      ModesAgree(t, a, b, p, u, k - 1);
      FirstLinePlain(t, a, b, p, u);
      assert !Cut(t, p + (k - 1));
      if Cut(u, k - 1) {
        GoCarries(t, a, b, p, u, k - 1, p + (k - 1));
      }
    }
  }

  lemma KeptOf(t: string, a: nat, b: nat, u: string) returns (p: nat)
    requires PartAt(t, a, b) && u == Strip(t[a..b]) && u != []
    ensures Kept(t, a, b, p, u)
  {
    hide ModeAt, GoEnd, Strip;
    var c, d := StripSplit(t[a..b]);
    p := a + c;
    SliceOfSlice(t, a, b, c, d);
    forall k | a <= k < p || p + |u| <= k < b ensures IsSpace(t[k]) {
      assert t[k] == t[a..b][k - a];
    }
  }

  /** In a script whose white space is blanks, tabs and line ends, be they LF or CRLF, every batch is
      returned unchanged when it is split again. */
  lemma ReSplit(t: string, k: nat, u: string)
    requires PlainSpace(t) && k < |Parts(t, 0, 0)|
    requires u == Strip(t[Parts(t, 0, 0)[k].0..Parts(t, 0, 0)[k].1]) && u != []
    ensures Parts(u, 0, 0) == [(0, |u|)]
  {
    hide Strip, GoEnd;
    var (a, b) := Parts(t, 0, 0)[k];
    PartsAreParts(t, 0, 0, k);
    var p := KeptOf(t, a, b, u);
    PlainNoCut(t, a, b, p, u, |u|);
    hide Cut, ModeAt, Kept, PlainSpace;
    NoCutRun(u, 0, 0, |u|);
  }

  /** Other white space before GO keeps it from being a separator, until it is stripped. */
  lemma FormFeedExposesGo(t: string, u: string)
    requires t == "\U{0c}GO\nx" && u == "GO\nx"
    ensures Parts(t, 0, 0) == [(0, |t|)] && Strip(t) == u && Parts(u, 0, 0) != [(0, |u|)]
  {
    assert t[1..] == u;
    StripFixed(u);
    assert SkipBlanks(t, 0) == 0 && GoEnd(t, 0) == -1;
    FormFeedModes(t);
    hide ModeAt, GoEnd, Strip, RStrip;
    NoCutRun(t, 0, 0, |t|);
    assert LStrip(t) == u;
    GoAtStart(u);
  }

  lemma FormFeedModes(t: string)
    requires t == "\U{0c}GO\nx" && GoEnd(t, 0) == -1
    ensures forall k :: 0 <= k < |t| ==> !Cut(t, k)
  {
    hide GoEnd;
    NextMode(t, 0);
    NextMode(t, 1);
    NextMode(t, 2);
    NextMode(t, 3);
    LastNoGo(t);
    hide ModeAt;
    assert ModeAt(t, 1) == Code(false) && ModeAt(t, 2) == Code(false) && ModeAt(t, 3) == Code(false);
  }

  lemma LastNoGo(t: string)
    requires |t| == 5 && t[4] == 'x'
    ensures GoEnd(t, 4) == -1
  {
  }

  lemma GoAtStart(u: string)
    requires u == "GO\nx"
    ensures Parts(u, 0, 0) != [(0, |u|)]
  {
    assert SkipBlanks(u, 0) == 0 && SkipBlanks(u, 2) == 2;
    assert GoEnd(u, 0) == 3;
    assert ModeAt(u, 0) == Code(true);
    hide GoEnd, ModeAt;
    assert Cut(u, 0);
  }

  // ----- what a GO line is -----

  /** Blanks and tabs from `i` to `k`. */
  ghost predicate BlankRun(s: string, i: nat, k: nat) {
    i <= k <= |s| && forall j :: i <= j < k ==> s[j] == ' ' || s[j] == '\t'
  }

  /** From `i` to `e`: blanks, the word GO in any case at `a`, blanks, and at `b` the end of the line,
      with its line end, or of the script. */
  ghost predicate GoLineBy(s: string, i: nat, e: nat, a: nat, b: nat) {
    && BlankRun(s, i, a) && a + 2 <= |s| && (s[a] == 'G' || s[a] == 'g') && (s[a + 1] == 'O' || s[a + 1] == 'o')
    && BlankRun(s, a + 2, b)
    && ((e == b == |s|) || (e == b + 1 && b < |s| && s[b] == '\n') || (e == b + 2 && Two(s, b, '\r', '\n')))
  }

  ghost predicate GoLineAt(s: string, i: nat, e: nat) {
    exists a: nat, b: nat :: GoLineBy(s, i, e, a, b)
  }

  lemma BlanksEnd(s: string, i: nat, k: nat)
    requires BlankRun(s, i, k) && (k < |s| ==> s[k] != ' ' && s[k] != '\t')
    ensures SkipBlanks(s, i) == k
  {
    var e := SkipBlanks(s, i);
    assert !(e < k) && !(k < e);
    hide SkipBlanks;
  }

  lemma BlanksAre(s: string, i: nat)
    requires i <= |s|
    ensures BlankRun(s, i, SkipBlanks(s, i))
  {
    hide SkipBlanks;
  }

  /** A GO line begins at `i` and ends at `e` exactly when it reads so. */
  lemma GoEndIff(s: string, i: nat, e: nat)
    requires i <= |s|
    ensures GoEnd(s, i) == e <==> GoLineAt(s, i, e)
  {
    hide SkipBlanks, BlankRun;
    if GoEnd(s, i) == e {
      var a := SkipBlanks(s, i);
      BlanksAre(s, i);
      BlanksAre(s, a + 2);
      assert GoLineBy(s, i, e, a, SkipBlanks(s, a + 2));
    }
    if a: nat, b: nat :| GoLineBy(s, i, e, a, b) {
      BlanksEnd(s, i, a);
      BlanksEnd(s, a + 2, b);
    }
  }

  // ----- scripts put together from tokens -----

  datatype Token =
    | Other(c: char)
    | Quoted(body: string)
    | Remark(text: string)     // a line comment, without its newline
    | Comment(text: string)    // a block comment
    | Separator(text: string)  // a GO line, with its line end

  function TextOf(x: Token): string {
    match x
    case Other(c) => [c]
    case Quoted(body) => "'" + body + "'"
    case Remark(text) => "--" + text
    case Comment(text) => "/*" + text + "*/"
    case Separator(text) => text
  }

  function Print(ts: seq<Token>): string {
    if ts == [] then [] else TextOf(ts[0]) + Print(ts[1..])
  }

  /** The inside of a literal: quotes are doubled. */
  predicate LiteralBody(b: string) {
    if b == [] then true
    else if b[0] == '\'' then Two(b, 0, '\'', '\'') && LiteralBody(b[2..])
    else LiteralBody(b[1..])
  }

  ghost predicate Formed(x: Token) {
    match x
    case Other(c) => c != '\''
    case Quoted(body) => LiteralBody(body)
    case Remark(text) => '\n' !in text
    case Comment(text) => Lacks(text, '*', '/')
    case Separator(text) => GoLineAt(text, 0, |text|)
  }

  /** The token ends where its text does when `rest` follows. */
  predicate Apart(x: Token, rest: string) {
    rest == [] ||
    match x
    case Other(c) => !(c == '-' && rest[0] == '-') && !(c == '/' && rest[0] == '*')
    case Quoted(_) => rest[0] != '\''
    case Remark(_) => rest[0] == '\n'
    case Comment(_) => true
    case Separator(text) => text != [] && text[|text| - 1] == '\n'
  }

  predicate EndsLine(x: Token) {
    x.Separator? || x == Other('\n')
  }

  /** GO lines stand where a line begins in code, and nothing else there reads as one. */
  ghost predicate Unambiguous(lineStart: bool, ts: seq<Token>)
    decreases |ts|
  {
    ts == [] || (
      && Formed(ts[0]) && Apart(ts[0], Print(ts[1..]))
      && (if ts[0].Separator? then lineStart else lineStart ==> forall e :: !GoLineAt(Print(ts), 0, e))
      && Unambiguous(EndsLine(ts[0]), ts[1..]))
  }

  /** The texts between the GO lines; `before` is the first of them so far. */
  function Divided(ts: seq<Token>, before: string): seq<string> {
    if ts == [] then [before]
    else if ts[0].Separator? then [before] + Divided(ts[1..], [])
    else Divided(ts[1..], before + TextOf(ts[0]))
  }

  // ----- the automaton over a token -----

  lemma {:induction false} LiteralRun(s: string, i: nat, j: nat, b: string)
    requires LiteralBody(b) && StartsWith(s, b + "'", j) && InString(s, i, j)
    ensures InString(s, i, j + |b|)
    decreases |b|
  {
    hide InString, StartsWith;
    if b != [] {
      InStringBound(s, i, j);
      assert j < |s| && s[j] == b[0] by { CharAt(s, j, b + "'", 0); }
      StringStep(s, i, j);
      var n := if b[0] == '\'' then 2 else 1;
      if n == 2 {
        assert j + 1 < |s| && s[j + 1] == b[1] by { CharAt(s, j, b + "'", 1); }
      }
      PartStarts(s, j, b + "'", n, |b| + 1);
      assert (b + "'")[n..|b| + 1] == b[n..] + "'";
      LiteralRun(s, i, j + n, b[n..]);
    }
  }

  lemma InStringBound(s: string, i: nat, j: nat)
    requires InString(s, i, j)
    ensures j <= |s|
  {
  }

  lemma InStringFirst(s: string, i: nat)
    requires i < |s| && s[i] == '\'' && ModeAt(s, i).Code?
    ensures InString(s, i, i + 1)
  {
    NextMode(s, i);
    hide ModeAt;
  }

  lemma QuotedPasses(s: string, i: nat, b: string)
    requires i < |s| && LiteralBody(b) && StartsWith(s, "'" + b + "'", i) && ModeAt(s, i).Code?
    requires var e := i + |b| + 2; e < |s| ==> s[e] != '\''
    ensures Passes(s, i, i + |b| + 2, false)
  {
    hide ModeAt, InString, StartsWith, Passes, LiteralBody;
    var u, j := "'" + b + "'", i + |b| + 1;
    CharAt(s, i, u, 0);
    CharAt(s, i, u, |b| + 1);
    InStringFirst(s, i);
    PartStarts(s, i, u, 1, |u|);
    assert u[1..|u|] == b + "'";
    LiteralRun(s, i, i + 1, b);
    StringStep(s, i, j);
    StringDone(s, i, j);
  }

  lemma RemarkPasses(s: string, i: nat, text: string)
    requires '\n' !in text && StartsWith(s, "--" + text, i) && i <= |s| && ModeAt(s, i).Code?
    requires var e := i + 2 + |text|; e < |s| ==> s[e] == '\n'
    ensures Passes(s, i, i + 2 + |text|, false)
  {
    hide ModeAt, Passes, StartsWith;
    var u, e := "--" + text, i + 2 + |text|;
    forall j | i <= j < e ensures j < |s| && s[j] == u[j - i] {
      CharAt(s, i, u, j - i);
    }
    var nl := FindChar(s, '\n', i + 2);
    assert s[e - 1] == u[|u| - 1];
    assert e == if nl == -1 then |s| else nl;
    SkipLineComment(s, i, nl);
  }

  lemma CommentPasses(s: string, i: nat, text: string)
    requires Lacks(text, '*', '/') && StartsWith(s, "/*" + text + "*/", i) && i <= |s| && ModeAt(s, i).Code?
    ensures Passes(s, i, i + |text| + 4, false)
  {
    hide ModeAt, Passes, StartsWith, Lacks, FindPair;
    var u := "/*" + text + "*/";
    CharAt(s, i, u, 0);
    CharAt(s, i, u, 1);
    PartStarts(s, i, u, 2, |u|);
    assert u[2..|u|] == text + ['*', '/'];
    FirstPair(s, i + 2, text, '*', '/');
    SkipBlock(s, i, FindPair(s, '*', '/', i + 2));
  }

  // ----- splitting what was put together -----

  /** The loop stands before the tokens, in code. */
  ghost predicate Before(s: string, i: nat, ts: seq<Token>, lineStart: bool) {
    i <= |s| && s[i..] == Print(ts) && Unambiguous(lineStart, ts) && (i < |s| ==> ModeAt(s, i) == Code(lineStart))
  }

  lemma NotEmpty(x: Token)
    requires Formed(x)
    ensures TextOf(x) != []
  {
    hide BlankRun, LiteralBody, Lacks;
  }

  lemma NextApart(s: string, i: nat, ts: seq<Token>, lineStart: bool)
    requires ts != [] && Before(s, i, ts, lineStart)
    ensures var e := i + |TextOf(ts[0])|;
      && i < e <= |s| && StartsWith(s, TextOf(ts[0]), i) && s[i..e] == TextOf(ts[0]) && s[e..] == Print(ts[1..])
      && Formed(ts[0]) && Apart(ts[0], s[e..]) && Unambiguous(EndsLine(ts[0]), ts[1..])
      && (e < |s| ==> s[e..][0] == s[e])
  {
    hide Formed, Apart, TextOf, ModeAt, StartsWith, GoLineAt;
    SplitSlice(s, i, TextOf(ts[0]), Print(ts[1..]));
    NotEmpty(ts[0]);
    SliceIs(s, i, TextOf(ts[0]));
  }

  lemma BlankShift(s: string, i: nat, x: nat, y: nat)
    requires i <= x <= y <= |s|
    ensures BlankRun(s, x, y) <==> BlankRun(s[i..], x - i, y - i)
  {
    var t := s[i..];
    assert forall k :: x <= k < y ==> s[k] == t[k - i];
    assert forall k :: x - i <= k < y - i ==> t[k] == s[k + i];
  }

  /** A GO line is one wherever the text before it is cut off. */
  lemma GoShift(s: string, i: nat, e: nat)
    requires i <= |s| && GoLineAt(s, i, e)
    ensures e >= i && GoLineAt(s[i..], 0, e - i)
  {
    hide BlankRun;
    var a: nat, b: nat :| GoLineBy(s, i, e, a, b);
    BlankBounds(s, i, a);
    BlankBounds(s, a + 2, b);
    BlankShift(s, i, i, a);
    BlankShift(s, i, a + 2, b);
    assert GoLineBy(s[i..], 0, e - i, a - i, b - i);
  }

  lemma BlankBounds(s: string, i: nat, k: nat)
    requires BlankRun(s, i, k)
    ensures i <= k <= |s|
  {
  }

  lemma BlankGrows(u: string, v: string, x: nat, y: nat)
    requires BlankRun(u, x, y)
    ensures BlankRun(u + v, x, y)
  {
    assert forall k :: x <= k < y ==> (u + v)[k] == u[k];
  }

  lemma BlankLater(s: string, i: nat, x: nat, y: nat)
    requires i <= |s| && BlankRun(s[i..], x, y)
    ensures BlankRun(s, i + x, i + y)
  {
    BlankShift(s, i, i + x, i + y);
  }

  lemma GoGrows(u: string, rest: string)
    requires GoLineAt(u, 0, |u|) && (rest == [] || u[|u| - 1] == '\n')
    ensures GoLineAt(u + rest, 0, |u|)
  {
    hide BlankRun;
    var a: nat, b: nat :| GoLineBy(u, 0, |u|, a, b);
    if rest == [] {
      assert u + rest == u;
    } else {
      BlankBounds(u, 0, a);
      BlankBounds(u, a + 2, b);
      BlankGrows(u, rest, 0, a);
      BlankGrows(u, rest, a + 2, b);
      assert forall k :: 0 <= k < |u| ==> (u + rest)[k] == u[k];
      if b == |u| {
        LastBlank(u, a, b);
      }
      assert GoLineBy(u + rest, 0, |u|, a, b);
    }
  }

  lemma GoLater(s: string, i: nat, e: nat)
    requires i <= |s| && GoLineAt(s[i..], 0, e)
    ensures GoLineAt(s, i, i + e)
  {
    hide BlankRun;
    var t := s[i..];
    var a: nat, b: nat :| GoLineBy(t, 0, e, a, b);
    BlankBounds(t, 0, a);
    BlankBounds(t, a + 2, b);
    BlankLater(s, i, 0, a);
    BlankLater(s, i, a + 2, b);
    assert GoLineBy(s, i, i + e, i + a, i + b);
  }

  /** A separator is a GO line where it stands. */
  lemma SeparatorAt(s: string, i: nat, u: string, rest: string)
    requires i <= |s| && s[i..] == u + rest && GoLineAt(u, 0, |u|)
    requires rest == [] || u[|u| - 1] == '\n'
    ensures GoEnd(s, i) == i + |u|
  {
    hide GoLineAt, GoEnd;
    GoGrows(u, rest);
    GoLater(s, i, |u|);
    GoEndIff(s, i, i + |u|);
  }

  lemma LastBlank(u: string, a: nat, b: nat)
    requires a + 2 <= |u| && BlankRun(u, a + 2, b) && b == |u| && (u[a + 1] == 'O' || u[a + 1] == 'o')
    ensures u[|u| - 1] != '\n'
  {
  }

  /** Where no GO line begins the loop sees none. */
  lemma NoSeparator(s: string, i: nat)
    requires i <= |s| && forall e :: !GoLineAt(s[i..], 0, e)
    ensures GoEnd(s, i) == -1
  {
    hide GoEnd, GoLineAt;
    if GoEnd(s, i) != -1 {
      GoEndIff(s, i, GoEnd(s, i));
      GoShift(s, i, GoEnd(s, i));
    }
  }

  lemma NoneAtStart(lineStart: bool, ts: seq<Token>)
    requires ts != [] && Unambiguous(lineStart, ts) && !ts[0].Separator? && lineStart
    ensures forall e :: !GoLineAt(Print(ts), 0, e)
  {
    hide GoLineAt, Formed, Apart;
  }

  /** A token that is no GO line is passed over. */
  lemma TokenPasses(s: string, i: nat, ts: seq<Token>, lineStart: bool)
    requires i < |s| && ts != [] && !ts[0].Separator? && Before(s, i, ts, lineStart)
    ensures Passes(s, i, i + |TextOf(ts[0])|, EndsLine(ts[0]))
  {
    hide ModeAt, Passes, LiteralBody, StartsWith, Lacks, GoLineAt, GoEnd, Print, Unambiguous;
    NextApart(s, i, ts, lineStart);
    match ts[0]
    case Other(c) =>
      CharAt(s, i, [c], 0);
      if lineStart {
        NoneAtStart(lineStart, ts);
        NoSeparator(s, i);
      }
      OneStep(s, i, lineStart);
    case Quoted(body) => QuotedPasses(s, i, body);
    case Remark(text) => RemarkPasses(s, i, text);
    case Comment(text) => CommentPasses(s, i, text);
  }

  lemma SeparatorHere(s: string, i: nat, ts: seq<Token>, lineStart: bool)
    requires i < |s| && ts != [] && ts[0].Separator? && Before(s, i, ts, lineStart)
    ensures Cut(s, i) && GoEnd(s, i) == i + |TextOf(ts[0])| && Before(s, GoEnd(s, i), ts[1..], true)
  {
    hide ModeAt, GoLineAt, GoEnd;
    NextApart(s, i, ts, lineStart);
    SeparatorAt(s, i, ts[0].text, Print(ts[1..]));
    GoRun(s, i, GoEnd(s, i));
  }

  lemma {:induction false} PartsDivided(s: string, start: nat, i: nat, ts: seq<Token>, lineStart: bool)
    requires start <= i && Before(s, i, ts, lineStart)
    ensures Slices(s, Parts(s, start, i)) == Divided(ts, s[start..i])
    decreases |ts|
  {
    hide ModeAt, Cut, Unambiguous, TextOf, Print, Passes, GoEnd, Slices, Parts, EndsLine;
    if ts == [] {
      PrintNothing();
      LastPart(s, start);
    } else {
      NextApart(s, i, ts, lineStart);
      var e := i + |TextOf(ts[0])|;
      if ts[0].Separator? {
        SeparatorHere(s, i, ts, lineStart);
        GoPart(s, start, i);
        SlicesStep(s, (start, i), Parts(s, e, e));
        PartsDivided(s, e, e, ts[1..], true);
        assert s[e..e] == [];
      } else {
        TokenPasses(s, i, ts, lineStart);
        PassedTo(s, i, e, EndsLine(ts[0]));
        SliceConcat(s, start, i, e);
        NoCutRun(s, start, i, e);
        PartsDivided(s, start, e, ts[1..], EndsLine(ts[0]));
      }
    }
  }

  lemma PassedTo(s: string, i: nat, j: nat, lineStart: bool)
    requires Passes(s, i, j, lineStart)
    ensures j < |s| ==> ModeAt(s, j) == Code(lineStart)
    ensures forall k :: i <= k < j ==> !Cut(s, k)
  {
    hide ModeAt, Cut;
  }

  lemma PrintNothing()
    ensures Print([]) == []
  {
  }

  lemma LastPart(s: string, start: nat)
    requires start <= |s|
    ensures Slices(s, Parts(s, start, |s|)) == [s[start..|s|]]
  {
  }

  /** A script of tokens is divided at its GO lines, and at nothing else: not at the word GO in a literal
      or a comment, nor at a GO that shares its line. */
  lemma PrintSplit(ts: seq<Token>)
    requires Unambiguous(true, ts)
    ensures Slices(Print(ts), Parts(Print(ts), 0, 0)) == Divided(ts, [])
  {
    hide Unambiguous, Print, Slices, Parts, Divided, Progress;
    var s := Print(ts);
    Begin(s);
    assert s[0..] == s && s[0..0] == [];
    PartsDivided(s, 0, 0, ts, true);
  }
}
