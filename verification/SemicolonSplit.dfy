/** `_split_semicolons` of src/unique/core/sql_split.py: the chunk-skipping loop, proved against an
    automaton that reads one character at a time. */
module SemicolonSplit {
  import opened Basics
  import opened Text

  /** The two keyword parameters of the splitter. */
  datatype Options = Options(dollarQuote: bool, backslashEscapes: bool)

  /** What the next character is read as. The tail modes read the second character of a pair. */
  datatype Mode = Code | LineComment | BlockHead | Block | BlockTail | DollarTail | Escaped

  datatype State = State(mode: Mode, inString: bool, inDollar: bool, depth: nat)

  const INIT := State(Code, false, false, 0)

  predicate WordStart(t: string, i: nat)
    requires i < |t|
  {
    i == 0 || !IsWord(t[i - 1])
  }

  /** `\s*(;|TRANSACTION\b|WORK\b|ISOLATION\b)` matches at `i`: the BEGIN before it opens no block. */
  predicate Transactional(t: string, i: nat)
    requires i <= |t|
  {
    var k := SkipSpaces(t, i);
    k < |t| &&
    (t[k] == ';' || KeywordAt(t, k, "TRANSACTION") || KeywordAt(t, k, "WORK") || KeywordAt(t, k, "ISOLATION"))
  }

  function DepthAfter(t: string, i: nat, depth: nat): nat
    requires i < |t|
  {
    if !WordStart(t, i) then depth
    else if KeywordAt(t, i, "BEGIN") then (if Transactional(t, i + 5) then depth else depth + 1)
    else if KeywordAt(t, i, "END") && depth > 0 then depth - 1
    else depth
  }

  predicate Plain(s: State) {
    !s.inString && !s.inDollar
  }

  function CodeStep(o: Options, t: string, i: nat, s: State): State
    requires i < |t|
  {
    if Plain(s) && Two(t, i, '-', '-') then s.(mode := LineComment)
    else if Plain(s) && Two(t, i, '/', '*') then s.(mode := BlockHead)
    else if o.dollarQuote && Two(t, i, '$', '$') then s.(mode := DollarTail, inDollar := !s.inDollar)
    else if s.inString && o.backslashEscapes && t[i] == '\\' then s.(mode := Escaped)
    else
      var str := if t[i] == '\'' && !s.inDollar then !s.inString else s.inString;
      State(Code, str, s.inDollar, if s.inDollar || str then s.depth else DepthAfter(t, i, s.depth))
  }

  /** The automaton's step over the character at `i`. */
  function Step(o: Options, t: string, i: nat, s: State): State
    requires i < |t|
  {
    match s.mode
    case Code => CodeStep(o, t, i, s)
    case LineComment => if i + 1 < |t| && t[i + 1] != '\n' then s else s.(mode := Code)
    case BlockHead => s.(mode := Block)
    case Block => if Two(t, i, '*', '/') then s.(mode := BlockTail) else s
    case BlockTail | DollarTail | Escaped => s.(mode := Code)
  }

  /** The state in which the character at `i` is read. */
  function StateAt(o: Options, t: string, i: nat): State
    requires i <= |t|
  {
    if i == 0 then INIT else Step(o, t, i - 1, StateAt(o, t, i - 1))
  }

  /** The `;` at `i` separates statements: outside comment, string and dollar body, at BEGIN depth 0. */
  predicate Cut(o: Options, t: string, i: nat)
    requires i < |t|
  {
    t[i] == ';' && StateAt(o, t, i) == INIT
  }

  /** The raw segments, for a segment that starts at `start` and a scan that has come to `i`. */
  function Segments(o: Options, t: string, start: nat, i: nat): (r: seq<string>)
    requires start <= i <= |t|
    ensures |r| > 0
    decreases |t| - i
  {
    if i == |t| then [t[start..]]
    else if Cut(o, t, i) then [t[start..i]] + Segments(o, t, i + 1, i + 1)
    else Segments(o, t, start, i + 1)
  }

  ghost function Pieces(o: Options, t: string): seq<string> {
    Clean(Segments(o, t, 0, 0))
  }

  // ----- tiling -----

  lemma {:induction false} SegmentsTile(o: Options, t: string, start: nat, i: nat)
    requires start <= i <= |t|
    ensures Join(Segments(o, t, start, i), ';') == t[start..]
    decreases |t| - i
  {
    if i == |t| {
    } else if Cut(o, t, i) {
      SegmentsTile(o, t, i + 1, i + 1);
      var rest := Segments(o, t, i + 1, i + 1);
      assert ([t[start..i]] + rest)[1..] == rest;
      assert t[start..] == t[start..i] + [';'] + t[i + 1..];
    } else {
      SegmentsTile(o, t, start, i + 1);
    }
  }

  /** The raw segments joined by `;` are the text. */
  lemma Tiling(o: Options, t: string)
    ensures Join(Segments(o, t, 0, 0), ';') == t
  {
    SegmentsTile(o, t, 0, 0);
  }

  // ----- the loop -----

  lemma {:induction false} NoCutRun(o: Options, t: string, start: nat, i: nat, j: nat)
    requires start <= i <= j <= |t|
    requires forall k :: i <= k < j ==> !Cut(o, t, k)
    ensures Segments(o, t, start, i) == Segments(o, t, start, j)
    decreases j - i
  {
    hide Cut;
    if i < j {
      NoCutRun(o, t, start, i + 1, j);
    }
  }

  /** The automaton and the loop are in code at `i`, in the same state. */
  ghost predicate InCode(o: Options, t: string, i: nat, s: State) {
    i <= |t| && StateAt(o, t, i) == s && s.mode == Code
  }

  /** Going from `i` to `j`, the automaton passes no cut and ends in state `s`. */
  ghost predicate Passes(o: Options, t: string, i: nat, j: nat, s: State) {
    && i <= j <= |t|
    && (j < |t| ==> InCode(o, t, j, s))
    && forall k :: i <= k < j ==> !Cut(o, t, k)
  }

  lemma {:induction false} LineCommentRun(o: Options, t: string, i: nat, s: State, k: nat)
    requires InCode(o, t, i, s) && Plain(s) && Two(t, i, '-', '-') && i < k <= |t|
    requires forall j :: i <= j < k ==> t[j] != '\n'
    ensures StateAt(o, t, k) == if k < |t| && t[k] != '\n' then s.(mode := LineComment) else s
    ensures forall j :: i <= j < k ==> !Cut(o, t, j)
  {
    hide DepthAfter, StateAt;
    NextState(o, t, k - 1);
    if k > i + 1 {
      LineCommentRun(o, t, i, s, k - 1);
    }
  }

  lemma SkipLineComment(o: Options, t: string, i: nat, s: State, nl: int)
    requires InCode(o, t, i, s) && Plain(s) && Two(t, i, '-', '-') && nl == FindChar(t, '\n', i)
    ensures Passes(o, t, i, if nl == -1 then |t| else nl, s)
  {
    LineCommentRun(o, t, i, s, if nl == -1 then |t| else nl);
  }

  lemma {:induction false} BlockRun(o: Options, t: string, i: nat, s: State, k: nat)
    requires InCode(o, t, i, s) && Plain(s) && Two(t, i, '/', '*') && i + 2 <= k <= |t|
    requires forall j :: i + 2 <= j < k ==> !Two(t, j, '*', '/')
    ensures StateAt(o, t, k) == s.(mode := Block)
    ensures forall j :: i <= j < k ==> !Cut(o, t, j)
  {
    hide DepthAfter, StateAt;
    NextState(o, t, k - 1);
    if k == i + 2 {
      NextState(o, t, i);
      assert StateAt(o, t, i + 1) == s.(mode := BlockHead);
    } else {
      BlockRun(o, t, i, s, k - 1);
    }
  }

  lemma SkipBlock(o: Options, t: string, i: nat, s: State, close: int)
    requires InCode(o, t, i, s) && Plain(s) && Two(t, i, '/', '*') && close == FindPair(t, '*', '/', i + 2)
    ensures Passes(o, t, i, if close == -1 then |t| else close + 2, s)
  {
    hide DepthAfter, StateAt;
    BlockRun(o, t, i, s, if close == -1 then |t| else close);
    if close != -1 {
      NextState(o, t, close);
      NextState(o, t, close + 1);
      assert StateAt(o, t, close + 1) == s.(mode := BlockTail);
    }
  }

  lemma SkipDollar(o: Options, t: string, i: nat, s: State)
    requires InCode(o, t, i, s) && o.dollarQuote && Two(t, i, '$', '$')
    ensures Passes(o, t, i, i + 2, s.(inDollar := !s.inDollar))
  {
    assert StateAt(o, t, i + 1) == s.(mode := DollarTail, inDollar := !s.inDollar);
    hide DepthAfter;
  }

  lemma SkipEscape(o: Options, t: string, i: nat, s: State)
    requires InCode(o, t, i, s) && i < |t| && s.inString && o.backslashEscapes && t[i] == '\\'
    ensures Passes(o, t, i, Min(i + 2, |t|), s)
  {
    assert !(o.dollarQuote && Two(t, i, '$', '$'));
    assert StateAt(o, t, i + 1) == s.(mode := Escaped);
    hide DepthAfter;
  }

  /** A character that opens no comment, dollar body or escape. */
  ghost predicate OneByOne(o: Options, t: string, i: nat, s: State) {
    && i < |t|
    && !(Plain(s) && (Two(t, i, '-', '-') || Two(t, i, '/', '*')))
    && !(o.dollarQuote && Two(t, i, '$', '$'))
    && !(s.inString && o.backslashEscapes && t[i] == '\\')
  }

  lemma OneStep(o: Options, t: string, i: nat, s: State, str: bool, depth: nat)
    requires InCode(o, t, i, s) && OneByOne(o, t, i, s)
    requires str == if t[i] == '\'' && !s.inDollar then !s.inString else s.inString
    requires depth == if s.inDollar || str then s.depth else DepthAfter(t, i, s.depth)
    ensures InCode(o, t, i + 1, State(Code, str, s.inDollar, depth))
    ensures Cut(o, t, i) == (t[i] == ';' && !s.inDollar && !str && depth == 0)
  {
    KeywordHead(t, i, "BEGIN");
    KeywordHead(t, i, "END");
    hide Transactional, KeywordAt, WordStart;
  }

  /** The loop's progress: the statements emitted, the pending text `buf`, and the segments still to
      come from `i` make up the whole result. */
  ghost predicate Progress(o: Options, t: string, done: seq<string>, start: nat, buf: string, i: nat) {
    start <= i <= |t| && buf == t[start..i] && done + Clean(Segments(o, t, start, i)) == Pieces(o, t)
  }

  lemma Start(o: Options, t: string)
    ensures Progress(o, t, [], 0, "", 0) && InCode(o, t, 0, INIT)
  {
  }

  lemma Advance(o: Options, t: string, done: seq<string>, start: nat, buf: string, i: nat, j: nat, s: State)
    requires Progress(o, t, done, start, buf, i) && Passes(o, t, i, j, s)
    ensures Progress(o, t, done, start, buf + t[i..j], j)
    ensures j < |t| ==> InCode(o, t, j, s)
  {
    NoCutRun(o, t, start, i, j);
    SliceConcat(t, start, i, j);
  }

  lemma AdvanceOne(o: Options, t: string, done: seq<string>, start: nat, buf: string, i: nat)
    requires Progress(o, t, done, start, buf, i) && i < |t| && !Cut(o, t, i)
    ensures Progress(o, t, done, start, buf + [t[i]], i + 1)
  {
    assert t[start..i] + [t[i]] == t[start..i + 1];
    hide Cut;
  }

  lemma AdvanceCut(o: Options, t: string, done: seq<string>, start: nat, buf: string, i: nat)
    requires Progress(o, t, done, start, buf, i) && i < |t| && Cut(o, t, i)
    ensures Progress(o, t, if Strip(buf) == [] then done else done + [Strip(buf)], i + 1, "", i + 1)
  {
    hide Cut, Clean, Strip, Segments, Pieces;
    var rest := Segments(o, t, i + 1, i + 1);
    SegmentsCut(o, t, start, i);
    CleanConcat([t[start..i]], rest);
    CleanOne(buf);
    if Strip(buf) == [] {
      assert [] + Clean(rest) == Clean(rest);
    } else {
      Regroup(done, [Strip(buf)], Clean(rest));
    }
  }

  lemma SegmentsCut(o: Options, t: string, start: nat, i: nat)
    requires start <= i < |t| && Cut(o, t, i)
    ensures Segments(o, t, start, i) == [t[start..i]] + Segments(o, t, i + 1, i + 1)
  {
    hide Cut;
  }

  lemma Finish(o: Options, t: string, done: seq<string>, start: nat, buf: string, i: nat)
    requires Progress(o, t, done, start, buf, i) && i == |t|
    ensures Pieces(o, t) == if Strip(buf) == [] then done else done + [Strip(buf)]
  {
    assert t[start..|t|] == t[start..];
    CleanOne(buf);
    hide Clean, Strip;
  }

  method SplitSemicolons(sql: string, o: Options) returns (statements: seq<string>)
    ensures statements == Pieces(o, sql)
  {
    hide Cut, Clean, Segments, StateAt, Strip, KeywordAt, Transactional, Pieces, Progress, Passes, InCode;
    statements := [];
    var buf := "";
    var inDollar, inString, depthBegin: nat := false, false, 0;
    var i: nat := 0;
    ghost var start: nat := 0;
    Start(o, sql);
    while i < |sql|
      invariant Progress(o, sql, statements, start, buf, Min(i, |sql|))
      invariant i < |sql| ==> InCode(o, sql, i, State(Code, inString, inDollar, depthBegin))
      decreases |sql| + 1 - i
    {
      ghost var s := State(Code, inString, inDollar, depthBegin);
      var ch := sql[i];
      if !inDollar && !inString {
        if Two(sql, i, '-', '-') {
          var nl := FindChar(sql, '\n', i);
          var end := if nl == -1 then |sql| else nl;
          SkipLineComment(o, sql, i, s, nl);
          Advance(o, sql, statements, start, buf, i, end, s);
          buf := buf + sql[i..end];
          i := end;
          continue;
        }
        if Two(sql, i, '/', '*') {
          var close := FindPair(sql, '*', '/', i + 2);
          var end := if close == -1 then |sql| else close + 2;
          SkipBlock(o, sql, i, s, close);
          Advance(o, sql, statements, start, buf, i, end, s);
          buf := buf + sql[i..end];
          i := end;
          continue;
        }
      }
      if o.dollarQuote && Two(sql, i, '$', '$') {
        inDollar := !inDollar;
        SkipDollar(o, sql, i, s);
        Advance(o, sql, statements, start, buf, i, i + 2, s.(inDollar := inDollar));
        buf := buf + sql[i..i + 2];
        i := i + 2;
        continue;
      }
      if inString && o.backslashEscapes && ch == '\\' {
        SkipEscape(o, sql, i, s);
        Advance(o, sql, statements, start, buf, i, Min(i + 2, |sql|), s);
        buf := buf + sql[i..Min(i + 2, |sql|)];
        i := i + 2;
        continue;
      }
      if ch == '\'' && !inDollar {
        inString := !inString;
      }
      if !inDollar && !inString {
        if WordStart(sql, i) {
          if KeywordAt(sql, i, "BEGIN") {
            KeywordFits(sql, i, "BEGIN");
            if !Transactional(sql, i + 5) {
              depthBegin := depthBegin + 1;
            }
          } else if KeywordAt(sql, i, "END") && depthBegin > 0 {
            depthBegin := depthBegin - 1;
          }
        }
      }
      OneStep(o, sql, i, s, inString, depthBegin);
      if ch == ';' && !inDollar && !inString && depthBegin == 0 {
        AdvanceCut(o, sql, statements, start, buf, i);
        var stmt := Strip(buf);
        if stmt != [] {
          statements := statements + [stmt];
        }
        buf := "";
        i := i + 1;
        start := i;
        continue;
      }
      AdvanceOne(o, sql, statements, start, buf, i);
      buf := buf + [ch];
      i := i + 1;
    }
    Finish(o, sql, statements, start, buf, Min(i, |sql|));
    var tail := Strip(buf);
    if tail != [] {
      statements := statements + [tail];
    }
  }

  // ----- splitting a returned statement again -----

  /** `a..b` is one raw segment of `t`. */
  ghost predicate Segment(o: Options, t: string, a: nat, b: nat) {
    && a <= b <= |t|
    && (a == 0 || Cut(o, t, a - 1))
    && (b == |t| || Cut(o, t, b))
    && forall k :: a <= k < b ==> !Cut(o, t, k)
  }

  lemma {:induction false} SegmentsAreSegments(o: Options, t: string, start: nat, i: nat, k: nat)
    returns (a: nat, b: nat)
    requires start <= i <= |t| && k < |Segments(o, t, start, i)|
    requires start == 0 || Cut(o, t, start - 1)
    requires forall j :: start <= j < i ==> !Cut(o, t, j)
    ensures Segment(o, t, a, b) && Segments(o, t, start, i)[k] == t[a..b]
    decreases |t| - i
  {
    hide Cut;
    if i == |t| {
      a, b := start, |t|;
    } else if Cut(o, t, i) {
      assert Segments(o, t, start, i) == [t[start..i]] + Segments(o, t, i + 1, i + 1);
      if k == 0 {
        a, b := start, i;
      } else {
        a, b := SegmentsAreSegments(o, t, i + 1, i + 1, k - 1);
      }
    } else {
      a, b := SegmentsAreSegments(o, t, start, i + 1, k);
    }
  }

  lemma SpaceStep(o: Options, t: string, i: nat)
    requires i < |t| && IsSpace(t[i])
    ensures Step(o, t, i, INIT) == INIT
  {
    KeywordHead(t, i, "BEGIN");
    KeywordHead(t, i, "END");
    hide Transactional, KeywordAt;
  }

  lemma NextState(o: Options, t: string, i: nat)
    requires i < |t|
    ensures StateAt(o, t, i + 1) == Step(o, t, i, StateAt(o, t, i))
  {
  }

  lemma {:induction false} LeadingSpace(o: Options, t: string, a: nat, k: nat)
    requires a <= k <= |t| && (a == 0 || Cut(o, t, a - 1))
    requires forall j :: a <= j < k ==> IsSpace(t[j])
    ensures StateAt(o, t, k) == INIT
    decreases k
  {
    hide Step;
    if a < k {
      LeadingSpace(o, t, a, k - 1);
      SpaceStep(o, t, k - 1);
      NextState(o, t, k - 1);
    } else if a > 0 {
      SeparatorStep(o, t, a - 1);
      NextState(o, t, a - 1);
    } else {
      assert StateAt(o, t, 0) == INIT;
    }
  }

  lemma SeparatorStep(o: Options, t: string, i: nat)
    requires i < |t| && t[i] == ';'
    ensures Step(o, t, i, INIT) == INIT
  {
    KeywordHead(t, i, "BEGIN");
    KeywordHead(t, i, "END");
    hide Transactional, KeywordAt;
  }

  lemma TransactionalAgrees(t: string, p: nat, u: string, k: nat)
    requires Window(t, p, u) && k < |u|
    ensures Transactional(u, k) == Transactional(t, p + k)
  {
    SkipAgrees(t, p, u, k);
    var j := SkipSpaces(u, k);
    KeywordAgrees(t, p, u, j, "TRANSACTION");
    KeywordAgrees(t, p, u, j, "WORK");
    KeywordAgrees(t, p, u, j, "ISOLATION");
    assert u[j] == t[p + j];
    hide KeywordAt;
  }

  /** A BEGIN that ends the statement: the `;` its look-ahead saw is the separator itself. */
  predicate LastBegin(u: string, k: nat) {
    k + 5 == |u| && KeywordAt(u, k, "BEGIN")
  }

  lemma DepthAgrees(t: string, p: nat, u: string, k: nat, depth: nat)
    requires Window(t, p, u) && k < |u| && !LastBegin(u, k)
    ensures DepthAfter(u, k, depth) == DepthAfter(t, p + k, depth)
  {
    hide KeywordAt, Transactional;
    KeywordAgrees(t, p, u, k, "BEGIN");
    KeywordAgrees(t, p, u, k, "END");
    if k > 0 {
      assert u[k - 1] == t[p + k - 1];
    }
    if k + 5 < |u| {
      TransactionalAgrees(t, p, u, k + 5);
    } else if KeywordAt(u, k, "BEGIN") {
      KeywordFits(u, k, "BEGIN");
    }
  }

  lemma StepAgrees(o: Options, t: string, p: nat, u: string, k: nat, s: State)
    requires Window(t, p, u) && k + 1 < |u| && !LastBegin(u, k)
    ensures Step(o, u, k, s) == Step(o, t, p + k, s)
  {
    hide DepthAfter, KeywordAt;
    assert u[k] == t[p + k] && u[k + 1] == t[p + k + 1];
    DepthAgrees(t, p, u, k, s.depth);
  }

  lemma WindowFits(t: string, p: nat, u: string)
    requires Window(t, p, u)
    ensures p + |u| <= |t|
  {
  }

  lemma FirstState(o: Options, u: string)
    ensures StateAt(o, u, 0) == INIT
  {
  }

  lemma {:induction false} StateAgrees(o: Options, t: string, p: nat, u: string, k: nat)
    requires Window(t, p, u) && StateAt(o, t, p) == INIT && k < |u|
    requires forall j: nat :: j < k ==> !LastBegin(u, j)
    ensures StateAt(o, u, k) == StateAt(o, t, p + k)
  {
    hide Step, LastBegin, Window, StateAt;
    WindowFits(t, p, u);
    if k == 0 {
      FirstState(o, u);
    } else {
      StateAgrees(o, t, p, u, k - 1);
      StepAgrees(o, t, p, u, k - 1, StateAt(o, u, k - 1));
      NextState(o, u, k - 1);
      NextState(o, t, p + (k - 1));
    }
  }

  /** A window the automaton enters in its initial state has no cut the text does not have there. */
  lemma WindowCut(o: Options, t: string, p: nat, u: string, k: nat)
    requires Window(t, p, u) && StateAt(o, t, p) == INIT && k < |u|
    ensures Cut(o, u, k) ==> Cut(o, t, p + k)
  {
    hide StateAt;
    assert u[k] == t[p + k];
    if j: nat :| j < k && LastBegin(u, j) {
      assert UpperAll(u[j..j + 5])[k - j] == Upper(u[k]);
    } else {
      StateAgrees(o, t, p, u, k);
    }
  }

  /** Splitting any returned statement again returns just that statement. */
  lemma ReSplit(o: Options, t: string, u: string)
    requires u in Pieces(o, t)
    ensures Pieces(o, u) == [u]
  {
    hide StateAt;
    var segs := Segments(o, t, 0, 0);
    CleanMember(segs, u);
    var k :| 0 <= k < |segs| && u == Strip(segs[k]);
    var a, b := SegmentsAreSegments(o, t, 0, 0, k);
    var c, d := StripSplit(t[a..b]);
    var p := a + c;
    SliceOfSlice(t, a, b, c, d);
    SegmentWindow(o, t, a, b, c, d);
    LeadingSpace(o, t, a, p);
    forall k | 0 <= k < |u| ensures !Cut(o, u, k) {
      WindowCut(o, t, p, u, k);
    }
    NoCutRun(o, u, 0, 0, |u|);
    StripFixed(u);
    Start(o, u);
    assert u == u[0..|u|];
    Finish(o, u, [], 0, u, |u|);
    hide Cut, Strip, Segments, Clean;
  }

  lemma SegmentWindow(o: Options, t: string, a: nat, b: nat, c: nat, d: nat)
    requires Segment(o, t, a, b) && c < d <= b - a
    requires forall k :: 0 <= k < c || d <= k < b - a ==> IsSpace(t[a..b][k])
    requires !IsSpace(t[a + c]) && !IsSpace(t[a + d - 1])
    ensures Window(t, a + c, t[a + c..a + d])
    ensures forall j :: a <= j < a + c ==> IsSpace(t[j])
  {
    hide StateAt;
    forall j | a <= j < a + c || a + d <= j < b ensures IsSpace(t[j]) {
      assert t[j] == t[a..b][j - a];
    }
  }

  // ----- scripts put together from tokens -----

  datatype Token =
    | Other(c: char)          // white space, an operator, a parenthesis
    | Name(text: string)      // a run of word characters: names, keywords, numbers
    | Semicolon
    | Quoted(body: string)    // a literal
    | Remark(text: string)    // a line comment, without its newline
    | Comment(text: string)   // a block comment
    | Dollars(body: string)   // a dollar-quoted body

  function TextOf(x: Token): string {
    match x
    case Other(c) => [c]
    case Name(text) => text
    case Semicolon => ";"
    case Quoted(body) => "'" + body + "'"
    case Remark(text) => "--" + text
    case Comment(text) => "/*" + text + "*/"
    case Dollars(body) => "$$" + body + "$$"
  }

  function Print(ts: seq<Token>): string {
    if ts == [] then [] else TextOf(ts[0]) + Print(ts[1..])
  }

  /** The inside of a literal, escapes included. A doubled quote is the end of one literal and the start
      of the next. */
  predicate LiteralBody(o: Options, b: string) {
    if b == [] then true
    else if o.dollarQuote && Two(b, 0, '$', '$') then LiteralBody(o, b[2..])
    else if o.backslashEscapes && b[0] == '\\' then |b| > 1 && LiteralBody(o, b[2..])
    else b[0] != '\'' && LiteralBody(o, b[1..])
  }

  /** The `$$` in it, where these count, are odd in number; `open` says whether those before are. */
  predicate OddDollars(o: Options, b: string, open: bool) {
    if b == [] then open
    else if o.dollarQuote && Two(b, 0, '$', '$') then OddDollars(o, b[2..], !open)
    else if o.backslashEscapes && b[0] == '\\' then |b| > 1 && OddDollars(o, b[2..], open)
    else OddDollars(o, b[1..], open)
  }

  ghost predicate Formed(o: Options, x: Token) {
    match x
    case Other(c) => !IsWord(c) && c != '\'' && c != ';'
    case Name(text) => text != [] && forall k :: 0 <= k < |text| ==> IsWord(text[k])
    case Semicolon => true
    case Quoted(body) => LiteralBody(o, body) && !OddDollars(o, body, false)
    case Remark(text) => '\n' !in text
    case Comment(text) => Lacks(text, '*', '/')
    case Dollars(body) => o.dollarQuote && Lacks(body, '$', '$')
  }

  /** The token ends where its text does when `rest` follows. */
  predicate Apart(o: Options, x: Token, rest: string) {
    rest == [] ||
    match x
    case Other(c) =>
      && !(c == '-' && rest[0] == '-') && !(c == '/' && rest[0] == '*')
      && !(o.dollarQuote && c == '$' && rest[0] == '$')
    case Name(_) => !IsWord(rest[0])
    case Remark(_) => rest[0] == '\n'
    case _ => true
  }

  ghost predicate Unambiguous(o: Options, ts: seq<Token>) {
    ts == [] || (Formed(o, ts[0]) && Apart(o, ts[0], Print(ts[1..])) && Unambiguous(o, ts[1..]))
  }

  /** One of the three words that follow a BEGIN of a transaction. */
  predicate TransactionWord(w: string) {
    w == "TRANSACTION" || w == "WORK" || w == "ISOLATION"
  }

  /** What follows a BEGIN that only begins a transaction: nothing, or one of three words. */
  predicate Transaction(ts: seq<Token>) {
    && ts != []
    && match ts[0]
       case Other(c) => IsSpace(c) && Transaction(ts[1..])
       case Semicolon => true
       case Name(w) => TransactionWord(UpperAll(w))
       case _ => false
  }

  /** The open blocks after the first token. */
  function Opened(ts: seq<Token>, depth: nat): nat
    requires ts != []
  {
    match ts[0]
    case Name(w) =>
      if UpperAll(w) == "BEGIN" && !Transaction(ts[1..]) then depth + 1
      else if UpperAll(w) == "END" && depth > 0 then depth - 1
      else depth
    case _ => depth
  }

  /** The text before each semicolon that stands outside all blocks, and the text after the last;
      `before` is the text of the first one so far. */
  function Divided(ts: seq<Token>, depth: nat, before: string): (r: seq<string>)
    ensures |r| > 0
  {
    if ts == [] then [before]
    else if ts[0].Semicolon? && depth == 0 then [before] + Divided(ts[1..], 0, [])
    else Divided(ts[1..], Opened(ts, depth), before + TextOf(ts[0]))
  }

  // ----- the automaton over a token -----

  /** The automaton is in code, outside literals and bodies, at this depth. */
  function At(depth: nat): State {
    State(Code, false, false, depth)
  }

  /** No keyword begins at a character that is no letter. */
  lemma DepthKept(t: string, i: nat, depth: nat)
    requires i < |t| && (!IsWord(t[i]) || (i > 0 && IsWord(t[i - 1])))
    ensures DepthAfter(t, i, depth) == depth
  {
    KeywordHead(t, i, "BEGIN");
    KeywordHead(t, i, "END");
    hide Transactional, KeywordAt;
  }

  lemma PassOne(o: Options, t: string, i: nat, s: State, r: State)
    requires InCode(o, t, i, s) && i < |t| && !Cut(o, t, i) && InCode(o, t, i + 1, r)
    ensures Passes(o, t, i, i + 1, r)
  {
    hide InCode, Cut;
    assert i + 1 <= |t| by { InCodeBound(o, t, i + 1, r); }
  }

  lemma InCodeBound(o: Options, t: string, i: nat, s: State)
    requires InCode(o, t, i, s)
    ensures i <= |t|
  {
  }

  lemma OtherPasses(o: Options, t: string, i: nat, c: char, depth: nat)
    requires InCode(o, t, i, At(depth)) && Formed(o, Other(c)) && StartsWith(t, [c], i)
    requires i + 1 < |t| ==> Apart(o, Other(c), [t[i + 1]])
    ensures Passes(o, t, i, i + 1, At(depth))
  {
    CharAt(t, i, [c], 0);
    DepthKept(t, i, depth);
    OneStep(o, t, i, At(depth), false, depth);
    PassOne(o, t, i, At(depth), At(depth));
    hide DepthAfter, Cut, InCode, Passes, IsWord;
  }

  /** A semicolon is a cut exactly outside all blocks. */
  lemma SemicolonStep(o: Options, t: string, i: nat, depth: nat)
    requires InCode(o, t, i, At(depth)) && i < |t| && t[i] == ';'
    ensures Cut(o, t, i) <==> depth == 0
    ensures InCode(o, t, i + 1, At(depth))
  {
    DepthKept(t, i, depth);
    OneStep(o, t, i, At(depth), false, depth);
    hide DepthAfter, Cut, InCode;
  }

  lemma PassJoin(o: Options, t: string, i: nat, j: nat, k: nat, s: State, r: State)
    requires Passes(o, t, i, j, s) && Passes(o, t, j, k, r)
    ensures Passes(o, t, i, k, r)
  {
    hide InCode, Cut;
  }

  // ----- words -----

  lemma {:induction false} LettersOnly(kw: string, w: string)
    requires UpperAll(w) == kw && forall k :: 0 <= k < |kw| ==> 'A' <= kw[k] <= 'Z'
    ensures |w| == |kw| && forall k :: 0 <= k < |w| ==> IsWord(w[k])
  {
    forall k | 0 <= k < |w| ensures IsWord(w[k]) {
      assert Upper(w[k]) == UpperAll(w)[k];
    }
  }

  /** A keyword stands at a word exactly when it is that word. */
  lemma KeywordIsWord(t: string, i: nat, w: string, kw: string)
    requires StartsWith(t, w, i) && w != [] && (forall k :: 0 <= k < |w| ==> IsWord(w[k]))
    requires i + |w| < |t| ==> !IsWord(t[i + |w|])
    requires kw != [] && forall k :: 0 <= k < |kw| ==> 'A' <= kw[k] <= 'Z'
    ensures KeywordAt(t, i, kw) <==> UpperAll(w) == kw
  {
    hide IsWord;
    if KeywordAt(t, i, kw) {
      var v := t[i..i + |kw|];
      LettersOnly(kw, v);
      forall j | i <= j < i + |kw| ensures IsWord(t[j]) {
        assert v[j - i] == t[j];
      }
      if |kw| < |w| {
        CharAt(t, i, w, |kw|);
      }
    }
  }

  /** Inside a word the automaton goes on in code. */
  lemma {:induction false} InsideWord(o: Options, t: string, i: nat, k: nat, e: nat, depth: nat)
    requires i < k <= e <= |t| && InCode(o, t, k, At(depth)) && forall j :: i <= j < e ==> IsWord(t[j])
    ensures Passes(o, t, k, e, At(depth))
    decreases e - k
  {
    hide InCode, Passes, DepthAfter, Cut, IsWord;
    if k < e {
      WordChar(t[k]);
      assert k > 0 && IsWord(t[k - 1]);
      DepthKept(t, k, depth);
      OneStep(o, t, k, At(depth), false, depth);
      PassOne(o, t, k, At(depth), At(depth));
      InsideWord(o, t, i, k + 1, e, depth);
      PassJoin(o, t, k, k + 1, e, At(depth), At(depth));
    } else {
      PassNone(o, t, k, At(depth));
    }
  }

  lemma WordChar(c: char)
    requires IsWord(c)
    ensures c != ';' && c != '\'' && c != '-' && c != '/' && c != '$'
  {
  }

  lemma PassNone(o: Options, t: string, i: nat, s: State)
    requires InCode(o, t, i, s)
    ensures Passes(o, t, i, i, s)
  {
  }

  /** White space, and what it leads to, is read alike in the tokens and in the text. */
  lemma {:induction false} TransactionIs(o: Options, t: string, i: nat, ts: seq<Token>)
    requires i <= |t| && t[i..] == Print(ts) && Unambiguous(o, ts)
    ensures Transactional(t, i) <==> Transaction(ts)
    decreases |ts|
  {
    if ts != [] {
      var x, rest := ts[0], Print(ts[1..]);
      FirstToken(t, i, ts);
      if x.Other? && IsSpace(x.c) {
        TransactionIs(o, t, i + 1, ts[1..]);
        assert t[i] == x.c;
        hide KeywordAt;
      } else {
        SpaceIsNoToken(o, x);
        CharAt(t, i, TextOf(x), 0);
        assert SkipSpaces(t, i) == i;
        hide KeywordAt, UpperAll, SkipSpaces, IsSpace, TransactionWord;
        HeadIs(o, t, i, ts);
      }
    }
  }

  lemma FirstToken(t: string, i: nat, ts: seq<Token>)
    requires i <= |t| && t[i..] == Print(ts) && ts != []
    ensures StartsWith(t, TextOf(ts[0]), i) && i + |TextOf(ts[0])| <= |t|
    ensures t[i + |TextOf(ts[0])|..] == Print(ts[1..])
  {
    hide TextOf, StartsWith;
    SplitSlice(t, i, TextOf(ts[0]), Print(ts[1..]));
  }

  lemma SpaceIsNoToken(o: Options, x: Token)
    requires Formed(o, x) && !(x.Other? && IsSpace(x.c))
    ensures TextOf(x) != [] && !IsSpace(TextOf(x)[0])
  {
    if x.Name? {
      assert IsWord(x.text[0]);
    }
  }

  predicate TransactionWordAt(t: string, i: nat) {
    KeywordAt(t, i, "TRANSACTION") || KeywordAt(t, i, "WORK") || KeywordAt(t, i, "ISOLATION")
  }

  lemma HeadIs(o: Options, t: string, i: nat, ts: seq<Token>)
    requires i < |t| && ts != [] && t[i..] == Print(ts) && Unambiguous(o, ts)
    ensures t[i] == ';' <==> ts[0].Semicolon?
    ensures TransactionWordAt(t, i) <==> ts[0].Name? && TransactionWord(UpperAll(ts[0].text))
  {
    hide TransactionWordAt, TransactionWord, UpperAll, IsWord, LiteralBody, OddDollars, Lacks, StartsWith, Print;
    FirstToken(t, i, ts);
    var x := ts[0];
    if x.Name? {
      NameEnds(o, t, i, ts);
      WordHead(t, i, x.text);
    } else {
      HeadIsNoWord(o, x);
      CharAt(t, i, TextOf(x), 0);
      NoWordHead(t, i);
    }
  }

  lemma WordHead(t: string, i: nat, w: string)
    requires StartsWith(t, w, i) && w != [] && (forall k :: 0 <= k < |w| ==> IsWord(w[k])) && i < |t|
    requires i + |w| < |t| ==> !IsWord(t[i + |w|])
    ensures t[i] != ';' && (TransactionWordAt(t, i) <==> TransactionWord(UpperAll(w)))
  {
    hide IsWord, UpperAll, KeywordAt;
    CharAt(t, i, w, 0);
    WordChar(w[0]);
    KeywordIsWord(t, i, w, "TRANSACTION");
    KeywordIsWord(t, i, w, "WORK");
    KeywordIsWord(t, i, w, "ISOLATION");
    hide StartsWith;
  }

  lemma NoWordHead(t: string, i: nat)
    requires i < |t| && !IsWord(t[i])
    ensures !TransactionWordAt(t, i)
  {
    KeywordHead(t, i, "TRANSACTION");
    KeywordHead(t, i, "WORK");
    KeywordHead(t, i, "ISOLATION");
    NoLetter(t[i]);
    hide KeywordAt, IsWord;
  }

  lemma NoLetter(c: char)
    requires !IsWord(c)
    ensures !('A' <= Upper(c) <= 'Z')
  {
  }

  lemma HeadIsNoWord(o: Options, x: Token)
    requires Formed(o, x) && !x.Name?
    ensures TextOf(x) != [] && !IsWord(TextOf(x)[0]) && (TextOf(x)[0] == ';' <==> x.Semicolon?)
  {
  }

  lemma NameEnds(o: Options, t: string, i: nat, ts: seq<Token>)
    requires i <= |t| && ts != [] && ts[0].Name? && t[i..] == Print(ts) && Unambiguous(o, ts)
    ensures var e := i + |ts[0].text|; e <= |t| && (e < |t| ==> !IsWord(t[e]))
  {
    hide IsWord;
    FirstToken(t, i, ts);
    var e := i + |ts[0].text|;
    if e < |t| {
      assert t[e..][0] == t[e];
    }
  }

  /** The word at `i` leaves as many blocks open in the text as among the tokens. */
  lemma DepthOfWord(o: Options, t: string, i: nat, ts: seq<Token>, depth: nat)
    requires i <= |t| && ts != [] && ts[0].Name? && t[i..] == Print(ts) && Unambiguous(o, ts)
    requires i < |t| && (i > 0 ==> !IsWord(t[i - 1]))
    ensures DepthAfter(t, i, depth) == Opened(ts, depth)
  {
    hide KeywordAt, IsWord, Transactional, Transaction, Print;
    var w := ts[0].text;
    FirstToken(t, i, ts);
    NameEnds(o, t, i, ts);
    KeywordIsWord(t, i, w, "BEGIN");
    KeywordIsWord(t, i, w, "END");
    if UpperAll(w) == "BEGIN" {
      assert |w| == |"BEGIN"|;
      TransactionIs(o, t, i + 5, ts[1..]);
    }
    hide UpperAll;
  }

  lemma WordPasses(o: Options, t: string, i: nat, ts: seq<Token>, depth: nat)
    requires InCode(o, t, i, At(depth)) && ts != [] && ts[0].Name? && t[i..] == Print(ts) && Unambiguous(o, ts)
    requires i > 0 ==> !IsWord(t[i - 1])
    ensures Passes(o, t, i, i + |ts[0].text|, At(Opened(ts, depth)))
  {
    hide InCode, Passes, DepthAfter, Cut, IsWord, Opened;
    var w := ts[0].text;
    InCodeBound(o, t, i, At(depth));
    FirstToken(t, i, ts);
    var e := i + |w|;
    forall j | i <= j < e ensures IsWord(t[j]) {
      CharAt(t, i, w, j - i);
    }
    WordChar(t[i]);
    DepthOfWord(o, t, i, ts, depth);
    var now := Opened(ts, depth);
    OneStep(o, t, i, At(depth), false, now);
    PassOne(o, t, i, At(depth), At(now));
    InsideWord(o, t, i, i + 1, e, now);
    PassJoin(o, t, i, i + 1, e, At(now), At(now));
  }

  // ----- literals, comments and bodies -----

  /** The state inside a literal. */
  function Inside(open: bool, depth: nat): State {
    State(Code, true, open, depth)
  }


  lemma NoCutInside(o: Options, t: string, i: nat, s: State)
    requires i < |t| && InCode(o, t, i, s) && (s.inString || s.inDollar)
    ensures !Cut(o, t, i)
  {
    hide StateAt;
  }

  lemma InsideOne(o: Options, t: string, i: nat, open: bool, depth: nat)
    requires InCode(o, t, i, Inside(open, depth)) && OneByOne(o, t, i, Inside(open, depth)) && t[i] != '\''
    ensures Passes(o, t, i, i + 1, Inside(open, depth))
  {
    OneStep(o, t, i, Inside(open, depth), true, depth);
    NoCutInside(o, t, i, Inside(open, depth));
    PassOne(o, t, i, Inside(open, depth), Inside(open, depth));
    hide DepthAfter, Cut, InCode;
  }

  /** What the loop does with the first characters of the inside of a literal, and how many they are. */
  lemma BodyStep(o: Options, t: string, i: nat, b: string, open: bool, depth: nat) returns (n: nat, now: bool)
    requires b != [] && LiteralBody(o, b) && StartsWith(t, b + "'", i) && InCode(o, t, i, Inside(open, depth))
    ensures 0 < n <= |b| && LiteralBody(o, b[n..]) && OddDollars(o, b, open) == OddDollars(o, b[n..], now)
    ensures Passes(o, t, i, i + n, Inside(now, depth))
  {
    hide DepthAfter, Cut, InCode, Passes;
    assert t[i] == b[0] by { CharAt(t, i, b + "'", 0); }
    assert i + 1 < |t| && t[i + 1] == (b + "'")[1] by { CharAt(t, i, b + "'", 1); }
    var s := Inside(open, depth);
    if o.dollarQuote && Two(b, 0, '$', '$') {
      SkipDollar(o, t, i, s);
      n, now := 2, !open;
    } else if o.backslashEscapes && b[0] == '\\' {
      assert Min(i + 2, |t|) == i + 2;
      SkipEscape(o, t, i, s);
      n, now := 2, open;
    } else {
      InsideOne(o, t, i, open, depth);
      n, now := 1, open;
    }
  }

  lemma {:induction false} BodyPasses(o: Options, t: string, i: nat, b: string, open: bool, depth: nat)
    requires LiteralBody(o, b) && StartsWith(t, b + "'", i) && InCode(o, t, i, Inside(open, depth))
    ensures Passes(o, t, i, i + |b|, Inside(OddDollars(o, b, open), depth))
    decreases |b|
  {
    hide DepthAfter, Cut, InCode, Passes, StartsWith;
    var s := Inside(open, depth);
    if b == [] {
      PassNone(o, t, i, s);
    } else {
      var n, now := BodyStep(o, t, i, b, open, depth);
      PartStarts(t, i, b + "'", n, |b| + 1);
      assert (b + "'")[n..|b| + 1] == b[n..] + "'";
      PassesInCode(o, t, i, i + n, Inside(now, depth), b[n..] + "'");
      BodyPasses(o, t, i + n, b[n..], now, depth);
      PassJoin(o, t, i, i + n, i + |b|, Inside(now, depth), Inside(OddDollars(o, b, open), depth));
    }
  }

  lemma PassesInCode(o: Options, t: string, i: nat, j: nat, s: State, u: string)
    requires Passes(o, t, i, j, s) && StartsWith(t, u, j) && u != []
    ensures j < |t| && InCode(o, t, j, s)
  {
    hide InCode, Cut;
  }

  /** A literal is passed over; after it the automaton is in code, unless an odd number of `$$` in it has
      opened a body. */
  lemma LiteralPasses(o: Options, t: string, i: nat, b: string, depth: nat)
    requires LiteralBody(o, b) && StartsWith(t, "'" + b + "'", i) && InCode(o, t, i, At(depth))
    ensures Passes(o, t, i, i + |b| + 2, if OddDollars(o, b, false) then Inside(true, depth) else At(depth))
  {
    hide DepthAfter, Cut, InCode, Passes, StartsWith, LiteralBody, OddDollars;
    var u, e, odd := "'" + b + "'", i + |b| + 1, OddDollars(o, b, false);
    CharAt(t, i, u, 0);
    CharAt(t, i, u, |b| + 1);
    OneStep(o, t, i, At(depth), true, depth);
    PassOne(o, t, i, At(depth), Inside(false, depth));
    PartStarts(t, i, u, 1, |u|);
    assert u[1..|u|] == b + "'";
    BodyPasses(o, t, i + 1, b, false, depth);
    PartStarts(t, i, u, |b| + 1, |u|);
    assert u[|b| + 1..|u|] == "'";
    PassesInCode(o, t, i + 1, e, Inside(odd, depth), "'");
    ClosingQuote(o, t, e, odd, depth);
    PassJoin(o, t, i, i + 1, e, Inside(false, depth), Inside(odd, depth));
    PassJoin(o, t, i, e, e + 1, Inside(odd, depth), if odd then Inside(true, depth) else At(depth));
  }

  /** A literal ends at its closing quote exactly when the `$$` in it, where these count, are even in
      number: an odd one opens a body that the quote does not close. */
  lemma LiteralEndsIff(o: Options, t: string, i: nat, b: string, depth: nat)
    requires LiteralBody(o, b) && StartsWith(t, "'" + b + "'", i) && InCode(o, t, i, At(depth)) && i + |b| + 2 < |t|
    ensures InCode(o, t, i + |b| + 2, At(depth)) <==> !OddDollars(o, b, false)
  {
    hide StartsWith, LiteralBody, OddDollars, StateAt, Cut;
    LiteralPasses(o, t, i, b, depth);
  }

  lemma ClosingQuote(o: Options, t: string, e: nat, odd: bool, depth: nat)
    requires e < |t| && t[e] == '\'' && InCode(o, t, e, Inside(odd, depth))
    ensures Passes(o, t, e, e + 1, if odd then Inside(true, depth) else At(depth))
  {
    hide Cut, InCode, Passes;
    DepthKept(t, e, depth);
    OneStep(o, t, e, Inside(odd, depth), odd, depth);
    NoCutInside(o, t, e, Inside(odd, depth));
    PassOne(o, t, e, Inside(odd, depth), if odd then Inside(true, depth) else At(depth));
    hide DepthAfter;
  }

  lemma RemarkPasses(o: Options, t: string, i: nat, text: string, depth: nat)
    requires '\n' !in text && StartsWith(t, "--" + text, i) && InCode(o, t, i, At(depth))
    requires var e := i + 2 + |text|; e < |t| ==> t[e] == '\n'
    ensures Passes(o, t, i, i + 2 + |text|, At(depth))
  {
    hide DepthAfter, Cut, InCode, Passes, StartsWith;
    var u, e := "--" + text, i + 2 + |text|;
    CharAt(t, i, u, 0);
    CharAt(t, i, u, 1);
    forall j | i <= j < e ensures j < |t| && t[j] != '\n' {
      CharAt(t, i, u, j - i);
    }
    var nl := FindChar(t, '\n', i);
    assert e <= |t| by { CharAt(t, i, u, |u| - 1); }
    assert e == if nl == -1 then |t| else nl;
    SkipLineComment(o, t, i, At(depth), nl);
  }

  lemma CommentPasses(o: Options, t: string, i: nat, text: string, depth: nat)
    requires Lacks(text, '*', '/') && StartsWith(t, "/*" + text + "*/", i) && InCode(o, t, i, At(depth))
    ensures Passes(o, t, i, i + |text| + 4, At(depth))
  {
    hide DepthAfter, Cut, InCode, Passes, StartsWith, Lacks, FindPair;
    var u := "/*" + text + "*/";
    CharAt(t, i, u, 0);
    CharAt(t, i, u, 1);
    PartStarts(t, i, u, 2, |u|);
    assert u[2..|u|] == text + ['*', '/'];
    FirstPair(t, i + 2, text, '*', '/');
    SkipBlock(o, t, i, At(depth), FindPair(t, '*', '/', i + 2));
  }

  /** The state inside a dollar-quoted body, one that began inside a literal or not. */
  function InBody(quoted: bool, depth: nat): State {
    State(Code, quoted, true, depth)
  }

  lemma {:induction false} DollarRun(o: Options, t: string, i: nat, e: nat, quoted: bool, depth: nat)
    requires o.dollarQuote && !(quoted && o.backslashEscapes) && i <= e <= |t| && InCode(o, t, i, InBody(quoted, depth))
    requires forall j :: i <= j < e ==> !Two(t, j, '$', '$')
    ensures Passes(o, t, i, e, InBody(quoted, depth))
    decreases e - i
  {
    hide DepthAfter, Cut, InCode, Passes;
    var s := InBody(quoted, depth);
    if i < e {
      OneStep(o, t, i, s, quoted, depth);
      NoCutInside(o, t, i, s);
      PassOne(o, t, i, s, s);
      DollarRun(o, t, i + 1, e, quoted, depth);
      PassJoin(o, t, i, i + 1, e, s, s);
    } else {
      PassNone(o, t, i, s);
    }
  }

  lemma DollarsPass(o: Options, t: string, i: nat, b: string, depth: nat)
    requires o.dollarQuote && Lacks(b, '$', '$') && StartsWith(t, "$$" + b + "$$", i) && InCode(o, t, i, At(depth))
    ensures Passes(o, t, i, i + |b| + 4, At(depth))
  {
    hide DepthAfter, Cut, InCode, Passes, StartsWith, Lacks, FindPair;
    var u, e := "$$" + b + "$$", i + 2 + |b|;
    CharAt(t, i, u, 0);
    CharAt(t, i, u, 1);
    PartStarts(t, i, u, 2, |u|);
    assert u[2..|u|] == b + ['$', '$'];
    FirstPair(t, i + 2, b, '$', '$');
    SkipDollar(o, t, i, At(depth));
    PassesInCode(o, t, i, i + 2, InBody(false, depth), b + ['$', '$']);
    DollarRun(o, t, i + 2, e, false, depth);
    PartStarts(t, i, u, |b| + 2, |u|);
    assert u[|b| + 2..|u|] == "$$";
    PassesInCode(o, t, i + 2, e, InBody(false, depth), "$$");
    SkipDollar(o, t, e, InBody(false, depth));
    PassJoin(o, t, i, i + 2, e, InBody(false, depth), InBody(false, depth));
    PassJoin(o, t, i, e, e + 2, InBody(false, depth), At(depth));
  }

  // ----- splitting what was put together -----

  /** The loop stands before the tokens, outside literals and bodies, and not inside a word. */
  ghost predicate Before(o: Options, t: string, i: nat, ts: seq<Token>, depth: nat) {
    && i <= |t| && t[i..] == Print(ts) && Unambiguous(o, ts)
    && (i < |t| ==> InCode(o, t, i, At(depth)))
    && (ts != [] && ts[0].Name? && i > 0 ==> !IsWord(t[i - 1]))
  }

  lemma NextApart(o: Options, t: string, i: nat, ts: seq<Token>)
    requires i <= |t| && ts != [] && t[i..] == Print(ts) && Unambiguous(o, ts)
    ensures var e := i + |TextOf(ts[0])|;
      && e <= |t| && t[e..] == Print(ts[1..]) && Formed(o, ts[0]) && Unambiguous(o, ts[1..])
      && StartsWith(t, TextOf(ts[0]), i)
      && (e < |t| ==> Apart(o, ts[0], t[e..]) && t[e..][0] == t[e])
  {
    FirstToken(t, i, ts);
    hide Formed, Apart;
  }

  /** After a token comes no further part of a word. */
  lemma NotInWord(o: Options, t: string, i: nat, ts: seq<Token>)
    requires i <= |t| && ts != [] && t[i..] == Print(ts) && Unambiguous(o, ts)
    ensures var e := i + |TextOf(ts[0])|;
      i < e <= |t| && (|ts| > 1 && ts[1].Name? ==> !IsWord(t[e - 1]))
  {
    hide IsWord, Formed, Apart, Print, Unambiguous, TextOf, StartsWith;
    NextApart(o, t, i, ts);
    var u, e := TextOf(ts[0]), i + |TextOf(ts[0])|;
    EndIsNoWord(o, ts[0]);
    assert t[e - 1] == u[|u| - 1] by { CharAt(t, i, u, |u| - 1); }
    if |ts| > 1 && ts[1].Name? {
      NextIsWord(o, t, e, ts[1..]);
      WordNotNext(o, ts[0], t[e..]);
    }
  }

  lemma NextIsWord(o: Options, t: string, e: nat, ts: seq<Token>)
    requires e <= |t| && ts != [] && ts[0].Name? && t[e..] == Print(ts) && Unambiguous(o, ts)
    ensures e < |t| && IsWord(t[e]) && t[e..][0] == t[e]
  {
    hide IsWord, Print, StartsWith;
    NextApart(o, t, e, ts);
    CharAt(t, e, ts[0].text, 0);
  }

  lemma WordNotNext(o: Options, x: Token, rest: string)
    requires rest != [] && IsWord(rest[0])
    ensures Apart(o, x, rest) ==> !x.Name? && !x.Remark?
  {
    NewlineIsNoWord(rest[0]);
  }

  lemma NewlineIsNoWord(c: char)
    ensures IsWord(c) ==> c != '\n'
  {
  }

  lemma EndIsNoWord(o: Options, x: Token)
    requires Formed(o, x)
    ensures var u := TextOf(x); u != [] && (!x.Name? && !x.Remark? ==> !IsWord(u[|u| - 1]))
  {
    hide LiteralBody, OddDollars, Lacks;
  }

  /** A token that is no semicolon is passed over. */
  lemma TokenPasses(o: Options, t: string, i: nat, ts: seq<Token>, depth: nat)
    requires i < |t| && ts != [] && !ts[0].Semicolon? && Before(o, t, i, ts, depth)
    ensures Passes(o, t, i, i + |TextOf(ts[0])|, At(Opened(ts, depth)))
  {
    hide InCode, Passes, LiteralBody, OddDollars, Lacks, StartsWith, IsWord, Opened, Unambiguous;
    NextApart(o, t, i, ts);
    var e := i + |TextOf(ts[0])|;
    if !ts[0].Name? {
      assert Opened(ts, depth) == depth by { NotOpened(ts, depth); }
    }
    match ts[0]
    case Name(_) => WordPasses(o, t, i, ts, depth);
    case Other(c) => OtherPasses(o, t, i, c, depth);
    case Quoted(b) => LiteralPasses(o, t, i, b, depth);
    case Remark(x) => RemarkPasses(o, t, i, x, depth);
    case Comment(x) => CommentPasses(o, t, i, x, depth);
    case Dollars(b) => DollarsPass(o, t, i, b, depth);
  }

  lemma NotOpened(ts: seq<Token>, depth: nat)
    requires ts != [] && !ts[0].Name?
    ensures Opened(ts, depth) == depth
  {
  }

  lemma {:induction false} SegmentsDivided(o: Options, t: string, start: nat, i: nat, ts: seq<Token>, depth: nat)
    requires start <= i && Before(o, t, i, ts, depth)
    ensures Segments(o, t, start, i) == Divided(ts, depth, t[start..i])
    decreases |ts|
  {
    hide InCode, Passes, Cut, IsWord, Opened, Unambiguous, TextOf, Print;
    if ts == [] {
      PrintNothing();
      assert i == |t| && t[start..] == t[start..i];
    } else {
      NotInWord(o, t, i, ts);
      NextApart(o, t, i, ts);
      var u, e := TextOf(ts[0]), i + |TextOf(ts[0])|;
      if ts[0].Semicolon? {
        SemicolonHere(o, t, i, ts, depth);
        if depth == 0 {
          SegmentsDivided(o, t, e, e, ts[1..], 0);
          assert t[e..e] == [];
        } else {
          NoCutRun(o, t, start, i, e);
          Extend(t, start, i, u);
          SegmentsDivided(o, t, start, e, ts[1..], depth);
        }
      } else {
        TokenPasses(o, t, i, ts, depth);
        PassesBefore(o, t, i, ts, Opened(ts, depth));
        NoCutRun(o, t, start, i, e);
        Extend(t, start, i, u);
        SegmentsDivided(o, t, start, e, ts[1..], Opened(ts, depth));
      }
    }
  }

  lemma PrintNothing()
    ensures Print([]) == []
  {
  }

  lemma SemicolonHere(o: Options, t: string, i: nat, ts: seq<Token>, depth: nat)
    requires i < |t| && ts != [] && ts[0].Semicolon? && Before(o, t, i, ts, depth)
    ensures |TextOf(ts[0])| == 1 && t[i] == ';' && (Cut(o, t, i) <==> depth == 0) && Opened(ts, depth) == depth
    ensures Before(o, t, i + 1, ts[1..], depth)
  {
    hide InCode, Cut, Unambiguous, Print;
    NextApart(o, t, i, ts);
    NotInWord(o, t, i, ts);
    CharAt(t, i, ";", 0);
    SemicolonStep(o, t, i, depth);
    hide IsWord;
  }

  lemma PassesBefore(o: Options, t: string, i: nat, ts: seq<Token>, now: nat)
    requires i <= |t| && ts != [] && t[i..] == Print(ts) && Unambiguous(o, ts)
    requires Passes(o, t, i, i + |TextOf(ts[0])|, At(now))
    ensures Before(o, t, i + |TextOf(ts[0])|, ts[1..], now)
    ensures forall k :: i <= k < i + |TextOf(ts[0])| ==> !Cut(o, t, k)
  {
    hide InCode, Cut, Unambiguous, Print, IsWord, TextOf;
    NextApart(o, t, i, ts);
    NotInWord(o, t, i, ts);
  }

  lemma Extend(t: string, start: nat, i: nat, u: string)
    requires start <= i && StartsWith(t, u, i)
    ensures i + |u| <= |t| && t[start..i] + u == t[start..i + |u|]
  {
  }

  /** A script of tokens is divided where the tokens say: at the semicolons outside all blocks, a block
      being opened by a BEGIN that begins no transaction and closed by an END. */
  lemma PrintSplit(o: Options, ts: seq<Token>)
    requires Unambiguous(o, ts)
    ensures Pieces(o, Print(ts)) == Clean(Divided(ts, 0, []))
  {
    hide Unambiguous, Print, Divided, Segments, Clean;
    var t := Print(ts);
    Start(o, t);
    assert t[0..] == t && t[0..0] == [];
    SegmentsDivided(o, t, 0, 0, ts, 0);
  }

  // ----- statements -----

  /** A token, or a block with what is between its BEGIN and its END. */
  datatype Item = Leaf(token: Token) | Group(begin: string, body: seq<Item>, end: string)

  function Flat(items: seq<Item>): seq<Token> {
    if items == [] then [] else FlatItem(items[0]) + Flat(items[1..])
  }

  function FlatItem(x: Item): seq<Token> {
    match x
    case Leaf(token) => [token]
    case Group(begin, body, end) => [Name(begin)] + Flat(body) + [Name(end)]
  }

  predicate Keyword(x: Token, kw: string) {
    x.Name? && UpperAll(x.text) == kw
  }

  /** The inside of a block: its own BEGIN and END words are those of the blocks in it. */
  predicate BlockBody(items: seq<Item>) {
    items == [] || (BlockItem(items[0]) && BlockBody(items[1..]))
  }

  predicate BlockItem(x: Item) {
    match x
    case Leaf(token) => !Keyword(token, "BEGIN") && !Keyword(token, "END")
    case Group(begin, body, end) =>
      UpperAll(begin) == "BEGIN" && UpperAll(end) == "END" && BlockBody(body) && !Transaction(Flat(body))
  }

  /** A statement: no semicolon outside its blocks, and a BEGIN of its own begins a transaction. */
  predicate Statement(items: seq<Item>) {
    items == [] || (
      && (items[0].Group? ==> BlockItem(items[0]))
      && (items[0].Leaf? ==> !items[0].token.Semicolon?)
      && (items[0].Leaf? && Keyword(items[0].token, "BEGIN") ==> Transaction(Flat(items[1..]) + [Semicolon]))
      && Statement(items[1..]))
  }

  /** The statements, each with a semicolon after it. */
  function Script(ss: seq<seq<Item>>): seq<Token> {
    if ss == [] then [] else Flat(ss[0]) + [Semicolon] + Script(ss[1..])
  }

  function Texts(ss: seq<seq<Item>>): seq<string> {
    if ss == [] then [] else [Print(Flat(ss[0]))] + Texts(ss[1..])
  }

  lemma {:induction false} PrintConcat(x: seq<Token>, y: seq<Token>)
    ensures Print(x + y) == Print(x) + Print(y)
  {
    if x == [] {
      assert x + y == y;
    } else {
      assert (x + y)[1..] == x[1..] + y;
      PrintConcat(x[1..], y);
    }
  }

  lemma {:induction false} TransactionGrows(x: seq<Token>, y: seq<Token>)
    requires Transaction(x)
    ensures Transaction(x + y)
  {
    assert (x + y)[1..] == x[1..] + y && (x + y)[0] == x[0];
    if x[0].Other? {
      TransactionGrows(x[1..], y);
    }
  }

  lemma {:induction false} NoTransaction(x: seq<Token>, end: string, y: seq<Token>)
    requires !Transaction(x) && UpperAll(end) == "END"
    ensures !Transaction(x + [Name(end)] + y)
  {
    var z := x + [Name(end)] + y;
    if x == [] {
      assert z[0] == Name(end);
    } else {
      assert z[0] == x[0] && z[1..] == x[1..] + [Name(end)] + y;
      if x[0].Other? && IsSpace(x[0].c) {
        NoTransaction(x[1..], end, y);
      }
    }
  }

  lemma DividedStep(x: Token, ts: seq<Token>, depth: nat, before: string)
    requires !(x.Semicolon? && depth == 0)
    ensures Divided([x] + ts, depth, before) == Divided(ts, Opened([x] + ts, depth), before + TextOf(x))
  {
    assert ([x] + ts)[1..] == ts;
  }

  lemma OpenedWord(x: Token, ts: seq<Token>, depth: nat)
    ensures Keyword(x, "BEGIN") && !Transaction(ts) ==> Opened([x] + ts, depth) == depth + 1
    ensures Keyword(x, "BEGIN") && Transaction(ts) ==> Opened([x] + ts, depth) == depth
    ensures Keyword(x, "END") && depth > 0 ==> Opened([x] + ts, depth) == depth - 1
    ensures (Keyword(x, "END") && depth == 0) || (!Keyword(x, "BEGIN") && !Keyword(x, "END")) ==>
      Opened([x] + ts, depth) == depth
  {
    hide UpperAll, Transaction;
    assert ([x] + ts)[1..] == ts;
    assert |"BEGIN"| == 5 && |"END"| == 3;
  }

  /** A block is passed over whole. */
  lemma {:induction false} GroupDivided(x: Item, rest: seq<Token>, depth: nat, before: string)
    requires x.Group? && BlockItem(x)
    ensures Divided(FlatItem(x) + rest, depth, before) == Divided(rest, depth, before + Print(FlatItem(x)))
    decreases x
  {
    hide Divided, Print, Transaction, Opened, UpperAll;
    var b, e := Name(x.begin), Name(x.end);
    var tail := [e] + rest;
    var body := Flat(x.body);
    NoTransaction(body, x.end, rest);
    assert body + [e] + rest == body + tail;
    assert FlatItem(x) + rest == [b] + (body + tail);
    DividedStep(b, body + tail, depth, before);
    OpenedWord(b, body + tail, depth);
    BodyDivided(x.body, tail, depth + 1, before + x.begin);
    DividedStep(e, rest, depth + 1, before + x.begin + Print(body));
    OpenedWord(e, rest, depth + 1);
    PrintGroup(x.begin, body, x.end);
    assert before + x.begin + Print(body) + x.end == before + (x.begin + Print(body) + x.end);
  }

  lemma PrintGroup(begin: string, body: seq<Token>, end: string)
    ensures Print([Name(begin)] + body + [Name(end)]) == begin + Print(body) + end
  {
    PrintConcat([Name(begin)] + body, [Name(end)]);
    PrintConcat([Name(begin)], body);
    PrintOne(Name(begin));
    PrintOne(Name(end));
    hide Print;
  }

  lemma PrintOne(x: Token)
    ensures Print([x]) == TextOf(x)
  {
    assert Print([]) == [];
  }

  /** Inside a block semicolons are no cuts. */
  lemma {:induction false} BodyDivided(items: seq<Item>, rest: seq<Token>, depth: nat, before: string)
    requires BlockBody(items) && depth > 0
    ensures Divided(Flat(items) + rest, depth, before) == Divided(rest, depth, before + Print(Flat(items)))
    decreases items
  {
    hide Divided, Print, Transaction, Opened, UpperAll, TextOf;
    if items == [] {
      PrintNothing();
      assert [] + rest == rest && before + [] == before;
    } else {
      var x, more := items[0], Flat(items[1..]) + rest;
      FlatStep(items, rest);
      if x.Leaf? {
        DividedStep(x.token, more, depth, before);
        OpenedWord(x.token, more, depth);
        PrintOne(x.token);
      } else {
        GroupDivided(x, more, depth, before);
      }
      BodyDivided(items[1..], rest, depth, before + Print(FlatItem(x)));
      Regroup(before, Print(FlatItem(x)), Print(Flat(items[1..])));
    }
  }

  lemma FlatStep(items: seq<Item>, rest: seq<Token>)
    requires items != []
    ensures Flat(items) + rest == FlatItem(items[0]) + (Flat(items[1..]) + rest)
    ensures Print(Flat(items)) == Print(FlatItem(items[0])) + Print(Flat(items[1..]))
  {
    hide FlatItem, Print;
    PrintConcat(FlatItem(items[0]), Flat(items[1..]));
    Regroup(FlatItem(items[0]), Flat(items[1..]), rest);
  }

  lemma {:induction false} StatementDivided(items: seq<Item>, rest: seq<Token>, before: string)
    requires Statement(items)
    ensures Divided(Flat(items) + [Semicolon] + rest, 0, before)
         == [before + Print(Flat(items))] + Divided(rest, 0, [])
    decreases items
  {
    hide Print, Transaction, Opened, UpperAll, TextOf;
    var tail := [Semicolon] + rest;
    assert Flat(items) + [Semicolon] + rest == Flat(items) + tail;
    if items == [] {
      PrintNothing();
      assert [] + tail == tail && tail[0] == Semicolon && tail[1..] == rest && before + [] == before;
    } else {
      hide Divided;
      var x, more := items[0], Flat(items[1..]) + tail;
      FlatStep(items, tail);
      if x.Leaf? {
        if Keyword(x.token, "BEGIN") {
          TransactionGrows(Flat(items[1..]) + [Semicolon], rest);
          assert Flat(items[1..]) + [Semicolon] + rest == more;
        }
        DividedStep(x.token, more, 0, before);
        OpenedWord(x.token, more, 0);
        PrintOne(x.token);
      } else {
        GroupDivided(x, more, 0, before);
      }
      StatementDivided(items[1..], rest, before + Print(FlatItem(x)));
      assert Flat(items[1..]) + [Semicolon] + rest == more;
      Regroup(before, Print(FlatItem(x)), Print(Flat(items[1..])));
    }
  }

  lemma {:induction false} ScriptDivided(ss: seq<seq<Item>>)
    requires forall k :: 0 <= k < |ss| ==> Statement(ss[k])
    ensures Clean(Divided(Script(ss), 0, [])) == Clean(Texts(ss))
  {
    hide Statement, Print, Flat, Divided, Strip;
    if ss == [] {
      assert Divided([], 0, []) == [[]] by { NothingDivided(); }
      CleanOne([]);
      assert Strip([]) == [] by { StripFixed([]); }
    } else {
      var rest := Script(ss[1..]);
      StatementDivided(ss[0], rest, []);
      ScriptDivided(ss[1..]);
      assert [] + Print(Flat(ss[0])) == Print(Flat(ss[0]));
      CleanConcat([Print(Flat(ss[0]))], Divided(rest, 0, []));
      CleanConcat([Print(Flat(ss[0]))], Texts(ss[1..]));
      hide Clean;
    }
  }

  lemma NothingDivided()
    ensures Divided([], 0, []) == [[]]
  {
  }

  /** Statements written one after the other, each with its semicolon, are what splitting the script
      returns: with blocks nested to any depth, literals, comments and bodies that hold semicolons, and
      transactions begun by a BEGIN of their own. */
  lemma StatementsComeBack(o: Options, ss: seq<seq<Item>>)
    requires Unambiguous(o, Script(ss)) && forall k :: 0 <= k < |ss| ==> Statement(ss[k])
    ensures Pieces(o, Print(Script(ss))) == Clean(Texts(ss))
  {
    hide Unambiguous, Pieces, Clean, Statement, Divided, Print;
    PrintSplit(o, Script(ss));
    ScriptDivided(ss);
  }

  // ----- a script that is not divided as it reads -----

  lemma WholePiece(o: Options, t: string)
    requires Segments(o, t, 0, 0) == Segments(o, t, 0, |t|)
    ensures Pieces(o, t) == Clean([t])
  {
    hide Clean;
    assert t[0..] == t;
  }

  /** `SELECT '$$'; ...` for PostgreSQL: the `$$` in the literal opens a body, and nothing is cut any more. */
  lemma DollarsInLiteral(rest: string)
    requires forall k: nat :: k < |rest| ==> !Two(rest, k, '$', '$')
    ensures Pieces(Options(true, false), "'$$';" + rest) == Clean(["'$$';" + rest])
  {
    hide StateAt, DepthAfter, Cut, Segments, Clean, Pieces;
    var o, t := Options(true, false), "'$$';" + rest;
    Start(o, t);
    assert LiteralBody(o, "$$") && OddDollars(o, "$$", false) by {
      assert "$$"[2..] == [];
    }
    assert t[0..4] == "'" + "$$" + "'";
    LiteralPasses(o, t, 0, "$$", 0);
    forall k | 4 <= k < |t| ensures !Two(t, k, '$', '$') {
      if k > 4 {
        assert Two(t, k, '$', '$') <==> Two(rest, k - 5, '$', '$');
      }
    }
    PassesInCode(o, t, 0, 4, Inside(true, 0), t[4..]);
    DollarRun(o, t, 4, |t|, true, 0);
    NoCutRun(o, t, 0, 0, |t|);
    WholePiece(o, t);
  }
}
