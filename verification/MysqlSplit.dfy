/** `_split_line_semis` and `_split_mysql` of src/unique/core/batch_splitter.py: MySQL batches, with
    DELIMITER directives, routine bodies and several statements on a line. */
module MysqlSplit {
  import opened Basics
  import opened Text

  // ----- one line -----

  datatype Mode = Out | In | Doubled

  /** Inside a literal or not, and how many parentheses are open; the count may go below 0. */
  datatype State = State(mode: Mode, depth: int)

  function Step(s: string, i: nat, st: State): State
    requires i < |s|
  {
    match st.mode
    case Out =>
      if s[i] == '\'' then st.(mode := In)
      else if s[i] == '(' then st.(depth := st.depth + 1)
      else if s[i] == ')' then st.(depth := st.depth - 1)
      else st
    case In => if s[i] != '\'' then st else if i + 1 < |s| && s[i + 1] == '\'' then st.(mode := Doubled)
      else st.(mode := Out)
    case Doubled => st.(mode := In)
  }

  function StateAt(s: string, i: nat): State
    requires i <= |s|
  {
    if i == 0 then State(Out, 0) else Step(s, i - 1, StateAt(s, i - 1))
  }

  predicate Cut(s: string, i: nat)
    requires i < |s|
  {
    s[i] == ';' && StateAt(s, i).mode.Out? && StateAt(s, i).depth <= 0
  }

  /** The segments of a line, each with its semicolon; a blank rest is no segment. */
  function Segments(s: string, start: nat, i: nat): seq<string>
    requires start <= i <= |s|
    decreases |s| - i
  {
    if i == |s| then (if Strip(s[start..]) == [] then [] else [s[start..]])
    else if Cut(s, i) then [s[start..i + 1]] + Segments(s, i + 1, i + 1)
    else Segments(s, start, i + 1)
  }

  ghost predicate Scanning(s: string, segs: seq<string>, start: nat, buf: string, i: nat) {
    start <= i <= |s| && buf == s[start..i] && segs + Segments(s, start, i) == Segments(s, 0, 0)
  }

  lemma ScanOne(s: string, segs: seq<string>, start: nat, buf: string, i: nat)
    requires Scanning(s, segs, start, buf, i) && i < |s|
    ensures Cut(s, i) ==> Scanning(s, segs + [buf + [s[i]]], i + 1, "", i + 1)
    ensures !Cut(s, i) ==> Scanning(s, segs, start, buf + [s[i]], i + 1)
  {
    hide StateAt;
    assert buf + [s[i]] == s[start..i + 1];
    if Cut(s, i) {
      assert (segs + [buf + [s[i]]]) + Segments(s, i + 1, i + 1) == segs + Segments(s, start, i);
    }
  }

  lemma NextState(s: string, i: nat)
    requires i < |s|
    ensures StateAt(s, i + 1) == Step(s, i, StateAt(s, i))
  {
  }

  method SplitLineSemis(line: string) returns (segs: seq<string>)
    ensures segs == Segments(line, 0, 0)
  {
    hide StateAt, Segments, Scanning;
    segs := [];
    var buf := "";
    var depth := 0;
    var i: nat := 0;
    ghost var start: nat := 0;
    Begin(line);
    while i < |line|
      invariant i <= |line| && Scanning(line, segs, start, buf, i)
      invariant i < |line| ==> StateAt(line, i) == State(Out, depth)
      decreases |line| - i
    {
      var ch := line[i];
      ScanOne(line, segs, start, buf, i);
      NextState(line, i);
      if ch == '\'' {
        buf := buf + [ch];
        i := i + 1;
        var closed := false;
        while i < |line| && !closed
          invariant i <= |line| && Scanning(line, segs, start, buf, i)
          invariant i < |line| ==> StateAt(line, i) == State(if closed then Out else In, depth)
          decreases |line| - i, !closed
        {
          ScanOne(line, segs, start, buf, i);
          NextState(line, i);
          buf := buf + [line[i]];
          if line[i] == '\'' {
            if i + 1 < |line| && line[i + 1] == '\'' {
              ScanOne(line, segs, start, buf, i + 1);
              NextState(line, i + 1);
              buf := buf + ['\''];
              i := i + 2;
              continue;
            }
            closed := true;
          }
          i := i + 1;
        }
        continue;
      }
      if ch == '(' {
        depth := depth + 1;
      } else if ch == ')' {
        depth := depth - 1;
      }
      buf := buf + [ch];
      if ch == ';' && depth <= 0 {
        segs := segs + [buf];
        buf := "";
        start := i + 1;
      }
      i := i + 1;
    }
    End(line, segs, start, buf, i);
    if Strip(buf) != [] {
      segs := segs + [buf];
    }
  }

  lemma Begin(s: string)
    ensures Scanning(s, [], 0, "", 0) && StateAt(s, 0) == State(Out, 0)
  {
    hide Segments;
  }

  lemma End(s: string, segs: seq<string>, start: nat, buf: string, i: nat)
    requires Scanning(s, segs, start, buf, i) && i == |s|
    ensures Segments(s, 0, 0) == if Strip(buf) == [] then segs else segs + [buf]
  {
    hide Strip;
    assert s[start..] == buf;
    assert segs + [] == segs;
  }

  // ----- text without its white space -----

  function Squash(s: string): string {
    if s == [] then [] else Squash(s[..|s| - 1]) + (if IsSpace(s[|s| - 1]) then [] else [s[|s| - 1]])
  }

  lemma {:induction false} SquashConcat(a: string, b: string)
    ensures Squash(a + b) == Squash(a) + Squash(b)
  {
    if b == [] {
      assert a + b == a;
    } else {
      var n := |b| - 1;
      assert (a + b)[..|a + b| - 1] == a + b[..n];
      SquashConcat(a, b[..n]);
      var x := if IsSpace(b[n]) then [] else [b[n]];
      assert (Squash(a) + Squash(b[..n])) + x == Squash(a) + (Squash(b[..n]) + x);
    }
  }

  lemma {:induction false} SquashBlank(s: string)
    requires forall k :: 0 <= k < |s| ==> IsSpace(s[k])
    ensures Squash(s) == []
  {
    if s != [] {
      SquashBlank(s[..|s| - 1]);
    }
  }

  lemma SquashStrip(s: string)
    ensures Squash(Strip(s)) == Squash(s)
  {
    hide Squash, Strip;
    var a, b := StripSplit(s);
    var x, y, z := s[..a], s[a..b], s[b..];
    assert s == x + (y + z);
    SquashConcat(x, y + z);
    SquashConcat(y, z);
    SquashBlank(x);
    SquashBlank(z);
    assert Squash(x) + (Squash(y) + Squash(z)) == Squash(y);
  }

  lemma SquashRStrip(s: string)
    ensures Squash(RStrip(s)) == Squash(s)
  {
    hide Squash, RStrip;
    var b := RStripSplit(s);
    assert s == s[..b] + s[b..];
    SquashConcat(s[..b], s[b..]);
    SquashBlank(s[b..]);
  }

  /** The texts one after the other, without their white space. */
  function SquashAll(ls: seq<string>): string {
    if ls == [] then [] else SquashAll(ls[..|ls| - 1]) + Squash(ls[|ls| - 1])
  }

  lemma {:induction false} SquashAllConcat(a: seq<string>, b: seq<string>)
    ensures SquashAll(a + b) == SquashAll(a) + SquashAll(b)
  {
    hide Squash;
    if b == [] {
      assert a + b == a;
    } else {
      var n := |b| - 1;
      assert (a + b)[..|a + b| - 1] == a + b[..n];
      SquashAllConcat(a, b[..n]);
      var x := Squash(b[n]);
      assert (SquashAll(a) + SquashAll(b[..n])) + x == SquashAll(a) + (SquashAll(b[..n]) + x);
    }
  }

  lemma SquashAllOne(a: seq<string>, x: string)
    ensures SquashAll(a + [x]) == SquashAll(a) + Squash(x)
  {
    assert (a + [x])[..|a|] == a;
  }

  lemma {:induction false} SquashJoin(ls: seq<string>)
    ensures Squash(Join(ls, '\n')) == SquashAll(ls)
  {
    hide Squash;
    if ls == [] {
      SquashBlank("");
    } else if |ls| == 1 {
      SquashAllOne([], ls[0]);
      assert ls == [] + [ls[0]];
    } else {
      var n := |ls| - 1;
      var j := Join(ls[..n], '\n');
      SquashJoin(ls[..n]);
      JoinSnoc(ls[..n], ls[n], '\n');
      assert ls == ls[..n] + [ls[n]];
      SquashConcat(j + ['\n'], ls[n]);
      SquashConcat(j, ['\n']);
      SquashBlank(['\n']);
    }
  }

  lemma SquashAllSingle(x: string)
    ensures SquashAll([x]) == Squash(x)
  {
    SquashAllOne([], x);
    assert [] + [x] == [x];
  }

  lemma LastSquash(s: string, start: nat)
    requires start <= |s|
    ensures SquashAll(Segments(s, start, |s|)) == Squash(s[start..])
  {
    hide Squash, Strip;
    SquashStrip(s[start..]);
    SquashBlank("");
    SquashAllSingle(s[start..]);
  }

  /** A line's segments are the line, white space aside. */
  lemma {:induction false} SegmentsSquash(s: string, start: nat, i: nat)
    requires start <= i <= |s|
    ensures SquashAll(Segments(s, start, i)) == Squash(s[start..])
    decreases |s| - i
  {
    hide Squash, Cut, Strip, SquashAll;
    if i == |s| {
      LastSquash(s, start);
    } else if Cut(s, i) {
      var x := s[start..i + 1];
      SegmentsSquash(s, i + 1, i + 1);
      SquashAllConcat([x], Segments(s, i + 1, i + 1));
      SquashAllSingle(x);
      assert s[start..] == x + s[i + 1..];
      SquashConcat(x, s[i + 1..]);
    } else {
      SegmentsSquash(s, start, i + 1);
    }
  }

  // ----- the scan over the lines -----

  /** What the regular expressions of the source find on a line: a routine head, the BEGIN, CASE and
      END CASE words, and for each END whether IF, LOOP, WHILE or REPEAT follows it. */
  datatype Patterns = Patterns(
    routine: string -> bool,
    begins: string -> nat,
    cases: string -> nat,
    endCases: string -> nat,
    ends: string -> seq<bool>)

  /** Every END CASE contains a CASE. */
  ghost predicate Sane(p: Patterns) {
    forall line :: p.endCases(line) <= p.cases(line)
  }

  /** `(?i)^DELIMITER\s+(\S+)\s*$` on a stripped line: the new delimiter. */
  function Directive(line: string): (d: Option<string>)
    ensures d.Some? ==> d.value != [] && forall k :: 0 <= k < |d.value| ==> !IsSpace(d.value[k])
  {
    if |line| < 9 || UpperAll(line[..9]) != "DELIMITER" then None
    else
      var k := SkipSpaces(line, 9);
      if k == 9 || k == |line| || exists j :: k <= j < |line| && IsSpace(line[j]) then None else Some(line[k..])
  }

  predicate EndsWith(s: string, t: string) {
    |t| <= |s| && s[|s| - |t|..] == t
  }

  predicate Commented(s: string) {
    Two(s, 0, '-', '-')
  }

  /** Where a batch begins: on which line, as which statement of that line, and with what text. */
  datatype Origin = Origin(line: nat, nth: nat, head: string)

  /** What was cut off as one batch: its text, the terminator shed from it, the line it is reported on
      and where it begins. A piece without text gives no batch. */
  datatype Piece = Piece(text: string, shed: string, line: nat, origin: Origin)

  datatype Scan = Scan(out: seq<Piece>, current: seq<string>, start: nat, origin: Origin,
                       delimiter: string, inRoutine: bool, depth: int)

  const INIT := Scan([], [], 0, Origin(0, 0, ""), ";", false, 0)

  /** A line, or the `nth` statement of one, joins the current batch. */
  function Add(st: Scan, x: string, line: nat, nth: nat): Scan {
    st.(current := st.current + [x], origin := if st.current == [] then Origin(line, nth, x) else st.origin)
  }

  /** `flush`: a semicolon at the end is shed. */
  function FlushPiece(st: Scan): Piece {
    var text := Strip(Join(st.current, '\n'));
    if EndsWith(text, ";") then Piece(RStrip(text[..|text| - 1]), ";", st.start, st.origin)
    else Piece(text, "", st.start, st.origin)
  }

  function Flush(st: Scan, next: nat): Scan {
    st.(out := st.out + [FlushPiece(st)], current := [], start := next)
  }

  function AfterDirective(st: Scan, i: nat, d: string): Scan {
    var flushed := if st.current != [] then Flush(st, i) else st;
    flushed.(delimiter := d, start := i + 1, inRoutine := false, depth := 0)
  }

  /** The segments of a line that holds several statements. */
  function AddSegments(st: Scan, segs: seq<string>, i: nat): Scan {
    if segs == [] then st
    else
      var before := AddSegments(st, segs[..|segs| - 1], i);
      var seg := segs[|segs| - 1];
      if Strip(seg) == [] then before
      else
        var added := Add(before, seg, i, |segs| - 1);
        if EndsWith(RStrip(seg), ";") then Flush(added, i + 1) else added
  }

  /** The END words of a line, one by one: the depth never stays below 0, and 0 leaves the routine. */
  function CloseEnds(depth: int, inRoutine: bool, ends: seq<bool>): (int, bool) {
    if ends == [] then (depth, inRoutine)
    else
      var n := |ends| - 1;
      var (d, r) := CloseEnds(depth, inRoutine, ends[..n]);
      if ends[n] then (d, r) else if d - 1 <= 0 then (0, false) else (d - 1, r)
  }

  function Track(p: Patterns, st: Scan, line: string): Scan {
    if st.delimiter != ";" then st
    else
      var inRoutine := st.inRoutine || p.routine(line);
      if !inRoutine then st
      else
        var (d, r) := CloseEnds(st.depth + p.begins(line) + p.cases(line) - p.endCases(line), true, p.ends(line));
        st.(depth := d, inRoutine := r)
  }

  predicate Several(p: Patterns, st: Scan, line: string) {
    && st.delimiter == ";" && !st.inRoutine && !Commented(Strip(line)) && !p.routine(line)
    && |Segments(line, 0, 0)| > 1
  }

  /** After the line has joined the current batch: is it complete? */
  function Complete(st: Scan, stripped: string, i: nat): Scan {
    if st.delimiter != ";" then
      if EndsWith(stripped, st.delimiter) then
        var text := Strip(Join(st.current, '\n'));
        var kept := if |st.delimiter| <= |text| then RStrip(text[..|text| - |st.delimiter|]) else "";
        st.(out := st.out + [Piece(kept, st.delimiter, st.start, st.origin)], current := [], start := i + 1)
      else st
    else if EndsWith(stripped, ";") && !st.inRoutine && st.depth == 0 then Flush(st, i + 1)
    else st
  }

  function StepLine(p: Patterns, st: Scan, line: string, i: nat): Scan {
    var d := Directive(Strip(line));
    if d.Some? then AfterDirective(st, i, d.value)
    else if Several(p, st, line) then AddSegments(st, Segments(line, 0, 0), i)
    else
      var tracked := Track(p, st, line);
      Complete(Add(tracked, line, i, 0), Strip(line), i)
  }

  /** The state after the first `n` lines. */
  function ScanTo(p: Patterns, lines: seq<string>, n: nat): Scan
    requires n <= |lines|
  {
    if n == 0 then INIT else StepLine(p, ScanTo(p, lines, n - 1), lines[n - 1], n - 1)
  }

  /** All pieces of the script; what is left at the end loses no terminator. */
  function Pieces(p: Patterns, lines: seq<string>): seq<Piece> {
    var st := ScanTo(p, lines, |lines|);
    st.out + [Piece(Strip(Join(st.current, '\n')), "", st.start, st.origin)]
  }

  datatype Batch = Batch(sql: string, lineOffset: nat)

  function BatchesOf(pieces: seq<Piece>): seq<Batch> {
    if pieces == [] then []
    else
      var n := |pieces| - 1;
      BatchesOf(pieces[..n]) + (if pieces[n].text == [] then [] else [Batch(pieces[n].text, pieces[n].line)])
  }

  lemma BatchesAdd(pieces: seq<Piece>, x: Piece)
    ensures BatchesOf(pieces + [x]) == BatchesOf(pieces) + (if x.text == [] then [] else [Batch(x.text, x.line)])
  {
    assert (pieces + [x])[..|pieces|] == pieces;
  }

  // ----- depth -----

  lemma {:induction false} CloseEndsDepth(depth: int, inRoutine: bool, ends: seq<bool>)
    requires depth >= 0 && (!inRoutine ==> depth == 0)
    ensures CloseEnds(depth, inRoutine, ends).0 >= 0
    ensures !CloseEnds(depth, inRoutine, ends).1 ==> CloseEnds(depth, inRoutine, ends).0 == 0
  {
    if ends != [] {
      CloseEndsDepth(depth, inRoutine, ends[..|ends| - 1]);
    }
  }

  ghost predicate DepthOk(st: Scan) {
    st.depth >= 0 && (!st.inRoutine ==> st.depth == 0)
  }

  lemma {:induction false} AddSegmentsDepth(st: Scan, segs: seq<string>, i: nat)
    ensures AddSegments(st, segs, i).depth == st.depth && AddSegments(st, segs, i).inRoutine == st.inRoutine
    ensures AddSegments(st, segs, i).delimiter == st.delimiter
  {
    if segs != [] {
      AddSegmentsDepth(st, segs[..|segs| - 1], i);
    }
    hide FlushPiece, Strip, RStrip;
  }

  lemma StepDepth(p: Patterns, st: Scan, line: string, i: nat)
    requires Sane(p) && DepthOk(st)
    ensures DepthOk(StepLine(p, st, line, i))
  {
    hide FlushPiece, Strip, RStrip, Join, Segments, CloseEnds, AddSegments;
    CloseEndsDepth(st.depth + p.begins(line) + p.cases(line) - p.endCases(line), true, p.ends(line));
    AddSegmentsDepth(st, Segments(line, 0, 0), i);
  }

  /** At every line end the depth is at least 0, and it is 0 outside a routine. */
  lemma {:induction false} DepthAlwaysOk(p: Patterns, lines: seq<string>, n: nat)
    requires Sane(p) && n <= |lines|
    ensures DepthOk(ScanTo(p, lines, n))
  {
    hide *;
    if n > 0 {
      ScanNext(p, lines, n - 1);
      DepthAlwaysOk(p, lines, n - 1);
      StepDepth(p, ScanTo(p, lines, n - 1), lines[n - 1], n - 1);
      assert DepthOk(ScanTo(p, lines, n));
    } else {
      ScanStart(p, lines);
      assert DepthOk(ScanTo(p, lines, n));
    }
  }

  lemma ScanStart(p: Patterns, lines: seq<string>)
    ensures ScanTo(p, lines, 0) == INIT && DepthOk(INIT)
  {
  }

  lemma ScanNext(p: Patterns, lines: seq<string>, n: nat)
    requires n < |lines|
    ensures ScanTo(p, lines, n + 1) == StepLine(p, ScanTo(p, lines, n), lines[n], n)
  {
    hide StepLine;
  }

  // ----- nothing lost, doubled or moved -----

  /** The pieces with their terminators put back, white space aside. */
  function SquashPieces(out: seq<Piece>): string {
    if out == [] then []
    else SquashPieces(out[..|out| - 1]) + (Squash(out[|out| - 1].text) + Squash(out[|out| - 1].shed))
  }

  lemma SquashPiecesAdd(out: seq<Piece>, x: Piece)
    ensures SquashPieces(out + [x]) == SquashPieces(out) + (Squash(x.text) + Squash(x.shed))
  {
    assert (out + [x])[..|out|] == out;
  }

  /** Everything scanned so far, white space aside. */
  function Held(st: Scan): string {
    SquashPieces(st.out) + SquashAll(st.current)
  }

  lemma ShedSquash(text: string, t: string)
    requires EndsWith(text, t)
    ensures Squash(RStrip(text[..|text| - |t|])) + Squash(t) == Squash(text)
  {
    hide Squash, RStrip;
    var n := |text| - |t|;
    assert text == text[..n] + t;
    SquashConcat(text[..n], t);
    SquashRStrip(text[..n]);
  }

  lemma FlushHolds(st: Scan, next: nat)
    ensures Held(Flush(st, next)) == Held(st)
  {
    hide Squash, Strip, RStrip, Join;
    var piece := FlushPiece(st);
    var text := Strip(Join(st.current, '\n'));
    SquashStrip(Join(st.current, '\n'));
    SquashJoin(st.current);
    if EndsWith(text, ";") {
      ShedSquash(text, ";");
    } else {
      SquashBlank("");
      assert Squash(text) + [] == Squash(text);
    }
    SquashPiecesAdd(st.out, piece);
    assert SquashAll([]) == [];
    hide SquashPieces, SquashAll, FlushPiece;
    assert SquashPieces(st.out + [piece]) + [] == SquashPieces(st.out) + SquashAll(st.current);
  }

  lemma AddLine(st: Scan, line: string, i: nat, nth: nat)
    ensures Held(Add(st, line, i, nth)) == Held(st) + Squash(line)
  {
    hide Squash, SquashAll, SquashPieces;
    SquashAllOne(st.current, line);
    Regroup(SquashPieces(st.out), SquashAll(st.current), Squash(line));
  }

  lemma {:induction false} AddSegmentsHolds(st: Scan, segs: seq<string>, i: nat)
    ensures Held(AddSegments(st, segs, i)) == Held(st) + SquashAll(segs)
  {
    hide Squash, Strip, RStrip, Held, FlushPiece, Flush, EndsWith;
    if segs == [] {
      assert Held(st) + [] == Held(st);
    } else {
      var n := |segs| - 1;
      var before := AddSegments(st, segs[..n], i);
      var seg := segs[n];
      AddSegmentsHolds(st, segs[..n], i);
      AddLine(before, seg, i, n);
      FlushHolds(Add(before, seg, i, n), i + 1);
      SquashStrip(seg);
      SquashBlank("");
      assert Held(before) + Squash(seg) == Held(st) + (SquashAll(segs[..n]) + Squash(seg));
      if Strip(seg) == [] {
        assert Squash(seg) == [];
        assert Held(before) + [] == Held(before);
      }
    }
  }

  /** Stripping a text that ends with a line that is not blank keeps what stripping the line keeps. */
  lemma StripSuffix(x: string, line: string) returns (y: string)
    requires Strip(line) != []
    ensures Strip(x + line) == y + Strip(line)
  {
    hide Strip, IsSpace;
    var j := x + line;
    var off := |x|;
    assert forall k :: off <= k < |j| ==> j[k] == line[k - off];
    var a, b := StripSplit(line);
    var c, e := StripSplit(j);
    assert !IsSpace(j[off + a]) && !IsSpace(j[off + b - 1]);
    assert c <= off + a && off + b <= e;
    assert off + b == e;
    y := j[c..off + a];
    SliceConcat(j, c, off + a, e);
    assert j[off + a..e] == line[a..b] by { SuffixSlice(x, line, a, b); }
  }

  lemma SuffixSlice(x: string, y: string, a: nat, b: nat)
    requires a <= b <= |y|
    ensures (x + y)[|x| + a..|x| + b] == y[a..b]
  {
  }

  lemma JoinedPrefix(ls: seq<string>) returns (x: string)
    requires ls != []
    ensures Join(ls, '\n') == x + ls[|ls| - 1]
  {
    var n := |ls| - 1;
    x := if n == 0 then [] else Join(ls[..n], '\n') + ['\n'];
    if n > 0 {
      JoinSnoc(ls[..n], ls[n], '\n');
      assert ls == ls[..n] + [ls[n]];
    }
  }

  /** A batch whose last line ends with the delimiter ends with it itself. */
  lemma JoinEnds(ls: seq<string>, line: string, d: string)
    requires ls != [] && ls[|ls| - 1] == line && EndsWith(Strip(line), d) && d != []
    ensures EndsWith(Strip(Join(ls, '\n')), d)
  {
    hide Strip;
    var x := JoinedPrefix(ls);
    var y := StripSuffix(x, line);
    var l := Strip(line);
    assert (y + l)[|y + l| - |d|..] == l[|l| - |d|..];
  }

  lemma CompleteHolds(st: Scan, line: string, i: nat)
    requires st.current != [] && st.current[|st.current| - 1] == line && st.delimiter != []
    ensures Held(Complete(st, Strip(line), i)) == Held(st)
  {
    hide Strip, RStrip, Join, Squash, SquashAll, SquashPieces, EndsWith;
    if st.delimiter != ";" && EndsWith(Strip(line), st.delimiter) {
      var text := Strip(Join(st.current, '\n'));
      JoinEnds(st.current, line, st.delimiter);
      DelimiterFits(text, st.delimiter);
      ShedSquash(text, st.delimiter);
      SquashStrip(Join(st.current, '\n'));
      SquashJoin(st.current);
      var piece := Piece(RStrip(text[..|text| - |st.delimiter|]), st.delimiter, st.start, st.origin);
      SquashPiecesAdd(st.out, piece);
      NothingHeld();
      assert Held(Complete(st, Strip(line), i)) == SquashPieces(st.out + [piece]) + [];
    } else {
      FlushHolds(st, i + 1);
      hide Held, Flush;
    }
  }

  lemma DelimiterFits(text: string, d: string)
    requires EndsWith(text, d)
    ensures |d| <= |text|
  {
  }

  lemma NothingHeld()
    ensures SquashAll([]) == []
  {
  }

  lemma TrackHolds(p: Patterns, st: Scan, line: string)
    ensures var t := Track(p, st, line); t.out == st.out && t.current == st.current && t.delimiter == st.delimiter
  {
    hide CloseEnds;
  }

  lemma DirectiveHolds(st: Scan, i: nat, d: string)
    ensures Held(AfterDirective(st, i, d)) == Held(st)
  {
    FlushHolds(st, i);
    hide SquashAll, SquashPieces, FlushPiece;
  }

  /** One line adds itself to what is held; a DELIMITER line adds nothing. */
  lemma StepHolds(p: Patterns, st: Scan, line: string, i: nat)
    requires st.delimiter != []
    ensures Held(StepLine(p, st, line, i)) == Held(st) + (if Directive(Strip(line)).Some? then [] else Squash(line))
    ensures StepLine(p, st, line, i).delimiter != []
  {
    hide Held, Strip, Squash, AfterDirective, AddSegments, Complete, Segments, Several, Track;
    var d := Directive(Strip(line));
    if d.Some? {
      DirectiveHolds(st, i, d.value);
      DirectiveDelimiter(st, i, d.value);
      assert Held(st) + [] == Held(st);
    } else if Several(p, st, line) {
      AddSegmentsHolds(st, Segments(line, 0, 0), i);
      AddSegmentsDepth(st, Segments(line, 0, 0), i);
      SegmentsSquash(line, 0, 0);
      assert line[0..] == line;
    } else {
      var tracked := Track(p, st, line);
      TrackHolds(p, st, line);
      HeldSame(st, tracked);
      AddLine(tracked, line, i, 0);
      var added := Add(tracked, line, i, 0);
      CompleteHolds(added, line, i);
      CompleteDelimiter(added, Strip(line), i);
    }
  }

  lemma HeldSame(a: Scan, b: Scan)
    requires a.out == b.out && a.current == b.current
    ensures Held(a) == Held(b)
  {
  }

  lemma DirectiveDelimiter(st: Scan, i: nat, d: string)
    ensures AfterDirective(st, i, d).delimiter == d
  {
    hide FlushPiece;
  }

  lemma CompleteDelimiter(st: Scan, stripped: string, i: nat)
    ensures Complete(st, stripped, i).delimiter == st.delimiter
  {
    hide FlushPiece, Strip, RStrip, Join;
  }

  /** The script without its DELIMITER lines, white space aside. */
  function SquashScript(lines: seq<string>, n: nat): string
    requires n <= |lines|
  {
    if n == 0 then []
    else SquashScript(lines, n - 1) + (if Directive(Strip(lines[n - 1])).Some? then [] else Squash(lines[n - 1]))
  }

  lemma {:induction false} ScanHolds(p: Patterns, lines: seq<string>, n: nat)
    requires n <= |lines|
    ensures Held(ScanTo(p, lines, n)) == SquashScript(lines, n) && ScanTo(p, lines, n).delimiter != []
  {
    hide StepLine, Held, Directive, Strip, Squash;
    if n > 0 {
      ScanHolds(p, lines, n - 1);
      StepHolds(p, ScanTo(p, lines, n - 1), lines[n - 1], n - 1);
    } else {
      NothingScanned();
    }
  }

  lemma NothingScanned()
    ensures Held(INIT) == []
  {
  }

  /** White space aside, the pieces in order, each with the terminator shed from it put back, are the
      script without its DELIMITER lines. */
  lemma NothingLost(p: Patterns, lines: seq<string>)
    ensures SquashPieces(Pieces(p, lines)) == SquashScript(lines, |lines|)
  {
    hide ScanTo, SquashScript, Strip, Squash, Join;
    var st := ScanTo(p, lines, |lines|);
    ScanHolds(p, lines, |lines|);
    SquashStrip(Join(st.current, '\n'));
    SquashJoin(st.current);
    var last := Piece(Strip(Join(st.current, '\n')), "", st.start, st.origin);
    SquashPiecesAdd(st.out, last);
    SquashBlank("");
    assert Squash(last.text) + [] == Squash(last.text);
  }

  /** A piece that gives no batch held nothing but its terminator. */
  lemma {:induction false} DroppedPieces(pieces: seq<Piece>, k: nat)
    requires k < |pieces| && pieces[k].text != []
    ensures Batch(pieces[k].text, pieces[k].line) in BatchesOf(pieces)
  {
    if k < |pieces| - 1 {
      DroppedPieces(pieces[..|pieces| - 1], k);
    }
  }

  // ----- the lines batches are reported on -----

  lemma StripFull(s: string, k: nat)
    requires k < |s| && !IsSpace(s[k])
    ensures Strip(s) != []
  {
    var a, b := StripSplit(s);
    hide Strip;
  }

  lemma {:induction false} SegmentsFull(s: string, start: nat, i: nat)
    requires start <= i <= |s|
    ensures forall x :: x in Segments(s, start, i) ==> Strip(x) != []
    decreases |s| - i
  {
    hide StateAt, Strip;
    if i < |s| {
      if Cut(s, i) {
        SegmentsFull(s, i + 1, i + 1);
        assert s[start..i + 1][i - start] == ';';
        StripFull(s[start..i + 1], i - start);
      } else {
        SegmentsFull(s, start, i + 1);
      }
    }
  }

  /** The text is the line itself, or the `nth` of its statements. */
  predicate FoundAt(lines: seq<string>, o: Origin) {
    && o.line < |lines|
    && ((o.nth == 0 && o.head == lines[o.line])
        || (o.nth < |Segments(lines[o.line], 0, 0)| && o.head == Segments(lines[o.line], 0, 0)[o.nth]))
  }

  /** The line a batch is reported on: the line it begins on, or the next when another statement of
      that line comes before it. */
  function Reported(o: Origin): nat {
    o.line + if o.nth > 0 then 1 else 0
  }

  ghost predicate PieceOk(lines: seq<string>, x: Piece) {
    x.text != [] ==> x.line == Reported(x.origin) && FoundAt(lines, x.origin)
  }

  /** `next` is the line a batch is reported on that begins with the next text. */
  ghost predicate Located(lines: seq<string>, st: Scan, next: nat) {
    && (forall k :: 0 <= k < |st.out| ==> PieceOk(lines, st.out[k]))
    && (st.current == [] ==> st.start == next)
    && (st.current != [] ==>
        st.start == Reported(st.origin) && FoundAt(lines, st.origin) && st.current[0] == st.origin.head)
  }

  lemma AddLocated(lines: seq<string>, st: Scan, x: string, line: nat, nth: nat, next: nat)
    requires Located(lines, st, Reported(Origin(line, nth, x))) && FoundAt(lines, Origin(line, nth, x))
    ensures Located(lines, Add(st, x, line, nth), next)
  {
    hide FoundAt, PieceOk;
  }

  /** A piece with text has something to begin with. */
  lemma NothingJoined(st: Scan)
    requires st.current == []
    ensures Strip(Join(st.current, '\n')) == [] && FlushPiece(st).text == []
  {
    assert Join([], '\n') == [];
  }

  lemma FlushLocated(lines: seq<string>, st: Scan, last: nat, next: nat)
    requires Located(lines, st, last)
    ensures Located(lines, Flush(st, next), next)
  {
    hide FoundAt, FlushPiece, Reported;
    if st.current == [] {
      NothingJoined(st);
    } else {
      assert FlushPiece(st).line == st.start && FlushPiece(st).origin == st.origin by { FlushedFrom(st); }
    }
  }

  lemma FlushedFrom(st: Scan)
    ensures FlushPiece(st).line == st.start && FlushPiece(st).origin == st.origin
  {
    hide Strip, RStrip, Join;
  }

  lemma {:induction false} SegmentsLocated(lines: seq<string>, st: Scan, n: nat, i: nat)
    requires i < |lines| && Located(lines, st, i) && n <= |Segments(lines[i], 0, 0)|
    ensures Located(lines, AddSegments(st, Segments(lines[i], 0, 0)[..n], i), if n == 0 then i else i + 1)
  {
    hide Strip, RStrip, Segments, EndsWith, Located, Flush;
    var segs := Segments(lines[i], 0, 0);
    if n == 0 {
      assert segs[..0] == [];
    } else {
      SegmentsLocated(lines, st, n - 1, i);
      SegmentsFull(lines[i], 0, 0);
      assert segs[..n][..n - 1] == segs[..n - 1] && segs[..n][n - 1] == segs[n - 1] && segs[n - 1] in segs;
      var before := AddSegments(st, segs[..n - 1], i);
      AddLocated(lines, before, segs[n - 1], i, n - 1, i + 1);
      FlushLocated(lines, Add(before, segs[n - 1], i, n - 1), i + 1, i + 1);
    }
  }

  lemma CompleteLocated(lines: seq<string>, st: Scan, stripped: string, i: nat)
    requires Located(lines, st, i + 1) && st.current != []
    ensures Located(lines, Complete(st, stripped, i), i + 1)
  {
    FlushLocated(lines, st, i + 1, i + 1);
    hide Strip, RStrip, Join, EndsWith, FoundAt, FlushPiece, Flush, Reported;
  }

  lemma StepLocated(p: Patterns, lines: seq<string>, st: Scan, i: nat)
    requires i < |lines| && Located(lines, st, i)
    ensures Located(lines, StepLine(p, st, lines[i], i), i + 1)
  {
    hide Strip, Segments, Several, AddSegments, Complete, Located, Track, Directive, AfterDirective;
    var line := lines[i];
    var d := Directive(Strip(line));
    if d.Some? {
      DirectiveLocated(lines, st, i, d.value);
    } else if Several(p, st, line) {
      var segs := Segments(line, 0, 0);
      SegmentsLocated(lines, st, |segs|, i);
      assert segs[..|segs|] == segs;
      assert |segs| > 1 by { SeveralSegments(p, st, line); }
    } else {
      var tracked := Track(p, st, line);
      TrackLocated(p, lines, st, line, i);
      AddLocated(lines, tracked, line, i, 0, i + 1);
      CompleteLocated(lines, Add(tracked, line, i, 0), Strip(line), i);
    }
  }

  lemma SeveralSegments(p: Patterns, st: Scan, line: string)
    requires Several(p, st, line)
    ensures |Segments(line, 0, 0)| > 1
  {
    hide Segments, Strip;
  }

  lemma DirectiveLocated(lines: seq<string>, st: Scan, i: nat, d: string)
    requires Located(lines, st, i)
    ensures Located(lines, AfterDirective(st, i, d), i + 1)
  {
    FlushLocated(lines, st, i, i);
    hide FlushPiece, FoundAt, Reported;
  }

  lemma TrackLocated(p: Patterns, lines: seq<string>, st: Scan, line: string, i: nat)
    requires Located(lines, st, i)
    ensures Located(lines, Track(p, st, line), i)
  {
    hide CloseEnds, FoundAt, PieceOk, Reported;
  }

  lemma {:induction false} ScanLocated(p: Patterns, lines: seq<string>, n: nat)
    requires n <= |lines|
    ensures Located(lines, ScanTo(p, lines, n), n)
  {
    hide StepLine, Located;
    if n == 0 {
      InitLocated(lines);
    } else {
      ScanLocated(p, lines, n - 1);
      StepLocated(p, lines, ScanTo(p, lines, n - 1), n - 1);
    }
  }

  lemma InitLocated(lines: seq<string>)
    ensures Located(lines, INIT, 0)
  {
  }

  /** A batch is reported on the line it begins on, blank lines before it included, unless it is the
      second or a later statement of a line of several: then on the line below. */
  lemma OffsetIs(p: Patterns, lines: seq<string>, k: nat)
    requires k < |Pieces(p, lines)| && Pieces(p, lines)[k].text != []
    ensures var x := Pieces(p, lines)[k];
      && FoundAt(lines, x.origin)
      && (x.line == x.origin.line <==> x.origin.nth == 0)
      && (x.line == x.origin.line + 1 <==> x.origin.nth > 0)
  {
    hide ScanTo, Strip, Join, FoundAt;
    var st := ScanTo(p, lines, |lines|);
    ScanLocated(p, lines, |lines|);
    if st.current == [] {
      NothingJoined(st);
    }
    assert PieceOk(lines, Pieces(p, lines)[k]);
  }

  // ----- lines put together from parts -----

  datatype Part = Mark(c: char) | Quoted(body: string)

  function TextOf(x: Part): string {
    match x
    case Mark(c) => [c]
    case Quoted(body) => "'" + body + "'"
  }

  function Print(xs: seq<Part>): string {
    if xs == [] then [] else TextOf(xs[0]) + Print(xs[1..])
  }

  /** The inside of a literal: quotes are doubled. */
  predicate LiteralBody(b: string) {
    if b == [] then true
    else if b[0] == '\'' then Two(b, 0, '\'', '\'') && LiteralBody(b[2..])
    else LiteralBody(b[1..])
  }

  predicate Unambiguous(xs: seq<Part>) {
    && xs != [] ==>
      && (xs[0].Mark? ==> xs[0].c != '\'')
      && (xs[0].Quoted? ==> LiteralBody(xs[0].body) && (|xs| > 1 ==> !xs[1].Quoted?))
      && Unambiguous(xs[1..])
  }

  /** The texts up to each semicolon where no more parentheses have been opened than closed; `open` of
      them are, so far, outside literals. */
  function Divided(xs: seq<Part>, open: int, before: string): seq<string> {
    if xs == [] then (if Strip(before) == [] then [] else [before])
    else if xs[0] == Mark(';') && open <= 0 then [before + ";"] + Divided(xs[1..], open, [])
    else Divided(xs[1..], Opened(xs[0], open), before + TextOf(xs[0]))
  }

  function Opened(x: Part, open: int): int {
    if x == Mark('(') then open + 1 else if x == Mark(')') then open - 1 else open
  }

  lemma FirstPart(s: string, i: nat, xs: seq<Part>)
    requires i <= |s| && s[i..] == Print(xs) && xs != []
    ensures var e := i + |TextOf(xs[0])|;
      StartsWith(s, TextOf(xs[0]), i) && i < e <= |s| && s[e..] == Print(xs[1..])
  {
    hide TextOf, StartsWith;
    SplitSlice(s, i, TextOf(xs[0]), Print(xs[1..]));
    NotEmpty(xs[0]);
  }

  lemma NotEmpty(x: Part)
    ensures TextOf(x) != []
  {
  }

  lemma {:induction false} NoCutRun(s: string, start: nat, i: nat, j: nat)
    requires start <= i <= j <= |s| && forall k :: i <= k < j ==> !Cut(s, k)
    ensures Segments(s, start, i) == Segments(s, start, j)
    decreases j - i
  {
    hide Cut, Strip;
    if i < j {
      NoCutRun(s, start, i + 1, j);
    }
  }

  /** From `i` to `j` nothing is cut, and there the scan is outside literals again. */
  ghost predicate Passes(s: string, i: nat, j: nat, open: int) {
    i <= j <= |s| && (j < |s| ==> StateAt(s, j) == State(Out, open)) && forall k :: i <= k < j ==> !Cut(s, k)
  }

  lemma {:induction false} LiteralRun(s: string, i: nat, j: nat, b: string, open: int)
    requires i <= j <= |s| && LiteralBody(b) && StartsWith(s, b + "'", j) && StateAt(s, j) == State(In, open)
    requires forall k :: i <= k < j ==> !Cut(s, k)
    ensures var e := j + |b|; e < |s| && s[e] == '\'' && StateAt(s, e) == State(In, open)
    ensures forall k :: i <= k < j + |b| ==> !Cut(s, k)
    decreases |b|
  {
    hide StateAt, StartsWith;
    assert j < |s| && s[j] == (b + "'")[0] by { CharAt(s, j, b + "'", 0); }
    if b != [] {
      assert j + 1 < |s| && s[j + 1] == (b + "'")[1] by { CharAt(s, j, b + "'", 1); }
      NextState(s, j);
      var n := if b[0] == '\'' then 2 else 1;
      if n == 2 {
        NextState(s, j + 1);
      }
      PartStarts(s, j, b + "'", n, |b| + 1);
      assert (b + "'")[n..|b| + 1] == b[n..] + "'";
      LiteralRun(s, i, j + n, b[n..], open);
    }
  }

  lemma LiteralPasses(s: string, i: nat, b: string, open: int)
    requires i < |s| && LiteralBody(b) && StartsWith(s, "'" + b + "'", i) && StateAt(s, i) == State(Out, open)
    requires var e := i + |b| + 2; e < |s| ==> s[e] != '\''
    ensures Passes(s, i, i + |b| + 2, open)
  {
    hide StateAt, StartsWith, LiteralBody, Cut;
    var u, e := "'" + b + "'", i + |b| + 1;
    CharAt(s, i, u, 0);
    NextState(s, i);
    NoSemicolon(s, i);
    PartStarts(s, i, u, 1, |u|);
    assert u[1..|u|] == b + "'";
    LiteralRun(s, i, i + 1, b, open);
    NextState(s, e);
    NoSemicolon(s, e);
  }

  lemma NoSemicolon(s: string, i: nat)
    requires i < |s| && s[i] != ';'
    ensures !Cut(s, i)
  {
  }

  lemma QuoteFirst(x: Part)
    requires x.Mark? && x.c != '\''
    ensures TextOf(x)[0] != '\''
  {
  }

  lemma NoQuoteNext(s: string, i: nat, xs: seq<Part>)
    requires xs != [] && xs[0].Quoted? && Unambiguous(xs) && i <= |s| && s[i..] == Print(xs)
    ensures var e := i + |TextOf(xs[0])|; e < |s| ==> s[e] != '\''
  {
    hide LiteralBody, Print, TextOf, StartsWith;
    FirstPart(s, i, xs);
    var e := i + |TextOf(xs[0])|;
    if |xs| > 1 {
      FirstPart(s, e, xs[1..]);
      CharAt(s, e, TextOf(xs[1]), 0);
      QuoteFirst(xs[1]);
    } else {
      PrintNothing();
    }
  }

  /** A part that is no separator is passed over. */
  lemma PartPasses(s: string, i: nat, xs: seq<Part>, open: int)
    requires i < |s| && xs != [] && s[i..] == Print(xs) && Unambiguous(xs) && StateAt(s, i) == State(Out, open)
    ensures xs[0] == Mark(';') && open <= 0 ==> Cut(s, i) && (i + 1 < |s| ==> StateAt(s, i + 1) == State(Out, open))
    ensures !(xs[0] == Mark(';') && open <= 0) ==> Passes(s, i, i + |TextOf(xs[0])|, Opened(xs[0], open))
  {
    hide StateAt, StartsWith, Print, LiteralBody;
    FirstPart(s, i, xs);
    if xs[0].Quoted? {
      hide Passes, Unambiguous;
      NoQuoteNext(s, i, xs);
      QuotedFormed(xs);
      LiteralPasses(s, i, xs[0].body, open);
    } else {
      CharAt(s, i, [xs[0].c], 0);
      NextState(s, i);
    }
  }

  lemma QuotedFormed(xs: seq<Part>)
    requires xs != [] && xs[0].Quoted? && Unambiguous(xs)
    ensures LiteralBody(xs[0].body)
  {
    hide LiteralBody;
  }

  lemma RestUnambiguous(xs: seq<Part>)
    requires xs != [] && Unambiguous(xs)
    ensures Unambiguous(xs[1..])
  {
    hide LiteralBody;
  }

  /** The segments still to come are those the parts say. */
  ghost predicate Agree(s: string, start: nat, i: nat, xs: seq<Part>, open: int) {
    start <= i <= |s| && Segments(s, start, i) == Divided(xs, open, s[start..i])
  }

  lemma CutAgrees(s: string, start: nat, i: nat, xs: seq<Part>, open: int)
    requires start <= i < |s| && s[i] == ';' && Cut(s, i) && xs != [] && xs[0] == Mark(';') && open <= 0
    requires Agree(s, i + 1, i + 1, xs[1..], open)
    ensures Agree(s, start, i, xs, open)
  {
    hide Cut, Segments, Divided;
    SegmentsCut(s, start, i);
    DividedStep(xs, open, s[start..i]);
    assert s[i + 1..i + 1] == [] && s[start..i + 1] == s[start..i] + ";";
  }

  lemma PassAgrees(s: string, start: nat, i: nat, e: nat, xs: seq<Part>, open: int)
    requires start <= i <= e <= |s| && xs != [] && !(xs[0] == Mark(';') && open <= 0) && s[i..e] == TextOf(xs[0])
    requires (forall k :: i <= k < e ==> !Cut(s, k)) && Agree(s, start, e, xs[1..], Opened(xs[0], open))
    ensures Agree(s, start, i, xs, open)
  {
    hide Cut, Segments, Divided, TextOf, Opened;
    NoCutRun(s, start, i, e);
    DividedStep(xs, open, s[start..i]);
    SliceConcat(s, start, i, e);
  }

  lemma {:induction false} SegmentsDivided(s: string, start: nat, i: nat, xs: seq<Part>, open: int)
    requires start <= i <= |s| && s[i..] == Print(xs) && Unambiguous(xs)
    requires i < |s| ==> StateAt(s, i) == State(Out, open)
    ensures Agree(s, start, i, xs, open)
    decreases |xs|
  {
    hide StateAt, StartsWith, Print, Unambiguous, Cut, Opened, Agree, TextOf;
    if xs == [] {
      PrintNothing();
      assert i == |s|;
      NothingDivided(s, start, open);
    } else {
      FirstPart(s, i, xs);
      PartPasses(s, i, xs, open);
      RestUnambiguous(xs);
      var x, e := xs[0], i + |TextOf(xs[0])|;
      SliceIs(s, i, TextOf(x));
      if x == Mark(';') && open <= 0 {
        MarkText(';');
        CharAt(s, i, ";", 0);
        SegmentsDivided(s, e, e, xs[1..], open);
        CutAgrees(s, start, i, xs, open);
      } else {
        SegmentsDivided(s, start, e, xs[1..], Opened(x, open));
        PassAgrees(s, start, i, e, xs, open);
      }
    }
  }

  lemma NothingDivided(s: string, start: nat, open: int)
    requires start <= |s|
    ensures Agree(s, start, |s|, [], open)
  {
    hide Strip;
    assert s[start..] == s[start..|s|];
  }

  lemma DividedStep(xs: seq<Part>, open: int, before: string)
    requires xs != []
    ensures xs[0] == Mark(';') && open <= 0 ==> Divided(xs, open, before) == [before + ";"] + Divided(xs[1..], open, [])
    ensures !(xs[0] == Mark(';') && open <= 0) ==>
      Divided(xs, open, before) == Divided(xs[1..], Opened(xs[0], open), before + TextOf(xs[0]))
  {
    hide Strip, TextOf;
  }

  lemma MarkText(c: char)
    ensures TextOf(Mark(c)) == [c]
  {
  }

  lemma SegmentsCut(s: string, start: nat, i: nat)
    requires start <= i < |s| && Cut(s, i)
    ensures Segments(s, start, i) == [s[start..i + 1]] + Segments(s, i + 1, i + 1)
  {
    hide Cut, Strip;
  }

  lemma PrintNothing()
    ensures Print([]) == []
  {
  }

  /** A line is divided after its semicolons outside literals and parentheses. */
  lemma LinePrintSplit(xs: seq<Part>)
    requires Unambiguous(xs)
    ensures Segments(Print(xs), 0, 0) == Divided(xs, 0, [])
  {
    hide Unambiguous, Print, Segments, Divided;
    var s := Print(xs);
    Begin(s);
    assert s[0..] == s && s[0..0] == [];
    SegmentsDivided(s, 0, 0, xs, 0);
  }

  // ----- DELIMITER lines -----

  /** The word DELIMITER, in any case, white space, and a text without white space. */
  ghost predicate Directs(s: string, d: string) {
    exists word: string, gap: string ::
      && UpperAll(word) == "DELIMITER" && gap != [] && (forall k :: 0 <= k < |gap| ==> IsSpace(gap[k]))
      && d != [] && (forall k :: 0 <= k < |d| ==> !IsSpace(d[k])) && s == word + gap + d
  }

  lemma GapEnds(s: string, i: nat, k: nat)
    requires i <= k < |s| && (forall j :: i <= j < k ==> IsSpace(s[j])) && !IsSpace(s[k])
    ensures SkipSpaces(s, i) == k
  {
    hide IsSpace;
    var e := SkipSpaces(s, i);
    assert !(e < k) && !(k < e);
    hide SkipSpaces;
  }

  lemma DirectiveReads(word: string, gap: string, d: string)
    requires UpperAll(word) == "DELIMITER" && gap != [] && (forall k :: 0 <= k < |gap| ==> IsSpace(gap[k]))
    requires d != [] && forall k :: 0 <= k < |d| ==> !IsSpace(d[k])
    ensures Directive(word + gap + d) == Some(d)
  {
    hide IsSpace, SkipSpaces;
    var s, k := word + gap + d, |word| + |gap|;
    assert |word| == |"DELIMITER"| == 9;
    assert s[..9] == word && s[k..] == d;
    assert forall j :: 9 <= j < k ==> s[j] == gap[j - 9];
    assert forall j :: k <= j < |s| ==> s[j] == d[j - k];
    hide UpperAll;
    GapEnds(s, 9, k);
  }

  /** A line is a DELIMITER line, with that delimiter, exactly when it reads so. */
  lemma DirectiveIff(s: string, d: string)
    ensures Directive(s) == Some(d) <==> Directs(s, d)
  {
    hide IsSpace, UpperAll;
    if Directive(s) == Some(d) {
      var k := SkipSpaces(s, 9);
      assert s == s[..9] + s[9..k] + s[k..];
      assert UpperAll(s[..9]) == "DELIMITER" && s[9..k] != [];
    }
    hide Directive;
    if word: string, gap: string :|
      && UpperAll(word) == "DELIMITER" && gap != [] && (forall k :: 0 <= k < |gap| ==> IsSpace(gap[k]))
      && d != [] && (forall k :: 0 <= k < |d| ==> !IsSpace(d[k])) && s == word + gap + d
    {
      DirectiveReads(word, gap, d);
    }
  }

  // ----- scripts put together from batches -----

  /** The lines of a script: a DELIMITER line, a statement, a line of several, a routine with the lines
      before its head and those after its last END, or a text ended by a delimiter of its own. */
  datatype Unit =
    | Switch(line: string)
    | Statement(lines: seq<string>)
    | Row(line: string)
    | Routine(lead: seq<string>, body: seq<string>, tail: seq<string>)
    | Delimited(lines: seq<string>)

  function UnitLines(u: Unit): seq<string> {
    match u
    case Switch(line) => [line]
    case Statement(lines) => lines
    case Row(line) => [line]
    case Routine(lead, body, tail) => lead + body + tail
    case Delimited(lines) => lines
  }

  function AllLines(us: seq<Unit>): seq<string> {
    if us == [] then [] else UnitLines(us[0]) + AllLines(us[1..])
  }

  predicate Ends(line: string, d: string) {
    EndsWith(Strip(line), d)
  }

  /** Part of a statement: no directive, no routine head, no line of several statements. */
  predicate Quiet(p: Patterns, line: string) {
    Directive(Strip(line)).None? && !p.routine(line) &&
    (Commented(Strip(line)) || |Segments(line, 0, 0)| <= 1)
  }

  predicate Unended(p: Patterns, ls: seq<string>) {
    forall k :: 0 <= k < |ls| ==> Quiet(p, ls[k]) && !Ends(ls[k], ";")
  }

  predicate Whole(p: Patterns, ls: seq<string>) {
    ls != [] && Unended(p, ls[..|ls| - 1]) && Quiet(p, ls[|ls| - 1]) && Ends(ls[|ls| - 1], ";")
  }

  /** The words that open a block: BEGIN, and CASE without END before it. */
  function Openers(p: Patterns, ls: seq<string>): int {
    if ls == [] then 0
    else
      var line := ls[|ls| - 1];
      Openers(p, ls[..|ls| - 1]) + p.begins(line) + p.cases(line) - p.endCases(line)
  }

  function Unfollowed(ends: seq<bool>): nat {
    if ends == [] then 0 else Unfollowed(ends[..|ends| - 1]) + if ends[|ends| - 1] then 0 else 1
  }

  /** The words that close one: END without IF, LOOP, WHILE or REPEAT after it. */
  function Closers(p: Patterns, ls: seq<string>): nat {
    if ls == [] then 0 else Closers(p, ls[..|ls| - 1]) + Unfollowed(p.ends(ls[|ls| - 1]))
  }

  /** The last line closes a block, and all that were opened are closed. */
  predicate Balanced(p: Patterns, ls: seq<string>) {
    ls != [] && Unfollowed(p.ends(ls[|ls| - 1])) > 0 && Openers(p, ls) <= Closers(p, ls)
  }

  /** The lines of a routine: from its head to the first line that closes all its blocks. */
  predicate RoutineBody(p: Patterns, ls: seq<string>) {
    && Balanced(p, ls) && p.routine(ls[0])
    && (forall k :: 0 <= k < |ls| ==> Directive(Strip(ls[k])).None? && !Balanced(p, ls[..k]))
  }

  predicate UnitFits(p: Patterns, u: Unit, d: string) {
    match u
    case Switch(line) => Directive(Strip(line)).Some?
    case Statement(lines) => d == ";" && Whole(p, lines)
    case Row(line) =>
      && d == ";" && Directive(Strip(line)).None? && !p.routine(line) && !Commented(Strip(line))
      && |Segments(line, 0, 0)| > 1
      && forall k :: 0 <= k < |Segments(line, 0, 0)| ==> Ends(Segments(line, 0, 0)[k], ";")
    case Routine(lead, body, tail) =>
      && d == ";" && Unended(p, lead) && RoutineBody(p, body)
      && (if tail == [] then Ends(body[|body| - 1], ";") else !Ends(body[|body| - 1], ";") && Whole(p, tail))
    case Delimited(lines) =>
      && d != ";" && d != [] && lines != [] && Ends(lines[|lines| - 1], d)
      && forall k :: 0 <= k < |lines| ==> Directive(Strip(lines[k])).None? && (k < |lines| - 1 ==> !Ends(lines[k], d))
  }

  function DelimiterAfter(u: Unit, d: string): string {
    if u.Switch? && Directive(Strip(u.line)).Some? then Directive(Strip(u.line)).value else d
  }

  predicate Fits(p: Patterns, us: seq<Unit>, d: string) {
    us == [] || (UnitFits(p, us[0], d) && Fits(p, us[1..], DelimiterAfter(us[0], d)))
  }

  /** The batch of some lines that end with the delimiter: stripped, without it, if anything is left. */
  function Cleared(ls: seq<string>, d: string, line: nat): seq<Batch> {
    var text := Strip(Join(ls, '\n'));
    var kept := if |d| <= |text| then RStrip(text[..|text| - |d|]) else [];
    if kept == [] then [] else [Batch(kept, line)]
  }

  /** The statements of a line: the first is reported on it, the others on the next. */
  function RowBatches(segs: seq<string>, i: nat): seq<Batch> {
    if segs == [] then []
    else
      var n := |segs| - 1;
      RowBatches(segs[..n], i) + Cleared([segs[n]], ";", if n == 0 then i else i + 1)
  }

  function UnitBatches(u: Unit, d: string, i: nat): seq<Batch> {
    match u
    case Switch(_) => []
    case Row(line) => RowBatches(Segments(line, 0, 0), i)
    case _ => Cleared(UnitLines(u), d, i)
  }

  function Expected(us: seq<Unit>, d: string, i: nat): seq<Batch> {
    if us == [] then []
    else UnitBatches(us[0], d, i) + Expected(us[1..], DelimiterAfter(us[0], d), i + |UnitLines(us[0])|)
  }

  // ----- the scan over a unit -----

  function Run(p: Patterns, st: Scan, ls: seq<string>, i: nat): Scan
    decreases |ls|
  {
    if ls == [] then st else Run(p, StepLine(p, st, ls[0], i), ls[1..], i + 1)
  }

  /** The scan's variables, and the batches of its pieces so far. */
  ghost predicate Holding(st: Scan, d: string, cur: seq<string>, start: nat, routine: bool, depth: int,
                          done: seq<Batch>) {
    && st.delimiter == d && st.current == cur && st.start == start && st.inRoutine == routine && st.depth == depth
    && BatchesOf(st.out) == done
  }

  ghost predicate Idle(st: Scan, d: string, i: nat, done: seq<Batch>) {
    Holding(st, d, [], i, false, 0, done)
  }

  lemma {:induction false} RunConcat(p: Patterns, st: Scan, x: seq<string>, y: seq<string>, i: nat)
    ensures Run(p, st, x + y, i) == Run(p, Run(p, st, x, i), y, i + |x|)
    decreases |x|
  {
    hide StepLine;
    if x == [] {
      assert x + y == y;
    } else {
      assert (x + y)[0] == x[0] && (x + y)[1..] == x[1..] + y;
      RunConcat(p, StepLine(p, st, x[0], i), x[1..], y, i + 1);
    }
  }

  lemma {:induction false} ScanRuns(p: Patterns, ls: seq<string>, n: nat)
    requires n <= |ls|
    ensures ScanTo(p, ls, |ls|) == Run(p, ScanTo(p, ls, n), ls[n..], n)
    decreases |ls| - n
  {
    hide StepLine;
    if n < |ls| {
      ScanRuns(p, ls, n + 1);
      assert ls[n..][0] == ls[n] && ls[n..][1..] == ls[n + 1..];
    }
  }

  /** A line that neither is a directive nor holds several statements. */
  lemma LineJoins(p: Patterns, st: Scan, line: string, i: nat)
    requires Directive(Strip(line)).None? && !Several(p, st, line)
    ensures StepLine(p, st, line, i) == Complete(Add(Track(p, st, line), line, i, 0), Strip(line), i)
  {
    hide Strip, Directive, Several, Complete, Track, Segments;
  }

  lemma NotEnded(st: Scan, line: string, i: nat)
    requires !Ends(line, st.delimiter) || (st.delimiter == ";" && st.inRoutine)
    ensures Complete(st, Strip(line), i) == st
  {
    hide Strip, Flush, RStrip, Join, EndsWith;
  }

  /** A line that ends with the delimiter in force ends the batch. */
  lemma Ended(st: Scan, line: string, i: nat, cur: seq<string>, start: nat, done: seq<Batch>)
    requires Holding(st, st.delimiter, cur + [line], start, false, 0, done) && st.delimiter != []
    requires Ends(line, st.delimiter)
    ensures Idle(Complete(st, Strip(line), i), st.delimiter, i + 1, done + Cleared(cur + [line], st.delimiter, start))
  {
    hide Strip, RStrip, Join, BatchesOf;
    JoinEnds(cur + [line], line, st.delimiter);
    var text := Strip(Join(st.current, '\n'));
    DelimiterFits(text, st.delimiter);
    var piece := Piece(RStrip(text[..|text| - |st.delimiter|]), st.delimiter, start, st.origin);
    BatchesAdd(st.out, piece);
    hide EndsWith;
  }

  lemma TrackQuiet(p: Patterns, st: Scan, line: string)
    requires st.delimiter != ";" || (!st.inRoutine && !p.routine(line))
    ensures Track(p, st, line) == st
  {
  }

  lemma NotSeveral(p: Patterns, st: Scan, line: string)
    requires st.delimiter != ";" || st.inRoutine || p.routine(line) || Quiet(p, line)
    ensures !Several(p, st, line)
  {
    hide Strip, Segments, Directive, Commented;
  }

  /** One line of a statement. */
  lemma PlainStep(p: Patterns, st: Scan, line: string, i: nat, d: string, cur: seq<string>, start: nat,
                  done: seq<Batch>)
    requires Holding(st, d, cur, start, false, 0, done) && d != []
    requires Directive(Strip(line)).None? && (d == ";" ==> Quiet(p, line))
    ensures !Ends(line, d) ==> Holding(StepLine(p, st, line, i), d, cur + [line], start, false, 0, done)
    ensures Ends(line, d) ==> Idle(StepLine(p, st, line, i), d, i + 1, done + Cleared(cur + [line], d, start))
  {
    hide Strip, Complete, Track, Ends, StepLine, Directive, BatchesOf, Several, Cleared;
    assert d == ";" ==> !p.routine(line);
    hide Quiet;
    NotSeveral(p, st, line);
    LineJoins(p, st, line, i);
    TrackQuiet(p, st, line);
    var added := Add(st, line, i, 0);
    if Ends(line, d) {
      Ended(added, line, i, cur, start, done);
    } else {
      NotEnded(added, line, i);
    }
  }

  lemma {:induction false} PlainRun(p: Patterns, st: Scan, ls: seq<string>, i: nat, d: string, cur: seq<string>,
                                    start: nat, done: seq<Batch>)
    requires Holding(st, d, cur, start, false, 0, done) && d != []
    requires forall k :: 0 <= k < |ls| ==>
      Directive(Strip(ls[k])).None? && (d == ";" ==> Quiet(p, ls[k])) && !Ends(ls[k], d)
    ensures Holding(Run(p, st, ls, i), d, cur + ls, start, false, 0, done)
    decreases |ls|
  {
    hide Strip, Ends, StepLine, Directive, Quiet, Holding;
    if ls == [] {
      assert cur + ls == cur;
    } else {
      PlainStep(p, st, ls[0], i, d, cur, start, done);
      PlainRun(p, StepLine(p, st, ls[0], i), ls[1..], i + 1, d, cur + [ls[0]], start, done);
      assert cur + [ls[0]] + ls[1..] == cur + ls;
    }
  }

  /** Lines of which only the last ends with the delimiter are one batch. */
  lemma LinesRun(p: Patterns, st: Scan, ls: seq<string>, i: nat, d: string, cur: seq<string>, start: nat,
                 done: seq<Batch>)
    requires Holding(st, d, cur, start, false, 0, done) && d != [] && ls != [] && Ends(ls[|ls| - 1], d)
    requires forall k :: 0 <= k < |ls| ==>
      Directive(Strip(ls[k])).None? && (d == ";" ==> Quiet(p, ls[k])) && (k < |ls| - 1 ==> !Ends(ls[k], d))
    ensures Idle(Run(p, st, ls, i), d, i + |ls|, done + Cleared(cur + ls, d, start))
  {
    hide Strip, Ends, StepLine, Directive, Quiet, Holding, Cleared, Run;
    var n := |ls| - 1;
    PlainRun(p, st, ls[..n], i, d, cur, start, done);
    assert ls == ls[..n] + [ls[n]] && cur + ls == cur + ls[..n] + [ls[n]];
    RunConcat(p, st, ls[..n], [ls[n]], i);
    var last := Run(p, st, ls[..n], i);
    PlainStep(p, last, ls[n], i + n, d, cur + ls[..n], start, done);
    RunOne(p, last, ls[n], i + n);
  }

  lemma RunOne(p: Patterns, st: Scan, line: string, i: nat)
    ensures Run(p, st, [line], i) == StepLine(p, st, line, i)
  {
    hide StepLine;
    assert [line][1..] == [];
    assert Run(p, StepLine(p, st, line, i), [], i + 1) == StepLine(p, st, line, i);
  }

  lemma WholeRun(p: Patterns, st: Scan, ls: seq<string>, i: nat, cur: seq<string>, start: nat, done: seq<Batch>)
    requires Holding(st, ";", cur, start, false, 0, done) && Whole(p, ls)
    ensures Idle(Run(p, st, ls, i), ";", i + |ls|, done + Cleared(cur + ls, ";", start))
  {
    hide Strip, Ends, Run, Directive, Holding, Cleared, Segments, Commented;
    var n := |ls| - 1;
    forall k | 0 <= k < |ls|
      ensures Directive(Strip(ls[k])).None? && Quiet(p, ls[k]) && (k < n ==> !Ends(ls[k], ";"))
    {
      assert k < n ==> ls[k] == ls[..n][k];
    }
    LinesRun(p, st, ls, i, ";", cur, start, done);
  }

  // ----- routines -----

  /** The END words of a line leave the routine exactly when they close all blocks open. */
  lemma {:induction false} CloseEndsIs(depth: int, ends: seq<bool>)
    ensures var c := Unfollowed(ends);
      CloseEnds(depth, true, ends) == if c > 0 && depth <= c then (0, false) else (depth - c, true)
  {
    if ends != [] {
      CloseEndsIs(depth, ends[..|ends| - 1]);
    }
  }

  /** One line of a routine, whose lines so far are `ls`. */
  lemma RoutineStep(p: Patterns, st: Scan, ls: seq<string>, line: string, i: nat, cur: seq<string>, start: nat,
                    done: seq<Batch>)
    requires Holding(st, ";", cur + ls, start, ls != [], Openers(p, ls) - Closers(p, ls), done)
    requires Directive(Strip(line)).None? && (ls == [] ==> p.routine(line))
    ensures var st', now := StepLine(p, st, line, i), ls + [line];
      && (!Balanced(p, now) ==>
        Holding(st', ";", cur + now, start, true, Openers(p, now) - Closers(p, now), done))
      && (Balanced(p, now) && !Ends(line, ";") ==> Holding(st', ";", cur + now, start, false, 0, done))
      && (Balanced(p, now) && Ends(line, ";") ==> Idle(st', ";", i + 1, done + Cleared(cur + now, ";", start)))
  {
    hide Strip, Complete, Ends, StepLine, Directive, BatchesOf, Several, Cleared, CloseEnds;
    var now := ls + [line];
    NotSeveral(p, st, line);
    LineJoins(p, st, line, i);
    TrackRoutine(p, st, ls, line);
    var added := Add(Track(p, st, line), line, i, 0);
    assert added.current == cur + now by { Regroup(cur, ls, [line]); }
    hide Track;
    if Balanced(p, now) && Ends(line, ";") {
      assert cur + now == cur + ls + [line];
      Ended(added, line, i, cur + ls, start, done);
    } else {
      NotEnded(added, line, i);
    }
    hide Balanced, Openers, Closers;
  }

  lemma TrackRoutine(p: Patterns, st: Scan, ls: seq<string>, line: string)
    requires st.delimiter == ";" && st.inRoutine == (ls != []) && (ls == [] ==> p.routine(line))
    requires st.depth == Openers(p, ls) - Closers(p, ls)
    ensures var now := ls + [line];
      Track(p, st, line) == if Balanced(p, now) then st.(depth := 0, inRoutine := false)
        else st.(depth := Openers(p, now) - Closers(p, now), inRoutine := true)
  {
    hide CloseEnds;
    assert (ls + [line])[..|ls|] == ls;
    CloseEndsIs(st.depth + p.begins(line) + p.cases(line) - p.endCases(line), p.ends(line));
  }

  lemma {:induction false} RoutineRun(p: Patterns, st: Scan, ls: seq<string>, n: nat, i: nat, cur: seq<string>,
                                      start: nat, done: seq<Batch>)
    requires Holding(st, ";", cur, start, false, 0, done) && RoutineBody(p, ls) && n < |ls|
    ensures Holding(Run(p, st, ls[..n], i), ";", cur + ls[..n], start, n > 0,
      Openers(p, ls[..n]) - Closers(p, ls[..n]), done)
  {
    hide Strip, Ends, StepLine, Directive, Holding, Cleared, Balanced, Run, RoutineBody, Openers, Closers;
    if n == 0 {
      assert ls[..0] == [] && cur + ls[..0] == cur;
      RunNone(p, st, i);
      NothingOpen(p);
    } else {
      BodyLine(p, ls, n - 1);
      BodyLine(p, ls, n);
      RoutineRun(p, st, ls, n - 1, i, cur, start, done);
      assert ls[..n] == ls[..n - 1] + [ls[n - 1]];
      RunConcat(p, st, ls[..n - 1], [ls[n - 1]], i);
      var before := Run(p, st, ls[..n - 1], i);
      RunOne(p, before, ls[n - 1], i + n - 1);
      RoutineStep(p, before, ls[..n - 1], ls[n - 1], i + n - 1, cur, start, done);
    }
  }

  lemma BodyLine(p: Patterns, ls: seq<string>, k: nat)
    requires RoutineBody(p, ls) && k < |ls|
    ensures Directive(Strip(ls[k])).None? && !Balanced(p, ls[..k]) && p.routine(ls[0])
  {
    hide Strip, Directive, Balanced;
  }

  lemma RunNone(p: Patterns, st: Scan, i: nat)
    ensures Run(p, st, [], i) == st
  {
  }

  lemma NothingOpen(p: Patterns)
    ensures Openers(p, []) == 0 && Closers(p, []) == 0
  {
  }

  /** The body of a routine ends with the first line that closes all its blocks. */
  lemma BodyRun(p: Patterns, st: Scan, ls: seq<string>, i: nat, cur: seq<string>, start: nat, done: seq<Batch>)
    requires Holding(st, ";", cur, start, false, 0, done) && RoutineBody(p, ls)
    ensures var st', last := Run(p, st, ls, i), ls[|ls| - 1];
      && (!Ends(last, ";") ==> Holding(st', ";", cur + ls, start, false, 0, done))
      && (Ends(last, ";") ==> Idle(st', ";", i + |ls|, done + Cleared(cur + ls, ";", start)))
  {
    hide Strip, Ends, StepLine, Directive, Holding, Cleared, Balanced, Run;
    var n := |ls| - 1;
    NotEmptyBody(p, ls);
    RoutineRun(p, st, ls, n, i, cur, start, done);
    assert ls == ls[..n] + [ls[n]];
    RunConcat(p, st, ls[..n], [ls[n]], i);
    var before := Run(p, st, ls[..n], i);
    RunOne(p, before, ls[n], i + n);
    RoutineStep(p, before, ls[..n], ls[n], i + n, cur, start, done);
  }

  lemma NotEmptyBody(p: Patterns, ls: seq<string>)
    requires RoutineBody(p, ls)
    ensures ls != [] && Balanced(p, ls)
  {
  }

  lemma RoutineUnit(p: Patterns, st: Scan, u: Unit, i: nat, done: seq<Batch>)
    requires u.Routine? && UnitFits(p, u, ";") && Idle(st, ";", i, done)
    ensures Idle(Run(p, st, UnitLines(u), i), ";", i + |UnitLines(u)|, done + Cleared(UnitLines(u), ";", i))
  {
    hide Strip, Ends, Run, Directive, Holding, Cleared, Whole, RoutineBody, Segments, Commented;
    var lead, body, tail := u.lead, u.body, u.tail;
    NotEmptyBody(p, body);
    PlainRun(p, st, lead, i, ";", [], i, done);
    assert [] + lead == lead;
    RunConcat(p, st, lead, body, i);
    RunConcat(p, st, lead + body, tail, i);
    var before := Run(p, st, lead, i);
    BodyRun(p, before, body, i + |lead|, lead, i, done);
    if tail == [] {
      assert lead + body + tail == lead + body;
    } else {
      var after := Run(p, st, lead + body, i);
      WholeRun(p, after, tail, i + |lead| + |body|, lead + body, i, done);
    }
  }

  // ----- lines of several statements -----

  lemma EndsAlike(s: string)
    requires Ends(s, ";")
    ensures EndsWith(RStrip(s), ";") && Strip(s) != []
  {
    hide Strip, RStrip;
    var a, b := StripSplit(s);
    var c := RStripSplit(s);
    assert Strip(s) == s[a..b];
    assert s[a..b][b - a - 1] == ';' by {
      assert s[a..b][|s[a..b]| - 1..] == ";";
    }
    assert b == c;
    assert s[..c][c - 1..] == ";";
  }

  lemma {:induction false} RowRun(st: Scan, segs: seq<string>, i: nat, done: seq<Batch>)
    requires Idle(st, ";", i, done) && forall k :: 0 <= k < |segs| ==> Ends(segs[k], ";")
    ensures Idle(AddSegments(st, segs, i), ";", if segs == [] then i else i + 1, done + RowBatches(segs, i))
  {
    hide Strip, RStrip, EndsWith, Cleared, Flush, Ends;
    if segs == [] {
      assert done + [] == done;
    } else {
      var n := |segs| - 1;
      RowRun(st, segs[..n], i, done);
      EndsAlike(segs[n]);
      var before := AddSegments(st, segs[..n], i);
      SegmentFlushed(before, segs[n], i, n, if n == 0 then i else i + 1, done + RowBatches(segs[..n], i));
      Regroup(done, RowBatches(segs[..n], i), Cleared([segs[n]], ";", if n == 0 then i else i + 1));
    }
  }

  lemma SegmentFlushed(st: Scan, seg: string, i: nat, nth: nat, start: nat, done: seq<Batch>)
    requires Idle(st, ";", start, done) && Ends(seg, ";")
    ensures Idle(Flush(Add(st, seg, i, nth), i + 1), ";", i + 1, done + Cleared([seg], ";", start))
  {
    hide Strip, RStrip, Join, BatchesOf;
    var added := Add(st, seg, i, nth);
    JoinEnds([seg], seg, ";");
    assert added.current == [seg];
    BatchesAdd(added.out, FlushPiece(added));
    DelimiterFits(Strip(Join([seg], '\n')), ";");
    hide EndsWith;
  }

  // ----- the batches of a script -----

  lemma SwitchStep(p: Patterns, st: Scan, line: string, i: nat, d: string, done: seq<Batch>)
    requires Idle(st, d, i, done) && Directive(Strip(line)).Some?
    ensures Idle(StepLine(p, st, line, i), Directive(Strip(line)).value, i + 1, done)
  {
    hide Strip, Directive, BatchesOf, Flush;
  }

  lemma RowStep(p: Patterns, st: Scan, line: string, i: nat, done: seq<Batch>)
    requires Idle(st, ";", i, done) && UnitFits(p, Row(line), ";")
    ensures Idle(StepLine(p, st, line, i), ";", i + 1, done + RowBatches(Segments(line, 0, 0), i))
  {
    hide Strip, Directive, BatchesOf, Segments, AddSegments, Commented, RowBatches;
    RowRun(st, Segments(line, 0, 0), i, done);
    hide Ends;
  }

  lemma UnitRun(p: Patterns, st: Scan, u: Unit, d: string, i: nat, done: seq<Batch>)
    requires Idle(st, d, i, done) && UnitFits(p, u, d)
    ensures Idle(Run(p, st, UnitLines(u), i), DelimiterAfter(u, d), i + |UnitLines(u)|, done + UnitBatches(u, d, i))
  {
    hide Strip, Directive, Holding, Cleared, Whole, RoutineBody, Run, StepLine, RowBatches, Segments, Ends, Commented;
    match u
    case Switch(line) =>
      RunOne(p, st, line, i);
      SwitchStep(p, st, line, i, d, done);
      assert done + [] == done;
    case Statement(lines) =>
      WholeRun(p, st, lines, i, [], i, done);
      assert [] + lines == lines;
    case Row(line) =>
      RunOne(p, st, line, i);
      RowStep(p, st, line, i, done);
    case Routine(_, _, _) => RoutineUnit(p, st, u, i, done);
    case Delimited(lines) =>
      LinesRun(p, st, lines, i, d, [], i, done);
      assert [] + lines == lines;
  }

  lemma {:induction false} UnitsRun(p: Patterns, st: Scan, us: seq<Unit>, d: string, i: nat, done: seq<Batch>)
      returns (last: string)
    requires Idle(st, d, i, done) && Fits(p, us, d)
    ensures Idle(Run(p, st, AllLines(us), i), last, i + |AllLines(us)|, done + Expected(us, d, i))
    decreases |us|
  {
    hide Idle, UnitFits, UnitBatches, UnitLines, DelimiterAfter, Run;
    if us == [] {
      RunNone(p, st, i);
      assert done + [] == done;
      last := d;
    } else {
      var u := us[0];
      UnitRun(p, st, u, d, i, done);
      RunConcat(p, st, UnitLines(u), AllLines(us[1..]), i);
      var next, j := DelimiterAfter(u, d), i + |UnitLines(u)|;
      last := UnitsRun(p, Run(p, st, UnitLines(u), i), us[1..], next, j, done + UnitBatches(u, d, i));
      Regroup(done, UnitBatches(u, d, i), Expected(us[1..], next, j));
    }
  }

  /** A script of statements, routines and delimited texts is divided into just these: a routine ends
      with the first line by which every BEGIN and CASE of it has met its END. Each is reported on its
      first line, the later statements of a line on the next. */
  lemma UnitsComeBack(p: Patterns, us: seq<Unit>)
    requires Fits(p, us, ";")
    ensures BatchesOf(Pieces(p, AllLines(us))) == Expected(us, ";", 0)
  {
    hide Fits, Run, AllLines, Expected, ScanTo, Strip, Join, BatchesOf;
    var lines := AllLines(us);
    ScanRuns(p, lines, 0);
    assert lines[0..] == lines;
    assert ScanTo(p, lines, 0) == INIT by { ScanStart(p, lines); }
    assert Idle(INIT, ";", 0, []) by { InitIdle(); }
    var last := UnitsRun(p, INIT, us, ";", 0, []);
    assert [] + Expected(us, ";", 0) == Expected(us, ";", 0);
    var st := ScanTo(p, lines, |lines|);
    var rest := Piece(Strip(Join(st.current, '\n')), "", st.start, st.origin);
    NothingJoined(st);
    BatchesAdd(st.out, rest);
    assert BatchesOf(st.out) + [] == BatchesOf(st.out);
  }

  lemma InitIdle()
    ensures Idle(INIT, ";", 0, [])
  {
  }

  // ----- the loops -----

  method CloseEndsLoop(depth: int, inRoutine: bool, ends: seq<bool>) returns (d: int, r: bool)
    ensures (d, r) == CloseEnds(depth, inRoutine, ends)
  {
    d, r := depth, inRoutine;
    for k := 0 to |ends|
      invariant (d, r) == CloseEnds(depth, inRoutine, ends[..k])
    {
      assert ends[..k + 1][..k] == ends[..k];
      if ends[k] { continue; }
      d := d - 1;
      if d <= 0 {
        d := 0;
        r := false;
      }
    }
    assert ends[..|ends|] == ends;
  }

  /** The scan's variables, with the pieces that gave no batch remembered. */
  class Splitter {
    var batches: seq<Batch>
    var current: seq<string>
    var batchStart: nat
    var delimiter: string
    var inRoutine: bool
    var beginDepth: int
    ghost var pieces: seq<Piece>
    ghost var origin: Origin

    /** The state of the scan that the variables stand for. */
    ghost function View(): Scan
      reads this
    {
      Scan(pieces, current, batchStart, origin, delimiter, inRoutine, beginDepth)
    }

    ghost predicate Valid()
      reads this
    {
      batches == BatchesOf(pieces)
    }

    constructor ()
      ensures Valid() && View() == INIT
    {
      batches, current, batchStart, delimiter, inRoutine, beginDepth := [], [], 0, ";", false, 0;
      pieces, origin := [], Origin(0, 0, "");
    }

    method Emit(text: string, ghost shed: string)
      requires Valid()
      modifies this`batches, this`pieces
      ensures Valid() && pieces == old(pieces) + [Piece(text, shed, batchStart, origin)]
    {
      BatchesAdd(pieces, Piece(text, shed, batchStart, origin));
      if text != [] {
        batches := batches + [Batch(text, batchStart)];
      }
      pieces := pieces + [Piece(text, shed, batchStart, origin)];
    }

    method Append(x: string, ghost line: nat, ghost nth: nat)
      requires Valid()
      modifies this`current, this`origin
      ensures Valid() && View() == Add(old(View()), x, line, nth)
    {
      origin := if current == [] then Origin(line, nth, x) else origin;
      current := current + [x];
    }

    method FlushTo(next: nat)
      requires Valid()
      modifies this
      ensures Valid() && View() == Flush(old(View()), next)
    {
      hide Strip, RStrip, Join, BatchesOf;
      var text := Strip(Join(current, '\n'));
      ghost var shed := if EndsWith(text, ";") then ";" else "";
      if EndsWith(text, ";") {
        text := RStrip(text[..|text| - 1]);
      }
      Emit(text, shed);
      current := [];
      batchStart := next;
    }

    method AddLineSegments(segs: seq<string>, i: nat)
      requires Valid()
      modifies this
      ensures Valid() && View() == AddSegments(old(View()), segs, i)
    {
      hide Strip, RStrip, Flush, EndsWith, BatchesOf;
      assert segs[..0] == [];
      for k := 0 to |segs|
        invariant Valid() && View() == AddSegments(old(View()), segs[..k], i)
      {
        assert segs[..k + 1][..k] == segs[..k];
        var seg := segs[k];
        if Strip(seg) == [] { continue; }
        Append(seg, i, k);
        if EndsWith(RStrip(seg), ";") {
          FlushTo(i + 1);
        }
      }
      assert segs[..|segs|] == segs;
    }

    method TrackLine(p: Patterns, line: string)
      requires Valid()
      modifies this`inRoutine, this`beginDepth
      ensures Valid() && View() == Track(p, old(View()), line)
    {
      hide CloseEnds, BatchesOf;
      if delimiter == ";" && p.routine(line) {
        inRoutine := true;
      }
      if inRoutine && delimiter == ";" {
        beginDepth := beginDepth + p.begins(line);
        beginDepth := beginDepth + (p.cases(line) - p.endCases(line));
        beginDepth, inRoutine := CloseEndsLoop(beginDepth, inRoutine, p.ends(line));
      }
    }

    method CompleteLine(stripped: string, i: nat)
      requires Valid()
      modifies this
      ensures Valid() && View() == Complete(old(View()), stripped, i)
    {
      hide Strip, RStrip, Join, BatchesOf, Flush, EndsWith;
      if delimiter != ";" {
        if EndsWith(stripped, delimiter) {
          var text := Strip(Join(current, '\n'));
          var kept := if |delimiter| <= |text| then RStrip(text[..|text| - |delimiter|]) else "";
          ghost var was := View();
          Emit(kept, delimiter);
          current := [];
          batchStart := i + 1;
          ghost var piece := Piece(kept, was.delimiter, was.start, was.origin);
          assert View() == was.(out := was.out + [piece], current := [], start := i + 1);
        }
      } else if EndsWith(stripped, ";") && !inRoutine && beginDepth == 0 {
        FlushTo(i + 1);
      }
    }

    /** One turn of the loop over the lines. */
    method ScanLine(p: Patterns, line: string, i: nat)
      requires Valid()
      modifies this
      ensures Valid() && View() == StepLine(p, old(View()), line, i)
    {
      hide Strip, Directive, Flush, AddSegments, Track, Complete, Segments, BatchesOf, Commented;
      var stripped := Strip(line);
      var directive := Directive(stripped);
      if directive.Some? {
        if current != [] {
          FlushTo(i);
        }
        delimiter := directive.value;
        batchStart := i + 1;
        inRoutine := false;
        beginDepth := 0;
        FlushKeeps(old(View()), i);
        return;
      }
      if delimiter == ";" && !inRoutine && !Commented(stripped) && !p.routine(line) {
        var segs := SplitLineSemis(line);
        if |segs| > 1 {
          AddLineSegments(segs, i);
          return;
        }
      }
      TrackLine(p, line);
      Append(line, i, 0);
      CompleteLine(stripped, i);
    }
  }

  lemma FlushKeeps(st: Scan, next: nat)
    ensures var f := Flush(st, next); f.current == [] && f.out == st.out + [FlushPiece(st)]
  {
  }

  method SplitMysql(p: Patterns, sql: string) returns (batches: seq<Batch>)
    ensures batches == BatchesOf(Pieces(p, Lines(sql, '\n')))
  {
    hide StepLine, BatchesOf, Strip, Join, Lines;
    var s := new Splitter();
    var lines := Lines(sql, '\n');
    for i := 0 to |lines|
      invariant s.Valid() && s.View() == ScanTo(p, lines, i)
    {
      s.ScanLine(p, lines[i], i);
    }
    var remaining := Strip(Join(s.current, '\n'));
    s.Emit(remaining, "");
    batches := s.batches;
  }
}
