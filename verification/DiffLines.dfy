/** The unified-diff line tracker of `private_leak_check.py`, proved against diffs printed from the
    edits that turn one version of a file into the next. */
module DiffLines {
  import opened Basics
  import opened Text

  // ----- reading the text -----

  /** The line boundaries of `str.splitlines`. */
  predicate IsBreak(c: char) {
    || '\n' <= c <= '\r'
    || '\U{1c}' <= c <= '\U{1e}'
    || c in {'\U{85}', '\U{2028}', '\U{2029}'}
  }

  function FirstBreak(s: string): (i: nat)
    ensures i <= |s|
    ensures forall k :: 0 <= k < i ==> !IsBreak(s[k])
    ensures i < |s| ==> IsBreak(s[i])
  {
    if s == [] || IsBreak(s[0]) then 0
    else
      var i := FirstBreak(s[1..]);
      assert forall k :: 1 <= k <= i ==> s[k] == s[1..][k - 1];
      1 + i
  }

  function SplitLines(s: string): seq<string> {
    var i := FirstBreak(s);
    if s == [] then []
    else if i == |s| then [s]
    else [s[..i]] + SplitLines(s[AfterBreak(s, i)..])
  }

  /** A carriage return and the newline after it are one boundary. */
  function AfterBreak(s: string, i: nat): (k: nat)
    requires i < |s|
    ensures i < k <= |s|
  {
    if s[i] == '\r' && i + 1 < |s| && s[i + 1] == '\n' then i + 2 else i + 1
  }

  predicate Unbroken(s: string) {
    forall k :: 0 <= k < |s| ==> !IsBreak(s[k])
  }

  function Unlines(ls: seq<string>): string {
    if ls == [] then [] else ls[0] + "\n" + Unlines(ls[1..])
  }

  function DigitsEnd(s: string, i: nat): (k: nat)
    requires i <= |s|
    ensures i <= k <= |s|
    ensures forall j :: i <= j < k ==> IsDigit(s[j])
    ensures k < |s| ==> !IsDigit(s[k])
    decreases |s| - i
  {
    if i < |s| && IsDigit(s[i]) then DigitsEnd(s, i + 1) else i
  }

  function Number(s: string): nat
    requires forall k :: 0 <= k < |s| ==> IsDigit(s[k])
  {
    if s == [] then 0
    else
      assert IsDigit(s[|s| - 1]);
      10 * Number(s[..|s| - 1]) + (s[|s| - 1] - '0') as nat
  }

  /** `\d+(?:,\d+)?` at `i`: where the first number ends and where the match ends. */
  function RangeAt(s: string, i: nat): (r: Option<(nat, nat)>)
    requires i <= |s|
    ensures r.Some? ==> i < r.value.0 <= r.value.1 <= |s| && r.value.0 == DigitsEnd(s, i)
  {
    var j := DigitsEnd(s, i);
    if j == i then None
    else if j < |s| && s[j] == ',' then
      var k := DigitsEnd(s, j + 1);
      if k == j + 1 then Some((j, j)) else Some((j, k))
    else Some((j, j))
  }

  /** `^@@ -\d+(?:,\d+)? \+(\d+)(?:,\d+)? @@`, giving the captured number. */
  function HunkStart(s: string): Option<nat> {
    if !StartsWith(s, "@@ -", 0) then None
    else
      var before := RangeAt(s, 4);
      if before.None? || !StartsWith(s, " +", before.value.1) then None
      else
        var i := before.value.1 + 2;
        var after := RangeAt(s, i);
        if after.None? || !StartsWith(s, " @@", after.value.1) then None
        else Some(Number(s[i..after.value.0]))
  }

  /** `^\+\+\+ b/(.+)$`, giving the captured path. */
  function NewPath(s: string): Option<string> {
    if |s| > 6 && s[..6] == "+++ b/" then Some(s[6..]) else None
  }

  // ----- the tracker -----

  datatype State = State(path: Option<string>, inHunk: bool, lineno: nat)

  datatype Yield = Yield(path: string, lineno: nat, content: string)

  function Step(st: State, raw: string): (State, seq<Yield>) {
    if StartsWith(raw, "diff --git ", 0) || StartsWith(raw, "index ", 0) then (st.(inHunk := false), [])
    else if NewPath(raw).Some? then (st.(path := NewPath(raw), inHunk := false), [])
    else if StartsWith(raw, "--- ", 0) then (st, [])
    else if HunkStart(raw).Some? then (st.(lineno := HunkStart(raw).value, inHunk := true), [])
    else if !st.inHunk || st.path.None? then (st, [])
    else if StartsWith(raw, "+", 0) then (st.(lineno := st.lineno + 1), [Yield(st.path.value, st.lineno, raw[1..])])
    else if StartsWith(raw, "-", 0) then (st, [])
    else (st.(lineno := st.lineno + 1), [])
  }

  function Run(st: State, ls: seq<string>): (State, seq<Yield>)
    decreases |ls|
  {
    if ls == [] then (st, [])
    else
      var one := Step(st, ls[0]);
      var rest := Run(one.0, ls[1..]);
      (rest.0, one.1 + rest.1)
  }

  const START := State(None, false, 0)

  function AddedLines(text: string): seq<Yield> {
    Run(START, SplitLines(text)).1
  }

  lemma {:induction false} RunConcat(st: State, xs: seq<string>, ys: seq<string>)
    ensures Run(st, xs + ys) == (Run(Run(st, xs).0, ys).0, Run(st, xs).1 + Run(Run(st, xs).0, ys).1)
    decreases |xs|
  {
    hide Step;
    if xs == [] {
      assert xs + ys == ys;
      assert Run(st, xs) == (st, []);
      assert [] + Run(st, ys).1 == Run(st, ys).1;
    } else {
      var one := Step(st, xs[0]);
      RunConcat(one.0, xs[1..], ys);
      assert (xs + ys)[1..] == xs[1..] + ys;
      var u, v := Run(one.0, xs[1..]), Run(Run(st, xs).0, ys);
      assert one.1 + (u.1 + v.1) == (one.1 + u.1) + v.1;
    }
  }

  lemma RunOne(st: State, l: string)
    ensures Run(st, [l]) == Step(st, l)
  {
    hide Step;
    assert [l][1..] == [];
    var one := Step(st, l);
    assert Run(one.0, []) == (one.0, []);
    assert one.1 + [] == one.1;
  }

  /** `iter_added_lines`, its yields collected in order. */
  method IterAddedLines(text: string) returns (out: seq<Yield>)
    ensures out == AddedLines(text)
  {
    hide Run, StartsWith, NewPath, HunkStart, SplitLines;
    var path: Option<string> := None;
    var inHunk := false;
    var lineno: nat := 0;
    out := [];
    var ls := SplitLines(text);
    StartOfRun(START, ls);
    for k := 0 to |ls|
      invariant Run(START, ls[..k]) == (State(path, inHunk, lineno), out)
    {
      var raw := ls[k];
      assert out + [] == out;
      RunSnoc(START, ls, k);
      if StartsWith(raw, "diff --git ", 0) || StartsWith(raw, "index ", 0) {
        inHunk := false;
        continue;
      }
      var file := NewPath(raw);
      if file.Some? {
        path := file;
        inHunk := false;
        continue;
      }
      if StartsWith(raw, "--- ", 0) {
        continue;
      }
      var hunk := HunkStart(raw);
      if hunk.Some? {
        lineno := hunk.value;
        inHunk := true;
        continue;
      }
      if !inHunk || path.None? {
        continue;
      }
      if StartsWith(raw, "+", 0) {
        PrefixOne(raw, '+');
        out := out + [Yield(path.value, lineno, raw[1..])];
        lineno := lineno + 1;
      } else if StartsWith(raw, "-", 0) {
        continue;
      } else {
        lineno := lineno + 1;
      }
    }
    assert ls[..|ls|] == ls;
  }

  lemma PrefixOne(s: string, c: char)
    requires StartsWith(s, [c], 0)
    ensures s != []
  {
  }

  lemma StartOfRun(st: State, ls: seq<string>)
    ensures Run(st, ls[..0]) == (st, [])
  {
  }

  lemma RunSnoc(st: State, ls: seq<string>, k: nat)
    requires k < |ls|
    ensures Run(st, ls[..k + 1]).0 == Step(Run(st, ls[..k]).0, ls[k]).0
    ensures Run(st, ls[..k + 1]).1 == Run(st, ls[..k]).1 + Step(Run(st, ls[..k]).0, ls[k]).1
  {
    hide Step;
    RunConcat(st, ls[..k], [ls[k]]);
    RunOne(Run(st, ls[..k]).0, ls[k]);
    assert ls[..k + 1] == ls[..k] + [ls[k]];
  }

  // ----- the diff of one version of a file against the next -----

  datatype Line = Context(text: string) | Removed(text: string) | Added(text: string) | NoNewline

  /** Lines both versions share, then the changed lines with their context. */
  datatype Hunk = Hunk(gap: seq<string>, body: seq<Line>, section: string)

  /** `extra` are the header lines between `diff --git` and `---`. */
  datatype FileDiff = FileDiff(name: string, extra: seq<string>, source: string, path: string, deleted: bool,
                               hunks: seq<Hunk>, tail: seq<string>)

  function NewSide(body: seq<Line>): seq<string> {
    if body == [] then []
    else (if body[0].Context? || body[0].Added? then [body[0].text] else []) + NewSide(body[1..])
  }

  function OldSide(body: seq<Line>): seq<string> {
    if body == [] then []
    else (if body[0].Context? || body[0].Removed? then [body[0].text] else []) + OldSide(body[1..])
  }

  function NewFile(hunks: seq<Hunk>, tail: seq<string>): seq<string> {
    if hunks == [] then tail else hunks[0].gap + NewSide(hunks[0].body) + NewFile(hunks[1..], tail)
  }

  // ----- printing the diff -----

  function Range(before: nat, count: nat): string {
    Decimal(FirstLine(before, count)) + (if count == 1 then [] else "," + Decimal(count))
  }

  /** The line a hunk's range starts at; an empty range names the line before it. */
  function FirstLine(before: nat, count: nat): nat {
    if count == 0 then before else before + 1
  }

  function HunkHeader(oldBefore: nat, newBefore: nat, h: Hunk): string {
    "@@ -" + Range(oldBefore, |OldSide(h.body)|) + " +" + Range(newBefore, |NewSide(h.body)|) + " @@" + h.section
  }

  function PrintLine(l: Line): string {
    match l
    case Context(x) => " " + x
    case Removed(x) => "-" + x
    case Added(x) => "+" + x
    case NoNewline => "\\ No newline at end of file"
  }

  function PrintBody(body: seq<Line>): seq<string> {
    if body == [] then [] else [PrintLine(body[0])] + PrintBody(body[1..])
  }

  function PrintHunks(hunks: seq<Hunk>, o: nat, n: nat): seq<string> {
    if hunks == [] then []
    else
      var h := hunks[0];
      var o', n' := o + |h.gap|, n + |h.gap|;
      [HunkHeader(o', n', h)] + PrintBody(h.body) +
      PrintHunks(hunks[1..], o' + |OldSide(h.body)|, n' + |NewSide(h.body)|)
  }

  function Target(f: FileDiff): string {
    if f.deleted then "+++ /dev/null" else "+++ b/" + f.path
  }

  function PrintFile(f: FileDiff): seq<string> {
    ["diff --git " + f.name] + f.extra +
    (if f.hunks == [] then [] else ["--- " + f.source, Target(f)] + PrintHunks(f.hunks, 0, 0))
  }

  function PrintDiff(d: seq<FileDiff>): seq<string> {
    if d == [] then [] else PrintFile(d[0]) + PrintDiff(d[1..])
  }

  // ----- what should be yielded -----

  /** A hunk body and the line of the new file its first line stands on. */
  datatype Place = Place(path: string, first: nat, heading: string, body: seq<Line>)

  function Places(path: string, hunks: seq<Hunk>, n: nat): seq<Place> {
    if hunks == [] then []
    else
      var n' := n + |hunks[0].gap|;
      [Place(path, n' + 1, hunks[0].section, hunks[0].body)] + Places(path, hunks[1..], n' + |NewSide(hunks[0].body)|)
  }

  function AllPlaces(d: seq<FileDiff>): seq<Place> {
    if d == [] then [] else Places(d[0].path, d[0].hunks, 0) + AllPlaces(d[1..])
  }

  /** Every added line with the number it has in the new file. */
  function Numbered(path: string, n: nat, body: seq<Line>): seq<Yield>
    decreases |body|
  {
    if body == [] then []
    else match body[0]
      case Context(_) => Numbered(path, n + 1, body[1..])
      case Added(x) => [Yield(path, n, x)] + Numbered(path, n + 1, body[1..])
      case Removed(_) => Numbered(path, n, body[1..])
      case NoNewline => Numbered(path, n, body[1..])
  }

  function Expected(ps: seq<Place>): seq<Yield> {
    if ps == [] then [] else Numbered(ps[0].path, ps[0].first, ps[0].body) + Expected(ps[1..])
  }

  /** The line at a yielded number of the new file is the yielded content, and the contents are
      the added lines in order. */
  lemma {:induction false} NumberedIsNew(path: string, before: seq<string>, body: seq<Line>, after: seq<string>)
    ensures forall y :: y in Numbered(path, |before| + 1, body) ==> y.path == path
    ensures forall y :: y in Numbered(path, |before| + 1, body) ==> |before| < y.lineno <= |before| + |NewSide(body)|
    ensures forall y :: y in Numbered(path, |before| + 1, body) ==>
      (before + NewSide(body) + after)[y.lineno - 1] == y.content
    decreases |body|
  {
    if body != [] {
      var l := body[0];
      if l.Context? || l.Added? {
        NumberedIsNew(path, before + [l.text], body[1..], after);
        assert before + NewSide(body) + after == (before + [l.text]) + NewSide(body[1..]) + after;
      } else {
        NumberedIsNew(path, before, body[1..], after);
        assert NewSide(body) == NewSide(body[1..]);
      }
    }
  }

  /** The numbers rise, so no line of the new file is yielded twice. */
  lemma {:induction false} NumbersRise(path: string, n: nat, body: seq<Line>)
    ensures forall i, j :: 0 <= i < j < |Numbered(path, n, body)| ==>
      Numbered(path, n, body)[i].lineno < Numbered(path, n, body)[j].lineno
    ensures forall i :: 0 <= i < |Numbered(path, n, body)| ==> n <= Numbered(path, n, body)[i].lineno
    decreases |body|
  {
    if body != [] {
      NumbersRise(path, n, body[1..]);
      NumbersRise(path, n + 1, body[1..]);
    }
  }

  function Contents(ys: seq<Yield>): seq<string> {
    seq(|ys|, i requires 0 <= i < |ys| => ys[i].content)
  }

  function AddedTexts(body: seq<Line>): seq<string> {
    if body == [] then []
    else (if body[0].Added? then [body[0].text] else []) + AddedTexts(body[1..])
  }

  lemma NoContents()
    ensures Contents([]) == []
  {
  }

  lemma ContentsCons(y: Yield, ys: seq<Yield>)
    ensures Contents([y] + ys) == [y.content] + Contents(ys)
  {
  }

  lemma {:induction false} NumberedContents(path: string, n: nat, body: seq<Line>)
    ensures Contents(Numbered(path, n, body)) == AddedTexts(body)
    decreases |body|
  {
    hide Contents;
    if body == [] {
      NoContents();
    } else {
      NumberedContents(path, n, body[1..]);
      NumberedContents(path, n + 1, body[1..]);
      if body[0].Added? {
        ContentsCons(Yield(path, n, body[0].text), Numbered(path, n + 1, body[1..]));
      }
    }
  }

  /** For a whole file: each expected yield names its path and a line of the new file with its content. */
  lemma {:induction false} ExpectedIsNewFile(path: string, before: seq<string>, hunks: seq<Hunk>, tail: seq<string>)
    ensures forall y :: y in Expected(Places(path, hunks, |before|)) ==> y.path == path
    ensures forall y :: y in Expected(Places(path, hunks, |before|)) ==>
      |before| < y.lineno <= |before| + |NewFile(hunks, tail)|
    ensures forall y :: y in Expected(Places(path, hunks, |before|)) ==>
      (before + NewFile(hunks, tail))[y.lineno - 1] == y.content
    decreases |hunks|
  {
    if hunks != [] {
      var h := hunks[0];
      var upto := before + h.gap;
      var done := upto + NewSide(h.body);
      var rest := NewFile(hunks[1..], tail);
      NumberedIsNew(path, upto, h.body, rest);
      ExpectedIsNewFile(path, done, hunks[1..], tail);
      assert before + NewFile(hunks, tail) == upto + NewSide(h.body) + rest;
      assert done + rest == upto + NewSide(h.body) + rest;
      PlacesStep(path, hunks, |before|);
    }
  }

  lemma PlacesStep(path: string, hunks: seq<Hunk>, n: nat)
    requires hunks != []
    ensures var h := hunks[0]; var after := n + |h.gap| + |NewSide(h.body)|;
      Expected(Places(path, hunks, n)) ==
        Numbered(path, n + |h.gap| + 1, h.body) + Expected(Places(path, hunks[1..], after))
  {
    hide Numbered;
    var ps := Places(path, hunks, n);
    assert ps[1..] == Places(path, hunks[1..], n + |hunks[0].gap| + |NewSide(hunks[0].body)|);
  }

  // ----- reading a hunk header back -----

  lemma DigitsEndIs(s: string, i: nat, k: nat)
    requires i <= k <= |s|
    requires forall j :: i <= j < k ==> IsDigit(s[j])
    requires k < |s| ==> !IsDigit(s[k])
    ensures DigitsEnd(s, i) == k
  {
  }

  lemma {:induction false} NumberOfDecimal(n: nat)
    ensures Number(Decimal(n)) == n
  {
    var s := Decimal(n);
    assert s[|s| - 1] == '0' + (n % 10) as char;
    if n >= 10 {
      NumberOfDecimal(n / 10);
      assert s[..|s| - 1] == Decimal(n / 10);
    } else {
      assert s[..|s| - 1] == [];
    }
  }

  lemma RangeReadBack(pre: string, before: nat, count: nat, post: string)
    requires post != [] && post[0] == ' '
    ensures RangeAt(pre + Range(before, count) + post, |pre|) ==
      Some((|pre| + |Decimal(FirstLine(before, count))|, |pre| + |Range(before, count)|))
  {
    hide Decimal;
    var s := pre + Range(before, count) + post;
    var d := Decimal(FirstLine(before, count));
    var j := |pre| + |d|;
    assert forall k :: 0 <= k < |d| ==> s[|pre| + k] == d[k];
    assert forall k :: |pre| <= k < j ==> s[k] == d[k - |pre|];
    if count == 1 {
      assert s[j] == post[0];
      DigitsEndIs(s, |pre|, j);
    } else {
      var e := Decimal(count);
      assert s[j] == ',';
      DigitsEndIs(s, |pre|, j);
      var m := j + 1 + |e|;
      assert forall k :: j + 1 <= k < m ==> s[k] == e[k - j - 1];
      assert s[m] == post[0];
      DigitsEndIs(s, j + 1, m);
    }
  }

  lemma HunkStartIs(s: string, a: nat, i: nat, j: nat, k: nat)
    requires StartsWith(s, "@@ -", 0) && RangeAt(s, 4) == Some((a, i)) && StartsWith(s, " +", i)
    requires RangeAt(s, i + 2) == Some((j, k)) && StartsWith(s, " @@", k)
    ensures HunkStart(s) == Some(Number(s[i + 2..j]))
  {
    hide RangeAt, Number;
  }

  lemma PrefixAt(pre: string, p: string, post: string)
    ensures StartsWith(pre + p + post, p, |pre|)
  {
  }

  lemma PrefixSlice(pre: string, x: string, post: string, k: nat)
    requires k <= |x|
    ensures (pre + x + post)[|pre|..|pre| + k] == x[..k]
  {
  }

  lemma HeaderParts(x: string, y: string, section: string)
    ensures "@@ -" + x + " +" + y + " @@" + section == "@@ -" + x + " +" + (y + " @@" + section)
    ensures "@@ -" + x + " +" + y + " @@" + section == ("@@ -" + x + " +") + y + (" @@" + section)
  {
  }

  lemma AtSignFirst(rest: string)
    ensures StartsWith("@@ -" + rest, "@@ -", 0)
  {
    assert ("@@ -" + rest)[0..4] == "@@ -";
  }

  lemma OldRangeMatches(s: string, o: nat, count: nat, rest: string)
    requires s == "@@ -" + Range(o, count) + " +" + rest
    ensures StartsWith(s, "@@ -", 0) && StartsWith(s, " +", 4 + |Range(o, count)|)
    ensures RangeAt(s, 4) == Some((4 + |Decimal(FirstLine(o, count))|, 4 + |Range(o, count)|))
  {
    hide Decimal, RangeAt, Range, StartsWith, FirstLine;
    var x := Range(o, count);
    AtSignFirst(x + " +" + rest);
    assert s == "@@ -" + (x + " +" + rest);
    PrefixAt("@@ -" + x, " +", rest);
    RangeReadBack("@@ -", o, count, " +" + rest);
    assert s == "@@ -" + x + (" +" + rest);
  }

  lemma NewRangeMatches(pre: string, n: nat, count: nat, section: string)
    ensures StartsWith(pre + Range(n, count) + (" @@" + section), " @@", |pre| + |Range(n, count)|)
    ensures RangeAt(pre + Range(n, count) + (" @@" + section), |pre|) ==
      Some((|pre| + |Decimal(FirstLine(n, count))|, |pre| + |Range(n, count)|))
  {
    hide Decimal, RangeAt, Range, StartsWith, FirstLine;
    var y := Range(n, count);
    RangeReadBack(pre, n, count, " @@" + section);
    PrefixAt(pre + y, " @@", section);
    assert pre + y + (" @@" + section) == pre + y + " @@" + section;
  }

  lemma HeaderMatches(o: nat, n: nat, h: Hunk, x: string, y: string, d: string)
    requires x == Range(o, |OldSide(h.body)|) && y == Range(n, |NewSide(h.body)|)
    requires d == Decimal(FirstLine(n, |NewSide(h.body)|))
    ensures 6 + |x| + |d| <= |HunkHeader(o, n, h)|
    ensures HunkStart(HunkHeader(o, n, h)) == Some(Number(HunkHeader(o, n, h)[6 + |x|..6 + |x| + |d|]))
  {
    hide Decimal, RangeAt, NewSide, OldSide, Range, HunkStart, StartsWith, FirstLine, Number;
    HeaderParts(x, y, h.section);
    var s := HunkHeader(o, n, h);
    OldRangeMatches(s, o, |OldSide(h.body)|, y + " @@" + h.section);
    NewRangeMatches("@@ -" + x + " +", n, |NewSide(h.body)|, h.section);
    HunkStartIs(s, 4 + |Decimal(FirstLine(o, |OldSide(h.body)|))|, 4 + |x|, 6 + |x| + |d|, 6 + |x| + |y|);
  }

  lemma HeaderReadBack(o: nat, n: nat, h: Hunk)
    ensures HunkStart(HunkHeader(o, n, h)) == Some(FirstLine(n, |NewSide(h.body)|))
  {
    hide Decimal, NewSide, OldSide, Range, HunkStart, FirstLine;
    var c := |NewSide(h.body)|;
    var x, y, d := Range(o, |OldSide(h.body)|), Range(n, c), Decimal(FirstLine(n, c));
    HeaderMatches(o, n, h, x, y, d);
    HeaderParts(x, y, h.section);
    RangeStarts(n, c);
    PrefixSlice("@@ -" + x + " +", y, " @@" + h.section, |d|);
    assert HunkHeader(o, n, h)[6 + |x|..6 + |x| + |d|] == y[..|d|] == d;
    NumberOfDecimal(FirstLine(n, c));
  }

  lemma RangeStarts(before: nat, count: nat)
    ensures Decimal(FirstLine(before, count)) <= Range(before, count)
  {
    hide Decimal;
  }

  // ----- a line that holds line boundaries -----

  /** What `splitlines` makes of a line of the diff: one piece, or more when it holds a boundary. */
  function Frags(l: string): (fs: seq<string>)
    ensures |fs| > 0
  {
    SplitLines(l + "\n")
  }

  /** The piece that is read as the line. */
  function First(x: string): string {
    Frags(x)[0]
  }

  /** The fragments behind it, each read as a line of its own. */
  function Rest(x: string): seq<string> {
    Frags(x)[1..]
  }

  function FragsAll(ls: seq<string>): seq<string> {
    if ls == [] then [] else Frags(ls[0]) + FragsAll(ls[1..])
  }

  predicate OneLine(l: string) {
    '\n' !in l
  }

  predicate OneLines(ls: seq<string>) {
    forall k :: 0 <= k < |ls| ==> OneLine(ls[k])
  }

  lemma SplitStep(s: string)
    requires s != []
    ensures var i := FirstBreak(s);
      SplitLines(s) == if i == |s| then [s] else [s[..i]] + SplitLines(s[AfterBreak(s, i)..])
  {
  }

  lemma FirstBreakIs(s: string, i: nat)
    requires i < |s| && IsBreak(s[i]) && forall k :: 0 <= k < i ==> !IsBreak(s[k])
    ensures FirstBreak(s) == i
  {
  }

  /** The boundary found in a line is found in the text the line starts. */
  lemma SameFirstBreak(l: string, rest: string)
    ensures FirstBreak(l + "\n" + rest) == FirstBreak(l + "\n") <= |l|
  {
    var s, t := l + "\n", l + "\n" + rest;
    assert forall k :: 0 <= k < |s| ==> s[k] == t[k];
    assert s[|l|] == '\n';
    FirstBreakIs(t, FirstBreak(s));
  }

  lemma AfterInside(l: string, rest: string, i: nat)
    requires OneLine(l) && i < |l| && !(l[i] == '\r' && i + 1 == |l|)
    ensures AfterBreak(l + "\n" + rest, i) == i + 1
    ensures (l + "\n" + rest)[i + 1..] == l[i + 1..] + "\n" + rest
  {
    var t := l + "\n" + rest;
    assert t[i] == l[i];
    if i + 1 < |l| {
      assert t[i + 1] == l[i + 1] && l[i + 1] in l;
    }
  }

  lemma AfterLast(l: string, rest: string, i: nat)
    requires i == |l| || (i + 1 == |l| && l[i] == '\r')
    ensures (l + "\n" + rest)[AfterBreak(l + "\n" + rest, i)..] == rest
  {
    var t := l + "\n" + rest;
    assert t[|l|] == '\n' && t[|l| + 1..] == rest;
    assert i < |l| ==> t[i] == l[i];
  }

  lemma OneLineTail(l: string, k: nat)
    requires OneLine(l) && k <= |l|
    ensures OneLine(l[k..])
  {
  }

  lemma {:induction false} SplitLine(l: string, rest: string)
    requires OneLine(l)
    ensures SplitLines(l + "\n" + rest) == Frags(l) + SplitLines(rest)
    decreases |l|
  {
    hide SplitLines, FirstBreak, AfterBreak, OneLine, IsBreak;
    var s, t := l + "\n", l + "\n" + rest;
    var i := FirstBreak(s);
    SameFirstBreak(l, rest);
    SplitStep(s);
    SplitStep(t);
    assert s + "" == s;
    assert s[..i] == l[..i] == t[..i];
    if i == |l| || (l[i] == '\r' && i + 1 == |l|) {
      AfterLast(l, "", i);
      AfterLast(l, rest, i);
      SplitNothing();
    } else {
      AfterInside(l, "", i);
      AfterInside(l, rest, i);
      var m := l[i + 1..];
      assert m + "\n" + "" == m + "\n";
      OneLineTail(l, i + 1);
      SplitLine(m, rest);
      var one: seq<string> := [l[..i]];
      Regroup(one, Frags(m), SplitLines(rest));
    }
  }

  lemma SplitNothing()
    ensures SplitLines("") == []
  {
  }

  /** The text of a diff is read as the pieces of its lines. */
  lemma {:induction false} SplitUnlines(ls: seq<string>)
    requires OneLines(ls)
    ensures SplitLines(Unlines(ls)) == FragsAll(ls)
  {
    hide SplitLines, Frags, OneLine;
    if ls == [] {
      SplitNothing();
    } else {
      SplitUnlines(ls[1..]);
      assert OneLine(ls[0]);
      SplitLine(ls[0], Unlines(ls[1..]));
    }
  }

  lemma {:induction false} FragsAllConcat(a: seq<string>, b: seq<string>)
    ensures FragsAll(a + b) == FragsAll(a) + FragsAll(b)
  {
    hide Frags;
    if a == [] {
      assert a + b == b;
    } else {
      FragsAllConcat(a[1..], b);
      assert (a + b)[1..] == a[1..] + b && (a + b)[0] == a[0];
      Regroup(Frags(a[0]), FragsAll(a[1..]), FragsAll(b));
    }
  }

  /** What stands before the first boundary goes with the first piece. */
  lemma FragsOf(x: string, y: string)
    requires Unbroken(x)
    ensures Frags(x + y) == [x + First(y)] + Rest(y)
  {
    hide SplitLines, FirstBreak, IsBreak, AfterBreak;
    var s, t := y + "\n", x + y + "\n";
    SameFirstBreak(y, "");
    assert y + "\n" + "" == s;
    var i := FirstBreak(s);
    assert t == x + s;
    assert forall k :: |x| <= k < |t| ==> t[k] == s[k - |x|];
    FirstBreakIs(t, |x| + i);
    SplitStep(s);
    SplitStep(t);
    BreakBehind(x, s, i);
    assert t[..|x| + i] == x + s[..i];
  }

  lemma BreakBehind(x: string, s: string, i: nat)
    requires i < |s|
    ensures AfterBreak(x + s, |x| + i) == |x| + AfterBreak(s, i)
    ensures (x + s)[|x| + AfterBreak(s, i)..] == s[AfterBreak(s, i)..]
  {
  }

  lemma UnbrokenFrags(x: string)
    requires Unbroken(x)
    ensures Frags(x) == [x]
  {
    FragsOf(x, "");
    assert x + "" == x;
    assert Frags("") == [""] by {
      assert "" + "\n" == "\n" && "\n"[..0] == "" && "\n"[1..] == "";
    }
    assert x + First("") == x;
  }

  lemma {:induction false} PiecesUnbroken(s: string)
    ensures forall f :: f in SplitLines(s) ==> Unbroken(f)
    decreases |s|
  {
    hide FirstBreak, SplitLines;
    if s == [] {
      SplitNothing();
    } else {
      SplitStep(s);
      var i := FirstBreak(s);
      assert Unbroken(s[..i]);
      if i < |s| {
        PiecesUnbroken(s[AfterBreak(s, i)..]);
      }
    }
  }

  // ----- what is left of an added line that is split -----

  /** As `Expected`, with the first piece of each added line for its content. */
  function Shown(path: string, n: nat, body: seq<Line>): seq<Yield>
    decreases |body|
  {
    if body == [] then []
    else match body[0]
      case Context(_) => Shown(path, n + 1, body[1..])
      case Added(x) => [Yield(path, n, First(x))] + Shown(path, n + 1, body[1..])
      case Removed(_) => Shown(path, n, body[1..])
      case NoNewline => Shown(path, n, body[1..])
  }

  function AllShown(ps: seq<Place>): seq<Yield> {
    if ps == [] then [] else Shown(ps[0].path, ps[0].first, ps[0].body) + AllShown(ps[1..])
  }

  // ----- one piece -----

  /** A content that cannot be yielded: with its `+` it reads as the header of a new file. */
  predicate Knocks(x: string) {
    |x| > 5 && x[..5] == "++ b/"
  }

  lemma OnlyPlusYields(st: State, raw: string)
    ensures !StartsWith(raw, "+", 0) || !st.inHunk ==> Step(st, raw).1 == []
    ensures |Step(st, raw).1| <= 1
  {
    hide HunkStart, NewPath, StartsWith;
  }

  lemma HeadOf(raw: string, p: string)
    requires StartsWith(raw, p, 0) && p != []
    ensures raw != [] && raw[0] == p[0]
  {
    assert raw[0..|p|][0] == raw[0];
  }

  lemma NewPathHead(raw: string)
    ensures NewPath(raw).Some? ==> raw[0] == '+'
  {
    if NewPath(raw).Some? {
      assert raw[..6][0] == raw[0];
    }
  }

  lemma HunkStartsWithAt(raw: string)
    requires HunkStart(raw).Some?
    ensures raw != [] && raw[0] == '@'
  {
    HeadOf(raw, "@@ -");
  }

  /** What no line of a hunk body can be taken for. */
  lemma BodyHead(raw: string)
    requires raw != [] && raw[0] in {' ', '+', '-', '\\'}
    ensures HunkStart(raw).None? && !Leaves(raw)
    ensures raw[0] != '-' ==> !StartsWith(raw, "--- ", 0)
    ensures raw[0] != '+' ==> NewPath(raw).None?
    ensures StartsWith(raw, "+", 0) <==> raw[0] == '+'
    ensures StartsWith(raw, "-", 0) <==> raw[0] == '-'
  {
    if HunkStart(raw).Some? {
      HunkStartsWithAt(raw);
    }
    if StartsWith(raw, "diff --git ", 0) {
      HeadOf(raw, "diff --git ");
    }
    if StartsWith(raw, "index ", 0) {
      HeadOf(raw, "index ");
    }
    if StartsWith(raw, "--- ", 0) {
      HeadOf(raw, "--- ");
    }
    NewPathHead(raw);
    assert raw[0..1] == [raw[0]];
  }

  /** A piece that takes the tracker out of the hunk. */
  predicate Leaves(f: string) {
    StartsWith(f, "diff --git ", 0) || StartsWith(f, "index ", 0)
  }

  lemma KnocksIff(x: string)
    ensures NewPath("+" + x).Some? <==> Knocks(x)
  {
    var raw := "+" + x;
    if |x| > 5 {
      assert raw[..6] == "+" + x[..5];
      assert "+++ b/" == "+" + "++ b/";
      assert raw[..6][1..] == x[..5];
      assert "+++ b/"[1..] == "++ b/";
    }
  }

  lemma StepInHunk(st: State, l: Line)
    requires st.inHunk && st.path.Some? && (l.Added? ==> !Knocks(l.text))
    ensures Step(st, PrintLine(l)) ==
      match l
      case Added(x) => (st.(lineno := st.lineno + 1), [Yield(st.path.value, st.lineno, x)])
      case Removed(_) => (st, [])
      case _ => (st.(lineno := st.lineno + 1), [])
  {
    hide HunkStart, NewPath, StartsWith, Knocks;
    BodyHead(PrintLine(l));
    if l.Added? {
      KnocksIff(l.text);
      assert PrintLine(l)[1..] == l.text;
    }
  }

  lemma StepOutside(st: State, l: Line)
    requires !st.inHunk && (l.Added? ==> !Knocks(l.text))
    ensures Step(st, PrintLine(l)) == (st, [])
  {
    hide HunkStart, NewPath, StartsWith, Knocks;
    BodyHead(PrintLine(l));
    if l.Added? {
      KnocksIff(l.text);
    }
  }

  predicate IsHit(l: Line) {
    l.Added? && !Knocks(First(l.text))
  }

  /** The line as its first piece. */
  function Whole(l: Line): Line {
    match l
    case Context(x) => Context(First(x))
    case Removed(x) => Removed(First(x))
    case Added(x) => Added(First(x))
    case NoNewline => l
  }

  function Tail(l: Line): seq<string> {
    if l.NoNewline? then [] else Rest(l.text)
  }

  lemma LineFrags(l: Line)
    ensures Frags(PrintLine(l)) == [PrintLine(Whole(l))] + Tail(l)
  {
    hide Frags;
    match l
    case Context(x) => FragsOf(" ", x);
    case Removed(x) => FragsOf("-", x);
    case Added(x) => FragsOf("+", x);
    case NoNewline => UnbrokenFrags(PrintLine(l));
  }

  /** From any state, a first piece yields at most what it should. */
  lemma StepAtMost(st: State, l: Line)
    ensures |Step(st, PrintLine(Whole(l))).1| <= if IsHit(l) then 1 else 0
  {
    hide HunkStart, NewPath, StartsWith, Knocks, First;
    OnlyPlusYields(st, PrintLine(Whole(l)));
    BodyHead(PrintLine(Whole(l)));
    if l.Added? {
      KnocksIff(First(l.text));
    }
  }

  predicate Idle(raw: string) {
    NewPath(raw).None? && HunkStart(raw).None?
  }

  lemma {:induction false} IdleRun(st: State, ls: seq<string>)
    requires !st.inHunk && forall k :: 0 <= k < |ls| ==> Idle(ls[k]) && Unbroken(ls[k])
    ensures Run(st, FragsAll(ls)) == (st, [])
  {
    hide HunkStart, NewPath, StartsWith, Unbroken, Frags;
    RunNothing(st);
    if ls != [] {
      assert Idle(ls[0]) && Unbroken(ls[0]);
      UnbrokenFrags(ls[0]);
      assert Step(st, ls[0]) == (st, []);
      IdleRun(st, ls[1..]);
      var none: seq<Yield> := [];
      assert none + none == none;
      RunOne(st, ls[0]);
      RunConcat(st, [ls[0]], FragsAll(ls[1..]));
    }
  }

  lemma RunNothing(st: State)
    ensures Run(st, []) == (st, [])
  {
  }

  // ----- where the fragments leave the tracker -----

  /** The tracker is in the hunk, its number that much too high; or it has left the hunk. */
  datatype Track = On(drift: int) | Off

  function Higher(t: Track): Track {
    if t.On? then On(t.drift + 1) else Off
  }

  /** What a fragment does when `n` is the number of the next line: one that starts with `-` does
      nothing, a hunk header sets the number, any other counts as a line. */
  function Fragment(t: Track, n: nat, f: string): Track {
    if Leaves(f) then Off
    else if StartsWith(f, "-", 0) then t
    else if HunkStart(f).Some? then On(HunkStart(f).value - n)
    else Higher(t)
  }

  function Fragments(t: Track, n: nat, fs: seq<string>): Track
    decreases |fs|
  {
    if fs == [] then t else Fragments(Fragment(t, n, fs[0]), n, fs[1..])
  }

  /** The tracker is in the hunk and has the right number whenever it comes to an added line. */
  predicate Steady(t: Track, n: nat, body: seq<Line>)
    decreases |body|
  {
    body == [] ||
    match body[0]
    case Context(x) => Steady(Fragments(t, n + 1, Rest(x)), n + 1, body[1..])
    case Removed(x) => Steady(Fragments(t, n, Rest(x)), n, body[1..])
    case NoNewline => Steady(Higher(t), n, body[1..])
    case Added(x) => t == On(0) && Steady(Fragments(t, n + 1, Rest(x)), n + 1, body[1..])
  }

  predicate NoPlusIn(fs: seq<string>) {
    forall k :: 0 <= k < |fs| ==> !StartsWith(fs[k], "+", 0)
  }

  /** No fragment behind the first piece of a line is itself read as an added line. */
  predicate NoPlus(body: seq<Line>) {
    forall k :: 0 <= k < |body| ==> NoPlusIn(Tail(body[k]))
  }

  predicate NoKnock(body: seq<Line>) {
    forall k :: 0 <= k < |body| ==> body[k].Added? ==> !Knocks(First(body[k].text))
  }

  ghost predicate Follows(st: State, path: string, t: Track, n: nat) {
    && st.path == Some(path)
    && (t.On? <==> st.inHunk)
    && (t.On? ==> st.lineno == n + t.drift)
  }

  lemma NewPathPlus(f: string)
    ensures NewPath(f).Some? ==> StartsWith(f, "+", 0)
  {
    if NewPath(f).Some? {
      assert f[0..1] == f[..6][0..1];
    }
  }

  lemma MinusHead(f: string)
    ensures StartsWith(f, "-", 0) ==> HunkStart(f).None? && !Leaves(f)
    ensures StartsWith(f, "--- ", 0) ==> StartsWith(f, "-", 0)
  {
    if StartsWith(f, "-", 0) {
      HeadOf(f, "-");
      BodyHead(f);
    }
    if StartsWith(f, "--- ", 0) {
      HeadOf(f, "--- ");
      assert f[0..1] == "-";
    }
  }

  lemma FragmentStep(st: State, path: string, t: Track, n: nat, f: string)
    requires Follows(st, path, t, n) && !StartsWith(f, "+", 0)
    ensures Step(st, f).1 == [] && Follows(Step(st, f).0, path, Fragment(t, n, f), n)
  {
    hide HunkStart, NewPath, StartsWith;
    NewPathPlus(f);
    MinusHead(f);
  }

  lemma {:induction false} FragmentsRun(st: State, path: string, t: Track, n: nat, fs: seq<string>)
    requires Follows(st, path, t, n) && NoPlusIn(fs)
    ensures Run(st, fs).1 == [] && Follows(Run(st, fs).0, path, Fragments(t, n, fs), n)
    decreases |fs|
  {
    hide Step, Fragment, Follows, StartsWith;
    if fs == [] {
      RunNothing(st);
    } else {
      assert !StartsWith(fs[0], "+", 0);
      assert forall k :: 0 <= k < |fs[1..]| ==> fs[1..][k] == fs[k + 1];
      FragmentStep(st, path, t, n, fs[0]);
      FragmentsRun(Step(st, fs[0]).0, path, Fragment(t, n, fs[0]), n, fs[1..]);
    }
  }

  lemma {:induction false} FragmentsYieldNothing(st: State, fs: seq<string>)
    requires NoPlusIn(fs)
    ensures Run(st, fs).1 == []
    decreases |fs|
  {
    hide Step, StartsWith;
    if fs != [] {
      assert !StartsWith(fs[0], "+", 0);
      assert forall k :: 0 <= k < |fs[1..]| ==> fs[1..][k] == fs[k + 1];
      OnlyPlusYields(st, fs[0]);
      FragmentsYieldNothing(Step(st, fs[0]).0, fs[1..]);
    }
  }

  // ----- a hunk -----

  function RunBody(st: State, body: seq<Line>): (State, seq<Yield>) {
    Run(st, FragsAll(PrintBody(body)))
  }

  lemma RunBodyStep(st: State, body: seq<Line>)
    requires body != []
    ensures var one := Step(st, PrintLine(Whole(body[0]))); var mid := Run(one.0, Tail(body[0]));
      RunBody(st, body) == (RunBody(mid.0, body[1..]).0, one.1 + mid.1 + RunBody(mid.0, body[1..]).1)
  {
    hide Step, Frags, PrintLine, Whole, Tail, Run;
    var l := body[0];
    LineFrags(l);
    var head, rest := [PrintLine(Whole(l))], FragsAll(PrintBody(body[1..]));
    assert PrintBody(body)[1..] == PrintBody(body[1..]);
    assert FragsAll(PrintBody(body)) == (head + Tail(l)) + rest;
    RunConcat(st, head + Tail(l), rest);
    RunConcat(st, head, Tail(l));
    RunOne(st, PrintLine(Whole(l)));
  }

  function Hits(body: seq<Line>): nat {
    if body == [] then 0 else (if IsHit(body[0]) then 1 else 0) + Hits(body[1..])
  }

  lemma {:induction false} BodyAtMost(st: State, body: seq<Line>)
    requires NoPlus(body)
    ensures |RunBody(st, body).1| <= Hits(body)
    decreases |body|
  {
    hide Step, PrintLine, IsHit, RunBody, Run, NoPlusIn, Tail, Whole;
    if body == [] {
      assert RunBody(st, body).1 == [] by { NoBody(st); }
    } else {
      assert NoPlusIn(Tail(body[0]));
      assert forall k :: 0 <= k < |body[1..]| ==> body[1..][k] == body[k + 1];
      RunBodyStep(st, body);
      StepAtMost(st, body[0]);
      var one := Step(st, PrintLine(Whole(body[0])));
      FragmentsYieldNothing(one.0, Tail(body[0]));
      BodyAtMost(Run(one.0, Tail(body[0])).0, body[1..]);
    }
  }

  lemma NoBody(st: State)
    ensures RunBody(st, []) == (st, [])
  {
  }

  lemma {:induction false} HitsAtMost(body: seq<Line>)
    ensures Hits(body) <= |AddedTexts(body)|
    ensures Hits(body) == |AddedTexts(body)| <==> NoKnock(body)
  {
    hide Knocks, First;
    if body != [] {
      HitsAtMost(body[1..]);
      assert forall k :: 0 < k < |body| ==> body[k] == body[1..][k - 1];
      if NoKnock(body[1..]) && (body[0].Added? ==> !Knocks(First(body[0].text))) {
        assert NoKnock(body);
      }
      if NoKnock(body) {
        assert forall k :: 0 <= k < |body[1..]| ==> body[1..][k] == body[k + 1];
        assert NoKnock(body[1..]);
      }
    }
  }

  /** One line, its fragments included, with the tracker followed. */
  lemma LineFollows(st: State, path: string, t: Track, n: nat, l: Line)
    requires Follows(st, path, t, n) && NoPlusIn(Tail(l)) && (l.Added? ==> !Knocks(First(l.text)))
    ensures var one := Step(st, PrintLine(Whole(l))); var mid := Run(one.0, Tail(l));
      var m := if l.Context? || l.Added? then n + 1 else n;
      && mid.1 == []
      && Follows(mid.0, path, Fragments(if l.NoNewline? then Higher(t) else t, m, Tail(l)), m)
      && one.1 == if l.Added? && t.On? then [Yield(path, n + t.drift, First(l.text))] else []
  {
    hide Step, PrintLine, First, Rest, Knocks, NoPlusIn, Fragments, Run;
    var one := Step(st, PrintLine(Whole(l)));
    if t.On? {
      StepInHunk(st, Whole(l));
    } else {
      StepOutside(st, Whole(l));
    }
    var m := if l.Context? || l.Added? then n + 1 else n;
    FragmentsRun(one.0, path, if l.NoNewline? then Higher(t) else t, m, Tail(l));
  }

  /** The yields are the shown ones exactly when the tracker is steady. */
  lemma {:induction false} BodyTracks(st: State, path: string, t: Track, n: nat, body: seq<Line>)
    requires Follows(st, path, t, n) && NoPlus(body) && NoKnock(body)
    ensures RunBody(st, body).0.path == Some(path)
    ensures |RunBody(st, body).1| <= |AddedTexts(body)|
    ensures RunBody(st, body).1 == Shown(path, n, body) <==> Steady(t, n, body)
    decreases |body|
  {
    hide Step, PrintLine, Follows, First, Rest, Knocks, RunBody, Run, NoPlusIn, Fragments, Whole, Tail;
    if body == [] {
      NoBody(st);
      FollowsState(st, path, t, n);
    } else {
      FollowsState(st, path, t, n);
      var l := body[0];
      assert NoPlusIn(Tail(l));
      assert forall k :: 0 <= k < |body[1..]| ==> body[1..][k] == body[k + 1];
      RunBodyStep(st, body);
      LineFollows(st, path, t, n, l);
      ShownLength(path, n + 1, body[1..]);
      var one := Step(st, PrintLine(Whole(l)));
      var m := if l.Context? || l.Added? then n + 1 else n;
      var next := Fragments(if l.NoNewline? then Higher(t) else t, m, Tail(l));
      BodyTracks(Run(one.0, Tail(l)).0, path, next, m, body[1..]);
      TracksStep(path, t, n, body, RunBody(Run(one.0, Tail(l)).0, body[1..]).1);
    }
  }

  lemma FollowsState(st: State, path: string, t: Track, n: nat)
    requires Follows(st, path, t, n)
    ensures st.path == Some(path) && (t.On? ==> n + t.drift >= 0)
  {
  }

  lemma TracksStep(path: string, t: Track, n: nat, body: seq<Line>, later: seq<Yield>)
    requires body != [] && |later| <= |AddedTexts(body[1..])| && (t.On? ==> n + t.drift >= 0)
    requires var l := body[0]; var m := if l.Context? || l.Added? then n + 1 else n;
      later == Shown(path, m, body[1..]) <==>
        Steady(Fragments(if l.NoNewline? then Higher(t) else t, m, Tail(l)), m, body[1..])
    ensures var l := body[0];
      var one := if l.Added? && t.On? then [Yield(path, n + t.drift, First(l.text))] else [];
      && |one + later| <= |AddedTexts(body)|
      && (one + later == Shown(path, n, body) <==> Steady(t, n, body))
  {
    hide First, Rest;
    var l := body[0];
    if l.Added? {
      ShownLength(path, n + 1, body[1..]);
      var s := Shown(path, n + 1, body[1..]);
      if t.On? {
        SplitEqual([Yield(path, n + t.drift, First(l.text))], later, [Yield(path, n, First(l.text))], s);
      }
    } else {
      assert [] + later == later;
      assert l.NoNewline? ==> Tail(l) == [];
    }
  }

  lemma {:induction false} ShownLength(path: string, n: nat, body: seq<Line>)
    ensures |Shown(path, n, body)| == |AddedTexts(body)|
    decreases |body|
  {
    hide First;
    if body != [] {
      ShownLength(path, n, body[1..]);
      ShownLength(path, n + 1, body[1..]);
    }
  }

  // ----- all hunks -----

  predicate NoPlusPlace(p: Place) {
    NoPlusIn(Rest(p.heading)) && NoPlus(p.body)
  }

  /** The heading of a hunk may hold boundaries too. */
  predicate SteadyPlace(p: Place) {
    Steady(Fragments(On(0), p.first, Rest(p.heading)), p.first, p.body)
  }

  predicate NoPluses(ps: seq<Place>) {
    forall k :: 0 <= k < |ps| ==> NoPlusPlace(ps[k])
  }

  predicate NoKnocks(ps: seq<Place>) {
    forall k :: 0 <= k < |ps| ==> NoKnock(ps[k].body)
  }

  predicate AllSteady(ps: seq<Place>) {
    forall k :: 0 <= k < |ps| ==> SteadyPlace(ps[k])
  }

  function HitsAll(ps: seq<Place>): nat {
    if ps == [] then 0 else Hits(ps[0].body) + HitsAll(ps[1..])
  }

  function RunHunk(st: State, o: nat, n: nat, h: Hunk): (State, seq<Yield>) {
    Run(st, FragsAll([HunkHeader(o, n, h)] + PrintBody(h.body)))
  }

  lemma UnbrokenConcat(x: string, y: string)
    requires Unbroken(x) && Unbroken(y)
    ensures Unbroken(x + y)
  {
  }

  lemma UnbrokenDigits(s: string)
    requires forall k :: 0 <= k < |s| ==> IsDigit(s[k])
    ensures Unbroken(s)
  {
  }

  lemma UnbrokenLiterals()
    ensures Unbroken("@@ -") && Unbroken(" +") && Unbroken(" @@") && Unbroken(",") && Unbroken("diff --git ")
    ensures Unbroken("--- ") && Unbroken("+++ /dev/null") && Unbroken("+++ b/")
  {
  }

  lemma UnbrokenRange(before: nat, count: nat)
    ensures Unbroken(Range(before, count))
  {
    hide Decimal;
    UnbrokenDigits(Decimal(FirstLine(before, count)));
    UnbrokenDigits(Decimal(count));
  }

  function Numbers(o: nat, n: nat, h: Hunk): string {
    "@@ -" + Range(o, |OldSide(h.body)|) + " +" + Range(n, |NewSide(h.body)|) + " @@"
  }

  lemma UnbrokenNumbers(o: nat, n: nat, h: Hunk)
    ensures Unbroken(Numbers(o, n, h))
  {
    hide Unbroken, NewSide, OldSide, Range;
    UnbrokenRange(o, |OldSide(h.body)|);
    UnbrokenRange(n, |NewSide(h.body)|);
    UnbrokenLiterals();
    var x, y := Range(o, |OldSide(h.body)|), Range(n, |NewSide(h.body)|);
    UnbrokenConcat("@@ -", x);
    UnbrokenConcat("@@ -" + x, " +");
    UnbrokenConcat("@@ -" + x + " +", y);
    UnbrokenConcat("@@ -" + x + " +" + y, " @@");
  }

  lemma HeaderFrags(o: nat, n: nat, h: Hunk)
    ensures Frags(HunkHeader(o, n, h)) == [HunkHeader(o, n, h.(section := First(h.section)))] + Rest(h.section)
  {
    hide Frags, First, Rest, Unbroken, Range, OldSide, NewSide;
    UnbrokenNumbers(o, n, h);
    FragsOf(Numbers(o, n, h), h.section);
  }

  lemma HeaderStep(st: State, o: nat, n: nat, h: Hunk)
    ensures Step(st, HunkHeader(o, n, h)) == (st.(lineno := FirstLine(n, |NewSide(h.body)|), inHunk := true), [])
  {
    hide Range, HunkStart, NewPath, StartsWith, OldSide, NewSide;
    var s := HunkHeader(o, n, h);
    HeaderReadBack(o, n, h);
    assert s[0] == '@';
    NotOther(s);
  }

  lemma NotOther(s: string)
    requires s != [] && s[0] == '@'
    ensures !Leaves(s) && !StartsWith(s, "--- ", 0) && NewPath(s).None?
  {
    if StartsWith(s, "diff --git ", 0) {
      HeadOf(s, "diff --git ");
    }
    if StartsWith(s, "index ", 0) {
      HeadOf(s, "index ");
    }
    if StartsWith(s, "--- ", 0) {
      HeadOf(s, "--- ");
    }
    NewPathHead(s);
  }

  /** The state in which the first line of a hunk's body is read. */
  function Entered(st: State, n: nat, h: Hunk): State {
    Run(st.(lineno := FirstLine(n, |NewSide(h.body)|), inHunk := true), Rest(h.section)).0
  }

  lemma RunHunkIs(st: State, o: nat, n: nat, h: Hunk)
    ensures var start := Run(st.(lineno := FirstLine(n, |NewSide(h.body)|), inHunk := true), Rest(h.section));
      RunHunk(st, o, n, h) == (RunBody(Entered(st, n, h), h.body).0, start.1 + RunBody(Entered(st, n, h), h.body).1)
  {
    hide Step, Frags, First, Rest, HunkHeader, Run, NewSide;
    var s, body := HunkHeader(o, n, h), PrintBody(h.body);
    var head := [HunkHeader(o, n, h.(section := First(h.section)))];
    HeaderFrags(o, n, h);
    HeaderStep(st, o, n, h.(section := First(h.section)));
    FragsAllConcat([s], body);
    assert FragsAll([s]) == head + Rest(h.section) by { assert [s][1..] == []; }
    RunConcat(st, head + Rest(h.section), FragsAll(body));
    RunConcat(st, head, Rest(h.section));
    RunOne(st, head[0]);
    assert [] + Run(st.(lineno := FirstLine(n, |NewSide(h.body)|), inHunk := true), Rest(h.section)).1
        == Run(st.(lineno := FirstLine(n, |NewSide(h.body)|), inHunk := true), Rest(h.section)).1;
  }

  lemma {:induction false} NoAddedSteady(t: Track, n: nat, body: seq<Line>)
    requires AddedTexts(body) == []
    ensures Steady(t, n, body)
    decreases |body|
  {
    hide Rest, Fragments;
    if body != [] {
      var l := body[0];
      var m := if l.Context? || l.Added? then n + 1 else n;
      NoAddedSteady(if l.NoNewline? then Higher(t) else Fragments(t, m, Rest(l.text)), m, body[1..]);
    }
  }

  lemma {:induction false} NoNewSide(body: seq<Line>)
    requires NewSide(body) == []
    ensures AddedTexts(body) == []
  {
    if body != [] {
      NoNewSide(body[1..]);
    }
  }

  lemma HunkTracks(st: State, path: string, o: nat, n: nat, h: Hunk)
    requires st.path == Some(path) && NoPlusPlace(Place(path, n + 1, h.section, h.body)) && NoKnock(h.body)
    ensures RunHunk(st, o, n, h).0.path == Some(path)
    ensures |RunHunk(st, o, n, h).1| <= |AddedTexts(h.body)|
    ensures RunHunk(st, o, n, h).1 == Shown(path, n + 1, h.body) <==> SteadyPlace(Place(path, n + 1, h.section, h.body))
  {
    hide RunHunk, RunBody, Run, Rest, NoPlusIn, NoPlus, NoKnock, Steady, Fragments, Shown;
    RunHunkIs(st, o, n, h);
    var c := FirstLine(n, |NewSide(h.body)|);
    var t := On(c - (n + 1));
    FragmentsRun(st.(lineno := c, inHunk := true), path, t, n + 1, Rest(h.section));
    var on := Fragments(t, n + 1, Rest(h.section));
    BodyTracks(Entered(st, n, h), path, on, n + 1, h.body);
    assert [] + RunBody(Entered(st, n, h), h.body).1 == RunBody(Entered(st, n, h), h.body).1;
    if NewSide(h.body) == [] {
      NoNewSide(h.body);
      NoAddedSteady(on, n + 1, h.body);
      NoAddedSteady(Fragments(On(0), n + 1, Rest(h.section)), n + 1, h.body);
    }
  }

  lemma HunkAtMost(st: State, o: nat, n: nat, h: Hunk)
    requires NoPlusIn(Rest(h.section)) && NoPlus(h.body)
    ensures |RunHunk(st, o, n, h).1| <= Hits(h.body)
  {
    hide RunHunk, RunBody, Run, Rest, NoPlusIn, NoPlus, Hits;
    RunHunkIs(st, o, n, h);
    FragmentsYieldNothing(st.(lineno := FirstLine(n, |NewSide(h.body)|), inHunk := true), Rest(h.section));
    BodyAtMost(Entered(st, n, h), h.body);
  }

  function RunLines(st: State, ls: seq<string>): (State, seq<Yield>) {
    Run(st, FragsAll(ls))
  }

  lemma RunLinesConcat(st: State, a: seq<string>, b: seq<string>)
    ensures RunLines(st, a + b) ==
      (RunLines(RunLines(st, a).0, b).0, RunLines(st, a).1 + RunLines(RunLines(st, a).0, b).1)
  {
    hide Run, FragsAll;
    FragsAllConcat(a, b);
    RunConcat(st, FragsAll(a), FragsAll(b));
  }

  lemma RunNoLines(st: State)
    ensures RunLines(st, []) == (st, [])
  {
  }

  lemma HunksStep(st: State, hunks: seq<Hunk>, o: nat, n: nat)
    requires hunks != []
    ensures var h := hunks[0]; var first := RunHunk(st, o + |h.gap|, n + |h.gap|, h);
      var later := PrintHunks(hunks[1..], o + |h.gap| + |OldSide(h.body)|, n + |h.gap| + |NewSide(h.body)|);
      RunLines(st, PrintHunks(hunks, o, n)) == (RunLines(first.0, later).0, first.1 + RunLines(first.0, later).1)
  {
    hide PrintBody, HunkHeader, FragsAll, Run;
    var h := hunks[0];
    var first := [HunkHeader(o + |h.gap|, n + |h.gap|, h)] + PrintBody(h.body);
    var later := PrintHunks(hunks[1..], o + |h.gap| + |OldSide(h.body)|, n + |h.gap| + |NewSide(h.body)|);
    RunLinesConcat(st, first, later);
  }

  lemma PlacesHead(path: string, hunks: seq<Hunk>, n: nat)
    requires hunks != []
    ensures var h := hunks[0]; var n' := n + |h.gap|;
      Places(path, hunks, n) ==
      [Place(path, n' + 1, h.section, h.body)] + Places(path, hunks[1..], n' + |NewSide(h.body)|)
  {
  }

  lemma SplitBounded<T>(a: seq<T>, b: seq<T>, c: seq<T>, d: seq<T>)
    requires |a| <= |c| && |b| <= |d|
    ensures a + b == c + d <==> a == c && b == d
  {
    if a + b == c + d {
      assert |a + b| == |c + d|;
      SplitEqual(a, b, c, d);
    }
  }

  lemma ShownGrows(p: Place, qs: seq<Place>, a: seq<Yield>, b: seq<Yield>)
    requires |a| <= |Shown(p.path, p.first, p.body)| && |b| <= |AllShown(qs)|
    requires a == Shown(p.path, p.first, p.body) <==> SteadyPlace(p)
    requires b == AllShown(qs) <==> AllSteady(qs)
    ensures |a + b| <= |AllShown([p] + qs)|
    ensures a + b == AllShown([p] + qs) <==> AllSteady([p] + qs)
  {
    hide Shown, SteadyPlace;
    var ps := [p] + qs;
    assert ps[0] == p && ps[1..] == qs;
    SplitBounded(a, b, Shown(p.path, p.first, p.body), AllShown(qs));
    assert forall k :: 0 < k < |ps| ==> ps[k] == qs[k - 1];
    assert forall k :: 0 <= k < |qs| ==> qs[k] == ps[k + 1];
  }

  lemma PlacesLater(p: Place, qs: seq<Place>)
    ensures NoPluses([p] + qs) <==> NoPlusPlace(p) && NoPluses(qs)
    ensures NoKnocks([p] + qs) <==> NoKnock(p.body) && NoKnocks(qs)
    ensures HitsAll([p] + qs) == Hits(p.body) + HitsAll(qs)
  {
    hide NoPlusPlace, NoKnock, Hits;
    var ps := [p] + qs;
    assert ps[0] == p && ps[1..] == qs;
    assert forall k :: 0 < k < |ps| ==> ps[k] == qs[k - 1];
    assert forall k :: 0 <= k < |qs| ==> qs[k] == ps[k + 1];
  }

  lemma {:induction false} HunksTracks(st: State, path: string, hunks: seq<Hunk>, o: nat, n: nat)
    requires st.path == Some(path) && NoPluses(Places(path, hunks, n)) && NoKnocks(Places(path, hunks, n))
    ensures |RunLines(st, PrintHunks(hunks, o, n)).1| <= |AllShown(Places(path, hunks, n))|
    ensures RunLines(st, PrintHunks(hunks, o, n)).1 == AllShown(Places(path, hunks, n)) <==>
      AllSteady(Places(path, hunks, n))
    decreases |hunks|
  {
    hide RunLines, RunHunk, Shown, NoKnock, NoKnocks, NoPlusPlace, NoPluses, SteadyPlace, AllSteady, AllShown;
    hide NewSide, OldSide, Places, PrintHunks, HitsAll;
    if hunks == [] {
      NoHunks(st, path, o, n);
    } else {
      var h := hunks[0];
      var o', n' := o + |h.gap|, n + |h.gap|;
      var p := Place(path, n' + 1, h.section, h.body);
      var o'', n'' := o' + |OldSide(h.body)|, n' + |NewSide(h.body)|;
      var qs := Places(path, hunks[1..], n'');
      PlacesHead(path, hunks, n);
      PlacesLater(p, qs);
      HunkTracks(st, path, o', n', h);
      ShownLength(path, n' + 1, h.body);
      HunksStep(st, hunks, o, n);
      var first := RunHunk(st, o', n', h);
      HunksTracks(first.0, path, hunks[1..], o'', n'');
      ShownGrows(p, qs, first.1, RunLines(first.0, PrintHunks(hunks[1..], o'', n'')).1);
    }
  }

  lemma {:induction false} HunksAtMost(st: State, path: string, hunks: seq<Hunk>, o: nat, n: nat)
    requires NoPluses(Places(path, hunks, n))
    ensures |RunLines(st, PrintHunks(hunks, o, n)).1| <= HitsAll(Places(path, hunks, n))
    decreases |hunks|
  {
    hide RunLines, RunHunk, Hits, HitsAll, NoPlusIn, NoPlus, NoPluses, NoKnocks, NewSide, OldSide, Places, PrintHunks;
    if hunks == [] {
      NoHunks(st, path, o, n);
    } else {
      var h := hunks[0];
      var o', n' := o + |h.gap|, n + |h.gap|;
      var p := Place(path, n' + 1, h.section, h.body);
      var o'', n'' := o' + |OldSide(h.body)|, n' + |NewSide(h.body)|;
      PlacesHead(path, hunks, n);
      PlacesLater(p, Places(path, hunks[1..], n''));
      HunkAtMost(st, o', n', h);
      HunksStep(st, hunks, o, n);
      HunksAtMost(RunHunk(st, o', n', h).0, path, hunks[1..], o'', n'');
    }
  }

  lemma NoHunks(st: State, path: string, o: nat, n: nat)
    ensures RunLines(st, PrintHunks([], o, n)) == (st, [])
    ensures Places(path, [], n) == [] && AllShown([]) == [] && AllSteady([]) && HitsAll([]) == 0
  {
  }

  // ----- files and the whole diff -----

  /** What a printed diff guarantees: no newline inside a line. A deleted file has no added and no
      shared lines. */
  predicate ValidHunk(h: Hunk, deleted: bool) {
    && OneLine(h.section)
    && (forall k :: 0 <= k < |h.body| ==> h.body[k].NoNewline? || OneLine(h.body[k].text))
    && (deleted ==> forall k :: 0 <= k < |h.body| ==> !h.body[k].Added? && !h.body[k].Context?)
  }

  /** File names hold no line boundaries: such names are printed quoted. */
  predicate ValidFile(f: FileDiff) {
    && f.path != [] && Unbroken(f.name) && Unbroken(f.source) && Unbroken(f.path)
    && (forall k :: 0 <= k < |f.extra| ==> Unbroken(f.extra[k]) && Idle(f.extra[k]))
    && (forall k :: 0 <= k < |f.hunks| ==> ValidHunk(f.hunks[k], f.deleted))
  }

  predicate ValidDiff(d: seq<FileDiff>) {
    forall k :: 0 <= k < |d| ==> ValidFile(d[k])
  }

  function FileHead(f: FileDiff): seq<string> {
    ["diff --git " + f.name] + f.extra + (if f.hunks == [] then [] else ["--- " + f.source, Target(f)])
  }

  lemma FileParts(f: FileDiff)
    ensures PrintFile(f) == FileHead(f) + PrintHunks(f.hunks, 0, 0)
  {
  }

  lemma GitStep(st: State, name: string)
    ensures Step(st, "diff --git " + name) == (st.(inHunk := false), [])
  {
    assert ("diff --git " + name)[0..11] == "diff --git ";
  }

  lemma SourceIdle(source: string)
    ensures Idle("--- " + source) && Idle("+++ /dev/null")
  {
    hide StartsWith;
    var s := "--- " + source;
    NewPathHead(s);
    if HunkStart(s).Some? {
      HunkStartsWithAt(s);
    }
    var t := "+++ /dev/null";
    assert t[4] == '/' && t[..6][4] == t[4];
    if HunkStart(t).Some? {
      HunkStartsWithAt(t);
    }
  }

  lemma TargetStep(st: State, f: FileDiff)
    requires !st.inHunk && f.path != []
    ensures Step(st, Target(f)) == (if f.deleted then st else st.(path := Some(f.path)), [])
  {
    var s := Target(f);
    assert s[0] == '+';
    if StartsWith(s, "diff --git ", 0) {
      HeadOf(s, "diff --git ");
    }
    if StartsWith(s, "index ", 0) {
      HeadOf(s, "index ");
    }
    if f.deleted {
      SourceIdle("");
    } else {
      assert s[..6] == "+++ b/" && s[6..] == f.path;
    }
  }

  lemma OneLineRun(st: State, l: string)
    requires Unbroken(l)
    ensures RunLines(st, [l]) == Step(st, l)
  {
    hide Step, Unbroken, Frags;
    UnbrokenFrags(l);
    assert [l][1..] == [];
    assert FragsAll([l]) == [l];
    RunOne(st, l);
  }

  lemma HeadRun(st: State, f: FileDiff)
    requires ValidFile(f)
    ensures RunLines(st, FileHead(f)).1 == []
    ensures f.hunks != [] && !f.deleted ==> RunLines(st, FileHead(f)).0.path == Some(f.path)
  {
    hide Step, HunkStart, NewPath, StartsWith, Idle, RunLines, Unbroken;
    UnbrokenLiterals();
    UnbrokenConcat("diff --git ", f.name);
    UnbrokenConcat("--- ", f.source);
    UnbrokenConcat("+++ b/", f.path);
    var git := ["diff --git " + f.name];
    GitStep(st, f.name);
    OneLineRun(st, git[0]);
    var st1 := st.(inHunk := false);
    RunLinesConcat(st, git, f.extra);
    IdleLines(st1, f.extra);
    assert RunLines(st, git + f.extra) == (st1, [] + []);
    if f.hunks == [] {
      assert FileHead(f) == git + f.extra;
    } else {
      SourceIdle(f.source);
      IdleLines(st1, ["--- " + f.source]);
      RunLinesConcat(st, git + f.extra, ["--- " + f.source]);
      TargetStep(st1, f);
      OneLineRun(st1, Target(f));
      RunLinesConcat(st, git + f.extra + ["--- " + f.source], [Target(f)]);
      assert FileHead(f) == git + f.extra + ["--- " + f.source] + [Target(f)];
    }
  }

  lemma IdleLines(st: State, ls: seq<string>)
    requires !st.inHunk && forall k :: 0 <= k < |ls| ==> Idle(ls[k]) && Unbroken(ls[k])
    ensures RunLines(st, ls) == (st, [])
  {
    hide Idle, Unbroken;
    IdleRun(st, ls);
  }

  lemma {:induction false} NoAdded(body: seq<Line>)
    ensures AddedTexts(body) == [] <==> forall k :: 0 <= k < |body| ==> !body[k].Added?
  {
    if body != [] {
      NoAdded(body[1..]);
      assert forall k :: 0 < k < |body| ==> body[k] == body[1..][k - 1];
      assert forall k :: 0 <= k < |body[1..]| ==> body[1..][k] == body[k + 1];
    }
  }

  /** A deleted file has nothing to yield. */
  lemma {:induction false} DeletedHits(path: string, hunks: seq<Hunk>, n: nat)
    requires forall k :: 0 <= k < |hunks| ==> ValidHunk(hunks[k], true)
    ensures HitsAll(Places(path, hunks, n)) == 0 && AllShown(Places(path, hunks, n)) == [] &&
      AllSteady(Places(path, hunks, n))
    decreases |hunks|
  {
    hide Hits, Shown, Rest, Fragments, Steady, NewSide;
    if hunks != [] {
      var h := hunks[0];
      assert ValidHunk(h, true);
      NoAdded(h.body);
      HitsAtMost(h.body);
      ShownLength(path, n + |h.gap| + 1, h.body);
      NoAddedSteady(Fragments(On(0), n + |h.gap| + 1, Rest(h.section)), n + |h.gap| + 1, h.body);
      DeletedHits(path, hunks[1..], n + |h.gap| + |NewSide(h.body)|);
      var ps := Places(path, hunks, n);
      PlacesHead(path, hunks, n);
      assert forall k :: 0 < k < |ps| ==> ps[k] == ps[1..][k - 1];
    }
  }

  lemma FileTracks(st: State, f: FileDiff)
    requires ValidFile(f) && NoPluses(Places(f.path, f.hunks, 0)) && NoKnocks(Places(f.path, f.hunks, 0))
    ensures |RunLines(st, PrintFile(f)).1| <= |AllShown(Places(f.path, f.hunks, 0))|
    ensures RunLines(st, PrintFile(f)).1 == AllShown(Places(f.path, f.hunks, 0)) <==>
      AllSteady(Places(f.path, f.hunks, 0))
  {
    hide RunLines, PrintHunks, FileHead, NoKnocks, NoPluses, AllShown, AllSteady, Unbroken, Idle, ValidHunk;
    FileParts(f);
    HeadRun(st, f);
    var mid := RunLines(st, FileHead(f)).0;
    RunLinesConcat(st, FileHead(f), PrintHunks(f.hunks, 0, 0));
    assert [] + RunLines(mid, PrintHunks(f.hunks, 0, 0)).1 == RunLines(mid, PrintHunks(f.hunks, 0, 0)).1;
    if f.deleted {
      DeletedHits(f.path, f.hunks, 0);
      HunksAtMost(mid, f.path, f.hunks, 0, 0);
    } else if f.hunks == [] {
      NoHunks(mid, f.path, 0, 0);
    } else {
      HunksTracks(mid, f.path, f.hunks, 0, 0);
    }
  }

  lemma FileAtMost(st: State, f: FileDiff)
    requires ValidFile(f) && NoPluses(Places(f.path, f.hunks, 0))
    ensures |RunLines(st, PrintFile(f)).1| <= HitsAll(Places(f.path, f.hunks, 0))
  {
    hide RunLines, PrintHunks, FileHead, HitsAll, NoPluses, Unbroken, Idle, ValidHunk;
    FileParts(f);
    HeadRun(st, f);
    RunLinesConcat(st, FileHead(f), PrintHunks(f.hunks, 0, 0));
    HunksAtMost(RunLines(st, FileHead(f)).0, f.path, f.hunks, 0, 0);
  }

  lemma {:induction false} AllShownConcat(ps: seq<Place>, qs: seq<Place>)
    ensures AllShown(ps + qs) == AllShown(ps) + AllShown(qs)
  {
    hide Shown;
    if ps == [] {
      assert ps + qs == qs;
    } else {
      AllShownConcat(ps[1..], qs);
      assert (ps + qs)[1..] == ps[1..] + qs;
      Regroup(Shown(ps[0].path, ps[0].first, ps[0].body), AllShown(ps[1..]), AllShown(qs));
    }
  }

  lemma {:induction false} HitsAllConcat(ps: seq<Place>, qs: seq<Place>)
    ensures HitsAll(ps + qs) == HitsAll(ps) + HitsAll(qs)
  {
    hide Hits;
    if ps == [] {
      assert ps + qs == qs;
    } else {
      HitsAllConcat(ps[1..], qs);
      assert (ps + qs)[1..] == ps[1..] + qs;
    }
  }

  lemma {:induction false} DiffTracks(st: State, d: seq<FileDiff>)
    requires ValidDiff(d) && NoPluses(AllPlaces(d)) && NoKnocks(AllPlaces(d))
    ensures |RunLines(st, PrintDiff(d)).1| <= |AllShown(AllPlaces(d))|
    ensures RunLines(st, PrintDiff(d)).1 == AllShown(AllPlaces(d)) <==> AllSteady(AllPlaces(d))
    decreases |d|
  {
    hide RunLines, PrintFile, Places, AllShown, NoKnock, NoPlusPlace, SteadyPlace, ValidFile;
    if d == [] {
      RunNoLines(st);
      NoPlaces();
    } else {
      var ps, qs := Places(d[0].path, d[0].hunks, 0), AllPlaces(d[1..]);
      assert forall k :: 0 <= k < |ps| ==> (ps + qs)[k] == ps[k];
      assert forall k :: 0 <= k < |qs| ==> (ps + qs)[|ps| + k] == qs[k];
      FileTracks(st, d[0]);
      var mid := RunLines(st, PrintFile(d[0]));
      DiffTracks(mid.0, d[1..]);
      RunLinesConcat(st, PrintFile(d[0]), PrintDiff(d[1..]));
      AllShownConcat(ps, qs);
      SplitBounded(mid.1, RunLines(mid.0, PrintDiff(d[1..])).1, AllShown(ps), AllShown(qs));
      assert AllSteady(ps + qs) <==> AllSteady(ps) && AllSteady(qs);
    }
  }

  lemma NoPlaces()
    ensures AllShown([]) == [] && HitsAll([]) == 0 && AllSteady([])
  {
  }

  lemma {:induction false} DiffAtMost(st: State, d: seq<FileDiff>)
    requires ValidDiff(d) && NoPluses(AllPlaces(d))
    ensures |RunLines(st, PrintDiff(d)).1| <= HitsAll(AllPlaces(d))
    decreases |d|
  {
    hide RunLines, PrintFile, Places, HitsAll, NoPlusPlace, ValidFile;
    if d == [] {
      RunNoLines(st);
      NoPlaces();
    } else {
      var ps, qs := Places(d[0].path, d[0].hunks, 0), AllPlaces(d[1..]);
      assert forall k :: 0 <= k < |ps| ==> (ps + qs)[k] == ps[k];
      assert forall k :: 0 <= k < |qs| ==> (ps + qs)[|ps| + k] == qs[k];
      FileAtMost(st, d[0]);
      DiffAtMost(RunLines(st, PrintFile(d[0])).0, d[1..]);
      RunLinesConcat(st, PrintFile(d[0]), PrintDiff(d[1..]));
      HitsAllConcat(ps, qs);
    }
  }

  lemma {:induction false} FewerHits(ps: seq<Place>)
    ensures HitsAll(ps) <= |AllShown(ps)|
    ensures HitsAll(ps) == |AllShown(ps)| ==> NoKnocks(ps)
  {
    hide NoKnock, Shown, Hits;
    if ps != [] {
      FewerHits(ps[1..]);
      HitsAtMost(ps[0].body);
      ShownLength(ps[0].path, ps[0].first, ps[0].body);
      assert forall k :: 0 < k < |ps| ==> ps[k] == ps[1..][k - 1];
    }
  }

  // ----- the printed text -----

  lemma OneLineConcat(x: string, y: string)
    requires OneLine(x) && OneLine(y)
    ensures OneLine(x + y)
  {
  }

  lemma UnbrokenOneLine(x: string)
    requires Unbroken(x)
    ensures OneLine(x)
  {
  }

  lemma OneLinesConcat(a: seq<string>, b: seq<string>)
    requires OneLines(a) && OneLines(b)
    ensures OneLines(a + b)
  {
  }

  lemma {:induction false} OneLineBody(body: seq<Line>)
    requires forall k :: 0 <= k < |body| ==> body[k].NoNewline? || OneLine(body[k].text)
    ensures OneLines(PrintBody(body))
  {
    if body != [] {
      assert forall k :: 0 <= k < |body[1..]| ==> body[1..][k] == body[k + 1];
      OneLineBody(body[1..]);
      assert body[0].NoNewline? || OneLine(body[0].text);
      assert OneLine(PrintLine(body[0]));
    }
  }

  lemma {:induction false} OneLineHunks(hunks: seq<Hunk>, deleted: bool, o: nat, n: nat)
    requires forall k :: 0 <= k < |hunks| ==> ValidHunk(hunks[k], deleted)
    ensures OneLines(PrintHunks(hunks, o, n))
    decreases |hunks|
  {
    hide OneLine, PrintBody, NewSide, OldSide, Unbroken, Range;
    if hunks != [] {
      var h := hunks[0];
      assert ValidHunk(h, deleted);
      UnbrokenNumbers(o + |h.gap|, n + |h.gap|, h);
      UnbrokenOneLine(Numbers(o + |h.gap|, n + |h.gap|, h));
      OneLineConcat(Numbers(o + |h.gap|, n + |h.gap|, h), h.section);
      OneLineBody(h.body);
      OneLineHunks(hunks[1..], deleted, o + |h.gap| + |OldSide(h.body)|, n + |h.gap| + |NewSide(h.body)|);
      var header := [HunkHeader(o + |h.gap|, n + |h.gap|, h)];
      assert OneLines(header);
      OneLinesConcat(header, PrintBody(h.body));
      OneLinesConcat(header + PrintBody(h.body),
        PrintHunks(hunks[1..], o + |h.gap| + |OldSide(h.body)|, n + |h.gap| + |NewSide(h.body)|));
    }
  }

  lemma OneLineFile(f: FileDiff)
    requires ValidFile(f)
    ensures OneLines(PrintFile(f))
  {
    hide Unbroken, Idle, PrintHunks, ValidHunk, OneLine;
    UnbrokenLiterals();
    UnbrokenConcat("diff --git ", f.name);
    UnbrokenConcat("--- ", f.source);
    UnbrokenConcat("+++ b/", f.path);
    UnbrokenOneLine("diff --git " + f.name);
    UnbrokenOneLine("--- " + f.source);
    UnbrokenOneLine(Target(f));
    forall k | 0 <= k < |f.extra| ensures OneLine(f.extra[k]) {
      UnbrokenOneLine(f.extra[k]);
    }
    OneLineHunks(f.hunks, f.deleted, 0, 0);
  }

  lemma {:induction false} OneLineDiff(d: seq<FileDiff>)
    requires ValidDiff(d)
    ensures OneLines(PrintDiff(d))
  {
    hide OneLine, ValidFile, PrintFile;
    if d != [] {
      OneLineFile(d[0]);
      OneLineDiff(d[1..]);
    }
  }

  lemma AddedLinesAre(d: seq<FileDiff>)
    requires ValidDiff(d)
    ensures AddedLines(Unlines(PrintDiff(d))) == RunLines(START, PrintDiff(d)).1
  {
    hide ValidDiff, PrintDiff, Run, SplitLines, FragsAll, OneLines;
    OneLineDiff(d);
    SplitUnlines(PrintDiff(d));
  }

  /** Where no fragment is read as an added line: the first pieces of the added lines come out exactly
      once, in order, each with its line in the new file, if and only if none of them starts with
      `++ b/` and more, and the tracker is steady over every hunk. */
  lemma ShownIff(d: seq<FileDiff>)
    requires ValidDiff(d) && NoPluses(AllPlaces(d))
    ensures AddedLines(Unlines(PrintDiff(d))) == AllShown(AllPlaces(d))
      <==> NoKnocks(AllPlaces(d)) && AllSteady(AllPlaces(d))
  {
    hide ValidDiff, PrintDiff, AllPlaces, NoKnocks, NoPluses, AllSteady, AllShown, RunLines, AddedLines, HitsAll;
    AddedLinesAre(d);
    DiffAtMost(START, d);
    FewerHits(AllPlaces(d));
    if NoKnocks(AllPlaces(d)) {
      DiffTracks(START, d);
    }
  }

  // ----- the contents -----

  lemma {:induction false} YieldsArePieces(st: State, fs: seq<string>)
    requires forall k :: 0 <= k < |fs| ==> Unbroken(fs[k])
    ensures forall y :: y in Run(st, fs).1 ==> Unbroken(y.content) && !Knocks(y.content)
    decreases |fs|
  {
    hide Step, Unbroken, Knocks;
    if fs != [] {
      assert forall k :: 0 <= k < |fs[1..]| ==> fs[1..][k] == fs[k + 1];
      assert Unbroken(fs[0]);
      YieldIsPiece(st, fs[0]);
      YieldsArePieces(Step(st, fs[0]).0, fs[1..]);
    }
  }

  lemma YieldIsPiece(st: State, f: string)
    requires Unbroken(f)
    ensures forall y :: y in Step(st, f).1 ==> Unbroken(y.content) && !Knocks(y.content)
  {
    hide HunkStart, NewPath, StartsWith, Knocks;
    if Step(st, f).1 != [] {
      assert StartsWith(f, "+", 0);
      HeadOf(f, "+");
      assert f == "+" + f[1..];
      KnocksIff(f[1..]);
    }
  }

  predicate WholeAdded(body: seq<Line>) {
    forall k :: 0 <= k < |body| && body[k].Added? ==> Unbroken(body[k].text)
  }

  predicate AllWholeAdded(ps: seq<Place>) {
    forall k :: 0 <= k < |ps| ==> WholeAdded(ps[k].body)
  }

  lemma {:induction false} ContentExpected(path: string, n: nat, body: seq<Line>, k: nat)
    requires k < |body| && body[k].Added?
    ensures exists y :: y in Numbered(path, n, body) && y.content == body[k].text
    decreases |body|
  {
    if k == 0 {
      assert Numbered(path, n, body)[0].content == body[0].text;
    } else {
      var m := if body[0].Context? || body[0].Added? then n + 1 else n;
      ContentExpected(path, m, body[1..], k - 1);
      var y :| y in Numbered(path, m, body[1..]) && y.content == body[1..][k - 1].text;
      assert y in Numbered(path, n, body);
    }
  }

  lemma {:induction false} ContentsAllExpected(ps: seq<Place>, i: nat, k: nat)
    requires i < |ps| && k < |ps[i].body| && ps[i].body[k].Added?
    ensures exists y :: y in Expected(ps) && y.content == ps[i].body[k].text
  {
    hide Numbered;
    if i == 0 {
      ContentExpected(ps[0].path, ps[0].first, ps[0].body, k);
      var y :| y in Numbered(ps[0].path, ps[0].first, ps[0].body) && y.content == ps[0].body[k].text;
      assert y in Expected(ps);
    } else {
      ContentsAllExpected(ps[1..], i - 1, k);
      var y :| y in Expected(ps[1..]) && y.content == ps[1..][i - 1].body[k].text;
      assert y in Expected(ps);
    }
  }

  /** Whatever else the diff holds: if the yields are the expected ones, no added line holds a line
      boundary or starts with `++ b/` and more. */
  lemma AddedMustBeWhole(d: seq<FileDiff>)
    requires ValidDiff(d) && AddedLines(Unlines(PrintDiff(d))) == Expected(AllPlaces(d))
    ensures AllWholeAdded(AllPlaces(d)) && NoKnocks(AllPlaces(d))
  {
    hide ValidDiff, PrintDiff, AllPlaces, Run, SplitLines, Expected, Unbroken, Knocks, Unlines;
    var s := Unlines(PrintDiff(d));
    var ps := AllPlaces(d);
    PiecesUnbroken(s);
    assert forall k :: 0 <= k < |SplitLines(s)| ==> SplitLines(s)[k] in SplitLines(s);
    YieldsArePieces(START, SplitLines(s));
    forall i, k | 0 <= i < |ps| && 0 <= k < |ps[i].body| && ps[i].body[k].Added?
      ensures Unbroken(ps[i].body[k].text) && !Knocks(First(ps[i].body[k].text))
    {
      ContentsAllExpected(ps, i, k);
      UnbrokenFrags(ps[i].body[k].text);
    }
  }

  lemma {:induction false} ShownIsNumbered(path: string, n: nat, body: seq<Line>)
    requires WholeAdded(body)
    ensures Shown(path, n, body) == Numbered(path, n, body)
    decreases |body|
  {
    hide Unbroken, Frags;
    if body != [] {
      assert forall k :: 0 <= k < |body[1..]| ==> body[1..][k] == body[k + 1];
      var m := if body[0].Context? || body[0].Added? then n + 1 else n;
      ShownIsNumbered(path, m, body[1..]);
      if body[0].Added? {
        UnbrokenFrags(body[0].text);
      }
    }
  }

  lemma {:induction false} AllShownIsExpected(ps: seq<Place>)
    requires AllWholeAdded(ps)
    ensures AllShown(ps) == Expected(ps)
  {
    hide WholeAdded, Shown, Numbered;
    if ps != [] {
      assert forall k :: 0 <= k < |ps[1..]| ==> ps[1..][k] == ps[k + 1];
      ShownIsNumbered(ps[0].path, ps[0].first, ps[0].body);
      AllShownIsExpected(ps[1..]);
    }
  }

  /** Where no fragment is read as an added line: the added lines come out unchanged if and only if none
      of them holds a line boundary or starts with `++ b/` and more, and the tracker is steady. */
  lemma WholeTracksIff(d: seq<FileDiff>)
    requires ValidDiff(d) && NoPluses(AllPlaces(d))
    ensures AddedLines(Unlines(PrintDiff(d))) == Expected(AllPlaces(d))
      <==> AllWholeAdded(AllPlaces(d)) && NoKnocks(AllPlaces(d)) && AllSteady(AllPlaces(d))
  {
    hide ValidDiff, PrintDiff, AllPlaces, NoKnocks, NoPluses, AllSteady, AllShown, AddedLines, Expected, AllWholeAdded;
    ShownIff(d);
    if AllWholeAdded(AllPlaces(d)) {
      AllShownIsExpected(AllPlaces(d));
    } else if AddedLines(Unlines(PrintDiff(d))) == Expected(AllPlaces(d)) {
      AddedMustBeWhole(d);
    }
  }

  // ----- lines without fragments -----

  predicate MarkersLast(body: seq<Line>) {
    forall i, j :: 0 <= i < j < |body| && body[i].NoNewline? ==> !body[j].Added?
  }

  lemma MarkersStep(body: seq<Line>)
    requires body != []
    ensures MarkersLast(body) <==> MarkersLast(body[1..]) && (body[0].NoNewline? ==> AddedTexts(body[1..]) == [])
  {
    var rest := body[1..];
    NoAdded(rest);
    assert forall k :: 0 <= k < |rest| ==> rest[k] == body[k + 1];
    assert forall k :: 0 < k < |body| ==> body[k] == rest[k - 1];
    if MarkersLast(body) {
      forall i, j | 0 <= i < j < |rest| && rest[i].NoNewline? ensures !rest[j].Added? {
        assert body[i + 1].NoNewline? && rest[j] == body[j + 1];
      }
    }
    if MarkersLast(rest) && (body[0].NoNewline? ==> AddedTexts(rest) == []) {
      forall i, j | 0 <= i < j < |body| && body[i].NoNewline? ensures !body[j].Added? {
        assert body[j] == rest[j - 1];
        assert i > 0 ==> body[i] == rest[i - 1];
      }
    }
  }

  lemma EmptyMarkers()
    ensures MarkersLast([])
  {
  }

  predicate WholeLines(body: seq<Line>) {
    forall k :: 0 <= k < |body| ==> Tail(body[k]) == []
  }

  /** Over lines without fragments, a tracker that starts `k` lines too high is steady only when nothing
      is left to number; otherwise it is exactly when no added line follows a marker. */
  lemma {:induction false} SteadyWhole(n: nat, k: nat, body: seq<Line>)
    requires WholeLines(body)
    ensures Steady(On(k), n, body) <==> (k == 0 || AddedTexts(body) == []) && MarkersLast(body)
    decreases |body|
  {
    hide MarkersLast, Rest;
    if body == [] {
      EmptyMarkers();
    } else {
      MarkersStep(body);
      var rest := body[1..];
      assert forall j :: 0 <= j < |rest| ==> rest[j] == body[j + 1];
      assert Tail(body[0]) == [];
      match body[0]
      case Context(_) => SteadyWhole(n + 1, k, rest);
      case Removed(_) => SteadyWhole(n, k, rest);
      case NoNewline => SteadyWhole(n, k + 1, rest);
      case Added(_) => SteadyWhole(n + 1, k, rest);
    }
  }

  predicate AllMarkersLast(ps: seq<Place>) {
    forall k :: 0 <= k < |ps| ==> MarkersLast(ps[k].body)
  }

  function Trim(x: string): string {
    if x != [] && x[|x| - 1] == '\r' then x[..|x| - 1] else x
  }

  /** A text with no boundary but a carriage return at its end, as in a file with CRLF line ends. */
  predicate EndsPlain(x: string) {
    Unbroken(Trim(x))
  }

  predicate PlainPlace(p: Place) {
    EndsPlain(p.heading) && forall k :: 0 <= k < |p.body| && !p.body[k].NoNewline? ==> EndsPlain(p.body[k].text)
  }

  predicate AllPlain(ps: seq<Place>) {
    forall k :: 0 <= k < |ps| ==> PlainPlace(ps[k])
  }

  function Trimmed(ys: seq<Yield>): seq<Yield> {
    if ys == [] then [] else [ys[0].(content := Trim(ys[0].content))] + Trimmed(ys[1..])
  }

  lemma PlainFrags(x: string)
    requires EndsPlain(x)
    ensures Frags(x) == [Trim(x)]
  {
    hide Unbroken, FirstBreak, SplitLines;
    if Trim(x) == x {
      UnbrokenFrags(x);
    } else {
      assert x == Trim(x) + "\r";
      FragsOf(Trim(x), "\r");
      var s := "\r" + "\n";
      FirstBreakIs(s, 0);
      SplitStep(s);
      SplitNothing();
      assert s[..0] == "" && s[2..] == "";
      assert Frags("\r") == [""];
      assert Trim(x) + First("\r") == Trim(x);
    }
  }

  lemma {:induction false} ShownTrimmed(path: string, n: nat, body: seq<Line>)
    requires forall k :: 0 <= k < |body| && !body[k].NoNewline? ==> EndsPlain(body[k].text)
    ensures Shown(path, n, body) == Trimmed(Numbered(path, n, body)) && WholeLines(body)
    decreases |body|
  {
    hide EndsPlain, Frags, Trim;
    if body != [] {
      assert forall k :: 0 <= k < |body[1..]| ==> body[1..][k] == body[k + 1];
      assert forall k :: 0 < k < |body| ==> body[k] == body[1..][k - 1];
      var m := if body[0].Context? || body[0].Added? then n + 1 else n;
      ShownTrimmed(path, m, body[1..]);
      if !body[0].NoNewline? {
        PlainFrags(body[0].text);
      }
    }
  }

  lemma {:induction false} TrimmedConcat(a: seq<Yield>, b: seq<Yield>)
    ensures Trimmed(a + b) == Trimmed(a) + Trimmed(b)
  {
    hide Trim;
    if a == [] {
      assert a + b == b;
    } else {
      TrimmedConcat(a[1..], b);
      assert (a + b)[1..] == a[1..] + b && (a + b)[0] == a[0];
    }
  }

  lemma {:induction false} PlainPlaces(ps: seq<Place>)
    requires AllPlain(ps)
    ensures AllShown(ps) == Trimmed(Expected(ps)) && NoPluses(ps)
    ensures AllSteady(ps) <==> AllMarkersLast(ps)
  {
    hide PlainPlace, NoPlusPlace, SteadyPlace, MarkersLast, Shown, Numbered;
    if ps != [] {
      var qs := ps[1..];
      assert forall k :: 0 <= k < |qs| ==> qs[k] == ps[k + 1];
      assert forall k :: 0 < k < |ps| ==> ps[k] == qs[k - 1];
      assert PlainPlace(ps[0]);
      OnePlainPlace(ps[0]);
      PlainPlaces(qs);
      TrimmedConcat(Numbered(ps[0].path, ps[0].first, ps[0].body), Expected(qs));
    }
  }

  lemma OnePlainPlace(p: Place)
    requires PlainPlace(p)
    ensures Shown(p.path, p.first, p.body) == Trimmed(Numbered(p.path, p.first, p.body)) && NoPlusPlace(p)
    ensures SteadyPlace(p) <==> MarkersLast(p.body)
  {
    hide EndsPlain, Shown, Numbered, MarkersLast, Steady, Frags, Trim;
    PlainFrags(p.heading);
    assert Rest(p.heading) == [];
    ShownTrimmed(p.path, p.first, p.body);
    SteadyWhole(p.first, 0, p.body);
  }

  /** For lines with no boundary but a carriage return at the end: the numbers are right and the contents
      right up to that carriage return, if and only if no added line starts with `++ b/` and more and none
      follows a no-newline marker in its hunk. */
  lemma CrlfTracks(d: seq<FileDiff>)
    requires ValidDiff(d) && AllPlain(AllPlaces(d))
    ensures AddedLines(Unlines(PrintDiff(d))) == Trimmed(Expected(AllPlaces(d)))
      <==> NoKnocks(AllPlaces(d)) && AllMarkersLast(AllPlaces(d))
  {
    hide ValidDiff, PrintDiff, AllPlaces, NoKnocks, AllSteady, AllShown, AddedLines, Expected, AllPlain,
      AllMarkersLast, Trimmed;
    PlainPlaces(AllPlaces(d));
    ShownIff(d);
  }

  // ----- fragments that are read as added lines -----

  /** A fragment that takes the tracker out of the hunk or to another file. */
  predicate Quits(f: string) {
    Leaves(f) || NewPath(f).Some?
  }

  predicate NoQuitIn(fs: seq<string>) {
    forall k :: 0 <= k < |fs| ==> !Quits(fs[k])
  }

  predicate NoQuitPlace(p: Place) {
    NoQuitIn(Rest(p.heading)) && forall k :: 0 <= k < |p.body| ==> NoQuitIn(Tail(p.body[k]))
  }

  function PlusCount(fs: seq<string>): nat {
    if fs == [] then 0 else (if StartsWith(fs[0], "+", 0) then 1 else 0) + PlusCount(fs[1..])
  }

  lemma {:induction false} PlusCountIff(fs: seq<string>)
    ensures PlusCount(fs) == 0 <==> NoPlusIn(fs)
  {
    hide StartsWith;
    if fs != [] {
      PlusCountIff(fs[1..]);
      assert forall k :: 0 <= k < |fs[1..]| ==> fs[1..][k] == fs[k + 1];
      assert forall k :: 0 < k < |fs| ==> fs[k] == fs[1..][k - 1];
    }
  }

  function BodyPluses(body: seq<Line>): nat {
    if body == [] then 0 else PlusCount(Tail(body[0])) + BodyPluses(body[1..])
  }

  lemma {:induction false} BodyPlusesIff(body: seq<Line>)
    ensures BodyPluses(body) == 0 <==> NoPlus(body)
  {
    hide PlusCount, NoPlusIn, Tail;
    if body != [] {
      PlusCountIff(Tail(body[0]));
      BodyPlusesIff(body[1..]);
      assert forall k :: 0 <= k < |body[1..]| ==> body[1..][k] == body[k + 1];
      assert forall k :: 0 < k < |body| ==> body[k] == body[1..][k - 1];
    }
  }

  predicate Reading(st: State, path: string) {
    st.inHunk && st.path == Some(path)
  }

  lemma PlusHead(f: string)
    requires StartsWith(f, "+", 0)
    ensures HunkStart(f).None? && !StartsWith(f, "--- ", 0)
  {
    HeadOf(f, "+");
    BodyHead(f);
  }

  lemma StaysStep(st: State, path: string, f: string)
    requires Reading(st, path) && !Quits(f)
    ensures Reading(Step(st, f).0, path)
    ensures |Step(st, f).1| == if StartsWith(f, "+", 0) then 1 else 0
  {
    hide HunkStart, NewPath, StartsWith;
    OnlyPlusYields(st, f);
    if StartsWith(f, "+", 0) {
      PlusHead(f);
    }
  }

  lemma {:induction false} StaysRun(st: State, path: string, fs: seq<string>)
    requires Reading(st, path) && NoQuitIn(fs)
    ensures Reading(Run(st, fs).0, path) && |Run(st, fs).1| == PlusCount(fs)
    decreases |fs|
  {
    hide Step, Quits, StartsWith, Reading;
    if fs == [] {
      RunNothing(st);
    } else {
      assert !Quits(fs[0]);
      assert forall k :: 0 <= k < |fs[1..]| ==> fs[1..][k] == fs[k + 1];
      StaysStep(st, path, fs[0]);
      StaysRun(Step(st, fs[0]).0, path, fs[1..]);
    }
  }

  lemma StaysLine(st: State, path: string, l: Line)
    requires Reading(st, path) && NoQuitIn(Tail(l)) && (l.Added? ==> !Knocks(First(l.text)))
    ensures var one := Step(st, PrintLine(Whole(l))); var mid := Run(one.0, Tail(l));
      && Reading(mid.0, path)
      && |one.1| == (if l.Added? then 1 else 0) && |mid.1| == PlusCount(Tail(l))
  {
    hide Step, PrintLine, First, Rest, Knocks, NoQuitIn, Run, PlusCount;
    StepInHunk(st, Whole(l));
    StaysRun(Step(st, PrintLine(Whole(l))).0, path, Tail(l));
  }

  /** Without such fragments, and with no content lost, everything is read as a line of the hunk. */
  lemma {:induction false} BodyCount(st: State, path: string, body: seq<Line>)
    requires Reading(st, path) && NoKnock(body) && forall k :: 0 <= k < |body| ==> NoQuitIn(Tail(body[k]))
    ensures Reading(RunBody(st, body).0, path)
    ensures |RunBody(st, body).1| == |AddedTexts(body)| + BodyPluses(body)
    decreases |body|
  {
    hide Step, PrintLine, First, Reading, Knocks, RunBody, Run, NoQuitIn, PlusCount, Whole, Tail;
    if body == [] {
      NoBody(st);
    } else {
      assert forall k :: 0 <= k < |body[1..]| ==> body[1..][k] == body[k + 1];
      RunBodyStep(st, body);
      StaysLine(st, path, body[0]);
      BodyCount(Run(Step(st, PrintLine(Whole(body[0]))).0, Tail(body[0])).0, path, body[1..]);
    }
  }

  function PlacePluses(p: Place): nat {
    PlusCount(Rest(p.heading)) + BodyPluses(p.body)
  }

  lemma HunkCount(st: State, path: string, o: nat, n: nat, h: Hunk)
    requires st.path == Some(path) && NoQuitPlace(Place(path, n + 1, h.section, h.body)) && NoKnock(h.body)
    ensures RunHunk(st, o, n, h).0.path == Some(path)
    ensures |RunHunk(st, o, n, h).1| == |AddedTexts(h.body)| + PlacePluses(Place(path, n + 1, h.section, h.body))
  {
    hide RunHunk, RunBody, Run, Rest, NoQuitIn, NoKnock, PlusCount, BodyPluses;
    RunHunkIs(st, o, n, h);
    StaysRun(st.(lineno := FirstLine(n, |NewSide(h.body)|), inHunk := true), path, Rest(h.section));
    BodyCount(Entered(st, n, h), path, h.body);
  }

  predicate NoQuits(ps: seq<Place>) {
    forall k :: 0 <= k < |ps| ==> NoQuitPlace(ps[k])
  }

  lemma NoQuitsLater(p: Place, qs: seq<Place>)
    requires NoQuits([p] + qs) && NoKnocks([p] + qs)
    ensures NoQuitPlace(p) && NoQuits(qs) && NoKnock(p.body) && NoKnocks(qs)
  {
    hide NoQuitPlace, NoKnock;
    var ps := [p] + qs;
    assert ps[0] == p;
    assert forall k :: 0 <= k < |qs| ==> qs[k] == ps[k + 1];
  }

  function AllPluses(ps: seq<Place>): nat {
    if ps == [] then 0 else PlacePluses(ps[0]) + AllPluses(ps[1..])
  }

  lemma {:induction false} AllPlusesIff(ps: seq<Place>)
    ensures AllPluses(ps) == 0 <==> NoPluses(ps)
  {
    hide PlusCount, NoPlusIn, NoPlus, BodyPluses, Rest;
    if ps != [] {
      PlusCountIff(Rest(ps[0].heading));
      BodyPlusesIff(ps[0].body);
      AllPlusesIff(ps[1..]);
      assert forall k :: 0 <= k < |ps[1..]| ==> ps[1..][k] == ps[k + 1];
      assert forall k :: 0 < k < |ps| ==> ps[k] == ps[1..][k - 1];
    }
  }

  lemma PlacesSum(p: Place, qs: seq<Place>)
    ensures AllPluses([p] + qs) == PlacePluses(p) + AllPluses(qs)
    ensures |Expected([p] + qs)| == |AddedTexts(p.body)| + |Expected(qs)|
  {
    hide PlacePluses, Numbered;
    var ps := [p] + qs;
    assert ps[0] == p && ps[1..] == qs;
    NumberedContents(p.path, p.first, p.body);
    assert |Contents(Numbered(p.path, p.first, p.body))| == |Numbered(p.path, p.first, p.body)|;
  }

  lemma {:induction false} HunksCount(st: State, path: string, hunks: seq<Hunk>, o: nat, n: nat)
    requires st.path == Some(path) && NoQuits(Places(path, hunks, n)) && NoKnocks(Places(path, hunks, n))
    ensures |RunLines(st, PrintHunks(hunks, o, n)).1| ==
      |Expected(Places(path, hunks, n))| + AllPluses(Places(path, hunks, n))
    decreases |hunks|
  {
    hide RunLines, RunHunk, NoKnock, NoKnocks, NoQuitPlace, NoQuits, PlacePluses, AllPluses, Expected;
    hide NewSide, OldSide, Places, PrintHunks;
    if hunks == [] {
      NoHunks(st, path, o, n);
      NothingPlaced();
    } else {
      var h := hunks[0];
      var o', n' := o + |h.gap|, n + |h.gap|;
      var p := Place(path, n' + 1, h.section, h.body);
      var o'', n'' := o' + |OldSide(h.body)|, n' + |NewSide(h.body)|;
      var qs := Places(path, hunks[1..], n'');
      PlacesHead(path, hunks, n);
      NoQuitsLater(p, qs);
      PlacesSum(p, qs);
      HunkCount(st, path, o', n', h);
      HunksStep(st, hunks, o, n);
      HunksCount(RunHunk(st, o', n', h).0, path, hunks[1..], o'', n'');
    }
  }

  lemma NothingPlaced()
    ensures Expected([]) == [] && AllPluses([]) == 0
  {
  }

  /** The places of the files that are still there in the new version. */
  function LivePlaces(d: seq<FileDiff>): seq<Place> {
    if d == [] then [] else (if d[0].deleted then [] else Places(d[0].path, d[0].hunks, 0)) + LivePlaces(d[1..])
  }

  lemma FileCount(st: State, f: FileDiff)
    requires ValidFile(f) && NoQuits(Places(f.path, f.hunks, 0)) && NoKnocks(Places(f.path, f.hunks, 0)) && !f.deleted
    ensures |RunLines(st, PrintFile(f)).1| ==
      |Expected(Places(f.path, f.hunks, 0))| + AllPluses(Places(f.path, f.hunks, 0))
  {
    hide RunLines, PrintHunks, FileHead, NoKnocks, NoQuits, Expected, AllPluses, Unbroken, Idle, ValidHunk;
    FileParts(f);
    HeadRun(st, f);
    var mid := RunLines(st, FileHead(f)).0;
    RunLinesConcat(st, FileHead(f), PrintHunks(f.hunks, 0, 0));
    if f.hunks == [] {
      NoHunks(mid, f.path, 0, 0);
      NothingPlaced();
    } else {
      HunksCount(mid, f.path, f.hunks, 0, 0);
    }
  }

  lemma {:induction false} DeletedExpected(path: string, hunks: seq<Hunk>, n: nat)
    requires forall k :: 0 <= k < |hunks| ==> ValidHunk(hunks[k], true)
    ensures Expected(Places(path, hunks, n)) == []
    decreases |hunks|
  {
    hide Numbered, NewSide, OneLine, Places, Expected;
    if hunks == [] {
      NothingPlaced();
      NoHunks(START, path, 0, n);
    } else {
      var h := hunks[0];
      assert ValidHunk(h, true);
      NoAdded(h.body);
      var qs := Places(path, hunks[1..], n + |h.gap| + |NewSide(h.body)|);
      PlacesHead(path, hunks, n);
      PlacesSum(Place(path, n + |h.gap| + 1, h.section, h.body), qs);
      DeletedExpected(path, hunks[1..], n + |h.gap| + |NewSide(h.body)|);
    }
  }

  lemma {:induction false} ExpectedConcat(ps: seq<Place>, qs: seq<Place>)
    ensures |Expected(ps + qs)| == |Expected(ps)| + |Expected(qs)|
    ensures AllPluses(ps + qs) == AllPluses(ps) + AllPluses(qs)
  {
    hide Numbered, PlacePluses;
    if ps == [] {
      assert ps + qs == qs;
    } else {
      ExpectedConcat(ps[1..], qs);
      assert (ps + qs)[1..] == ps[1..] + qs;
    }
  }

  lemma {:induction false} DiffAtLeast(st: State, d: seq<FileDiff>)
    requires ValidDiff(d) && NoQuits(AllPlaces(d)) && NoKnocks(AllPlaces(d))
    ensures |RunLines(st, PrintDiff(d)).1| >= |Expected(AllPlaces(d))| + AllPluses(LivePlaces(d))
    decreases |d|
  {
    hide RunLines, PrintFile, Places, Expected, AllPluses, NoKnock, NoQuitPlace, Idle, ValidHunk, Unbroken;
    if d == [] {
      NothingPlaced();
    } else {
      var ps, qs := Places(d[0].path, d[0].hunks, 0), AllPlaces(d[1..]);
      assert ValidFile(d[0]);
      assert forall k :: 0 <= k < |ps| ==> (ps + qs)[k] == ps[k];
      assert forall k :: 0 <= k < |qs| ==> (ps + qs)[|ps| + k] == qs[k];
      DiffAtLeast(RunLines(st, PrintFile(d[0])).0, d[1..]);
      RunLinesConcat(st, PrintFile(d[0]), PrintDiff(d[1..]));
      ExpectedConcat(ps, qs);
      if d[0].deleted {
        DeletedExpected(d[0].path, d[0].hunks, 0);
        assert [] + LivePlaces(d[1..]) == LivePlaces(d[1..]);
      } else {
        ExpectedConcat(ps, LivePlaces(d[1..]));
        FileCount(st, d[0]);
      }
    }
  }

  /** With no fragment that takes the tracker out of a hunk, a fragment that starts with `+`, in a file
      that is still there, always spoils the yields. */
  lemma PlusBreaks(d: seq<FileDiff>)
    requires ValidDiff(d) && NoQuits(AllPlaces(d)) && !NoPluses(LivePlaces(d))
    ensures AddedLines(Unlines(PrintDiff(d))) != Expected(AllPlaces(d))
  {
    hide ValidDiff, PrintDiff, AllPlaces, NoKnocks, NoPluses, AllPluses, LivePlaces, RunLines, AddedLines, Expected,
      NoQuits;
    AddedLinesAre(d);
    AllPlusesIff(LivePlaces(d));
    if AddedLines(Unlines(PrintDiff(d))) == Expected(AllPlaces(d)) {
      AddedMustBeWhole(d);
      DiffAtLeast(START, d);
    }
  }

  /** The added lines come out exactly once, in order, unchanged and with their line in the new file,
      if and only if none of them holds a line boundary or starts with `++ b/` and more, no fragment is
      read as an added line, and the tracker is steady: no marker, and no fragment behind a boundary in any
      other line, has moved it before an added line of the hunk. Diffs in which some fragments are read as
      added lines and others leave the hunk are outside it. */
  lemma TracksIff(d: seq<FileDiff>)
    requires ValidDiff(d)
    requires NoPluses(AllPlaces(d)) || (NoQuits(AllPlaces(d)) && !NoPluses(LivePlaces(d)))
    ensures AddedLines(Unlines(PrintDiff(d))) == Expected(AllPlaces(d)) <==>
      && AllWholeAdded(AllPlaces(d)) && NoKnocks(AllPlaces(d))
      && NoPluses(AllPlaces(d)) && AllSteady(AllPlaces(d))
  {
    hide ValidDiff, PrintDiff, AllPlaces, NoKnocks, NoPluses, AllSteady, AddedLines, Expected, AllWholeAdded;
    hide LivePlaces, NoQuits;
    if NoPluses(AllPlaces(d)) {
      WholeTracksIff(d);
    } else {
      PlusBreaks(d);
    }
  }

  // ----- diffs that go wrong, and one that does not -----

  /** One fragment is harmless exactly when it starts with `-` or gives the number there already is. */
  lemma FragmentHarmless(n: nat, f: string)
    ensures Fragment(On(0), n, f) == On(0) <==> StartsWith(f, "-", 0) || (HunkStart(f) == Some(n) && !Leaves(f))
  {
    hide HunkStart, StartsWith;
    MinusHead(f);
  }

  function NewFileDiff(body: seq<Line>): FileDiff {
    FileDiff("a/p b/p", [], "a/p", "p", false, [Hunk([], body, "")], [])
  }

  lemma FormFeedFrags(x: string, z: string)
    requires Unbroken(x)
    ensures Frags(x + "\U{0c}" + z) == [x] + Frags(z)
  {
    hide Unbroken, SplitLines, FirstBreak;
    var y := "\U{0c}" + z;
    assert x + "\U{0c}" + z == x + y;
    FragsOf(x, y);
    var s := y + "\n";
    FirstBreakIs(s, 0);
    SplitStep(s);
    assert s[..0] == "" && s[1..] == z + "\n";
    assert Frags(y) == [""] + Frags(z);
    assert x + First(y) == x;
  }

  lemma OnePlace(body: seq<Line>)
    ensures AllPlaces([NewFileDiff(body)]) == [Place("p", 1, "", body)]
  {
    var d := [NewFileDiff(body)];
    assert AllPlaces(d[1..]) == [];
    var h := Hunk([], body, "");
    assert Places("p", [h][1..], 0 + |NewSide(body)|) == [];
    assert Places("p", [h], 0) == [Place("p", 1, "", body)];
  }

  lemma OneFileValid(body: seq<Line>)
    requires forall k :: 0 <= k < |body| ==> body[k].NoNewline? || OneLine(body[k].text)
    ensures ValidDiff([NewFileDiff(body)])
  {
  }

  /** A form feed in an added line spoils the yields. */
  lemma FormFeedInAdded()
    ensures var d := [NewFileDiff([Added("a\U{0c} b"), Added("c")])];
      ValidDiff(d) && AddedLines(Unlines(PrintDiff(d))) != Expected(AllPlaces(d))
  {
    hide AddedLines, PrintDiff, Expected, AllPlaces, ValidDiff;
    var body := [Added("a\U{0c} b"), Added("c")];
    var d := [NewFileDiff(body)];
    OneFileValid(body);
    OnePlace(body);
    assert IsBreak(body[0].text[1]);
    assert !WholeAdded(AllPlaces(d)[0].body);
    if AddedLines(Unlines(PrintDiff(d))) == Expected(AllPlaces(d)) {
      AddedMustBeWhole(d);
    }
  }

  /** A form feed in a line that is there already moves the number of the next added line. */
  lemma FormFeedInContext()
    ensures var d := [NewFileDiff([Context("a\U{0c} b"), Added("c")])];
      ValidDiff(d) && AddedLines(Unlines(PrintDiff(d))) != Expected(AllPlaces(d))
  {
    hide AddedLines, PrintDiff, Expected, AllPlaces, ValidDiff, AllWholeAdded, NoKnocks, Frags, Fragments, Unlines;
    hide NoPlusPlace;
    var body := [Context("a\U{0c} b"), Added("c")];
    var d := [NewFileDiff(body)];
    var p := Place("p", 1, "", body);
    OneFileValid(body);
    OnePlace(body);
    FormFeedPlace();
    assert body[1..] == [Added("c")] && body[1..][1..] == [];
    WholeTracksIff(d);
    assert !Steady(On(1), 2, body[1..]);
    assert !SteadyPlace([p][0]);
  }

  lemma FormFeedPlace()
    ensures var p := Place("p", 1, "", [Context("a\U{0c} b"), Added("c")]);
      && Rest("") == [] && Rest("a\U{0c} b") == [" b"] && Rest("c") == [] && NoPlusPlace(p)
      && Fragments(On(0), 1, []) == On(0) && Fragments(On(0), 2, [" b"]) == On(1)
  {
    hide Frags, HunkStart;
    FormFeedFrags("a", " b");
    UnbrokenFrags(" b");
    UnbrokenFrags("c");
    UnbrokenFrags("");
    assert "a" + "\U{0c}" + " b" == "a\U{0c} b";
    BodyHead(" b");
    assert [" b"][1..] == [];
  }

  /** One fragment read as the added line, another that hides the added line itself. */
  const CANCEL: string := "x\U{0c}+c\U{0c}index z"

  lemma CancelFrags()
    ensures First(CANCEL) == "x" && Rest(CANCEL) == ["+c", "index z"]
  {
    hide Frags;
    FormFeedFrags("x", "+c\U{0c}index z");
    FormFeedFrags("+c", "index z");
    UnbrokenFrags("index z");
    assert "x" + "\U{0c}" + "+c\U{0c}index z" == CANCEL;
    assert "+c" + "\U{0c}" + "index z" == "+c\U{0c}index z";
  }

  lemma CancelRun()
    ensures Run(State(Some("p"), true, 2), ["+c", "index z"]) == (State(Some("p"), false, 3), [Yield("p", 2, "c")])
  {
    hide Step;
    var st, now := State(Some("p"), true, 2), State(Some("p"), true, 3);
    StepInHunk(st, Added("c"));
    assert PrintLine(Added("c")) == "+c";
    IndexStep(now);
    RunOne(now, "index z");
    assert ["+c", "index z"][1..] == ["index z"];
    assert [Yield("p", 2, "c")] + [] == [Yield("p", 2, "c")];
  }

  lemma IndexStep(st: State)
    ensures Step(st, "index z") == (st.(inHunk := false), [])
  {
    assert "index z"[0..6] == "index ";
  }

  lemma CancelBody()
    ensures RunBody(State(Some("p"), true, 1), [Context(CANCEL), Added("c")]).1 == [Yield("p", 2, "c")]
  {
    hide Step, Frags, Run, RunBody;
    var st := State(Some("p"), true, 1);
    var body := [Context(CANCEL), Added("c")];
    CancelFrags();
    UnbrokenFrags("c");
    RunBodyStep(st, body);
    StepInHunk(st, Context("x"));
    assert Whole(body[0]) == Context("x") && Tail(body[0]) == ["+c", "index z"];
    assert Step(st, PrintLine(Whole(body[0]))) == (State(Some("p"), true, 2), []);
    CancelRun();
    var out := State(Some("p"), false, 3);
    assert Run(State(Some("p"), true, 2), Tail(body[0])) == (out, [Yield("p", 2, "c")]);
    assert body[1..] == [Added("c")];
    LostLine(out);
    var none: seq<Yield> := [];
    assert none + [Yield("p", 2, "c")] + none == [Yield("p", 2, "c")];
  }

  lemma LostLine(st: State)
    requires !st.inHunk
    ensures RunBody(st, [Added("c")]).1 == []
  {
    hide Step, Frags, Run, RunBody;
    var body := [Added("c")];
    UnbrokenFrags("c");
    RunBodyStep(st, body);
    StepOutside(st, Added("c"));
    assert Whole(body[0]) == Added("c") && Tail(body[0]) == [];
    RunNothing(st);
    NoBody(st);
    assert body[1..] == [];
    assert Step(st, PrintLine(Whole(body[0]))) == (st, []) && Run(st, Tail(body[0])) == (st, []);
    var none: seq<Yield> := [];
    assert none + none + none == none;
  }

  lemma CancelHunk(st: State, h: Hunk)
    requires st.path == Some("p") && h == Hunk([], [Context(CANCEL), Added("c")], "")
    ensures RunHunk(st, 0, 0, h).1 == [Yield("p", 2, "c")]
  {
    hide RunBody, Run, Frags, RunHunk;
    RunHunkIs(st, 0, 0, h);
    UnbrokenFrags("");
    assert Rest("") == [];
    assert NewSide(h.body[1..]) == ["c"] by { assert h.body[1..] == [Added("c")] && h.body[1..][1..] == []; }
    var start := State(Some("p"), true, 1);
    assert |NewSide(h.body)| == 2;
    RunNothing(start);
    CancelBody();
    assert [] + RunBody(start, h.body).1 == RunBody(start, h.body).1;
  }

  lemma OneFileRun(f: FileDiff)
    requires ValidFile(f) && |f.hunks| == 1 && f.hunks[0].gap == []
    ensures RunLines(START, PrintDiff([f])).1 == RunHunk(RunLines(START, FileHead(f)).0, 0, 0, f.hunks[0]).1
  {
    hide RunLines, RunHunk, HunkHeader, FileHead, PrintHunks, ValidFile;
    assert PrintDiff([f]) == PrintFile(f) by { LastFile(f); }
    FileParts(f);
    HeadRun(START, f);
    var mid := RunLines(START, FileHead(f)).0;
    RunLinesConcat(START, FileHead(f), PrintHunks(f.hunks, 0, 0));
    HunksStep(mid, f.hunks, 0, 0);
    assert f.hunks[1..] == [];
    var one := RunHunk(mid, 0, 0, f.hunks[0]);
    NoHunks(one.0, f.path, 0 + |OldSide(f.hunks[0].body)|, 0 + |NewSide(f.hunks[0].body)|);
    assert [] + (one.1 + []) == one.1;
  }

  lemma LastFile(f: FileDiff)
    ensures PrintDiff([f]) == PrintFile(f)
  {
    hide PrintFile;
    assert [f][1..] == [];
    assert PrintFile(f) + [] == PrintFile(f);
  }

  /** So a diff with both kinds of fragments may come out right although the tracker has lost its way. */
  lemma FragmentsCancel()
    ensures var d := [NewFileDiff([Context(CANCEL), Added("c")])];
      && ValidDiff(d) && !NoPluses(AllPlaces(d)) && !NoQuits(AllPlaces(d))
      && AddedLines(Unlines(PrintDiff(d))) == Expected(AllPlaces(d))
  {
    hide AddedLines, PrintDiff, Frags, Unlines, RunLines, RunHunk, FileHead, PrintHunks, Expected, AllPlaces;
    hide HunkStart, NewPath;
    var body := [Context(CANCEL), Added("c")];
    var f := NewFileDiff(body);
    CancelOneLine();
    OneFileValid(body);
    OnePlace(body);
    CancelFrags();
    assert StartsWith("+c", "+", 0) && StartsWith("index z", "index ", 0) by { CancelHeads(); }
    var p := Place("p", 1, "", body);
    assert Tail(body[0])[0] == "+c" && Tail(body[0])[1] == "index z";
    assert !NoPlusPlace([p][0]) && !NoQuitPlace([p][0]);
    AddedLinesAre([f]);
    assert ValidFile([f][0]);
    OneFileRun(f);
    HeadRun(START, f);
    CancelHunk(RunLines(START, FileHead(f)).0, f.hunks[0]);
    CancelExpected();
  }

  lemma CancelOneLine()
    ensures OneLine(CANCEL) && OneLine("c")
  {
  }

  lemma CancelHeads()
    ensures StartsWith("+c", "+", 0) && StartsWith("index z", "index ", 0)
  {
    assert "+c"[0..1] == "+" && "index z"[0..6] == "index ";
  }

  lemma CancelExpected()
    ensures Expected([Place("p", 1, "", [Context(CANCEL), Added("c")])]) == [Yield("p", 2, "c")]
  {
    var body := [Context(CANCEL), Added("c")];
    assert body[1..] == [Added("c")] && body[1..][1..] == [];
    assert Numbered("p", 3, []) == [];
    assert Numbered("p", 2, [Added("c")]) == [Yield("p", 2, "c")] + [];
    assert Numbered("p", 1, body) == [Yield("p", 2, "c")];
    var p := Place("p", 1, "", body);
    assert [p][1..] == [] && Expected([]) == [];
    assert Expected([p]) == Numbered("p", 1, body) + [];
  }
}
