/** The text the leftover patterns of `output_gate.py` look at: comments gone, literals blanked.

    A text is read as a list of tokens. `Lex` and `Print` are inverse to each other, so every
    statement about token lists is a statement about texts. */
module Scrub {
  import opened Basics
  import opened Text

  datatype Token =
    | Code(c: char)
    | LineComment(text: string)
    | BlockComment(text: string)
    | OpenComment(text: string)
    | Literal(text: string)
    | OpenLiteral(text: string)

  // ----- printing -----

  function Double(x: string): string {
    if x == [] then [] else (if x[0] == '\'' then "''" else [x[0]]) + Double(x[1..])
  }

  function PrintOne(t: Token): (s: string)
    ensures s != []
  {
    match t
    case Code(c) => [c]
    case LineComment(x) => "--" + x
    case BlockComment(x) => "/*" + x + "*/"
    case OpenComment(x) => "/*" + x
    case Literal(x) => "'" + Double(x) + "'"
    case OpenLiteral(x) => "'" + Double(x)
  }

  function Print(ts: seq<Token>): string {
    if ts == [] then [] else PrintOne(ts[0]) + Print(ts[1..])
  }

  predicate Starts(s: string, c: char) {
    s != [] && s[0] == c
  }

  predicate NoClose(x: string) {
    forall k :: 0 <= k < |x| ==> !Two(x, k, '*', '/')
  }

  /** The token ends where it should when `next` is the text printed after it. */
  predicate Fits(t: Token, next: string) {
    match t
    case Code(c) => c != '\'' && !(c == '-' && Starts(next, '-')) && !(c == '/' && Starts(next, '*'))
    case LineComment(x) => '\n' !in x && (next == [] || next[0] == '\n')
    case BlockComment(x) => NoClose(x)
    case OpenComment(x) => NoClose(x) && next == []
    case Literal(_) => !Starts(next, '\'')
    case OpenLiteral(_) => next == []
  }

  predicate Unambiguous(ts: seq<Token>) {
    ts == [] || (Fits(ts[0], Print(ts[1..])) && Unambiguous(ts[1..]))
  }

  // ----- what the scrubbed text keeps -----

  function Newlines(k: nat): string {
    seq(k, _ => '\n')
  }

  function Blank(t: Token): string {
    match t
    case Code(c) => [c]
    case LineComment(_) => []
    case BlockComment(x) => Newlines(Count(x, '\n'))
    case OpenComment(x) => Newlines(Count(x, '\n'))
    case Literal(x) => if x == [] then "''" else "'x'"
    case OpenLiteral(x) => if x == [] then "''" else "'x'"
  }

  function Skeleton(ts: seq<Token>): string {
    if ts == [] then [] else Blank(ts[0]) + Skeleton(ts[1..])
  }

  // ----- reading -----

  /** What stands between the opening quote and the closing one, doubled quotes read as one. */
  function Content(s: string): (x: string)
    ensures |Double(x)| <= |s| && s[..|Double(x)|] == Double(x)
    ensures |Double(x)| < |s| ==> s[|Double(x)|] == '\'' && !Two(s, |Double(x)|, '\'', '\'')
  {
    if s == [] then []
    else if s[0] != '\'' then
      var x := [s[0]] + Content(s[1..]);
      assert x[1..] == Content(s[1..]);
      x
    else if Two(s, 0, '\'', '\'') then
      var x := ['\''] + Content(s[2..]);
      assert x[1..] == Content(s[2..]);
      x
    else []
  }

  function FirstToken(s: string): Token
    requires s != []
  {
    if Two(s, 0, '-', '-') then
      var nl := FindChar(s, '\n', 0);
      LineComment(if nl == -1 then s[2..] else s[2..nl])
    else if Two(s, 0, '/', '*') then
      var close := FindPair(s, '*', '/', 2);
      if close == -1 then OpenComment(s[2..]) else BlockComment(s[2..close])
    else if s[0] == '\'' then
      var x := Content(s[1..]);
      if 1 + |Double(x)| == |s| then OpenLiteral(x) else Literal(x)
    else Code(s[0])
  }

  lemma LineFits(s: string)
    requires Two(s, 0, '-', '-')
    ensures PrintOne(FirstToken(s)) <= s
    ensures Fits(FirstToken(s), s[|PrintOne(FirstToken(s))|..])
  {
    var t := FirstToken(s);
    assert s[..2] == "--";
    var nl := FindChar(s, '\n', 0);
    assert nl != -1 ==> nl >= 2;
    assert s == s[..2] + s[2..];
    assert nl != -1 ==> s[..nl] == s[..2] + s[2..nl];
  }

  lemma CommentFits(s: string)
    requires Two(s, 0, '/', '*')
    ensures PrintOne(FirstToken(s)) <= s
    ensures Fits(FirstToken(s), s[|PrintOne(FirstToken(s))|..])
  {
    var x := FirstToken(s).text;
    assert s[..2] == "/*";
    var close := FindPair(s, '*', '/', 2);
    assert forall k :: 0 <= k < |x| ==> x[k] == s[k + 2];
    forall k | 0 <= k < |x| ensures !Two(x, k, '*', '/') {
      assert !Two(s, k + 2, '*', '/');
    }
    if close != -1 {
      assert s[close..close + 2] == "*/";
      assert s[..close + 2] == s[..2] + s[2..close] + s[close..close + 2];
    } else {
      assert s == s[..2] + s[2..];
    }
  }

  lemma LiteralFits(s: string)
    requires Starts(s, '\'')
    ensures PrintOne(FirstToken(s)) <= s
    ensures Fits(FirstToken(s), s[|PrintOne(FirstToken(s))|..])
  {
    hide Content, Double;
    var rest := s[1..];
    var x := Content(rest);
    var e := |Double(x)|;
    assert s == ['\''] + rest;
    assert s[..1 + e] == ['\''] + Double(x);
    if e < |rest| {
      assert s[1 + e] == rest[e] == '\'';
      assert s[..2 + e] == ['\''] + Double(x) + ['\''];
      assert !Two(rest, e, '\'', '\'');
      assert e + 1 < |rest| ==> s[2 + e] == rest[e + 1];
    }
  }

  lemma FirstTokenPrints(s: string)
    requires s != []
    ensures PrintOne(FirstToken(s)) <= s
    ensures Fits(FirstToken(s), s[|PrintOne(FirstToken(s))|..])
  {
    if Two(s, 0, '-', '-') {
      LineFits(s);
    } else if Two(s, 0, '/', '*') {
      CommentFits(s);
    } else if s[0] == '\'' {
      LiteralFits(s);
    } else {
      assert FirstToken(s) == Code(s[0]);
    }
  }

  function Lex(s: string): seq<Token> {
    if s == [] then []
    else
      FirstTokenPrints(s);
      [FirstToken(s)] + Lex(s[|PrintOne(FirstToken(s))|..])
  }

  /** Every text is the print of its tokens, and they are unambiguous. */
  lemma {:induction false} PrintLex(s: string)
    ensures Print(Lex(s)) == s && Unambiguous(Lex(s))
  {
    hide FirstToken, PrintOne, Fits;
    if s == [] {
      assert Lex(s) == [];
    } else {
      FirstTokenPrints(s);
      var t := FirstToken(s);
      var rest := s[|PrintOne(t)|..];
      PrintLex(rest);
      assert Lex(s) == [t] + Lex(rest);
      assert s == PrintOne(t) + rest;
    }
  }

  lemma NoContent(y: string)
    requires y == [] || (y[0] == '\'' && !Two(y, 0, '\'', '\''))
    ensures Content(y) == []
  {
  }

  lemma {:induction false} ContentOfDouble(x: string, y: string)
    requires y == [] || (y[0] == '\'' && !Two(y, 0, '\'', '\''))
    ensures Content(Double(x) + y) == x
  {
    hide Content;
    if x == [] {
      assert Double(x) + y == y;
      NoContent(y);
    } else {
      ContentOfDouble(x[1..], y);
      ContentStep(x[0], Double(x[1..]) + y);
      var h := if x[0] == '\'' then "''" else [x[0]];
      assert Double(x) == h + Double(x[1..]);
      assert (h + Double(x[1..])) + y == h + (Double(x[1..]) + y);
      assert x == [x[0]] + x[1..];
    }
  }

  lemma ContentStep(c: char, r: string)
    ensures Content((if c == '\'' then "''" else [c]) + r) == [c] + Content(r)
  {
    var s := (if c == '\'' then "''" else [c]) + r;
    if c == '\'' {
      assert s[2..] == r;
    } else {
      assert s[1..] == r;
    }
  }

  lemma FirstOfLine(x: string, next: string)
    requires Fits(LineComment(x), next)
    ensures FirstToken("--" + x + next) == LineComment(x)
  {
    var s := "--" + x + next;
    var nl := FindChar(s, '\n', 0);
    assert forall k :: 0 <= k < |x| ==> s[k + 2] == x[k];
    assert forall k :: 2 <= k < |x| + 2 ==> s[k] == x[k - 2];
    if next == [] {
      assert nl == -1;
      assert s[2..] == x;
    } else {
      assert s[|x| + 2] == '\n';
      assert nl == |x| + 2;
      assert s[2..nl] == x;
    }
  }

  lemma FirstOfOpen(x: string)
    requires NoClose(x)
    ensures FirstToken("/*" + x) == OpenComment(x)
  {
    var s := "/*" + x;
    assert s[2..] == x;
    forall k | 2 <= k < |s| ensures !Two(s, k, '*', '/') {
      assert !Two(x, k - 2, '*', '/');
    }
  }

  lemma FirstOfBlock(x: string, next: string)
    requires NoClose(x)
    ensures FirstToken("/*" + x + "*/" + next) == BlockComment(x)
  {
    var s := "/*" + x + "*/" + next;
    assert forall k :: 2 <= k < |x| + 2 ==> s[k] == x[k - 2];
    assert s[|x| + 2] == '*' && s[|x| + 3] == '/';
    forall k | 2 <= k < |x| + 2 ensures !Two(s, k, '*', '/') {
      assert !Two(x, k - 2, '*', '/');
    }
    assert Two(s, |x| + 2, '*', '/');
    assert s[2..|x| + 2] == x;
  }

  lemma FirstOfLiteral(t: Token, next: string)
    requires Fits(t, next) && (t.Literal? || t.OpenLiteral?)
    ensures FirstToken(PrintOne(t) + next) == t
  {
    hide Content, Double;
    var s := PrintOne(t) + next;
    var y := if t.Literal? then ['\''] + next else [];
    var d := Double(t.text);
    assert s[1..] == d + y;
    ContentOfDouble(t.text, y);
    assert Content(s[1..]) == t.text;
  }

  lemma FirstOfPrint(t: Token, next: string)
    requires Fits(t, next)
    ensures FirstToken(PrintOne(t) + next) == t
  {
    match t
    case Code(c) =>
    case Literal(_) => FirstOfLiteral(t, next);
    case OpenLiteral(_) => FirstOfLiteral(t, next);
    case LineComment(x) => FirstOfLine(x, next);
    case OpenComment(x) =>
      FirstOfOpen(x);
      assert PrintOne(t) + next == PrintOne(t);
    case BlockComment(x) => FirstOfBlock(x, next);
  }

  lemma LexStep(t: Token, next: string)
    requires FirstToken(PrintOne(t) + next) == t
    ensures Lex(PrintOne(t) + next) == [t] + Lex(next)
  {
    hide FirstToken, PrintOne, Fits;
    assert (PrintOne(t) + next)[|PrintOne(t)|..] == next;
  }

  /** An unambiguous list is read back from its print, so it is the only reading of that text. */
  lemma {:induction false} LexPrint(ts: seq<Token>)
    requires Unambiguous(ts)
    ensures Lex(Print(ts)) == ts
  {
    hide FirstToken, PrintOne, Fits;
    if ts == [] {
      assert Print(ts) == [];
    } else {
      var next := Print(ts[1..]);
      FirstOfPrint(ts[0], next);
      LexPrint(ts[1..]);
      LexStep(ts[0], next);
      assert ts == [ts[0]] + ts[1..];
    }
  }

  // ----- the scanner -----

  function Scrubbed(s: string): string {
    Skeleton(Lex(s))
  }

  /** Scrubbing the print of an unambiguous token list gives its skeleton. */
  lemma ScrubPrint(ts: seq<Token>)
    requires Unambiguous(ts)
    ensures Scrubbed(Print(ts)) == Skeleton(ts)
  {
    LexPrint(ts);
  }

  function From(s: string, i: nat): string {
    if i <= |s| then s[i..] else []
  }

  lemma ScrubStep(s: string, i: nat, next: nat)
    requires i < |s|
    requires next == i + |PrintOne(FirstToken(s[i..]))| ||
      (next == |s| + 1 && i + |PrintOne(FirstToken(s[i..]))| == |s|)
    ensures Scrubbed(s[i..]) == Blank(FirstToken(s[i..])) + Scrubbed(From(s, next))
  {
    hide FirstToken, Blank;
    var u := s[i..];
    FirstTokenPrints(u);
    var k := |PrintOne(FirstToken(u))|;
    assert u[k..] == From(s, next);
    assert Lex(u)[1..] == Lex(From(s, next));
  }

  lemma CommentNewlines(x: string)
    ensures Count("/*" + x, '\n') == Count(x, '\n')
    ensures Count("/*" + x + "*/", '\n') == Count(x, '\n')
  {
    CountNone("/*", '\n');
    CountNone("*/", '\n');
    CountConcat("/*", x, '\n');
    CountConcat("/*" + x, "*/", '\n');
  }

  lemma FindCharFrom(s: string, c: char, i: nat)
    requires i <= |s|
    ensures FindChar(s[i..], c, 0) == (if FindChar(s, c, i) == -1 then -1 else FindChar(s, c, i) - i)
  {
    var u := s[i..];
    var r, q := FindChar(s, c, i), FindChar(u, c, 0);
    assert forall k :: 0 <= k < |u| ==> u[k] == s[i + k];
    assert forall k :: i <= k < |s| ==> s[k] == u[k - i];
    if r != -1 {
      assert u[r - i] == c;
    }
  }

  lemma FindPairFrom(s: string, a: char, b: char, i: nat)
    requires i + 2 <= |s|
    ensures FindPair(s[i..], a, b, 2) == (if FindPair(s, a, b, i + 2) == -1 then -1 else FindPair(s, a, b, i + 2) - i)
  {
    var u := s[i..];
    var r, q := FindPair(s, a, b, i + 2), FindPair(u, a, b, 2);
    forall k: nat | 2 <= k < |u| ensures Two(u, k, a, b) <==> Two(s, i + k, a, b) {
    }
    if r != -1 {
      assert Two(u, r - i, a, b);
    }
    if q != -1 {
      assert Two(s, i + q, a, b);
    }
  }

  lemma LineAt(s: string, i: nat)
    requires Two(s, i, '-', '-')
    ensures Blank(FirstToken(s[i..])) == []
    ensures var nl := FindChar(s, '\n', i); i + |PrintOne(FirstToken(s[i..]))| == if nl == -1 then |s| else nl
  {
    assert Two(s[i..], 0, '-', '-');
    FindCharFrom(s, '\n', i);
    var q := FindChar(s[i..], '\n', 0);
    assert q != -1 ==> q >= 2;
  }

  function CommentEnd(s: string, i: nat): (end: nat)
    requires Two(s, i, '/', '*')
    ensures i + 2 <= end <= |s|
  {
    var close := FindPair(s, '*', '/', i + 2);
    if close == -1 then |s| else close + 2
  }

  lemma CommentAt(s: string, i: nat)
    requires Two(s, i, '/', '*')
    ensures Blank(FirstToken(s[i..])) == Newlines(Count(s[i..CommentEnd(s, i)], '\n'))
    ensures i + |PrintOne(FirstToken(s[i..]))| == CommentEnd(s, i)
  {
    var u := s[i..];
    var end := CommentEnd(s, i);
    assert Two(u, 0, '/', '*');
    FindPairFrom(s, '*', '/', i);
    CommentFits(u);
    var t := FirstToken(u);
    assert |PrintOne(t)| == end - i;
    assert u[..end - i] == s[i..end];
    assert PrintOne(t) == s[i..end];
    CommentNewlines(t.text);
  }

  lemma ContentAt(s: string, j: nat)
    requires j < |s|
    ensures s[j] != '\'' ==> Content(s[j..]) == [s[j]] + Content(s[j + 1..])
    ensures Two(s, j, '\'', '\'') ==> Content(s[j..]) == ['\''] + Content(s[j + 2..])
    ensures s[j] == '\'' && !Two(s, j, '\'', '\'') ==> Content(s[j..]) == []
    ensures s[j] != '\'' ==> |Double(Content(s[j..]))| == 1 + |Double(Content(s[j + 1..]))|
    ensures Two(s, j, '\'', '\'') ==> |Double(Content(s[j..]))| == 2 + |Double(Content(s[j + 2..]))|
  {
    var u := s[j..];
    assert u[0] == s[j];
    if s[j] != '\'' {
      assert u[1..] == s[j + 1..];
      DoubleHead(s[j], Content(s[j + 1..]));
    } else if Two(s, j, '\'', '\'') {
      assert Two(u, 0, '\'', '\'');
      assert u[2..] == s[j + 2..];
      DoubleHead(s[j], Content(s[j + 2..]));
    }
  }

  lemma DoubleHead(c: char, x: string)
    ensures Double([c] + x) == (if c == '\'' then "''" else [c]) + Double(x)
  {
    assert ([c] + x)[1..] == x;
  }

  lemma LiteralAt(s: string, i: nat, j: nat)
    requires i < |s| && s[i] == '\'' && j == i + 1 + |Double(Content(s[i + 1..]))|
    ensures Blank(FirstToken(s[i..])) == if j == i + 1 then "''" else "'x'"
    ensures j < |s| ==> j + 1 == i + |PrintOne(FirstToken(s[i..]))|
    ensures j == |s| ==> j == i + |PrintOne(FirstToken(s[i..]))|
  {
    hide Content;
    var u := s[i..];
    assert u[1..] == s[i + 1..];
    var x := Content(s[i + 1..]);
    assert FirstToken(u) == if 1 + |Double(x)| == |u| then OpenLiteral(x) else Literal(x);
    assert x == [] <==> Double(x) == [];
  }

  lemma CodeAt(s: string, i: nat)
    requires i < |s| && s[i] != '\'' && !Two(s, i, '-', '-') && !Two(s, i, '/', '*')
    ensures FirstToken(s[i..]) == Code(s[i])
  {
    var u := s[i..];
    assert forall k :: 0 <= k < |u| ==> u[k] == s[i + k];
  }

  lemma LineGone(s: string, i: nat, next: nat)
    requires Two(s, i, '-', '-') && next == (if FindChar(s, '\n', i) == -1 then |s| else FindChar(s, '\n', i))
    ensures Scrubbed(From(s, i)) == Scrubbed(From(s, next))
  {
    hide FirstToken, PrintOne, Scrubbed;
    LineAt(s, i);
    ScrubStep(s, i, next);
  }

  lemma CommentBlank(s: string, i: nat)
    requires Two(s, i, '/', '*')
    ensures Scrubbed(From(s, i)) == Newlines(Count(s[i..CommentEnd(s, i)], '\n')) + Scrubbed(From(s, CommentEnd(s, i)))
  {
    hide FirstToken, PrintOne, Scrubbed, CommentEnd;
    CommentAt(s, i);
    ScrubStep(s, i, CommentEnd(s, i));
  }

  lemma LiteralBlank(s: string, i: nat, j: nat)
    requires i < |s| && s[i] == '\'' && j == i + 1 + |Double(Content(s[i + 1..]))|
    ensures Scrubbed(From(s, i)) == (if j == i + 1 then "''" else "'x'") + Scrubbed(From(s, j + 1))
  {
    hide FirstToken, PrintOne, Scrubbed, Content, Double;
    LiteralAt(s, i, j);
    ScrubStep(s, i, j + 1);
  }

  lemma CodeKept(s: string, i: nat)
    requires i < |s| && s[i] != '\'' && !Two(s, i, '-', '-') && !Two(s, i, '/', '*')
    ensures Scrubbed(From(s, i)) == [s[i]] + Scrubbed(From(s, i + 1))
  {
    hide FirstToken, Scrubbed;
    CodeAt(s, i);
    ScrubStep(s, i, i + 1);
  }

  /** The closing quote of the literal that opens at `i`, or the end of the text. */
  method LiteralClose(sql: string, i: nat) returns (j: nat)
    requires i < |sql|
    ensures i < j <= |sql|
    ensures j == i + 1 + |Double(Content(sql[i + 1..]))|
  {
    hide Content;
    var n := |sql|;
    j := i + 1;
    while j < n
      invariant i < j <= n
      invariant j + |Double(Content(sql[j..]))| == i + 1 + |Double(Content(sql[i + 1..]))|
    {
      ContentAt(sql, j);
      if sql[j] == '\'' {
        if j + 1 < n && sql[j + 1] == '\'' {
          j := j + 2;
          continue;
        }
        return;
      }
      j := j + 1;
    }
    assert |Double(Content(sql[n..]))| <= |sql[n..]|;
  }

  lemma FromStart(s: string)
    ensures From(s, 0) == s
  {
  }

  lemma FromEnd(s: string, i: nat)
    requires i >= |s|
    ensures From(s, i) == []
  {
  }

  lemma TwoFits(s: string, i: nat, a: char, b: char)
    requires Two(s, i, a, b)
    ensures i + 2 <= |s| && s[i] == a
  {
  }

  /** `scrub`: one scan from left to right computes the skeleton of the text's tokens. */
  method Scrub(sql: string) returns (text: string)
    ensures text == Scrubbed(sql)
  {
    hide Scrubbed, Content, Double, Count, Newlines, From, Two;
    var out: string := [];
    var i, n := 0, |sql|;
    FromStart(sql);
    while i < n
      invariant Scrubbed(sql) == out + Scrubbed(From(sql, i))
      decreases n - i
    {
      if Two(sql, i, '-', '-') {
        TwoFits(sql, i, '-', '-');
        var nl := FindChar(sql, '\n', i);
        LineGone(sql, i, if nl == -1 then n else nl);
        i := if nl == -1 then n else nl;
      } else if Two(sql, i, '/', '*') {
        TwoFits(sql, i, '/', '*');
        var close := FindPair(sql, '*', '/', i + 2);
        var end := if close == -1 then n else close + 2;
        CommentBlank(sql, i);
        Regroup(out, Newlines(Count(sql[i..end], '\n')), Scrubbed(From(sql, end)));
        out := out + Newlines(Count(sql[i..end], '\n'));
        i := end;
      } else if sql[i] == '\'' {
        var j := LiteralClose(sql, i);
        LiteralBlank(sql, i, j);
        Regroup(out, if j == i + 1 then "''" else "'x'", Scrubbed(From(sql, j + 1)));
        out := out + (if j == i + 1 then "''" else "'x'");
        i := j + 1;
      } else {
        CodeKept(sql, i);
        Regroup(out, [sql[i]], Scrubbed(From(sql, i + 1)));
        out := out + [sql[i]];
        i := i + 1;
      }
    }
    FromEnd(sql, i);
    ScrubbedEnd();
    text := out;
  }

  lemma ScrubbedEnd()
    ensures Scrubbed([]) == []
  {
  }

  // ----- what leftover detection can see -----

  /** One entry of a leftover table: a regex and the label it reports. */
  datatype Pattern = Pattern(found: string -> bool, tag: string)

  function Labels(patterns: seq<Pattern>, text: string): seq<string> {
    if patterns == [] then []
    else Labels(patterns[..|patterns| - 1], text) +
         (if patterns[|patterns| - 1].found(text) then [patterns[|patterns| - 1].tag] else [])
  }

  /** The labels are the tags of the patterns that are found, all of them, in table order: `at` says
      where they stand in the table. */
  ghost predicate LabelsAt(patterns: seq<Pattern>, text: string, labels: seq<string>, at: seq<nat>) {
    && |at| == |labels|
    && (forall j :: 0 <= j < |at| ==> at[j] < |patterns| && labels[j] == patterns[at[j]].tag)
    && (forall j, k :: 0 <= j < k < |at| ==> at[j] < at[k])
    && (forall k: nat :: k < |patterns| ==> (k in at <==> patterns[k].found(text)))
  }

  lemma LabelsGrow(patterns: seq<Pattern>, x: Pattern, text: string, labels: seq<string>, at: seq<nat>)
    requires LabelsAt(patterns, text, labels, at)
    ensures x.found(text) ==> LabelsAt(patterns + [x], text, labels + [x.tag], at + [|patterns|])
    ensures !x.found(text) ==> LabelsAt(patterns + [x], text, labels, at)
  {
    var now, n := patterns + [x], |patterns|;
    assert now[n] == x && forall k :: 0 <= k < n ==> now[k] == patterns[k];
    assert n !in at;
    forall k: nat | k < |now| ensures k in at + [n] <==> k in at || k == n {
    }
  }

  lemma {:induction false} LabelsAre(patterns: seq<Pattern>, text: string) returns (at: seq<nat>)
    ensures LabelsAt(patterns, text, Labels(patterns, text), at)
  {
    hide LabelsAt, Labels;
    if patterns == [] {
      NoLabels(text);
      at := [];
    } else {
      var n := |patterns| - 1;
      var before := LabelsAre(patterns[..n], text);
      assert patterns == patterns[..n] + [patterns[n]];
      LabelsGrow(patterns[..n], patterns[n], text, Labels(patterns[..n], text), before);
      LabelsStep(patterns, text);
      at := if patterns[n].found(text) then before + [n] else before;
    }
  }

  lemma NoLabels(text: string)
    ensures LabelsAt([], text, Labels([], text), [])
  {
  }

  lemma LabelsStep(patterns: seq<Pattern>, text: string)
    requires patterns != []
    ensures var n := |patterns| - 1; var before := Labels(patterns[..n], text);
      Labels(patterns, text) == if patterns[n].found(text) then before + [patterns[n].tag] else before
  {
  }

  method FindLeftoverTokens(sql: string, patterns: seq<Pattern>) returns (found: seq<string>)
    ensures found == Labels(patterns, Scrubbed(sql))
  {
    hide Scrubbed;
    var text := Scrub(sql);
    found := [];
    for k := 0 to |patterns|
      invariant found == Labels(patterns[..k], text)
    {
      assert patterns[..k + 1][..k] == patterns[..k];
      if patterns[k].found(text) {
        found := found + [patterns[k].tag];
      }
    }
    assert patterns[..|patterns|] == patterns;
  }

  /** The same code; comments and literals may differ, but not in the lines a block comment spans
      nor in whether a literal is empty. */
  predicate SameCode(t: Token, u: Token) {
    match t
    case Code(c) => u == Code(c)
    case LineComment(_) => u.LineComment?
    case BlockComment(x) => u.BlockComment? && Count(x, '\n') == Count(u.text, '\n')
    case OpenComment(x) => u.OpenComment? && Count(x, '\n') == Count(u.text, '\n')
    case Literal(x) => u.Literal? && (x == [] <==> u.text == [])
    case OpenLiteral(x) => u.OpenLiteral? && (x == [] <==> u.text == [])
  }

  predicate SameCodes(ts: seq<Token>, us: seq<Token>) {
    |ts| == |us| && forall k :: 0 <= k < |ts| ==> SameCode(ts[k], us[k])
  }

  lemma {:induction false} SameSkeleton(ts: seq<Token>, us: seq<Token>)
    requires SameCodes(ts, us)
    ensures Skeleton(ts) == Skeleton(us)
  {
    if ts != [] {
      assert SameCode(ts[0], us[0]);
      SameSkeleton(ts[1..], us[1..]);
    }
  }

  /** Leftover detection cannot depend on comment text, nor on literals beyond their emptiness. */
  lemma LeftoversSeeOnlyCode(s: string, r: string, patterns: seq<Pattern>)
    requires SameCodes(Lex(s), Lex(r))
    ensures Labels(patterns, Scrubbed(s)) == Labels(patterns, Scrubbed(r))
  {
    SameSkeleton(Lex(s), Lex(r));
  }

  // ----- lines -----

  function LiteralNewlines(ts: seq<Token>): nat {
    if ts == [] then 0
    else (if ts[0].Literal? || ts[0].OpenLiteral? then Count(ts[0].text, '\n') else 0) + LiteralNewlines(ts[1..])
  }

  lemma {:induction false} CountDouble(x: string)
    ensures Count(Double(x), '\n') == Count(x, '\n')
  {
    if x != [] {
      CountDouble(x[1..]);
      assert x == [x[0]] + x[1..];
      CountConcat([x[0]], x[1..], '\n');
      var h := if x[0] == '\'' then "''" else [x[0]];
      CountConcat(h, Double(x[1..]), '\n');
      if x[0] == '\'' {
        CountNone("''", '\n');
        CountNone([x[0]], '\n');
      }
    }
  }

  lemma {:induction false} CountOfNewlines(k: nat)
    ensures Count(Newlines(k), '\n') == k
  {
    if k > 0 {
      assert Newlines(k)[..k - 1] == Newlines(k - 1);
      CountOfNewlines(k - 1);
    }
  }

  lemma CountQuoted(x: string)
    ensures Count("'" + Double(x), '\n') == Count(x, '\n')
    ensures Count("'" + Double(x) + "'", '\n') == Count(x, '\n')
    ensures Count("''", '\n') == 0 && Count("'x'", '\n') == 0
  {
    CountDouble(x);
    CountNone("'", '\n');
    CountNone("''", '\n');
    CountNone("'x'", '\n');
    CountConcat("'", Double(x), '\n');
    CountConcat("'" + Double(x), "'", '\n');
  }

  lemma CountToken(t: Token, next: string)
    requires Fits(t, next)
    ensures Count(PrintOne(t), '\n') == Count(Blank(t), '\n') + LiteralNewlines([t])
  {
    hide Double, Count;
    assert [t][1..] == [];
    match t
    case Code(_) =>
    case LineComment(x) =>
      CountNone("--" + x, '\n');
      CountNone([], '\n');
    case BlockComment(x) =>
      CommentNewlines(x);
      CountOfNewlines(Count(x, '\n'));
    case OpenComment(x) =>
      CommentNewlines(x);
      CountOfNewlines(Count(x, '\n'));
    case Literal(x) => CountQuoted(x);
    case OpenLiteral(x) => CountQuoted(x);
  }

  lemma {:induction false} NewlinesOfTokens(ts: seq<Token>)
    requires Unambiguous(ts)
    ensures Count(Print(ts), '\n') == Count(Skeleton(ts), '\n') + LiteralNewlines(ts)
  {
    hide Count, PrintOne, Blank, Fits;
    if ts != [] {
      NewlinesOfTokens(ts[1..]);
      CountToken(ts[0], Print(ts[1..]));
      assert LiteralNewlines(ts) == LiteralNewlines([ts[0]]) + LiteralNewlines(ts[1..]) by {
        assert [ts[0]][1..] == [];
      }
      CountConcat(PrintOne(ts[0]), Print(ts[1..]), '\n');
      CountConcat(Blank(ts[0]), Skeleton(ts[1..]), '\n');
    }
  }

  /** Scrubbing loses exactly the newlines inside literals, so it keeps the line of everything
      if and only if no literal spans lines. */
  lemma NewlinesKeptIff(s: string)
    ensures Count(s, '\n') == Count(Scrubbed(s), '\n') + LiteralNewlines(Lex(s))
    ensures Count(s, '\n') == Count(Scrubbed(s), '\n') <==> LiteralNewlines(Lex(s)) == 0
  {
    PrintLex(s);
    NewlinesOfTokens(Lex(s));
  }

  // ----- scrubbing twice -----

  /** Tokens scrubbing leaves as they are. */
  predicate Plain(t: Token) {
    match t
    case Code(c) => c != '\''
    case Literal(x) => x == "" || x == "x"
    case _ => false
  }

  predicate AllPlain(ts: seq<Token>) {
    forall k :: 0 <= k < |ts| ==> Plain(ts[k])
  }

  predicate IsComment(t: Token) {
    t.LineComment? || t.BlockComment? || t.OpenComment?
  }

  lemma {:induction false} CountAtMost(s: string, c: char)
    ensures Count(s, c) <= |s|
  {
    if s != [] {
      CountAtMost(s[..|s| - 1], c);
    }
  }

  lemma BlankLength(t: Token)
    ensures |Blank(t)| <= |PrintOne(t)| + (if t.OpenLiteral? then 1 else 0)
    ensures IsComment(t) ==> |Blank(t)| + 2 <= |PrintOne(t)|
  {
    if t.BlockComment? || t.OpenComment? {
      CountAtMost(t.text, '\n');
    }
  }

  /** A scrubbed text is shorter as soon as a comment goes. */
  lemma {:induction false} CommentShortens(ts: seq<Token>)
    requires Unambiguous(ts)
    ensures |Skeleton(ts)| <= |Print(ts)| + 1
    ensures (exists k :: 0 <= k < |ts| && IsComment(ts[k])) ==> |Skeleton(ts)| < |Print(ts)|
  {
    hide Blank, PrintOne;
    if ts != [] {
      CommentShortens(ts[1..]);
      BlankLength(ts[0]);
      if k :| 0 < k < |ts| && IsComment(ts[k]) {
        assert ts[1..][k - 1] == ts[k];
      }
    }
  }

  lemma PlainStays(t: Token)
    requires Plain(t)
    ensures Blank(t) == PrintOne(t)
  {
    assert Double("x") == "x" by {
      assert "x"[1..] == "";
    }
  }

  lemma {:induction false} AllPlainStays(ts: seq<Token>)
    requires AllPlain(ts)
    ensures Skeleton(ts) == Print(ts)
  {
    hide Blank, PrintOne, Plain;
    if ts != [] {
      PlainStays(ts[0]);
      AllPlainStays(ts[1..]);
    }
  }

  lemma DoubleStarts(x: string)
    requires x != []
    ensures Double(x) != [] && Double(x)[0] == x[0]
    ensures |x| > 1 && x[0] != '\'' ==> |Double(x)| > 1
    ensures |x| > 1 && x[0] != '\'' && Double(x)[1] == '\'' ==> |Double(x)| > 2 && Double(x)[2] == '\''
  {
    if |x| > 1 && x[0] != '\'' {
      var d := Double(x[1..]);
      assert Double(x) == [x[0]] + d;
      assert d[0] == x[1];
      assert x[1] == '\'' ==> |d| > 1 && d[1] == '\'';
    }
  }

  lemma LiteralStays(x: string, next: string, rest: string)
    requires "'" + Double(x) + "'" + next == (if x == [] then "''" else "'x'") + rest
    requires !Starts(rest, '\'')
    ensures x == "" || x == "x"
  {
    hide Double;
    if x != [] {
      DoubleStarts(x);
      var p, q := "'" + Double(x) + "'" + next, "'x'" + rest;
      assert p == q && p[1] == Double(x)[0] && q[1] == 'x' && q[2] == '\'';
      assert p[2] == if |Double(x)| > 1 then Double(x)[1] else '\'';
      assert |Double(x)| > 2 ==> p[3] == Double(x)[2];
      assert |q| > 3 ==> q[3] == rest[0];
    }
  }

  lemma OpenChanges(x: string)
    ensures "'" + Double(x) != if x == [] then "''" else "'x'"
  {
    if x != [] {
      DoubleStarts(x);
      var p := "'" + Double(x);
      assert p[1] == Double(x)[0];
      assert |Double(x)| > 1 ==> p[2] == Double(x)[1];
      assert |x| == 1 ==> x[1..] == [];
    }
  }

  /** Without comments, the skeleton starts with a quote only where the text does. */
  lemma UnquotedSkeleton(ts: seq<Token>)
    requires forall k :: 0 <= k < |ts| ==> !IsComment(ts[k])
    requires Unambiguous(ts)
    ensures Starts(Skeleton(ts), '\'') ==> Starts(Print(ts), '\'')
  {
    if ts != [] {
      assert !IsComment(ts[0]);
      assert Fits(ts[0], Print(ts[1..]));
    }
  }

  lemma {:induction false} UnchangedIsPlain(ts: seq<Token>)
    requires Unambiguous(ts) && Skeleton(ts) == Print(ts)
    requires forall k :: 0 <= k < |ts| ==> !IsComment(ts[k])
    ensures AllPlain(ts)
  {
    hide Double;
    if ts != [] {
      var t := ts[0];
      var rest := ts[1..];
      UnquotedSkeleton(rest);
      if t.Literal? {
        LiteralStays(t.text, Print(rest), Skeleton(rest));
      } else if t.OpenLiteral? {
        assert rest == [] && Skeleton(ts) == Blank(t) && Print(ts) == PrintOne(t);
        OpenChanges(t.text);
        assert false;
      }
      assert Plain(t);
      PlainStays(t);
      SplitEqual(Blank(t), Skeleton(rest), PrintOne(t), Print(rest));
      UnchangedIsPlain(rest);
      assert forall k :: 1 <= k < |ts| ==> ts[k] == rest[k - 1];
    }
  }

  /** Scrubbing leaves a text as it is exactly when it holds no comment and every literal is `''` or `'x'`. */
  lemma UnchangedIff(s: string)
    ensures Scrubbed(s) == s <==> AllPlain(Lex(s))
  {
    hide Lex, Skeleton, Print, Unambiguous, Plain;
    PrintLex(s);
    if AllPlain(Lex(s)) {
      AllPlainStays(Lex(s));
    }
    if Scrubbed(s) == s {
      CommentShortens(Lex(s));
      UnchangedIsPlain(Lex(s));
    }
  }

  /** The tokens the skeleton was printed from. */
  function Kept(t: Token): seq<Token> {
    match t
    case Code(c) => [t]
    case LineComment(_) => []
    case BlockComment(x) => seq(Count(x, '\n'), _ => Code('\n'))
    case OpenComment(x) => seq(Count(x, '\n'), _ => Code('\n'))
    case Literal(x) => [Literal(if x == [] then "" else "x")]
    case OpenLiteral(x) => [Literal(if x == [] then "" else "x")]
  }

  function Blanked(ts: seq<Token>): seq<Token> {
    if ts == [] then [] else Kept(ts[0]) + Blanked(ts[1..])
  }

  lemma PrintStep(ts: seq<Token>)
    requires ts != []
    ensures Print(ts) == PrintOne(ts[0]) + Print(ts[1..])
  {
  }

  lemma {:induction false} PrintConcat(ts: seq<Token>, us: seq<Token>)
    ensures Print(ts + us) == Print(ts) + Print(us)
  {
    hide PrintOne;
    if ts == [] {
      assert ts + us == us;
    } else {
      PrintConcat(ts[1..], us);
      assert (ts + us)[0] == ts[0] && (ts + us)[1..] == ts[1..] + us;
      PrintStep(ts + us);
      Regroup(PrintOne(ts[0]), Print(ts[1..]), Print(us));
    }
  }

  lemma {:induction false} PrintNewlines(k: nat)
    ensures Print(seq(k, _ => Code('\n'))) == Newlines(k)
  {
    var ts := seq(k, _ => Code('\n'));
    if k > 0 {
      PrintNewlines(k - 1);
      assert ts[1..] == seq(k - 1, _ => Code('\n'));
      assert Newlines(k) == "\n" + Newlines(k - 1);
    }
  }

  lemma PrintBlank(x: string)
    ensures Print([Literal(if x == [] then "" else "x")]) == if x == [] then "''" else "'x'"
  {
    var t := Literal(if x == [] then "" else "x");
    assert [t][1..] == [];
    PlainStays(t);
  }

  lemma PrintKept(t: Token, next: string)
    requires Fits(t, next)
    ensures Print(Kept(t)) == Blank(t) && AllPlain(Kept(t))
  {
    hide Count;
    match t
    case Code(c) => assert [t][1..] == [];
    case LineComment(_) =>
    case BlockComment(x) => PrintNewlines(Count(x, '\n'));
    case OpenComment(x) => PrintNewlines(Count(x, '\n'));
    case Literal(x) => PrintBlank(x);
    case OpenLiteral(x) => PrintBlank(x);
  }

  lemma {:induction false} PrintBlanked(ts: seq<Token>)
    requires Unambiguous(ts)
    ensures Print(Blanked(ts)) == Skeleton(ts) && AllPlain(Blanked(ts))
  {
    hide Fits, Kept, Blank, Plain, PrintOne;
    if ts == [] {
      assert Blanked(ts) == [];
    } else {
      PrintBlanked(ts[1..]);
      PrintKept(ts[0], Print(ts[1..]));
      PrintConcat(Kept(ts[0]), Blanked(ts[1..]));
    }
  }

  /** A plain token that meets the next one is read as something that is not plain. */
  lemma MeetingIsNotPlain(t: Token, next: string)
    requires Plain(t) && !Fits(t, next)
    ensures !Plain(FirstToken(PrintOne(t) + next))
  {
    var s := PrintOne(t) + next;
    if t.Code? {
      assert s[0] == t.c && s[1] == next[0];
    } else {
      PlainStays(t);
      assert next[0] == '\'';
      if t.text == "" {
        assert s[..3] == "'''";
        ContentAt(s, 1);
      } else {
        assert s[..4] == "'x''";
        ContentAt(s, 1);
        ContentAt(s, 2);
      }
    }
  }

  lemma {:induction false} PlainReadingIsUnambiguous(ts: seq<Token>)
    requires AllPlain(ts) && AllPlain(Lex(Print(ts)))
    ensures Unambiguous(ts)
  {
    hide FirstToken, PrintOne, Fits, Plain;
    if ts != [] {
      var next := Print(ts[1..]);
      var s := PrintOne(ts[0]) + next;
      assert Lex(s)[0] == FirstToken(s);
      if !Fits(ts[0], next) {
        MeetingIsNotPlain(ts[0], next);
        assert false;
      }
      FirstOfPrint(ts[0], next);
      LexStep(ts[0], next);
      assert forall k :: 0 <= k < |Lex(next)| ==> Lex(next)[k] == Lex(s)[k + 1];
      PlainReadingIsUnambiguous(ts[1..]);
    }
  }

  /** Scrubbing again changes nothing exactly when no two dashes, no slash and star, and no two literals
      come together once the comments are gone. */
  lemma ScrubTwiceIff(s: string)
    ensures Scrubbed(Scrubbed(s)) == Scrubbed(s) <==> Unambiguous(Blanked(Lex(s)))
  {
    hide Lex, Skeleton, Print, Unambiguous, Plain, Blanked;
    PrintLex(s);
    var us := Blanked(Lex(s));
    PrintBlanked(Lex(s));
    UnchangedIff(Scrubbed(s));
    if Unambiguous(us) {
      LexPrint(us);
    }
    if AllPlain(Lex(Scrubbed(s))) {
      PlainReadingIsUnambiguous(us);
    }
  }

  /** Two texts on which scrubbing twice is not scrubbing once. */
  lemma ScrubTwiceDiffers()
    ensures Scrubbed("-/*c*/-") == "--" && Scrubbed("--") == ""
    ensures Scrubbed("'a'/*c*/'b'") == "'x''x'" && Scrubbed("'x''x'") == "'x'"
  {
    hide Scrubbed;
    DashesMeet();
    ReadAsComment();
    LiteralsMeet();
    ReadAsOne();
  }

  lemma DashesMeet()
    ensures Scrubbed("-/*c*/-") == "--"
  {
    hide Lex, Fits, FirstToken;
    var ts := [Code('-'), BlockComment("c"), Code('-')];
    assert ts[1..] == [BlockComment("c"), Code('-')] && ts[1..][1..] == [Code('-')] && ts[1..][1..][1..] == [];
    assert Print([Code('-')]) == "-" && Print(ts[1..]) == "/*c*/-";
    CountNone("c", '\n');
    assert Count("c", '\n') == 0;
    assert Newlines(0) == "";
    assert Skeleton([Code('-')]) == "-" && Skeleton(ts[1..]) == "-" && Skeleton(ts) == "--";
    assert Print(ts) == "-/*c*/-";
    assert Unambiguous(ts) by { MeetFits(Code('-')); }
    ScrubPrint(ts);
  }

  lemma MeetFits(t: Token)
    ensures t == Code('-') ==> Fits(t, "/*c*/-") && Fits(t, "") && Fits(BlockComment("c"), "-")
    ensures t == Literal("a") ==> Fits(t, "/*c*/'b'") && Fits(Literal("b"), "") && Fits(BlockComment("c"), "'b'")
  {
  }

  lemma ReadAsComment()
    ensures Scrubbed("--") == ""
  {
    var ts := [LineComment("")];
    assert ts[1..] == [];
    ScrubPrint(ts);
  }

  lemma LiteralsMeet()
    ensures Scrubbed("'a'/*c*/'b'") == "'x''x'"
  {
    hide Lex, Fits, FirstToken, Double;
    var ts := [Literal("a"), BlockComment("c"), Literal("b")];
    assert ts[1..] == [BlockComment("c"), Literal("b")] && ts[1..][1..] == [Literal("b")] && ts[1..][1..][1..] == [];
    DoubleOne('a');
    DoubleOne('b');
    assert Print([Literal("b")]) == "'b'" && Print(ts[1..]) == "/*c*/'b'";
    CountNone("c", '\n');
    assert Count("c", '\n') == 0;
    assert Newlines(0) == "";
    assert Skeleton([Literal("b")]) == "'x'" && Skeleton(ts[1..]) == "'x'" && Skeleton(ts) == "'x''x'";
    assert Print(ts) == "'a'/*c*/'b'";
    assert Unambiguous(ts) by { MeetFits(Literal("a")); }
    ScrubPrint(ts);
  }

  lemma DoubleOne(c: char)
    requires c != '\''
    ensures Double([c]) == [c]
  {
  }

  lemma ReadAsOne()
    ensures Scrubbed("'x''x'") == "'x'"
  {
    hide Lex, FirstToken;
    var ts := [Literal("x'x")];
    assert ts[1..] == [];
    DoubleHead('x', "'x");
    DoubleHead('\'', "x");
    DoubleOne('x');
    assert "x" + "'x" == "x'x" && "'" + "x" == "'x";
    assert Double("x'x") == "x''x";
    assert Print(ts) == "'x''x'";
    ScrubPrint(ts);
  }
}
