/** `_split_postgresql` and `_find_dollar_close` of src/unique/core/batch_splitter.py: PostgreSQL
    batches, cut at the semicolons that end their line at top level. */
module PgSplit {
  import opened Basics
  import opened Text

  predicate TagHead(c: char) {
    IsAlpha(c) || c == '_'
  }

  function NameEnd(s: string, i: nat): (j: nat)
    requires i <= |s|
    ensures i <= j <= |s|
    ensures forall k :: i <= k < j ==> IsWord(s[k])
    ensures j < |s| ==> !IsWord(s[j])
    decreases |s| - i
  {
    if i < |s| && IsWord(s[i]) then NameEnd(s, i + 1) else i
  }

  /** The length of the `$tag$` that starts at `i`; 0 if none does. */
  function TagLen(s: string, i: nat): (n: nat)
    requires i < |s|
    ensures n == 0 || (n >= 2 && i + n <= |s| && s[i] == '$')
  {
    if s[i] != '$' then 0
    else
      var j := if i + 1 < |s| && TagHead(s[i + 1]) then NameEnd(s, i + 1) else i + 1;
      if j < |s| && s[j] == '$' then j + 1 - i else 0
  }

  /** The quote at `i` opens an `E'...'` literal, with backslash escapes. */
  predicate Escapes(s: string, i: nat)
    requires i <= |s|
  {
    i > 0 && s[i - 1] in "Ee" && (i == 1 || !IsWord(s[i - 2]))
  }

  function SkipBlanks(s: string, i: nat): (k: nat)
    requires i <= |s|
    ensures i <= k <= |s|
    ensures forall j :: i <= j < k ==> s[j] in " \t\r"
    ensures k < |s| ==> s[k] !in " \t\r"
    decreases |s| - i
  {
    if i < |s| && s[i] in " \t\r" then SkipBlanks(s, i + 1) else i
  }

  /** Only blanks follow up to a newline or the end of the text. */
  predicate EndsLine(s: string, i: nat)
    requires i <= |s|
  {
    var k := SkipBlanks(s, i);
    k == |s| || s[k] == '\n'
  }

  // ----- the automaton -----

  /** What the next character is read as. `left` counts the characters of a tag still to be read. */
  datatype Mode =
    | Code
    | Line | BlockHead | Block | BlockTail
    | Str(escapes: bool) | StrNext(escapes: bool)
    | Ident
    | TagOpen(tag: string, left: nat) | Body(tag: string) | BodyLine(tag: string)
    | BodyStr(tag: string) | BodyStrNext(tag: string) | TagClose(left: nat)

  function CodeStep(s: string, i: nat): Mode
    requires i < |s|
  {
    if Two(s, i, '-', '-') then Line
    else if Two(s, i, '/', '*') then BlockHead
    else if s[i] == '\'' then Str(Escapes(s, i))
    else if s[i] == '"' then Ident
    else if TagLen(s, i) > 0 then TagOpen(s[i..i + TagLen(s, i)], TagLen(s, i) - 1)
    else Code
  }

  function BodyStep(s: string, i: nat, tag: string): Mode
    requires i < |s|
  {
    if Two(s, i, '-', '-') then BodyLine(tag)
    else if s[i] == '\'' then BodyStr(tag)
    else if StartsWith(s, tag, i) && |tag| > 1 then TagClose(|tag| - 1)
    else Body(tag)
  }

  function Step(s: string, i: nat, m: Mode): Mode
    requires i < |s|
  {
    match m
    case Code => CodeStep(s, i)
    case Line => if i + 1 < |s| && s[i + 1] != '\n' then Line else Code
    case BlockHead => Block
    case Block => if Two(s, i, '*', '/') then BlockTail else Block
    case BlockTail => Code
    case Str(e) =>
      if e && s[i] == '\\' then StrNext(e)
      else if s[i] != '\'' then m
      else if i + 1 < |s| && s[i + 1] == '\'' then StrNext(e) else Code
    case StrNext(e) => Str(e)
    case Ident => if s[i] == '"' then Code else Ident
    case TagOpen(tag, left) => if left <= 1 then Body(tag) else TagOpen(tag, left - 1)
    case Body(tag) => BodyStep(s, i, tag)
    case BodyLine(tag) => if s[i] == '\n' then Body(tag) else m
    case BodyStr(tag) => if s[i] != '\'' then m else if i + 1 < |s| && s[i + 1] == '\'' then BodyStrNext(tag)
      else Body(tag)
    case BodyStrNext(tag) => BodyStr(tag)
    case TagClose(left) => if left <= 1 then Code else TagClose(left - 1)
  }

  function ModeAt(s: string, i: nat): Mode
    requires i <= |s|
  {
    if i == 0 then Code else Step(s, i - 1, ModeAt(s, i - 1))
  }

  /** The semicolon at `i` ends a batch: in code, and the last thing on its line. */
  predicate Cut(s: string, i: nat)
    requires i < |s|
  {
    s[i] == ';' && EndsLine(s, i + 1) && ModeAt(s, i).Code?
  }

  /** The raw batches, as slices: each keeps its semicolon. */
  function Parts(s: string, start: nat, i: nat): (r: seq<(nat, nat)>)
    requires start <= i <= |s|
    ensures |r| > 0
    ensures forall k :: 0 <= k < |r| ==> r[k].0 <= r[k].1 <= |s|
    decreases |s| - i
  {
    if i == |s| then [(start, |s|)]
    else if Cut(s, i) then [(start, i + 1)] + Parts(s, i + 1, i + 1)
    else Parts(s, start, i + 1)
  }

  // ----- tiling -----

  function Concat(s: string, parts: seq<(nat, nat)>): string
    requires forall k :: 0 <= k < |parts| ==> parts[k].0 <= parts[k].1 <= |s|
  {
    if parts == [] then [] else s[parts[0].0..parts[0].1] + Concat(s, parts[1..])
  }

  lemma {:induction false} PartsTile(s: string, start: nat, i: nat)
    requires start <= i <= |s|
    ensures Concat(s, Parts(s, start, i)) == s[start..]
    decreases |s| - i
  {
    hide Cut;
    if i == |s| {
      assert Concat(s, [(start, |s|)]) == s[start..|s|] + [];
    } else if Cut(s, i) {
      PartsTile(s, i + 1, i + 1);
      var rest := Parts(s, i + 1, i + 1);
      assert ([(start, i + 1)] + rest)[1..] == rest;
      assert s[start..] == s[start..i + 1] + s[i + 1..];
    } else {
      PartsTile(s, start, i + 1);
    }
  }

  /** The raw batches, one after the other, are the script. */
  lemma Tiling(s: string)
    ensures Concat(s, Parts(s, 0, 0)) == s
  {
    PartsTile(s, 0, 0);
  }

  // ----- the skips of the loop -----

  lemma NextMode(s: string, i: nat)
    requires i < |s|
    ensures ModeAt(s, i + 1) == Step(s, i, ModeAt(s, i))
  {
  }

  /** From `i` to `j` there is no cut, and the automaton is in code at `j`. */
  ghost predicate Passes(s: string, i: nat, j: nat) {
    i <= j <= |s| && (j < |s| ==> ModeAt(s, j).Code?) && forall k :: i <= k < j ==> !Cut(s, k)
  }

  lemma {:induction false} LineRun(s: string, i: nat, k: nat)
    requires i < k <= |s| && ModeAt(s, i).Code? && Two(s, i, '-', '-')
    requires forall j :: i <= j < k ==> s[j] != '\n'
    ensures ModeAt(s, k) == if k < |s| && s[k] != '\n' then Line else Code
    ensures forall j :: i < j < k ==> ModeAt(s, j).Line?
    decreases k
  {
    hide ModeAt, TagLen, Escapes;
    NextMode(s, k - 1);
    if k > i + 1 {
      LineRun(s, i, k - 1);
    }
  }

  lemma SkipLine(s: string, i: nat, nl: int)
    requires i < |s| && ModeAt(s, i).Code? && Two(s, i, '-', '-') && nl == FindChar(s, '\n', i + 2)
    ensures Passes(s, i, if nl == -1 then |s| else nl)
  {
    LineRun(s, i, if nl == -1 then |s| else nl);
    hide ModeAt, EndsLine;
  }

  lemma {:induction false} BlockRun(s: string, i: nat, k: nat)
    requires i + 2 <= k <= |s| && ModeAt(s, i).Code? && Two(s, i, '/', '*')
    requires forall j :: i + 2 <= j < k ==> !Two(s, j, '*', '/')
    ensures ModeAt(s, k).Block?
    ensures forall j :: i < j < k ==> ModeAt(s, j).BlockHead? || ModeAt(s, j).Block?
    decreases k
  {
    hide ModeAt, TagLen, Escapes;
    NextMode(s, k - 1);
    if k == i + 2 {
      NextMode(s, i);
    } else {
      BlockRun(s, i, k - 1);
    }
  }

  lemma SkipBlock(s: string, i: nat, close: int)
    requires i < |s| && ModeAt(s, i).Code? && Two(s, i, '/', '*') && close == FindPair(s, '*', '/', i + 2)
    ensures Passes(s, i, if close == -1 then |s| else close + 2)
  {
    hide ModeAt, EndsLine, CodeStep;
    BlockRun(s, i, if close == -1 then |s| else close);
    if close != -1 {
      NextMode(s, close);
      NextMode(s, close + 1);
    }
  }

  /** The automaton has been outside code since `i`, and is in mode `m` at `j`. */
  ghost predicate Outside(s: string, i: nat, j: nat, m: Mode) {
    i <= j <= |s| && ModeAt(s, j) == m && forall k :: i <= k < j ==> !ModeAt(s, k).Code?
  }

  lemma OutsideStep(s: string, i: nat, j: nat, m: Mode)
    requires Outside(s, i, j, m) && j < |s| && !m.Code?
    ensures Outside(s, i, j + 1, Step(s, j, m))
  {
    hide ModeAt, Step;
    NextMode(s, j);
  }

  /** A character of code that is no cut, and what the automaton passes over after it. */
  lemma OutsidePasses(s: string, i: nat, j: nat, m: Mode)
    requires i < j <= |s| && s[i] != ';' && Outside(s, i + 1, j, m) && (j < |s| ==> m.Code?)
    ensures Passes(s, i, j)
  {
    hide ModeAt, EndsLine;
  }

  lemma {:induction false} IdentRun(s: string, i: nat, k: nat)
    requires i < k <= |s| && ModeAt(s, i).Code? && s[i] == '"'
    requires forall j :: i < j < k ==> s[j] != '"'
    ensures Outside(s, i + 1, k, Ident)
    decreases k
  {
    if k > i + 1 {
      IdentRun(s, i, k - 1);
      OutsideStep(s, i + 1, k - 1, Ident);
    } else {
      NextMode(s, i);
    }
    hide ModeAt, TagLen, Escapes, Outside;
    if k == i + 1 {
      OutsideHere(s, k);
    }
  }

  lemma OutsideHere(s: string, k: nat)
    requires k <= |s|
    ensures Outside(s, k, k, ModeAt(s, k))
  {
  }

  lemma SkipIdent(s: string, i: nat, j: int)
    requires i < |s| && ModeAt(s, i).Code? && s[i] == '"' && j == FindChar(s, '"', i + 1)
    ensures Passes(s, i, if j == -1 then |s| else j + 1)
  {
    hide ModeAt, Outside, EndsLine;
    IdentRun(s, i, if j == -1 then |s| else j);
    if j == -1 {
      OutsidePasses(s, i, |s|, Ident);
    } else {
      OutsideStep(s, i + 1, j, Ident);
      OutsidePasses(s, i, j + 1, Code);
    }
  }

  /** The rest of an opening tag. */
  lemma {:induction false} TagRun(s: string, i: nat, n: nat, k: nat)
    requires i < |s| && ModeAt(s, i).Code? && n == TagLen(s, i) > 0 && 1 <= k <= n
    requires !Two(s, i, '-', '-') && !Two(s, i, '/', '*') && s[i] == '$'
    ensures Outside(s, i + 1, i + k, if k < n then TagOpen(s[i..i + n], n - k) else Body(s[i..i + n]))
    decreases k
  {
    hide ModeAt, Outside, TagLen, Escapes;
    if k == 1 {
      NextMode(s, i);
      OutsideHere(s, i + 1);
    } else {
      TagRun(s, i, n, k - 1);
      OutsideStep(s, i + 1, i + (k - 1), TagOpen(s[i..i + n], n - (k - 1)));
    }
  }

  lemma {:induction false} CloseRun(s: string, i: nat, j: nat, tag: string, k: nat)
    requires |tag| >= 2 && Outside(s, i, j, Body(tag)) && StartsWith(s, tag, j) && tag[0] == '$'
    requires 1 <= k <= |tag|
    ensures Outside(s, i, j + k, if k < |tag| then TagClose(|tag| - k) else Code)
    decreases k
  {
    hide ModeAt, Outside, TagLen, Escapes;
    if k == 1 {
      assert s[j] == tag[0];
      OutsideBounds(s, i, j, Body(tag));
      OutsideStep(s, i, j, Body(tag));
    } else {
      CloseRun(s, i, j, tag, k - 1);
      OutsideStep(s, i, j + (k - 1), TagClose(|tag| - (k - 1)));
    }
  }

  lemma OutsideBounds(s: string, i: nat, j: nat, m: Mode)
    requires Outside(s, i, j, m)
    ensures i <= j <= |s| && ModeAt(s, j) == m
  {
  }

  // ----- the loops -----

  /** The end of the literal that starts at `i`: one past its closing quote, or the end of the text. */
  method StringEnd(s: string, i: nat) returns (end: nat)
    requires i < |s| && s[i] == '\'' && ModeAt(s, i).Code? && !Two(s, i, '-', '-') && !Two(s, i, '/', '*')
    ensures i < end && Passes(s, i, end)
  {
    hide ModeAt, Outside, TagLen, Escapes, Passes;
    var n := |s|;
    var escapes := Escapes(s, i);
    var j := i + 1;
    NextMode(s, i);
    OutsideHere(s, j);
    while j < n
      invariant i < j <= n + 1
      invariant if j <= n then Outside(s, i + 1, j, Str(escapes)) else Outside(s, i + 1, n, ModeAt(s, n))
      decreases n + 1 - j
    {
      OutsideStep(s, i + 1, j, Str(escapes));
      if escapes && s[j] == '\\' {
        if j + 1 < n {
          OutsideStep(s, i + 1, j + 1, StrNext(escapes));
        } else {
          OutsideBounds(s, i + 1, n, StrNext(escapes));
        }
        j := j + 2;
        continue;
      }
      if s[j] == '\'' {
        if j + 1 < n && s[j + 1] == '\'' {
          OutsideStep(s, i + 1, j + 1, StrNext(escapes));
          j := j + 2;
          continue;
        }
        OutsidePasses(s, i, j + 1, Code);
        return j + 1;
      }
      j := j + 1;
    }
    if j == n {
      OutsideBounds(s, i + 1, n, Str(escapes));
    }
    OutsidePasses(s, i, n, ModeAt(s, n));
    end := n;
  }

  /** `_find_dollar_close`: the next tag that is not in a comment or a literal of the body, or -1. */
  method FindDollarClose(s: string, start: nat, tag: string, ghost i: nat) returns (r: int)
    requires |tag| >= 2 && tag[0] == '$' && Outside(s, i, start, Body(tag))
    ensures r == -1 ==> Outside(s, i, |s|, ModeAt(s, |s|))
    ensures r != -1 ==> start <= r && StartsWith(s, tag, r) && Outside(s, i, r, Body(tag))
  {
    hide ModeAt, Outside, TagLen, Escapes;
    var j, n := start, |s|;
    OutsideBounds(s, i, start, Body(tag));
    while j < n
      invariant start <= j <= n
      invariant j < n ==> Outside(s, i, j, Body(tag))
      invariant j == n ==> Outside(s, i, n, ModeAt(s, n))
      decreases n - j
    {
      if Two(s, j, '-', '-') {
        var nl := FindChar(s, '\n', j);
        BodyLineRun(s, i, j, tag, if nl == -1 then n else nl);
        if nl != -1 {
          OutsideStep(s, i, nl, BodyLine(tag));
          OutsideBounds(s, i, nl + 1, Body(tag));
        } else {
          OutsideBounds(s, i, n, BodyLine(tag));
        }
        j := if nl == -1 then n else nl + 1;
        continue;
      }
      if s[j] == '\'' {
        OutsideStep(s, i, j, Body(tag));
        j := BodyStringEnd(s, j, tag, i);
        continue;
      }
      if StartsWith(s, tag, j) {
        return j;
      }
      OutsideStep(s, i, j, Body(tag));
      OutsideBounds(s, i, j + 1, Body(tag));
      j := j + 1;
    }
    r := -1;
  }

  lemma {:induction false} BodyLineRun(s: string, i: nat, j: nat, tag: string, k: nat)
    requires Outside(s, i, j, Body(tag)) && Two(s, j, '-', '-') && j < k <= |s|
    requires forall l :: j <= l < k ==> s[l] != '\n'
    ensures Outside(s, i, k, BodyLine(tag))
    decreases k
  {
    hide ModeAt, Outside;
    if k == j + 1 {
      OutsideStep(s, i, j, Body(tag));
    } else {
      BodyLineRun(s, i, j, tag, k - 1);
      OutsideStep(s, i, k - 1, BodyLine(tag));
    }
  }

  method BodyStringEnd(s: string, at: nat, tag: string, ghost i: nat) returns (j: nat)
    requires at < |s| && Outside(s, i, at + 1, BodyStr(tag))
    ensures at < j <= |s|
    ensures j < |s| ==> Outside(s, i, j, Body(tag))
    ensures j == |s| ==> Outside(s, i, j, ModeAt(s, j))
  {
    hide ModeAt, Outside;
    var n := |s|;
    j := at + 1;
    while j < n
      invariant at < j <= n && Outside(s, i, j, BodyStr(tag))
      decreases n - j
    {
      OutsideStep(s, i, j, BodyStr(tag));
      if s[j] == '\'' {
        if j + 1 < n && s[j + 1] == '\'' {
          OutsideStep(s, i, j + 1, BodyStrNext(tag));
          j := j + 2;
          continue;
        }
        j := j + 1;
        OutsideBounds(s, i, j, Body(tag));
        return;
      }
      j := j + 1;
    }
    OutsideBounds(s, i, j, BodyStr(tag));
  }

  // ----- batches -----

  /** A batch: its stripped text and its line offset. */
  datatype Batch = Batch(sql: string, lineOffset: nat)

  /** The line a raw batch is reported at: the first on line 0, a later one on the line after the
      newline that ends the line of the semicolon before it. */
  function OffsetOf(s: string, start: nat): nat
    requires start <= |s|
  {
    if start == 0 then 0 else LineOf(s, start) + 1
  }

  function BatchOf(s: string, start: nat, end: nat): seq<Batch>
    requires start <= end <= |s|
  {
    var text := Strip(s[start..end]);
    if text == [] then [] else [Batch(text, OffsetOf(s, start))]
  }

  /** The batches of the script from `i` on, for a raw batch that starts at `start`. */
  function BatchesFrom(s: string, start: nat, i: nat): seq<Batch>
    requires start <= i <= |s|
    decreases |s| - i
  {
    if i == |s| then BatchOf(s, start, |s|)
    else if Cut(s, i) then BatchOf(s, start, i + 1) + BatchesFrom(s, i + 1, i + 1)
    else BatchesFrom(s, start, i + 1)
  }

  lemma {:induction false} NoCutRun(s: string, start: nat, i: nat, j: nat)
    requires start <= i <= j <= |s|
    requires forall k :: i <= k < j ==> !Cut(s, k)
    ensures BatchesFrom(s, start, i) == BatchesFrom(s, start, j)
    decreases j - i
  {
    hide Cut, BatchOf;
    if i < j {
      NoCutRun(s, start, i + 1, j);
    }
  }

  /** The loop has come to `i`: what is emitted and what is to come are the batches of the script, and
      the counters are right. */
  ghost predicate Progress(s: string, done: seq<Batch>, start: nat, startLine: nat, i: nat, lineNo: nat) {
    && start <= i <= |s| && startLine == OffsetOf(s, start) && lineNo == LineOf(s, i)
    && done + BatchesFrom(s, start, i) == BatchesFrom(s, 0, 0)
  }

  lemma Advance(s: string, done: seq<Batch>, start: nat, startLine: nat, i: nat, lineNo: nat, j: nat)
    requires Progress(s, done, start, startLine, i, lineNo) && Passes(s, i, j)
    ensures j <= |s| && Progress(s, done, start, startLine, j, lineNo + Count(s[i..j], '\n'))
    ensures j < |s| ==> ModeAt(s, j).Code?
  {
    hide ModeAt, EndsLine, BatchesFrom, Count, OffsetOf, LineOf;
    NoCutRun(s, start, i, j);
    LineOfSlice(s, i, j);
  }

  lemma NoNewlines(s: string, i: nat, j: nat)
    requires i <= j <= |s| && forall k :: i <= k < j ==> s[k] != '\n'
    ensures Count(s[i..j], '\n') == 0
  {
    CountNone(s[i..j], '\n');
  }

  /** A character that opens nothing and ends no batch. */
  lemma OneStep(s: string, i: nat)
    requires i < |s| && ModeAt(s, i).Code? && !Two(s, i, '-', '-') && !Two(s, i, '/', '*')
    requires s[i] != '\'' && s[i] != '"' && TagLen(s, i) == 0
    ensures i + 1 <= |s| && ModeAt(s, i + 1).Code?
    ensures !(s[i] == ';' && EndsLine(s, i + 1)) ==> Passes(s, i, i + 1)
    ensures s[i] == ';' && EndsLine(s, i + 1) ==> Cut(s, i)
  {
    hide ModeAt, EndsLine, TagLen, Escapes;
    NextMode(s, i);
  }

  lemma AdvanceCut(s: string, done: seq<Batch>, start: nat, startLine: nat, i: nat, lineNo: nat)
    requires Progress(s, done, start, startLine, i, lineNo) && i < |s| && Cut(s, i)
    ensures start <= i < |s|
    ensures var text := Strip(s[start..i + 1]);
      Progress(s, if text == [] then done else done + [Batch(text, startLine)], i + 1, lineNo + 1, i + 1, lineNo)
  {
    hide ModeAt, EndsLine, Strip, Count;
    assert s[i..i + 1] == [s[i]];
    NoNewlines(s, i, i + 1);
    LineOfSlice(s, i, i + 1);
    var rest := BatchesFrom(s, i + 1, i + 1);
    Regroup(done, BatchOf(s, start, i + 1), rest);
    assert done + [] == done;
    hide LineOf;
  }

  /** Over the tag that opens at `i` and the body after it, to the end of its closing tag. */
  method DollarEnd(s: string, i: nat) returns (end: nat)
    requires i < |s| && ModeAt(s, i).Code? && TagLen(s, i) > 0
    requires !Two(s, i, '-', '-') && !Two(s, i, '/', '*')
    ensures i < end && Passes(s, i, end)
  {
    hide ModeAt, Outside, TagLen, Escapes, Passes, EndsLine;
    var n := TagLen(s, i);
    var tag := s[i..i + n];
    TagBounds(s, i);
    TagRun(s, i, n, n);
    var close := FindDollarClose(s, i + n, tag, i + 1);
    if close == -1 {
      OutsidePasses(s, i, |s|, ModeAt(s, |s|));
      end := |s|;
    } else {
      CloseRun(s, i + 1, close, tag, |tag|);
      OutsideBounds(s, i + 1, close + |tag|, Code);
      OutsidePasses(s, i, close + |tag|, Code);
      end := close + |tag|;
    }
  }

  lemma TagBounds(s: string, i: nat)
    requires i < |s| && TagLen(s, i) > 0
    ensures TagLen(s, i) >= 2 && i + TagLen(s, i) <= |s| && s[i] == '$' && s[i..i + TagLen(s, i)][0] == '$'
  {
  }

  method SplitPostgresql(sql: string) returns (batches: seq<Batch>)
    ensures batches == BatchesFrom(sql, 0, 0)
  {
    hide ModeAt, Outside, TagLen, Escapes, Passes, EndsLine, Progress, Cut, BatchesFrom, BatchOf, Strip, Count;
    batches := [];
    var n := |sql|;
    var i: nat, lineNo: nat, startPos: nat, startLine: nat := 0, 0, 0, 0;
    Begin(sql);
    while i < n
      invariant i <= n && Progress(sql, batches, startPos, startLine, i, lineNo)
      invariant i < n ==> ModeAt(sql, i).Code?
      decreases n - i
    {
      var ch := sql[i];
      var end := i + 1;
      if ch == '\n' {
        NewlineStep(sql, i);
      } else if Two(sql, i, '-', '-') {
        var nl := FindChar(sql, '\n', i + 2);
        SkipLine(sql, i, nl);
        end := if nl == -1 then n else nl;
      } else if Two(sql, i, '/', '*') {
        var close := FindPair(sql, '*', '/', i + 2);
        SkipBlock(sql, i, close);
        end := if close == -1 then n else close + 2;
      } else if ch == '\'' {
        end := StringEnd(sql, i);
      } else if ch == '"' {
        var j := FindChar(sql, '"', i + 1);
        SkipIdent(sql, i, j);
        end := if j == -1 then n else j + 1;
      } else if ch == '$' && TagLen(sql, i) > 0 {
        end := DollarEnd(sql, i);
      } else {
        NoTag(sql, i);
        OneStep(sql, i);
        if ch == ';' && EndsLine(sql, i + 1) {
          AdvanceCut(sql, batches, startPos, startLine, i, lineNo);
          var text := Strip(sql[startPos..i + 1]);
          if text != [] {
            batches := batches + [Batch(text, startLine)];
          }
          startPos, startLine := i + 1, lineNo + 1;
          i := i + 1;
          continue;
        }
      }
      Advance(sql, batches, startPos, startLine, i, lineNo, end);
      lineNo := lineNo + Count(sql[i..end], '\n');
      i := end;
    }
    Finish(sql, batches, startPos, startLine, i, lineNo);
    var text := Strip(sql[startPos..n]);
    if text != [] {
      batches := batches + [Batch(text, startLine)];
    }
  }

  lemma Begin(s: string)
    ensures Progress(s, [], 0, 0, 0, 0) && ModeAt(s, 0).Code?
  {
    hide BatchesFrom;
  }

  lemma NewlineStep(s: string, i: nat)
    requires i < |s| && ModeAt(s, i).Code? && s[i] == '\n'
    ensures Passes(s, i, i + 1)
  {
    assert TagLen(s, i) == 0;
    OneStep(s, i);
    hide ModeAt, Passes, EndsLine;
  }

  lemma NoTag(s: string, i: nat)
    requires i < |s|
    ensures s[i] != '$' ==> TagLen(s, i) == 0
  {
  }

  lemma Finish(s: string, done: seq<Batch>, start: nat, startLine: nat, i: nat, lineNo: nat)
    requires Progress(s, done, start, startLine, i, lineNo) && i == |s|
    ensures start <= |s|
    ensures var text := Strip(s[start..|s|]);
      BatchesFrom(s, 0, 0) == if text == [] then done else done + [Batch(text, startLine)]
  {
    hide Strip, OffsetOf, LineOf;
    assert done + [] == done;
    assert BatchesFrom(s, start, |s|) == BatchOf(s, start, |s|);
  }

  // ----- what the batches are -----

  function BatchesOf(s: string, parts: seq<(nat, nat)>): seq<Batch>
    requires forall k :: 0 <= k < |parts| ==> parts[k].0 <= parts[k].1 <= |s|
  {
    if parts == [] then [] else BatchOf(s, parts[0].0, parts[0].1) + BatchesOf(s, parts[1..])
  }

  /** The batches are those of the slices that tile the script. */
  lemma {:induction false} BatchesArePartsOf(s: string, start: nat, i: nat)
    requires start <= i <= |s|
    ensures BatchesFrom(s, start, i) == BatchesOf(s, Parts(s, start, i))
    decreases |s| - i
  {
    hide Cut, BatchOf;
    if i == |s| {
      assert BatchesOf(s, [(start, |s|)]) == BatchOf(s, start, |s|) + [];
    } else if Cut(s, i) {
      BatchesArePartsOf(s, i + 1, i + 1);
      var rest := Parts(s, i + 1, i + 1);
      assert ([(start, i + 1)] + rest)[1..] == rest;
    } else {
      BatchesArePartsOf(s, start, i + 1);
    }
  }

  /** `a..b` is one of the raw batches of `t`. */
  ghost predicate PartAt(t: string, a: nat, b: nat) {
    && a <= b <= |t|
    && (a > 0 ==> Cut(t, a - 1))
    && (b < |t| ==> b > 0 && Cut(t, b - 1))
    && forall k :: a <= k < b - 1 ==> !Cut(t, k)
  }

  lemma {:induction false} PartsAreParts(t: string, start: nat, i: nat, k: nat)
    requires start <= i <= |t| && k < |Parts(t, start, i)|
    requires (start > 0 ==> Cut(t, start - 1)) && forall j :: start <= j < i ==> !Cut(t, j)
    ensures PartAt(t, Parts(t, start, i)[k].0, Parts(t, start, i)[k].1)
    decreases |t| - i
  {
    hide Cut;
    if i == |t| {
    } else if Cut(t, i) {
      if k > 0 {
        PartsAreParts(t, i + 1, i + 1, k - 1);
      }
    } else {
      PartsAreParts(t, start, i + 1, k);
    }
  }

  /** A later batch is reported at the line after the newline that follows the semicolon before it. */
  lemma OffsetIsNextLine(t: string, a: nat, b: nat)
    requires PartAt(t, a, b) && a > 0
    ensures var k := SkipBlanks(t, a);
      k < |t| ==> t[k] == '\n' && OffsetOf(t, a) == LineOf(t, k + 1)
  {
    hide ModeAt, Count;
    var k := SkipBlanks(t, a);
    NoNewlines(t, a, k);
    LineOfSlice(t, a, k);
    if k < |t| {
      assert t[..k + 1] == t[..k] + ['\n'];
      LineOfSlice(t, k, k + 1);
      assert t[k..k + 1] == "\n";
      OneNewline();
    }
  }

  lemma OneNewline()
    ensures Count("\n", '\n') == 1
  {
    assert "\n"[..0] == "";
  }

  // ----- splitting a batch again -----

  predicate TagOk(m: Mode) {
    match m
    case TagOpen(tag, _) => TagChars(tag)
    case Body(tag) => TagChars(tag)
    case BodyLine(tag) => TagChars(tag)
    case BodyStr(tag) => TagChars(tag)
    case BodyStrNext(tag) => TagChars(tag)
    case _ => true
  }

  predicate TagChars(tag: string) {
    forall k :: 0 <= k < |tag| ==> IsWord(tag[k]) || tag[k] == '$'
  }

  lemma {:induction false} NameAgrees(t: string, p: nat, u: string, k: nat)
    requires Window(t, p, u) && k <= |u|
    ensures NameEnd(t, p + k) == p + NameEnd(u, k)
    decreases |u| - k
  {
    if k < |u| {
      assert t[p + k] == u[k];
      if IsWord(u[k]) {
        NameAgrees(t, p, u, k + 1);
      }
    }
  }

  lemma TagAgrees(t: string, p: nat, u: string, k: nat)
    requires Window(t, p, u) && k < |u|
    ensures TagLen(t, p + k) == TagLen(u, k)
    ensures TagLen(u, k) > 0 ==>
      t[p + k..p + k + TagLen(u, k)] == u[k..k + TagLen(u, k)] && TagChars(u[k..k + TagLen(u, k)])
  {
    hide Window, TagLen;
    TagLenAgrees(t, p, u, k);
    TagLetters(u, k);
    WindowSlice(t, p, u, k, k + TagLen(u, k));
  }

  lemma TagLenAgrees(t: string, p: nat, u: string, k: nat)
    requires Window(t, p, u) && k < |u|
    ensures TagLen(t, p + k) == TagLen(u, k)
  {
    hide NameEnd, TagHead;
    assert t[p + k] == u[k];
    if k + 1 < |u| {
      assert t[p + k + 1] == u[k + 1];
    }
    NameAgrees(t, p, u, k + 1);
    var j := NameEnd(u, k + 1);
    if j < |u| {
      assert t[p + j] == u[j];
    }
  }

  lemma TagLetters(u: string, k: nat)
    requires k < |u|
    ensures TagChars(u[k..k + TagLen(u, k)])
  {
    hide IsWord;
  }

  lemma WindowSlice(t: string, p: nat, u: string, i: nat, j: nat)
    requires Window(t, p, u) && i <= j <= |u|
    ensures p + |u| <= |t| && t[p + i..p + j] == u[i..j]
  {
    SliceOfSlice(t, p, p + |u|, i, j);
  }

  lemma EscapesAgree(t: string, p: nat, u: string, k: nat)
    requires Window(t, p, u) && k < |u|
    ensures Escapes(t, p + k) == Escapes(u, k)
  {
    if k >= 1 {
      assert t[p + k - 1] == u[k - 1];
    }
    if k >= 2 {
      assert t[p + k - 2] == u[k - 2];
    }
  }

  lemma StartsAgree(t: string, p: nat, u: string, k: nat, tag: string)
    requires Window(t, p, u) && k < |u| && TagChars(tag)
    ensures StartsWith(t, tag, p + k) == StartsWith(u, tag, k)
  {
    if k + |tag| <= |u| {
      SliceOfSlice(t, p, p + |u|, k, k + |tag|);
    } else if p + k + |tag| <= |t| {
      assert t[p + k..p + k + |tag|][|u| - k] == t[p + |u|];
    }
  }

  lemma StepAgrees(t: string, p: nat, u: string, k: nat, m: Mode)
    requires Window(t, p, u) && k + 1 < |u| && TagOk(m)
    ensures Step(t, p + k, m) == Step(u, k, m) && TagOk(Step(u, k, m))
  {
    hide TagLen, Escapes, StartsWith, TagChars;
    assert t[p + k] == u[k] && t[p + k + 1] == u[k + 1];
    match m
    case Code =>
      TagAgrees(t, p, u, k);
      EscapesAgree(t, p, u, k);
      hide Window;
    case Body(tag) =>
      StartsAgree(t, p, u, k, tag);
      hide Window;
    case _ =>
      hide Window;
  }

  lemma CodeIsOk(m: Mode)
    requires m.Code?
    ensures TagOk(m)
  {
  }

  lemma {:induction false} ModesAgree(t: string, p: nat, u: string, k: nat)
    requires Window(t, p, u) && ModeAt(t, p).Code? && k < |u|
    ensures ModeAt(t, p + k) == ModeAt(u, k) && TagOk(ModeAt(u, k))
  {
    hide ModeAt, Step, TagOk, Window;
    WindowSlice(t, p, u, 0, |u|);
    if k == 0 {
      Begin(u);
      CodeIsOk(ModeAt(u, 0));
    } else {
      ModesAgree(t, p, u, k - 1);
      StepAgrees(t, p, u, k - 1, ModeAt(u, k - 1));
      NextMode(t, p + (k - 1));
      NextMode(u, k - 1);
    }
  }

  lemma {:induction false} BlanksAgree(t: string, p: nat, u: string, k: nat)
    requires Window(t, p, u) && k < |u|
    ensures SkipBlanks(u, k) < |u| && SkipBlanks(t, p + k) == p + SkipBlanks(u, k)
    decreases |u| - k
  {
    assert t[p + k] == u[k];
    if u[k] in " \t\r" {
      BlanksAgree(t, p, u, k + 1);
    }
  }

  /** A cut before the last character of the window is one of the text. */
  lemma InnerCut(t: string, p: nat, u: string, k: nat)
    requires Window(t, p, u) && ModeAt(t, p).Code? && k + 1 < |u|
    ensures Cut(u, k) ==> Cut(t, p + k)
  {
    hide ModeAt;
    ModesAgree(t, p, u, k);
    BlanksAgree(t, p, u, k + 1);
    var j := SkipBlanks(u, k + 1);
    assert t[p + k] == u[k] && t[p + j] == u[j];
    hide SkipBlanks, TagOk, Window;
  }

  lemma {:induction false} LeadingSpace(t: string, a: nat, k: nat)
    requires a <= k <= |t| && (a > 0 ==> Cut(t, a - 1)) && forall j :: a <= j < k ==> IsSpace(t[j])
    ensures ModeAt(t, k).Code?
    decreases k
  {
    hide ModeAt, EndsLine;
    if k > a {
      LeadingSpace(t, a, k - 1);
      NextMode(t, k - 1);
      NoTag(t, k - 1);
    } else if k > 0 {
      NextMode(t, k - 1);
      NoTag(t, k - 1);
    } else {
      Begin(t);
    }
  }

  lemma PartWindow(t: string, a: nat, b: nat, u: string) returns (p: nat)
    requires PartAt(t, a, b) && u == Strip(t[a..b]) && u != []
    ensures a <= p && p + |u| <= b && Window(t, p, u) && ModeAt(t, p).Code?
  {
    hide ModeAt, Strip;
    var c, d := StripSplit(t[a..b]);
    p := a + c;
    SliceOfSlice(t, a, b, c, d);
    forall k | a <= k < p || p + |u| <= k < b ensures IsSpace(t[k]) {
      assert t[k] == t[a..b][k - a];
    }
    LeadingSpace(t, a, p);
    if b < |t| {
      AfterCut(t, b);
    }
  }

  lemma AfterCut(t: string, b: nat)
    requires 0 < b < |t| && Cut(t, b - 1)
    ensures IsSpace(t[b])
  {
    hide ModeAt;
    var k := SkipBlanks(t, b);
    assert k == b || t[b] in " \t\r";
  }

  /** Splitting any returned batch again returns just that batch. */
  lemma ReSplit(t: string, k: nat, u: string)
    requires k < |Parts(t, 0, 0)|
    requires u == Strip(t[Parts(t, 0, 0)[k].0..Parts(t, 0, 0)[k].1]) && u != []
    ensures BatchesFrom(u, 0, 0) == [Batch(u, 0)]
  {
    hide Strip, ModeAt, EndsLine, Cut, Parts, Window, BatchesFrom;
    var (a, b) := Parts(t, 0, 0)[k];
    PartsAreParts(t, 0, 0, k);
    var p := PartWindow(t, a, b, u);
    forall j | 0 <= j < |u| - 1 ensures !Cut(u, j) {
      WindowSlice(t, p, u, 0, |u|);
      InnerCut(t, p, u, j);
    }
    StripEnds(t[a..b]);
    WholeBatch(u);
    NoCutRun(u, 0, 0, |u| - 1);
  }

  lemma StripEnds(s: string)
    requires Strip(s) != []
    ensures var u := Strip(s); !IsSpace(u[0]) && !IsSpace(u[|u| - 1])
  {
    hide Strip, IsSpace;
    var a, b := StripSplit(s);
  }

  lemma WholeBatch(u: string)
    requires u != [] && !IsSpace(u[0]) && !IsSpace(u[|u| - 1])
    ensures BatchesFrom(u, 0, |u| - 1) == [Batch(u, 0)]
  {
    hide Cut;
    StripFixed(u);
    assert u[0..|u|] == u && u[|u|..|u|] == [];
    assert Strip([]) == [];
    hide Strip;
    assert BatchOf(u, 0, |u|) == [Batch(u, 0)];
    assert BatchOf(u, |u|, |u|) == [];
    assert BatchesFrom(u, |u|, |u|) == [] && BatchesFrom(u, 0, |u|) == [Batch(u, 0)];
  }

  // ----- what a tag is -----

  /** Nothing, or a letter or an underscore and then word characters. */
  predicate TagName(name: string) {
    name == [] || ((IsAlpha(name[0]) || name[0] == '_') && forall k :: 0 <= k < |name| ==> IsWord(name[k]))
  }

  function Tagged(name: string): string {
    "$" + name + "$"
  }

  lemma {:induction false} NameEndIs(s: string, i: nat, j: nat)
    requires i <= j < |s| && !IsWord(s[j]) && forall k :: i <= k < j ==> IsWord(s[k])
    ensures NameEnd(s, i) == j
  {
    hide NameEnd, IsWord;
    var e := NameEnd(s, i);
    assert !(e < j) && !(j < e);
  }

  lemma TagIs(s: string, i: nat, name: string)
    requires TagName(name) && StartsWith(s, Tagged(name), i)
    ensures i < |s| && TagLen(s, i) == |name| + 2
  {
    var u, j := Tagged(name), i + 1 + |name|;
    forall k | 0 <= k < |u| ensures i + k < |s| && s[i + k] == u[k] {
      CharAt(s, i, u, k);
    }
    assert s[i] == u[0] && s[j] == u[|name| + 1] == '$';
    assert forall k :: i < k < j ==> s[k] == u[k - i] == name[k - i - 1];
    if name != [] {
      NameEndIs(s, i + 1, j);
    }
    hide NameEnd;
  }

  lemma TagHasName(s: string, i: nat) returns (name: string)
    requires i < |s| && TagLen(s, i) > 0
    ensures TagName(name) && |name| + 2 == TagLen(s, i) && StartsWith(s, Tagged(name), i)
  {
    hide IsWord, IsAlpha;
    var n := TagLen(s, i);
    name := s[i + 1..i + n - 1];
    assert s[i..i + n] == [s[i]] + name + [s[i + n - 1]];
  }

  /** A tag begins at `i` and has `n` characters exactly when a dollar sign, a name and a dollar sign
      stand there, `n` characters in all. */
  lemma TagLenIff(s: string, i: nat, n: nat)
    requires i < |s| && n > 0
    ensures TagLen(s, i) == n <==>
      exists name: string :: TagName(name) && |name| + 2 == n && StartsWith(s, Tagged(name), i)
  {
    hide TagLen, TagName, Tagged, StartsWith;
    if TagLen(s, i) == n {
      var name := TagHasName(s, i);
    }
    if name: string :| TagName(name) && |name| + 2 == n && StartsWith(s, Tagged(name), i) {
      TagIs(s, i, name);
    }
  }

  // ----- scripts put together from tokens -----

  /** What the body of a routine is made of, as far as finding its end goes. */
  datatype Inner = Plain(c: char) | Note(text: string) | Literal(body: string)

  datatype Token =
    | Other(c: char)                              // any character that begins none of the others
    | Semicolon
    | Quoted(body: string)                        // '...'
    | Escaped(e: char, body: string)              // E'...'
    | Delimited(body: string)                     // "..."
    | Remark(text: string)                        // a line comment, without its newline
    | Comment(text: string)                       // a block comment
    | Dollars(name: string, parts: seq<Inner>)    // $name$ ... $name$

  function InnerText(x: Inner): string {
    match x
    case Plain(c) => [c]
    case Note(text) => "--" + text + "\n"
    case Literal(body) => "'" + body + "'"
  }

  function InnerTexts(xs: seq<Inner>): string {
    if xs == [] then [] else InnerText(xs[0]) + InnerTexts(xs[1..])
  }

  function TextOf(x: Token): string {
    match x
    case Other(c) => [c]
    case Semicolon => ";"
    case Quoted(body) => "'" + body + "'"
    case Escaped(e, body) => [e] + "'" + body + "'"
    case Delimited(body) => "\"" + body + "\""
    case Remark(text) => "--" + text
    case Comment(text) => "/*" + text + "*/"
    case Dollars(name, parts) => Tagged(name) + InnerTexts(parts) + Tagged(name)
  }

  function Print(ts: seq<Token>): string {
    if ts == [] then [] else TextOf(ts[0]) + Print(ts[1..])
  }

  /** The inside of a literal: quotes are doubled, or escaped where a backslash escapes. */
  predicate LiteralBody(b: string, escapes: bool) {
    if b == [] then true
    else if escapes && b[0] == '\\' then |b| > 1 && LiteralBody(b[2..], escapes)
    else if b[0] == '\'' then Two(b, 0, '\'', '\'') && LiteralBody(b[2..], escapes)
    else LiteralBody(b[1..], escapes)
  }

  /** The piece ends where its text does when `after` follows, and the tag does not begin with it. */
  ghost predicate InnerApart(x: Inner, tag: string, after: string) {
    match x
    case Plain(c) => c != '\'' && !(c == '-' && after != [] && after[0] == '-') && !StartsWith([c] + after, tag, 0)
    case Note(text) => '\n' !in text
    case Literal(body) => LiteralBody(body, false) && (after == [] || after[0] != '\'')
  }

  /** That of every piece of a body, with `rest` after the last. */
  ghost predicate InnerFormed(xs: seq<Inner>, tag: string, rest: string) {
    xs == [] || (InnerApart(xs[0], tag, InnerTexts(xs[1..]) + rest) && InnerFormed(xs[1..], tag, rest))
  }

  ghost predicate Formed(x: Token) {
    match x
    case Other(c) => c != '\'' && c != '"' && c != ';'
    case Semicolon => true
    case Quoted(body) => LiteralBody(body, false)
    case Escaped(e, body) => (e == 'E' || e == 'e') && LiteralBody(body, true)
    case Delimited(body) => '"' !in body
    case Remark(text) => '\n' !in text
    case Comment(text) => Lacks(text, '*', '/')
    case Dollars(name, parts) => TagName(name) && InnerFormed(parts, Tagged(name), Tagged(name))
  }

  /** The token begins and ends where its text does between `before` and `rest`. */
  ghost predicate Apart(x: Token, before: string, rest: string) {
    match x
    case Other(c) =>
      && !(c == '-' && rest != [] && rest[0] == '-') && !(c == '/' && rest != [] && rest[0] == '*')
      && forall name: string :: TagName(name) ==> !StartsWith([c] + rest, Tagged(name), 0)
    case Quoted(_) => !LoneE(before) && (rest == [] || rest[0] != '\'')
    case Escaped(_, _) => (before == [] || !IsWord(before[|before| - 1])) && (rest == [] || rest[0] != '\'')
    case Remark(_) => rest == [] || rest[0] == '\n'
    case _ => true
  }

  /** The text ends in the word E. */
  predicate LoneE(before: string) {
    var n := |before|;
    n > 0 && (before[n - 1] == 'E' || before[n - 1] == 'e') && (n == 1 || !IsWord(before[n - 2]))
  }

  ghost predicate Unambiguous(before: string, ts: seq<Token>)
    decreases |ts|
  {
    ts == [] || (
      && Formed(ts[0]) && Apart(ts[0], before, Print(ts[1..]))
      && Unambiguous(before + TextOf(ts[0]), ts[1..]))
  }

  /** Nothing but blanks up to a newline or the end. */
  predicate LineEnds(ts: seq<Token>) {
    ts == [] || (ts[0].Other? &&
      (ts[0].c == '\n' || ((ts[0].c == ' ' || ts[0].c == '\t' || ts[0].c == '\r') && LineEnds(ts[1..]))))
  }

  /** A raw batch and what comes before it: it is stripped, and reported at the line after its newline. */
  function Reported(before: string, raw: string): seq<Batch> {
    var text := Strip(raw);
    if text == [] then [] else [Batch(text, if before == [] then 0 else Count(before, '\n') + 1)]
  }

  /** The batches that end with the semicolons that end their line, and the rest: `before` is the text of
      the batches so far, `raw` that of the one begun. */
  function Divided(ts: seq<Token>, before: string, raw: string): seq<Batch> {
    if ts == [] then Reported(before, raw)
    else if ts[0].Semicolon? && LineEnds(ts[1..]) then
      Reported(before, raw + ";") + Divided(ts[1..], before + raw + ";", [])
    else Divided(ts[1..], before, raw + TextOf(ts[0]))
  }

  // ----- the automaton over a token -----

  lemma {:induction false} LiteralRun(s: string, i: nat, j: nat, b: string, escapes: bool)
    requires LiteralBody(b, escapes) && StartsWith(s, b + "'", j) && Outside(s, i, j, Str(escapes))
    ensures Outside(s, i, j + |b|, Str(escapes))
    decreases |b|
  {
    hide ModeAt, Outside, StartsWith;
    if b != [] {
      assert s[j] == b[0] by { CharAt(s, j, b + "'", 0); }
      assert j + 1 < |s| && s[j + 1] == (b + "'")[1] by { CharAt(s, j, b + "'", 1); }
      OutsideStep(s, i, j, Str(escapes));
      var n := if (escapes && b[0] == '\\') || b[0] == '\'' then 2 else 1;
      if n == 2 {
        OutsideStep(s, i, j + 1, StrNext(escapes));
      }
      PartStarts(s, j, b + "'", n, |b| + 1);
      assert (b + "'")[n..|b| + 1] == b[n..] + "'";
      LiteralRun(s, i, j + n, b[n..], escapes);
    }
  }

  /** From its opening quote a literal is passed to its closing one. */
  lemma LiteralPasses(s: string, i: nat, b: string)
    requires i < |s| && LiteralBody(b, Escapes(s, i)) && StartsWith(s, "'" + b + "'", i) && ModeAt(s, i).Code?
    requires var e := i + |b| + 2; e < |s| ==> s[e] != '\''
    ensures Passes(s, i, i + |b| + 2)
  {
    hide ModeAt, Outside, StartsWith, Escapes, Passes, EndsLine;
    var u, j, esc := "'" + b + "'", i + |b| + 1, Escapes(s, i);
    CharAt(s, i, u, 0);
    CharAt(s, i, u, |b| + 1);
    NextMode(s, i);
    OutsideHere(s, i + 1);
    PartStarts(s, i, u, 1, |u|);
    assert u[1..|u|] == b + "'";
    LiteralRun(s, i + 1, i + 1, b, esc);
    OutsideStep(s, i + 1, j, Str(esc));
    OutsidePasses(s, i, j + 1, Code);
  }

  lemma PassJoin(s: string, i: nat, j: nat, k: nat)
    requires Passes(s, i, j) && Passes(s, j, k)
    ensures Passes(s, i, k)
  {
    hide ModeAt, Cut;
  }

  /** A character that begins nothing. */
  lemma PlainPasses(s: string, i: nat, c: char)
    requires i < |s| && s[i] == c && ModeAt(s, i).Code? && c != '\'' && c != '"' && c != ';'
    requires !(c == '-' && i + 1 < |s| && s[i + 1] == '-') && !(c == '/' && i + 1 < |s| && s[i + 1] == '*')
    requires TagLen(s, i) == 0
    ensures Passes(s, i, i + 1)
  {
    OneStep(s, i);
    hide ModeAt, TagLen, EndsLine, Passes;
  }

  lemma OtherPasses(s: string, i: nat, c: char, before: string)
    requires i < |s| && s[i] == c && ModeAt(s, i).Code? && Formed(Other(c)) && Apart(Other(c), before, s[i + 1..])
    ensures Passes(s, i, i + 1)
  {
    hide ModeAt, Passes, TagName, Tagged;
    if i + 1 < |s| {
      assert s[i + 1..][0] == s[i + 1];
    }
    hide TagLen;
    assert s[i..] == [c] + s[i + 1..];
    if TagLen(s, i) > 0 {
      var name := TagHasName(s, i);
      StartsHere(s, i, Tagged(name));
    }
    PlainPasses(s, i, c);
  }

  lemma StartsHere(s: string, i: nat, u: string)
    requires i <= |s|
    ensures StartsWith(s, u, i) <==> StartsWith(s[i..], u, 0)
  {
    if i + |u| <= |s| {
      assert s[i..][0..|u|] == s[i..i + |u|];
    }
  }

  lemma RemarkPasses(s: string, i: nat, text: string)
    requires '\n' !in text && StartsWith(s, "--" + text, i) && i <= |s| && ModeAt(s, i).Code?
    requires var e := i + 2 + |text|; e < |s| ==> s[e] == '\n'
    ensures Passes(s, i, i + 2 + |text|)
  {
    hide ModeAt, Passes, StartsWith;
    var u, e := "--" + text, i + 2 + |text|;
    forall j | i <= j < e ensures j < |s| && s[j] == u[j - i] {
      CharAt(s, i, u, j - i);
    }
    var nl := FindChar(s, '\n', i + 2);
    assert s[e - 1] == u[|u| - 1];
    assert e == if nl == -1 then |s| else nl;
    SkipLine(s, i, nl);
  }

  lemma CommentPasses(s: string, i: nat, text: string)
    requires Lacks(text, '*', '/') && StartsWith(s, "/*" + text + "*/", i) && i <= |s| && ModeAt(s, i).Code?
    ensures Passes(s, i, i + |text| + 4)
  {
    hide ModeAt, Passes, StartsWith, Lacks, FindPair;
    var u := "/*" + text + "*/";
    CharAt(s, i, u, 0);
    CharAt(s, i, u, 1);
    PartStarts(s, i, u, 2, |u|);
    assert u[2..|u|] == text + ['*', '/'];
    FirstPair(s, i + 2, text, '*', '/');
    SkipBlock(s, i, FindPair(s, '*', '/', i + 2));
  }

  lemma DelimitedPasses(s: string, i: nat, body: string)
    requires '"' !in body && StartsWith(s, "\"" + body + "\"", i) && i <= |s| && ModeAt(s, i).Code?
    ensures Passes(s, i, i + |body| + 2)
  {
    hide ModeAt, Passes, StartsWith;
    var u, e := "\"" + body + "\"", i + |body| + 1;
    forall j | i <= j <= e ensures j < |s| && s[j] == u[j - i] {
      CharAt(s, i, u, j - i);
    }
    assert e < |s| by { CharAt(s, i, u, |u| - 1); }
    assert forall j :: i < j < e ==> s[j] == body[j - i - 1];
    assert s[e] == u[e - i] == '"';
    var r := FindChar(s, '"', i + 1);
    assert r == e;
    SkipIdent(s, i, r);
  }

  // ----- the body of a routine -----

  lemma {:induction false} InnerRun(s: string, i: nat, j: nat, xs: seq<Inner>, tag: string)
    requires |tag| >= 2 && tag[0] == '$' && InnerFormed(xs, tag, tag)
    requires j <= |s| && StartsWith(s, InnerTexts(xs) + tag, j) && Outside(s, i, j, Body(tag))
    ensures Outside(s, i, j + |InnerTexts(xs)|, Body(tag))
    decreases |xs|
  {
    hide ModeAt, Outside, StartsWith, InnerApart, InnerText, InnerFormed;
    if xs != [] {
      var u, v := InnerText(xs[0]), InnerTexts(xs[1..]) + tag;
      var w := InnerTexts(xs) + tag;
      Regroup(u, InnerTexts(xs[1..]), tag);
      hide InnerTexts;
      FirstPiece(xs, tag);
      PartStarts(s, j, w, 0, |u|);
      PartStarts(s, j, w, |u|, |w|);
      assert w[0..|u|] == u && w[|u|..|w|] == v;
      InnerStep(s, i, j, xs[0], v, tag);
      InnerRun(s, i, j + |u|, xs[1..], tag);
    }
  }

  lemma FirstPiece(xs: seq<Inner>, tag: string)
    requires xs != [] && InnerFormed(xs, tag, tag)
    ensures InnerApart(xs[0], tag, InnerTexts(xs[1..]) + tag) && InnerFormed(xs[1..], tag, tag)
  {
    hide InnerApart, InnerTexts;
  }

  /** One piece of a body is passed over. */
  lemma InnerStep(s: string, i: nat, j: nat, x: Inner, after: string, tag: string)
    requires |tag| >= 2 && tag[0] == '$' && InnerApart(x, tag, after) && |after| >= |tag|
    requires j <= |s| && StartsWith(s, InnerText(x), j) && StartsWith(s, after, j + |InnerText(x)|)
    requires Outside(s, i, j, Body(tag))
    ensures Outside(s, i, j + |InnerText(x)|, Body(tag))
  {
    hide ModeAt, Outside;
    var u := InnerText(x);
    CharAt(s, j, u, 0);
    CharAt(s, j + |u|, after, 0);
    match x
    case Plain(c) =>
      TagLater(s, j, c, after, tag);
      OutsideStep(s, i, j, Body(tag));
    case Note(text) => NotePasses(s, i, j, text, tag);
    case Literal(body) => InnerTextPasses(s, i, j, body, tag);
  }

  lemma TagLater(s: string, j: nat, c: char, after: string, tag: string)
    requires j < |s| && s[j] == c && StartsWith(s, after, j + 1) && |after| >= |tag| > 0
    ensures StartsWith(s, tag, j) <==> StartsWith([c] + after, tag, 0)
  {
    var u := [c] + after;
    assert s[j..j + |u|] == u;
    assert s[j..j + |tag|] == u[0..|tag|];
  }

  lemma NotePasses(s: string, i: nat, j: nat, text: string, tag: string)
    requires '\n' !in text && StartsWith(s, "--" + text + "\n", j) && Outside(s, i, j, Body(tag))
    ensures Outside(s, i, j + |text| + 3, Body(tag))
  {
    hide ModeAt, Outside, StartsWith;
    var u, e := "--" + text + "\n", j + |text| + 2;
    forall k | j <= k <= e ensures k < |s| && s[k] == u[k - j] {
      CharAt(s, j, u, k - j);
    }
    assert e < |s| by { CharAt(s, j, u, |u| - 1); }
    assert forall k :: j <= k < e ==> s[k] != '\n';
    BodyLineRun(s, i, j, tag, e);
    OutsideStep(s, i, e, BodyLine(tag));
  }

  lemma {:induction false} InnerLiteralRun(s: string, i: nat, j: nat, b: string, tag: string)
    requires LiteralBody(b, false) && StartsWith(s, b + "'", j) && Outside(s, i, j, BodyStr(tag))
    ensures Outside(s, i, j + |b|, BodyStr(tag))
    decreases |b|
  {
    hide ModeAt, Outside, StartsWith;
    if b != [] {
      assert s[j] == b[0] by { CharAt(s, j, b + "'", 0); }
      assert j + 1 < |s| && s[j + 1] == (b + "'")[1] by { CharAt(s, j, b + "'", 1); }
      OutsideStep(s, i, j, BodyStr(tag));
      var n := if b[0] == '\'' then 2 else 1;
      if n == 2 {
        OutsideStep(s, i, j + 1, BodyStrNext(tag));
      }
      PartStarts(s, j, b + "'", n, |b| + 1);
      assert (b + "'")[n..|b| + 1] == b[n..] + "'";
      InnerLiteralRun(s, i, j + n, b[n..], tag);
    }
  }

  lemma InnerTextPasses(s: string, i: nat, j: nat, b: string, tag: string)
    requires LiteralBody(b, false) && StartsWith(s, "'" + b + "'", j) && Outside(s, i, j, Body(tag))
    requires var e := j + |b| + 2; e < |s| && s[e] != '\''
    ensures Outside(s, i, j + |b| + 2, Body(tag))
  {
    hide ModeAt, Outside, StartsWith;
    var u, k := "'" + b + "'", j + |b| + 1;
    CharAt(s, j, u, 0);
    CharAt(s, j, u, |b| + 1);
    OutsideStep(s, i, j, Body(tag));
    PartStarts(s, j, u, 1, |u|);
    assert u[1..|u|] == b + "'";
    InnerLiteralRun(s, i, j + 1, b, tag);
    OutsideStep(s, i, k, BodyStr(tag));
  }

  /** From `$name$` to the next one outside comments and literals nothing is cut. */
  lemma DollarsPass(s: string, i: nat, name: string, xs: seq<Inner>)
    requires TagName(name) && InnerFormed(xs, Tagged(name), Tagged(name)) && i <= |s| && ModeAt(s, i).Code?
    requires StartsWith(s, Tagged(name) + InnerTexts(xs) + Tagged(name), i)
    ensures Passes(s, i, i + |Tagged(name) + InnerTexts(xs) + Tagged(name)|)
  {
    hide ModeAt, Outside, TagLen, StartsWith, Passes, EndsLine, InnerFormed, InnerTexts, TagName;
    var tag, v := Tagged(name), InnerTexts(xs);
    var u, n, e := tag + v + tag, |tag|, i + |tag| + |v|;
    CharAt(s, i, u, 0);
    PartStarts(s, i, u, 0, n);
    PartStarts(s, i, u, n, |u|);
    PartStarts(s, i, u, n + |v|, |u|);
    assert u[0..n] == tag && u[n..|u|] == v + tag && u[n + |v|..|u|] == tag;
    TagIs(s, i, name);
    assert s[i..i + n] == tag by { SliceIs(s, i, tag); }
    TagRun(s, i, n, n);
    OutsideBounds(s, i + 1, i + n, Body(tag));
    InnerRun(s, i + 1, i + n, xs, tag);
    CloseRun(s, i + 1, e, tag, n);
    OutsideBounds(s, i + 1, e + n, Code);
    OutsidePasses(s, i, e + n, Code);
  }

  // ----- splitting what was put together -----

  lemma FirstToken(s: string, i: nat, ts: seq<Token>)
    requires i <= |s| && s[i..] == Print(ts) && ts != []
    ensures var e := i + |TextOf(ts[0])|;
      StartsWith(s, TextOf(ts[0]), i) && e <= |s| && s[e..] == Print(ts[1..]) && s[..e] == s[..i] + TextOf(ts[0])
  {
    hide TextOf;
    var u := TextOf(ts[0]);
    SplitSlice(s, i, u, Print(ts[1..]));
    assert s[..i + |u|] == s[..i] + s[i..i + |u|];
  }

  /** The loop stands before the tokens, in code. */
  ghost predicate Before(s: string, i: nat, ts: seq<Token>) {
    i <= |s| && s[i..] == Print(ts) && Unambiguous(s[..i], ts) && (i < |s| ==> ModeAt(s, i).Code?)
  }

  lemma NextApart(s: string, i: nat, ts: seq<Token>)
    requires ts != [] && Before(s, i, ts)
    ensures var e := i + |TextOf(ts[0])|;
      && i < e <= |s| && StartsWith(s, TextOf(ts[0]), i) && s[e..] == Print(ts[1..])
      && Formed(ts[0]) && Apart(ts[0], s[..i], s[e..]) && Unambiguous(s[..e], ts[1..])
      && (e < |s| ==> s[e..][0] == s[e])
  {
    hide Formed, Apart, Print, TextOf, ModeAt;
    FirstToken(s, i, ts);
    NotEmpty(ts[0]);
  }

  lemma NotEmpty(x: Token)
    ensures TextOf(x) != []
  {
  }

  lemma LoneEIs(s: string, i: nat)
    requires i <= |s|
    ensures LoneE(s[..i]) <==> Escapes(s, i)
  {
    var b := s[..i];
    if i >= 1 {
      assert b[i - 1] == s[i - 1];
    }
    if i >= 2 {
      assert b[i - 2] == s[i - 2];
    }
  }

  lemma QuotedPasses(s: string, i: nat, body: string)
    requires i < |s| && ModeAt(s, i).Code? && StartsWith(s, "'" + body + "'", i) && LiteralBody(body, false)
    requires var e := i + |body| + 2; e <= |s| && Apart(Quoted(body), s[..i], s[e..])
    ensures Passes(s, i, i + |body| + 2)
  {
    hide ModeAt, Passes, LiteralBody, LoneE, Escapes, StartsWith;
    LoneEIs(s, i);
    LiteralPasses(s, i, body);
  }

  lemma EscapedPasses(s: string, i: nat, e: char, body: string)
    requires i < |s| && ModeAt(s, i).Code? && Formed(Escaped(e, body)) && StartsWith(s, [e] + "'" + body + "'", i)
    requires var k := i + |body| + 3; k <= |s| && Apart(Escaped(e, body), s[..i], s[k..])
    ensures Passes(s, i, i + |body| + 3)
  {
    hide ModeAt, Passes, LiteralBody, Escapes, StartsWith, TagLen;
    var u := [e] + "'" + body + "'";
    CharAt(s, i, u, 0);
    CharAt(s, i, u, 1);
    NoTag(s, i);
    PlainPasses(s, i, e);
    PassesCode(s, i, i + 1);
    PartStarts(s, i, u, 1, |u|);
    assert u[1..|u|] == "'" + body + "'";
    EscapesHere(s, i);
    LiteralPasses(s, i + 1, body);
    PassJoin(s, i, i + 1, i + |body| + 3);
  }

  lemma EscapesHere(s: string, i: nat)
    requires i < |s| && (s[i] == 'E' || s[i] == 'e') && (s[..i] == [] || !IsWord(s[..i][i - 1]))
    ensures Escapes(s, i + 1)
  {
  }

  lemma PassesCode(s: string, i: nat, j: nat)
    requires Passes(s, i, j) && j < |s|
    ensures ModeAt(s, j).Code?
  {
    hide Cut;
  }

  /** A token that is no semicolon is passed over. */
  lemma TokenPasses(s: string, i: nat, ts: seq<Token>)
    requires i < |s| && ts != [] && !ts[0].Semicolon? && Before(s, i, ts)
    ensures Passes(s, i, i + |TextOf(ts[0])|)
  {
    hide ModeAt, Passes, LiteralBody, Escapes, StartsWith, TagLen, TagName, InnerFormed, Lacks, LoneE;
    hide Print, Unambiguous;
    NextApart(s, i, ts);
    match ts[0]
    case Other(c) =>
      CharAt(s, i, [c], 0);
      OtherPasses(s, i, c, s[..i]);
    case Quoted(body) => QuotedPasses(s, i, body);
    case Escaped(e, body) => EscapedPasses(s, i, e, body);
    case Delimited(body) => DelimitedPasses(s, i, body);
    case Remark(text) => RemarkPasses(s, i, text);
    case Comment(text) => CommentPasses(s, i, text);
    case Dollars(name, parts) => DollarsPass(s, i, name, parts);
  }

  lemma EndsStep(s: string, i: nat)
    requires i < |s|
    ensures EndsLine(s, i) <==>
      s[i] == '\n' || ((s[i] == ' ' || s[i] == '\t' || s[i] == '\r') && EndsLine(s, i + 1))
  {
  }

  lemma EndsAtEnd(s: string)
    ensures EndsLine(s, |s|)
  {
  }

  lemma UnambiguousStep(before: string, ts: seq<Token>)
    requires ts != [] && Unambiguous(before, ts)
    ensures Formed(ts[0]) && Unambiguous(before + TextOf(ts[0]), ts[1..])
  {
    hide Formed, Apart, TextOf, Print;
  }

  /** The end of a line is the same in the tokens and in the text. */
  lemma {:induction false} LineEndsIs(s: string, i: nat, ts: seq<Token>, before: string)
    requires i <= |s| && s[i..] == Print(ts) && Unambiguous(before, ts)
    ensures EndsLine(s, i) <==> LineEnds(ts)
    decreases |ts|
  {
    hide Formed, Apart, Print, TextOf, EndsLine, Unambiguous, StartsWith;
    if ts == [] {
      PrintNothing();
      EndsAtEnd(s);
    } else {
      var x := ts[0];
      FirstToken(s, i, ts);
      UnambiguousStep(before, ts);
      HeadOf(x);
      assert s[i] == TextOf(x)[0] by { CharAt(s, i, TextOf(x), 0); }
      EndsStep(s, i);
      LineEndsIs(s, i + |TextOf(x)|, ts[1..], before + TextOf(x));
    }
  }

  lemma HeadOf(x: Token)
    requires Formed(x)
    ensures TextOf(x) != [] && (x.Other? ==> TextOf(x) == [x.c])
    ensures !x.Other? ==> TextOf(x)[0] != ' ' && TextOf(x)[0] != '\t' && TextOf(x)[0] != '\r' && TextOf(x)[0] != '\n'
  {
    hide InnerFormed, LiteralBody, Lacks, TagName;
  }

  lemma SemicolonHere(s: string, i: nat, ts: seq<Token>)
    requires i < |s| && ts != [] && ts[0].Semicolon? && Before(s, i, ts)
    ensures s[i] == ';' && (Cut(s, i) <==> LineEnds(ts[1..])) && Before(s, i + 1, ts[1..])
  {
    hide ModeAt, LineEnds, EndsLine, Print, Unambiguous;
    NextApart(s, i, ts);
    CharAt(s, i, ";", 0);
    NoTag(s, i);
    OneStep(s, i);
    LineEndsIs(s, i + 1, ts[1..], s[..i + 1]);
    hide TagLen;
  }

  lemma PassesBefore(s: string, i: nat, ts: seq<Token>)
    requires ts != [] && Before(s, i, ts) && Passes(s, i, i + |TextOf(ts[0])|)
    ensures Before(s, i + |TextOf(ts[0])|, ts[1..])
    ensures forall k :: i <= k < i + |TextOf(ts[0])| ==> !Cut(s, k)
  {
    hide ModeAt, Cut, Unambiguous, Print, TextOf;
    NextApart(s, i, ts);
  }

  lemma BatchReported(s: string, start: nat, end: nat)
    requires start <= end <= |s|
    ensures BatchOf(s, start, end) == Reported(s[..start], s[start..end])
  {
    hide Strip, Count;
  }

  lemma {:induction false} BatchesDivided(s: string, start: nat, i: nat, ts: seq<Token>)
    requires start <= i && Before(s, i, ts)
    ensures BatchesFrom(s, start, i) == Divided(ts, s[..start], s[start..i])
    decreases |ts|
  {
    hide ModeAt, Cut, Unambiguous, TextOf, Print, BatchOf, Reported, Passes, LineEnds;
    if ts == [] {
      PrintNothing();
      assert i == |s|;
      BatchReported(s, start, i);
    } else {
      NextApart(s, i, ts);
      var u, e := TextOf(ts[0]), i + |TextOf(ts[0])|;
      SliceIs(s, i, u);
      SliceConcat(s, start, i, e);
      if ts[0].Semicolon? {
        SemicolonHere(s, i, ts);
        assert u == ";" by { SemicolonText(); }
        if LineEnds(ts[1..]) {
          BatchReported(s, start, e);
          BatchesDivided(s, e, e, ts[1..]);
          assert s[e..e] == [] && s[..e] == s[..start] + s[start..i] + ";";
        } else {
          NoCutRun(s, start, i, e);
          BatchesDivided(s, start, e, ts[1..]);
        }
      } else {
        TokenPasses(s, i, ts);
        PassesBefore(s, i, ts);
        NoCutRun(s, start, i, e);
        BatchesDivided(s, start, e, ts[1..]);
      }
    }
  }

  lemma PrintNothing()
    ensures Print([]) == []
  {
  }

  lemma SemicolonText()
    ensures TextOf(Semicolon) == ";"
  {
  }

  /** A script of tokens is divided where the tokens say: after the semicolons that end their line, and
      nowhere in a literal, a comment, a quoted name or a body between `$name$` and `$name$`. */
  lemma PrintSplit(ts: seq<Token>)
    requires Unambiguous([], ts)
    ensures BatchesFrom(Print(ts), 0, 0) == Divided(ts, [], [])
  {
    hide Unambiguous, Print, BatchesFrom, Divided;
    var s := Print(ts);
    Begin(s);
    assert s[0..] == s && s[..0] == [] && s[0..0] == [];
    BatchesDivided(s, 0, 0, ts);
  }

  // ----- batches -----

  /** None of its semicolons ends its line; the one written after it does. */
  predicate Whole(ts: seq<Token>) {
    ts == [] || ((ts[0].Semicolon? ==> !LineEnds(ts[1..] + [Semicolon])) && Whole(ts[1..]))
  }

  /** The batches, each with a semicolon and a newline after it. */
  function Script(bs: seq<seq<Token>>): seq<Token> {
    if bs == [] then [] else bs[0] + [Semicolon, Other('\n')] + Script(bs[1..])
  }

  /** What is to be returned: the batches with their semicolons, each reported at the line it begins on. */
  function Expected(bs: seq<seq<Token>>, line: nat): seq<Batch> {
    if bs == [] then []
    else
      var text := Print(bs[0]) + ";";
      [Batch(Strip(text), line)] + Expected(bs[1..], line + Count(text, '\n') + 1)
  }

  lemma {:induction false} EndsAfter(x: seq<Token>, rest: seq<Token>)
    requires !LineEnds(x + [Semicolon])
    ensures !LineEnds(x + [Semicolon] + rest)
  {
    var y, z := x + [Semicolon], x + [Semicolon] + rest;
    if x != [] {
      assert y[0] == x[0] == z[0] && y[1..] == x[1..] + [Semicolon] && z[1..] == x[1..] + [Semicolon] + rest;
      if x[0].Other? && x[0].c != '\n' && LineEnds(z) {
        EndsAfter(x[1..], rest);
      }
    }
  }

  lemma {:induction false} WholeDivided(x: seq<Token>, rest: seq<Token>, before: string, raw: string)
    requires Whole(x)
    ensures Divided(x + [Semicolon, Other('\n')] + rest, before, raw)
         == Reported(before, raw + Print(x) + ";") + Divided(rest, before + (raw + Print(x) + ";"), "\n")
  {
    hide Reported, TextOf, Print, LineEnds;
    var ts := x + [Semicolon, Other('\n')] + rest;
    if x == [] {
      LastDivided(rest, before, raw);
      assert ts == [Semicolon, Other('\n')] + rest;
      PrintNothing();
      assert raw + Print(x) + ";" == raw + ";";
      assert before + raw + ";" == before + (raw + ";");
    } else {
      assert ts[0] == x[0] && ts[1..] == x[1..] + [Semicolon, Other('\n')] + rest;
      if x[0].Semicolon? {
        EndsAfter(x[1..], [Other('\n')] + rest);
        assert x[1..] + [Semicolon] + ([Other('\n')] + rest) == ts[1..];
      }
      WholeDivided(x[1..], rest, before, raw + TextOf(x[0]));
      PrintStep(x);
      assert raw + TextOf(x[0]) + Print(x[1..]) == raw + Print(x);
    }
  }

  lemma PrintStep(x: seq<Token>)
    requires x != []
    ensures Print(x) == TextOf(x[0]) + Print(x[1..])
  {
  }

  lemma LastDivided(rest: seq<Token>, before: string, raw: string)
    ensures Divided([Semicolon, Other('\n')] + rest, before, raw)
         == Reported(before, raw + ";") + Divided(rest, before + raw + ";", "\n")
  {
    hide Reported;
    var ts := [Semicolon, Other('\n')] + rest;
    assert ts[1..] == [Other('\n')] + rest && ts[1..][1..] == rest;
    assert LineEnds(ts[1..]);
    assert [] + ['\n'] == "\n";
  }

  lemma NewlineStripped(x: string)
    ensures Strip("\n" + x) == Strip(x)
  {
    assert ("\n" + x)[1..] == x;
  }

  lemma SemicolonStays(x: string)
    ensures Strip(x + ";") != []
  {
    hide Strip;
    assert !IsSpace((x + ";")[|x|]);
    var a, b := StripSplit(x + ";");
  }

  lemma {:induction false} ScriptDivided(bs: seq<seq<Token>>, before: string, first: bool)
    requires (forall k :: 0 <= k < |bs| ==> Whole(bs[k])) && (first <==> before == [])
    ensures Divided(Script(bs), before, if first then [] else "\n")
         == Expected(bs, if first then 0 else Count(before, '\n') + 1)
    decreases |bs|
  {
    hide Whole, Strip, Print, Count;
    var raw := if first then [] else "\n";
    if bs == [] {
      Blank();
    } else {
      hide Divided;
      var text := Print(bs[0]) + ";";
      WholeDivided(bs[0], Script(bs[1..]), before, raw);
      assert raw + Print(bs[0]) + ";" == raw + text;
      NewlineStripped(text);
      SemicolonStays(Print(bs[0]));
      assert [] + text == text;
      ScriptDivided(bs[1..], before + (raw + text), false);
      CountConcat(before, raw + text, '\n');
      CountConcat("\n", text, '\n');
      OneNewline();
      CountNothing();
    }
  }

  lemma CountNothing()
    ensures Count([], '\n') == 0
  {
  }

  lemma Blank()
    ensures Strip("\n") == [] && Strip([]) == []
  {
    assert "\n"[1..] == [];
  }

  /** Batches written one after the other, each with a semicolon and a newline, are what splitting the
      script returns, each with the line it begins on. */
  lemma BatchesComeBack(bs: seq<seq<Token>>)
    requires Unambiguous([], Script(bs)) && forall k :: 0 <= k < |bs| ==> Whole(bs[k])
    ensures BatchesFrom(Print(Script(bs)), 0, 0) == Expected(bs, 0)
  {
    hide Unambiguous, Print, BatchesFrom, Divided, Whole;
    PrintSplit(Script(bs));
    ScriptDivided(bs, [], true);
  }
}
