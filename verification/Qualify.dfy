/** `qualify_function_calls` of src/unique/core/sql_split.py: a schema prefix put before selected
    function names. */
module Qualify {
  import opened Basics
  import opened Text

  /** The caller's choice of a prefix, from the name and the bare word before it. */
  type Decide = (string, Option<string>) -> Option<string>

  predicate WordHead(c: char) {
    IsAlpha(c) || c == '_'
  }

  predicate WordChar(c: char) {
    IsAlnum(c) || c in "_$#"
  }

  predicate NumberChar(c: char) {
    IsAlnum(c) || c in "._"
  }

  predicate Quote(c: char) {
    c in "'\"`"
  }

  // ----- tokens: the length of the one a text starts with -----

  function WordLen(s: string): (n: nat)
    ensures n <= |s|
    ensures forall k :: 0 <= k < n ==> WordChar(s[k])
    ensures n < |s| ==> !WordChar(s[n])
  {
    if s != [] && WordChar(s[0]) then 1 + WordLen(s[1..]) else 0
  }

  function NumberLen(s: string): (n: nat)
    ensures n <= |s|
    ensures forall k :: 0 <= k < n ==> NumberChar(s[k])
    ensures n < |s| ==> !NumberChar(s[n])
  {
    if s != [] && NumberChar(s[0]) then 1 + NumberLen(s[1..]) else 0
  }

  function UntilLen(s: string, c: char): (n: nat)
    ensures n <= |s|
    ensures forall k :: 0 <= k < n ==> s[k] != c
    ensures n < |s| ==> s[n] == c
  {
    if s != [] && s[0] != c then 1 + UntilLen(s[1..], c) else 0
  }

  /** The rest of a block comment, its end included. */
  function BlockLen(s: string): (n: nat)
    ensures n <= |s|
  {
    if |s| < 2 then |s| else if s[0] == '*' && s[1] == '/' then 2 else 1 + BlockLen(s[1..])
  }

  /** The rest of a literal in the quote `c`, doubled quotes and the closing one included. */
  function QuoteLen(s: string, c: char): (n: nat)
    ensures n <= |s|
  {
    if s == [] then 0
    else if s[0] != c then 1 + QuoteLen(s[1..], c)
    else if |s| > 1 && s[1] == c then 2 + QuoteLen(s[2..], c)
    else 1
  }

  function BracketLen(s: string): (n: nat)
    ensures n <= |s|
  {
    if s == [] then 0 else if s[0] == ']' then 1 else 1 + BracketLen(s[1..])
  }

  datatype Kind = LineComment | BlockComment | Quoted | Bracketed | Word | Number | Other

  function KindOf(s: string): Kind
    requires s != []
  {
    if Two(s, 0, '-', '-') then LineComment
    else if Two(s, 0, '/', '*') then BlockComment
    else if Quote(s[0]) then Quoted
    else if s[0] == '[' then Bracketed
    else if WordHead(s[0]) then Word
    else if IsDigit(s[0]) then Number
    else Other
  }

  function TokenLen(s: string): (n: nat)
    requires s != []
    ensures 0 < n <= |s|
  {
    match KindOf(s)
    case LineComment => UntilLen(s, '\n')
    case BlockComment => 2 + BlockLen(s[2..])
    case Quoted => 1 + QuoteLen(s[1..], s[0])
    case Bracketed => 1 + BracketLen(s[1..])
    case Word => WordLen(s)
    case Number => NumberLen(s)
    case Other => 1
  }

  /** An opening parenthesis follows, after blanks and tabs. */
  predicate Called(s: string) {
    s != [] && (s[0] == '(' || (s[0] in " \t" && Called(s[1..])))
  }

  /** The word a later name is offered with, after the token `s` starts with. */
  function NextWord(s: string, word: Option<string>): Option<string>
    requires s != []
  {
    match KindOf(s)
    case LineComment | BlockComment => word
    case Word => Some(s[..TokenLen(s)])
    case Quoted | Bracketed | Number => None
    case Other => if s[0] in " \t\r\n" then word else None
  }

  /** What is inserted before the token `s` starts with, after the character `prev`. */
  function PrefixFor(decide: Decide, prev: char, word: Option<string>, s: string): string
    requires s != []
  {
    if KindOf(s).Word? && Called(s[TokenLen(s)..]) && prev !in ".@:"
    then match decide(s[..TokenLen(s)], word) case None => "" case Some(p) => p
    else ""
  }

  function Qualified(decide: Decide, prev: char, word: Option<string>, s: string): string
    decreases |s|
  {
    if s == [] then []
    else
      var n := TokenLen(s);
      PrefixFor(decide, prev, word, s) + s[..n] + Qualified(decide, s[n - 1], NextWord(s, word), s[n..])
  }

  // ----- the loop, its inner loops taken out -----

  lemma {:induction false} UntilAt(s: string, i: nat, c: char, r: int)
    requires i <= |s| && r == FindChar(s, c, i)
    ensures i + UntilLen(s[i..], c) == if r == -1 then |s| else r
  {
    var n := UntilLen(s[i..], c);
    assert forall k :: i <= k < i + n ==> s[k] == s[i..][k - i];
    assert i + n < |s| ==> s[i + n] == s[i..][n];
  }

  lemma {:induction false} BlockAt(s: string, i: nat, r: int)
    requires i <= |s| && r == FindPair(s, '*', '/', i)
    ensures i + BlockLen(s[i..]) == if r == -1 then |s| else r + 2
    decreases |s| - i
  {
    if i + 1 < |s| && !Two(s, i, '*', '/') {
      BlockAt(s, i + 1, FindPair(s, '*', '/', i + 1));
      assert s[i..][1..] == s[i + 1..];
    }
  }

  lemma {:induction false} BracketAt(s: string, i: nat, r: int)
    requires i <= |s| && r == FindChar(s, ']', i)
    ensures i + BracketLen(s[i..]) == if r == -1 then |s| else r + 1
    decreases |s| - i
  {
    if i < |s| && s[i] != ']' {
      BracketAt(s, i + 1, FindChar(s, ']', i + 1));
      assert s[i..][1..] == s[i + 1..];
    }
  }

  method QuoteEnd(sql: string, i: nat) returns (j: nat)
    requires i < |sql| && Quote(sql[i])
    ensures i < j <= |sql| && j == i + 1 + QuoteLen(sql[i + 1..], sql[i])
  {
    var c, n := sql[i], |sql|;
    j := i + 1;
    while j < n
      invariant i < j <= n
      invariant j + QuoteLen(sql[j..], c) == i + 1 + QuoteLen(sql[i + 1..], c)
      decreases n - j
    {
      assert sql[j..][1..] == sql[j + 1..];
      if sql[j] == c {
        if j + 1 < n && sql[j + 1] == c {
          assert sql[j..][2..] == sql[j + 2..];
          j := j + 2;
          continue;
        }
        j := j + 1;
        return;
      }
      j := j + 1;
    }
  }

  method WordEnd(sql: string, i: nat) returns (j: nat)
    requires i < |sql|
    ensures i <= j <= |sql| && j == i + WordLen(sql[i..])
  {
    j := i;
    while j < |sql| && WordChar(sql[j])
      invariant i <= j <= |sql|
      invariant j + WordLen(sql[j..]) == i + WordLen(sql[i..])
    {
      assert sql[j..][1..] == sql[j + 1..];
      j := j + 1;
    }
  }

  method NumberEnd(sql: string, i: nat) returns (j: nat)
    requires i < |sql|
    ensures i <= j <= |sql| && j == i + NumberLen(sql[i..])
  {
    j := i;
    while j < |sql| && NumberChar(sql[j])
      invariant i <= j <= |sql|
      invariant j + NumberLen(sql[j..]) == i + NumberLen(sql[i..])
    {
      assert sql[j..][1..] == sql[j + 1..];
      j := j + 1;
    }
  }

  method IsCalled(sql: string, j: nat) returns (r: bool)
    requires j <= |sql|
    ensures r == Called(sql[j..])
  {
    var k := j;
    while k < |sql| && sql[k] in " \t"
      invariant j <= k <= |sql|
      invariant Called(sql[k..]) == Called(sql[j..])
    {
      assert sql[k..][1..] == sql[k + 1..];
      k := k + 1;
    }
    r := k < |sql| && sql[k] == '(';
  }

  /** Scanning the token at `i`, as the branches of the loop do. */
  method TokenEnd(sql: string, i: nat) returns (j: nat)
    requires i < |sql|
    ensures i < j <= |sql| && j == i + TokenLen(sql[i..])
  {
    var n, ch := |sql|, sql[i];
    assert sql[i..][0] == ch && sql[i..][1..] == sql[i + 1..];
    if ch == '-' && Two(sql, i, '-', '-') {
      var r := FindChar(sql, '\n', i);
      UntilAt(sql, i, '\n', r);
      j := if r == -1 then n else r;
    } else if ch == '/' && Two(sql, i, '/', '*') {
      var r := FindPair(sql, '*', '/', i + 2);
      BlockAt(sql, i + 2, r);
      assert sql[i..][2..] == sql[i + 2..];
      j := if r == -1 then n else r + 2;
    } else if Quote(ch) {
      j := QuoteEnd(sql, i);
    } else if ch == '[' {
      var r := FindChar(sql, ']', i + 1);
      BracketAt(sql, i + 1, r);
      j := if r == -1 then n else r + 1;
    } else if WordHead(ch) {
      j := WordEnd(sql, i);
    } else if IsDigit(ch) {
      j := NumberEnd(sql, i);
    } else {
      j := i + 1;
    }
    hide WordLen, NumberLen, QuoteLen, BlockLen, BracketLen, UntilLen;
  }

  function PrevChar(sql: string, i: nat): char
    requires i <= |sql|
  {
    if i > 0 then sql[i - 1] else ' '
  }

  lemma Advance(decide: Decide, sql: string, i: nat, j: nat, word: Option<string>)
    requires i < j <= |sql| && j == i + TokenLen(sql[i..])
    ensures Qualified(decide, PrevChar(sql, i), word, sql[i..]) ==
      PrefixFor(decide, PrevChar(sql, i), word, sql[i..]) + sql[i..j]
      + Qualified(decide, PrevChar(sql, j), NextWord(sql[i..], word), sql[j..])
  {
    var s := sql[i..];
    assert s[..j - i] == sql[i..j] && s[j - i..] == sql[j..] && s[j - i - 1] == sql[j - 1];
    hide TokenLen, PrefixFor, NextWord;
  }

  lemma RegroupPiece(x: string, y: string, z: string, w: string)
    ensures (x + (y + z)) + w == x + (y + z + w)
  {
  }

  /** `qualify_function_calls`: one scan that inserts `decide`'s prefix before a called name. */
  method QualifyFunctionCalls(sql: string, decide: Decide) returns (out: string)
    ensures out == Qualified(decide, ' ', None, sql)
  {
    hide Qualified, TokenLen, Called;
    out := "";
    var i, n := 0, |sql|;
    var prevWord: Option<string> := None;
    assert sql[0..] == sql;
    while i < n
      invariant 0 <= i <= n
      invariant out + Qualified(decide, PrevChar(sql, i), prevWord, sql[i..]) == Qualified(decide, ' ', None, sql)
      decreases n - i
    {
      var ch := sql[i];
      var j := TokenEnd(sql, i);
      ghost var s := sql[i..];
      assert s[0] == ch && s[..j - i] == sql[i..j] && s[j - i..] == sql[j..];
      Advance(decide, sql, i, j, prevWord);
      ghost var was, wordWas := out, prevWord;
      if Two(sql, i, '-', '-') || Two(sql, i, '/', '*') {
        out := out + sql[i..j];
      } else if Quote(ch) || ch == '[' {
        out := out + sql[i..j];
        prevWord := None;
      } else if WordHead(ch) {
        var word := sql[i..j];
        var called := IsCalled(sql, j);
        var preceded := if i > 0 then sql[i - 1] else ' ';
        if called && preceded !in ".@:" {
          var prefix := decide(word, prevWord);
          if prefix.Some? && prefix.value != [] {
            out := out + prefix.value;
          }
        }
        out := out + word;
        prevWord := Some(word);
      } else {
        out := out + sql[i..j];
        if IsDigit(ch) || ch !in " \t\r\n" {
          prevWord := None;
        }
      }
      assert out == was + (PrefixFor(decide, PrevChar(sql, i), wordWas, s) + sql[i..j]);
      assert prevWord == NextWord(s, wordWas);
      RegroupPiece(was, PrefixFor(decide, PrevChar(sql, i), wordWas, s), sql[i..j],
                   Qualified(decide, PrevChar(sql, j), prevWord, sql[j..]));
      i := j;
    }
    assert sql[n..] == [];
    QualifiedEnd(decide, PrevChar(sql, n), prevWord);
  }

  lemma QualifiedEnd(decide: Decide, prev: char, word: Option<string>)
    ensures Qualified(decide, prev, word, []) == []
  {
  }

  // ----- running it twice -----

  /** A prefix is an identifier and a dot. */
  predicate IsPrefix(p: string) {
    && |p| >= 2 && p[|p| - 1] == '.' && WordHead(p[0])
    && forall k :: 0 <= k < |p| - 1 ==> WordChar(p[k])
  }

  ghost predicate GivesPrefixes(decide: Decide) {
    forall name, word :: decide(name, word).Some? && decide(name, word).value != [] ==>
      IsPrefix(decide(name, word).value)
  }

  /** Two texts that a token before them cannot tell apart. */
  predicate SameHead(b: string, c: string) {
    && (b == [] <==> c == [])
    && (b != [] ==> b[0] == c[0] || (WordHead(b[0]) && WordHead(c[0])))
  }

  lemma PrefixIsGood(decide: Decide, prev: char, word: Option<string>, s: string)
    requires s != [] && GivesPrefixes(decide)
    ensures var p := PrefixFor(decide, prev, word, s);
      p != [] ==> IsPrefix(p) && KindOf(s).Word? && prev !in ".@:" && Called(s[TokenLen(s)..])
  {
    hide TokenLen, Called, IsPrefix;
  }

  lemma HeadKept(decide: Decide, prev: char, word: Option<string>, s: string)
    requires GivesPrefixes(decide)
    ensures SameHead(s, Qualified(decide, prev, word, s))
  {
    if s != [] {
      PrefixIsGood(decide, prev, word, s);
      var n := TokenLen(s);
      assert s[..n][0] == s[0];
      hide TokenLen, NextWord, PrefixFor, Called, GivesPrefixes;
    }
  }

  lemma {:induction false} WordStable(a: string, b: string)
    requires (forall k :: 0 <= k < |a| ==> WordChar(a[k])) && (b != [] ==> !WordChar(b[0]))
    ensures WordLen(a + b) == |a|
  {
    assert forall k :: 0 <= k < |a| ==> (a + b)[k] == a[k];
    assert b != [] ==> (a + b)[|a|] == b[0];
  }

  lemma NumberStable(a: string, b: string)
    requires (forall k :: 0 <= k < |a| ==> NumberChar(a[k])) && (b != [] ==> !NumberChar(b[0]))
    ensures NumberLen(a + b) == |a|
  {
    assert forall k :: 0 <= k < |a| ==> (a + b)[k] == a[k];
    assert b != [] ==> (a + b)[|a|] == b[0];
  }

  lemma UntilStable(a: string, b: string, c: char)
    requires (forall k :: 0 <= k < |a| ==> a[k] != c) && (b != [] ==> b[0] == c)
    ensures UntilLen(a + b, c) == |a|
  {
    assert forall k :: 0 <= k < |a| ==> (a + b)[k] == a[k];
    assert b != [] ==> (a + b)[|a|] == b[0];
  }

  lemma {:induction false} BlockStable(s: string, b: string)
    requires s[BlockLen(s)..] == [] ==> b == []
    ensures BlockLen(s[..BlockLen(s)] + b) == BlockLen(s)
  {
    var n := BlockLen(s);
    var t := s[..n] + b;
    if |s| < 2 {
      assert t == s;
    } else if s[0] == '*' && s[1] == '/' {
    } else {
      assert s[1..][BlockLen(s[1..])..] == s[n..];
      BlockStable(s[1..], b);
      assert t[1..] == s[1..][..n - 1] + b;
      BlockTwo(s);
    }
  }

  /** A block comment's rest has its first two characters whenever the text does. */
  lemma BlockTwo(s: string)
    requires |s| >= 2
    ensures BlockLen(s) >= 2
  {
    if |s[1..]| >= 2 {
      assert s[1..] != [];
    }
  }

  lemma {:induction false} BracketStable(s: string, b: string)
    requires s[BracketLen(s)..] == [] ==> b == [] || (s != [] && s[|s| - 1] == ']')
    ensures BracketLen(s[..BracketLen(s)] + b) == BracketLen(s)
  {
    var n := BracketLen(s);
    var t := s[..n] + b;
    if s != [] && s[0] != ']' {
      assert s[1..][n - 1..] == s[n..];
      BracketStable(s[1..], b);
      assert t[1..] == s[1..][..n - 1] + b;
    }
  }

  lemma QuoteStep(h: char, x: string, c: char)
    requires h != c
    ensures QuoteLen([h] + x, c) == 1 + QuoteLen(x, c)
  {
    assert ([h] + x)[1..] == x;
  }

  lemma QuotePair(x: string, c: char)
    ensures QuoteLen([c, c] + x, c) == 2 + QuoteLen(x, c)
  {
    assert ([c, c] + x)[2..] == x;
  }

  lemma QuoteUnfold(s: string, c: char)
    ensures QuoteLen(s, c) ==
      if s == [] then 0
      else if s[0] != c then 1 + QuoteLen(s[1..], c)
      else if |s| > 1 && s[1] == c then 2 + QuoteLen(s[2..], c)
      else 1
  {
  }

  lemma {:induction false} QuoteStable(s: string, c: char, b: string)
    requires s[QuoteLen(s, c)..] == [] ==> b == []
    requires s[QuoteLen(s, c)..] != [] && b != [] ==> b[0] != c
    ensures QuoteLen(s[..QuoteLen(s, c)] + b, c) == QuoteLen(s, c)
  {
    hide QuoteLen;
    QuoteUnfold(s, c);
    var n := QuoteLen(s, c);
    if s == [] {
      assert s[..n] + b == [];
    } else if s[0] != c {
      assert s[1..][n - 1..] == s[n..];
      QuoteStable(s[1..], c, b);
      QuoteStep(s[0], s[1..][..n - 1] + b, c);
      assert s[..n] + b == [s[0]] + (s[1..][..n - 1] + b);
    } else if |s| > 1 && s[1] == c {
      assert s[2..][n - 2..] == s[n..];
      QuoteStable(s[2..], c, b);
      QuotePair(s[2..][..n - 2] + b, c);
      assert s[..n] + b == [c, c] + (s[2..][..n - 2] + b);
    } else {
      var t := s[..n] + b;
      QuoteUnfold(t, c);
      assert t[0] == c && (b != [] ==> t[1] == b[0]);
      assert s[n..] == [] <==> |s| == 1;
    }
  }

  lemma {:induction false} QuoteEndsApart(s: string, c: char)
    ensures QuoteLen(s, c) < |s| ==> s[QuoteLen(s, c)] != c
  {
    if s == [] {
    } else if s[0] != c {
      QuoteEndsApart(s[1..], c);
    } else if |s| > 1 && s[1] == c {
      QuoteEndsApart(s[2..], c);
    }
  }

  /** A token is read alike before two texts it cannot tell apart. */
  lemma Behind(s: string, n: nat, b: string, k: nat)
    requires k <= n <= |s|
    ensures s[k..][..n - k] + b == (s[..n] + b)[k..] && s[k..][n - k..] == s[n..]
  {
  }

  lemma TokenStable(s: string, b: string)
    requires s != [] && SameHead(s[TokenLen(s)..], b)
    ensures var t := s[..TokenLen(s)] + b; KindOf(t) == KindOf(s) && TokenLen(t) == TokenLen(s)
  {
    hide WordLen, NumberLen, QuoteLen, BlockLen, BracketLen, UntilLen;
    var n := TokenLen(s);
    var a, r := s[..n], s[n..];
    var t := a + b;
    assert t[0] == s[0];
    KindStable(s, b);
    match KindOf(s)
    case LineComment =>
      UntilStable(a, b, '\n');
    case BlockComment =>
      Behind(s, n, b, 2);
      BlockStable(s[2..], b);
    case Quoted =>
      Behind(s, n, b, 1);
      QuoteEndsApart(s[1..], s[0]);
      QuoteStable(s[1..], s[0], b);
    case Bracketed =>
      Behind(s, n, b, 1);
      BracketStable(s[1..], b);
    case Word =>
      WordStable(a, b);
    case Number =>
      NumberStable(a, b);
    case Other =>
  }

  lemma KindStable(s: string, b: string)
    requires s != [] && SameHead(s[TokenLen(s)..], b)
    ensures KindOf(s[..TokenLen(s)] + b) == KindOf(s)
  {
    var n := TokenLen(s);
    var t := s[..n] + b;
    assert t[0] == s[0];
    if n > 1 {
      assert t[1] == s[1];
    } else if |s| > 1 {
      assert t[1] == b[0] && s[n..][0] == s[1];
    }
    hide WordLen, NumberLen, QuoteLen, BlockLen, BracketLen, UntilLen;
  }

  lemma Unfold(decide: Decide, prev: char, word: Option<string>, s: string)
    requires s != []
    ensures var n := TokenLen(s);
      Qualified(decide, prev, word, s)
      == PrefixFor(decide, prev, word, s) + (s[..n] + Qualified(decide, s[n - 1], NextWord(s, word), s[n..]))
  {
    hide TokenLen, PrefixFor, NextWord;
  }

  lemma BlankQualified(decide: Decide, prev: char, word: Option<string>, s: string)
    requires s != [] && s[0] in " \t"
    ensures Qualified(decide, prev, word, s) == [s[0]] + Qualified(decide, s[0], NextWord(s, word), s[1..])
  {
    hide Called, NextWord, Qualified, WordLen, NumberLen, QuoteLen, BlockLen, BracketLen, UntilLen;
    Unfold(decide, prev, word, s);
    assert KindOf(s).Other? && TokenLen(s) == 1 && PrefixFor(decide, prev, word, s) == "";
    assert s[..1] == [s[0]];
  }

  lemma CalledHead(s: string, q: string)
    requires s != [] && s[0] !in " \t" && SameHead(s, q)
    ensures Called(q) == Called(s)
  {
  }

  lemma CalledBlank(c: char, q: string)
    requires c in " \t"
    ensures Called([c] + q) == Called(q)
  {
    assert ([c] + q)[1..] == q;
  }

  /** Whether a parenthesis follows is not changed by what is inserted. */
  lemma {:induction false} CalledKept(decide: Decide, prev: char, word: Option<string>, s: string)
    requires GivesPrefixes(decide)
    ensures Called(Qualified(decide, prev, word, s)) == Called(s)
    decreases |s|
  {
    hide Called, Qualified, GivesPrefixes, NextWord;
    if s == [] {
      assert Qualified(decide, prev, word, s) == [] by { NothingQualified(decide, prev, word); }
    } else if s[0] in " \t" {
      BlankQualified(decide, prev, word, s);
      CalledKept(decide, s[0], NextWord(s, word), s[1..]);
      CalledBlank(s[0], s[1..]);
      CalledBlank(s[0], Qualified(decide, s[0], NextWord(s, word), s[1..]));
      assert s == [s[0]] + s[1..];
    } else {
      HeadKept(decide, prev, word, s);
      CalledHead(s, Qualified(decide, prev, word, s));
    }
  }

  lemma NothingQualified(decide: Decide, prev: char, word: Option<string>)
    ensures Qualified(decide, prev, word, []) == []
  {
  }

  /** A token is treated alike before two texts it cannot tell apart. */
  lemma TreatedAlike(decide: Decide, prev: char, word: Option<string>, s: string, r: string)
    requires s != [] && SameHead(s[TokenLen(s)..], r) && Called(s[TokenLen(s)..]) == Called(r)
    ensures var n := TokenLen(s); var x := s[..n] + r;
      && Qualified(decide, prev, word, x)
         == PrefixFor(decide, prev, word, s) + (s[..n] + Qualified(decide, s[n - 1], NextWord(s, word), r))
  {
    TokenStable(s, r);
    var n := TokenLen(s);
    var x := s[..n] + r;
    Unfold(decide, prev, word, x);
    assert x[..n] == s[..n] && x[n..] == r && x[0] == s[0] && x[n - 1] == s[n - 1];
    hide TokenLen, KindOf, Called, Qualified;
  }

  lemma ReadDot(decide: Decide, prev: char, word: Option<string>, y: string)
    ensures Qualified(decide, prev, word, "." + y) == "." + Qualified(decide, '.', None, y)
  {
    hide Qualified, WordLen, NumberLen, QuoteLen, BlockLen, BracketLen, UntilLen, Called;
    var s := "." + y;
    Unfold(decide, prev, word, s);
    assert KindOf(s).Other? && TokenLen(s) == 1 && s[1..] == y && s[..1] == "." && s[0] == '.';
    assert PrefixFor(decide, prev, word, s) == "" && NextWord(s, word) == None;
    var q := Qualified(decide, '.', None, y);
    assert Qualified(decide, prev, word, s) == "" + ("." + q);
  }

  lemma DotIsNoCall(y: string)
    requires y != [] && y[0] == '.'
    ensures !Called(y)
  {
  }

  lemma ReadName(decide: Decide, prev: char, word: Option<string>, id: string, y: string)
    requires id != [] && WordHead(id[0]) && (forall k :: 0 <= k < |id| ==> WordChar(id[k]))
    requires y != [] && y[0] == '.'
    ensures Qualified(decide, prev, word, id + y) == id + Qualified(decide, id[|id| - 1], Some(id), y)
  {
    var s := id + y;
    hide Qualified, WordLen, Called;
    Unfold(decide, prev, word, s);
    WordStable(id, y);
    assert s[0] == id[0] && s[..|id|] == id && s[|id|..] == y && s[|id| - 1] == id[|id| - 1];
    assert KindOf(s).Word? && TokenLen(s) == |id|;
    assert !Called(y) by { DotIsNoCall(y); }
  }

  /** An inserted prefix is read as a name and a dot, and then nothing is inserted. */
  lemma ReadPrefix(decide: Decide, prev: char, word: Option<string>, p: string, y: string)
    requires IsPrefix(p)
    ensures Qualified(decide, prev, word, p + y) == p + Qualified(decide, '.', None, y)
  {
    hide Qualified;
    var id := p[..|p| - 1];
    assert p == id + "." && p + y == id + ("." + y);
    ReadName(decide, prev, word, id, "." + y);
    ReadDot(decide, id[|id| - 1], Some(id), y);
    var q := Qualified(decide, '.', None, y);
    assert Qualified(decide, prev, word, p + y) == id + ("." + q);
    assert id + ("." + q) == p + q;
  }

  lemma AfterDot(decide: Decide, s: string)
    requires s != [] && KindOf(s).Word?
    ensures PrefixFor(decide, '.', None, s) == "" && NextWord(s, None) == Some(s[..TokenLen(s)])
  {
    hide TokenLen;
  }

  /** Qualifying twice is qualifying once, for every pure choice of identifier prefixes. */
  lemma {:induction false} Idempotent(decide: Decide, prev: char, word: Option<string>, s: string)
    requires GivesPrefixes(decide)
    ensures var q := Qualified(decide, prev, word, s); Qualified(decide, prev, word, q) == q
    decreases |s|
  {
    if s != [] {
      hide *;
      var n := TokenLen(s);
      var last, next := s[n - 1], NextWord(s, word);
      var r := Qualified(decide, last, next, s[n..]);
      Idempotent(decide, last, next, s[n..]);
      HeadKept(decide, last, next, s[n..]);
      CalledKept(decide, last, next, s[n..]);
      PrefixIsGood(decide, prev, word, s);
      Unfold(decide, prev, word, s);
      var p := PrefixFor(decide, prev, word, s);
      var y := s[..n] + r;
      var q := Qualified(decide, prev, word, s);
      assert q == p + y;
      if p == "" {
        assert q == y;
        TreatedAlike(decide, prev, word, s, r);
        assert Qualified(decide, prev, word, q) == q;
      } else {
        TreatedAlike(decide, '.', None, s, r);
        AfterDot(decide, s);
        WordNext(s, word);
        ReadPrefix(decide, prev, word, p, y);
        assert Qualified(decide, '.', None, y) == y;
        assert Qualified(decide, prev, word, q) == q;
      }
    } else {
      QualifiedEnd(decide, prev, word);
    }
  }

  lemma WordNext(s: string, word: Option<string>)
    requires s != [] && KindOf(s).Word?
    ensures NextWord(s, word) == Some(s[..TokenLen(s)])
  {
  }

  // ----- where prefixes are inserted -----

  /** The insertions into `sql` from `i` on: a position and the prefix put before it. */
  function Insertions(decide: Decide, sql: string, i: nat, word: Option<string>): seq<(nat, string)>
    requires i <= |sql|
    decreases |sql| - i
  {
    if i == |sql| then []
    else
      var s := sql[i..];
      var p := PrefixFor(decide, PrevChar(sql, i), word, s);
      (if p == "" then [] else [(i, p)]) + Insertions(decide, sql, i + TokenLen(s), NextWord(s, word))
  }

  /** `sql` from `i` on with the insertions made; without their prefixes it is `sql[i..]` itself. */
  ghost function Woven(sql: string, i: nat, ins: seq<(nat, string)>): string
    requires i <= |sql| && Increasing(sql, i, ins)
    decreases |ins|
  {
    if ins == [] then sql[i..]
    else sql[i..ins[0].0] + ins[0].1 + Woven(sql, ins[0].0, ins[1..])
  }

  ghost predicate Increasing(sql: string, i: nat, ins: seq<(nat, string)>)
    decreases |ins|
  {
    ins != [] ==> i <= ins[0].0 < |sql| && Increasing(sql, ins[0].0, ins[1..])
  }

  lemma WovenEarlier(sql: string, i: nat, j: nat, ins: seq<(nat, string)>)
    requires i <= j <= |sql| && Increasing(sql, j, ins)
    ensures Increasing(sql, i, ins) && Woven(sql, i, ins) == sql[i..j] + Woven(sql, j, ins)
  {
    if ins == [] {
      assert sql[i..] == sql[i..j] + sql[j..];
    } else {
      assert sql[i..ins[0].0] == sql[i..j] + sql[j..ins[0].0];
      hide Increasing;
      assert Woven(sql, j, ins) == sql[j..ins[0].0] + (ins[0].1 + Woven(sql, ins[0].0, ins[1..]));
      assert Woven(sql, i, ins) == sql[i..ins[0].0] + (ins[0].1 + Woven(sql, ins[0].0, ins[1..]));
    }
  }

  lemma InsertionsStep(decide: Decide, sql: string, i: nat, word: Option<string>)
    requires i < |sql|
    ensures var s := sql[i..]; var p := PrefixFor(decide, PrevChar(sql, i), word, s);
      Insertions(decide, sql, i, word)
      == (if p == "" then [] else [(i, p)]) + Insertions(decide, sql, i + TokenLen(s), NextWord(s, word))
  {
    hide TokenLen, PrefixFor, NextWord;
  }

  lemma WovenHead(sql: string, i: nat, p: string, rest: seq<(nat, string)>)
    requires i < |sql| && Increasing(sql, i, rest)
    ensures Increasing(sql, i, [(i, p)] + rest) && Woven(sql, i, [(i, p)] + rest) == p + Woven(sql, i, rest)
  {
    var ins := [(i, p)] + rest;
    assert ins[1..] == rest && ins[0] == (i, p);
    assert Increasing(sql, i, ins);
    assert sql[i..i] + p == p;
    assert Woven(sql, i, ins) == sql[i..i] + p + Woven(sql, i, rest);
  }

  lemma WovenNext(sql: string, i: nat, j: nat, p: string, rest: seq<(nat, string)>)
    requires i < j <= |sql| && Increasing(sql, j, rest)
    ensures var ins := (if p == "" then [] else [(i, p)]) + rest;
      Increasing(sql, i, ins) && Woven(sql, i, ins) == p + sql[i..j] + Woven(sql, j, rest)
  {
    WovenEarlier(sql, i, j, rest);
    var w := Woven(sql, j, rest);
    if p == "" {
      assert [] + rest == rest;
      assert p + sql[i..j] == sql[i..j];
    } else {
      WovenHead(sql, i, p, rest);
      assert p + (sql[i..j] + w) == p + sql[i..j] + w;
    }
    hide Woven, Increasing;
  }

  /** From `i` on, qualifying makes the insertions and changes nothing else. */
  ghost predicate Inserts(decide: Decide, sql: string, i: nat, word: Option<string>)
    requires i <= |sql|
  {
    var ins := Insertions(decide, sql, i, word);
    Increasing(sql, i, ins) && Qualified(decide, PrevChar(sql, i), word, sql[i..]) == Woven(sql, i, ins)
  }

  lemma InsertsStep(decide: Decide, sql: string, i: nat, word: Option<string>)
    requires i < |sql| && Inserts(decide, sql, i + TokenLen(sql[i..]), NextWord(sql[i..], word))
    ensures Inserts(decide, sql, i, word)
  {
    hide Qualified, Insertions, Increasing, Woven, TokenLen, NextWord, PrefixFor;
    var s := sql[i..];
    var j := i + TokenLen(s);
    InsertionsStep(decide, sql, i, word);
    Advance(decide, sql, i, j, word);
    WovenNext(sql, i, j, PrefixFor(decide, PrevChar(sql, i), word, s), Insertions(decide, sql, j, NextWord(s, word)));
  }

  lemma NothingInserted(decide: Decide, sql: string, word: Option<string>)
    ensures Inserts(decide, sql, |sql|, word)
  {
  }

  /** The result is the input with the insertions made, and with nothing else changed. */
  lemma {:induction false} OnlyInserts(decide: Decide, sql: string, i: nat, word: Option<string>)
    requires i <= |sql|
    ensures Inserts(decide, sql, i, word)
    decreases |sql| - i
  {
    hide Inserts, TokenLen, NextWord;
    if i < |sql| {
      OnlyInserts(decide, sql, i + TokenLen(sql[i..]), NextWord(sql[i..], word));
      InsertsStep(decide, sql, i, word);
      assert Inserts(decide, sql, i, word);
    } else {
      NothingInserted(decide, sql, word);
    }
  }

  /** What a character is read as, by an automaton that reads one character at a time; in `Code` a
      token begins. */
  datatype Mode =
    | Code | Line | BlockHead | Block | BlockTail | InQuote(c: char) | QuoteTail(c: char) | InBracket | InWord
    | InNumber

  function StepMode(s: string, i: nat, m: Mode): Mode
    requires i < |s|
  {
    match m
    case Code =>
      if Two(s, i, '-', '-') then Line
      else if Two(s, i, '/', '*') then BlockHead
      else if Quote(s[i]) then InQuote(s[i])
      else if s[i] == '[' then InBracket
      else if WordHead(s[i]) then WordMode(s, i + 1)
      else if IsDigit(s[i]) then NumberMode(s, i + 1)
      else Code
    case Line => if i + 1 < |s| && s[i + 1] != '\n' then Line else Code
    case BlockHead => Block
    case Block => if Two(s, i, '*', '/') then BlockTail else Block
    case BlockTail => Code
    case InQuote(c) => if s[i] != c then m else if i + 1 < |s| && s[i + 1] == c then QuoteTail(c) else Code
    case QuoteTail(c) => InQuote(c)
    case InBracket => if s[i] == ']' then Code else InBracket
    case InWord => WordMode(s, i + 1)
    case InNumber => NumberMode(s, i + 1)
  }

  function WordMode(s: string, i: nat): Mode {
    if i < |s| && WordChar(s[i]) then InWord else Code
  }

  function NumberMode(s: string, i: nat): Mode {
    if i < |s| && NumberChar(s[i]) then InNumber else Code
  }

  function ModeAt(s: string, i: nat): Mode
    requires i <= |s|
  {
    if i == 0 then Code else StepMode(s, i - 1, ModeAt(s, i - 1))
  }

  ghost predicate CodeAt(s: string, i: nat) {
    i < |s| ==> ModeAt(s, i).Code?
  }

  lemma NextMode(s: string, i: nat)
    requires i < |s|
    ensures ModeAt(s, i + 1) == StepMode(s, i, ModeAt(s, i))
  {
  }

  /** The modes a token of that kind is read in after its first character. */
  predicate ModeFor(kind: Kind, m: Mode) {
    match kind
    case LineComment => m.Line?
    case BlockComment => m.BlockHead? || m.Block? || m.BlockTail?
    case Quoted => m.InQuote? || m.QuoteTail?
    case Bracketed => m.InBracket?
    case Word => m.InWord?
    case Number => m.InNumber?
    case Other => false
  }

  /** From `i` to `k` the text is read as one token of that kind goes on. */
  ghost predicate ReadAs(s: string, i: nat, k: nat, kind: Kind) {
    i <= k <= |s| && forall j :: i <= j < k ==> ModeFor(kind, ModeAt(s, j))
  }

  lemma ReadOne(s: string, i: nat, k: nat, kind: Kind)
    requires i < |s| && ModeFor(kind, ModeAt(s, i)) && ReadAs(s, i + 1, k, kind)
    ensures ReadAs(s, i, k, kind)
  {
    hide ModeAt, ModeFor;
  }

  lemma {:induction false} LineRun(s: string, i: nat, k: nat)
    requires i < k <= |s| && ModeAt(s, i).Code? && Two(s, i, '-', '-')
    requires forall j :: i <= j < k ==> s[j] != '\n'
    ensures ModeAt(s, k) == if k < |s| && s[k] != '\n' then Line else Code
    ensures ReadAs(s, i + 1, k, LineComment)
  {
    hide ModeAt;
    NextMode(s, k - 1);
    if k > i + 1 {
      LineRun(s, i, k - 1);
    }
  }

  lemma {:induction false} BlockRun(s: string, k: nat)
    requires k <= |s| && ModeAt(s, k).Block?
    ensures var e := k + BlockLen(s[k..]); CodeAt(s, e) && ReadAs(s, k, e, BlockComment)
    decreases |s| - k
  {
    hide ModeAt;
    if k + 1 < |s| {
      assert s[k..][1..] == s[k + 1..];
      NextMode(s, k);
      if Two(s, k, '*', '/') {
        NextMode(s, k + 1);
      } else {
        BlockRun(s, k + 1);
        ReadOne(s, k, k + BlockLen(s[k..]), BlockComment);
      }
    }
  }

  lemma {:induction false} QuoteRun(s: string, k: nat, c: char)
    requires k <= |s| && ModeAt(s, k) == InQuote(c)
    ensures var e := k + QuoteLen(s[k..], c); CodeAt(s, e) && ReadAs(s, k, e, Quoted)
    decreases |s| - k
  {
    hide ModeAt, ReadAs;
    if k < |s| {
      var e := k + QuoteLen(s[k..], c);
      assert s[k..][1..] == s[k + 1..];
      NextMode(s, k);
      if s[k] != c {
        QuoteRun(s, k + 1, c);
      } else if k + 1 < |s| && s[k + 1] == c {
        assert s[k..][2..] == s[k + 2..];
        NextMode(s, k + 1);
        QuoteRun(s, k + 2, c);
        ReadOne(s, k + 1, e, Quoted);
      } else {
        NothingRead(s, k + 1, Quoted);
      }
      ReadOne(s, k, e, Quoted);
    } else {
      NothingRead(s, k, Quoted);
    }
  }

  lemma NothingRead(s: string, k: nat, kind: Kind)
    requires k <= |s|
    ensures ReadAs(s, k, k, kind)
  {
  }

  lemma {:induction false} BracketRun(s: string, k: nat)
    requires k <= |s| && ModeAt(s, k).InBracket?
    ensures var e := k + BracketLen(s[k..]); CodeAt(s, e) && ReadAs(s, k, e, Bracketed)
    decreases |s| - k
  {
    hide ModeAt;
    if k < |s| {
      assert s[k..][1..] == s[k + 1..];
      NextMode(s, k);
      if s[k] != ']' {
        BracketRun(s, k + 1);
        ReadOne(s, k, k + BracketLen(s[k..]), Bracketed);
      }
    }
  }

  lemma {:induction false} WordRun(s: string, i: nat, k: nat)
    requires i < k <= |s| && ModeAt(s, i).Code? && WordHead(s[i])
    requires forall j :: i <= j < k ==> WordChar(s[j])
    ensures ModeAt(s, k) == WordMode(s, k) && ReadAs(s, i + 1, k, Word)
  {
    hide ModeAt;
    NextMode(s, k - 1);
    if k > i + 1 {
      WordRun(s, i, k - 1);
    }
  }

  lemma {:induction false} NumberRun(s: string, i: nat, k: nat)
    requires i < k <= |s| && ModeAt(s, i).Code? && IsDigit(s[i])
    requires forall j :: i <= j < k ==> NumberChar(s[j])
    ensures ModeAt(s, k) == NumberMode(s, k) && ReadAs(s, i + 1, k, Number)
  {
    hide ModeAt;
    NextMode(s, k - 1);
    if k > i + 1 {
      NumberRun(s, i, k - 1);
    }
  }

  lemma LineKeepsCode(s: string, i: nat)
    requires i < |s| && ModeAt(s, i).Code? && Two(s, i, '-', '-')
    ensures var e := i + UntilLen(s[i..], '\n'); CodeAt(s, e) && ReadAs(s, i + 1, e, LineComment)
  {
    hide ModeAt, UntilLen, ReadAs;
    var t := s[i..];
    var n := UntilLen(t, '\n');
    assert forall k :: i <= k < i + n ==> s[k] == t[k - i];
    assert i + n < |s| ==> s[i + n] == t[n];
    assert t[0] == s[i];
    LineRun(s, i, i + n);
  }

  lemma WordKeepsCode(s: string, i: nat)
    requires i < |s| && ModeAt(s, i).Code? && WordHead(s[i])
    ensures var e := i + WordLen(s[i..]); CodeAt(s, e) && ReadAs(s, i + 1, e, Word)
  {
    hide ModeAt, WordLen, ReadAs;
    var t := s[i..];
    var n := WordLen(t);
    assert forall k :: i <= k < i + n ==> s[k] == t[k - i];
    assert i + n < |s| ==> s[i + n] == t[n];
    assert t[0] == s[i];
    WordRun(s, i, i + n);
  }

  lemma NumberKeepsCode(s: string, i: nat)
    requires i < |s| && ModeAt(s, i).Code? && IsDigit(s[i])
    ensures var e := i + NumberLen(s[i..]); CodeAt(s, e) && ReadAs(s, i + 1, e, Number)
  {
    hide ModeAt, NumberLen, ReadAs;
    var t := s[i..];
    var n := NumberLen(t);
    assert forall k :: i <= k < i + n ==> s[k] == t[k - i];
    assert i + n < |s| ==> s[i + n] == t[n];
    assert t[0] == s[i];
    NumberRun(s, i, i + n);
  }

  lemma BlockKeepsCode(s: string, i: nat)
    requires i < |s| && ModeAt(s, i).Code? && Two(s, i, '/', '*')
    ensures var e := i + 2 + BlockLen(s[i + 2..]); CodeAt(s, e) && ReadAs(s, i + 1, e, BlockComment)
  {
    hide ModeAt, BlockLen, ReadAs;
    NextMode(s, i);
    NextMode(s, i + 1);
    BlockRun(s, i + 2);
    ReadOne(s, i + 1, i + 2 + BlockLen(s[i + 2..]), BlockComment);
  }

  /** The token at `i`, in terms of the whole text: how it begins, and how long it is. */
  lemma KindHere(s: string, i: nat)
    requires i < |s|
    ensures match KindOf(s[i..])
      case LineComment => Two(s, i, '-', '-')
      case BlockComment => Two(s, i, '/', '*') && i + 2 <= |s|
      case Quoted => StepMode(s, i, Code) == InQuote(s[i])
      case Bracketed => StepMode(s, i, Code) == InBracket
      case Word => WordHead(s[i])
      case Number => IsDigit(s[i])
      case Other => true
  {
    FirstOf(s, i);
  }

  lemma LengthHere(s: string, i: nat)
    requires i < |s|
    ensures match KindOf(s[i..])
      case LineComment => TokenLen(s[i..]) == UntilLen(s[i..], '\n')
      case BlockComment => i + 2 <= |s| && TokenLen(s[i..]) == 2 + BlockLen(s[i + 2..])
      case Quoted => TokenLen(s[i..]) == 1 + QuoteLen(s[i + 1..], s[i])
      case Bracketed => TokenLen(s[i..]) == 1 + BracketLen(s[i + 1..])
      case Word => TokenLen(s[i..]) == WordLen(s[i..])
      case Number => TokenLen(s[i..]) == NumberLen(s[i..])
      case Other => TokenLen(s[i..]) == 1
  {
    hide WordLen, NumberLen, QuoteLen, BlockLen, BracketLen, UntilLen;
    var t := s[i..];
    assert t[0] == s[i] && t[1..] == s[i + 1..];
    if |t| >= 2 {
      assert t[2..] == s[i + 2..];
    }
  }

  /** A token that starts in code ends in code, and is read as one of its kind, by the automaton. */
  lemma TokenKeepsCode(s: string, i: nat)
    requires i < |s| && ModeAt(s, i).Code?
    ensures var e := i + TokenLen(s[i..]); CodeAt(s, e) && ReadAs(s, i + 1, e, KindOf(s[i..]))
  {
    hide WordLen, NumberLen, QuoteLen, BlockLen, BracketLen, UntilLen, ModeAt, CodeAt, ReadAs, TokenLen, KindOf;
    hide StepMode;
    KindHere(s, i);
    LengthHere(s, i);
    NextMode(s, i);
    match KindOf(s[i..])
    case LineComment => LineKeepsCode(s, i);
    case BlockComment => BlockKeepsCode(s, i);
    case Quoted => QuoteRun(s, i + 1, s[i]);
    case Bracketed => BracketRun(s, i + 1);
    case Word => WordKeepsCode(s, i);
    case Number => NumberKeepsCode(s, i);
    case Other =>
      OtherKeepsCode(s, i);
      NothingRead(s, i + 1, Other);
  }

  lemma OtherKeepsCode(s: string, i: nat)
    requires i < |s| && ModeAt(s, i).Code? && KindOf(s[i..]).Other?
    ensures CodeAt(s, i + 1)
  {
    var t := s[i..];
    assert t[0] == s[i] && (i + 1 < |s| ==> t[1] == s[i + 1]);
    NextMode(s, i);
    hide ModeAt;
  }

  /** Before a name that is called, is not qualified and is no variable, in code. */
  ghost predicate MayInsert(s: string, p: nat) {
    && p < |s| && ModeAt(s, p).Code? && WordHead(s[p])
    && PrevChar(s, p) !in ".@:" && Called(s[p + WordLen(s[p..])..])
  }

  lemma InsertedHere(decide: Decide, sql: string, i: nat, word: Option<string>)
    requires i < |sql| && ModeAt(sql, i).Code? && PrefixFor(decide, PrevChar(sql, i), word, sql[i..]) != ""
    ensures MayInsert(sql, i)
  {
    hide ModeAt, WordLen, Called;
    var s := sql[i..];
    assert s[TokenLen(s)..] == sql[i + TokenLen(s)..];
  }

  /** Nothing is inserted inside a literal, a comment or a delimited identifier, nor before a name
      preceded by a dot, an at sign or a colon. */
  lemma {:induction false} InsertedInCode(decide: Decide, sql: string, i: nat, word: Option<string>, k: nat)
    requires i <= |sql| && CodeAt(sql, i) && k < |Insertions(decide, sql, i, word)|
    ensures MayInsert(sql, Insertions(decide, sql, i, word)[k].0)
    decreases |sql| - i
  {
    hide Insertions, ModeAt, TokenLen, NextWord, PrefixFor, MayInsert, ReadAs;
    if i < |sql| {
      var s := sql[i..];
      var p, rest := PrefixFor(decide, PrevChar(sql, i), word, s),
        Insertions(decide, sql, i + TokenLen(s), NextWord(s, word));
      TokenKeepsCode(sql, i);
      InsertionsStep(decide, sql, i, word);
      if p == "" {
        assert [] + rest == rest;
        InsertedInCode(decide, sql, i + TokenLen(s), NextWord(s, word), k);
      } else {
        InsertedHere(decide, sql, i, word);
        assert Insertions(decide, sql, i, word)[0].0 == i;
        if k > 0 {
          InsertedInCode(decide, sql, i + TokenLen(s), NextWord(s, word), k - 1);
        }
      }
    } else {
      NoInsertions(decide, sql, word);
    }
  }

  lemma NoInsertions(decide: Decide, sql: string, word: Option<string>)
    ensures Insertions(decide, sql, |sql|, word) == []
  {
  }

  // ----- which prefixes are inserted -----

  /** What a character is to the names after it: nothing, part of a word, or something that is none. */
  datatype Reading = Skipped | Worded | Opaque

  function ReadingAt(s: string, i: nat): Reading
    requires i < |s|
  {
    match ModeAt(s, i)
    case Code =>
      if Two(s, i, '-', '-') || Two(s, i, '/', '*') || s[i] in " \t\r\n" then Skipped
      else if WordHead(s[i]) then Worded else Opaque
    case Line | BlockHead | Block | BlockTail => Skipped
    case InWord => Worded
    case _ => Opaque
  }

  /** Where the token begins that `i` is part of. */
  function TokenStart(s: string, i: nat): (a: nat)
    requires i <= |s|
    ensures a <= i
  {
    if i == 0 || ModeAt(s, i).Code? then i else TokenStart(s, i - 1)
  }

  /** The last word before `i`, if nothing but white space and comments stands between. */
  function BareWordBefore(s: string, i: nat): Option<string>
    requires i <= |s|
  {
    if i == 0 then None
    else match ReadingAt(s, i - 1)
      case Skipped => BareWordBefore(s, i - 1)
      case Worded => Some(s[TokenStart(s, i - 1)..i])
      case Opaque => None
  }

  /** A word from `i` to `e`, in code, and an opening parenthesis at `f` after blanks and tabs. */
  ghost predicate CallAt(s: string, i: nat, e: nat, f: nat) {
    && i < e <= f < |s|
    && ModeAt(s, i).Code? && WordHead(s[i])
    && (forall k :: i <= k < e ==> WordChar(s[k])) && !WordChar(s[e])
    && (forall k :: e <= k < f ==> s[k] in " \t") && s[f] == '('
  }

  /** `p` belongs before the name at `i`: a call, neither qualified nor a variable, for which that prefix
      is chosen from the name and the bare word before it. */
  ghost predicate Wanted(decide: Decide, s: string, i: nat, p: string) {
    exists e: nat, f: nat :: CallAt(s, i, e, f) && PrevChar(s, i) !in ".@:" && p != "" &&
      decide(s[i..e], BareWordBefore(s, i)) == Some(p)
  }

  lemma {:induction false} BackOver(s: string, i: nat, k: nat)
    requires i <= k <= |s| && forall j :: i <= j < k ==> ReadingAt(s, j).Skipped?
    ensures BareWordBefore(s, k) == BareWordBefore(s, i)
  {
    hide ReadingAt, TokenStart;
    if k > i {
      BackOver(s, i, k - 1);
    }
  }

  lemma {:induction false} StartOfWord(s: string, i: nat, k: nat)
    requires i <= k <= |s| && ModeAt(s, i).Code? && ReadAs(s, i + 1, k + 1, Word)
    ensures TokenStart(s, k) == i
  {
    hide ModeAt;
    if k > i {
      StartOfWord(s, i, k - 1);
    }
  }

  lemma WordBeforeEnd(s: string, i: nat, e: nat)
    requires i < e <= |s| && ModeAt(s, i).Code? && WordHead(s[i]) && ReadAs(s, i + 1, e, Word)
    ensures BareWordBefore(s, e) == Some(s[i..e])
  {
    hide ModeAt, TokenStart;
    StartOfWord(s, i, e - 1);
    if e - 1 > i {
      assert ModeFor(Word, ModeAt(s, e - 1));
    }
  }

  lemma SkippedToken(s: string, i: nat, e: nat)
    requires i < e <= |s| && ModeAt(s, i).Code?
    requires KindOf(s[i..]).LineComment? || KindOf(s[i..]).BlockComment?
    requires ReadAs(s, i + 1, e, KindOf(s[i..]))
    ensures BareWordBefore(s, e) == BareWordBefore(s, i)
  {
    hide ModeAt, BareWordBefore;
    FirstOf(s, i);
    forall j | i <= j < e ensures ReadingAt(s, j).Skipped? {
      if j > i {
        assert ModeFor(KindOf(s[i..]), ModeAt(s, j));
      }
    }
    BackOver(s, i, e);
  }

  lemma FirstOf(s: string, i: nat)
    requires i < |s|
    ensures s[i..][0] == s[i]
    ensures Two(s[i..], 0, '-', '-') == Two(s, i, '-', '-') && Two(s[i..], 0, '/', '*') == Two(s, i, '/', '*')
  {
  }

  lemma OpaqueToken(s: string, i: nat, e: nat)
    requires i < e <= |s| && ModeAt(s, i).Code?
    requires ReadAs(s, i + 1, e, KindOf(s[i..]))
    requires var kind := KindOf(s[i..]);
      kind.Quoted? || kind.Bracketed? || kind.Number? || (kind.Other? && e == i + 1 && s[i] !in " \t\r\n")
    ensures BareWordBefore(s, e) == None
  {
    hide ModeAt, TokenStart;
    FirstOf(s, i);
    if e - 1 > i {
      assert ModeFor(KindOf(s[i..]), ModeAt(s, e - 1));
    }
  }

  /** The word the loop carries is the bare word before the place it has reached. */
  lemma WordCarried(s: string, i: nat)
    requires i < |s| && ModeAt(s, i).Code?
    ensures BareWordBefore(s, i + TokenLen(s[i..])) == NextWord(s[i..], BareWordBefore(s, i))
  {
    hide ModeAt, TokenLen, ReadAs, BareWordBefore;
    var t := s[i..];
    var e := i + TokenLen(t);
    TokenKeepsCode(s, i);
    FirstOf(s, i);
    assert t[..e - i] == s[i..e];
    match KindOf(t)
    case LineComment | BlockComment => SkippedToken(s, i, e);
    case Word => WordBeforeEnd(s, i, e);
    case Quoted | Bracketed | Number => OpaqueToken(s, i, e);
    case Other =>
      OtherLength(t);
      if s[i] in " \t\r\n" {
        BlankToken(s, i);
      } else {
        OpaqueToken(s, i, e);
      }
  }

  lemma OtherLength(t: string)
    requires t != [] && KindOf(t).Other?
    ensures TokenLen(t) == 1
  {
  }

  lemma BlankToken(s: string, i: nat)
    requires i < |s| && ModeAt(s, i).Code? && s[i] in " \t\r\n"
    ensures BareWordBefore(s, i + 1) == BareWordBefore(s, i)
  {
    hide ModeAt, TokenStart;
  }

  lemma {:induction false} CalledIs(s: string, k: nat)
    requires k <= |s|
    ensures Called(s[k..]) <==>
      exists f :: k <= f < |s| && s[f] == '(' && forall j :: k <= j < f ==> s[j] in " \t"
    decreases |s| - k
  {
    if k < |s| {
      assert s[k..][1..] == s[k + 1..];
      CalledIs(s, k + 1);
    }
  }

  lemma WordLenIs(s: string, i: nat, e: nat)
    requires i < e < |s| && (forall k :: i <= k < e ==> WordChar(s[k])) && !WordChar(s[e])
    ensures WordLen(s[i..]) == e - i
  {
    hide WordLen, WordChar;
    var t := s[i..];
    var n := WordLen(t);
    assert t[e - i] == s[e];
    assert n < |t| ==> t[n] == s[i + n];
  }

  lemma CallIs(s: string, i: nat)
    requires i < |s| && ModeAt(s, i).Code? && WordHead(s[i])
    ensures var e := i + WordLen(s[i..]); Called(s[e..]) <==> exists f: nat :: CallAt(s, i, e, f)
  {
    hide ModeAt, WordLen, Called, WordChar;
    var t := s[i..];
    var e := i + WordLen(t);
    assert t[0] == s[i] && WordChar(t[0]) by { HeadIsWordChar(s[i]); }
    assert forall k :: i <= k < e ==> s[k] == t[k - i];
    assert e < |s| ==> s[e] == t[e - i];
    CalledIs(s, e);
    if Called(s[e..]) {
      var f :| e <= f < |s| && s[f] == '(' && forall j :: e <= j < f ==> s[j] in " \t";
      assert CallAt(s, i, e, f);
    }
  }

  lemma HeadIsWordChar(c: char)
    requires WordHead(c)
    ensures WordChar(c)
  {
  }

  lemma CallEnd(s: string, i: nat, e: nat, f: nat)
    requires CallAt(s, i, e, f)
    ensures e == i + WordLen(s[i..]) && KindOf(s[i..]).Word?
  {
    hide ModeAt, WordLen;
    FirstOf(s, i);
    WordLenIs(s, i, e);
  }

  /** At the start of a token: the prefix put there is the one that is wanted. */
  lemma PrefixIff(decide: Decide, s: string, i: nat, p: string)
    requires i < |s| && ModeAt(s, i).Code? && p != ""
    ensures PrefixFor(decide, PrevChar(s, i), BareWordBefore(s, i), s[i..]) == p <==> Wanted(decide, s, i, p)
  {
    hide ModeAt, WordLen, Called, BareWordBefore, CallAt;
    var t := s[i..];
    FirstOf(s, i);
    var e := i + WordLen(t);
    assert s[i..e] == t[..e - i] && t[e - i..] == s[e..];
    if KindOf(t).Word? {
      CallIs(s, i);
    }
    forall a: nat, b: nat | CallAt(s, i, a, b) ensures a == e && KindOf(t).Word? && CallAt(s, i, e, b) {
      CallEnd(s, i, a, b);
    }
  }

  lemma WantedInCode(decide: Decide, s: string, i: nat, p: string)
    requires Wanted(decide, s, i, p)
    ensures i < |s| && p != "" && ModeAt(s, i).Code?
  {
  }

  /** Inside a token nothing is wanted. */
  lemma InsideToken(decide: Decide, s: string, i: nat, x: nat, p: string)
    requires i < |s| && ModeAt(s, i).Code? && i < x < i + TokenLen(s[i..])
    ensures !Wanted(decide, s, x, p)
  {
    hide ModeAt, TokenLen, Wanted;
    TokenKeepsCode(s, i);
    assert ModeFor(KindOf(s[i..]), ModeAt(s, x));
    if Wanted(decide, s, x, p) {
      WantedInCode(decide, s, x, p);
    }
  }

  lemma {:induction false} InsertedFrom(decide: Decide, sql: string, i: nat, x: nat, p: string)
    requires i <= |sql| && CodeAt(sql, i)
    ensures (x, p) in Insertions(decide, sql, i, BareWordBefore(sql, i)) <==> i <= x && Wanted(decide, sql, x, p)
    decreases |sql| - i
  {
    hide Insertions, ModeAt, TokenLen, NextWord, PrefixFor, ReadAs, BareWordBefore, Wanted;
    if Wanted(decide, sql, x, p) {
      WantedInCode(decide, sql, x, p);
    }
    if i < |sql| {
      var s, word := sql[i..], BareWordBefore(sql, i);
      var j := i + TokenLen(s);
      TokenKeepsCode(sql, i);
      WordCarried(sql, i);
      InsertionsStep(decide, sql, i, word);
      InsertedFrom(decide, sql, j, x, p);
      if p != "" {
        PrefixIff(decide, sql, i, p);
      }
      if i < x < j {
        InsideToken(decide, sql, i, x, p);
      }
    } else {
      NoInsertions(decide, sql, BareWordBefore(sql, i));
    }
  }

  /** A prefix is inserted exactly where the name of a call begins in code, neither qualified nor a
      variable, and it is the one chosen for the name and the bare word before it. */
  lemma InsertedIff(decide: Decide, sql: string, i: nat, p: string)
    ensures (i, p) in Insertions(decide, sql, 0, None) <==> Wanted(decide, sql, i, p)
  {
    hide Insertions, Wanted;
    InsertedFrom(decide, sql, 0, i, p);
  }

  /** No position gets two prefixes. */
  lemma {:induction false} InsertedOnce(decide: Decide, sql: string, i: nat, word: Option<string>)
    requires i <= |sql|
    ensures var ins := Insertions(decide, sql, i, word);
      && (forall a :: 0 <= a < |ins| ==> i <= ins[a].0)
      && (forall a, b :: 0 <= a < b < |ins| ==> ins[a].0 < ins[b].0)
    decreases |sql| - i
  {
    hide Insertions, TokenLen, NextWord, PrefixFor;
    if i < |sql| {
      InsertionsStep(decide, sql, i, word);
      InsertedOnce(decide, sql, i + TokenLen(sql[i..]), NextWord(sql[i..], word));
    } else {
      NoInsertions(decide, sql, word);
    }
  }
}
