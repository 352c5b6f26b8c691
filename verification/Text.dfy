/** Characters, stripping and searching, as the Python string methods do them.
    Letters and digits are the ASCII ones; white space is the whole of `str.isspace`. */
module Text {

  predicate IsSpace(c: char) {
    || '\t' <= c <= '\r'
    || '\U{1c}' <= c <= ' '
    || c in {'\U{85}', '\U{a0}', '\U{1680}', '\U{2028}', '\U{2029}', '\U{202f}', '\U{205f}', '\U{3000}'}
    || '\U{2000}' <= c <= '\U{200a}'
  }

  predicate IsDigit(c: char) {
    '0' <= c <= '9'
  }

  /** `str(n)`. */
  function Decimal(n: nat): (s: string)
    ensures s != [] && forall k :: 0 <= k < |s| ==> IsDigit(s[k])
  {
    (if n < 10 then [] else Decimal(n / 10)) + ['0' + (n % 10) as char]
  }

  predicate IsAlpha(c: char) {
    'a' <= c <= 'z' || 'A' <= c <= 'Z'
  }

  predicate IsAlnum(c: char) {
    IsAlpha(c) || IsDigit(c)
  }

  /** The regex class `\w`. */
  predicate IsWord(c: char) {
    IsAlnum(c) || c == '_'
  }

  function Upper(c: char): char {
    if 'a' <= c <= 'z' then c - 'a' + 'A' else c
  }

  function Lower(c: char): char {
    if 'A' <= c <= 'Z' then c - 'A' + 'a' else c
  }

  function UpperAll(s: string): string {
    seq(|s|, i requires 0 <= i < |s| => Upper(s[i]))
  }

  function LowerAll(s: string): string {
    seq(|s|, i requires 0 <= i < |s| => Lower(s[i]))
  }

  /** `s[i : i + 2]` is the pair `a`, `b`. */
  predicate Two(s: string, i: nat, a: char, b: char) {
    i + 1 < |s| && s[i] == a && s[i + 1] == b
  }

  /** `s.startswith(p, i)`. */
  predicate StartsWith(s: string, p: string, i: nat) {
    i + |p| <= |s| && s[i..i + |p|] == p
  }

  /** `s.find(c, from)`. */
  function FindChar(s: string, c: char, from: nat): (r: int)
    ensures r == -1 || from <= r < |s|
    ensures r == -1 ==> forall k :: from <= k < |s| ==> s[k] != c
    ensures r != -1 ==> s[r] == c && forall k :: from <= k < r ==> s[k] != c
    decreases |s| - from
  {
    if from >= |s| then -1
    else if s[from] == c then from
    else FindChar(s, c, from + 1)
  }

  /** `s.find(ab, from)` for a pattern of two characters. */
  function FindPair(s: string, a: char, b: char, from: nat): (r: int)
    ensures r == -1 || from <= r < |s| - 1
    ensures r == -1 ==> forall k :: from <= k < |s| ==> !Two(s, k, a, b)
    ensures r != -1 ==> Two(s, r, a, b) && forall k :: from <= k < r ==> !Two(s, k, a, b)
    decreases |s| - from
  {
    if from + 1 >= |s| then -1
    else if Two(s, from, a, b) then from
    else FindPair(s, a, b, from + 1)
  }

  function SkipSpaces(s: string, i: nat): (k: nat)
    requires i <= |s|
    ensures i <= k <= |s|
    ensures forall j :: i <= j < k ==> IsSpace(s[j])
    ensures k < |s| ==> !IsSpace(s[k])
    decreases |s| - i
  {
    if i < |s| && IsSpace(s[i]) then SkipSpaces(s, i + 1) else i
  }

  /** The regex `(?i)kw\b` matches at `i`; `kw` is upper case. */
  predicate KeywordAt(s: string, i: nat, kw: string) {
    && i + |kw| <= |s|
    && UpperAll(s[i..i + |kw|]) == kw
    && (i + |kw| < |s| ==> !IsWord(s[i + |kw|]))
  }

  lemma KeywordFits(s: string, i: nat, kw: string)
    requires KeywordAt(s, i, kw)
    ensures i + |kw| <= |s|
  {
  }

  lemma KeywordHead(s: string, i: nat, kw: string)
    requires kw != []
    ensures KeywordAt(s, i, kw) ==> Upper(s[i]) == kw[0]
  {
    if KeywordAt(s, i, kw) {
      assert UpperAll(s[i..i + |kw|])[0] == Upper(s[i]);
    }
  }

  // ----- strip -----

  function LStrip(s: string): string {
    if s != [] && IsSpace(s[0]) then LStrip(s[1..]) else s
  }

  function RStrip(s: string): string {
    if s != [] && IsSpace(s[|s| - 1]) then RStrip(s[..|s| - 1]) else s
  }

  function Strip(s: string): string {
    RStrip(LStrip(s))
  }

  lemma {:induction false} LStripSplit(s: string) returns (a: nat)
    ensures a <= |s| && LStrip(s) == s[a..]
    ensures forall k :: 0 <= k < a ==> IsSpace(s[k])
    ensures a < |s| ==> !IsSpace(s[a])
  {
    if s != [] && IsSpace(s[0]) {
      var b := LStripSplit(s[1..]);
      a := b + 1;
      assert s[1..][b..] == s[a..];
      assert forall k :: 1 <= k < a ==> s[k] == s[1..][k - 1];
    } else {
      a := 0;
    }
  }

  lemma {:induction false} RStripSplit(s: string) returns (b: nat)
    ensures b <= |s| && RStrip(s) == s[..b]
    ensures forall k :: b <= k < |s| ==> IsSpace(s[k])
    ensures b > 0 ==> !IsSpace(s[b - 1])
  {
    if s != [] && IsSpace(s[|s| - 1]) {
      b := RStripSplit(s[..|s| - 1]);
      assert s[..|s| - 1][..b] == s[..b];
    } else {
      b := |s|;
    }
  }

  /** What `strip` keeps is the slice `a..b`; everything outside it is white space. */
  lemma StripSplit(s: string) returns (a: nat, b: nat)
    ensures a <= b <= |s| && Strip(s) == s[a..b]
    ensures forall k :: 0 <= k < a || b <= k < |s| ==> IsSpace(s[k])
    ensures a < b ==> !IsSpace(s[a]) && !IsSpace(s[b - 1])
  {
    a := LStripSplit(s);
    var l := s[a..];
    var c := RStripSplit(l);
    b := a + c;
    assert l[..c] == s[a..b];
    assert forall k :: b <= k < |s| ==> s[k] == l[k - a];
    if a < b {
      assert l[c - 1] == s[b - 1];
    }
  }

  lemma StripFixed(s: string)
    requires s != [] ==> !IsSpace(s[0]) && !IsSpace(s[|s| - 1])
    ensures Strip(s) == s
  {
  }

  // ----- pieces of a script -----

  /** `sep.join(parts)` for a one-character separator. */
  function Join(parts: seq<string>, sep: char): string {
    if parts == [] then []
    else if |parts| == 1 then parts[0]
    else parts[0] + [sep] + Join(parts[1..], sep)
  }

  lemma {:induction false} JoinSnoc(parts: seq<string>, x: string, sep: char)
    requires parts != []
    ensures Join(parts + [x], sep) == Join(parts, sep) + [sep] + x
  {
    if |parts| > 1 {
      JoinSnoc(parts[1..], x, sep);
      assert (parts + [x])[1..] == parts[1..] + [x];
      var j := Join(parts[1..], sep);
      assert parts[0] + [sep] + (j + [sep] + x) == (parts[0] + [sep] + j) + [sep] + x;
    } else {
      assert (parts + [x])[1..] == [x];
    }
  }

  /** `s.split(sep)` for a one-character separator. */
  function Lines(s: string, sep: char): (ls: seq<string>)
    ensures ls != []
    ensures forall k :: 0 <= k < |ls| ==> sep !in ls[k]
  {
    var i := FindChar(s, sep, 0);
    if i == -1 then [s] else [s[..i]] + Lines(s[i + 1..], sep)
  }

  lemma {:induction false} JoinOfLines(s: string, sep: char)
    ensures Join(Lines(s, sep), sep) == s
  {
    var i := FindChar(s, sep, 0);
    if i != -1 {
      JoinOfLines(s[i + 1..], sep);
      var rest := Lines(s[i + 1..], sep);
      assert ([s[..i]] + rest)[1..] == rest;
      assert s == s[..i] + [sep] + s[i + 1..];
    }
  }

  lemma LinesStep(x: string, y: string, sep: char)
    requires sep !in x
    ensures Lines(x + [sep] + y, sep) == [x] + Lines(y, sep)
  {
    FirstSeparator(x, y, sep);
    var s := x + [sep] + y;
    assert s[..|x|] == x && s[|x| + 1..] == y;
  }

  lemma LinesNone(x: string, sep: char)
    requires sep !in x
    ensures Lines(x, sep) == [x]
  {
  }

  lemma {:induction false} LinesOfJoin(ls: seq<string>, sep: char)
    requires ls != [] && forall k :: 0 <= k < |ls| ==> sep !in ls[k]
    ensures Lines(Join(ls, sep), sep) == ls
  {
    hide Lines;
    if |ls| == 1 {
      LinesNone(ls[0], sep);
    } else {
      LinesOfJoin(ls[1..], sep);
      LinesStep(ls[0], Join(ls[1..], sep), sep);
      assert ls == [ls[0]] + ls[1..];
    }
  }

  lemma FirstSeparator(x: string, y: string, sep: char)
    requires sep !in x
    ensures FindChar(x + [sep] + y, sep, 0) == |x|
  {
    var s := x + [sep] + y;
    var i := FindChar(s, sep, 0);
    assert s[|x|] == sep;
    assert forall k :: 0 <= k < |x| ==> s[k] == x[k];
  }

  /** Every piece stripped, the blank ones dropped. */
  function Clean(parts: seq<string>): seq<string> {
    if parts == [] then []
    else (if Strip(parts[0]) == [] then [] else [Strip(parts[0])]) + Clean(parts[1..])
  }

  lemma CleanOne(s: string)
    ensures Clean([s]) == if Strip(s) == [] then [] else [Strip(s)]
  {
    hide Strip;
  }

  lemma {:induction false} CleanConcat(x: seq<string>, y: seq<string>)
    ensures Clean(x + y) == Clean(x) + Clean(y)
  {
    if x == [] {
      assert x + y == y;
    } else {
      assert (x + y)[1..] == x[1..] + y;
      CleanConcat(x[1..], y);
    }
  }

  lemma {:induction false} CleanMember(parts: seq<string>, u: string)
    requires u in Clean(parts)
    ensures u != [] && exists k :: 0 <= k < |parts| && u == Strip(parts[k])
  {
    if Strip(parts[0]) != [] && u == Strip(parts[0]) {
    } else {
      CleanMember(parts[1..], u);
      var k :| 0 <= k < |parts[1..]| && u == Strip(parts[1..][k]);
      assert u == Strip(parts[k + 1]);
    }
  }

  function Count(s: string, c: char): nat {
    if s == [] then 0 else Count(s[..|s| - 1], c) + (if s[|s| - 1] == c then 1 else 0)
  }

  lemma {:induction false} CountConcat(x: string, y: string, c: char)
    ensures Count(x + y, c) == Count(x, c) + Count(y, c)
  {
    if y == [] {
      assert x + y == x;
    } else {
      assert (x + y)[..|x + y| - 1] == x + y[..|y| - 1];
      CountConcat(x, y[..|y| - 1], c);
    }
  }

  lemma {:induction false} CountNone(s: string, c: char)
    requires forall k :: 0 <= k < |s| ==> s[k] != c
    ensures Count(s, c) == 0
  {
    if s != [] {
      CountNone(s[..|s| - 1], c);
    }
  }

  /** The newlines before position `i`. */
  function LineOf(s: string, i: nat): nat
    requires i <= |s|
  {
    Count(s[..i], '\n')
  }

  lemma LineOfSlice(s: string, a: nat, b: nat)
    requires a <= b <= |s|
    ensures LineOf(s, b) == LineOf(s, a) + Count(s[a..b], '\n')
  {
    assert s[..b] == s[..a] + s[a..b];
    CountConcat(s[..a], s[a..b], '\n');
  }

  // ----- a piece of a text, read on its own -----

  /** `u` stands in `t` at `p`, stripped, between white space, separators and the ends of the text. */
  ghost predicate Window(t: string, p: nat, u: string) {
    && p + |u| <= |t| && u == t[p..p + |u|]
    && u != [] && !IsSpace(u[0]) && !IsSpace(u[|u| - 1])
    && (p > 0 ==> IsSpace(t[p - 1]) || t[p - 1] == ';')
    && (p + |u| < |t| ==> IsSpace(t[p + |u|]) || t[p + |u|] == ';')
  }

  lemma SliceConcat<T>(t: seq<T>, a: nat, b: nat, c: nat)
    requires a <= b <= c <= |t|
    ensures t[a..b] + t[b..c] == t[a..c]
  {
  }

  lemma SliceOfSlice<T>(t: seq<T>, p: nat, q: nat, i: nat, j: nat)
    requires p <= q <= |t| && i <= j <= q - p
    ensures t[p..q][i..j] == t[p + i..p + j]
  {
    var u, v := t[p..q][i..j], t[p + i..p + j];
    assert |u| == |v|;
    assert forall k :: 0 <= k < j - i ==> u[k] == v[k];
  }

  /** A keyword test reads the same in the window as in the whole text. */
  lemma KeywordAgrees(t: string, p: nat, u: string, k: nat, kw: string)
    requires Window(t, p, u) && k < |u| && kw != []
    requires forall j :: 0 <= j < |kw| ==> 'A' <= kw[j] <= 'Z'
    ensures KeywordAt(u, k, kw) == KeywordAt(t, p + k, kw)
  {
    var e := p + |u|;
    if k + |kw| <= |u| {
      SliceOfSlice(t, p, e, k, k + |kw|);
    } else if p + k + |kw| <= |t| {
      var w := UpperAll(t[p + k..p + k + |kw|]);
      assert w[|u| - k] == Upper(t[e]);
    }
  }

  lemma {:induction false} SkipAgrees(t: string, p: nat, u: string, k: nat)
    requires Window(t, p, u) && k < |u|
    ensures SkipSpaces(u, k) < |u| && SkipSpaces(t, p + k) == p + SkipSpaces(u, k)
    decreases |u| - k
  {
    assert t[p + k] == u[k];
    if IsSpace(u[k]) {
      assert k < |u| - 1;
      SkipAgrees(t, p, u, k + 1);
    }
  }

  // ----- a text within a text -----

  lemma CharAt(t: string, i: nat, u: string, k: nat)
    requires StartsWith(t, u, i) && k < |u|
    ensures i + k < |t| && t[i + k] == u[k]
  {
  }

  lemma SliceIs(s: string, i: nat, u: string)
    requires StartsWith(s, u, i)
    ensures i + |u| <= |s| && s[i..i + |u|] == u
  {
  }

  lemma PartStarts(t: string, i: nat, u: string, a: nat, b: nat)
    requires StartsWith(t, u, i) && a <= b <= |u|
    ensures StartsWith(t, u[a..b], i + a)
  {
    SliceOfSlice(t, i, i + |u|, a, b);
  }

  lemma SplitSlice(t: string, i: nat, u: string, v: string)
    requires i <= |t| && t[i..] == u + v
    ensures StartsWith(t, u, i) && i + |u| <= |t| && t[i + |u|..] == v
  {
    var w := t[i..];
    assert w[..|u|] == u && w[|u|..] == v;
    assert w[..|u|] == t[i..i + |u|];
    assert w[|u|..] == t[i + |u|..];
  }

  /** The pair does not begin before the end of `b` where it follows `b`. */
  ghost predicate Lacks(b: string, x: char, y: char) {
    forall k: nat :: k < |b| ==> !Two(b + [x, y], k, x, y)
  }

  /** A pair the text lacks is first found where it follows the text. */
  lemma FirstPair(t: string, i: nat, b: string, x: char, y: char)
    requires Lacks(b, x, y) && StartsWith(t, b + [x, y], i)
    ensures FindPair(t, x, y, i) == i + |b|
    ensures Two(t, i + |b|, x, y) && forall j :: i <= j < i + |b| ==> !Two(t, j, x, y)
  {
    hide StartsWith, FindPair;
    var u := b + [x, y];
    CharAt(t, i, u, |b|);
    CharAt(t, i, u, |b| + 1);
    forall j | i <= j < i + |b| ensures !Two(t, j, x, y) {
      CharAt(t, i, u, j - i);
      CharAt(t, i, u, j - i + 1);
      assert !Two(u, j - i, x, y);
    }
    assert FindPair(t, x, y, i) == i + |b| by { PairPosition(t, x, y, i, i + |b|); }
  }

  lemma PairPosition(t: string, x: char, y: char, i: nat, k: nat)
    requires i <= k && Two(t, k, x, y) && forall j :: i <= j < k ==> !Two(t, j, x, y)
    ensures FindPair(t, x, y, i) == k
  {
    var r := FindPair(t, x, y, i);
    assert r != -1 && !(r < k) && !(k < r);
  }
}
