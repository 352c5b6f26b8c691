/** `_align`, `_greedy`, `_score_pair`, `_unit_similarity` and `_unit_weight` of
    src/unique/core/similarity.py: the weighted alignment of two lists of statements. */
module Similarity {
  import opened Basics

  /** A parsed statement, known by what the tree diff and the weights say of it. */
  datatype Ast = Ast(id: nat)

  datatype Unit = Unit(kind: string, ast: Option<Ast>, children: seq<Unit>, degraded: bool, text: string)

  /** One opcode of a sequence matcher: `a[i1..i2]` is replaced by, or equal to, `b[j1..j2]`. */
  datatype Opcode = Opcode(equal: bool, i1: nat, i2: nat, j1: nat, j2: nat)

  /** The library functions the alignment calls: the tree diff, the weight of a tree, the matcher. */
  datatype Engine = Engine(
    diff: (Ast, Ast) -> real,
    astWeight: Ast -> real,
    opcodes: (seq<string>, seq<string>) -> seq<Opcode>)

  const CARRIER_WEIGHT := 8.0
  const CONTROL_WEIGHT := 3.0
  const LIGHT := 1.0

  /** What is asked of a sequence matcher: the opcodes cover both lists, in order and from the given
      positions on, and equal blocks have equal lengths. */
  predicate Tiles(ops: seq<Opcode>, i: nat, j: nat, n: nat, m: nat) {
    if ops == [] then i == n && j == m
    else
      var o := ops[0];
      o.i1 == i && o.j1 == j && InBounds(o, n, m) && Tiles(ops[1..], o.i2, o.j2, n, m)
  }

  predicate InBounds(o: Opcode, n: nat, m: nat) {
    o.i1 <= o.i2 <= n && o.j1 <= o.j2 <= m && (o.equal ==> o.i2 - o.i1 == o.j2 - o.j1)
  }

  ghost predicate Sound(g: Engine) {
    && (forall a, b :: 0.0 <= g.diff(a, b) <= 1.0)
    && (forall a :: g.diff(a, a) == 1.0)
    && (forall a :: g.astWeight(a) > 0.0)
    && (forall x, y :: Tiles(g.opcodes(x, y), 0, 0, |x|, |y|))
    && (forall x :: x != [] ==> g.opcodes(x, x) == [Opcode(true, 0, |x|, 0, |x|)])
  }

  // ----- weights -----

  function UnitWeight(g: Engine, u: Unit): real
    decreases u, 1
  {
    if u.degraded then CARRIER_WEIGHT
    else if u.children != [] then Sum(Weights(g, u.children)) + LIGHT
    else if u.ast.Some? then g.astWeight(u.ast.value)
    else CONTROL_WEIGHT
  }

  function Weights(g: Engine, us: seq<Unit>): (w: seq<real>)
    ensures |w| == |us|
    decreases us, 0
  {
    seq(|us|, i requires 0 <= i < |us| => UnitWeight(g, us[i]))
  }

  function Sum(w: seq<real>): real {
    if w == [] then 0.0 else Sum(w[..|w| - 1]) + w[|w| - 1]
  }

  /** The weight of the positions `ix`. */
  function SumAt(w: seq<real>, ix: seq<nat>): real
    requires Within(ix, |w|)
  {
    if ix == [] then 0.0 else w[ix[0]] + SumAt(w, ix[1..])
  }

  predicate Within(ix: seq<nat>, n: nat) {
    forall k :: 0 <= k < |ix| ==> ix[k] < n
  }

  // ----- alignment, over a matrix of similarities -----

  type Match = (nat, nat, real)

  /** What `_align` and `_greedy` return; a pair is known by its two positions. */
  datatype Result = Result(num: real, den: real, matches: seq<Match>)

  /** The similarities and weights of two lists of units. */
  datatype Scores = Scores(s: seq<seq<real>>, wa: seq<real>, wb: seq<real>) {
    ghost predicate Valid() {
      |s| == |wa| && forall i :: 0 <= i < |s| ==> |s[i]| == |wb|
    }

    /** Similarities lie between 0 and 1, weights are positive. */
    ghost predicate Bounded()
      requires Valid()
    {
      && (forall i, j :: 0 <= i < |wa| && 0 <= j < |wb| ==> 0.0 <= s[i][j] <= 1.0)
      && (forall i :: 0 <= i < |wa| ==> wa[i] > 0.0)
      && (forall j :: 0 <= j < |wb| ==> wb[j] > 0.0)
    }
  }

  /** The first position of `rem` with the greatest similarity to `i`, if that is above 0. */
  function Best(t: Scores, i: nat, rem: seq<nat>): (r: Option<nat>)
    requires t.Valid() && i < |t.wa| && Within(rem, |t.wb|)
    ensures r.Some? ==> r.value < |rem| && t.s[i][rem[r.value]] > 0.0
    ensures r.Some? ==> forall k :: 0 <= k < |rem| ==> t.s[i][rem[k]] <= t.s[i][rem[r.value]]
    ensures r.Some? ==> forall k :: 0 <= k < r.value ==> t.s[i][rem[k]] < t.s[i][rem[r.value]]
    ensures r.None? ==> forall k :: 0 <= k < |rem| ==> t.s[i][rem[k]] <= 0.0
  {
    if rem == [] then None
    else
      var n := |rem| - 1;
      var b := Best(t, i, rem[..n]);
      if t.s[i][rem[n]] > (if b.Some? then t.s[i][rem[b.value]] else 0.0) then Some(n) else b
  }

  function RemoveAt(ix: seq<nat>, k: nat): seq<nat>
    requires k < |ix|
  {
    ix[..k] + ix[k + 1..]
  }

  function Plus(a: Result, b: Result): Result {
    Result(a.num + b.num, a.den + b.den, a.matches + b.matches)
  }

  /** `_score_pair`, for two units of the lists. */
  function ScorePair(t: Scores, i: nat, j: nat): (real, real, real)
    requires t.Valid() && i < |t.wa| && j < |t.wb|
  {
    var den := t.wa[i] + t.wb[j];
    (t.s[i][j] * den, den, t.s[i][j])
  }

  function Pair(t: Scores, i: nat, j: nat): Result
    requires t.Valid() && i < |t.wa| && j < |t.wb|
  {
    var (n, d, s) := ScorePair(t, i, j);
    Result(n, d, [(i, j, s)])
  }

  function Greedy(t: Scores, la: seq<nat>, rem: seq<nat>): Result
    requires t.Valid() && Within(la, |t.wa|) && Within(rem, |t.wb|)
  {
    if la == [] then Result(0.0, SumAt(t.wb, rem), [])
    else match Best(t, la[0], rem)
      case None => Plus(Result(0.0, t.wa[la[0]], []), Greedy(t, la[1..], rem))
      case Some(k) => Plus(Pair(t, la[0], rem[k]), Greedy(t, la[1..], RemoveAt(rem, k)))
  }

  function Range(a: nat, b: nat): (r: seq<nat>)
    requires a <= b
    ensures |r| == b - a && forall k :: 0 <= k < b - a ==> r[k] == a + k
  {
    seq(b - a, k requires 0 <= k < b - a => a + k)
  }

  /** The pairs of an equal block. */
  function Block(t: Scores, i: nat, j: nat, n: nat): Result
    requires t.Valid() && i + n <= |t.wa| && j + n <= |t.wb|
  {
    if n == 0 then Result(0.0, 0.0, []) else Plus(Block(t, i, j, n - 1), Pair(t, i + n - 1, j + n - 1))
  }

  /** What an opcode contributes: the pairs of an equal block; of any other, its positions left over. */
  function Paired(t: Scores, o: Opcode): Result
    requires t.Valid() && InBounds(o, |t.wa|, |t.wb|)
  {
    if o.equal then Block(t, o.i1, o.j1, o.i2 - o.i1) else Result(0.0, 0.0, [])
  }

  function OwnA(o: Opcode): seq<nat>
    requires o.i1 <= o.i2
  {
    if o.equal then [] else Range(o.i1, o.i2)
  }

  function OwnB(o: Opcode): seq<nat>
    requires o.j1 <= o.j2
  {
    if o.equal then [] else Range(o.j1, o.j2)
  }

  function Equals(t: Scores, ops: seq<Opcode>, i: nat, j: nat): Result
    requires t.Valid() && Tiles(ops, i, j, |t.wa|, |t.wb|)
  {
    if ops == [] then Result(0.0, 0.0, [])
    else Plus(Paired(t, ops[0]), Equals(t, ops[1..], ops[0].i2, ops[0].j2))
  }

  function LeftA(ops: seq<Opcode>, i: nat, j: nat, n: nat, m: nat): seq<nat>
    requires Tiles(ops, i, j, n, m)
  {
    if ops == [] then [] else OwnA(ops[0]) + LeftA(ops[1..], ops[0].i2, ops[0].j2, n, m)
  }

  function LeftB(ops: seq<Opcode>, i: nat, j: nat, n: nat, m: nat): seq<nat>
    requires Tiles(ops, i, j, n, m)
  {
    if ops == [] then [] else OwnB(ops[0]) + LeftB(ops[1..], ops[0].i2, ops[0].j2, n, m)
  }

  lemma {:induction false} LeftWithin(ops: seq<Opcode>, i: nat, j: nat, n: nat, m: nat)
    requires Tiles(ops, i, j, n, m)
    ensures forall k :: 0 <= k < |LeftA(ops, i, j, n, m)| ==> i <= LeftA(ops, i, j, n, m)[k] < n
    ensures forall k :: 0 <= k < |LeftB(ops, i, j, n, m)| ==> j <= LeftB(ops, i, j, n, m)[k] < m
    ensures i <= n && j <= m
  {
    if ops != [] {
      LeftWithin(ops[1..], ops[0].i2, ops[0].j2, n, m);
    }
  }

  /** `_align`: the equal blocks pair by pair, everything else pooled and matched greedily. */
  function Align(t: Scores, ops: seq<Opcode>): Result
    requires t.Valid() && Tiles(ops, 0, 0, |t.wa|, |t.wb|)
  {
    LeftWithin(ops, 0, 0, |t.wa|, |t.wb|);
    Plus(Equals(t, ops, 0, 0), Greedy(t, LeftA(ops, 0, 0, |t.wa|, |t.wb|), LeftB(ops, 0, 0, |t.wa|, |t.wb|)))
  }

  // ----- units -----

  function Kinds(us: seq<Unit>): (r: seq<string>)
    ensures |r| == |us|
  {
    seq(|us|, i requires 0 <= i < |us| => us[i].kind)
  }

  function UnitSimilarity(g: Engine, a: Unit, b: Unit): real
    requires Sound(g)
    decreases a, 1
  {
    if a.degraded && b.degraded then (if a.text != "" && a.text == b.text then 1.0 else 0.0)
    else if a.degraded || b.degraded then 0.0
    else if a.children != [] || b.children != [] then
      var r := Align(ScoresOf(g, a.children, b.children), g.opcodes(Kinds(a.children), Kinds(b.children)));
      if r.den != 0.0 then r.num / r.den else 1.0
    else if a.kind != b.kind then 0.0
    else if a.ast.Some? && b.ast.Some? then g.diff(a.ast.value, b.ast.value)
    else 1.0
  }

  function ScoresOf(g: Engine, us: seq<Unit>, vs: seq<Unit>): (t: Scores)
    requires Sound(g)
    ensures t.Valid() && |t.wa| == |us| && |t.wb| == |vs|
    decreases us, 0
  {
    Scores(
      seq(|us|, i requires 0 <= i < |us| => seq(|vs|, j requires 0 <= j < |vs| => UnitSimilarity(g, us[i], vs[j]))),
      Weights(g, us), Weights(g, vs))
  }

  // ----- the denominator: every unit's weight, once -----

  lemma {:induction false} SumAtConcat(w: seq<real>, x: seq<nat>, y: seq<nat>)
    requires Within(x, |w|) && Within(y, |w|)
    ensures Within(x + y, |w|) && SumAt(w, x + y) == SumAt(w, x) + SumAt(w, y)
  {
    if x == [] {
      assert x + y == y;
    } else {
      assert (x + y)[1..] == x[1..] + y;
      SumAtConcat(w, x[1..], y);
    }
  }

  lemma SumAtSingle(w: seq<real>, i: nat)
    requires i < |w|
    ensures Within([i], |w|) && SumAt(w, [i]) == w[i]
  {
    assert [i][1..] == [];
  }

  lemma SumAtRemove(w: seq<real>, ix: seq<nat>, k: nat)
    requires Within(ix, |w|) && k < |ix|
    ensures Within(RemoveAt(ix, k), |w|) && SumAt(w, ix) == w[ix[k]] + SumAt(w, RemoveAt(ix, k))
  {
    hide SumAt;
    var before, after := ix[..k], ix[k + 1..];
    var rest := [ix[k]] + after;
    assert ix == before + rest;
    SumAtSingle(w, ix[k]);
    SumAtConcat(w, [ix[k]], after);
    SumAtConcat(w, before, rest);
    SumAtConcat(w, before, after);
  }

  lemma SumAtRange(w: seq<real>, a: nat, b: nat, c: nat)
    requires a <= b <= c <= |w|
    ensures Within(Range(a, c), |w|) && Within(Range(a, b), |w|) && Within(Range(b, c), |w|)
    ensures SumAt(w, Range(a, c)) == SumAt(w, Range(a, b)) + SumAt(w, Range(b, c))
  {
    assert Range(a, c) == Range(a, b) + Range(b, c);
    SumAtConcat(w, Range(a, b), Range(b, c));
  }

  lemma SumAtOne(w: seq<real>, a: nat)
    requires a < |w|
    ensures SumAt(w, Range(a, a + 1)) == w[a]
  {
    assert Range(a, a + 1) == [a];
    SumAtSingle(w, a);
    hide SumAt;
  }

  lemma {:induction false} SumIsSumAt(w: seq<real>, n: nat)
    requires n <= |w|
    ensures Within(Range(0, n), |w|) && SumAt(w, Range(0, n)) == Sum(w[..n])
  {
    if n > 0 {
      SumIsSumAt(w, n - 1);
      SumAtRange(w, 0, n - 1, n);
      SumAtOne(w, n - 1);
      assert w[..n][..n - 1] == w[..n - 1];
    }
    hide Range;
  }

  lemma {:induction false} GreedyDen(t: Scores, la: seq<nat>, rem: seq<nat>)
    requires t.Valid() && Within(la, |t.wa|) && Within(rem, |t.wb|)
    ensures Greedy(t, la, rem).den == SumAt(t.wa, la) + SumAt(t.wb, rem)
  {
    if la != [] {
      var b := Best(t, la[0], rem);
      if b.None? {
        GreedyDen(t, la[1..], rem);
      } else {
        SumAtRemove(t.wb, rem, b.value);
        GreedyDen(t, la[1..], RemoveAt(rem, b.value));
      }
      hide Best, RemoveAt;
    }
  }

  lemma RangeGrows(w: seq<real>, i: nat, n: nat)
    requires i + n < |w|
    ensures Within(Range(i, i + n), |w|) && Within(Range(i, i + n + 1), |w|)
    ensures SumAt(w, Range(i, i + n + 1)) == SumAt(w, Range(i, i + n)) + w[i + n]
  {
    hide SumAt, Range;
    SumAtRange(w, i, i + n, i + n + 1);
    SumAtOne(w, i + n);
  }

  lemma {:induction false} BlockDen(t: Scores, i: nat, j: nat, n: nat)
    requires t.Valid() && i + n <= |t.wa| && j + n <= |t.wb|
    ensures Within(Range(i, i + n), |t.wa|) && Within(Range(j, j + n), |t.wb|)
    ensures Block(t, i, j, n).den == SumAt(t.wa, Range(i, i + n)) + SumAt(t.wb, Range(j, j + n))
  {
    if n > 0 {
      hide Range, SumAt, Pair;
      BlockDen(t, i, j, n - 1);
      RangeGrows(t.wa, i, n - 1);
      RangeGrows(t.wb, j, n - 1);
      PairDen(t, i + n - 1, j + n - 1);
    }
  }

  lemma PairedDen(t: Scores, o: Opcode)
    requires t.Valid() && InBounds(o, |t.wa|, |t.wb|)
    ensures Within(OwnA(o), |t.wa|) && Within(OwnB(o), |t.wb|)
    ensures Within(Range(o.i1, o.i2), |t.wa|) && Within(Range(o.j1, o.j2), |t.wb|)
    ensures Paired(t, o).den + SumAt(t.wa, OwnA(o)) + SumAt(t.wb, OwnB(o))
         == SumAt(t.wa, Range(o.i1, o.i2)) + SumAt(t.wb, Range(o.j1, o.j2))
  {
    if o.equal {
      BlockDen(t, o.i1, o.j1, o.i2 - o.i1);
    }
    hide Block, Range;
  }

  /** The weight of what an equal block pairs and what is left over is that of both lists. */
  ghost predicate Accounted(t: Scores, ops: seq<Opcode>, i: nat, j: nat)
    requires t.Valid() && Tiles(ops, i, j, |t.wa|, |t.wb|)
  {
    var n, m := |t.wa|, |t.wb|;
    var la, lb := LeftA(ops, i, j, n, m), LeftB(ops, i, j, n, m);
    && i <= n && j <= m && Within(la, n) && Within(lb, m)
    && Within(Range(i, n), n) && Within(Range(j, m), m)
    && Equals(t, ops, i, j).den + SumAt(t.wa, la) + SumAt(t.wb, lb)
       == SumAt(t.wa, Range(i, n)) + SumAt(t.wb, Range(j, m))
  }

  lemma TilesStep(t: Scores, ops: seq<Opcode>, i: nat, j: nat)
    requires t.Valid() && Tiles(ops, i, j, |t.wa|, |t.wb|) && ops != []
    ensures var o, n, m := ops[0], |t.wa|, |t.wb|;
      && i == o.i1 && j == o.j1 && InBounds(o, n, m) && Tiles(ops[1..], o.i2, o.j2, n, m)
      && Equals(t, ops, i, j).den == Paired(t, o).den + Equals(t, ops[1..], o.i2, o.j2).den
      && LeftA(ops, i, j, n, m) == OwnA(o) + LeftA(ops[1..], o.i2, o.j2, n, m)
      && LeftB(ops, i, j, n, m) == OwnB(o) + LeftB(ops[1..], o.i2, o.j2, n, m)
  {
    hide Paired, OwnA, OwnB;
  }

  lemma AccountedStep(t: Scores, ops: seq<Opcode>, i: nat, j: nat)
    requires t.Valid() && Tiles(ops, i, j, |t.wa|, |t.wb|) && ops != []
    requires Accounted(t, ops[1..], ops[0].i2, ops[0].j2)
    ensures Accounted(t, ops, i, j)
  {
    hide Range, SumAt, Paired, OwnA, OwnB, Tiles, Equals, LeftA, LeftB, Within;
    TilesStep(t, ops, i, j);
    var n, m := |t.wa|, |t.wb|;
    var o := ops[0];
    PairedDen(t, o);
    SumAtRange(t.wa, i, o.i2, n);
    SumAtRange(t.wb, j, o.j2, m);
    SumAtConcat(t.wa, OwnA(o), LeftA(ops[1..], o.i2, o.j2, n, m));
    SumAtConcat(t.wb, OwnB(o), LeftB(ops[1..], o.i2, o.j2, n, m));
  }

  lemma {:induction false} EqualsDen(t: Scores, ops: seq<Opcode>, i: nat, j: nat)
    requires t.Valid() && Tiles(ops, i, j, |t.wa|, |t.wb|)
    ensures Accounted(t, ops, i, j)
  {
    if ops != [] {
      EqualsDen(t, ops[1..], ops[0].i2, ops[0].j2);
      AccountedStep(t, ops, i, j);
      hide Accounted;
    } else {
      assert Range(i, i) == [] && Range(j, j) == [];
    }
  }

  /** For any opcodes the denominator is exactly the total weight of both lists. */
  lemma AlignDen(t: Scores, ops: seq<Opcode>)
    requires t.Valid() && Tiles(ops, 0, 0, |t.wa|, |t.wb|)
    ensures Align(t, ops).den == Sum(t.wa) + Sum(t.wb)
  {
    hide Range, Equals, Greedy, SumAt, Sum, LeftA, LeftB;
    var n, m := |t.wa|, |t.wb|;
    EqualsDen(t, ops, 0, 0);
    GreedyDen(t, LeftA(ops, 0, 0, n, m), LeftB(ops, 0, 0, n, m));
    SumIsSumAt(t.wa, n);
    SumIsSumAt(t.wb, m);
    assert t.wa[..n] == t.wa && t.wb[..m] == t.wb;
  }

  // ----- the numerator lies within the denominator -----

  lemma ScaledWithin(s: real, d: real)
    requires 0.0 <= s <= 1.0 && d > 0.0
    ensures 0.0 <= s * d <= d && (s * d == d <==> s == 1.0) && (s * d == 0.0 <==> s == 0.0)
  {
    assert (1.0 - s) * d == d - s * d;
  }

  ghost predicate Fair(r: Result) {
    0.0 <= r.num <= r.den
  }

  /** A pair counts its whole weight exactly when the two are the same, and nothing exactly when they
      have nothing in common. */
  lemma PairFair(t: Scores, i: nat, j: nat)
    requires t.Valid() && t.Bounded() && i < |t.wa| && j < |t.wb|
    ensures Fair(Pair(t, i, j)) && Pair(t, i, j).den > 0.0
    ensures Pair(t, i, j).num == Pair(t, i, j).den <==> t.s[i][j] == 1.0
    ensures Pair(t, i, j).num == 0.0 <==> t.s[i][j] == 0.0
  {
    var x, w := t.s[i][j], t.wa[i] + t.wb[j];
    var p := Pair(t, i, j);
    assert p.num == x * w && p.den == w && 0.0 <= x <= 1.0 && w > 0.0;
    hide Pair;
    ScaledWithin(x, w);
  }

  lemma {:induction false} SumAtFair(t: Scores, ix: seq<nat>)
    requires t.Valid() && t.Bounded() && Within(ix, |t.wb|)
    ensures SumAt(t.wb, ix) >= 0.0
  {
    if ix != [] {
      SumAtFair(t, ix[1..]);
    }
  }

  lemma {:induction false} GreedyFair(t: Scores, la: seq<nat>, rem: seq<nat>)
    requires t.Valid() && t.Bounded() && Within(la, |t.wa|) && Within(rem, |t.wb|)
    ensures Fair(Greedy(t, la, rem))
  {
    if la == [] {
      SumAtFair(t, rem);
    } else {
      var b := Best(t, la[0], rem);
      if b.None? {
        GreedyFair(t, la[1..], rem);
      } else {
        PairFair(t, la[0], rem[b.value]);
        GreedyFair(t, la[1..], RemoveAt(rem, b.value));
      }
      hide Best, Pair;
    }
  }

  lemma {:induction false} BlockFair(t: Scores, i: nat, j: nat, n: nat)
    requires t.Valid() && t.Bounded() && i + n <= |t.wa| && j + n <= |t.wb|
    ensures Fair(Block(t, i, j, n))
  {
    if n > 0 {
      BlockFair(t, i, j, n - 1);
      PairFair(t, i + n - 1, j + n - 1);
    }
    hide Pair;
  }

  lemma PairedFair(t: Scores, o: Opcode)
    requires t.Valid() && t.Bounded() && InBounds(o, |t.wa|, |t.wb|)
    ensures Fair(Paired(t, o))
  {
    if o.equal {
      BlockFair(t, o.i1, o.j1, o.i2 - o.i1);
    }
    hide Block;
  }

  lemma {:induction false} EqualsFair(t: Scores, ops: seq<Opcode>, i: nat, j: nat)
    requires t.Valid() && t.Bounded() && Tiles(ops, i, j, |t.wa|, |t.wb|)
    ensures Fair(Equals(t, ops, i, j))
  {
    hide Paired;
    if ops != [] {
      EqualsFair(t, ops[1..], ops[0].i2, ops[0].j2);
      PairedFair(t, ops[0]);
    }
  }

  lemma AlignFair(t: Scores, ops: seq<Opcode>)
    requires t.Valid() && t.Bounded() && Tiles(ops, 0, 0, |t.wa|, |t.wb|)
    ensures 0.0 <= Align(t, ops).num <= Align(t, ops).den
  {
    LeftWithin(ops, 0, 0, |t.wa|, |t.wb|);
    EqualsFair(t, ops, 0, 0);
    GreedyFair(t, LeftA(ops, 0, 0, |t.wa|, |t.wb|), LeftB(ops, 0, 0, |t.wa|, |t.wb|));
    hide Greedy, Equals, LeftA, LeftB;
  }

  // ----- no unit is matched twice -----

  function Firsts(ms: seq<Match>): (r: seq<nat>)
    ensures |r| == |ms|
  {
    seq(|ms|, k requires 0 <= k < |ms| => ms[k].0)
  }

  function Seconds(ms: seq<Match>): (r: seq<nat>)
    ensures |r| == |ms|
  {
    seq(|ms|, k requires 0 <= k < |ms| => ms[k].1)
  }

  lemma FirstsPlus(a: Result, b: Result)
    ensures multiset(Firsts(Plus(a, b).matches)) == multiset(Firsts(a.matches)) + multiset(Firsts(b.matches))
    ensures multiset(Seconds(Plus(a, b).matches)) == multiset(Seconds(a.matches)) + multiset(Seconds(b.matches))
  {
    assert Firsts(a.matches + b.matches) == Firsts(a.matches) + Firsts(b.matches);
    assert Seconds(a.matches + b.matches) == Seconds(a.matches) + Seconds(b.matches);
  }

  lemma PairPositions(t: Scores, i: nat, j: nat)
    requires t.Valid() && i < |t.wa| && j < |t.wb|
    ensures multiset(Firsts(Pair(t, i, j).matches)) == multiset{i}
    ensures multiset(Seconds(Pair(t, i, j).matches)) == multiset{j}
  {
    assert Firsts(Pair(t, i, j).matches) == [i];
    assert Seconds(Pair(t, i, j).matches) == [j];
  }

  lemma NoPositions(num: real, den: real)
    ensures Firsts(Result(num, den, []).matches) == [] == Seconds(Result(num, den, []).matches)
  {
  }

  lemma RemoveAtMultiset(ix: seq<nat>, k: nat)
    requires k < |ix|
    ensures multiset(ix) == multiset{ix[k]} + multiset(RemoveAt(ix, k))
  {
    assert ix == ix[..k] + [ix[k]] + ix[k + 1..];
  }

  lemma {:induction false} GreedyPositions(t: Scores, la: seq<nat>, rem: seq<nat>)
    requires t.Valid() && Within(la, |t.wa|) && Within(rem, |t.wb|)
    ensures multiset(Firsts(Greedy(t, la, rem).matches)) <= multiset(la)
    ensures multiset(Seconds(Greedy(t, la, rem).matches)) <= multiset(rem)
  {
    if la == [] {
      NoPositions(0.0, SumAt(t.wb, rem));
    } else {
      assert la == [la[0]] + la[1..];
      var b := Best(t, la[0], rem);
      if b.None? {
        GreedyPositions(t, la[1..], rem);
        NoPositions(0.0, t.wa[la[0]]);
        FirstsPlus(Result(0.0, t.wa[la[0]], []), Greedy(t, la[1..], rem));
      } else {
        var rest := RemoveAt(rem, b.value);
        GreedyPositions(t, la[1..], rest);
        PairPositions(t, la[0], rem[b.value]);
        FirstsPlus(Pair(t, la[0], rem[b.value]), Greedy(t, la[1..], rest));
        RemoveAtMultiset(rem, b.value);
      }
      hide Best, Pair, Firsts, Seconds, Plus, RemoveAt;
    }
  }

  lemma RangeLast(a: nat, b: nat, last: nat)
    requires a <= last && b == last + 1
    ensures multiset(Range(a, b)) == multiset(Range(a, last)) + multiset{last}
  {
    assert Range(a, b) == Range(a, last) + [last];
  }

  lemma {:induction false} BlockMatches(t: Scores, i: nat, j: nat, n: nat)
    requires t.Valid() && i + n <= |t.wa| && j + n <= |t.wb|
    ensures |Block(t, i, j, n).matches| == n
    ensures forall k :: 0 <= k < n ==>
      Block(t, i, j, n).matches[k].0 == i + k && Block(t, i, j, n).matches[k].1 == j + k
  {
    if n > 0 {
      BlockMatches(t, i, j, n - 1);
    }
  }

  lemma BlockPositions(t: Scores, i: nat, j: nat, n: nat)
    requires t.Valid() && i + n <= |t.wa| && j + n <= |t.wb|
    ensures Firsts(Block(t, i, j, n).matches) == Range(i, i + n)
    ensures Seconds(Block(t, i, j, n).matches) == Range(j, j + n)
  {
    BlockMatches(t, i, j, n);
    hide Block;
  }

  lemma PairedPositions(t: Scores, o: Opcode)
    requires t.Valid() && InBounds(o, |t.wa|, |t.wb|)
    ensures multiset(Firsts(Paired(t, o).matches)) + multiset(OwnA(o)) == multiset(Range(o.i1, o.i2))
    ensures multiset(Seconds(Paired(t, o).matches)) + multiset(OwnB(o)) == multiset(Range(o.j1, o.j2))
  {
    hide Range, Firsts, Seconds, Block;
    if o.equal {
      BlockPositions(t, o.i1, o.j1, o.i2 - o.i1);
    } else {
      NoPositions(0.0, 0.0);
    }
  }

  /** The positions paired and left over are those of both lists. */
  ghost predicate Covered(t: Scores, ops: seq<Opcode>, i: nat, j: nat)
    requires t.Valid() && Tiles(ops, i, j, |t.wa|, |t.wb|)
  {
    var n, m := |t.wa|, |t.wb|;
    i <= n && j <= m &&
    multiset(Firsts(Equals(t, ops, i, j).matches)) + multiset(LeftA(ops, i, j, n, m)) == multiset(Range(i, n)) &&
    multiset(Seconds(Equals(t, ops, i, j).matches)) + multiset(LeftB(ops, i, j, n, m)) == multiset(Range(j, m))
  }

  lemma RangeSplit(a: nat, b: nat, c: nat)
    requires a <= b <= c
    ensures multiset(Range(a, c)) == multiset(Range(a, b)) + multiset(Range(b, c))
  {
    assert Range(a, c) == Range(a, b) + Range(b, c);
  }

  lemma CoveredStep(t: Scores, ops: seq<Opcode>, i: nat, j: nat)
    requires t.Valid() && Tiles(ops, i, j, |t.wa|, |t.wb|) && ops != []
    requires Covered(t, ops[1..], ops[0].i2, ops[0].j2)
    ensures Covered(t, ops, i, j)
  {
    hide Range, Firsts, Seconds, Plus, Paired, OwnA, OwnB;
    var n, m := |t.wa|, |t.wb|;
    var o := ops[0];
    PairedPositions(t, o);
    FirstsPlus(Paired(t, o), Equals(t, ops[1..], o.i2, o.j2));
    RangeSplit(i, o.i2, n);
    RangeSplit(j, o.j2, m);
  }

  lemma {:induction false} EqualsPositions(t: Scores, ops: seq<Opcode>, i: nat, j: nat)
    requires t.Valid() && Tiles(ops, i, j, |t.wa|, |t.wb|)
    ensures Covered(t, ops, i, j)
  {
    if ops != [] {
      EqualsPositions(t, ops[1..], ops[0].i2, ops[0].j2);
      CoveredStep(t, ops, i, j);
      hide Covered;
    } else {
      NoPositions(0.0, 0.0);
      assert Range(i, i) == [] && Range(j, j) == [];
    }
  }

  lemma {:induction false} RangeOnce(a: nat, b: nat, x: nat)
    requires a <= b
    ensures multiset(Range(a, b))[x] <= 1 && (x in multiset(Range(a, b)) ==> a <= x < b)
  {
    if a < b {
      RangeOnce(a, b - 1, x);
      RangeLast(a, b, b - 1);
      hide Range;
    } else {
      assert Range(a, b) == [];
    }
  }

  /** No position of either list occurs in two matches. */
  lemma MatchedOnce(t: Scores, ops: seq<Opcode>, x: nat)
    requires t.Valid() && Tiles(ops, 0, 0, |t.wa|, |t.wb|)
    ensures multiset(Firsts(Align(t, ops).matches))[x] <= 1
    ensures multiset(Seconds(Align(t, ops).matches))[x] <= 1
  {
    var n, m := |t.wa|, |t.wb|;
    LeftWithin(ops, 0, 0, n, m);
    EqualsPositions(t, ops, 0, 0);
    var la, lb := LeftA(ops, 0, 0, n, m), LeftB(ops, 0, 0, n, m);
    GreedyPositions(t, la, lb);
    FirstsPlus(Equals(t, ops, 0, 0), Greedy(t, la, lb));
    RangeOnce(0, n, x);
    RangeOnce(0, m, x);
    hide Range, Firsts, Seconds, Plus, Equals, Greedy, LeftA, LeftB;
  }

  // ----- similarities of units -----

  lemma {:induction false} SumPositive(w: seq<real>)
    requires forall i :: 0 <= i < |w| ==> w[i] > 0.0
    ensures Sum(w) >= 0.0 && (w != [] ==> Sum(w) > 0.0)
  {
    if w != [] {
      SumPositive(w[..|w| - 1]);
    }
  }

  lemma {:induction false} WeightPositive(g: Engine, u: Unit)
    requires Sound(g)
    ensures UnitWeight(g, u) > 0.0
    decreases u, 1
  {
    WeightsPositive(g, u.children);
    SumPositive(Weights(g, u.children));
    hide Sum, Weights;
  }

  lemma {:induction false} WeightsPositive(g: Engine, us: seq<Unit>)
    requires Sound(g)
    ensures forall i :: 0 <= i < |us| ==> Weights(g, us)[i] > 0.0
    decreases us, 0
  {
    forall i | 0 <= i < |us| ensures Weights(g, us)[i] > 0.0 {
      WeightPositive(g, us[i]);
    }
  }

  lemma QuotientWithin(n: real, d: real)
    requires 0.0 <= n <= d && d != 0.0
    ensures 0.0 <= n / d <= 1.0
  {
  }

  /** Similarity lies between 0 and 1. */
  lemma {:induction false} SimilarityBounded(g: Engine, a: Unit, b: Unit)
    requires Sound(g)
    ensures 0.0 <= UnitSimilarity(g, a, b) <= 1.0
    decreases a, 1
  {
    if !a.degraded && !b.degraded && (a.children != [] || b.children != []) {
      var t := ScoresOf(g, a.children, b.children);
      var ops := g.opcodes(Kinds(a.children), Kinds(b.children));
      ScoresBounded(g, a.children, b.children);
      AlignFair(t, ops);
      var r := Align(t, ops);
      if r.den != 0.0 {
        QuotientWithin(r.num, r.den);
      }
      hide Align, ScoresOf, Tiles;
    }
  }

  lemma {:induction false} ScoresBounded(g: Engine, us: seq<Unit>, vs: seq<Unit>)
    requires Sound(g)
    ensures ScoresOf(g, us, vs).Bounded()
    decreases us, 0
  {
    forall i, j | 0 <= i < |us| && 0 <= j < |vs| ensures 0.0 <= ScoresOf(g, us, vs).s[i][j] <= 1.0 {
      SimilarityBounded(g, us[i], vs[j]);
    }
    WeightsPositive(g, us);
    WeightsPositive(g, vs);
    hide UnitSimilarity, Weights, Sound;
  }

  // ----- what the numerator is made of -----

  /** Similarity times joint weight, over the matched pairs. */
  function MatchedSum(t: Scores, ms: seq<Match>): real
    requires t.Valid() && MatchesWithin(t, ms)
  {
    if ms == [] then 0.0
    else MatchWeight(t, ms[0].0, ms[0].1) + MatchedSum(t, ms[1..])
  }

  function MatchWeight(t: Scores, i: nat, j: nat): real
    requires t.Valid() && i < |t.wa| && j < |t.wb|
  {
    t.s[i][j] * (t.wa[i] + t.wb[j])
  }

  /** Matches are of positions of the two lists, with their similarity. */
  predicate MatchesWithin(t: Scores, ms: seq<Match>)
    requires t.Valid()
  {
    forall k :: 0 <= k < |ms| ==> ms[k].0 < |t.wa| && ms[k].1 < |t.wb| && ms[k].2 == t.s[ms[k].0][ms[k].1]
  }

  /** The numerator is the weight of the matches, and these are matches of the two lists. */
  ghost predicate Tallied(t: Scores, r: Result)
    requires t.Valid()
  {
    MatchesWithin(t, r.matches) && r.num == MatchedSum(t, r.matches)
  }

  lemma {:induction false} MatchedSumConcat(t: Scores, x: seq<Match>, y: seq<Match>)
    requires t.Valid() && MatchesWithin(t, x) && MatchesWithin(t, y)
    ensures MatchesWithin(t, x + y) && MatchedSum(t, x + y) == MatchedSum(t, x) + MatchedSum(t, y)
  {
    hide MatchWeight;
    if x == [] {
      assert x + y == y;
    } else {
      var z := x + y;
      assert z[0] == x[0] && z[1..] == x[1..] + y;
      MatchedSumConcat(t, x[1..], y);
    }
  }

  lemma TalliedPlus(t: Scores, a: Result, b: Result)
    requires t.Valid() && Tallied(t, a) && Tallied(t, b)
    ensures Tallied(t, Plus(a, b))
  {
    hide MatchedSum, MatchesWithin;
    MatchedSumConcat(t, a.matches, b.matches);
  }

  lemma TalliedPair(t: Scores, i: nat, j: nat)
    requires t.Valid() && i < |t.wa| && j < |t.wb|
    ensures Tallied(t, Pair(t, i, j))
  {
    var m := Pair(t, i, j).matches;
    assert m[1..] == [];
    assert MatchedSum(t, []) == 0.0;
  }

  lemma TalliedNothing(t: Scores, den: real)
    requires t.Valid()
    ensures Tallied(t, Result(0.0, den, []))
  {
  }

  lemma {:induction false} GreedyTallied(t: Scores, la: seq<nat>, rem: seq<nat>)
    requires t.Valid() && Within(la, |t.wa|) && Within(rem, |t.wb|)
    ensures Tallied(t, Greedy(t, la, rem))
  {
    hide Best, Pair, Tallied, Plus;
    if la == [] {
      TalliedNothing(t, SumAt(t.wb, rem));
    } else {
      var b := Best(t, la[0], rem);
      if b.None? {
        GreedyTallied(t, la[1..], rem);
        TalliedNothing(t, t.wa[la[0]]);
        TalliedPlus(t, Result(0.0, t.wa[la[0]], []), Greedy(t, la[1..], rem));
      } else {
        GreedyTallied(t, la[1..], RemoveAt(rem, b.value));
        TalliedPair(t, la[0], rem[b.value]);
        TalliedPlus(t, Pair(t, la[0], rem[b.value]), Greedy(t, la[1..], RemoveAt(rem, b.value)));
      }
    }
  }

  lemma {:induction false} BlockTallied(t: Scores, i: nat, j: nat, n: nat)
    requires t.Valid() && i + n <= |t.wa| && j + n <= |t.wb|
    ensures Tallied(t, Block(t, i, j, n))
  {
    hide Pair, Tallied, Plus;
    if n == 0 {
      TalliedNothing(t, 0.0);
    } else {
      BlockTallied(t, i, j, n - 1);
      TalliedPair(t, i + n - 1, j + n - 1);
      TalliedPlus(t, Block(t, i, j, n - 1), Pair(t, i + n - 1, j + n - 1));
    }
  }

  lemma {:induction false} EqualsTallied(t: Scores, ops: seq<Opcode>, i: nat, j: nat)
    requires t.Valid() && Tiles(ops, i, j, |t.wa|, |t.wb|)
    ensures Tallied(t, Equals(t, ops, i, j))
  {
    hide Block, Tallied, Plus;
    TalliedNothing(t, 0.0);
    if ops != [] {
      var o := ops[0];
      if o.equal {
        BlockTallied(t, o.i1, o.j1, o.i2 - o.i1);
      }
      EqualsTallied(t, ops[1..], o.i2, o.j2);
      TalliedPlus(t, Paired(t, o), Equals(t, ops[1..], o.i2, o.j2));
    }
  }

  /** What an alignment scores is what its pairs score, and nothing else. */
  lemma AlignTallied(t: Scores, ops: seq<Opcode>)
    requires t.Valid() && Tiles(ops, 0, 0, |t.wa|, |t.wb|)
    ensures Tallied(t, Align(t, ops))
  {
    hide Tallied, Plus, Equals, Greedy, LeftA, LeftB;
    LeftWithin(ops, 0, 0, |t.wa|, |t.wb|);
    var la, lb := LeftA(ops, 0, 0, |t.wa|, |t.wb|), LeftB(ops, 0, 0, |t.wa|, |t.wb|);
    EqualsTallied(t, ops, 0, 0);
    GreedyTallied(t, la, lb);
    TalliedPlus(t, Equals(t, ops, 0, 0), Greedy(t, la, lb));
  }

  // ----- when everything is matched fully -----

  ghost predicate Full(r: Result) {
    forall k :: 0 <= k < |r.matches| ==> r.matches[k].2 == 1.0
  }

  lemma FullPlus(a: Result, b: Result)
    ensures Full(Plus(a, b)) <==> Full(a) && Full(b)
  {
    var x, y := a.matches, b.matches;
    assert forall k :: 0 <= k < |x| ==> (x + y)[k] == x[k];
    assert forall k :: 0 <= k < |y| ==> (x + y)[|x| + k] == y[k];
  }

  lemma FairPlus(a: Result, b: Result)
    requires Fair(a) && Fair(b)
    ensures Fair(Plus(a, b)) && (Plus(a, b).num == Plus(a, b).den <==> a.num == a.den && b.num == b.den)
  {
  }

  lemma {:induction false} SumAtPositive(t: Scores, ix: seq<nat>)
    requires t.Valid() && t.Bounded() && Within(ix, |t.wb|)
    ensures SumAt(t.wb, ix) == 0.0 <==> ix == []
  {
    if ix != [] {
      SumAtFair(t, ix[1..]);
    }
  }

  lemma {:induction false} GreedyMatches(t: Scores, la: seq<nat>, rem: seq<nat>)
    requires t.Valid() && Within(la, |t.wa|) && Within(rem, |t.wb|)
    ensures |Greedy(t, la, rem).matches| <= |la| && |Greedy(t, la, rem).matches| <= |rem|
  {
    hide Best;
    if la != [] {
      var b := Best(t, la[0], rem);
      if b.None? {
        GreedyMatches(t, la[1..], rem);
      } else {
        GreedyMatches(t, la[1..], RemoveAt(rem, b.value));
      }
    }
  }

  /** Greedy matching scores all of the weight exactly when it pairs all units, each fully. */
  lemma {:induction false} GreedyFull(t: Scores, la: seq<nat>, rem: seq<nat>)
    requires t.Valid() && t.Bounded() && Within(la, |t.wa|) && Within(rem, |t.wb|)
    ensures var r := Greedy(t, la, rem);
      r.num == r.den <==> Full(r) && |r.matches| == |la| == |rem|
    decreases la, 1
  {
    hide Best, Pair, Full, Plus;
    if la == [] {
      SumAtPositive(t, rem);
      assert Full(Greedy(t, la, rem)) by { NothingFull(SumAt(t.wb, rem)); }
    } else {
      GreedyFullStep(t, la, rem);
    }
  }

  lemma NothingFull(den: real)
    ensures Full(Result(0.0, den, []))
  {
  }

  lemma {:induction false} GreedyFullStep(t: Scores, la: seq<nat>, rem: seq<nat>)
    requires t.Valid() && t.Bounded() && Within(la, |t.wa|) && Within(rem, |t.wb|) && la != []
    ensures var r := Greedy(t, la, rem);
      r.num == r.den <==> Full(r) && |r.matches| == |la| == |rem|
    decreases la, 0
  {
    hide Best, Pair, Full;
    var b := Best(t, la[0], rem);
    if b.None? {
      GreedyFair(t, la[1..], rem);
      GreedyMatches(t, la[1..], rem);
    } else {
      var rest, p := Greedy(t, la[1..], RemoveAt(rem, b.value)), Pair(t, la[0], rem[b.value]);
      GreedyFair(t, la[1..], RemoveAt(rem, b.value));
      PairFair(t, la[0], rem[b.value]);
      PairFull(t, la[0], rem[b.value]);
      FairPlus(p, rest);
      FullPlus(p, rest);
      GreedyFull(t, la[1..], RemoveAt(rem, b.value));
    }
  }

  lemma PairFull(t: Scores, i: nat, j: nat)
    requires t.Valid() && i < |t.wa| && j < |t.wb|
    ensures |Pair(t, i, j).matches| == 1 && (Full(Pair(t, i, j)) <==> t.s[i][j] == 1.0)
  {
    assert Pair(t, i, j).matches[0].2 == t.s[i][j];
  }

  lemma {:induction false} BlockFull(t: Scores, i: nat, j: nat, n: nat)
    requires t.Valid() && t.Bounded() && i + n <= |t.wa| && j + n <= |t.wb|
    ensures var r := Block(t, i, j, n); Fair(r) && (r.num == r.den <==> Full(r))
  {
    hide Pair, Full, Plus;
    if n == 0 {
      NothingFull(0.0);
    } else {
      var p, before := Pair(t, i + n - 1, j + n - 1), Block(t, i, j, n - 1);
      BlockFull(t, i, j, n - 1);
      PairFair(t, i + n - 1, j + n - 1);
      PairFull(t, i + n - 1, j + n - 1);
      FairPlus(before, p);
      FullPlus(before, p);
    }
  }

  lemma {:induction false} EqualsFull(t: Scores, ops: seq<Opcode>, i: nat, j: nat)
    requires t.Valid() && t.Bounded() && Tiles(ops, i, j, |t.wa|, |t.wb|)
    ensures var r := Equals(t, ops, i, j); Fair(r) && (r.num == r.den <==> Full(r))
  {
    hide Block, Full, Plus;
    NothingFull(0.0);
    if ops != [] {
      var o := ops[0];
      var p, rest := Paired(t, o), Equals(t, ops[1..], o.i2, o.j2);
      if o.equal {
        BlockFull(t, o.i1, o.j1, o.i2 - o.i1);
      }
      EqualsFull(t, ops[1..], o.i2, o.j2);
      FairPlus(p, rest);
      FullPlus(p, rest);
    }
  }

  lemma CoveredSizes(t: Scores, ops: seq<Opcode>)
    requires t.Valid() && Tiles(ops, 0, 0, |t.wa|, |t.wb|)
    ensures var n, m := |t.wa|, |t.wb|; var e := |Equals(t, ops, 0, 0).matches|;
      e + |LeftA(ops, 0, 0, n, m)| == n && e + |LeftB(ops, 0, 0, n, m)| == m
  {
    hide Firsts, Seconds, Equals, LeftA, LeftB, Range;
    var n, m := |t.wa|, |t.wb|;
    EqualsPositions(t, ops, 0, 0);
    var e := Equals(t, ops, 0, 0);
    assert |multiset(Firsts(e.matches))| == |e.matches| == |multiset(Seconds(e.matches))|;
    assert |multiset(LeftA(ops, 0, 0, n, m))| == |LeftA(ops, 0, 0, n, m)|;
    assert |multiset(LeftB(ops, 0, 0, n, m))| == |LeftB(ops, 0, 0, n, m)|;
    assert |multiset(Range(0, n))| == n && |multiset(Range(0, m))| == m;
  }

  /** An alignment scores all of the weight exactly when it pairs all units of both lists, each fully. */
  lemma AlignFull(t: Scores, ops: seq<Opcode>)
    requires t.Valid() && t.Bounded() && Tiles(ops, 0, 0, |t.wa|, |t.wb|)
    ensures var r := Align(t, ops);
      r.num == r.den <==> Full(r) && |r.matches| == |t.wa| == |t.wb|
  {
    hide Equals, Greedy, LeftA, LeftB, Full;
    var n, m := |t.wa|, |t.wb|;
    LeftWithin(ops, 0, 0, n, m);
    var la, lb := LeftA(ops, 0, 0, n, m), LeftB(ops, 0, 0, n, m);
    var e, gr := Equals(t, ops, 0, 0), Greedy(t, la, lb);
    EqualsFull(t, ops, 0, 0);
    GreedyFull(t, la, lb);
    GreedyFair(t, la, lb);
    GreedyMatches(t, la, lb);
    CoveredSizes(t, ops);
    FairPlus(e, gr);
    FullPlus(e, gr);
  }

  // ----- what makes two units the same -----

  /** Carriers with the same text; leaves of one kind that the tree diff finds equal, or has nothing to
      say of; containers whose alignment pairs every child of either with one that is the same. */
  ghost predicate Same(g: Engine, a: Unit, b: Unit)
    requires Sound(g)
    decreases a, 1
  {
    if a.degraded || b.degraded then a.degraded && b.degraded && a.text == b.text != ""
    else if a.children == [] && b.children == [] then
      a.kind == b.kind && (a.ast.Some? && b.ast.Some? ==> g.diff(a.ast.value, b.ast.value) == 1.0)
    else SameLists(g, a.children, b.children)
  }

  ghost predicate SameLists(g: Engine, us: seq<Unit>, vs: seq<Unit>)
    requires Sound(g)
    decreases us, 0
  {
    var t, ops := ScoresOf(g, us, vs), g.opcodes(Kinds(us), Kinds(vs));
    AlignTallied(t, ops);
    var ms := Align(t, ops).matches;
    |us| == |vs| == |ms| && forall k :: 0 <= k < |ms| ==> Same(g, us[ms[k].0], vs[ms[k].1])
  }

  lemma OneIff(n: real, d: real)
    requires d > 0.0
    ensures n / d == 1.0 <==> n == d
  {
  }

  /** Two units are fully similar exactly when they are the same, at any depth. */
  lemma {:induction false} SameIff(g: Engine, a: Unit, b: Unit)
    requires Sound(g)
    ensures UnitSimilarity(g, a, b) == 1.0 <==> Same(g, a, b)
    decreases a, 1
  {
    hide Align, ScoresOf, Kinds, Tiles, SameLists;
    if !a.degraded && !b.degraded && (a.children != [] || b.children != []) {
      SameListsIff(g, a.children, b.children);
      var r := Align(ScoresOf(g, a.children, b.children), g.opcodes(Kinds(a.children), Kinds(b.children)));
      OneIff(r.num, r.den);
    }
  }

  lemma {:induction false} SameListsIff(g: Engine, us: seq<Unit>, vs: seq<Unit>)
    requires Sound(g)
    ensures var r := Align(ScoresOf(g, us, vs), g.opcodes(Kinds(us), Kinds(vs)));
      && (r.num == r.den <==> SameLists(g, us, vs))
      && (us != [] || vs != [] ==> r.den > 0.0)
    decreases us, 0
  {
    hide Align, UnitSimilarity, Weights, Sum, Tiles, MatchedSum;
    var t, ops := ScoresOf(g, us, vs), g.opcodes(Kinds(us), Kinds(vs));
    ScoresBounded(g, us, vs);
    AlignFull(t, ops);
    AlignTallied(t, ops);
    AlignDen(t, ops);
    SumPositive(t.wa);
    SumPositive(t.wb);
    var ms := Align(t, ops).matches;
    forall k | 0 <= k < |ms| ensures ms[k].2 == 1.0 <==> Same(g, us[ms[k].0], vs[ms[k].1]) {
      SameIff(g, us[ms[k].0], vs[ms[k].1]);
    }
  }

  /** A carrier has nothing in common with a parsed statement, nor have two leaves of different kinds. */
  lemma NothingInCommon(g: Engine, a: Unit, b: Unit)
    requires Sound(g)
    ensures a.degraded != b.degraded ==> UnitSimilarity(g, a, b) == 0.0
    ensures !a.degraded && !b.degraded && a.children == [] == b.children && a.kind != b.kind ==>
      UnitSimilarity(g, a, b) == 0.0
    ensures a.degraded && b.degraded && a.text != b.text ==> UnitSimilarity(g, a, b) == 0.0
  {
  }

  /** Between these, leaves of one kind score what the tree diff says, and containers the share of their
      children's weight that is matched. */
  lemma ShareOfWeight(g: Engine, a: Unit, b: Unit)
    requires Sound(g) && !a.degraded && !b.degraded
    ensures a.children == [] == b.children && a.kind == b.kind && a.ast.Some? && b.ast.Some? ==>
      UnitSimilarity(g, a, b) == g.diff(a.ast.value, b.ast.value)
    ensures a.children != [] || b.children != [] ==>
      var t, ops := ScoresOf(g, a.children, b.children), g.opcodes(Kinds(a.children), Kinds(b.children));
      && MatchesWithin(t, Align(t, ops).matches)
      && UnitSimilarity(g, a, b) * (Sum(t.wa) + Sum(t.wb)) == MatchedSum(t, Align(t, ops).matches)
  {
    hide Align, ScoresOf, Kinds, Tiles, SameLists, MatchedSum, Sum, MatchesWithin;
    if a.children != [] || b.children != [] {
      var t, ops := ScoresOf(g, a.children, b.children), g.opcodes(Kinds(a.children), Kinds(b.children));
      SameListsIff(g, a.children, b.children);
      AlignTallied(t, ops);
      AlignDen(t, ops);
      QuotientTimes(Align(t, ops).num, Align(t, ops).den);
    }
  }

  lemma QuotientTimes(n: real, d: real)
    requires d > 0.0
    ensures n / d * d == n
  {
  }

  // ----- a unit that nothing is like -----

  ghost predicate AloneA(t: Scores, i: nat)
    requires t.Valid() && i < |t.wa|
  {
    forall j :: 0 <= j < |t.wb| ==> t.s[i][j] == 0.0
  }

  ghost predicate AloneB(t: Scores, j: nat)
    requires t.Valid() && j < |t.wb|
  {
    forall i :: 0 <= i < |t.wa| ==> t.s[i][j] == 0.0
  }

  lemma {:induction false} GreedyLosesA(t: Scores, la: seq<nat>, rem: seq<nat>, i: nat)
    requires t.Valid() && t.Bounded() && Within(la, |t.wa|) && Within(rem, |t.wb|)
    requires i < |t.wa| && AloneA(t, i) && i in la
    ensures Greedy(t, la, rem).num + t.wa[i] <= Greedy(t, la, rem).den
  {
    hide Best, Pair;
    var b := Best(t, la[0], rem);
    if b.None? {
      GreedyFair(t, la[1..], rem);
      if la[0] != i {
        GreedyLosesA(t, la[1..], rem, i);
      }
    } else {
      assert la[0] != i;
      PairFair(t, la[0], rem[b.value]);
      GreedyLosesA(t, la[1..], RemoveAt(rem, b.value), i);
    }
  }

  lemma {:induction false} SumAtHolds(t: Scores, ix: seq<nat>, j: nat)
    requires t.Valid() && t.Bounded() && Within(ix, |t.wb|) && j in ix
    ensures t.wb[j] <= SumAt(t.wb, ix)
  {
    SumAtFair(t, ix[1..]);
    if ix[0] != j {
      SumAtHolds(t, ix[1..], j);
    }
  }

  lemma {:induction false} GreedyLosesB(t: Scores, la: seq<nat>, rem: seq<nat>, j: nat)
    requires t.Valid() && t.Bounded() && Within(la, |t.wa|) && Within(rem, |t.wb|)
    requires j < |t.wb| && AloneB(t, j) && j in rem
    ensures Greedy(t, la, rem).num + t.wb[j] <= Greedy(t, la, rem).den
  {
    hide Best, Pair;
    if la == [] {
      SumAtHolds(t, rem, j);
    } else {
      var b := Best(t, la[0], rem);
      if b.None? {
        GreedyLosesB(t, la[1..], rem, j);
      } else {
        assert rem[b.value] != j;
        assert rem == rem[..b.value] + [rem[b.value]] + rem[b.value + 1..];
        PairFair(t, la[0], rem[b.value]);
        GreedyLosesB(t, la[1..], RemoveAt(rem, b.value), j);
      }
    }
  }

  lemma {:induction false} BlockLoses(t: Scores, a: nat, b: nat, n: nat, x: nat, y: nat)
    requires t.Valid() && t.Bounded() && a + n <= |t.wa| && b + n <= |t.wb|
    requires a <= x < a + n && b <= y < b + n && y - b == x - a && t.s[x][y] == 0.0
    ensures Block(t, a, b, n).num + t.wa[x] + t.wb[y] <= Block(t, a, b, n).den
  {
    hide Pair;
    BlockFair(t, a, b, n - 1);
    PairFair(t, a + n - 1, b + n - 1);
    if x < a + n - 1 {
      BlockLoses(t, a, b, n - 1, x, y);
    } else {
      assert Pair(t, x, y).den == t.wa[x] + t.wb[y] by { PairDen(t, x, y); }
    }
  }

  lemma PairDen(t: Scores, i: nat, j: nat)
    requires t.Valid() && i < |t.wa| && j < |t.wb|
    ensures Pair(t, i, j).den == t.wa[i] + t.wb[j]
  {
  }

  lemma {:induction false} EqualsLosesA(t: Scores, ops: seq<Opcode>, i: nat, j: nat, x: nat)
    requires t.Valid() && t.Bounded() && Tiles(ops, i, j, |t.wa|, |t.wb|) && i <= x < |t.wa| && AloneA(t, x)
    ensures x in LeftA(ops, i, j, |t.wa|, |t.wb|)
      || Equals(t, ops, i, j).num + t.wa[x] <= Equals(t, ops, i, j).den
  {
    hide Block, Plus, AloneA;
    if ops != [] {
      var o := ops[0];
      EqualsFair(t, ops[1..], o.i2, o.j2);
      PairedFair(t, o);
      if x < o.i2 {
        if o.equal {
          assert t.s[x][o.j1 + (x - o.i1)] == 0.0 by { AloneAt(t, x, o.j1 + (x - o.i1)); }
          BlockLoses(t, o.i1, o.j1, o.i2 - o.i1, x, o.j1 + (x - o.i1));
        } else {
          assert OwnA(o)[x - o.i1] == x;
        }
      } else {
        EqualsLosesA(t, ops[1..], o.i2, o.j2, x);
      }
      PlusIs(Paired(t, o), Equals(t, ops[1..], o.i2, o.j2));
    }
  }

  lemma PlusIs(a: Result, b: Result)
    ensures Plus(a, b).num == a.num + b.num && Plus(a, b).den == a.den + b.den
  {
  }

  lemma AloneAt(t: Scores, i: nat, j: nat)
    requires t.Valid() && i < |t.wa| && j < |t.wb| && (AloneA(t, i) || AloneB(t, j))
    ensures t.s[i][j] == 0.0
  {
  }

  lemma {:induction false} EqualsLosesB(t: Scores, ops: seq<Opcode>, i: nat, j: nat, y: nat)
    requires t.Valid() && t.Bounded() && Tiles(ops, i, j, |t.wa|, |t.wb|) && j <= y < |t.wb| && AloneB(t, y)
    ensures y in LeftB(ops, i, j, |t.wa|, |t.wb|)
      || Equals(t, ops, i, j).num + t.wb[y] <= Equals(t, ops, i, j).den
  {
    hide Block, Plus, AloneB;
    if ops != [] {
      var o := ops[0];
      EqualsFair(t, ops[1..], o.i2, o.j2);
      PairedFair(t, o);
      if y < o.j2 {
        if o.equal {
          assert t.s[o.i1 + (y - o.j1)][y] == 0.0 by { AloneAt(t, o.i1 + (y - o.j1), y); }
          BlockLoses(t, o.i1, o.j1, o.i2 - o.i1, o.i1 + (y - o.j1), y);
        } else {
          assert OwnB(o)[y - o.j1] == y;
        }
      } else {
        EqualsLosesB(t, ops[1..], o.i2, o.j2, y);
      }
      PlusIs(Paired(t, o), Equals(t, ops[1..], o.i2, o.j2));
    }
  }

  /** A unit without a partner it is anything like keeps at least its own weight out of the numerator. */
  lemma AlignLoses(t: Scores, ops: seq<Opcode>)
    requires t.Valid() && t.Bounded() && Tiles(ops, 0, 0, |t.wa|, |t.wb|)
    ensures forall i :: 0 <= i < |t.wa| && AloneA(t, i) ==> Align(t, ops).num + t.wa[i] <= Align(t, ops).den
    ensures forall j :: 0 <= j < |t.wb| && AloneB(t, j) ==> Align(t, ops).num + t.wb[j] <= Align(t, ops).den
  {
    hide Equals, Greedy, LeftA, LeftB, AloneA, AloneB;
    var n, m := |t.wa|, |t.wb|;
    LeftWithin(ops, 0, 0, n, m);
    var la, lb := LeftA(ops, 0, 0, n, m), LeftB(ops, 0, 0, n, m);
    EqualsFair(t, ops, 0, 0);
    GreedyFair(t, la, lb);
    forall i | 0 <= i < n && AloneA(t, i) ensures Align(t, ops).num + t.wa[i] <= Align(t, ops).den {
      EqualsLosesA(t, ops, 0, 0, i);
      if i in la {
        GreedyLosesA(t, la, lb, i);
      }
    }
    forall j | 0 <= j < m && AloneB(t, j) ensures Align(t, ops).num + t.wb[j] <= Align(t, ops).den {
      EqualsLosesB(t, ops, 0, 0, j);
      if j in lb {
        GreedyLosesB(t, la, lb, j);
      }
    }
  }

  /** A statement lost to a carrier, or a carrier among parsed statements, counts fully against. */
  lemma OneSidedCarrier(g: Engine, us: seq<Unit>, vs: seq<Unit>)
    requires Sound(g)
    ensures var r := Align(ScoresOf(g, us, vs), g.opcodes(Kinds(us), Kinds(vs)));
      && (forall i :: 0 <= i < |us| && (forall j :: 0 <= j < |vs| ==> vs[j].degraded != us[i].degraded) ==>
            r.num + UnitWeight(g, us[i]) <= r.den)
      && (forall j :: 0 <= j < |vs| && (forall i :: 0 <= i < |us| ==> us[i].degraded != vs[j].degraded) ==>
            r.num + UnitWeight(g, vs[j]) <= r.den)
  {
    hide Align, UnitSimilarity, UnitWeight, Tiles;
    var t, ops := ScoresOf(g, us, vs), g.opcodes(Kinds(us), Kinds(vs));
    ScoresBounded(g, us, vs);
    AlignLoses(t, ops);
    forall i, j | 0 <= i < |us| && 0 <= j < |vs| && us[i].degraded != vs[j].degraded ensures t.s[i][j] == 0.0 {
      NothingInCommon(g, us[i], vs[j]);
    }
    forall i | 0 <= i < |us| && forall j :: 0 <= j < |vs| ==> vs[j].degraded != us[i].degraded ensures AloneA(t, i) {
    }
    forall j | 0 <= j < |vs| && forall i :: 0 <= i < |us| ==> us[i].degraded != vs[j].degraded ensures AloneB(t, j) {
    }
  }

  // ----- what a unit weighs -----

  /** How many units of a tree are carriers, containers, and leaves without a tree of their own; what is
      below a carrier does not count. */
  datatype Tally = Tally(carriers: nat, containers: nat, controls: nat, asts: real)

  function Count(g: Engine, u: Unit): Tally
    decreases u, 1
  {
    if u.degraded then Tally(1, 0, 0, 0.0)
    else
      var below := CountAll(g, u.children);
      if u.children != [] then below.(containers := below.containers + 1)
      else if u.ast.None? then Tally(0, 0, 1, 0.0)
      else Tally(0, 0, 0, g.astWeight(u.ast.value))
  }

  function CountAll(g: Engine, us: seq<Unit>): Tally
    decreases us, 0
  {
    if us == [] then Tally(0, 0, 0, 0.0)
    else
      var a, b := CountAll(g, us[..|us| - 1]), Count(g, us[|us| - 1]);
      Tally(a.carriers + b.carriers, a.containers + b.containers, a.controls + b.controls, a.asts + b.asts)
  }

  function Weighed(c: Tally): real {
    8.0 * c.carriers as real + c.containers as real + 3.0 * c.controls as real + c.asts
  }

  /** A unit weighs 8 a carrier, 1 a container, 3 a leaf without a tree, and its trees. */
  lemma {:induction false} WeightIs(g: Engine, u: Unit)
    ensures UnitWeight(g, u) == Weighed(Count(g, u))
    decreases u, 1
  {
    hide Weights, Sum;
    WeightsAre(g, u.children);
  }

  lemma {:induction false} WeightsAre(g: Engine, us: seq<Unit>)
    ensures Sum(Weights(g, us)) == Weighed(CountAll(g, us))
    decreases us, 0
  {
    hide UnitWeight, Count;
    if us != [] {
      var n := |us| - 1;
      WeightsAre(g, us[..n]);
      WeightIs(g, us[n]);
      assert Weights(g, us)[..n] == Weights(g, us[..n]);
    }
  }

  // ----- a list against itself -----

  /** Every carrier, at any depth, has some text. */
  predicate CarriersHaveText(u: Unit) {
    if u.degraded then u.text != "" else forall i :: 0 <= i < |u.children| ==> CarriersHaveText(u.children[i])
  }

  lemma {:induction false} SelfSimilar(g: Engine, u: Unit)
    requires Sound(g) && CarriersHaveText(u)
    ensures UnitSimilarity(g, u, u) == 1.0
    decreases u, 1
  {
    hide Align, ScoresOf, Kinds, Tiles;
    if !u.degraded && u.children != [] {
      SelfAligned(g, u.children);
      var r := Align(ScoresOf(g, u.children, u.children), g.opcodes(Kinds(u.children), Kinds(u.children)));
      WholeQuotient(r.num, r.den);
      assert UnitSimilarity(g, u, u) == r.num / r.den;
    }
  }

  lemma WholeQuotient(n: real, d: real)
    requires n == d > 0.0
    ensures n / d == 1.0
  {
  }

  lemma {:induction false} DiagonalBlock(t: Scores, n: nat)
    requires t.Valid() && n <= |t.wa| && |t.wa| == |t.wb|
    requires forall k :: 0 <= k < n ==> t.s[k][k] == 1.0
    ensures Block(t, 0, 0, n).num == Block(t, 0, 0, n).den
  {
    if n > 0 {
      DiagonalBlock(t, n - 1);
    }
  }

  /** A list aligned with itself matches all of its weight. */
  lemma {:induction false} SelfAligned(g: Engine, us: seq<Unit>)
    requires Sound(g) && forall i :: 0 <= i < |us| ==> CarriersHaveText(us[i])
    ensures var r := Align(ScoresOf(g, us, us), g.opcodes(Kinds(us), Kinds(us)));
      r.num == r.den && (us != [] ==> r.den > 0.0)
    decreases us, 0
  {
    var t := ScoresOf(g, us, us);
    var ops := g.opcodes(Kinds(us), Kinds(us));
    forall i | 0 <= i < |us| ensures t.s[i][i] == 1.0 {
      SelfSimilar(g, us[i]);
    }
    if us != [] {
      assert ops == [Opcode(true, 0, |us|, 0, |us|)];
      DiagonalBlock(t, |us|);
      WholeBlock(t, ops);
      AlignDen(t, ops);
      WeightsPositive(g, us);
      SumPositive(t.wa);
    } else {
      EmptyAlign(t, ops);
    }
    hide UnitSimilarity, Align, Block, Weights, Sum, Sound, CarriersHaveText;
  }

  lemma EmptyAlign(t: Scores, ops: seq<Opcode>)
    requires t.Valid() && |t.wa| == |t.wb| == 0 && Tiles(ops, 0, 0, 0, 0)
    ensures Align(t, ops).num == Align(t, ops).den
  {
    hide Align, Tiles;
    AlignDen(t, ops);
    assert t.Bounded();
    AlignFair(t, ops);
    assert Sum(t.wa) == 0.0 && Sum(t.wb) == 0.0;
  }

  lemma WholeBlock(t: Scores, ops: seq<Opcode>)
    requires t.Valid() && |t.wa| == |t.wb| && ops == [Opcode(true, 0, |t.wa|, 0, |t.wb|)]
    ensures Tiles(ops, 0, 0, |t.wa|, |t.wb|)
    ensures Align(t, ops).num == Block(t, 0, 0, |t.wa|).num && Align(t, ops).den == Block(t, 0, 0, |t.wa|).den
  {
    hide Block, Best;
    var n := |t.wa|;
    var none := Result(0.0, 0.0, []);
    assert ops[1..] == [] && Tiles(ops[1..], n, n, n, n);
    assert LeftA(ops[1..], n, n, n, n) == [] && LeftB(ops[1..], n, n, n, n) == [];
    assert OwnA(ops[0]) == [] && OwnB(ops[0]) == [];
    assert Equals(t, ops[1..], n, n) == none;
    assert Equals(t, ops, 0, 0) == Plus(Block(t, 0, 0, n), none);
    assert Greedy(t, [], []) == none;
    assert Align(t, ops) == Plus(Plus(Block(t, 0, 0, n), none), none);
  }

  // ----- the greedy match of a list with a permutation of it -----

  /** Full similarity is an equivalence on the units of a list. */
  ghost predicate Equivalence(g: Engine, us: seq<Unit>)
    requires Sound(g)
  {
    && (forall u :: u in us ==> UnitSimilarity(g, u, u) == 1.0)
    && (forall u, v :: u in us && v in us && UnitSimilarity(g, u, v) == 1.0 ==> UnitSimilarity(g, v, u) == 1.0)
    && (forall u, v, w | u in us && v in us && w in us ::
          UnitSimilarity(g, u, v) == 1.0 && UnitSimilarity(g, v, w) == 1.0 ==> UnitSimilarity(g, u, w) == 1.0)
  }

  function Bit(b: bool): nat {
    if b then 1 else 0
  }

  /** How many of the units at the positions `ix` are fully similar to `u`. */
  function Alike(g: Engine, u: Unit, us: seq<Unit>, ix: seq<nat>): nat
    requires Sound(g) && Within(ix, |us|)
  {
    if ix == [] then 0 else Bit(UnitSimilarity(g, u, us[ix[0]]) == 1.0) + Alike(g, u, us, ix[1..])
  }

  lemma {:induction false} AlikeConcat(g: Engine, u: Unit, us: seq<Unit>, x: seq<nat>, y: seq<nat>)
    requires Sound(g) && Within(x, |us|) && Within(y, |us|)
    ensures Within(x + y, |us|) && Alike(g, u, us, x + y) == Alike(g, u, us, x) + Alike(g, u, us, y)
  {
    hide UnitSimilarity, Sound;
    if x == [] {
      assert x + y == y;
    } else {
      assert (x + y)[1..] == x[1..] + y;
      AlikeConcat(g, u, us, x[1..], y);
    }
  }

  lemma AlikeRemove(g: Engine, u: Unit, us: seq<Unit>, ix: seq<nat>, k: nat)
    requires Sound(g) && Within(ix, |us|) && k < |ix|
    ensures Within(RemoveAt(ix, k), |us|)
    ensures Alike(g, u, us, ix) == Bit(UnitSimilarity(g, u, us[ix[k]]) == 1.0) + Alike(g, u, us, RemoveAt(ix, k))
  {
    hide UnitSimilarity, Sound;
    var before, after := ix[..k], ix[k + 1..];
    var rest := [ix[k]] + after;
    assert ix == before + rest && rest[1..] == after;
    AlikeConcat(g, u, us, before, rest);
    AlikeConcat(g, u, us, before, after);
  }

  lemma {:induction false} AlikeFound(g: Engine, u: Unit, us: seq<Unit>, ix: seq<nat>)
    requires Sound(g) && Within(ix, |us|) && Alike(g, u, us, ix) > 0
    ensures exists k :: 0 <= k < |ix| && UnitSimilarity(g, u, us[ix[k]]) == 1.0
  {
    hide UnitSimilarity, Sound;
    if UnitSimilarity(g, u, us[ix[0]]) != 1.0 {
      AlikeFound(g, u, us, ix[1..]);
      var k :| 0 <= k < |ix[1..]| && UnitSimilarity(g, u, us[ix[1..][k]]) == 1.0;
      assert ix[1..][k] == ix[k + 1];
    }
  }

  /** As many units left on either side in every class. */
  ghost predicate Balanced(g: Engine, us: seq<Unit>, vs: seq<Unit>, la: seq<nat>, rem: seq<nat>)
    requires Sound(g) && Within(la, |us|) && Within(rem, |vs|)
  {
    |la| == |rem| && forall u :: u in us ==> Alike(g, u, us, la) == Alike(g, u, vs, rem)
  }

  /** The best partner of the next unit is one of its own class. */
  lemma BestIsAlike(g: Engine, us: seq<Unit>, vs: seq<Unit>, la: seq<nat>, rem: seq<nat>)
    requires Sound(g) && Within(la, |us|) && Within(rem, |vs|) && la != []
    requires Equivalence(g, us) && Balanced(g, us, vs, la, rem)
    ensures var b := Best(ScoresOf(g, us, vs), la[0], rem);
      b.Some? && UnitSimilarity(g, us[la[0]], vs[rem[b.value]]) == 1.0
  {
    hide Sound, UnitSimilarity;
    var t := ScoresOf(g, us, vs);
    var u := us[la[0]];
    assert u in us && Alike(g, u, us, la) > 0;
    AlikeFound(g, u, vs, rem);
    var k :| 0 <= k < |rem| && UnitSimilarity(g, u, vs[rem[k]]) == 1.0;
    assert t.s[la[0]][rem[k]] == 1.0;
    var b := Best(t, la[0], rem);
    SimilarityBounded(g, u, vs[rem[b.value]]);
    hide Best, Equivalence, Balanced, Alike;
  }

  /** Taking two units of one class keeps the balance. */
  lemma BalancedStep(g: Engine, us: seq<Unit>, vs: seq<Unit>, la: seq<nat>, rem: seq<nat>, k: nat)
    requires Sound(g) && Within(la, |us|) && Within(rem, |vs|) && la != [] && k < |rem|
    requires Equivalence(g, us) && (forall v :: v in vs ==> v in us) && Balanced(g, us, vs, la, rem)
    requires UnitSimilarity(g, us[la[0]], vs[rem[k]]) == 1.0
    ensures Within(RemoveAt(rem, k), |vs|) && Balanced(g, us, vs, la[1..], RemoveAt(rem, k))
  {
    hide Sound, UnitSimilarity;
    var u, v := us[la[0]], vs[rem[k]];
    assert u in us && v in us;
    forall w | w in us ensures Alike(g, w, us, la[1..]) == Alike(g, w, vs, RemoveAt(rem, k)) {
      AlikeRemove(g, w, vs, rem, k);
      assert UnitSimilarity(g, w, u) == 1.0 <==> UnitSimilarity(g, w, v) == 1.0;
      hide Equivalence;
    }
  }

  ghost predicate AllFull(r: Result, n: nat) {
    r.num == r.den && |r.matches| == n && forall k :: 0 <= k < |r.matches| ==> r.matches[k].2 == 1.0
  }

  lemma AllFullStep(t: Scores, i: nat, j: nat, r: Result, n: nat)
    requires t.Valid() && i < |t.wa| && j < |t.wb| && t.s[i][j] == 1.0 && AllFull(r, n)
    ensures AllFull(Plus(Pair(t, i, j), r), n + 1)
  {
  }

  lemma {:induction false} BalancedMatchesAll(g: Engine, us: seq<Unit>, vs: seq<Unit>, la: seq<nat>, rem: seq<nat>)
    requires Sound(g) && Within(la, |us|) && Within(rem, |vs|)
    requires Equivalence(g, us) && (forall v :: v in vs ==> v in us) && Balanced(g, us, vs, la, rem)
    ensures AllFull(Greedy(ScoresOf(g, us, vs), la, rem), |la|)
  {
    if la != [] {
      var t := ScoresOf(g, us, vs);
      BestIsAlike(g, us, vs, la, rem);
      var b := Best(t, la[0], rem);
      BalancedStep(g, us, vs, la, rem, b.value);
      assert t.s[la[0]][rem[b.value]] == 1.0;
      hide UnitSimilarity, Best, Sound, Balanced, Equivalence, AllFull, ScoresOf, Pair, Plus, RemoveAt;
      BalancedMatchesAll(g, us, vs, la[1..], RemoveAt(rem, b.value));
      AllFullStep(t, la[0], rem[b.value], Greedy(t, la[1..], RemoveAt(rem, b.value)), |la[1..]|);
    }
  }

  function AlikeIn(g: Engine, u: Unit, us: seq<Unit>): nat
    requires Sound(g)
  {
    if us == [] then 0 else Bit(UnitSimilarity(g, u, us[0]) == 1.0) + AlikeIn(g, u, us[1..])
  }

  lemma {:induction false} AlikeInConcat(g: Engine, u: Unit, x: seq<Unit>, y: seq<Unit>)
    requires Sound(g)
    ensures AlikeIn(g, u, x + y) == AlikeIn(g, u, x) + AlikeIn(g, u, y)
  {
    hide UnitSimilarity, Sound;
    if x == [] {
      assert x + y == y;
    } else {
      assert (x + y)[1..] == x[1..] + y;
      AlikeInConcat(g, u, x[1..], y);
    }
  }

  lemma DropOne(x: seq<Unit>, y: seq<Unit>, k: nat)
    requires x != [] && k < |y| && y[k] == x[0] && multiset(x) == multiset(y)
    ensures multiset(x[1..]) == multiset(y[..k] + y[k + 1..])
  {
    var a, b := y[..k], y[k + 1..];
    assert x == [x[0]] + x[1..];
    assert y == a + [y[k]] + b;
    assert multiset(a + b) == multiset(a) + multiset(b);
    assert multiset(y) == multiset(a) + multiset{y[k]} + multiset(b);
    assert multiset(x) == multiset{x[0]} + multiset(x[1..]);
    assert multiset(x[1..]) == multiset(x) - multiset{x[0]};
  }

  /** The count does not depend on the order. */
  lemma {:induction false} AlikeInPermuted(g: Engine, u: Unit, x: seq<Unit>, y: seq<Unit>)
    requires Sound(g) && multiset(x) == multiset(y)
    ensures AlikeIn(g, u, x) == AlikeIn(g, u, y)
  {
    hide UnitSimilarity, Sound;
    if x == [] {
      assert |multiset(y)| == 0;
    } else {
      assert x[0] in multiset(x);
      var k :| 0 <= k < |y| && y[k] == x[0];
      DropOne(x, y, k);
      AlikeInPermuted(g, u, x[1..], y[..k] + y[k + 1..]);
      AlikeInSplit(g, u, y, k);
    }
  }

  lemma AlikeInSplit(g: Engine, u: Unit, y: seq<Unit>, k: nat)
    requires Sound(g) && k < |y|
    ensures AlikeIn(g, u, y) == Bit(UnitSimilarity(g, u, y[k]) == 1.0) + AlikeIn(g, u, y[..k] + y[k + 1..])
  {
    hide UnitSimilarity, Sound;
    var before, after := y[..k], y[k + 1..];
    var rest := [y[k]] + after;
    assert y == before + rest && rest[1..] == after;
    AlikeInConcat(g, u, before, rest);
    AlikeInConcat(g, u, before, after);
  }

  lemma {:induction false} AlikeAll(g: Engine, u: Unit, us: seq<Unit>, a: nat)
    requires Sound(g) && a <= |us|
    ensures Within(Range(a, |us|), |us|) && Alike(g, u, us, Range(a, |us|)) == AlikeIn(g, u, us[a..])
    decreases |us| - a
  {
    hide UnitSimilarity, Sound;
    if a < |us| {
      AlikeAll(g, u, us, a + 1);
      assert Range(a, |us|)[1..] == Range(a + 1, |us|);
      assert us[a..][1..] == us[a + 1..];
    }
  }

  /** A statement list matched greedily with any permutation of itself: every unit finds a fully
      similar partner, and all of the weight is matched. */
  lemma PermutationMatches(g: Engine, us: seq<Unit>, vs: seq<Unit>)
    requires Sound(g) && Equivalence(g, us) && multiset(us) == multiset(vs)
    ensures AllFull(Greedy(ScoresOf(g, us, vs), Range(0, |us|), Range(0, |vs|)), |us|)
  {
    hide UnitSimilarity, Sound, Equivalence, Greedy, ScoresOf;
    assert |multiset(us)| == |us| && |multiset(vs)| == |vs|;
    forall v | v in vs ensures v in us {
      assert v in multiset(vs);
    }
    forall u | u in us ensures Alike(g, u, us, Range(0, |us|)) == Alike(g, u, vs, Range(0, |vs|)) {
      AlikeAll(g, u, us, 0);
      AlikeAll(g, u, vs, 0);
      assert us[0..] == us && vs[0..] == vs;
      AlikeInPermuted(g, u, us, vs);
    }
    BalancedMatchesAll(g, us, vs, Range(0, |us|), Range(0, |vs|));
  }

  // ----- the loops of the source -----

  lemma PlusAssociates(a: Result, b: Result, c: Result)
    ensures Plus(Plus(a, b), c) == Plus(a, Plus(b, c))
  {
    assert (a.matches + b.matches) + c.matches == a.matches + (b.matches + c.matches);
  }

  /** The inner loop of `_greedy`: the first best partner among the remaining ones. */
  method BestPartner(t: Scores, i: nat, remaining: seq<nat>) returns (best: Option<nat>)
    requires t.Valid() && i < |t.wa| && Within(remaining, |t.wb|)
    ensures best == Best(t, i, remaining)
  {
    best := None;
    var bestS := 0.0;
    for k := 0 to |remaining|
      invariant best == Best(t, i, remaining[..k])
      invariant bestS == if best.Some? then t.s[i][remaining[best.value]] else 0.0
    {
      assert remaining[..k + 1][..k] == remaining[..k];
      var (_, _, s) := ScorePair(t, i, remaining[k]);
      if s > bestS {
        best, bestS := Some(k), s;
      }
    }
    assert remaining[..|remaining|] == remaining;
  }

  /** What has been accumulated and what is still to come make up the whole. */
  ghost predicate GreedySoFar(t: Scores, la: seq<nat>, lb: seq<nat>, k: nat, remaining: seq<nat>, acc: Result)
    requires t.Valid() && Within(la, |t.wa|) && Within(lb, |t.wb|)
  {
    k <= |la| && Within(remaining, |t.wb|) && Plus(acc, Greedy(t, la[k..], remaining)) == Greedy(t, la, lb)
  }

  lemma GreedyStep(t: Scores, la: seq<nat>, lb: seq<nat>, k: nat, remaining: seq<nat>, acc: Result)
    requires t.Valid() && Within(la, |t.wa|) && Within(lb, |t.wb|)
    requires GreedySoFar(t, la, lb, k, remaining, acc) && k < |la|
    ensures var b := Best(t, la[k], remaining);
      if b.None? then GreedySoFar(t, la, lb, k + 1, remaining, Plus(acc, Result(0.0, t.wa[la[k]], [])))
      else GreedySoFar(t, la, lb, k + 1, RemoveAt(remaining, b.value), Plus(acc, Pair(t, la[k], remaining[b.value])))
  {
    hide Best, Pair, Plus;
    var rest := la[k + 1..];
    assert la[k..][0] == la[k] && la[k..][1..] == rest;
    var b := Best(t, la[k], remaining);
    if b.None? {
      PlusAssociates(acc, Result(0.0, t.wa[la[k]], []), Greedy(t, rest, remaining));
    } else {
      PlusAssociates(acc, Pair(t, la[k], remaining[b.value]), Greedy(t, rest, RemoveAt(remaining, b.value)));
    }
  }

  lemma GreedyStart(t: Scores, la: seq<nat>, lb: seq<nat>)
    requires t.Valid() && Within(la, |t.wa|) && Within(lb, |t.wb|)
    ensures GreedySoFar(t, la, lb, 0, lb, Result(0.0, 0.0, []))
  {
    assert la[0..] == la;
    assert forall r: Result :: Plus(Result(0.0, 0.0, []), r) == r by {
      forall r: Result ensures Plus(Result(0.0, 0.0, []), r) == r {
        assert [] + r.matches == r.matches;
      }
    }
    hide Greedy;
  }

  lemma GreedyEnd(t: Scores, la: seq<nat>, lb: seq<nat>, k: nat, remaining: seq<nat>, acc: Result)
    requires t.Valid() && Within(la, |t.wa|) && Within(lb, |t.wb|)
    requires GreedySoFar(t, la, lb, k, remaining, acc) && k == |la|
    ensures Within(remaining, |t.wb|)
    ensures Greedy(t, la, lb) == Result(acc.num, acc.den + SumAt(t.wb, remaining), acc.matches)
  {
    assert la[k..] == [];
    assert Greedy(t, [], remaining) == Result(0.0, SumAt(t.wb, remaining), []);
    assert acc.matches + [] == acc.matches;
    hide Greedy;
  }

  /** `_greedy`: the numbers accumulate, the remaining partners shrink. */
  method GreedyLoop(t: Scores, la: seq<nat>, lb: seq<nat>) returns (r: Result)
    requires t.Valid() && Within(la, |t.wa|) && Within(lb, |t.wb|)
    ensures r == Greedy(t, la, lb)
  {
    hide Best, Greedy, GreedySoFar, ScorePair, RemoveAt;
    var num, den := 0.0, 0.0;
    var matches: seq<Match> := [];
    var remaining := lb;
    GreedyStart(t, la, lb);
    for k := 0 to |la|
      invariant Within(remaining, |t.wb|)
      invariant GreedySoFar(t, la, lb, k, remaining, Result(num, den, matches))
    {
      GreedyStep(t, la, lb, k, remaining, Result(num, den, matches));
      var best := BestPartner(t, la[k], remaining);
      if best.None? {
        assert matches + [] == matches;
        den := den + t.wa[la[k]];
      } else {
        var j := remaining[best.value];
        RemoveWithin(remaining, best.value, |t.wb|);
        var (n, d, s) := ScorePair(t, la[k], j);
        num := num + n;
        den := den + d;
        matches := matches + [(la[k], j, s)];
        remaining := RemoveAt(remaining, best.value);
      }
    }
    GreedyEnd(t, la, lb, |la|, remaining, Result(num, den, matches));
    var unmatched := SumLoop(t.wb, remaining);
    r := Result(num, den + unmatched, matches);
  }

  lemma RemoveWithin(ix: seq<nat>, k: nat, n: nat)
    requires Within(ix, n) && k < |ix|
    ensures Within(RemoveAt(ix, k), n)
  {
  }

  /** The last loop of `_greedy`: the weight of the partners that are left. */
  method SumLoop(w: seq<real>, ix: seq<nat>) returns (sum: real)
    requires Within(ix, |w|)
    ensures sum == SumAt(w, ix)
  {
    sum := 0.0;
    for k := 0 to |ix|
      invariant sum + SumAt(w, ix[k..]) == SumAt(w, ix)
    {
      assert ix[k..][1..] == ix[k + 1..];
      sum := sum + w[ix[k]];
    }
  }

  /** The pairs of one equal block, added to what has been accumulated. */
  method PairBlock(t: Scores, o: Opcode, before: Result) returns (r: Result)
    requires t.Valid() && InBounds(o, |t.wa|, |t.wb|) && o.equal
    ensures r == Plus(before, Block(t, o.i1, o.j1, o.i2 - o.i1))
  {
    hide ScorePair;
    r := before;
    assert before.matches + [] == before.matches;
    for k := 0 to o.i2 - o.i1
      invariant r == Plus(before, Block(t, o.i1, o.j1, k))
    {
      var (n, d, s) := ScorePair(t, o.i1 + k, o.j1 + k);
      PlusAssociates(before, Block(t, o.i1, o.j1, k), Pair(t, o.i1 + k, o.j1 + k));
      r := Result(r.num + n, r.den + d, r.matches + [(o.i1 + k, o.j1 + k, s)]);
    }
  }

  /** The opcodes from the `k`-th on, from `i` and `j`, complete what has been accumulated. */
  ghost predicate AlignSoFar(t: Scores, ops: seq<Opcode>, k: nat, i: nat, j: nat, acc: Result, leftA: seq<nat>,
    leftB: seq<nat>)
    requires t.Valid() && Tiles(ops, 0, 0, |t.wa|, |t.wb|)
  {
    var n, m := |t.wa|, |t.wb|;
    && k <= |ops| && Tiles(ops[k..], i, j, n, m)
    && Plus(acc, Equals(t, ops[k..], i, j)) == Equals(t, ops, 0, 0)
    && leftA + LeftA(ops[k..], i, j, n, m) == LeftA(ops, 0, 0, n, m)
    && leftB + LeftB(ops[k..], i, j, n, m) == LeftB(ops, 0, 0, n, m)
  }

  lemma AlignStep(t: Scores, ops: seq<Opcode>, k: nat, i: nat, j: nat, acc: Result, leftA: seq<nat>, leftB: seq<nat>)
    requires t.Valid() && Tiles(ops, 0, 0, |t.wa|, |t.wb|)
    requires AlignSoFar(t, ops, k, i, j, acc, leftA, leftB) && k < |ops|
    ensures InBounds(ops[k], |t.wa|, |t.wb|)
    ensures var o := ops[k];
      AlignSoFar(t, ops, k + 1, o.i2, o.j2, Plus(acc, Paired(t, o)), leftA + OwnA(o), leftB + OwnB(o))
  {
    hide Paired, OwnA, OwnB, Plus;
    var o := ops[k];
    assert ops[k..][0] == o && ops[k..][1..] == ops[k + 1..];
    PlusAssociates(acc, Paired(t, o), Equals(t, ops[k + 1..], o.i2, o.j2));
    var n, m := |t.wa|, |t.wb|;
    Regroup(leftA, OwnA(o), LeftA(ops[k + 1..], o.i2, o.j2, n, m));
    Regroup(leftB, OwnB(o), LeftB(ops[k + 1..], o.i2, o.j2, n, m));
  }

  lemma AlignStart(t: Scores, ops: seq<Opcode>)
    requires t.Valid() && Tiles(ops, 0, 0, |t.wa|, |t.wb|)
    ensures AlignSoFar(t, ops, 0, 0, 0, Result(0.0, 0.0, []), [], [])
  {
    hide Equals, LeftA, LeftB, Tiles;
    assert ops[0..] == ops;
    var e := Equals(t, ops, 0, 0);
    assert [] + e.matches == e.matches;
    var la, lb := LeftA(ops, 0, 0, |t.wa|, |t.wb|), LeftB(ops, 0, 0, |t.wa|, |t.wb|);
    assert [] + la == la && [] + lb == lb;
  }

  lemma AlignEnd(t: Scores, ops: seq<Opcode>, k: nat, i: nat, j: nat, acc: Result, leftA: seq<nat>, leftB: seq<nat>)
    requires t.Valid() && Tiles(ops, 0, 0, |t.wa|, |t.wb|)
    requires AlignSoFar(t, ops, k, i, j, acc, leftA, leftB) && k == |ops|
    ensures acc == Equals(t, ops, 0, 0)
    ensures leftA == LeftA(ops, 0, 0, |t.wa|, |t.wb|) && leftB == LeftB(ops, 0, 0, |t.wa|, |t.wb|)
  {
    var n, m := |t.wa|, |t.wb|;
    assert ops[k..] == [];
    assert Equals(t, [], i, j) == Result(0.0, 0.0, []) && LeftA([], i, j, n, m) == [] && LeftB([], i, j, n, m) == [];
    assert acc.matches + [] == acc.matches && leftA + [] == leftA && leftB + [] == leftB;
    hide Equals, LeftA, LeftB, Tiles;
  }

  /** `_align`. */
  method AlignLoop(t: Scores, ops: seq<Opcode>) returns (r: Result)
    requires t.Valid() && Tiles(ops, 0, 0, |t.wa|, |t.wb|)
    ensures r == Align(t, ops)
  {
    hide Paired, Block, AlignSoFar, Equals, LeftA, LeftB, Greedy, Tiles;
    LeftWithin(ops, 0, 0, |t.wa|, |t.wb|);
    var acc := Result(0.0, 0.0, []);
    var leftA: seq<nat>, leftB: seq<nat> := [], [];
    ghost var i: nat, j: nat := 0, 0;
    AlignStart(t, ops);
    for k := 0 to |ops|
      invariant AlignSoFar(t, ops, k, i, j, acc, leftA, leftB)
    {
      var o := ops[k];
      AlignStep(t, ops, k, i, j, acc, leftA, leftB);
      PairedValue(t, o, acc);
      if o.equal {
        acc := PairBlock(t, o, acc);
        assert leftA + [] == leftA && leftB + [] == leftB;
      } else {
        leftA := leftA + Range(o.i1, o.i2);
        leftB := leftB + Range(o.j1, o.j2);
      }
      i, j := o.i2, o.j2;
    }
    AlignEnd(t, ops, |ops|, i, j, acc, leftA, leftB);
    var greedy := GreedyLoop(t, leftA, leftB);
    r := Result(acc.num + greedy.num, acc.den + greedy.den, acc.matches + greedy.matches);
  }

  lemma PairedValue(t: Scores, o: Opcode, before: Result)
    requires t.Valid() && InBounds(o, |t.wa|, |t.wb|)
    ensures Plus(before, Paired(t, o)) == if o.equal then Plus(before, Block(t, o.i1, o.j1, o.i2 - o.i1)) else before
  {
    assert before.matches + [] == before.matches;
  }
}
