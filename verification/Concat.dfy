/** `_rewrite_tsql_string_concat` of src/unique/core/converter/_base.py: a top-down pass that does
    not enter a node it has just replaced, repeated until nothing changes or 64 passes are done. */
module Concat {
  import opened Text

  datatype CastType = Char | Varchar | Nchar | Nvarchar | TextType | OtherType

  /** The head of a sqlglot node; its arguments are the children of the tree. */
  datatype Op =
    | Add
    | DPipe
    | ConcatCall
    | Literal(isString: bool, text: string)
    | National(text: string)
    | Neg
    | Column(name: string, qualified: bool)
    | Cast(to: CastType)
    | StringBuiltin              // SUBSTRING, TRIM, UPPER, LOWER
    | Anonymous(name: string)
    | Other(tag: string)

  datatype Expr = Node(op: Op, kids: seq<Expr>)

  const STRING_FUNCTIONS: set<string> := {
    "LEFT", "RIGHT", "SUBSTRING", "LTRIM", "RTRIM", "TRIM", "UPPER", "LOWER", "REPLACE", "FORMAT", "STR",
    "CONCAT", "STUFF"
  }

  function LStripAt(s: string): string {
    if s != [] && s[0] == '@' then LStripAt(s[1..]) else s
  }

  /** `_looks_like_string`, with the registry of string variables as a parameter. */
  predicate LooksLikeString(known: set<string>, e: Expr) {
    match e.op
    case Literal(isString, _) => isString
    case National(_) | DPipe | ConcatCall | StringBuiltin => true
    case Column(name, qualified) => !qualified && LowerAll(LStripAt(name)) in known
    case Cast(to) => !to.OtherType?
    case Anonymous(name) => UpperAll(name) in STRING_FUNCTIONS
    case Add | Neg | Other(_) => false
  }

  predicate IsNumericLiteral(e: Expr) {
    var n := if e.op.Neg? && |e.kids| == 1 then e.kids[0] else e;
    n.op.Literal? && !n.op.isString
  }

  /** The test of `transform`: this `+` is a concatenation. A node short of an operand is left alone. */
  predicate Converts(known: set<string>, e: Expr) {
    && e.op.Add? && |e.kids| == 2
    && !IsNumericLiteral(e.kids[0]) && !IsNumericLiteral(e.kids[1])
    && (LooksLikeString(known, e.kids[0]) || LooksLikeString(known, e.kids[1])
        || e.kids[0].op.DPipe? || e.kids[1].op.DPipe?)
  }

  // ----- the source: pruned top-down passes -----

  /** `expr.transform(transform)`: pre-order, a replaced node is not entered. */
  function Pass(known: set<string>, e: Expr): Expr
    decreases e, 1
  {
    if Converts(known, e) then Node(DPipe, e.kids) else Node(e.op, PassAll(known, e.kids))
  }

  function PassAll(known: set<string>, es: seq<Expr>): (r: seq<Expr>)
    ensures |r| == |es|
    ensures forall i :: 0 <= i < |es| ==> r[i] == Pass(known, es[i])
    decreases es, 0
  {
    if es == [] then [] else [Pass(known, es[0])] + PassAll(known, es[1..])
  }

  function Passes(known: set<string>, e: Expr, n: nat): Expr
    decreases n
  {
    if n == 0 then e else Passes(known, Pass(known, e), n - 1)
  }

  // ----- the reference: one bottom-up pass -----

  function BottomUp(known: set<string>, e: Expr): Expr
    decreases e, 1
  {
    var r := Node(e.op, BottomUpAll(known, e.kids));
    if Converts(known, r) then Node(DPipe, r.kids) else r
  }

  function BottomUpAll(known: set<string>, es: seq<Expr>): (r: seq<Expr>)
    ensures |r| == |es|
    ensures forall i :: 0 <= i < |es| ==> r[i] == BottomUp(known, es[i])
    decreases es, 0
  {
    if es == [] then [] else [BottomUp(known, es[0])] + BottomUpAll(known, es[1..])
  }

  // ----- measures and views of a tree -----

  /** The number of binary `+` nodes. */
  function Adds(e: Expr): nat
    decreases e, 1
  {
    (if e.op.Add? then 1 else 0) + AddsAll(e.kids)
  }

  function AddsAll(es: seq<Expr>): nat
    decreases es, 0
  {
    if es == [] then 0 else Adds(es[0]) + AddsAll(es[1..])
  }

  /** A bottom-up pass makes the node at the root a concatenation. */
  predicate Turned(known: set<string>, e: Expr) {
    e.op.Add? && BottomUp(known, e).op.DPipe?
  }

  /** How deep the `+` nodes that become concatenations are nested in one another. */
  function Nesting(known: set<string>, e: Expr): nat
    decreases e, 1
  {
    (if Turned(known, e) then 1 else 0) + NestingAll(known, e.kids)
  }

  function NestingAll(known: set<string>, es: seq<Expr>): nat
    decreases es, 0
  {
    if es == [] then 0
    else if Nesting(known, es[0]) >= NestingAll(known, es[1..]) then Nesting(known, es[0])
    else NestingAll(known, es[1..])
  }

  /** The operators without arguments, from left to right. */
  function Leaves(e: Expr): seq<Op>
    decreases e, 1
  {
    if e.kids == [] then [e.op] else LeavesAll(e.kids)
  }

  function LeavesAll(es: seq<Expr>): seq<Op>
    decreases es, 0
  {
    if es == [] then [] else Leaves(es[0]) + LeavesAll(es[1..])
  }

  /** `b` is `a` with some `+` nodes made `||`, none of them over a numeric literal and each with an
      operand that is a string in the result. */
  ghost predicate OnlyConcats(known: set<string>, a: Expr, b: Expr)
    decreases a
  {
    && |a.kids| == |b.kids|
    && (a.op == b.op
        || (a.op.Add? && b.op.DPipe? && |a.kids| == 2
            && !IsNumericLiteral(a.kids[0]) && !IsNumericLiteral(a.kids[1])
            && (LooksLikeString(known, b.kids[0]) || LooksLikeString(known, b.kids[1]))))
    && forall i :: 0 <= i < |a.kids| ==> OnlyConcats(known, a.kids[i], b.kids[i])
  }

  // ----- one pass -----

  /** Both walks keep what the test reads of an operand; string-ness only grows, through `||`. */
  lemma HeadsKept(known: set<string>, e: Expr)
    ensures var p := Pass(known, e); var b := BottomUp(known, e);
      && IsNumericLiteral(p) == IsNumericLiteral(e) == IsNumericLiteral(b)
      && (LooksLikeString(known, e) ==> LooksLikeString(known, p) && LooksLikeString(known, b))
      && (e.op.DPipe? ==> p.op.DPipe? && b.op.DPipe?)
  {
    if e.op.Neg? && |e.kids| == 1 {
      var k := e.kids[0];
      assert Pass(known, e).kids[0] == Pass(known, k) && BottomUp(known, e).kids[0] == BottomUp(known, k);
      assert k.op.Literal? ==> Pass(known, k).op == k.op && BottomUp(known, k).op == k.op;
    }
  }

  lemma ConvertsUp(known: set<string>, e: Expr)
    requires Converts(known, e)
    ensures BottomUp(known, e) == Node(DPipe, BottomUpAll(known, e.kids))
  {
    HeadsKept(known, e.kids[0]);
    HeadsKept(known, e.kids[1]);
    hide LooksLikeString, IsNumericLiteral;
  }

  /** A pass does not change what a bottom-up pass makes of the tree. */
  lemma {:induction false} PassKeepsBottomUp(known: set<string>, e: Expr)
    ensures BottomUp(known, Pass(known, e)) == BottomUp(known, e)
  {
    if Converts(known, e) {
      ConvertsUp(known, e);
      assert !Converts(known, Node(DPipe, BottomUpAll(known, e.kids)));
    } else {
      forall i | 0 <= i < |e.kids| ensures BottomUp(known, Pass(known, e.kids[i])) == BottomUp(known, e.kids[i]) {
        PassKeepsBottomUp(known, e.kids[i]);
      }
      assert BottomUpAll(known, PassAll(known, e.kids)) == BottomUpAll(known, e.kids);
      hide Converts;
    }
  }

  /** An operand that becomes a string on the way is itself turned. */
  lemma LateOperand(known: set<string>, e: Expr)
    requires Turned(known, e) && !Converts(known, e)
    ensures exists i :: 0 <= i < |e.kids| && Turned(known, e.kids[i])
  {
    var l, r := e.kids[0], e.kids[1];
    HeadsKept(known, l);
    HeadsKept(known, r);
    BottomUpHead(known, l);
    BottomUpHead(known, r);
    assert Turned(known, e.kids[0]) || Turned(known, e.kids[1]);
  }

  lemma BottomUpHead(known: set<string>, e: Expr)
    ensures Turned(known, e) || BottomUp(known, e).op == e.op
  {
    hide LooksLikeString, IsNumericLiteral;
  }

  lemma {:induction false} NestingOfKid(known: set<string>, es: seq<Expr>, i: nat)
    requires i < |es|
    ensures Nesting(known, es[i]) <= NestingAll(known, es)
    decreases es
  {
    if i > 0 {
      NestingOfKid(known, es[1..], i - 1);
    }
  }

  function Less(n: nat): nat {
    if n == 0 then 0 else n - 1
  }

  /** Every pass takes exactly one level off the nesting. */
  lemma {:induction false} NestingPass(known: set<string>, e: Expr)
    ensures Nesting(known, Pass(known, e)) == Less(Nesting(known, e))
    decreases e, 1
  {
    hide BottomUp;
    var p := Pass(known, e);
    PassKeepsBottomUp(known, e);
    if Converts(known, e) {
      ConvertsUp(known, e);
    } else {
      NestingPassAll(known, e.kids);
      if Turned(known, e) {
        LateOperand(known, e);
        var i :| 0 <= i < |e.kids| && Turned(known, e.kids[i]);
        NestingOfKid(known, e.kids, i);
      }
      assert Turned(known, p) == Turned(known, e);
    }
  }

  lemma {:induction false} NestingPassAll(known: set<string>, es: seq<Expr>)
    ensures NestingAll(known, PassAll(known, es)) == Less(NestingAll(known, es))
    decreases es, 0
  {
    hide Nesting, Pass;
    if es != [] {
      NestingPass(known, es[0]);
      NestingPassAll(known, es[1..]);
      assert PassAll(known, es)[1..] == PassAll(known, es[1..]);
    }
  }

  lemma {:induction false} NoNesting(known: set<string>, e: Expr)
    ensures Nesting(known, e) == 0 <==> BottomUp(known, e) == e
    decreases e, 1
  {
    hide Converts;
    NoNestingAll(known, e.kids);
    BottomUpHead(known, e);
    assert BottomUp(known, e).kids == BottomUpAll(known, e.kids);
  }

  lemma {:induction false} NoNestingAll(known: set<string>, es: seq<Expr>)
    ensures NestingAll(known, es) == 0 <==> BottomUpAll(known, es) == es
    decreases es, 0
  {
    hide Nesting, BottomUp;
    if es != [] {
      NoNesting(known, es[0]);
      NoNestingAll(known, es[1..]);
      var r := BottomUpAll(known, es);
      assert r[1..] == BottomUpAll(known, es[1..]) && r[0] == BottomUp(known, es[0]);
      assert es == [es[0]] + es[1..] && r == [r[0]] + r[1..];
    }
  }

  // ----- many passes -----

  lemma {:induction false} FixpointStays(known: set<string>, e: Expr, n: nat)
    requires Pass(known, e) == e
    ensures Passes(known, e, n) == e
  {
    if n > 0 {
      FixpointStays(known, e, n - 1);
    }
  }

  /** The number of passes a tree needs is the nesting of its concatenations: no fewer, no more. */
  lemma {:induction false} PassesIff(known: set<string>, e: Expr, n: nat)
    ensures Passes(known, e, n) == BottomUp(known, e) <==> Nesting(known, e) <= n
    decreases n
  {
    hide Pass, BottomUp, Nesting;
    if n == 0 {
      NoNesting(known, e);
    } else {
      NestingPass(known, e);
      PassKeepsBottomUp(known, e);
      PassesIff(known, Pass(known, e), n - 1);
    }
  }

  /** There are at least as many conversions as levels. */
  lemma {:induction false} NestingAtMostAdds(known: set<string>, e: Expr)
    ensures Nesting(known, e) + Adds(BottomUp(known, e)) <= Adds(e)
    decreases e, 1
  {
    hide Converts;
    NestingAllAtMostAdds(known, e.kids);
    BottomUpHead(known, e);
  }

  lemma {:induction false} NestingAllAtMostAdds(known: set<string>, es: seq<Expr>)
    ensures NestingAll(known, es) + AddsAll(BottomUpAll(known, es)) <= AddsAll(es)
    decreases es, 0
  {
    hide Nesting, BottomUp, Adds;
    if es != [] {
      NestingAtMostAdds(known, es[0]);
      NestingAllAtMostAdds(known, es[1..]);
      assert BottomUpAll(known, es)[1..] == BottomUpAll(known, es[1..]);
    }
  }

  /** The loop of the source. Trees are compared where the source compares their rendering. */
  method RewriteTsqlStringConcat(known: set<string>, expr: Expr) returns (result: Expr)
    ensures result == Passes(known, expr, 64)
    ensures result == BottomUp(known, expr) <==> Nesting(known, expr) <= 64
  {
    hide Pass, BottomUp, Nesting;
    result := expr;
    for k := 0 to 64
      invariant Passes(known, result, 64 - k) == Passes(known, expr, 64)
    {
      var transformed := Pass(known, result);
      if transformed == result {
        FixpointStays(known, result, 64 - k);
        break;
      }
      result := transformed;
    }
    PassesIff(known, expr, 64);
  }

  // ----- what the bottom-up tree is -----

  /** No `+` that is a concatenation is left anywhere in the tree. */
  ghost predicate NoneLeft(known: set<string>, e: Expr)
    decreases e
  {
    !Converts(known, e) && forall i :: 0 <= i < |e.kids| ==> NoneLeft(known, e.kids[i])
  }

  lemma {:induction false} OnlyConcatsRefl(known: set<string>, e: Expr)
    ensures OnlyConcats(known, e, e)
  {
    forall i | 0 <= i < |e.kids| ensures OnlyConcats(known, e.kids[i], e.kids[i]) {
      OnlyConcatsRefl(known, e.kids[i]);
    }
  }

  lemma OnlyConcatsHeads(known: set<string>, a: Expr, b: Expr)
    requires OnlyConcats(known, a, b)
    ensures IsNumericLiteral(a) == IsNumericLiteral(b)
    ensures LooksLikeString(known, a) ==> LooksLikeString(known, b)
  {
    if a.op.Neg? && |a.kids| == 1 {
      assert OnlyConcats(known, a.kids[0], b.kids[0]);
    }
  }

  lemma {:induction false} OnlyConcatsTrans(known: set<string>, a: Expr, b: Expr, c: Expr)
    requires OnlyConcats(known, a, b) && OnlyConcats(known, b, c)
    ensures OnlyConcats(known, a, c)
  {
    forall i | 0 <= i < |a.kids| ensures OnlyConcats(known, a.kids[i], c.kids[i]) {
      OnlyConcatsTrans(known, a.kids[i], b.kids[i], c.kids[i]);
    }
    if |a.kids| == 2 {
      OnlyConcatsHeads(known, a.kids[0], b.kids[0]);
      OnlyConcatsHeads(known, a.kids[1], b.kids[1]);
      OnlyConcatsHeads(known, b.kids[0], c.kids[0]);
      OnlyConcatsHeads(known, b.kids[1], c.kids[1]);
    }
    hide LooksLikeString, IsNumericLiteral;
  }

  lemma {:induction false} PassOnlyConcats(known: set<string>, e: Expr)
    ensures OnlyConcats(known, e, Pass(known, e))
  {
    forall i | 0 <= i < |e.kids|
      ensures OnlyConcats(known, e.kids[i], e.kids[i]) && OnlyConcats(known, e.kids[i], Pass(known, e.kids[i]))
    {
      OnlyConcatsRefl(known, e.kids[i]);
      PassOnlyConcats(known, e.kids[i]);
    }
    hide IsNumericLiteral;
  }

  /** Whatever the number of passes, all they do is turn `+` over strings, never over a numeric
      literal, into `||`. */
  lemma {:induction false} PassesOnlyConcats(known: set<string>, e: Expr, n: nat)
    ensures OnlyConcats(known, e, Passes(known, e, n))
    decreases n
  {
    if n == 0 {
      OnlyConcatsRefl(known, e);
    } else {
      PassOnlyConcats(known, e);
      PassesOnlyConcats(known, Pass(known, e), n - 1);
      OnlyConcatsTrans(known, e, Pass(known, e), Passes(known, e, n));
    }
    hide Pass, OnlyConcats;
  }

  /** Such a change keeps the operators without arguments in their order. */
  lemma {:induction false} OnlyConcatsLeaves(known: set<string>, a: Expr, b: Expr)
    requires OnlyConcats(known, a, b)
    ensures Leaves(a) == Leaves(b)
    decreases a, 1
  {
    OnlyConcatsLeavesAll(known, a.kids, b.kids);
    hide LooksLikeString;
  }

  lemma {:induction false} OnlyConcatsLeavesAll(known: set<string>, x: seq<Expr>, y: seq<Expr>)
    requires |x| == |y| && forall i :: 0 <= i < |x| ==> OnlyConcats(known, x[i], y[i])
    ensures LeavesAll(x) == LeavesAll(y)
    decreases x, 0
  {
    if x != [] {
      OnlyConcatsLeaves(known, x[0], y[0]);
      OnlyConcatsLeavesAll(known, x[1..], y[1..]);
    }
    hide OnlyConcats, Leaves;
  }

  lemma {:induction false} BottomUpNoneLeft(known: set<string>, e: Expr)
    ensures NoneLeft(known, BottomUp(known, e))
  {
    forall i | 0 <= i < |e.kids| ensures NoneLeft(known, BottomUp(known, e.kids[i])) {
      BottomUpNoneLeft(known, e.kids[i]);
    }
    assert !Converts(known, Node(DPipe, BottomUpAll(known, e.kids)));
  }

  lemma {:induction false} BottomUpOnlyConcats(known: set<string>, e: Expr)
    ensures OnlyConcats(known, e, BottomUp(known, e))
  {
    hide BottomUp, Nesting, Passes, OnlyConcats;
    PassesIff(known, e, Nesting(known, e));
    PassesOnlyConcats(known, e, Nesting(known, e));
  }

  /** The bottom-up tree is the one and only tree that converts nothing but string `+` nodes and
      leaves none of them: a description that mentions no traversal. */
  lemma {:induction false} BottomUpUnique(known: set<string>, e: Expr, r: Expr)
    ensures r == BottomUp(known, e) <==> OnlyConcats(known, e, r) && NoneLeft(known, r)
  {
    BottomUpNoneLeft(known, e);
    BottomUpOnlyConcats(known, e);
    if OnlyConcats(known, e, r) && NoneLeft(known, r) {
      BottomUpUniqueStep(known, e, r);
    }
    hide OnlyConcats, NoneLeft, BottomUp;
  }

  lemma {:induction false} BottomUpUniqueStep(known: set<string>, e: Expr, r: Expr)
    requires OnlyConcats(known, e, r) && NoneLeft(known, r)
    ensures r == BottomUp(known, e)
  {
    forall i | 0 <= i < |e.kids| ensures r.kids[i] == BottomUp(known, e.kids[i]) {
      BottomUpUniqueStep(known, e.kids[i], r.kids[i]);
    }
    assert r.kids == BottomUpAll(known, e.kids);
    if e.op.Add? && |e.kids| == 2 {
      HeadsKept(known, e.kids[0]);
      HeadsKept(known, e.kids[1]);
    }
    hide LooksLikeString, IsNumericLiteral;
  }

  /** The result is that tree, a fixpoint of the pass with its leaves in order, whenever concatenations
      are nested at most 64 deep; so for every expression with at most 64 additions. */
  lemma SixtyFourLevels(known: set<string>, e: Expr)
    requires Nesting(known, e) <= 64 || Adds(e) <= 64
    ensures var r := Passes(known, e, 64);
      OnlyConcats(known, e, r) && NoneLeft(known, r) && Pass(known, r) == r && Leaves(r) == Leaves(e)
  {
    hide BottomUp, Adds, Nesting, Passes, OnlyConcats, NoneLeft, Leaves, Pass;
    var r := Passes(known, e, 64);
    NestingAtMostAdds(known, e);
    PassesIff(known, e, 64);
    BottomUpUnique(known, e, r);
    OnlyConcatsLeaves(known, e, r);
    NoneLeftIsFixpoint(known, r);
  }

  lemma {:induction false} NoneLeftIsFixpoint(known: set<string>, e: Expr)
    ensures NoneLeft(known, e) <==> Pass(known, e) == e
  {
    forall i | 0 <= i < |e.kids| ensures NoneLeft(known, e.kids[i]) <==> Pass(known, e.kids[i]) == e.kids[i] {
      NoneLeftIsFixpoint(known, e.kids[i]);
    }
    if Pass(known, e) == e {
      assert forall i :: 0 <= i < |e.kids| ==> PassAll(known, e.kids)[i] == e.kids[i];
    }
    hide LooksLikeString, IsNumericLiteral;
  }

  // ----- the bound of 64 passes -----

  /** `'s' + c + c + ...` with `k` columns. */
  function Chain(k: nat): Expr {
    if k == 0 then Node(Literal(true, "s"), []) else Node(Add, [Chain(k - 1), Node(Column("c", true), [])])
  }

  lemma {:induction false} ChainNesting(known: set<string>, k: nat)
    ensures Nesting(known, Chain(k)) == k
    ensures LooksLikeString(known, BottomUp(known, Chain(k))) && !IsNumericLiteral(BottomUp(known, Chain(k)))
  {
    var e := Chain(k);
    if k > 0 {
      ChainNesting(known, k - 1);
      var c := e.kids[1];
      assert BottomUp(known, c) == c && Nesting(known, c) == 0;
      assert e.kids[1..] == [c] && [c][1..] == [];
      assert BottomUp(known, e).op == DPipe;
      assert NestingAll(known, [c]) == 0;
    }
  }

  /** A chain of `k` concatenations is fully converted exactly when `k <= 64`. */
  lemma SixtyFiveTooMany(known: set<string>, k: nat)
    ensures Passes(known, Chain(k), 64) == BottomUp(known, Chain(k)) <==> k <= 64
  {
    hide Passes, BottomUp, Nesting, Chain;
    ChainNesting(known, k);
    PassesIff(known, Chain(k), 64);
  }
}
