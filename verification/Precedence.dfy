/** `_emit_operand`, `_emit_unary`, `_emit_binary` and `_BIN_PRECEDENCE` of src/unique/core/converter/emit_expr.py:
    trees without parentheses printed for a target, and what the target reads the text as. */
module Precedence {
  import opened Basics

  datatype Relation = EQ | NEQ | LT | GT | LTE | GTE
  datatype Matcher = LIKE | ILIKE | IN | NOT_IN
  datatype Sameness = IS | NULLSAFE_EQ | NULLSAFE_NEQ

  datatype Op =
    | OR | AND
    | Relational(sign: Relation) | Matching(word: Matcher) | BETWEEN | Identity(test: Sameness)
    | BIT_OR | BIT_XOR | BIT_AND | Shift(toLeft: bool)
    | ADD | SUB | CONCAT
    | MUL | DIV | MOD

  predicate Compares(op: Op) {
    op.Relational? || op.Matching? || op.BETWEEN? || op.Identity?
  }

  predicate Bitwise(op: Op) {
    op.BIT_OR? || op.BIT_XOR? || op.BIT_AND? || op.Shift?
  }

  predicate Additive(op: Op) {
    op.ADD? || op.SUB?
  }

  predicate Multiplicative(op: Op) {
    op.MUL? || op.DIV? || op.MOD?
  }

  predicate Arithmetic(op: Op) {
    Additive(op) || Multiplicative(op)
  }

  /** `_BIN_PRECEDENCE`. */
  function Prec(op: Op): nat {
    if op.OR? then 1
    else if op.AND? then 2
    else if Compares(op) then 3
    else if Bitwise(op) then 4
    else if Additive(op) || op.CONCAT? then 5
    else 6
  }

  predicate NonAssociative(op: Op) {
    op.SUB? || op.DIV? || op.MOD? || op.Shift?
  }

  /** Bitwise against arithmetic: which of the two binds tighter depends on the engine. */
  predicate Crosses(a: Op, b: Op) {
    (Bitwise(a) && Arithmetic(b)) || (Arithmetic(a) && Bitwise(b))
  }

  /** The operators that bind looser than NOT. */
  predicate Loose(op: Op) {
    op.AND? || op.OR?
  }

  datatype Expr = Atom(id: nat) | Not(arg: Expr) | Bin(op: Op, left: Expr, right: Expr)

  predicate IsConcat(e: Expr) {
    e.Bin? && e.op.CONCAT?
  }

  /** The text of an expression, parentheses paired; each argument of a call is a token. */
  datatype Token =
    | Leaf(id: nat) | NotWord | Sign(op: Op) | Paren(inner: seq<Token>) | Call(op: Op, args: seq<Token>)

  // ----- printing -----

  /** Which operator nodes a target spells as a call: the others stand between their operands. */
  type Style = Expr -> bool

  /** `_emit_operand`: does the operand get parentheses? */
  predicate Wrapped(child: Expr, parent: Op, right: bool) {
    match child
    case Atom(_) => false
    case Not(_) => !Loose(parent)
    case Bin(op, _, _) =>
      || Crosses(parent, op)
      || Prec(op) < Prec(parent)
      || (right && Prec(op) == Prec(parent) && NonAssociative(parent))
  }

  function Operand(s: Style, child: Expr, parent: Op, right: bool): seq<Token>
    decreases child, 1
  {
    if Wrapped(child, parent, right) then [Paren(Emit(s, child))] else Emit(s, child)
  }

  /** The arguments of `CONCAT(...)`: a chain gives one flat call. */
  function Parts(s: Style, e: Expr): seq<Token>
    decreases e, 1
  {
    if IsConcat(e) then Parts(s, e.left) + Parts(s, e.right) else [Paren(Emit(s, e))]
  }

  function Emit(s: Style, e: Expr): seq<Token>
    decreases e, 0
  {
    match e
    case Atom(id) => [Leaf(id)]
    case Not(x) => [NotWord] + (if x.Bin? then [Paren(Emit(s, x))] else Emit(s, x))
    case Bin(op, l, r) =>
      if !s(e) then Operand(s, l, op, false) + [Sign(op)] + Operand(s, r, op, true)
      else if op.CONCAT? then [Call(op, Parts(s, l) + Parts(s, r))]
      else [Call(op, [Paren(Operand(s, l, op, false)), Paren(Operand(s, r, op, true))])]
  }

  // ----- reading -----

  /** How tight an engine's operators bind, and at which levels they may follow one another. */
  datatype Grammar = Grammar(level: Op -> nat, chains: nat -> bool)

  /** The last of the loosest operators that stand outside parentheses. */
  function Last(p: Grammar, ts: seq<Token>): (k: Option<nat>)
    ensures k.Some? ==> k.value < |ts| && ts[k.value].Sign?
  {
    if ts == [] then None
    else
      var n := |ts| - 1;
      var k := Last(p, ts[..n]);
      if ts[n].Sign? && (k.None? || p.level(ts[n].op) <= p.level(ts[k.value].op)) then Some(n) else k
  }

  function Join(op: Op, l: Option<Expr>, r: Option<Expr>): Option<Expr> {
    if l.Some? && r.Some? then Some(Bin(op, l.value, r.value)) else None
  }

  /** The operator at `k` follows no other of its level, unless these may be chained. */
  predicate Stands(p: Grammar, ts: seq<Token>, k: nat)
    requires k < |ts| && ts[k].Sign?
  {
    var level := p.level(ts[k].op);
    p.chains(level) || forall j :: 0 <= j < k && ts[j].Sign? ==> p.level(ts[j].op) != level
  }

  /** SQL splits at the loosest operator, the last one where several are equal; NOT takes all that
      binds tighter than AND. */
  function Read(p: Grammar, ts: seq<Token>): Option<Expr>
    decreases ts, 0
  {
    var k := Last(p, ts);
    if ts == [] then None
    else if k.Some? && (ts[0].NotWord? ==> Loose(ts[k.value].op)) then
      if Stands(p, ts, k.value)
      then Join(ts[k.value].op, Read(p, ts[..k.value]), Read(p, ts[k.value + 1..]))
      else None
    else if ts[0].NotWord? then
      var x := Read(p, ts[1..]);
      if x.Some? then Some(Not(x.value)) else None
    else if |ts| > 1 then None
    else match ts[0]
      case Leaf(id) => Some(Atom(id))
      case Paren(inner) => Read(p, inner)
      case Call(op, args) => if |args| < 2 then None else ReadArgs(p, op, args)
      case _ => None
  }

  /** A call with more than two arguments is the chain of its arguments, from the left. */
  function ReadArgs(p: Grammar, op: Op, args: seq<Token>): Option<Expr>
    decreases args, 1
  {
    if |args| < 2 then Read(p, args)
    else
      var n := |args| - 1;
      Join(op, ReadArgs(p, op, args[..n]), Read(p, args[n..]))
  }

  ghost predicate IsLast(p: Grammar, ts: seq<Token>, k: nat) {
    && k < |ts| && ts[k].Sign?
    && (forall j :: 0 <= j < k && ts[j].Sign? ==> p.level(ts[k].op) <= p.level(ts[j].op))
    && (forall j :: k < j < |ts| && ts[j].Sign? ==> p.level(ts[k].op) < p.level(ts[j].op))
  }

  lemma {:induction false} LastFacts(p: Grammar, ts: seq<Token>)
    ensures Last(p, ts).Some? ==> IsLast(p, ts, Last(p, ts).value)
    ensures Last(p, ts).None? <==> forall j :: 0 <= j < |ts| ==> !ts[j].Sign?
  {
    if ts != [] {
      LastFacts(p, ts[..|ts| - 1]);
    }
  }

  lemma LastIs(p: Grammar, ts: seq<Token>, k: nat)
    requires k < |ts|
    ensures Last(p, ts) == Some(k) <==> IsLast(p, ts, k)
  {
    hide Last;
    LastFacts(p, ts);
  }

  lemma ReadSplit(p: Grammar, ts: seq<Token>, k: nat)
    requires Last(p, ts) == Some(k) && (ts[0].NotWord? ==> Loose(ts[k].op))
    ensures Read(p, ts) == if Stands(p, ts, k) then Join(ts[k].op, Read(p, ts[..k]), Read(p, ts[k + 1..])) else None
  {
    hide Last, Loose, Stands;
  }

  lemma ReadParen(p: Grammar, ts: seq<Token>)
    ensures Read(p, [Paren(ts)]) == Read(p, ts)
  {
    assert Last(p, [Paren(ts)]) == None;
  }

  lemma ReadCall(p: Grammar, op: Op, args: seq<Token>)
    requires |args| >= 2
    ensures Read(p, [Call(op, args)]) == ReadArgs(p, op, args)
  {
    hide ReadArgs;
    assert Last(p, [Call(op, args)]) == None;
  }

  lemma ReadOneArg(p: Grammar, op: Op, ts: seq<Token>)
    ensures ReadArgs(p, op, [Paren(ts)]) == Read(p, ts)
  {
    hide Read;
    ReadParen(p, ts);
  }

  lemma ReadMoreArgs(p: Grammar, op: Op, args: seq<Token>, ts: seq<Token>)
    requires args != []
    ensures ReadArgs(p, op, args + [Paren(ts)]) == Join(op, ReadArgs(p, op, args), Read(p, ts))
  {
    hide Read;
    ReadParen(p, ts);
    var all := args + [Paren(ts)];
    assert all[..|all| - 1] == args && all[|all| - 1..] == [Paren(ts)];
  }

  lemma ReadNot(p: Grammar, ts: seq<Token>)
    requires forall j :: 0 <= j < |ts| ==> !ts[j].Sign?
    ensures Read(p, [NotWord] + ts) ==
      if Read(p, ts).Some? then Some(Not(Read(p, ts).value)) else None
  {
    hide Last;
    var w := [NotWord] + ts;
    assert w[1..] == ts;
    assert forall j :: 0 <= j < |w| ==> !w[j].Sign?;
    LastFacts(p, w);
  }

  lemma ReadLeaf(p: Grammar, id: nat)
    ensures Read(p, [Leaf(id)]) == Some(Atom(id))
  {
    assert Last(p, [Leaf(id)]) == None;
  }

  // ----- the shape of printed text -----

  /** The node is printed with its sign between the operands. */
  predicate Infix(s: Style, e: Expr) {
    e.Bin? && !s(e)
  }

  lemma EmitInfix(s: Style, e: Expr)
    requires Infix(s, e)
    ensures Emit(s, e) == Operand(s, e.left, e.op, false) + [Sign(e.op)] + Operand(s, e.right, e.op, true)
  {
  }

  lemma {:induction false} NoSigns(s: Style, e: Expr)
    requires !Infix(s, e)
    ensures forall j :: 0 <= j < |Emit(s, e)| ==> !Emit(s, e)[j].Sign?
  {
    if e.Not? && !e.arg.Bin? {
      NoSigns(s, e.arg);
    }
  }

  /** A NOT stands at the start of an operand of AND or OR only. */
  lemma {:induction false} NotFirst(s: Style, e: Expr)
    ensures Emit(s, e) != []
    ensures e.Atom? || (e.Bin? && !Loose(e.op)) ==> !Emit(s, e)[0].NotWord?
  {
    if Infix(s, e) {
      NotFirst(s, e.left);
      var l := Operand(s, e.left, e.op, false);
      assert Emit(s, e)[0] == l[0];
    }
  }

  /** The operands that are printed without parentheses bind as the tree says. */
  predicate KeptAt(p: Grammar, s: Style, op: Op, l: Expr, r: Expr) {
    && (Infix(s, l) && !Wrapped(l, op, false) ==> Under(p, op, l.op))
    && (Infix(s, r) && !Wrapped(r, op, true) ==> p.level(op) < p.level(r.op))
  }

  /** An operand with the second operator may stand before the first without parentheses. */
  predicate Under(p: Grammar, op: Op, child: Op) {
    p.level(op) < p.level(child) || (p.level(op) == p.level(child) && p.chains(p.level(op)))
  }

  predicate Kept(p: Grammar, s: Style, e: Expr)
    decreases e, 0
  {
    match e
    case Atom(_) => true
    case Not(x) => Kept(p, s, x)
    case Bin(op, l, r) =>
      if s(e) && op.CONCAT? then KeptPart(p, s, l) && KeptPart(p, s, r) && !IsConcat(r)
      else Kept(p, s, l) && Kept(p, s, r) && (!s(e) ==> KeptAt(p, s, op, l, r))
  }

  /** A chain inside `CONCAT(...)` is kept when it leans to the left. */
  predicate KeptPart(p: Grammar, s: Style, e: Expr)
    decreases e, 1
  {
    if IsConcat(e) then KeptPart(p, s, e.left) && KeptPart(p, s, e.right) && !IsConcat(e.right) else Kept(p, s, e)
  }

  /** No operand without parentheses binds looser than the operator it belongs to. */
  predicate Descends(p: Grammar, s: Style, e: Expr)
    decreases e, 0
  {
    match e
    case Atom(_) => true
    case Not(x) => Descends(p, s, x)
    case Bin(op, l, r) =>
      if s(e) && op.CONCAT? then DescendsPart(p, s, l) && DescendsPart(p, s, r)
      else
        && Descends(p, s, l) && Descends(p, s, r)
        && (!s(e) ==> DescendsTo(p, s, op, l, false) && DescendsTo(p, s, op, r, true))
  }

  predicate DescendsPart(p: Grammar, s: Style, e: Expr)
    decreases e, 1
  {
    if IsConcat(e) then DescendsPart(p, s, e.left) && DescendsPart(p, s, e.right) else Descends(p, s, e)
  }

  predicate DescendsTo(p: Grammar, s: Style, op: Op, c: Expr, right: bool) {
    Infix(s, c) && !Wrapped(c, op, right) ==> Under(p, op, c.op)
  }

  ghost predicate AtLeast(p: Grammar, ts: seq<Token>, level: nat) {
    forall j :: 0 <= j < |ts| && ts[j].Sign? ==> level <= p.level(ts[j].op)
  }

  lemma SignAtLeast(p: Grammar, ts: seq<Token>, level: nat, j: nat)
    requires AtLeast(p, ts, level) && j < |ts| && ts[j].Sign?
    ensures level <= p.level(ts[j].op)
  {
  }

  /** No operator in the text binds looser than the one at the root. */
  lemma {:induction false} RootIsLoosest(p: Grammar, s: Style, e: Expr)
    requires Descends(p, s, e) && Infix(s, e)
    ensures AtLeast(p, Emit(s, e), p.level(e.op))
    decreases e, 0
  {
    OperandAtLeast(p, s, e.left, e.op, false);
    OperandAtLeast(p, s, e.right, e.op, true);
  }

  lemma {:induction false} OperandAtLeast(p: Grammar, s: Style, c: Expr, parent: Op, right: bool)
    requires Descends(p, s, c)
    ensures Infix(s, c) && !Wrapped(c, parent, right) ==> AtLeast(p, Operand(s, c, parent, right), p.level(c.op))
    ensures !Infix(s, c) || Wrapped(c, parent, right) ==>
      forall j :: 0 <= j < |Operand(s, c, parent, right)| ==> !Operand(s, c, parent, right)[j].Sign?
    decreases c, 1
  {
    hide Wrapped;
    if Infix(s, c) {
      RootIsLoosest(p, s, c);
    } else {
      NoSigns(s, c);
    }
  }

  /** The operand under its operator. */
  lemma OperandUnder(p: Grammar, s: Style, c: Expr, parent: Op, right: bool)
    requires Descends(p, s, c) && DescendsTo(p, s, parent, c, right)
    ensures var ts := Operand(s, c, parent, right);
      && AtLeast(p, ts, p.level(parent))
      && (!p.chains(p.level(parent)) ==> AtLeast(p, ts, p.level(parent) + 1))
  {
    hide Wrapped, Emit, Operand;
    OperandAtLeast(p, s, c, parent, right);
  }

  lemma {:induction false} KeptDescends(p: Grammar, s: Style, e: Expr)
    requires Kept(p, s, e)
    ensures Descends(p, s, e)
    decreases e, 0
  {
    hide Wrapped;
    match e
    case Atom(_) =>
    case Not(x) => KeptDescends(p, s, x);
    case Bin(op, l, r) =>
      if s(e) && op.CONCAT? {
        PartDescends(p, s, l);
        PartDescends(p, s, r);
      } else {
        KeptDescends(p, s, l);
        KeptDescends(p, s, r);
      }
  }

  lemma {:induction false} PartDescends(p: Grammar, s: Style, e: Expr)
    requires KeptPart(p, s, e)
    ensures DescendsPart(p, s, e)
    decreases e, 1
  {
    if IsConcat(e) {
      PartDescends(p, s, e.left);
      PartDescends(p, s, e.right);
    } else {
      KeptDescends(p, s, e);
    }
  }

  // ----- what is printed is read as the same tree -----

  lemma TokenAt(a: seq<Token>, op: Op, b: seq<Token>, j: nat)
    requires j <= |a| + |b|
    ensures (a + [Sign(op)] + b)[j] == if j < |a| then a[j] else if j == |a| then Sign(op) else b[j - |a| - 1]
  {
  }

  lemma LastHere(p: Grammar, a: seq<Token>, op: Op, b: seq<Token>)
    requires AtLeast(p, a, p.level(op)) && AtLeast(p, b, p.level(op) + 1)
    ensures Last(p, a + [Sign(op)] + b) == Some(|a|)
  {
    hide Last, AtLeast;
    var ts := a + [Sign(op)] + b;
    TokenAt(a, op, b, |a|);
    forall j | 0 <= j < |a| && ts[j].Sign? ensures p.level(op) <= p.level(ts[j].op) {
      TokenAt(a, op, b, j);
      SignAtLeast(p, a, p.level(op), j);
    }
    forall j | |a| < j < |ts| && ts[j].Sign? ensures p.level(op) < p.level(ts[j].op) {
      TokenAt(a, op, b, j);
      SignAtLeast(p, b, p.level(op) + 1, j - |a| - 1);
    }
    LastIs(p, ts, |a|);
  }

  lemma StandsHere(p: Grammar, a: seq<Token>, op: Op, b: seq<Token>)
    requires p.chains(p.level(op)) || AtLeast(p, a, p.level(op) + 1)
    ensures (a + [Sign(op)] + b)[|a|] == Sign(op) && Stands(p, a + [Sign(op)] + b, |a|)
  {
    hide AtLeast;
    var ts := a + [Sign(op)] + b;
    TokenAt(a, op, b, |a|);
    if !p.chains(p.level(op)) {
      forall j | 0 <= j < |a| && ts[j].Sign? ensures p.level(ts[j].op) != p.level(op) {
        TokenAt(a, op, b, j);
        SignAtLeast(p, a, p.level(op) + 1, j);
      }
    }
  }

  lemma RootIsLast(p: Grammar, s: Style, e: Expr)
    requires Kept(p, s, e) && Infix(s, e)
    ensures var k := |Operand(s, e.left, e.op, false)|; Last(p, Emit(s, e)) == Some(k) && Stands(p, Emit(s, e), k)
  {
    hide Wrapped, Last, Stands, AtLeast, Operand, Emit;
    KeptDescends(p, s, e.left);
    KeptDescends(p, s, e.right);
    OperandUnder(p, s, e.left, e.op, false);
    RightAbove(p, s, e.right, e.op);
    EmitInfix(s, e);
    LastHere(p, Operand(s, e.left, e.op, false), e.op, Operand(s, e.right, e.op, true));
    StandsHere(p, Operand(s, e.left, e.op, false), e.op, Operand(s, e.right, e.op, true));
  }

  lemma RightAbove(p: Grammar, s: Style, c: Expr, parent: Op)
    requires Descends(p, s, c) && (Infix(s, c) && !Wrapped(c, parent, true) ==> p.level(parent) < p.level(c.op))
    ensures AtLeast(p, Operand(s, c, parent, true), p.level(parent) + 1)
  {
    hide Wrapped, Emit, Operand;
    OperandAtLeast(p, s, c, parent, true);
  }

  lemma ReadOperand(p: Grammar, s: Style, c: Expr, parent: Op, right: bool)
    ensures Read(p, Operand(s, c, parent, right)) == Read(p, Emit(s, c))
  {
    hide Emit, Read, Wrapped;
    ReadParen(p, Emit(s, c));
  }

  lemma ReadNegation(p: Grammar, s: Style, x: Expr)
    ensures Read(p, Emit(s, Not(x))) ==
      if Read(p, Emit(s, x)).Some? then Some(Not(Read(p, Emit(s, x)).value)) else None
  {
    hide Read;
    if x.Bin? {
      ReadParen(p, Emit(s, x));
      ReadNot(p, [Paren(Emit(s, x))]);
    } else {
      NoSigns(s, x);
      ReadNot(p, Emit(s, x));
    }
  }

  lemma ReadAtRoot(p: Grammar, s: Style, e: Expr, k: nat)
    requires Infix(s, e) && Last(p, Emit(s, e)) == Some(k) && k == |Operand(s, e.left, e.op, false)|
    ensures Read(p, Emit(s, e)) ==
      if Stands(p, Emit(s, e), k) then Join(e.op, Read(p, Emit(s, e.left)), Read(p, Emit(s, e.right))) else None
  {
    hide Read, Wrapped, Last, Operand, Join, Stands, Emit;
    EmitInfix(s, e);
    var l, r := Operand(s, e.left, e.op, false), Operand(s, e.right, e.op, true);
    var ts := Emit(s, e);
    assert ts[..k] == l && ts[k] == Sign(e.op) && ts[k + 1..] == r;
    NotFirst(s, e);
    ReadSplit(p, ts, k);
    ReadOperand(p, s, e.left, e.op, false);
    ReadOperand(p, s, e.right, e.op, true);
  }

  /** A call that is no `CONCAT`. */
  lemma ReadPlainCall(p: Grammar, s: Style, e: Expr)
    requires e.Bin? && s(e) && !e.op.CONCAT?
    ensures Read(p, Emit(s, e)) == Join(e.op, Read(p, Emit(s, e.left)), Read(p, Emit(s, e.right)))
  {
    hide Read, Operand, ReadArgs, Join;
    var l, r := Operand(s, e.left, e.op, false), Operand(s, e.right, e.op, true);
    assert [Paren(l), Paren(r)] == [Paren(l)] + [Paren(r)];
    ReadCall(p, e.op, [Paren(l), Paren(r)]);
    ReadMoreArgs(p, e.op, [Paren(l)], r);
    ReadOneArg(p, e.op, l);
    ReadOperand(p, s, e.left, e.op, false);
    ReadOperand(p, s, e.right, e.op, true);
  }

  lemma {:induction false} SomeParts(s: Style, e: Expr)
    ensures |Parts(s, e)| >= (if IsConcat(e) then 2 else 1)
    ensures forall i :: 0 <= i < |Parts(s, e)| ==> Parts(s, e)[i].Paren?
  {
    hide Emit;
    if IsConcat(e) {
      SomeParts(s, e.left);
      SomeParts(s, e.right);
    }
  }

  lemma ReadConcat(p: Grammar, s: Style, e: Expr)
    requires IsConcat(e) && s(e)
    ensures Read(p, Emit(s, e)) == ReadArgs(p, CONCAT, Parts(s, e))
  {
    hide Read, Parts, ReadArgs;
    EmitConcat(s, e);
    SomeParts(s, e);
    ReadCall(p, CONCAT, Parts(s, e));
  }

  lemma EmitConcat(s: Style, e: Expr)
    requires IsConcat(e) && s(e)
    ensures Emit(s, e) == [Call(CONCAT, Parts(s, e))]
  {
  }

  lemma ReadLastPart(p: Grammar, s: Style, l: Expr, r: Expr)
    requires !IsConcat(r)
    ensures ReadArgs(p, CONCAT, Parts(s, l) + Parts(s, r))
         == Join(CONCAT, ReadArgs(p, CONCAT, Parts(s, l)), Read(p, Emit(s, r)))
  {
    hide Read, Emit, ReadArgs, Join;
    SomeParts(s, l);
    ReadMoreArgs(p, CONCAT, Parts(s, l), Emit(s, r));
  }

  lemma {:induction false} KeptIsRead(p: Grammar, s: Style, e: Expr)
    requires Kept(p, s, e)
    ensures Read(p, Emit(s, e)) == Some(e)
    decreases e, 0
  {
    hide Read, Emit, Operand, Last, KeptAt, Parts, ReadArgs, Stands;
    match e
    case Atom(id) => ReadAtom(p, s, id);
    case Not(x) =>
      KeptIsRead(p, s, x);
      ReadNegation(p, s, x);
    case Bin(op, l, r) =>
      if s(e) && op.CONCAT? {
        ReadConcat(p, s, e);
        assert KeptPart(p, s, r) && Kept(p, s, r);
        KeptIsRead(p, s, r);
        PartIsRead(p, s, l);
        ReadLastPart(p, s, l, r);
        PartsStep(s, e);
      } else {
        KeptIsRead(p, s, l);
        KeptIsRead(p, s, r);
        if s(e) {
          ReadPlainCall(p, s, e);
        } else {
          RootIsLast(p, s, e);
          ReadAtRoot(p, s, e, |Operand(s, l, op, false)|);
        }
      }
  }

  lemma PartsStep(s: Style, e: Expr)
    requires IsConcat(e)
    ensures Parts(s, e) == Parts(s, e.left) + Parts(s, e.right)
  {
  }

  lemma {:induction false} PartIsRead(p: Grammar, s: Style, e: Expr)
    requires KeptPart(p, s, e)
    ensures ReadArgs(p, CONCAT, Parts(s, e)) == Some(e)
    decreases e, 1
  {
    hide Read, Emit, ReadArgs, Kept;
    if IsConcat(e) {
      PartIsRead(p, s, e.left);
      KeptIsRead(p, s, e.right);
      ReadLastPart(p, s, e.left, e.right);
    } else {
      KeptIsRead(p, s, e);
      ReadOneArg(p, CONCAT, Emit(s, e));
    }
  }

  lemma ReadAtom(p: Grammar, s: Style, id: nat)
    ensures Read(p, Emit(s, Atom(id))) == Some(Atom(id))
  {
    hide Read;
    ReadLeaf(p, id);
  }

  // ----- and only then -----

  function Atoms(e: Expr): nat {
    match e
    case Atom(_) => 1
    case Not(x) => Atoms(x)
    case Bin(_, l, r) => Atoms(l) + Atoms(r)
  }

  function Leaves(ts: seq<Token>): nat {
    if ts == [] then 0
    else
      Leaves(ts[..|ts| - 1]) +
      match ts[|ts| - 1]
      case Leaf(_) => 1
      case Paren(inner) => Leaves(inner)
      case Call(_, args) => Leaves(args)
      case _ => 0
  }

  lemma {:induction false} LeavesConcat(a: seq<Token>, b: seq<Token>)
    ensures Leaves(a + b) == Leaves(a) + Leaves(b)
  {
    if b == [] {
      assert a + b == a;
    } else {
      assert (a + b)[..|a + b| - 1] == a + b[..|b| - 1];
      LeavesConcat(a, b[..|b| - 1]);
    }
  }

  lemma LeavesOne(t: Token)
    ensures Leaves([t]) ==
      match t case Leaf(_) => 1 case Paren(inner) => Leaves(inner) case Call(_, args) => Leaves(args) case _ => 0
  {
    assert [t][..0] == [];
  }

  lemma NoLeaves()
    ensures Leaves([]) == 0
  {
  }

  lemma LeavesSplit(ts: seq<Token>, k: nat)
    requires k < |ts| && (ts[k].Sign? || ts[k].NotWord?)
    ensures Leaves(ts) == Leaves(ts[..k]) + Leaves(ts[k + 1..]) && Leaves(ts[..0]) == 0
  {
    hide Leaves;
    assert ts == ts[..k] + ([ts[k]] + ts[k + 1..]);
    LeavesConcat(ts[..k], [ts[k]] + ts[k + 1..]);
    LeavesConcat([ts[k]], ts[k + 1..]);
    LeavesOne(ts[k]);
    NoLeaves();
  }

  /** Reading loses no leaf and makes up none. */
  lemma {:induction false} ReadLeaves(p: Grammar, ts: seq<Token>)
    requires Read(p, ts).Some?
    ensures Atoms(Read(p, ts).value) == Leaves(ts)
    decreases ts, 0
  {
    hide Last, Leaves, ReadArgs, Stands;
    var k := Last(p, ts);
    if k.Some? && (ts[0].NotWord? ==> Loose(ts[k.value].op)) {
      ReadLeaves(p, ts[..k.value]);
      ReadLeaves(p, ts[k.value + 1..]);
      LeavesSplit(ts, k.value);
    } else if ts[0].NotWord? {
      ReadLeaves(p, ts[1..]);
      LeavesSplit(ts, 0);
    } else {
      assert ts == [ts[0]];
      LeavesOne(ts[0]);
      if ts[0].Paren? {
        ReadLeaves(p, ts[0].inner);
      } else if ts[0].Call? {
        ArgLeaves(p, ts[0].op, ts[0].args);
      }
    }
  }

  lemma {:induction false} ArgLeaves(p: Grammar, op: Op, args: seq<Token>)
    requires ReadArgs(p, op, args).Some?
    ensures Atoms(ReadArgs(p, op, args).value) == Leaves(args)
    decreases args, 1
  {
    hide Leaves, Read;
    if |args| < 2 {
      ReadLeaves(p, args);
    } else {
      var n := |args| - 1;
      ArgLeaves(p, op, args[..n]);
      ReadLeaves(p, args[n..]);
      assert args == args[..n] + args[n..];
      LeavesConcat(args[..n], args[n..]);
    }
  }

  predicate Unit(t: Token) {
    t.Leaf? || (t.Paren? && Leaves(t.inner) > 0) || (t.Call? && Leaves(t.args) > 0)
  }

  /** The text ends with an operand, and so does what stands before each operator. */
  predicate Spaced(ts: seq<Token>) {
    && ts != [] && Unit(ts[|ts| - 1])
    && forall i :: 0 <= i < |ts| && ts[i].Sign? ==> i > 0 && Unit(ts[i - 1])
  }

  lemma {:induction false} UnitCounts(ts: seq<Token>, i: nat)
    requires i < |ts| && Unit(ts[i])
    ensures Leaves(ts) > 0
  {
    var n := |ts| - 1;
    if i < n {
      UnitCounts(ts[..n], i);
    }
  }

  lemma SpacedConcat(a: seq<Token>, op: Op, b: seq<Token>)
    requires Spaced(a) && Spaced(b)
    ensures Spaced(a + [Sign(op)] + b)
  {
    hide Unit;
    var ts := a + [Sign(op)] + b;
    forall i | 0 <= i < |ts| && ts[i].Sign? ensures i > 0 && Unit(ts[i - 1]) {
      if i < |a| {
        assert ts[i] == a[i] && ts[i - 1] == a[i - 1];
      } else if i > |a| {
        var j := i - |a| - 1;
        assert ts[i] == b[j] && ts[i - 1] == b[j - 1];
      }
    }
  }

  lemma {:induction false} EmitLeaves(s: Style, e: Expr)
    ensures Leaves(Emit(s, e)) == Atoms(e)
    decreases e, 0
  {
    hide Leaves;
    match e
    case Atom(id) => LeavesOne(Leaf(id));
    case Not(x) =>
      EmitLeaves(s, x);
      LeavesOne(Paren(Emit(s, x)));
      LeavesOne(NotWord);
      LeavesConcat([NotWord], if x.Bin? then [Paren(Emit(s, x))] else Emit(s, x));
    case Bin(op, l, r) =>
      if !s(e) {
        InfixLeaves(s, e);
      } else if op.CONCAT? {
        PartLeaves(s, l);
        PartLeaves(s, r);
        LeavesOne(Call(op, Parts(s, l) + Parts(s, r)));
        LeavesConcat(Parts(s, l), Parts(s, r));
      } else {
        CallLeaves(s, e);
      }
  }

  lemma {:induction false} InfixLeaves(s: Style, e: Expr)
    requires Infix(s, e)
    ensures Leaves(Emit(s, e)) == Atoms(e.left) + Atoms(e.right)
    decreases e, 0, 0
  {
    hide Leaves;
    var a, b := Operand(s, e.left, e.op, false), Operand(s, e.right, e.op, true);
    OperandLeaves(s, e.left, e.op, false);
    OperandLeaves(s, e.right, e.op, true);
    EmitInfix(s, e);
    LeavesOne(Sign(e.op));
    LeavesConcat(a, [Sign(e.op)]);
    LeavesConcat(a + [Sign(e.op)], b);
  }

  lemma {:induction false} CallLeaves(s: Style, e: Expr)
    requires e.Bin? && s(e) && !e.op.CONCAT?
    ensures Leaves(Emit(s, e)) == Atoms(e.left) + Atoms(e.right)
    decreases e, 0, 0
  {
    hide Leaves, Operand;
    var a, b := Paren(Operand(s, e.left, e.op, false)), Paren(Operand(s, e.right, e.op, true));
    OperandLeaves(s, e.left, e.op, false);
    OperandLeaves(s, e.right, e.op, true);
    assert Emit(s, e) == [Call(e.op, [a, b])] && [a, b] == [a] + [b];
    LeavesOne(Call(e.op, [a, b]));
    LeavesOne(a);
    LeavesOne(b);
    LeavesConcat([a], [b]);
  }

  lemma {:induction false} OperandLeaves(s: Style, c: Expr, parent: Op, right: bool)
    ensures Leaves(Operand(s, c, parent, right)) == Atoms(c)
    decreases c, 1
  {
    hide Leaves;
    EmitLeaves(s, c);
    LeavesOne(Paren(Emit(s, c)));
  }

  lemma {:induction false} PartLeaves(s: Style, e: Expr)
    ensures Leaves(Parts(s, e)) == Atoms(e)
    decreases e, 1
  {
    hide Leaves, Emit;
    if IsConcat(e) {
      PartLeaves(s, e.left);
      PartLeaves(s, e.right);
      LeavesConcat(Parts(s, e.left), Parts(s, e.right));
    } else {
      EmitLeaves(s, e);
      LeavesOne(Paren(Emit(s, e)));
    }
  }

  lemma {:induction false} SomeAtoms(e: Expr)
    ensures Atoms(e) > 0
  {
    match e
    case Atom(_) =>
    case Not(x) => SomeAtoms(x);
    case Bin(_, l, _) => SomeAtoms(l);
  }

  lemma SingleUnit(s: Style, e: Expr, t: Token)
    requires Emit(s, e) == [t] && (t.Call? || t.Leaf?)
    ensures Spaced(Emit(s, e))
  {
    EmitLeaves(s, e);
    LeavesOne(t);
    SomeAtoms(e);
  }

  lemma {:induction false} EmitSpaced(s: Style, e: Expr)
    ensures Spaced(Emit(s, e))
    decreases e, 0
  {
    hide Leaves, Unit;
    match e
    case Atom(id) => SingleUnit(s, e, Leaf(id));
    case Not(x) =>
      EmitSpaced(s, x);
      EmitLeaves(s, x);
      SomeAtoms(x);
      var ts := if x.Bin? then [Paren(Emit(s, x))] else Emit(s, x);
      assert Unit(Paren(Emit(s, x))) by { ParenUnit(Emit(s, x)); }
      if !x.Bin? {
        NoSigns(s, x);
      }
      assert Emit(s, e) == [NotWord] + ts && Unit(ts[|ts| - 1]);
    case Bin(op, l, r) =>
      if s(e) {
        SingleUnit(s, e, Emit(s, e)[0]);
      } else {
        OperandSpaced(s, l, op, false);
        OperandSpaced(s, r, op, true);
        SpacedConcat(Operand(s, l, op, false), op, Operand(s, r, op, true));
      }
  }

  lemma ParenUnit(ts: seq<Token>)
    requires Leaves(ts) > 0
    ensures Unit(Paren(ts))
  {
  }

  lemma {:induction false} OperandSpaced(s: Style, c: Expr, parent: Op, right: bool)
    ensures Spaced(Operand(s, c, parent, right))
    decreases c, 1
  {
    hide Leaves, Wrapped;
    EmitSpaced(s, c);
    EmitLeaves(s, c);
    SomeAtoms(c);
  }

  /** A split of `a op b` into parts with the leaves of `a` and of `b` is at `op`. */
  lemma SplitThere(a: seq<Token>, op: Op, b: seq<Token>, k: nat)
    requires Spaced(a) && Spaced(b)
    requires var ts := a + [Sign(op)] + b; k < |ts| && ts[k].Sign? && Leaves(ts[..k]) == Leaves(a)
    ensures k == |a|
  {
    hide Unit, Leaves;
    var ts := a + [Sign(op)] + b;
    if k < |a| {
      assert ts[..k] == a[..k] && ts[k] == a[k];
      assert a == a[..k] + a[k..];
      LeavesConcat(a[..k], a[k..]);
      UnitCounts(a[k..], |a| - k - 1);
    } else if k > |a| {
      var j := k - |a| - 1;
      assert ts[..k] == a + ([Sign(op)] + b[..j]) && ts[k] == b[j];
      assert Unit(b[j - 1]);
      LeavesConcat(a, [Sign(op)] + b[..j]);
      UnitCounts([Sign(op)] + b[..j], j);
    }
  }

  lemma OwnSign(s: Style, e: Expr)
    requires Infix(s, e)
    ensures exists j :: 0 <= j < |Emit(s, e)| && Emit(s, e)[j] == Sign(e.op)
  {
    assert Emit(s, e)[|Operand(s, e.left, e.op, false)|] == Sign(e.op);
  }

  /** Read as the tree it is, the text is split at the root. */
  lemma SplitAtRoot(p: Grammar, s: Style, e: Expr)
    requires Infix(s, e) && Read(p, Emit(s, e)) == Some(e)
    ensures var k := |Operand(s, e.left, e.op, false)|; Last(p, Emit(s, e)) == Some(k) && Stands(p, Emit(s, e), k)
  {
    hide Last, Emit, Leaves, Wrapped, Stands, ReadArgs, Operand;
    var ts := Emit(s, e);
    var k := Last(p, ts);
    NotFirst(s, e);
    OwnSign(s, e);
    LastFacts(p, ts);
    assert k.Some? && (ts[0].NotWord? ==> Loose(ts[k.value].op));
    assert Read(p, ts[..k.value]) == Some(e.left);
    ReadLeaves(p, ts[..k.value]);
    OperandLeaves(s, e.left, e.op, false);
    OperandSpaced(s, e.left, e.op, false);
    OperandSpaced(s, e.right, e.op, true);
    EmitInfix(s, e);
    SplitThere(Operand(s, e.left, e.op, false), e.op, Operand(s, e.right, e.op, true), k.value);
  }

  lemma SplitIsKept(p: Grammar, s: Style, e: Expr)
    requires Infix(s, e)
    requires var k := |Operand(s, e.left, e.op, false)|; Last(p, Emit(s, e)) == Some(k) && Stands(p, Emit(s, e), k)
    ensures KeptAt(p, s, e.op, e.left, e.right)
  {
    hide Last, Wrapped, Emit;
    EmitInfix(s, e);
    LastIs(p, Emit(s, e), |Operand(s, e.left, e.op, false)|);
    var ts, l, r := Emit(s, e), Operand(s, e.left, e.op, false), Operand(s, e.right, e.op, true);
    TokenAt(l, e.op, r, |l|);
    if Infix(s, e.left) && !Wrapped(e.left, e.op, false) {
      OwnSign(s, e.left);
      var j :| 0 <= j < |l| && l[j] == Sign(e.left.op);
      TokenAt(l, e.op, r, j);
      assert ts[j] == Sign(e.left.op);
    }
    if Infix(s, e.right) && !Wrapped(e.right, e.op, true) {
      OwnSign(s, e.right);
      var j :| 0 <= j < |r| && r[j] == Sign(e.right.op);
      TokenAt(l, e.op, r, |l| + 1 + j);
      assert ts[|l| + 1 + j] == Sign(e.right.op);
    }
  }

  /** Read as the chain it is, a call has one argument for the right operand. */
  lemma LastPartIsRight(p: Grammar, s: Style, l: Expr, r: Expr)
    requires ReadArgs(p, CONCAT, Parts(s, l) + Parts(s, r)) == Some(Bin(CONCAT, l, r))
    ensures !IsConcat(r)
  {
    hide Read, Leaves, ReadArgs, Emit;
    if IsConcat(r) {
      PartLeaves(s, r);
      SomeParts(s, l);
      PartsStep(s, r);
      SomeParts(s, r.left);
      SomeParts(s, r.right);
      var args := Parts(s, l) + Parts(s, r);
      var n := |args| - 1;
      ReadArgsStep(p, CONCAT, args);
      ReadLeaves(p, args[n..]);
      var m := |Parts(s, r)| - 1;
      assert args[n..] == Parts(s, r)[m..];
      LeavesConcat(Parts(s, r)[..m], Parts(s, r)[m..]);
      assert Parts(s, r) == Parts(s, r)[..m] + Parts(s, r)[m..];
      FirstPart(s, r);
      assert Parts(s, r)[..m][0] == Parts(s, r)[0];
      UnitCounts(Parts(s, r)[..m], 0);
    }
  }

  lemma ReadArgsStep(p: Grammar, op: Op, args: seq<Token>)
    requires |args| >= 2
    ensures var n := |args| - 1; ReadArgs(p, op, args) == Join(op, ReadArgs(p, op, args[..n]), Read(p, args[n..]))
  {
    hide Read;
  }

  lemma {:induction false} FirstPart(s: Style, e: Expr)
    ensures Parts(s, e) != [] && Unit(Parts(s, e)[0])
  {
    hide Emit, Leaves, Unit;
    if IsConcat(e) {
      FirstPart(s, e.left);
    } else {
      EmitLeaves(s, e);
      SomeAtoms(e);
      ParenUnit(Emit(s, e));
    }
  }

  lemma {:induction false} ReadIsKept(p: Grammar, s: Style, e: Expr)
    requires Read(p, Emit(s, e)) == Some(e)
    ensures Kept(p, s, e)
    decreases e, 0
  {
    hide Read, Emit, Operand, Last, KeptAt, Parts, ReadArgs, Stands, KeptPart;
    match e
    case Atom(_) =>
    case Not(x) =>
      ReadNegation(p, s, x);
      ReadIsKept(p, s, x);
    case Bin(op, l, r) =>
      if s(e) && op.CONCAT? {
        ReadConcat(p, s, e);
        PartsStep(s, e);
        LastPartIsRight(p, s, l, r);
        ReadLastPart(p, s, l, r);
        PartIsKept(p, s, l);
        ReadIsKept(p, s, r);
        KeptAlone(p, s, r);
      } else if s(e) {
        ReadPlainCall(p, s, e);
        ReadIsKept(p, s, l);
        ReadIsKept(p, s, r);
      } else {
        SplitAtRoot(p, s, e);
        SplitIsKept(p, s, e);
        ReadAtRoot(p, s, e, |Operand(s, l, op, false)|);
        ReadIsKept(p, s, l);
        ReadIsKept(p, s, r);
      }
  }

  lemma KeptAlone(p: Grammar, s: Style, e: Expr)
    requires !IsConcat(e)
    ensures KeptPart(p, s, e) == Kept(p, s, e)
  {
    hide Kept;
  }

  lemma {:induction false} PartIsKept(p: Grammar, s: Style, e: Expr)
    requires ReadArgs(p, CONCAT, Parts(s, e)) == Some(e)
    ensures KeptPart(p, s, e)
    decreases e, 1
  {
    hide Read, Emit, ReadArgs, Kept;
    if IsConcat(e) {
      var l, r := e.left, e.right;
      LastPartIsRight(p, s, l, r);
      ReadLastPart(p, s, l, r);
      PartIsKept(p, s, l);
      ReadIsKept(p, s, r);
    } else {
      ReadOneArg(p, CONCAT, Emit(s, e));
      ReadIsKept(p, s, e);
    }
  }

  /** Whatever the grammar of an engine and the calls of a target are: the text is read as the tree it was
      printed from if and only if no operand without parentheses binds looser than its place asks, and
      chains in calls lean to the left. */
  lemma ReadBackIff(p: Grammar, s: Style, e: Expr)
    ensures Read(p, Emit(s, e)) == Some(e) <==> Kept(p, s, e)
  {
    hide Read, Emit, Kept;
    if Kept(p, s, e) {
      KeptIsRead(p, s, e);
    }
    if Read(p, Emit(s, e)) == Some(e) {
      ReadIsKept(p, s, e);
    }
  }

  // ----- the table's own grammar -----

  /** The levels of `_BIN_PRECEDENCE`, every operator between its operands. */
  function Table(): Grammar {
    Grammar(Prec, level => true)
  }

  function AllInfix(): Style {
    e => false
  }

  /** No right operand of the same level is printed without parentheses. */
  predicate Straight(e: Expr) {
    match e
    case Atom(_) => true
    case Not(x) => Straight(x)
    case Bin(op, l, r) => Straight(l) && Straight(r) && !(r.Bin? && Prec(r.op) == Prec(op) && !NonAssociative(op))
  }

  lemma SameLevel(a: Op, b: Op)
    requires Prec(a) == Prec(b)
    ensures !Crosses(a, b)
  {
  }

  lemma {:induction false} StraightIsKept(e: Expr)
    ensures Kept(Table(), AllInfix(), e) <==> Straight(e)
  {
    hide Prec, NonAssociative, Crosses;
    match e
    case Atom(_) =>
    case Not(x) => StraightIsKept(x);
    case Bin(op, l, r) =>
      StraightIsKept(l);
      StraightIsKept(r);
      if r.Bin? && Prec(r.op) == Prec(op) {
        SameLevel(op, r.op);
      }
  }

  /** Read with the levels of the table itself. */
  lemma TableReadBackIff(e: Expr)
    ensures Read(Table(), Emit(AllInfix(), e)) == Some(e) <==> Straight(e)
  {
    hide Read, Emit, Kept, Straight, Table, AllInfix;
    ReadBackIff(Table(), AllInfix(), e);
    StraightIsKept(e);
  }

  // ----- why bitwise against arithmetic is always put in parentheses -----

  /** Text against bits: the table has no rule for them, and engines differ. */
  predicate TextBits(a: Op, b: Op) {
    (Bitwise(a) && b.CONCAT?) || (a.CONCAT? && Bitwise(b))
  }

  predicate Unmixed(e: Expr) {
    match e
    case Atom(_) => true
    case Not(x) => Unmixed(x)
    case Bin(op, l, r) =>
      Unmixed(l) && Unmixed(r) && !(l.Bin? && TextBits(op, l.op)) && !(r.Bin? && TextBits(op, r.op))
  }

  ghost predicate AlikeOn(p: Grammar, q: Grammar, a: Op, b: Op) {
    && (p.level(a) < p.level(b) <==> q.level(a) < q.level(b))
    && (p.level(b) < p.level(a) <==> q.level(b) < q.level(a))
    && p.chains(p.level(a)) == q.chains(q.level(a))
  }

  /** The grammars differ in nothing but how bitwise operators bind against arithmetic and text. */
  ghost predicate Alike(p: Grammar, q: Grammar) {
    forall a, b :: !Crosses(a, b) && !TextBits(a, b) ==> AlikeOn(p, q, a, b)
  }

  lemma {:induction false} KeptAlike(p: Grammar, q: Grammar, s: Style, e: Expr)
    requires Alike(p, q) && Unmixed(e)
    ensures Kept(p, s, e) <==> Kept(q, s, e)
    decreases e, 0
  {
    hide Alike, KeptAt, TextBits;
    match e
    case Atom(_) =>
    case Not(x) => KeptAlike(p, q, s, x);
    case Bin(op, l, r) =>
      KeptAlike(p, q, s, l);
      KeptAlike(p, q, s, r);
      PartAlike(p, q, s, l);
      PartAlike(p, q, s, r);
      KeptAtAlike(p, q, s, op, l, r);
  }

  lemma {:induction false} PartAlike(p: Grammar, q: Grammar, s: Style, e: Expr)
    requires Alike(p, q) && Unmixed(e)
    ensures KeptPart(p, s, e) <==> KeptPart(q, s, e)
    decreases e, 1
  {
    hide Alike, Kept, TextBits;
    if IsConcat(e) {
      PartAlike(p, q, s, e.left);
      PartAlike(p, q, s, e.right);
    } else {
      KeptAlike(p, q, s, e);
    }
  }

  lemma KeptAtAlike(p: Grammar, q: Grammar, s: Style, op: Op, l: Expr, r: Expr)
    requires Alike(p, q) && !(l.Bin? && TextBits(op, l.op)) && !(r.Bin? && TextBits(op, r.op))
    ensures KeptAt(p, s, op, l, r) <==> KeptAt(q, s, op, l, r)
  {
    hide Crosses, TextBits, Prec, NonAssociative;
    if l.Bin? && !Crosses(op, l.op) {
      assert AlikeOn(p, q, op, l.op);
    }
    if r.Bin? && !Crosses(op, r.op) {
      assert AlikeOn(p, q, op, r.op);
    }
  }

  /** Whichever of bitwise and arithmetic operators an engine takes first, it reads the text alike. */
  lemma CrossingIsSafe(p: Grammar, q: Grammar, s: Style, e: Expr)
    requires Alike(p, q) && Unmixed(e)
    ensures Read(p, Emit(s, e)) == Some(e) <==> Read(q, Emit(s, e)) == Some(e)
  {
    hide Read, Emit, Kept, Unmixed, Alike;
    ReadBackIff(p, s, e);
    ReadBackIff(q, s, e);
    KeptAlike(p, q, s, e);
  }

  /** The table with bitwise operators above all others. */
  function BitsTight(): Grammar {
    Grammar(op => if Bitwise(op) then 7 else Prec(op), level => true)
  }

  /** One engine of each family. */
  lemma BothFamilies()
    ensures Alike(Table(), BitsTight())
    ensures Table().level(BIT_AND) < Table().level(ADD) && BitsTight().level(MUL) < BitsTight().level(BIT_AND)
  {
    forall a, b | !Crosses(a, b) && !TextBits(a, b) ensures AlikeOn(Table(), BitsTight(), a, b) {
    }
  }

  // ----- the targets -----

  /** The four targets; `numeric` are the atoms known to be numbers. */
  datatype Target = MySql | TSql(numeric: nat -> bool) | PostgreSql | Oracle

  /** An operand of the chain is arithmetic or known to be a number. */
  predicate AnyNumeric(numeric: nat -> bool, e: Expr) {
    if IsConcat(e) then AnyNumeric(numeric, e.left) || AnyNumeric(numeric, e.right)
    else match e
      case Atom(id) => numeric(id)
      case Not(_) => false
      case Bin(op, _, _) => Arithmetic(op)
  }

  /** `_emit_binary`: what is spelled `CONCAT(...)`, `MOD(...)` or `BITAND(...)`. */
  predicate Called(t: Target, e: Expr) {
    e.Bin? &&
    match t
    case MySql => e.op.CONCAT?
    case TSql(numeric) => e.op.CONCAT? && AnyNumeric(numeric, e)
    case PostgreSql => false
    case Oracle => Bitwise(e.op) || e.op.MOD?
  }

  function StyleOf(t: Target): Style {
    e => Called(t, e)
  }

  /** The levels the engines' manuals list. */
  function Level(t: Target, op: Op): nat {
    if op.OR? then 1
    else if op.AND? then 2
    else match t
      case MySql =>
        if op.BETWEEN? then 3 else if Compares(op) then 4
        else if op.BIT_OR? then 5 else if op.BIT_AND? then 6 else if op.Shift? then 7
        else if op.BIT_XOR? then 10 else if Multiplicative(op) then 9 else 8
      case TSql(_) =>
        if Compares(op) then 3 else if Multiplicative(op) then 5 else 4
      case PostgreSql =>
        if op.Identity? then 3 else if op.Relational? then 4 else if Compares(op) then 5
        else if Multiplicative(op) then 8 else if Additive(op) then 7 else 6
      case Oracle =>
        if op.Relational? then 4 else if Compares(op) then 3
        else if Additive(op) || op.CONCAT? then 5 else 6
  }

  /** MySQL takes a comparison for a value, to be compared again; the others do not. */
  predicate Chained(t: Target, level: nat) {
    match t
    case MySql => true
    case TSql(_) => level != 3
    case PostgreSql => level < 3 || 5 < level
    case Oracle => level < 3 || 4 < level
  }

  function GrammarOf(t: Target): Grammar {
    Grammar(op => Level(t, op), (level: nat) => Chained(t, level))
  }

  /** The bare left operands that a target takes for something else. */
  predicate WrongLeft(t: Target, op: Op, child: Op) {
    match t
    case MySql =>
      || (Compares(op) && !op.BETWEEN? && child.BETWEEN?)
      || (op.BIT_XOR? && Bitwise(child) && !child.BIT_XOR?)
      || (op.BIT_AND? && child.BIT_OR?)
      || (op.Shift? && (child.BIT_OR? || child.BIT_AND?))
    case TSql(_) => Compares(op) && Compares(child)
    case PostgreSql =>
      || (op.Relational? && (child.Relational? || child.Identity?))
      || ((op.Matching? || op.BETWEEN?) && Compares(child))
      || (op.Identity? && child.Identity?)
      || (Additive(op) && child.CONCAT?)
    case Oracle => Compares(op) && Compares(child) && (op.Relational? || !child.Relational?)
  }

  /** Chains the table takes to be associative. */
  predicate Chain(op: Op, child: Op) {
    || (op.OR? && child.OR?) || (op.AND? && child.AND?)
    || (op.ADD? && Additive(child)) || (op.MUL? && Multiplicative(child))
  }

  /** The bare right operands that a target takes for something else. */
  predicate WrongRight(t: Target, op: Op, child: Op) {
    Chain(op, child) ||
    match t
    case MySql =>
      || (Compares(op) && Compares(child) && (op.BETWEEN? ==> child.BETWEEN?))
      || (op.BIT_XOR? && Bitwise(child))
      || (op.BIT_AND? && (child.BIT_OR? || child.BIT_AND?))
      || (op.BIT_OR? && child.BIT_OR?)
    case TSql(_) =>
      || (Compares(op) && Compares(child))
      || (Bitwise(op) && !op.Shift? && Bitwise(child))
      || ((Bitwise(op) || op.ADD? || op.CONCAT?) && child.CONCAT?)
      || (op.CONCAT? && Additive(child))
    case PostgreSql =>
      || (op.Relational? && (child.Relational? || child.Identity?))
      || ((op.Matching? || op.BETWEEN?) && Compares(child))
      || (op.Identity? && child.Identity?)
      || (Bitwise(op) && !op.Shift? && Bitwise(child))
      || ((Bitwise(op) || op.ADD? || op.CONCAT?) && child.CONCAT?)
    case Oracle =>
      || (Compares(op) && Compares(child) && (op.Relational? || !child.Relational?))
      || ((op.ADD? || op.CONCAT?) && child.CONCAT?)
      || (op.CONCAT? && Additive(child))
  }

  predicate Placed(t: Target, op: Op, l: Expr, r: Expr) {
    && !(l.Bin? && !Called(t, l) && WrongLeft(t, op, l.op))
    && !(r.Bin? && !Called(t, r) && WrongRight(t, op, r.op))
  }

  /** No operand of the tree is one the target mistakes, and chains in `CONCAT(...)` lean to the left. */
  predicate Sound(t: Target, e: Expr)
    decreases e, 0
  {
    match e
    case Atom(_) => true
    case Not(x) => Sound(t, x)
    case Bin(op, l, r) =>
      if Called(t, e) && op.CONCAT? then SoundPart(t, l) && SoundPart(t, r) && !IsConcat(r)
      else Sound(t, l) && Sound(t, r) && (!Called(t, e) ==> Placed(t, op, l, r))
  }

  predicate SoundPart(t: Target, e: Expr)
    decreases e, 1
  {
    if IsConcat(e) then SoundPart(t, e.left) && SoundPart(t, e.right) && !IsConcat(e.right) else Sound(t, e)
  }

  /** Never printed between its operands. */
  predicate NeverInfix(t: Target, op: Op) {
    (t.MySql? && op.CONCAT?) || (t.Oracle? && (Bitwise(op) || op.MOD?))
  }

  predicate WrappedBin(child: Op, parent: Op, right: bool) {
    || Crosses(parent, child)
    || Prec(child) < Prec(parent)
    || (right && Prec(child) == Prec(parent) && NonAssociative(parent))
  }

  /** The operands that are printed without parentheses. */
  predicate Bare(op: Op, child: Op, right: bool) {
    match op
    case OR => true
    case AND => !child.OR?
    case BIT_OR | BIT_XOR | BIT_AND => Bitwise(child) || child.CONCAT?
    case Shift(_) => (Bitwise(child) && !right) || child.CONCAT?
    case ADD | CONCAT => Arithmetic(child) || child.CONCAT?
    case SUB => Multiplicative(child) || (!right && (Additive(child) || child.CONCAT?))
    case MUL => Multiplicative(child)
    case DIV | MOD => Multiplicative(child) && !right
    case _ => !Loose(child)
  }

  lemma BareLeft(op: Op, child: Op)
    ensures Bare(op, child, false) <==> !WrappedBin(child, op, false)
  {
  }

  lemma BareRight(op: Op, child: Op)
    ensures Bare(op, child, true) <==> !WrappedBin(child, op, true)
  {
  }

  /** `WrongLeft` says what the levels say. */
  predicate LeftIs(t: Target, op: Op, child: Op) {
    (!Bare(op, child, false) || Level(t, op) < Level(t, child)
     || (Level(t, op) == Level(t, child) && Chained(t, Level(t, op)))) <==> !WrongLeft(t, op, child)
  }

  /** `WrongRight` says what the levels say. */
  predicate RightIs(t: Target, op: Op, child: Op) {
    (!Bare(op, child, true) || Level(t, op) < Level(t, child)) <==> !WrongRight(t, op, child)
  }


  lemma MySqlLeft(op: Op, child: Op)
    requires !op.CONCAT? && !child.CONCAT?
    ensures LeftIs(MySql, op, child)
  {
  }

  lemma MySqlRightTested(op: Op, child: Op)
    requires (Compares(op) || Bitwise(op)) && !op.CONCAT? && !child.CONCAT?
    ensures RightIs(MySql, op, child)
  {
  }

  lemma MySqlRightOthers(op: Op, child: Op)
    requires !Compares(op) && !Bitwise(op) && !op.CONCAT? && !child.CONCAT?
    ensures RightIs(MySql, op, child)
  {
  }

  lemma TSqlLeft(numeric: nat -> bool, op: Op, child: Op)
    ensures LeftIs(TSql(numeric), op, child)
  {
  }

  lemma TSqlRightTested(numeric: nat -> bool, op: Op, child: Op)
    requires Compares(op) || Bitwise(op)
    ensures RightIs(TSql(numeric), op, child)
  {
  }

  lemma TSqlRightOthers(numeric: nat -> bool, op: Op, child: Op)
    requires !Compares(op) && !Bitwise(op)
    ensures RightIs(TSql(numeric), op, child)
  {
  }

  lemma PostgreSqlLeftCompared(op: Op, child: Op)
    requires Compares(op)
    ensures LeftIs(PostgreSql, op, child)
  {
  }

  lemma PostgreSqlLeftOthers(op: Op, child: Op)
    requires !Compares(op)
    ensures LeftIs(PostgreSql, op, child)
  {
  }

  lemma PostgreSqlRightCompared(op: Op, child: Op)
    requires Compares(op)
    ensures RightIs(PostgreSql, op, child)
  {
  }

  lemma PostgreSqlRightBits(op: Op, child: Op)
    requires Bitwise(op)
    ensures RightIs(PostgreSql, op, child)
  {
  }

  lemma PostgreSqlRightCounted(op: Op, child: Op)
    requires Arithmetic(op)
    ensures RightIs(PostgreSql, op, child)
  {
  }

  lemma PostgreSqlRightOthers(op: Op, child: Op)
    requires !Compares(op) && !Bitwise(op) && !Arithmetic(op)
    ensures RightIs(PostgreSql, op, child)
  {
  }

  lemma OracleLeft(op: Op, child: Op)
    requires !Bitwise(op) && !op.MOD? && !Bitwise(child) && !child.MOD?
    ensures LeftIs(Oracle, op, child)
  {
  }

  lemma OracleRight(op: Op, child: Op)
    requires !Bitwise(op) && !op.MOD? && !Bitwise(child) && !child.MOD?
    ensures RightIs(Oracle, op, child)
  {
  }

  lemma PairLeft(t: Target, op: Op, child: Op)
    requires !NeverInfix(t, op) && !NeverInfix(t, child)
    ensures LeftIs(t, op, child)
  {
    hide LeftIs;
    match t
    case MySql => MySqlLeft(op, child);
    case TSql(numeric) => TSqlLeft(numeric, op, child);
    case PostgreSql =>
      if Compares(op) {
        PostgreSqlLeftCompared(op, child);
      } else {
        PostgreSqlLeftOthers(op, child);
      }
    case Oracle => OracleLeft(op, child);
  }

  lemma PairRight(t: Target, op: Op, child: Op)
    requires !NeverInfix(t, op) && !NeverInfix(t, child)
    ensures RightIs(t, op, child)
  {
    hide RightIs, Compares, Bitwise, Arithmetic;
    match t
    case MySql =>
      if Compares(op) || Bitwise(op) {
        MySqlRightTested(op, child);
      } else {
        MySqlRightOthers(op, child);
      }
    case TSql(numeric) =>
      if Compares(op) || Bitwise(op) {
        TSqlRightTested(numeric, op, child);
      } else {
        TSqlRightOthers(numeric, op, child);
      }
    case PostgreSql =>
      if Compares(op) {
        PostgreSqlRightCompared(op, child);
      } else if Bitwise(op) {
        PostgreSqlRightBits(op, child);
      } else if Arithmetic(op) {
        PostgreSqlRightCounted(op, child);
      } else {
        PostgreSqlRightOthers(op, child);
      }
    case Oracle => OracleRight(op, child);
  }

  lemma WrappedOps(c: Expr, op: Op, right: bool)
    requires c.Bin?
    ensures Wrapped(c, op, right) <==> WrappedBin(c.op, op, right)
  {
    hide Crosses, Prec, NonAssociative;
  }

  lemma UncalledInfix(t: Target, e: Expr)
    requires Infix(StyleOf(t), e)
    ensures !Called(t, e) && !NeverInfix(t, e.op)
  {
    hide AnyNumeric, Bitwise;
  }

  lemma LeftPlaced(t: Target, op: Op, c: Expr)
    requires !NeverInfix(t, op) && Infix(StyleOf(t), c)
    ensures (!Wrapped(c, op, false) ==> Under(GrammarOf(t), op, c.op)) <==> !WrongLeft(t, op, c.op)
  {
    hide Wrapped, WrappedBin, Bare, WrongLeft, NeverInfix, Level, Chained, StyleOf;
    UncalledInfix(t, c);
    PairLeft(t, op, c.op);
    BareLeft(op, c.op);
    WrappedOps(c, op, false);
  }

  lemma RightPlaced(t: Target, op: Op, c: Expr)
    requires !NeverInfix(t, op) && Infix(StyleOf(t), c)
    ensures (!Wrapped(c, op, true) ==> GrammarOf(t).level(op) < GrammarOf(t).level(c.op)) <==> !WrongRight(t, op, c.op)
  {
    hide Wrapped, WrappedBin, Bare, WrongRight, NeverInfix, Level, StyleOf;
    UncalledInfix(t, c);
    PairRight(t, op, c.op);
    BareRight(op, c.op);
    WrappedOps(c, op, true);
  }

  lemma InfixIs(t: Target, e: Expr)
    ensures Infix(StyleOf(t), e) <==> e.Bin? && !Called(t, e)
  {
    hide Called;
  }

  /** What the target mistakes is what its levels put in the wrong place. */
  lemma PlacedIsKept(t: Target, op: Op, l: Expr, r: Expr)
    requires !NeverInfix(t, op)
    ensures KeptAt(GrammarOf(t), StyleOf(t), op, l, r) <==> Placed(t, op, l, r)
  {
    hide Wrapped, WrongLeft, WrongRight, Called, NeverInfix, Under, StyleOf, Infix, GrammarOf;
    InfixIs(t, l);
    InfixIs(t, r);
    if Infix(StyleOf(t), l) {
      LeftPlaced(t, op, l);
    }
    if Infix(StyleOf(t), r) {
      RightPlaced(t, op, r);
    }
  }

  lemma {:induction false} SoundIsKept(t: Target, e: Expr)
    ensures Kept(GrammarOf(t), StyleOf(t), e) <==> Sound(t, e)
    decreases e, 0
  {
    hide Called, Placed, KeptAt, GrammarOf;
    assert StyleOf(t)(e) == Called(t, e);
    match e
    case Atom(_) =>
    case Not(x) => SoundIsKept(t, x);
    case Bin(op, l, r) =>
      SoundIsKept(t, l);
      SoundIsKept(t, r);
      PartSoundIsKept(t, l);
      PartSoundIsKept(t, r);
      if !Called(t, e) {
        UncalledInfix(t, e);
        PlacedIsKept(t, op, l, r);
      }
  }

  lemma {:induction false} PartSoundIsKept(t: Target, e: Expr)
    ensures KeptPart(GrammarOf(t), StyleOf(t), e) <==> SoundPart(t, e)
    decreases e, 1
  {
    hide Kept, Sound, StyleOf, GrammarOf;
    if IsConcat(e) {
      PartSoundIsKept(t, e.left);
      PartSoundIsKept(t, e.right);
    } else {
      SoundIsKept(t, e);
    }
  }

  /** On each target the text is read as the tree if and only if it has none of the operands that the
      target mistakes, on the left or on the right. */
  lemma TargetReadBackIff(t: Target, e: Expr)
    ensures Read(GrammarOf(t), Emit(StyleOf(t), e)) == Some(e) <==> Sound(t, e)
  {
    hide Read, Emit, Kept, Sound, StyleOf, GrammarOf;
    ReadBackIff(GrammarOf(t), StyleOf(t), e);
    SoundIsKept(t, e);
  }

  /** A target with its bitwise operators above all others. */
  function BitsFirst(t: Target): Grammar {
    Grammar(
      op => if Bitwise(op) then 20 + Level(t, op) else Level(t, op),
      (level: nat) => level > 20 || Chained(t, level))
  }

  /** A target's manual may be wrong about bitwise against arithmetic operators without any harm. */
  lemma EitherFamily(t: Target, e: Expr)
    requires Unmixed(e)
    ensures Read(BitsFirst(t), Emit(StyleOf(t), e)) == Some(e) <==> Sound(t, e)
  {
    hide Read, Emit, Sound, StyleOf, Unmixed, GrammarOf, BitsFirst;
    assert Alike(GrammarOf(t), BitsFirst(t)) by { FamiliesAlike(t); }
    CrossingIsSafe(GrammarOf(t), BitsFirst(t), StyleOf(t), e);
    TargetReadBackIff(t, e);
  }

  lemma FamiliesAlike(t: Target)
    ensures Alike(GrammarOf(t), BitsFirst(t))
  {
    forall a, b | !Crosses(a, b) && !TextBits(a, b) ensures AlikeOn(GrammarOf(t), BitsFirst(t), a, b) {
      BitsAlike(t, a, b);
    }
  }

  lemma BitsAlike(t: Target, a: Op, b: Op)
    requires !Crosses(a, b) && !TextBits(a, b)
    ensures AlikeOn(GrammarOf(t), BitsFirst(t), a, b)
  {
    LevelBounds(t, a);
    LevelBounds(t, b);
    BitsAbove(t, a, b);
    hide Level, Chained;
  }

  lemma LevelBounds(t: Target, op: Op)
    ensures Level(t, op) <= 10 && (Bitwise(op) ==> Level(t, op) > 0 && Chained(t, Level(t, op)))
  {
  }

  /** Against bitwise operators there are only the logical ones and comparisons left. */
  lemma BitsAbove(t: Target, a: Op, b: Op)
    requires !Crosses(a, b) && !TextBits(a, b)
    ensures Bitwise(a) && !Bitwise(b) ==> Level(t, b) < Level(t, a)
    ensures Bitwise(b) && !Bitwise(a) ==> Level(t, a) < Level(t, b)
  {
  }

  // ----- what the text means -----

  datatype Engine<!V> = Engine(atom: nat -> V, negate: V -> V, apply: (Op, V, V) -> V)

  function Eval<V>(g: Engine<V>, e: Expr): V {
    match e
    case Atom(id) => g.atom(id)
    case Not(x) => g.negate(Eval(g, x))
    case Bin(op, l, r) => g.apply(op, Eval(g, l), Eval(g, r))
  }

  ghost predicate IsValue<V>(g: Engine<V>, read: Option<Expr>, v: V) {
    read.Some? && Eval(g, read.value) == v
  }

  /** The text is read as an expression with the value of the tree. */
  ghost predicate Means<V>(g: Engine<V>, p: Grammar, s: Style, e: Expr) {
    IsValue(g, Read(p, Emit(s, e)), Eval(g, e))
  }

  /** The engine in which every expression is its own value. */
  function TreeEngine(): Engine<Expr> {
    Engine(id => Atom(id), x => Not(x), (op, l, r) => Bin(op, l, r))
  }

  lemma {:induction false} TreeValue(g: Engine<Expr>, e: Expr)
    requires g == TreeEngine()
    ensures Eval(g, e) == e
  {
    match e
    case Atom(_) =>
    case Not(x) => TreeValue(g, x);
    case Bin(_, l, r) =>
      TreeValue(g, l);
      TreeValue(g, r);
  }

  /** Without laws for its operators, the text means the expression under the same condition. */
  lemma TargetMeansIff(t: Target, e: Expr)
    ensures (forall g: Engine<Expr> :: Means(g, GrammarOf(t), StyleOf(t), e)) <==> Sound(t, e)
  {
    hide Read, Emit, Sound, TreeEngine, GrammarOf, StyleOf;
    TargetReadBackIff(t, e);
    if forall g: Engine<Expr> :: Means(g, GrammarOf(t), StyleOf(t), e) {
      assert Means(TreeEngine(), GrammarOf(t), StyleOf(t), e);
      TreeValue(TreeEngine(), e);
      TreeValue(TreeEngine(), Read(GrammarOf(t), Emit(StyleOf(t), e)).value);
    }
  }

  /** `x a (y b z)` is `(x a y) b z`. */
  ghost predicate Regroups<V(!new)>(g: Engine<V>, a: Op, b: Op) {
    forall x, y, z :: g.apply(a, x, g.apply(b, y, z)) == g.apply(b, g.apply(a, x, y), z)
  }

  ghost predicate RegroupsIn<V(!new)>(g: Engine<V>, p: Grammar, a: Op, ts: seq<Token>) {
    forall j :: 0 <= j < |ts| && ts[j].Sign? && p.level(ts[j].op) == p.level(a) ==> Regroups(g, a, ts[j].op)
  }

  /** Where a right operand of the same level has lost its parentheses, the engine's laws make up for it. */
  ghost predicate Regroupable<V(!new)>(g: Engine<V>, p: Grammar, s: Style, e: Expr)
    decreases e, 0
  {
    match e
    case Atom(_) => true
    case Not(x) => Regroupable(g, p, s, x)
    case Bin(op, l, r) =>
      if s(e) && op.CONCAT? then
        RegroupablePart(g, p, s, l) && RegroupablePart(g, p, s, r) && (IsConcat(r) ==> Regroups(g, CONCAT, CONCAT))
      else
        && Regroupable(g, p, s, l) && Regroupable(g, p, s, r)
        && (!s(e) ==> RegroupsIn(g, p, op, Operand(s, r, op, true)))
  }

  ghost predicate RegroupablePart<V(!new)>(g: Engine<V>, p: Grammar, s: Style, e: Expr)
    decreases e, 1
  {
    if IsConcat(e) then
      && RegroupablePart(g, p, s, e.left) && RegroupablePart(g, p, s, e.right)
      && (IsConcat(e.right) ==> Regroups(g, CONCAT, CONCAT))
    else Regroupable(g, p, s, e)
  }

  /** As in every SQL dialect: OR binds loosest, then AND. */
  ghost predicate SqlLevels(p: Grammar) {
    p.level(OR) < p.level(AND) && forall op: Op :: !Loose(op) ==> p.level(AND) < p.level(op)
  }

  lemma AsLoose(p: Grammar, a: Op, b: Op)
    requires SqlLevels(p) && Loose(a) && p.level(b) == p.level(a)
    ensures Loose(b)
  {
  }

  /** A NOT stands first only before AND and OR. */
  predicate Fits(ts: seq<Token>, op: Op) {
    ts != [] && (ts[0].NotWord? ==> Loose(op))
  }

  /** The last loosest operator of `b` is that of the text with `a op` before it. */
  lemma IsLastBehind(p: Grammar, a: seq<Token>, op: Op, b: seq<Token>, k: nat)
    requires AtLeast(p, a, p.level(op)) && IsLast(p, b, k) && p.level(b[k].op) == p.level(op)
    ensures IsLast(p, a + [Sign(op)] + b, |a| + 1 + k)
  {
    hide AtLeast;
    var ts := a + [Sign(op)] + b;
    TokenAt(a, op, b, |a| + 1 + k);
    forall j | 0 <= j < |a| + 1 + k && ts[j].Sign? ensures p.level(op) <= p.level(ts[j].op) {
      TokenAt(a, op, b, j);
      if j < |a| {
        SignAtLeast(p, a, p.level(op), j);
      }
    }
    forall j | |a| + 1 + k < j < |ts| && ts[j].Sign? ensures p.level(op) < p.level(ts[j].op) {
      TokenAt(a, op, b, j);
    }
  }

  lemma ReadHere<V>(g: Engine<V>, p: Grammar, a: seq<Token>, op: Op, b: seq<Token>, x: V, y: V)
    requires Last(p, a + [Sign(op)] + b) == Some(|a|) && Stands(p, a + [Sign(op)] + b, |a|) && Fits(a, op)
    requires IsValue(g, Read(p, a), x) && IsValue(g, Read(p, b), y)
    ensures IsValue(g, Read(p, a + [Sign(op)] + b), g.apply(op, x, y))
  {
    hide Last, Read, Loose, Stands;
    var ts := a + [Sign(op)] + b;
    assert ts[..|a|] == a && ts[|a| + 1..] == b && ts[|a|] == Sign(op) && ts[0] == a[0];
    ReadSplit(p, ts, |a|);
  }

  /** Both sides of an operator that may be followed by others of its level. */
  ghost predicate Sides(p: Grammar, a: seq<Token>, op: Op, b: seq<Token>) {
    && AtLeast(p, a, p.level(op)) && AtLeast(p, b, p.level(op)) && Fits(a, op) && Fits(b, op)
    && p.chains(p.level(op))
  }

  /** The text read with `a op` before it means the operator on both, where its laws make up for lost
      parentheses. */
  lemma {:induction false} JoinedMeans<V(!new)>(
    g: Engine<V>, p: Grammar, a: seq<Token>, op: Op, b: seq<Token>, x: V, y: V)
    requires SqlLevels(p) && Sides(p, a, op, b)
    requires RegroupsIn(g, p, op, b) && IsValue(g, Read(p, a), x) && IsValue(g, Read(p, b), y)
    ensures IsValue(g, Read(p, a + [Sign(op)] + b), g.apply(op, x, y))
    decreases |b|
  {
    hide Last, Read, Regroups, Eval, Loose, SqlLevels, IsLast;
    var m := Last(p, b);
    LastFacts(p, b);
    if m.Some? && p.level(b[m.value].op) == p.level(op) {
      var k, c := m.value, b[m.value].op;
      if Loose(op) {
        AsLoose(p, op, c);
      }
      var y1, y2 := ReadParts(g, p, b, k, y);
      assert forall j :: 0 <= j < |b[..k]| ==> b[..k][j] == b[j];
      JoinedMeans(g, p, a, op, b[..k], x, y1);
      var ts := a + [Sign(op)] + b;
      IsLastBehind(p, a, op, b, k);
      LastIs(p, ts, |a| + 1 + k);
      assert ts[..|a| + 1 + k] == a + [Sign(op)] + b[..k] && ts[|a| + 1 + k + 1..] == b[k + 1..];
      assert ts[|a| + 1 + k] == b[k] && ts[0] == a[0];
      ReadSplit(p, ts, |a| + 1 + k);
      Combined(g, p, ts, |a| + 1 + k, g.apply(op, x, y1), y2);
      assert Regroups(g, op, c);
      Regrouped(g, op, c, x, y1, y2);
    } else {
      LoosestAbove(p, b, op);
      LastHere(p, a, op, b);
      StandsHere(p, a, op, b);
      ReadHere(g, p, a, op, b, x, y);
    }
  }

  lemma LoosestAbove(p: Grammar, b: seq<Token>, op: Op)
    requires AtLeast(p, b, p.level(op))
    requires Last(p, b).Some? ==> p.level(b[Last(p, b).value].op) != p.level(op)
    ensures AtLeast(p, b, p.level(op) + 1)
  {
    hide Last;
    LastFacts(p, b);
  }

  lemma Regrouped<V(!new)>(g: Engine<V>, a: Op, b: Op, x: V, y: V, z: V)
    requires Regroups(g, a, b)
    ensures g.apply(a, x, g.apply(b, y, z)) == g.apply(b, g.apply(a, x, y), z)
  {
  }

  lemma Combined<V>(g: Engine<V>, p: Grammar, ts: seq<Token>, k: nat, x: V, y: V)
    requires k < |ts| && ts[k].Sign? && Read(p, ts) == Join(ts[k].op, Read(p, ts[..k]), Read(p, ts[k + 1..]))
    requires IsValue(g, Read(p, ts[..k]), x) && IsValue(g, Read(p, ts[k + 1..]), y)
    ensures IsValue(g, Read(p, ts), g.apply(ts[k].op, x, y))
  {
    hide Read;
  }

  lemma ReadParts<V>(g: Engine<V>, p: Grammar, b: seq<Token>, k: nat, y: V) returns (y1: V, y2: V)
    requires Last(p, b) == Some(k) && Fits(b, b[k].op) && IsValue(g, Read(p, b), y)
    ensures IsValue(g, Read(p, b[..k]), y1) && IsValue(g, Read(p, b[k + 1..]), y2) && b[..k] != []
    ensures y == g.apply(b[k].op, y1, y2)
  {
    hide Last, Loose, ReadArgs;
    ReadSplit(p, b, k);
    y1, y2 := Eval(g, Read(p, b[..k]).value), Eval(g, Read(p, b[k + 1..]).value);
  }

  lemma OperandFits(s: Style, c: Expr, parent: Op, right: bool)
    ensures Fits(Operand(s, c, parent, right), parent)
  {
    hide Emit, Crosses, NonAssociative;
    NotFirst(s, c);
  }

  lemma InfixMeans<V(!new)>(g: Engine<V>, p: Grammar, s: Style, e: Expr)
    requires SqlLevels(p) && Infix(s, e) && Descends(p, s, e) && Regroupable(g, p, s, e)
    requires Means(g, p, s, e.left) && Means(g, p, s, e.right)
    ensures Means(g, p, s, e)
  {
    hide Read, Emit, Operand, RegroupsIn, AtLeast, SqlLevels, Stands, Last, Fits;
    var l, r := Operand(s, e.left, e.op, false), Operand(s, e.right, e.op, true);
    ReadOperand(p, s, e.left, e.op, false);
    ReadOperand(p, s, e.right, e.op, true);
    OperandUnder(p, s, e.left, e.op, false);
    OperandUnder(p, s, e.right, e.op, true);
    OperandFits(s, e.left, e.op, false);
    OperandFits(s, e.right, e.op, true);
    EmitInfix(s, e);
    if p.chains(p.level(e.op)) {
      JoinedMeans(g, p, l, e.op, r, Eval(g, e.left), Eval(g, e.right));
    } else {
      LastHere(p, l, e.op, r);
      StandsHere(p, l, e.op, r);
      ReadHere(g, p, l, e.op, r, Eval(g, e.left), Eval(g, e.right));
    }
  }

  /** A chain as the last arguments of a call. */
  lemma {:induction false} PartsMean<V(!new)>(g: Engine<V>, p: Grammar, s: Style, args: seq<Token>, e: Expr, x: V)
    requires args != [] && IsValue(g, ReadArgs(p, CONCAT, args), x) && DescendsPart(p, s, e) && SqlLevels(p)
    requires RegroupablePart(g, p, s, e) && (IsConcat(e) ==> Regroups(g, CONCAT, CONCAT))
    ensures IsValue(g, ReadArgs(p, CONCAT, args + Parts(s, e)), g.apply(CONCAT, x, Eval(g, e)))
    decreases e, 1
  {
    hide Read, Emit, ReadArgs, Regroups, SqlLevels, Regroupable, Descends;
    if IsConcat(e) {
      PartsMean(g, p, s, args, e.left, x);
      SomeParts(s, e.left);
      PartsMean(g, p, s, args + Parts(s, e.left), e.right, g.apply(CONCAT, x, Eval(g, e.left)));
      Regroup(args, Parts(s, e.left), Parts(s, e.right));
      Regrouped(g, CONCAT, CONCAT, x, Eval(g, e.left), Eval(g, e.right));
    } else {
      TextMeans(g, p, s, e);
      ReadMoreArgs(p, CONCAT, args, Emit(s, e));
    }
  }

  lemma {:induction false} ChainMeans<V(!new)>(g: Engine<V>, p: Grammar, s: Style, e: Expr)
    requires SqlLevels(p) && DescendsPart(p, s, e) && RegroupablePart(g, p, s, e)
    ensures IsValue(g, ReadArgs(p, CONCAT, Parts(s, e)), Eval(g, e))
    decreases e, 2
  {
    hide Read, Emit, ReadArgs, Regroups, SqlLevels, Regroupable, Descends;
    if IsConcat(e) {
      ChainMeans(g, p, s, e.left);
      SomeParts(s, e.left);
      PartsMean(g, p, s, Parts(s, e.left), e.right, Eval(g, e.left));
    } else {
      TextMeans(g, p, s, e);
      ReadOneArg(p, CONCAT, Emit(s, e));
    }
  }

  lemma {:induction false} TextMeans<V(!new)>(g: Engine<V>, p: Grammar, s: Style, e: Expr)
    requires SqlLevels(p) && Descends(p, s, e) && Regroupable(g, p, s, e)
    ensures Means(g, p, s, e)
    decreases e, 0
  {
    hide Read, Emit, Operand, RegroupsIn, Regroups, ReadArgs, SqlLevels, DescendsTo;
    match e
    case Atom(id) => ReadAtom(p, s, id);
    case Not(x) =>
      TextMeans(g, p, s, x);
      ReadNegation(p, s, x);
    case Bin(op, l, r) =>
      if s(e) && op.CONCAT? {
        ChainMeans(g, p, s, l);
        SomeParts(s, l);
        PartsMean(g, p, s, Parts(s, l), r, Eval(g, l));
        PartsStep(s, e);
        ReadConcat(p, s, e);
      } else {
        TextMeans(g, p, s, l);
        TextMeans(g, p, s, r);
        if s(e) {
          ReadPlainCall(p, s, e);
        } else {
          InfixMeans(g, p, s, e);
        }
      }
  }

  lemma TargetSql(t: Target)
    ensures SqlLevels(GrammarOf(t))
  {
    forall op: Op | !Loose(op) ensures Level(t, AND) < Level(t, op) {
    }
  }

  /** On each target the text means the expression wherever no bare operand binds looser than its place
      asks and the engine's laws make up for the parentheses that one of the same level has lost. */
  lemma MeansWhenRegroupable<V(!new)>(g: Engine<V>, t: Target, e: Expr)
    requires Descends(GrammarOf(t), StyleOf(t), e) && Regroupable(g, GrammarOf(t), StyleOf(t), e)
    ensures Means(g, GrammarOf(t), StyleOf(t), e)
  {
    hide Regroupable, Descends, Read, Emit, SqlLevels, GrammarOf, StyleOf;
    TargetSql(t);
    TextMeans(g, GrammarOf(t), StyleOf(t), e);
  }

  // ----- three trees that are misread -----

  /** `a op b op' c`, read from the left when the second operator is no tighter. */
  lemma ReadFromLeft(p: Grammar, a: nat, op: Op, b: nat, op': Op, c: nat)
    requires p.level(op') <= p.level(op) && (p.level(op') == p.level(op) ==> p.chains(p.level(op)))
    ensures Read(p, [Leaf(a), Sign(op), Leaf(b), Sign(op'), Leaf(c)])
         == Some(Bin(op', Bin(op, Atom(a), Atom(b)), Atom(c)))
  {
    hide Read, Last;
    var ts := [Leaf(a), Sign(op), Leaf(b), Sign(op'), Leaf(c)];
    LastIs(p, ts, 3);
    ReadSplit(p, ts, 3);
    assert ts[..3] == [Leaf(a), Sign(op), Leaf(b)] && ts[4..] == [Leaf(c)];
    ReadPair(p, a, op, b);
    ReadLeaf(p, c);
  }

  lemma ReadFromRight(p: Grammar, a: nat, op: Op, b: nat, op': Op, c: nat)
    requires p.level(op) < p.level(op')
    ensures Read(p, [Leaf(a), Sign(op), Leaf(b), Sign(op'), Leaf(c)])
         == Some(Bin(op, Atom(a), Bin(op', Atom(b), Atom(c))))
  {
    hide Read, Last;
    var ts := [Leaf(a), Sign(op), Leaf(b), Sign(op'), Leaf(c)];
    LastIs(p, ts, 1);
    ReadSplit(p, ts, 1);
    assert ts[..1] == [Leaf(a)] && ts[2..] == [Leaf(b), Sign(op'), Leaf(c)];
    ReadPair(p, b, op', c);
    ReadLeaf(p, a);
  }

  lemma ReadPair(p: Grammar, a: nat, op: Op, b: nat)
    ensures Read(p, [Leaf(a), Sign(op), Leaf(b)]) == Some(Bin(op, Atom(a), Atom(b)))
  {
    hide Read, Last;
    var ts := [Leaf(a), Sign(op), Leaf(b)];
    LastIs(p, ts, 1);
    ReadSplit(p, ts, 1);
    assert ts[..1] == [Leaf(a)] && ts[2..] == [Leaf(b)];
    ReadLeaf(p, a);
    ReadLeaf(p, b);
  }

  function Whole(op: Op, x: int, y: int): int {
    if op.MUL? then x * y else if op.DIV? && y != 0 then x / y else 0
  }

  /** `2 * (1 / 2)` is printed `2 * 1 / 2` for every target: not 0 but 1 where integers are divided. */
  lemma ProductOfQuotient(t: Target)
    ensures var e := Bin(MUL, Atom(2), Bin(DIV, Atom(1), Atom(2)));
      && Emit(StyleOf(t), e) == [Leaf(2), Sign(MUL), Leaf(1), Sign(DIV), Leaf(2)]
      && !Means(Engine(id => id, x => x, Whole), GrammarOf(t), StyleOf(t), e)
  {
    hide Read;
    var e := Bin(MUL, Atom(2), Bin(DIV, Atom(1), Atom(2)));
    var g := Engine(id => id, x => x, Whole);
    assert Emit(StyleOf(t), e) == [Leaf(2), Sign(MUL), Leaf(1), Sign(DIV), Leaf(2)];
    ReadFromLeft(GrammarOf(t), 2, MUL, 1, DIV, 2);
    var product := Bin(MUL, Atom(2), Atom(1));
    assert Eval(g, product) == 2 && Eval(g, Bin(DIV, product, Atom(2))) == 1;
    assert Eval(g, Bin(DIV, Atom(1), Atom(2))) == 0 && Eval(g, e) == 0;
  }

  function Bits(op: Op, x: bv8, y: bv8): bv8 {
    if op.BIT_OR? then x | y else if op.BIT_AND? then x & y else 0
  }

  /** `(4 | 1) & 1` is printed `4 | 1 & 1`, and MySQL takes the `&` first: not 1 but 5. */
  lemma MySqlAndOverOr()
    ensures var e := Bin(BIT_AND, Bin(BIT_OR, Atom(4), Atom(1)), Atom(1));
      && Emit(StyleOf(MySql), e) == [Leaf(4), Sign(BIT_OR), Leaf(1), Sign(BIT_AND), Leaf(1)]
      && !Means(Engine(id => (id % 256) as bv8, x => !x, Bits), GrammarOf(MySql), StyleOf(MySql), e)
  {
    hide Read;
    var e := Bin(BIT_AND, Bin(BIT_OR, Atom(4), Atom(1)), Atom(1));
    var g := Engine(id => (id % 256) as bv8, x => !x, Bits);
    assert Emit(StyleOf(MySql), e) == [Leaf(4), Sign(BIT_OR), Leaf(1), Sign(BIT_AND), Leaf(1)];
    ReadFromRight(GrammarOf(MySql), 4, BIT_OR, 1, BIT_AND, 1);
    assert Eval(g, Bin(BIT_AND, Atom(1), Atom(1))) == 1;
    assert Eval(g, Bin(BIT_OR, Atom(4), Bin(BIT_AND, Atom(1), Atom(1)))) == 5;
    assert Eval(g, Bin(BIT_OR, Atom(4), Atom(1))) == 5 && Eval(g, e) == 1;
  }

  /** `(a || b) + c` is printed `a || b + c`, and PostgreSQL takes the `+` first. */
  lemma PostgreSqlSumOfText(a: nat, b: nat, c: nat)
    ensures var e := Bin(ADD, Bin(CONCAT, Atom(a), Atom(b)), Atom(c));
      Read(GrammarOf(PostgreSql), Emit(StyleOf(PostgreSql), e))
      == Some(Bin(CONCAT, Atom(a), Bin(ADD, Atom(b), Atom(c))))
  {
    hide Read;
    ReadFromRight(GrammarOf(PostgreSql), a, CONCAT, b, ADD, c);
    var e := Bin(ADD, Bin(CONCAT, Atom(a), Atom(b)), Atom(c));
    var s := StyleOf(PostgreSql);
    EmitInfix(s, e.left);
    EmitInfix(s, e);
    assert Emit(s, Atom(a)) == [Leaf(a)] && Emit(s, Atom(b)) == [Leaf(b)] && Emit(s, Atom(c)) == [Leaf(c)];
    assert Emit(s, e.left) == [Leaf(a), Sign(CONCAT), Leaf(b)];
    assert Emit(s, e) == [Leaf(a), Sign(CONCAT), Leaf(b), Sign(ADD), Leaf(c)];
  }
}
