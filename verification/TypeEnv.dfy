/** src/unique/core/converter/type_env.py: which columns of a derived table are dates or timestamps,
    and the tags put on the references to them. */
module TypeEnv {
  import opened Basics
  import opened Text

  datatype Kind = DATE | TIMESTAMP

  type Env = map<string, Kind>

  datatype Expr =
    | ColumnRef(name: string, table: Option<string>, inferred: Option<Kind>)
    | Alias(expr: Expr, name: string)
    | Cast(expr: Expr, typeName: string)
    | Function(name: string, args: seq<Expr>)
    | NullLiteral
    | Scalar(query: Query)                       // a nested query: a scope of its own
    | Node(tag: string, kids: seq<Expr>)         // any other expression

  /** What a FROM clause names. A table may be qualified, renamed column by column, or be no table at
      all but a function that returns rows; a PIVOT or UNPIVOT is some other relation. */
  datatype From =
    | Derived(query: Query, columnTypes: seq<(string, Kind)>, alias: Option<string>)
    | Table(name: string, schema: Option<string>, alias: Option<string>, columnAliases: seq<string>,
            routine: Option<Expr>)
    | OtherRelation(tag: string)
    | NoFrom

  datatype Cte = Cte(name: string, columns: seq<string>, query: Query)

  datatype SetOp = Union | Intersect | Except

  /** A further arm of a set operation; a query with arms of its own stands in parentheses. */
  datatype Arm = Arm(op: SetOp, query: Query)

  /** The arms are a flat chain, in the order of the text. */
  datatype Query = Query(columns: seq<Expr>, from: From, joins: bool, ctes: seq<Cte>, arms: seq<Arm>)

  // ----- inference -----

  const DATETIME_TYPES: set<string> := {"DATETIME", "DATETIME2", "TIMESTAMP", "SMALLDATETIME", "DATETIMEOFFSET"}

  function BeforeParen(s: string): string {
    if s == [] || s[0] == '(' then [] else [s[0]] + BeforeParen(s[1..])
  }

  function TypeKind(typeName: string): Option<Kind> {
    var name := UpperAll(Strip(BeforeParen(typeName)));
    if name == "DATE" then Some(DATE) else if name in DATETIME_TYPES then Some(TIMESTAMP) else None
  }

  function ExprKind(e: Expr, src: Env): Option<Kind> {
    match e
    case Function(name, _) => if UpperAll(name) == "DATE_STR_TO_DATE" then Some(DATE) else None
    case Cast(_, typeName) => TypeKind(typeName)
    case ColumnRef(name, _, _) => if LowerAll(name) in src then Some(src[LowerAll(name)]) else None
    case _ => None
  }

  /** `dict(pairs)`: the last pair of a name wins. */
  function Dict(pairs: seq<(string, Kind)>): Env {
    if pairs == [] then map[] else Dict(pairs[..|pairs| - 1])[pairs[|pairs| - 1].0 := pairs[|pairs| - 1].1]
  }

  /** The first CTE of that name, or the number of CTEs. */
  function CteIndex(ctes: seq<Cte>, name: string): (k: nat)
    ensures k <= |ctes|
    ensures k < |ctes| ==> LowerAll(ctes[k].name) == LowerAll(name)
    ensures forall j :: 0 <= j < k ==> LowerAll(ctes[j].name) != LowerAll(name)
  {
    if ctes == [] || LowerAll(ctes[0].name) == LowerAll(name) then 0 else 1 + CteIndex(ctes[1..], name)
  }

  function SourceEnv(q: Query): Env
    decreases q, 0
  {
    if q.joins then map[]
    else match q.from
      case Derived(_, types, _) => Dict(types)
      case Table(name, _, _, _, _) =>
        var k := CteIndex(q.ctes, name);
        if k == |q.ctes| || q.ctes[k].columns != [] then map[] else InferColumnTypes(q.ctes[k].query)
      case _ => map[]
  }

  /** The name and the expression of an output column, if it has a name. */
  function Output(e: Expr): Option<(string, Expr)> {
    match e
    case Alias(x, name) => Some((name, x))
    case ColumnRef(name, _, _) => Some((name, e))
    case _ => None
  }

  function AddColumn(out: Env, e: Expr, src: Env): Env {
    match Output(e)
    case None => out
    case Some((name, x)) =>
      var kind := ExprKind(x, src);
      if kind.Some? && name != "" then out[LowerAll(name) := kind.value] else out
  }

  function InferFrom(columns: seq<Expr>, src: Env): Env {
    if columns == [] then map[] else AddColumn(InferFrom(columns[..|columns| - 1], src), columns[|columns| - 1], src)
  }

  function InferColumnTypes(q: Query): Env
    decreases q, 1
  {
    InferFrom(q.columns, SourceEnv(q))
  }

  /** The loop of `infer_column_types`. */
  method InferLoop(q: Query) returns (out: Env)
    ensures out == InferColumnTypes(q)
  {
    var src := SourceEnv(q);
    out := map[];
    for i := 0 to |q.columns|
      invariant out == InferFrom(q.columns[..i], src)
    {
      assert q.columns[..i + 1][..i] == q.columns[..i];
      var col := q.columns[i];
      if col.Alias? || col.ColumnRef? {
        var name, expr := col.name, if col.Alias? then col.expr else col;
        var kind := ExprKind(expr, src);
        if kind.Some? && name != "" {
          out := out[LowerAll(name) := kind.value];
        }
      }
    }
    assert q.columns[..|q.columns|] == q.columns;
  }

  // ----- what a query returns -----

  datatype Value = Null | DateValue(d: int) | TimestampValue(t: int) | OtherValue(v: int)

  predicate Fits(v: Value, k: Kind) {
    v.Null? || (if k.DATE? then v.DateValue? else v.TimestampValue?)
  }

  /** The columns of a relation, and its rows, column by column. */
  datatype Relation = Relation(names: seq<string>, rows: seq<seq<Value>>) {
    ghost predicate Valid() {
      forall r :: r in rows ==> |r| == |names|
    }
  }

  /** What the engine supplies: base tables, joins, relations of other kinds, the WHERE clause,
      functions, conversions, the columns of enclosing queries, and whether INTERSECT binds tighter
      than the other set operations. */
  datatype Engine = Engine(
    table: (string, Option<string>) -> Relation,
    joined: Query -> Relation,
    other: From -> Relation,
    keeps: (Query, seq<Value>) -> bool,
    call: (string, seq<Value>) -> Value,
    cast: (string, Value) -> Value,
    op: (string, seq<Value>) -> Value,
    scalar: (Query, seq<Value>) -> Value,
    outer: (Option<string>, string) -> Value,
    intersectFirst: bool)

  /** Relations have rows of the right length, a conversion to a temporal type gives a value of that
      type or NULL, and so does a date literal. */
  ghost predicate Typed(g: Engine) {
    && (forall n, s :: g.table(n, s).Valid())
    && (forall q :: g.joined(q).Valid())
    && (forall f :: g.other(f).Valid())
    && (forall t, v :: TypeKind(t).Some? ==> Fits(g.cast(t, v), TypeKind(t).value))
    && (forall n, vs :: UpperAll(n) == "DATE_STR_TO_DATE" ==> Fits(g.call(n, vs), DATE))
  }

  /** The position of a column name, case ignored; the number of names if it is not there. */
  function NameIndex(names: seq<string>, name: string): (k: nat)
    ensures k <= |names|
    ensures k < |names| ==> LowerAll(names[k]) == LowerAll(name)
    ensures k == |names| ==> forall j :: 0 <= j < |names| ==> LowerAll(names[j]) != LowerAll(name)
  {
    if names == [] then 0
    else if LowerAll(names[0]) == LowerAll(name) then 0
    else
      assert forall j :: 0 < j < |names| ==> names[j] == names[1..][j - 1];
      1 + NameIndex(names[1..], name)
  }

  /** The name its columns are qualified with. */
  function Visible(f: From): Option<string> {
    match f
    case Derived(_, _, alias) => alias
    case Table(name, _, alias, _, _) => if alias.Some? then alias else Some(name)
    case _ => None
  }

  /** The reference is to the relation known as `at`: it has no qualifier, or that one. */
  predicate Local(table: Option<string>, at: Option<string>) {
    table.None? || (at.Some? && LowerAll(table.value) == LowerAll(at.value))
  }

  /** A reference that finds no column of the relation is to an enclosing query. */
  function Eval(g: Engine, e: Expr, at: Option<string>, names: seq<string>, row: seq<Value>): Value
    requires |row| == |names|
  {
    match e
    case ColumnRef(name, table, _) =>
      if Local(table, at) && NameIndex(names, name) < |names| then row[NameIndex(names, name)] else g.outer(table, name)
    case Alias(x, _) => Eval(g, x, at, names, row)
    case Cast(x, t) => g.cast(t, Eval(g, x, at, names, row))
    case Function(n, args) => g.call(n, seq(|args|, i requires 0 <= i < |args| => Eval(g, args[i], at, names, row)))
    case NullLiteral => Null
    case Scalar(q) => g.scalar(q, row)
    case Node(tag, kids) => g.op(tag, seq(|kids|, i requires 0 <= i < |kids| => Eval(g, kids[i], at, names, row)))
  }

  function OutputName(e: Expr): string {
    match Output(e) case None => "" case Some((name, _)) => name
  }

  function Names(columns: seq<Expr>): (r: seq<string>)
    ensures |r| == |columns|
  {
    seq(|columns|, i requires 0 <= i < |columns| => OutputName(columns[i]))
  }

  function Project(g: Engine, q: Query, names: seq<string>, row: seq<Value>): (r: seq<Value>)
    requires |row| == |names|
    ensures |r| == |q.columns|
  {
    seq(|q.columns|, i requires 0 <= i < |q.columns| => Eval(g, q.columns[i], Visible(q.from), names, row))
  }

  function SelectRows(g: Engine, q: Query, src: Relation, rows: seq<seq<Value>>): (r: seq<seq<Value>>)
    requires forall x :: x in rows ==> |x| == |src.names|
    ensures forall x :: x in r ==> |x| == |q.columns|
  {
    if rows == [] then []
    else (if g.keeps(q, rows[0]) then [Project(g, q, src.names, rows[0])] else []) + SelectRows(g, q, src, rows[1..])
  }

  /** Column aliases rename the first columns, as many as there are aliases. */
  function Renamed(names: seq<string>, aliases: seq<string>): (r: seq<string>)
    ensures |r| == |names|
  {
    if |aliases| <= |names| then aliases + names[|aliases|..] else names
  }

  /** The CTEs in force: the last one of a name is the one seen. */
  type Scope = seq<(string, Relation)>

  ghost predicate ValidScope(scope: Scope) {
    forall i :: 0 <= i < |scope| ==> scope[i].1.Valid()
  }

  function Find(scope: Scope, name: string): (r: Option<Relation>)
    ensures ValidScope(scope) && r.Some? ==> r.value.Valid()
  {
    if scope == [] then None
    else if LowerAll(scope[|scope| - 1].0) == LowerAll(name) then Some(scope[|scope| - 1].1)
    else Find(scope[..|scope| - 1], name)
  }

  /** The scope with the first `n` CTEs of the query, each seeing those before it. */
  function CteScope(g: Engine, q: Query, scope: Scope, n: nat): (r: Scope)
    requires Typed(g) && ValidScope(scope) && n <= |q.ctes|
    ensures ValidScope(r)
    decreases q, 0, n
  {
    if n == 0 then scope
    else
      var before := CteScope(g, q, scope, n - 1);
      var rel := Result(g, q.ctes[n - 1].query, before);
      before + [(q.ctes[n - 1].name, Relation(Renamed(rel.names, q.ctes[n - 1].columns), rel.rows))]
  }

  /** A function or a qualified name is never a CTE, whatever it is called. */
  function TableRelation(g: Engine, f: From, scope: Scope): (r: Relation)
    requires Typed(g) && ValidScope(scope) && f.Table?
    ensures r.Valid()
  {
    if f.routine.Some? then g.other(f)
    else
      var cte := if f.schema.Some? then None else Find(scope, f.name);
      if cte.Some? then cte.value else g.table(f.name, f.schema)
  }

  function SourceRelation(g: Engine, q: Query, scope: Scope): (r: Relation)
    requires Typed(g) && ValidScope(scope)
    ensures r.Valid()
    decreases q, 1
  {
    if q.joins then g.joined(q)
    else
      var inner := CteScope(g, q, scope, |q.ctes|);
      match q.from
      case Derived(sub, _, _) => Result(g, sub, inner)
      case Table(_, _, _, aliases, _) =>
        var rel := TableRelation(g, q.from, inner);
        Relation(Renamed(rel.names, aliases), rel.rows)
      case OtherRelation(_) => g.other(q.from)
      case NoFrom => Relation([], [[]])
  }

  type Rows = seq<seq<Value>>

  /** Where the last operand of a chain begins: at its last arm, or at the last one that is no INTERSECT
      when that binds tighter; nowhere when all arms are INTERSECTs that do. */
  function LastOperand(tight: bool, arms: seq<(SetOp, Rows)>): (k: Option<nat>)
    ensures k.Some? ==> k.value < |arms|
    ensures tight && k.Some? ==> forall i :: k.value < i < |arms| ==> arms[i].0.Intersect?
    ensures !tight && arms != [] ==> k == Some(|arms| - 1)
    ensures arms != [] && !arms[|arms| - 1].0.Intersect? ==> k == Some(|arms| - 1)
  {
    if arms == [] then None
    else
      var n := |arms| - 1;
      if tight && arms[n].0.Intersect? then LastOperand(tight, arms[..n]) else Some(n)
  }

  /** The rows of a flat chain, from the left, with operands that are INTERSECTs where these come first. */
  function ChainRows(tight: bool, own: Rows, arms: seq<(SetOp, Rows)>, n: nat): Rows
    decreases |arms|
  {
    if arms == [] then own
    else
      var k := LastOperand(tight, arms);
      var last := |arms| - 1;
      if k.None? then Combined(Intersect, ChainRows(tight, own, arms[..last], n), arms[last].1, n)
      else
        var operand := ChainRows(tight, arms[k.value].1, arms[k.value + 1..], n);
        Combined(arms[k.value].0, ChainRows(tight, own, arms[..k.value], n), operand, n)
  }

  /** The relation a query returns. UNION adds the rows of the operand, by position; INTERSECT and
      EXCEPT keep some of those before it. How often a row occurs is not modelled. */
  function Result(g: Engine, q: Query, scope: Scope): (r: Relation)
    requires Typed(g) && ValidScope(scope)
    ensures r.Valid() && r.names == Names(q.columns)
    decreases q, 2
  {
    var src := SourceRelation(g, q, scope);
    var own := SelectRows(g, q, src, src.rows);
    var inner := CteScope(g, q, scope, |q.ctes|);
    var arms := seq(|q.arms|, i requires 0 <= i < |q.arms| => (q.arms[i].op, Result(g, q.arms[i].query, inner).rows));
    ChainFrom(g.intersectFirst, own, arms, |q.columns|);
    Relation(Names(q.columns), ChainRows(g.intersectFirst, own, arms, |q.columns|))
  }

  /** The arms of a query with their rows. */
  function ArmRows(g: Engine, q: Query, scope: Scope): (arms: seq<(SetOp, Rows)>)
    requires Typed(g) && ValidScope(scope)
    ensures |arms| == |q.arms|
  {
    var inner := CteScope(g, q, scope, |q.ctes|);
    seq(|q.arms|, i requires 0 <= i < |q.arms| => (q.arms[i].op, Result(g, q.arms[i].query, inner).rows))
  }

  function OwnRows(g: Engine, q: Query, scope: Scope): Rows
    requires Typed(g) && ValidScope(scope)
  {
    var src := SourceRelation(g, q, scope);
    SelectRows(g, q, src, src.rows)
  }

  lemma ResultIs(g: Engine, q: Query, scope: Scope)
    requires Typed(g) && ValidScope(scope)
    ensures Result(g, q, scope).rows
         == ChainRows(g.intersectFirst, OwnRows(g, q, scope), ArmRows(g, q, scope), |q.columns|)
  {
    hide Typed, SourceRelation, CteScope, SelectRows, ChainRows;
  }

  /** A row of the arm that the chain can return. */
  ghost predicate FromUnion(arms: seq<(SetOp, Rows)>, i: nat, x: seq<Value>, n: nat)
    requires i < |arms|
  {
    arms[i].0.Union? && x in arms[i].1 && |x| == n
  }

  ghost predicate Among(arms: seq<(SetOp, Rows)>, x: seq<Value>, n: nat) {
    exists i :: 0 <= i < |arms| && FromUnion(arms, i, x, n)
  }

  lemma AmongPart(arms: seq<(SetOp, Rows)>, a: nat, b: nat, x: seq<Value>, n: nat)
    requires a <= b <= |arms| && Among(arms[a..b], x, n)
    ensures Among(arms, x, n)
  {
    var i :| 0 <= i < b - a && FromUnion(arms[a..b], i, x, n);
    assert FromUnion(arms, a + i, x, n);
  }

  /** The rows of a chain are the first query's or those of a UNION arm, wherever it stands. */
  lemma {:induction false} ChainFrom(tight: bool, own: Rows, arms: seq<(SetOp, Rows)>, n: nat)
    ensures forall x :: x in ChainRows(tight, own, arms, n) ==> x in own || Among(arms, x, n)
    decreases |arms|
  {
    hide Combined, Among, LastOperand;
    if arms != [] {
      var k, last := LastOperand(tight, arms), |arms| - 1;
      var c := if k.None? then last else k.value;
      ChainFrom(tight, own, arms[..c], n);
      ChainFrom(tight, arms[c].1, arms[c + 1..], n);
      forall x | x in ChainRows(tight, own, arms, n) && x !in own ensures Among(arms, x, n) {
        assert arms[..c] == arms[0..c] && arms[c + 1..] == arms[c + 1..|arms|];
        if Among(arms[..c], x, n) {
          AmongPart(arms, 0, c, x, n);
        } else if Among(arms[c + 1..], x, n) {
          AmongPart(arms, c + 1, |arms|, x, n);
        } else {
          assert FromUnion(arms, c, x, n);
          AmongOne(arms, c, x, n);
        }
      }
    }
  }

  lemma AmongOne(arms: seq<(SetOp, Rows)>, i: nat, x: seq<Value>, n: nat)
    requires i < |arms| && FromUnion(arms, i, x, n)
    ensures Among(arms, x, n)
  {
  }

  function Combined(op: SetOp, left: Rows, right: Rows, n: nat): (r: Rows)
    ensures forall x :: x in r ==> x in left || (op.Union? && x in right && |x| == n)
  {
    match op
    case Union => left + WithLength(right, n)
    case Intersect => KeptRows(left, right, true)
    case Except => KeptRows(left, right, false)
  }

  function WithLength(rows: seq<seq<Value>>, n: nat): (r: seq<seq<Value>>)
    ensures forall x :: x in r <==> x in rows && |x| == n
  {
    if rows == [] then [] else (if |rows[0]| == n then [rows[0]] else []) + WithLength(rows[1..], n)
  }

  function KeptRows(own: seq<seq<Value>>, other: seq<seq<Value>>, both: bool): (r: seq<seq<Value>>)
    ensures forall x :: x in r ==> x in own
  {
    if own == [] then []
    else (if (own[0] in other) == both then [own[0]] else []) + KeptRows(own[1..], other, both)
  }

  /** Every row holds, in a column the environment knows, NULL or a value of its kind. */
  ghost predicate Sound(rel: Relation, env: Env)
    requires rel.Valid()
  {
    forall k, r :: 0 <= k < |rel.names| && r in rel.rows && LowerAll(rel.names[k]) in env ==>
      Fits(r[k], env[LowerAll(rel.names[k])])
  }

  // ----- a reference typing -----

  /** What every engine guarantees of a column's values, NULL aside. */
  datatype Guarantee = OnlyNull | Always(kind: Kind) | Unknown

  predicate Allows(p: Guarantee, k: Kind) {
    p.OnlyNull? || p == Always(k)
  }

  function Either(p: Guarantee, r: Guarantee): Guarantee {
    if p.OnlyNull? then r else if r.OnlyNull? || p == r then p else Unknown
  }

  /** A relation the engine supplies, or one whose columns are known. */
  datatype Shape = Opaque | Columns(names: seq<string>, kinds: seq<Guarantee>)

  predicate Proper(s: Shape) {
    s.Columns? ==> |s.names| == |s.kinds|
  }

  function RefKind(s: Shape, name: string): Guarantee
    requires Proper(s)
  {
    if s.Columns? && NameIndex(s.names, name) < |s.names| then s.kinds[NameIndex(s.names, name)] else Unknown
  }

  function ExprGuarantee(e: Expr, at: Option<string>, s: Shape): Guarantee
    requires Proper(s)
  {
    match e
    case ColumnRef(name, table, _) => if Local(table, at) then RefKind(s, name) else Unknown
    case Alias(x, _) => ExprGuarantee(x, at, s)
    case Cast(_, t) => if TypeKind(t).Some? then Always(TypeKind(t).value) else Unknown
    case Function(n, _) => if UpperAll(n) == "DATE_STR_TO_DATE" then Always(DATE) else Unknown
    case NullLiteral => OnlyNull
    case _ => Unknown
  }

  type Shapes = seq<(string, Shape)>

  predicate ProperShapes(ss: Shapes) {
    forall i :: 0 <= i < |ss| ==> Proper(ss[i].1)
  }

  function FindShape(ss: Shapes, name: string): (s: Shape)
    ensures ProperShapes(ss) ==> Proper(s)
  {
    if ss == [] then Opaque
    else if LowerAll(ss[|ss| - 1].0) == LowerAll(name) then ss[|ss| - 1].1
    else FindShape(ss[..|ss| - 1], name)
  }

  function RenamedShape(s: Shape, aliases: seq<string>): (r: Shape)
    ensures Proper(s) ==> Proper(r)
  {
    if s.Columns? then Columns(Renamed(s.names, aliases), s.kinds) else s
  }

  function CteShapes(q: Query, ss: Shapes, n: nat): (r: Shapes)
    requires ProperShapes(ss) && n <= |q.ctes|
    ensures ProperShapes(r)
    decreases q, 0, n
  {
    if n == 0 then ss
    else
      var before := CteShapes(q, ss, n - 1);
      before + [(q.ctes[n - 1].name, RenamedShape(ShapeOf(q.ctes[n - 1].query, before), q.ctes[n - 1].columns))]
  }

  function SourceShape(q: Query, ss: Shapes): (s: Shape)
    requires ProperShapes(ss)
    ensures Proper(s)
    decreases q, 1
  {
    if q.joins then Opaque
    else
      var inner := CteShapes(q, ss, |q.ctes|);
      match q.from
      case Derived(sub, _, _) => ShapeOf(sub, inner)
      case Table(name, schema, _, aliases, routine) =>
        if schema.Some? || routine.Some? then Opaque else RenamedShape(FindShape(inner, name), aliases)
      case OtherRelation(_) => Opaque
      case NoFrom => Columns([], [])
  }

  function OwnKinds(q: Query, s: Shape): (r: seq<Guarantee>)
    requires Proper(s)
    ensures |r| == |q.columns|
  {
    seq(|q.columns|, i requires 0 <= i < |q.columns| => ExprGuarantee(q.columns[i], Visible(q.from), s))
  }

  /** UNION joins the guarantees of its arms by position. */
  function Joined(own: seq<Guarantee>, other: seq<Guarantee>): (r: seq<Guarantee>)
    ensures |r| == |own|
  {
    if |own| == |other| then seq(|own|, i requires 0 <= i < |own| => Either(own[i], other[i])) else own
  }

  /** The guarantees of a chain: those of its first query joined with those of each UNION arm. */
  function JoinedAll(own: seq<Guarantee>, arms: seq<(SetOp, seq<Guarantee>)>): (r: seq<Guarantee>)
    ensures |r| == |own|
  {
    if arms == [] then own
    else
      var before := JoinedAll(own, arms[..|arms| - 1]);
      if arms[|arms| - 1].0.Union? then Joined(before, arms[|arms| - 1].1) else before
  }

  function ShapeOf(q: Query, ss: Shapes): (s: Shape)
    requires ProperShapes(ss)
    ensures s.Columns? && Proper(s) && s.names == Names(q.columns)
    decreases q, 2
  {
    var inner := CteShapes(q, ss, |q.ctes|);
    var arms := seq(|q.arms|, i requires 0 <= i < |q.arms| => (q.arms[i].op, ShapeOf(q.arms[i].query, inner).kinds));
    Columns(Names(q.columns), JoinedAll(OwnKinds(q, SourceShape(q, ss)), arms))
  }

  /** The arms of a query with their guarantees. */
  function ArmKinds(q: Query, ss: Shapes): (arms: seq<(SetOp, seq<Guarantee>)>)
    requires ProperShapes(ss)
    ensures |arms| == |q.arms|
  {
    var inner := CteShapes(q, ss, |q.ctes|);
    seq(|q.arms|, i requires 0 <= i < |q.arms| => (q.arms[i].op, ShapeOf(q.arms[i].query, inner).kinds))
  }

  lemma ShapeIs(q: Query, ss: Shapes)
    requires ProperShapes(ss)
    ensures ShapeOf(q, ss) == Columns(Names(q.columns), JoinedAll(OwnKinds(q, SourceShape(q, ss)), ArmKinds(q, ss)))
  {
    hide OwnKinds, SourceShape, CteShapes, JoinedAll;
  }

  // ----- the typing holds on every engine -----

  predicate Meets(v: Value, p: Guarantee) {
    match p
    case OnlyNull => v.Null?
    case Always(k) => Fits(v, k)
    case Unknown => true
  }

  lemma MeetsAllows(v: Value, p: Guarantee, k: Kind)
    requires Meets(v, p) && Allows(p, k)
    ensures Fits(v, k)
  {
  }

  lemma MeetsEither(v: Value, p: Guarantee, r: Guarantee)
    requires Meets(v, p) || Meets(v, r)
    ensures Meets(v, Either(p, r))
  {
  }

  ghost predicate FitsShape(rel: Relation, s: Shape)
    requires rel.Valid() && Proper(s)
  {
    s.Columns? ==>
      && rel.names == s.names
      && forall r, k :: r in rel.rows && 0 <= k < |s.names| ==> Meets(r[k], s.kinds[k])
  }

  /** The last relations of the scope are those the shapes describe. */
  ghost predicate FitsScope(scope: Scope, ss: Shapes)
    requires ValidScope(scope) && ProperShapes(ss)
  {
    && |ss| <= |scope|
    && forall i :: 0 <= i < |ss| ==>
      scope[|scope| - |ss| + i].0 == ss[i].0 && FitsShape(scope[|scope| - |ss| + i].1, ss[i].1)
  }

  lemma {:induction false} FindFits(scope: Scope, ss: Shapes, name: string)
    requires ValidScope(scope) && ProperShapes(ss) && FitsScope(scope, ss)
    ensures var r := Find(scope, name);
      if r.Some? then FitsShape(r.value, FindShape(ss, name)) else FindShape(ss, name) == Opaque
  {
    hide FitsShape;
    if ss != [] {
      var n := |scope|;
      assert scope[n - 1].0 == ss[|ss| - 1].0 && FitsShape(scope[n - 1].1, ss[|ss| - 1].1);
      FindFits(scope[..n - 1], ss[..|ss| - 1], name);
    } else if Find(scope, name).Some? {
      OpaqueFits(Find(scope, name).value);
    }
  }

  lemma OpaqueFits(rel: Relation)
    requires rel.Valid()
    ensures FitsShape(rel, Opaque)
  {
  }

  lemma RenamedFits(rel: Relation, s: Shape, aliases: seq<string>)
    requires rel.Valid() && Proper(s) && FitsShape(rel, s)
    ensures FitsShape(Relation(Renamed(rel.names, aliases), rel.rows), RenamedShape(s, aliases))
  {
  }

  lemma {:induction false} ExprMeets(g: Engine, e: Expr, at: Option<string>, rel: Relation, s: Shape, row: seq<Value>)
    requires Typed(g) && rel.Valid() && Proper(s) && FitsShape(rel, s) && row in rel.rows
    ensures Meets(Eval(g, e, at, rel.names, row), ExprGuarantee(e, at, s))
  {
    hide TypeKind, UpperAll, LowerAll;
    if e.Alias? {
      ExprMeets(g, e.expr, at, rel, s, row);
    }
  }

  lemma {:induction false} SelectedFrom(g: Engine, q: Query, src: Relation, rows: seq<seq<Value>>, r: seq<Value>)
    requires forall x :: x in rows ==> |x| == |src.names|
    requires r in SelectRows(g, q, src, rows)
    ensures exists x :: x in rows && r == Project(g, q, src.names, x)
  {
    hide Project;
    if r in SelectRows(g, q, src, rows[1..]) {
      SelectedFrom(g, q, src, rows[1..], r);
    } else {
      assert rows[0] in rows;
    }
  }

  lemma OwnMeets(g: Engine, q: Query, src: Relation, s: Shape, r: seq<Value>, k: nat)
    requires Typed(g) && src.Valid() && Proper(s) && FitsShape(src, s)
    requires r in SelectRows(g, q, src, src.rows) && k < |q.columns|
    ensures Meets(r[k], OwnKinds(q, s)[k])
  {
    hide Typed, FitsShape, SelectRows, ExprGuarantee, Eval, Meets;
    SelectedFrom(g, q, src, src.rows, r);
    var x :| x in src.rows && r == Project(g, q, src.names, x);
    ExprMeets(g, q.columns[k], Visible(q.from), src, s, x);
  }

  lemma ScopeGrows(scope: Scope, ss: Shapes, name: string, rel: Relation, s: Shape)
    requires ValidScope(scope) && ProperShapes(ss) && FitsScope(scope, ss)
    requires rel.Valid() && Proper(s) && FitsShape(rel, s)
    ensures FitsScope(scope + [(name, rel)], ss + [(name, s)])
  {
    hide FitsShape;
  }

  lemma {:induction false} CteFits(g: Engine, q: Query, scope: Scope, ss: Shapes, n: nat)
    requires Typed(g) && ValidScope(scope) && ProperShapes(ss) && FitsScope(scope, ss) && n <= |q.ctes|
    ensures FitsScope(CteScope(g, q, scope, n), CteShapes(q, ss, n))
    decreases q, 0, n
  {
    hide Typed, FitsShape, FitsScope, Result, ShapeOf, Renamed, RenamedShape, CteScope, CteShapes;
    if n == 0 {
      NoCtes(g, q, scope, ss);
    } else {
      var before, shapes := CteScope(g, q, scope, n - 1), CteShapes(q, ss, n - 1);
      var c := q.ctes[n - 1];
      CteFits(g, q, scope, ss, n - 1);
      ShapeFits(g, c.query, before, shapes);
      var rel, s := Result(g, c.query, before), ShapeOf(c.query, shapes);
      RenamedFits(rel, s, c.columns);
      CteScopeStep(g, q, scope, ss, n);
      ScopeGrows(before, shapes, c.name, Relation(Renamed(rel.names, c.columns), rel.rows), RenamedShape(s, c.columns));
    }
  }

  lemma NoCtes(g: Engine, q: Query, scope: Scope, ss: Shapes)
    requires Typed(g) && ValidScope(scope) && ProperShapes(ss)
    ensures CteScope(g, q, scope, 0) == scope && CteShapes(q, ss, 0) == ss
  {
  }

  lemma CteScopeStep(g: Engine, q: Query, scope: Scope, ss: Shapes, n: nat)
    requires Typed(g) && ValidScope(scope) && ProperShapes(ss) && 0 < n <= |q.ctes|
    ensures var c := q.ctes[n - 1]; var before := CteScope(g, q, scope, n - 1); var rel := Result(g, c.query, before);
      CteScope(g, q, scope, n) == before + [(c.name, Relation(Renamed(rel.names, c.columns), rel.rows))]
    ensures var c := q.ctes[n - 1]; var before := CteShapes(q, ss, n - 1);
      CteShapes(q, ss, n) == before + [(c.name, RenamedShape(ShapeOf(c.query, before), c.columns))]
  {
    hide Typed, Result, ShapeOf, Renamed;
  }

  lemma {:induction false} SourceFits(g: Engine, q: Query, scope: Scope, ss: Shapes)
    requires Typed(g) && ValidScope(scope) && ProperShapes(ss) && FitsScope(scope, ss)
    ensures FitsShape(SourceRelation(g, q, scope), SourceShape(q, ss))
    decreases q, 1
  {
    hide Typed, FitsShape, FitsScope, Result, ShapeOf, CteScope, CteShapes, Find, FindShape, Renamed, RenamedShape;
    EngineRelations(g, q);
    if q.joins {
      OpaqueFits(g.joined(q));
    } else {
      CteFits(g, q, scope, ss, |q.ctes|);
      var inner, shapes := CteScope(g, q, scope, |q.ctes|), CteShapes(q, ss, |q.ctes|);
      match q.from
      case Derived(sub, _, _) => ShapeFits(g, sub, inner, shapes);
      case Table(name, schema, _, aliases, routine) =>
        var rel := TableRelation(g, q.from, inner);
        OpaqueFits(rel);
        OpaqueFits(Relation(Renamed(rel.names, aliases), rel.rows));
        FindFits(inner, shapes, name);
        RenamedFits(rel, if schema.Some? || routine.Some? then Opaque else FindShape(shapes, name), aliases);
      case OtherRelation(_) => OpaqueFits(g.other(q.from));
      case NoFrom => EmptyFits();
    }
  }

  lemma EmptyFits()
    ensures FitsShape(Relation([], [[]]), Columns([], []))
  {
  }

  /** Every engine keeps the guarantees, in every scope that keeps those of its CTEs. */
  lemma {:induction false} ShapeFits(g: Engine, q: Query, scope: Scope, ss: Shapes)
    requires Typed(g) && ValidScope(scope) && ProperShapes(ss) && FitsScope(scope, ss)
    ensures FitsShape(Result(g, q, scope), ShapeOf(q, ss))
    decreases q, 2
  {
    hide Typed, SourceRelation, SourceShape, CteScope, CteShapes, SelectRows, OwnKinds, FitsScope, ShapeOf, Result;
    hide Meets, ChainRows, JoinedAll, OwnRows, ArmRows, ArmKinds, FitsShape;
    SourceFits(g, q, scope, ss);
    CteFits(g, q, scope, ss, |q.ctes|);
    forall i | 0 <= i < |q.arms| ensures ArmFits(g, q, scope, ss, i) {
      ShapeFits(g, q.arms[i].query, CteScope(g, q, scope, |q.ctes|), CteShapes(q, ss, |q.ctes|));
    }
    forall r, k | r in Result(g, q, scope).rows && 0 <= k < |q.columns| ensures Meets(r[k], ShapeOf(q, ss).kinds[k]) {
      KindMeets(g, q, scope, ss, r, k);
    }
    MeetsIsFit(Result(g, q, scope), ShapeOf(q, ss));
  }

  lemma MeetsIsFit(rel: Relation, s: Shape)
    requires rel.Valid() && Proper(s) && s.Columns? && rel.names == s.names
    requires forall r, k :: r in rel.rows && 0 <= k < |s.names| ==> Meets(r[k], s.kinds[k])
    ensures FitsShape(rel, s)
  {
    hide Meets;
  }

  ghost predicate ArmFits(g: Engine, q: Query, scope: Scope, ss: Shapes, i: nat)
    requires Typed(g) && ValidScope(scope) && ProperShapes(ss) && i < |q.arms|
  {
    FitsShape(Result(g, q.arms[i].query, CteScope(g, q, scope, |q.ctes|)),
      ShapeOf(q.arms[i].query, CteShapes(q, ss, |q.ctes|)))
  }

  lemma KindMeets(g: Engine, q: Query, scope: Scope, ss: Shapes, r: seq<Value>, k: nat)
    requires Typed(g) && ValidScope(scope) && ProperShapes(ss) && r in Result(g, q, scope).rows && k < |q.columns|
    requires FitsShape(SourceRelation(g, q, scope), SourceShape(q, ss))
    requires forall i :: 0 <= i < |q.arms| ==> ArmFits(g, q, scope, ss, i)
    ensures Meets(r[k], ShapeOf(q, ss).kinds[k])
  {
    hide Typed, SourceRelation, SourceShape, CteScope, CteShapes, SelectRows, OwnKinds, Meets, ChainRows, JoinedAll;
    hide ShapeOf, Result, FitsShape, ArmFits;
    var own, arms := OwnRows(g, q, scope), ArmRows(g, q, scope);
    ResultIs(g, q, scope);
    ShapeIs(q, ss);
    ChainFrom(g.intersectFirst, own, arms, |q.columns|);
    var kinds := OwnKinds(q, SourceShape(q, ss));
    if r in own {
      OwnMeets(g, q, SourceRelation(g, q, scope), SourceShape(q, ss), r, k);
      OwnJoined(r[k], kinds, ArmKinds(q, ss), k);
    } else {
      var i :| 0 <= i < |arms| && FromUnion(arms, i, r, |q.columns|);
      ArmMeets(g, q, scope, ss, i, r, k);
      ArmJoined(r[k], kinds, ArmKinds(q, ss), i, k);
    }
  }

  lemma ArmMeets(g: Engine, q: Query, scope: Scope, ss: Shapes, i: nat, r: seq<Value>, k: nat)
    requires Typed(g) && ValidScope(scope) && ProperShapes(ss) && i < |q.arms| && ArmFits(g, q, scope, ss, i)
    requires FromUnion(ArmRows(g, q, scope), i, r, |q.columns|) && k < |q.columns|
    ensures var arm := ArmKinds(q, ss)[i]; arm.0.Union? && |arm.1| == |q.columns| && Meets(r[k], arm.1[k])
  {
    hide Typed, CteScope, CteShapes, Meets, ShapeOf, Result;
  }

  lemma {:induction false} OwnJoined(v: Value, own: seq<Guarantee>, arms: seq<(SetOp, seq<Guarantee>)>, k: nat)
    requires k < |own| && Meets(v, own[k])
    ensures Meets(v, JoinedAll(own, arms)[k])
  {
    hide Meets, Either;
    if arms != [] {
      var n := |arms| - 1;
      OwnJoined(v, own, arms[..n], k);
      if |own| == |arms[n].1| {
        MeetsEither(v, JoinedAll(own, arms[..n])[k], arms[n].1[k]);
      }
    }
  }

  lemma {:induction false} ArmJoined(v: Value, own: seq<Guarantee>, arms: seq<(SetOp, seq<Guarantee>)>, i: nat, k: nat)
    requires i < |arms| && arms[i].0.Union? && |arms[i].1| == |own| && k < |own| && Meets(v, arms[i].1[k])
    ensures Meets(v, JoinedAll(own, arms)[k])
  {
    hide Meets, Either;
    var n := |arms| - 1;
    if i < n {
      ArmJoined(v, own, arms[..n], i, k);
    }
    if |own| == |arms[n].1| {
      MeetsEither(v, JoinedAll(own, arms[..n])[k], arms[n].1[k]);
    }
  }

  // ----- and nothing stronger does -----

  /** The engine that guarantees no more than it must: every value it is free to choose is of no
      temporal kind, and no row is filtered out. Its base relations have the columns `ns`. */
  function Worst(ns: seq<string>): Engine {
    var rel := Relation(ns, [Others(|ns|)]);
    Engine(
      (_, _) => rel,
      _ => rel,
      _ => rel,
      (_, _) => true,
      (n, _) => if UpperAll(n) == "DATE_STR_TO_DATE" then DateValue(0) else OtherValue(1),
      (t, _) => KindValue(TypeKind(t)),
      (_, _) => OtherValue(1),
      (_, _) => OtherValue(1),
      (_, _) => OtherValue(1),
      true)
  }

  function Others(n: nat): seq<Value> {
    seq(n, _ => OtherValue(1))
  }

  function KindValue(k: Option<Kind>): Value {
    if k.None? then OtherValue(1) else if k.value.DATE? then DateValue(0) else TimestampValue(0)
  }

  /** What is asked of such an engine. */
  ghost predicate Adverse(g: Engine) {
    && Typed(g)
    && (forall n, s :: Exact(g.table(n, s), Opaque))
    && (forall q :: Exact(g.joined(q), Opaque))
    && (forall f :: Exact(g.other(f), Opaque))
    && (forall q, x :: g.keeps(q, x))
    && (forall t, v :: g.cast(t, v) == KindValue(TypeKind(t)))
    && (forall n, vs :: g.call(n, vs) == if UpperAll(n) == "DATE_STR_TO_DATE" then DateValue(0) else OtherValue(1))
    && (forall n, vs :: g.op(n, vs) == OtherValue(1))
    && (forall q, x :: g.scalar(q, x) == OtherValue(1))
    && (forall a, n :: g.outer(a, n) == OtherValue(1))
  }

  lemma WorstIsAdverse(ns: seq<string>)
    ensures Adverse(Worst(ns))
  {
    hide TypeKind, UpperAll;
    assert Exact(Relation(ns, [Others(|ns|)]), Opaque);
  }

  /** Every kind a column does not allow is refuted by some row. */
  ghost predicate Exact(rel: Relation, s: Shape)
    requires rel.Valid() && Proper(s)
  {
    && rel.rows != []
    && (s.Opaque? ==> forall r, k :: r in rel.rows && 0 <= k < |r| ==> r[k] == OtherValue(1))
    && (s.Columns? ==> rel.names == s.names && forall k, t :: 0 <= k < |s.names| && !Allows(s.kinds[k], t) ==>
      Refuted(rel, k, t))
  }

  ghost predicate Refuted(rel: Relation, k: nat, t: Kind)
    requires rel.Valid() && k < |rel.names|
  {
    exists r :: r in rel.rows && !Fits(r[k], t)
  }

  ghost predicate ExactScope(scope: Scope, ss: Shapes)
    requires ValidScope(scope) && ProperShapes(ss)
  {
    |scope| == |ss| && forall i :: 0 <= i < |ss| ==> scope[i].0 == ss[i].0 && Exact(scope[i].1, ss[i].1)
  }

  lemma ExactLast(scope: Scope, ss: Shapes)
    requires ValidScope(scope) && ProperShapes(ss) && ExactScope(scope, ss)
    ensures |scope| == |ss|
    ensures var n := |ss| - 1; ss != [] ==> scope[n].0 == ss[n].0 && Exact(scope[n].1, ss[n].1)
    ensures var n := |ss| - 1; ss != [] ==> ExactScope(scope[..n], ss[..n])
  {
    hide Exact;
  }

  lemma {:induction false} FindExact(scope: Scope, ss: Shapes, name: string)
    requires ValidScope(scope) && ProperShapes(ss) && ExactScope(scope, ss)
    ensures var r := Find(scope, name);
      if r.Some? then Exact(r.value, FindShape(ss, name)) else FindShape(ss, name) == Opaque
  {
    hide Exact, LowerAll, ExactScope;
    ExactLast(scope, ss);
    if ss != [] {
      FindExact(scope[..|ss| - 1], ss[..|ss| - 1], name);
    }
  }

  lemma RenamedExact(rel: Relation, s: Shape, aliases: seq<string>)
    requires rel.Valid() && Proper(s) && Exact(rel, s)
    ensures Exact(Relation(Renamed(rel.names, aliases), rel.rows), RenamedShape(s, aliases))
  {
    hide Allows, Fits;
    var now := Relation(Renamed(rel.names, aliases), rel.rows);
    if s.Columns? {
      forall k, t | 0 <= k < |s.names| && !Allows(s.kinds[k], t) ensures Refuted(now, k, t) {
        assert Refuted(rel, k, t);
      }
    }
  }

  lemma AliasOf(g: Engine, e: Expr, at: Option<string>, rel: Relation, s: Shape)
    requires rel.Valid() && Proper(s) && e.Alias? && Exact(rel, s)
    ensures rel.rows != [] && ExprGuarantee(e, at, s) == ExprGuarantee(e.expr, at, s)
    ensures forall z :: z in rel.rows ==> Eval(g, e, at, rel.names, z) == Eval(g, e.expr, at, rel.names, z)
  {
  }

  /** What is neither an alias nor a column of the relation has a value that shows it. */
  lemma OtherRefuted(g: Engine, e: Expr, at: Option<string>, rel: Relation, s: Shape, t: Kind)
    requires Adverse(g) && rel.Valid() && Proper(s) && Exact(rel, s) && !Allows(ExprGuarantee(e, at, s), t)
    requires !e.Alias? && !(e.ColumnRef? && Local(e.table, at) && NameIndex(rel.names, e.name) < |rel.names|)
    ensures rel.rows != [] && rel.rows[0] in rel.rows && !Fits(Eval(g, e, at, rel.names, rel.rows[0]), t)
  {
    hide TypeKind, UpperAll, LowerAll, Typed;
  }

  lemma {:induction false} ExprRefuted(g: Engine, e: Expr, at: Option<string>, rel: Relation, s: Shape, t: Kind)
    requires Adverse(g) && rel.Valid() && Proper(s) && Exact(rel, s) && !Allows(ExprGuarantee(e, at, s), t)
    ensures exists x :: x in rel.rows && !Fits(Eval(g, e, at, rel.names, x), t)
  {
    hide Adverse, Exact, Allows, ExprGuarantee, Eval, NameIndex;
    if e.Alias? {
      AliasOf(g, e, at, rel, s);
      ExprRefuted(g, e.expr, at, rel, s, t);
      var z :| z in rel.rows && !Fits(Eval(g, e.expr, at, rel.names, z), t);
      assert Eval(g, e, at, rel.names, z) == Eval(g, e.expr, at, rel.names, z);
    } else if e.ColumnRef? && Local(e.table, at) && NameIndex(rel.names, e.name) < |rel.names| {
      RefRefuted(g, e, at, rel, s, t);
    } else {
      OtherRefuted(g, e, at, rel, s, t);
    }
  }

  lemma RefRefuted(g: Engine, e: Expr, at: Option<string>, rel: Relation, s: Shape, t: Kind)
    requires rel.Valid() && Proper(s) && Exact(rel, s) && !Allows(ExprGuarantee(e, at, s), t)
    requires e.ColumnRef? && Local(e.table, at) && NameIndex(rel.names, e.name) < |rel.names|
    ensures exists x :: x in rel.rows && !Fits(Eval(g, e, at, rel.names, x), t)
  {
    hide LowerAll, Allows;
    var k := NameIndex(rel.names, e.name);
    if s.Columns? {
      assert Refuted(rel, k, t);
      var x :| x in rel.rows && !Fits(x[k], t);
      assert Eval(g, e, at, rel.names, x) == x[k];
    } else {
      var x := rel.rows[0];
      assert x in rel.rows && x[k] == OtherValue(1);
      assert Eval(g, e, at, rel.names, x) == x[k];
    }
  }

  lemma {:induction false} AllSelected(g: Engine, q: Query, src: Relation, rows: seq<seq<Value>>, x: seq<Value>)
    requires forall y :: y in rows ==> |y| == |src.names|
    requires x in rows && forall p, y :: g.keeps(p, y)
    ensures Project(g, q, src.names, x) in SelectRows(g, q, src, rows)
  {
    hide Project;
    if x != rows[0] {
      AllSelected(g, q, src, rows[1..], x);
    }
  }

  lemma KeepsAll(g: Engine)
    requires Adverse(g)
    ensures Typed(g) && forall q, x :: g.keeps(q, x)
  {
    hide Typed;
  }

  lemma OwnRefuted(g: Engine, q: Query, src: Relation, s: Shape, k: nat, t: Kind)
    requires Adverse(g) && src.Valid() && Proper(s) && Exact(src, s) && k < |q.columns| && !Allows(OwnKinds(q, s)[k], t)
    ensures exists r :: r in SelectRows(g, q, src, src.rows) && !Fits(r[k], t)
  {
    hide Exact, ExprGuarantee, Eval, Allows, Fits, SelectRows, Adverse;
    ExprRefuted(g, q.columns[k], Visible(q.from), src, s, t);
    var x :| x in src.rows && !Fits(Eval(g, q.columns[k], Visible(q.from), src.names, x), t);
    KeepsAll(g);
    AllSelected(g, q, src, src.rows, x);
    assert Project(g, q, src.names, x)[k] == Eval(g, q.columns[k], Visible(q.from), src.names, x);
  }

  /** All set operations of the query, nested ones too, are UNIONs. */
  predicate OnlyUnions(q: Query) {
    && (forall i :: 0 <= i < |q.arms| ==> q.arms[i].op.Union? && OnlyUnions(q.arms[i].query))
    && (q.from.Derived? ==> OnlyUnions(q.from.query))
    && (forall i :: 0 <= i < |q.ctes| ==> OnlyUnions(q.ctes[i].query))
  }

  lemma ExactGrows(scope: Scope, ss: Shapes, name: string, rel: Relation, s: Shape)
    requires ValidScope(scope) && ProperShapes(ss) && ExactScope(scope, ss)
    requires rel.Valid() && Proper(s) && Exact(rel, s)
    ensures ExactScope(scope + [(name, rel)], ss + [(name, s)])
  {
    hide Exact;
  }

  lemma {:induction false} CteExact(g: Engine, q: Query, scope: Scope, ss: Shapes, n: nat)
    requires Typed(g) && Adverse(g) && ValidScope(scope) && ProperShapes(ss) && ExactScope(scope, ss)
    requires n <= |q.ctes| && forall i :: 0 <= i < |q.ctes| ==> OnlyUnions(q.ctes[i].query)
    ensures ExactScope(CteScope(g, q, scope, n), CteShapes(q, ss, n))
    decreases q, 0, n
  {
    hide Typed, Adverse, Exact, ExactScope, Result, ShapeOf, Renamed, RenamedShape, CteScope, CteShapes;
    if n == 0 {
      NoCtes(g, q, scope, ss);
    } else {
      var before, shapes := CteScope(g, q, scope, n - 1), CteShapes(q, ss, n - 1);
      var c := q.ctes[n - 1];
      CteExact(g, q, scope, ss, n - 1);
      ShapeExact(g, c.query, before, shapes);
      var rel, s := Result(g, c.query, before), ShapeOf(c.query, shapes);
      RenamedExact(rel, s, c.columns);
      CteScopeStep(g, q, scope, ss, n);
      ExactGrows(before, shapes, c.name, Relation(Renamed(rel.names, c.columns), rel.rows), RenamedShape(s, c.columns));
    }
  }

  lemma NoColumnsExact()
    ensures Exact(Relation([], [[]]), Columns([], []))
  {
  }

  lemma AdverseRelations(g: Engine, q: Query, name: string, schema: Option<string>)
    requires Adverse(g)
    ensures Typed(g) && g.joined(q).Valid() && g.other(q.from).Valid() && g.table(name, schema).Valid()
    ensures Exact(g.joined(q), Opaque) && Exact(g.other(q.from), Opaque) && Exact(g.table(name, schema), Opaque)
  {
    hide Exact;
  }

  lemma EngineRelations(g: Engine, q: Query)
    requires Typed(g)
    ensures g.joined(q).Valid() && g.other(q.from).Valid()
  {
  }

  lemma {:induction false} SourceExact(g: Engine, q: Query, scope: Scope, ss: Shapes)
    requires Typed(g) && Adverse(g) && ValidScope(scope) && ProperShapes(ss) && ExactScope(scope, ss) && OnlyUnions(q)
    ensures Exact(SourceRelation(g, q, scope), SourceShape(q, ss))
    decreases q, 1
  {
    hide Typed, Adverse, Exact, ExactScope, Result, ShapeOf, CteScope, CteShapes, Find, FindShape, Renamed,
      RenamedShape;
    AdverseRelations(g, q, "", None);
    NoColumnsExact();
    if !q.joins {
      CteExact(g, q, scope, ss, |q.ctes|);
      var inner, shapes := CteScope(g, q, scope, |q.ctes|), CteShapes(q, ss, |q.ctes|);
      match q.from
      case Derived(sub, _, _) => ShapeExact(g, sub, inner, shapes);
      case Table(name, schema, _, aliases, routine) =>
        var rel := TableRelation(g, q.from, inner);
        AdverseRelations(g, q, name, schema);
        FindExact(inner, shapes, name);
        var s := if schema.Some? || routine.Some? then Opaque else FindShape(shapes, name);
        RenamedExact(rel, s, aliases);
        assert schema.Some? || routine.Some? ==> RenamedShape(s, aliases) == Opaque by { OpaqueRenamed(aliases); }
      case OtherRelation(_) =>
      case NoFrom =>
    }
  }

  lemma OpaqueRenamed(aliases: seq<string>)
    ensures RenamedShape(Opaque, aliases) == Opaque
  {
  }

  /** On that engine every column takes a value outside each kind its guarantee does not allow. */
  lemma {:induction false} ShapeExact(g: Engine, q: Query, scope: Scope, ss: Shapes)
    requires Typed(g) && Adverse(g) && ValidScope(scope) && ProperShapes(ss) && ExactScope(scope, ss) && OnlyUnions(q)
    ensures Exact(Result(g, q, scope), ShapeOf(q, ss))
    decreases q, 2
  {
    hide Typed, Adverse, SourceRelation, SourceShape, CteScope, CteShapes, SelectRows, OwnKinds, ExactScope, Allows;
    hide Fits, Exact, Result, ShapeOf;
    SourceExact(g, q, scope, ss);
    CteExact(g, q, scope, ss, |q.ctes|);
    forall i | 0 <= i < |q.arms| ensures ArmExact(g, q, scope, ss, i) {
      ShapeExact(g, q.arms[i].query, CteScope(g, q, scope, |q.ctes|), CteShapes(q, ss, |q.ctes|));
    }
    var out, s := Result(g, q, scope), ShapeOf(q, ss);
    SomeRow(g, q, scope, ss);
    forall k, t | 0 <= k < |q.columns| && !Allows(s.kinds[k], t) ensures Refuted(out, k, t) {
      ColumnRefuted(g, q, scope, ss, k, t);
    }
    RefutedIsExact(out, s);
  }

  lemma RefutedIsExact(rel: Relation, s: Shape)
    requires rel.Valid() && Proper(s) && s.Columns? && rel.names == s.names && rel.rows != []
    requires forall k, t :: 0 <= k < |s.names| && !Allows(s.kinds[k], t) ==> Refuted(rel, k, t)
    ensures Exact(rel, s)
  {
    hide Refuted, Allows;
  }

  ghost predicate ArmExact(g: Engine, q: Query, scope: Scope, ss: Shapes, i: nat)
    requires Typed(g) && ValidScope(scope) && ProperShapes(ss) && i < |q.arms|
  {
    Exact(Result(g, q.arms[i].query, CteScope(g, q, scope, |q.ctes|)),
      ShapeOf(q.arms[i].query, CteShapes(q, ss, |q.ctes|)))
  }

  /** UNION returns the rows of all arms. */
  lemma {:induction false} ChainHas(tight: bool, own: Rows, arms: seq<(SetOp, Rows)>, n: nat, x: seq<Value>)
    requires forall i :: 0 <= i < |arms| ==> arms[i].0.Union?
    requires x in own || exists i :: 0 <= i < |arms| && FromUnion(arms, i, x, n)
    ensures x in ChainRows(tight, own, arms, n)
    decreases |arms|
  {
    if arms != [] {
      var last := |arms| - 1;
      assert LastOperand(tight, arms) == Some(last) && arms[last + 1..] == [];
      if x in own {
        ChainHas(tight, own, arms[..last], n, x);
      } else {
        var i :| 0 <= i < |arms| && FromUnion(arms, i, x, n);
        if i < last {
          assert FromUnion(arms[..last], i, x, n);
          ChainHas(tight, own, arms[..last], n, x);
        }
      }
      assert ChainRows(tight, arms[last].1, [], n) == arms[last].1;
    }
  }

  lemma UnionArms(g: Engine, q: Query, scope: Scope)
    requires Typed(g) && ValidScope(scope) && OnlyUnions(q)
    ensures forall i :: 0 <= i < |q.arms| ==> ArmRows(g, q, scope)[i].0.Union? && q.arms[i].op.Union?
  {
    hide Typed, CteScope, Result;
  }

  lemma SomeRow(g: Engine, q: Query, scope: Scope, ss: Shapes)
    requires Typed(g) && Adverse(g) && ValidScope(scope) && ProperShapes(ss) && OnlyUnions(q)
    requires Exact(SourceRelation(g, q, scope), SourceShape(q, ss))
    ensures Result(g, q, scope).rows != []
  {
    hide Typed, Adverse, SourceRelation, SourceShape, CteScope, SelectRows, Project, Result, OnlyUnions, ChainRows;
    hide ArmRows;
    var src := SourceRelation(g, q, scope);
    KeepsAll(g);
    AllSelected(g, q, src, src.rows, src.rows[0]);
    UnionArms(g, q, scope);
    ResultIs(g, q, scope);
    var first := Project(g, q, src.names, src.rows[0]);
    ChainHas(g.intersectFirst, OwnRows(g, q, scope), ArmRows(g, q, scope), |q.columns|, first);
  }

  lemma AllowsEither(p: Guarantee, r: Guarantee, t: Kind)
    ensures Allows(Either(p, r), t) <==> Allows(p, t) && Allows(r, t)
  {
  }

  /** A kind is allowed by a chain exactly when its first query and every UNION arm allow it. */
  lemma {:induction false} JoinedAllows(own: seq<Guarantee>, arms: seq<(SetOp, seq<Guarantee>)>, k: nat, t: Kind)
    requires k < |own|
    ensures Allows(JoinedAll(own, arms)[k], t) <==>
      Allows(own[k], t) && forall i :: 0 <= i < |arms| && Counts(own, arms, i) ==> Allows(arms[i].1[k], t)
  {
    hide Allows, Either;
    if arms != [] {
      var n := |arms| - 1;
      JoinedAllows(own, arms[..n], k, t);
      assert forall i :: 0 <= i < n ==> (Counts(own, arms, i) <==> Counts(own, arms[..n], i));
      if Counts(own, arms, n) {
        AllowsEither(JoinedAll(own, arms[..n])[k], arms[n].1[k], t);
      }
    }
  }

  /** A UNION arm of as many columns. */
  predicate Counts(own: seq<Guarantee>, arms: seq<(SetOp, seq<Guarantee>)>, i: nat)
    requires i < |arms|
  {
    arms[i].0.Union? && |arms[i].1| == |own|
  }

  lemma ColumnRefuted(g: Engine, q: Query, scope: Scope, ss: Shapes, k: nat, t: Kind)
    requires Typed(g) && Adverse(g) && ValidScope(scope) && ProperShapes(ss) && OnlyUnions(q)
    requires Exact(SourceRelation(g, q, scope), SourceShape(q, ss))
    requires forall i :: 0 <= i < |q.arms| ==> ArmExact(g, q, scope, ss, i)
    requires k < |q.columns| && !Allows(ShapeOf(q, ss).kinds[k], t)
    ensures Refuted(Result(g, q, scope), k, t)
  {
    hide Typed, Adverse, SourceRelation, SourceShape, CteScope, CteShapes, SelectRows, OwnKinds, Fits, Allows;
    hide Result, ShapeOf, ChainRows, JoinedAll, OnlyUnions, Exact, ArmExact, ArmRows, ArmKinds;
    var own, kinds := OwnKinds(q, SourceShape(q, ss)), ArmKinds(q, ss);
    ShapeIs(q, ss);
    ResultIs(g, q, scope);
    UnionArms(g, q, scope);
    JoinedAllows(own, kinds, k, t);
    var r: seq<Value>;
    if !Allows(own[k], t) {
      OwnRefuted(g, q, SourceRelation(g, q, scope), SourceShape(q, ss), k, t);
      r :| r in OwnRows(g, q, scope) && !Fits(r[k], t);
    } else {
      var i :| 0 <= i < |kinds| && Counts(own, kinds, i) && !Allows(kinds[i].1[k], t);
      r := ArmRefuted(g, q, scope, ss, i, k, t);
    }
    ChainHas(g.intersectFirst, OwnRows(g, q, scope), ArmRows(g, q, scope), |q.columns|, r);
  }

  lemma ArmRefuted(g: Engine, q: Query, scope: Scope, ss: Shapes, i: nat, k: nat, t: Kind) returns (r: seq<Value>)
    requires Typed(g) && ValidScope(scope) && ProperShapes(ss) && i < |q.arms| && ArmExact(g, q, scope, ss, i)
    requires k < |q.columns| && q.arms[i].op.Union?
    requires |ArmKinds(q, ss)[i].1| == |q.columns| && !Allows(ArmKinds(q, ss)[i].1[k], t)
    ensures FromUnion(ArmRows(g, q, scope), i, r, |q.columns|) && !Fits(r[k], t)
  {
    hide Typed, CteScope, CteShapes, Allows, Fits, Result, ShapeOf;
    var rel := Result(g, q.arms[i].query, CteScope(g, q, scope, |q.ctes|));
    assert Refuted(rel, k, t);
    r :| r in rel.rows && !Fits(r[k], t);
  }

  // ----- soundness of the inference -----

  /** Every column the inference knows has a guarantee that allows the inferred kind. */
  predicate EnvAllowed(q: Query) {
    var env := InferColumnTypes(q);
    forall k :: 0 <= k < |q.columns| && LowerAll(OutputName(q.columns[k])) in env ==>
      Allows(ShapeOf(q, []).kinds[k], env[LowerAll(OutputName(q.columns[k]))])
  }

  /** The inference is right about the query on the engine, whatever CTEs enclose it. */
  ghost predicate RightOn(g: Engine, q: Query)
    requires Typed(g)
  {
    forall scope: Scope :: ValidScope(scope) ==> Sound(Result(g, q, scope), InferColumnTypes(q))
  }

  lemma AllowedIsSound(g: Engine, q: Query, scope: Scope)
    requires Typed(g) && ValidScope(scope) && EnvAllowed(q)
    ensures Sound(Result(g, q, scope), InferColumnTypes(q))
  {
    hide Typed, ShapeOf, Result, InferColumnTypes, LowerAll, Meets, Allows, Fits;
    ShapeFits(g, q, scope, []);
    var env, rel := InferColumnTypes(q), Result(g, q, scope);
    forall k, r | 0 <= k < |rel.names| && r in rel.rows && LowerAll(rel.names[k]) in env
      ensures Fits(r[k], env[LowerAll(rel.names[k])])
    {
      assert rel.names[k] == OutputName(q.columns[k]);
      MeetsAllows(r[k], ShapeOf(q, []).kinds[k], env[LowerAll(rel.names[k])]);
    }
  }

  lemma AdverseRefutes(g: Engine, q: Query)
    requires Typed(g) && Adverse(g) && OnlyUnions(q) && !EnvAllowed(q)
    ensures !Sound(Result(g, q, []), InferColumnTypes(q))
  {
    hide ShapeOf, Result, InferColumnTypes, LowerAll, Allows, Fits, Adverse, Typed, OnlyUnions;
    ShapeExact(g, q, [], []);
    var env, rel := InferColumnTypes(q), Result(g, q, []);
    var k :| 0 <= k < |q.columns| && LowerAll(OutputName(q.columns[k])) in env
      && !Allows(ShapeOf(q, []).kinds[k], env[LowerAll(OutputName(q.columns[k]))]);
    assert rel.names[k] == OutputName(q.columns[k]);
    assert Refuted(rel, k, env[LowerAll(rel.names[k])]);
  }

  /** The engine that refutes it. */
  lemma WorstRefutes(q: Query, ns: seq<string>) returns (g: Engine)
    requires OnlyUnions(q) && !EnvAllowed(q)
    ensures Typed(g)
    ensures !Sound(Result(g, q, []), InferColumnTypes(q))
    ensures g == Worst(ns)
  {
    hide ShapeOf, Result, InferColumnTypes, Worst, Adverse, Typed, EnvAllowed, OnlyUnions, Sound;
    g := Worst(ns);
    WorstIsAdverse(ns);
    KeepsAll(g);
    AdverseRefutes(g, q);
  }

  /** The inference is right on every engine if and only if every column it knows has a guarantee that
      allows the inferred kind: for every query, its set operations being UNIONs. */
  lemma InferenceSoundIff(q: Query)
    requires OnlyUnions(q)
    ensures (forall g: Engine :: Typed(g) ==> RightOn(g, q)) <==> EnvAllowed(q)
  {
    hide Result, InferColumnTypes, Typed, OnlyUnions, Sound, Worst;
    if EnvAllowed(q) {
      forall g: Engine | Typed(g) ensures RightOn(g, q) {
        forall scope: Scope | ValidScope(scope) ensures Sound(Result(g, q, scope), InferColumnTypes(q)) {
          AllowedIsSound(g, q, scope);
        }
      }
    } else {
      hide EnvAllowed;
      var g := WorstRefutes(q, []);
      assert ValidScope([]);
      assert !RightOn(g, q);
    }
  }

  /** The rows of UNION arms that nothing but UNION follows are all returned, whatever comes before. */
  lemma {:induction false} TailReturned(tight: bool, own: Rows, arms: seq<(SetOp, Rows)>, n: nat, i: nat, x: seq<Value>)
    requires i < |arms| && FromUnion(arms, i, x, n) && forall j :: i <= j < |arms| ==> arms[j].0.Union?
    ensures x in ChainRows(tight, own, arms, n)
    decreases |arms|
  {
    var last := |arms| - 1;
    assert LastOperand(tight, arms) == Some(last) && arms[last + 1..] == [];
    assert ChainRows(tight, arms[last].1, [], n) == arms[last].1;
    if i < last {
      assert FromUnion(arms[..last], i, x, n);
      TailReturned(tight, own, arms[..last], n, i, x);
    }
  }

  /** Whatever set operations a chain begins with: a UNION arm at its end that does not guarantee the
      inferred kind makes the inference wrong. */
  lemma TailRefutes(q: Query, i: nat, k: nat, ns: seq<string>) returns (g: Engine)
    requires i < |q.arms| && (forall j :: i <= j < |q.arms| ==> q.arms[j].op.Union?)
    requires OnlyUnions(q.arms[i].query) && forall j :: 0 <= j < |q.ctes| ==> OnlyUnions(q.ctes[j].query)
    requires k < |q.columns| == |q.arms[i].query.columns|
    requires LowerAll(OutputName(q.columns[k])) in InferColumnTypes(q)
    requires var t := InferColumnTypes(q)[LowerAll(OutputName(q.columns[k]))];
      !Allows(ShapeOf(q.arms[i].query, CteShapes(q, [], |q.ctes|)).kinds[k], t)
    ensures Typed(g)
    ensures !Sound(Result(g, q, []), InferColumnTypes(q))
    ensures g == Worst(ns)
  {
    hide ShapeOf, Result, InferColumnTypes, Worst, Adverse, Typed, OnlyUnions, CteScope, CteShapes, Allows, Fits;
    hide ChainRows, LowerAll, FromUnion;
    g := Worst(ns);
    WorstIsAdverse(ns);
    KeepsAll(g);
    CteExact(g, q, [], [], |q.ctes|);
    ShapeExact(g, q.arms[i].query, CteScope(g, q, [], |q.ctes|), CteShapes(q, [], |q.ctes|));
    var t := InferColumnTypes(q)[LowerAll(OutputName(q.columns[k]))];
    var r := ArmRefuted(g, q, [], [], i, k, t);
    ResultIs(g, q, []);
    TailReturned(g.intersectFirst, OwnRows(g, q, []), ArmRows(g, q, []), |q.columns|, i, r);
    assert Names(q.columns)[k] == OutputName(q.columns[k]);
    assert Result(g, q, []).names[k] == OutputName(q.columns[k]);
  }

  /** The queries the inference was written for: columns of distinct names, references to the query's
      own source, no UNION in the chain, a derived table that carries the inference of its query, and a table that
      bears a CTE's name only when it is that CTE, under its own column names. */
  predicate Plain(q: Query)
    decreases q
  {
    && (forall i :: 0 <= i < |q.arms| ==> !q.arms[i].op.Union?)
    && DistinctNames(q.columns)
    && (forall i :: 0 <= i < |q.columns| && Output(q.columns[i]).Some? ==>
      OwnColumn(Output(q.columns[i]).value.1, q.from))
    && (forall i, j :: 0 <= i < j < |q.ctes| ==> LowerAll(q.ctes[i].name) != LowerAll(q.ctes[j].name))
    && (forall i :: 0 <= i < |q.ctes| ==> Plain(q.ctes[i].query))
    && (match q.from
        case Derived(sub, types, _) => Plain(sub) && (types == [] || Dict(types) == InferColumnTypes(sub))
        case Table(name, schema, _, aliases, routine) =>
          schema.Some? || routine.Some? || aliases != [] ==> CteIndex(q.ctes, name) == |q.ctes|
        case _ => true)
  }

  predicate DistinctNames(columns: seq<Expr>) {
    forall i, j :: 0 <= i < j < |columns| && Output(columns[i]).Some? && Output(columns[j]).Some? ==>
      LowerAll(OutputName(columns[i])) != LowerAll(OutputName(columns[j]))
  }

  predicate OwnColumn(e: Expr, f: From) {
    e.ColumnRef? ==> Local(e.table, Visible(f))
  }

  /** A name the inference knows has the kind of the last column of that name that has one. */
  lemma {:induction false} InferredFrom(columns: seq<Expr>, src: Env, n: nat, name: string)
    requires n <= |columns| && name in InferFrom(columns[..n], src)
    ensures exists k :: 0 <= k < n && KindAt(columns, src, k, name, InferFrom(columns[..n], src)[name])
  {
    hide LowerAll, ExprKind;
    assert columns[..n][..n - 1] == columns[..n - 1];
    var e := columns[n - 1];
    var env := InferFrom(columns[..n], src);
    if KindAt(columns, src, n - 1, name, env[name]) {
    } else {
      assert env[name] == InferFrom(columns[..n - 1], src)[name];
      InferredFrom(columns, src, n - 1, name);
    }
  }

  ghost predicate KindAt(columns: seq<Expr>, src: Env, k: nat, name: string, kind: Kind)
    requires k < |columns|
  {
    var out := Output(columns[k]);
    out.Some? && LowerAll(out.value.0) == name && out.value.0 != "" && ExprKind(out.value.1, src) == Some(kind)
  }

  /** A reference to any name the environment knows has a guarantee that allows its kind. */
  ghost predicate EnvFits(s: Shape, env: Env)
    requires Proper(s)
  {
    forall n: string :: LowerAll(n) in env ==> Allows(RefKind(s, n), env[LowerAll(n)])
  }

  lemma ExprAllowed(e: Expr, at: Option<string>, s: Shape, env: Env)
    requires Proper(s) && EnvFits(s, env) && ExprKind(e, env).Some? && (e.ColumnRef? ==> Local(e.table, at))
    ensures Allows(ExprGuarantee(e, at, s), ExprKind(e, env).value)
  {
    hide TypeKind, LowerAll, UpperAll, RefKind;
  }

  lemma GuaranteeOfOutput(e: Expr, at: Option<string>, s: Shape)
    requires Proper(s) && Output(e).Some?
    ensures ExprGuarantee(e, at, s) == ExprGuarantee(Output(e).value.1, at, s)
  {
  }

  /** Each column of a plain query over an understood source is understood. */
  lemma ColumnAllowed(q: Query, s: Shape, k: nat)
    requires Plain(q) && Proper(s) && EnvFits(s, SourceEnv(q)) && k < |q.columns|
    requires LowerAll(OutputName(q.columns[k])) in InferColumnTypes(q)
    ensures Allows(OwnKinds(q, s)[k], InferColumnTypes(q)[LowerAll(OutputName(q.columns[k]))])
  {
    hide ExprKind, ExprGuarantee, SourceEnv, EnvFits, LowerAll;
    var env, src := InferColumnTypes(q), SourceEnv(q);
    var name := LowerAll(OutputName(q.columns[k]));
    assert q.columns[..|q.columns|] == q.columns;
    InferredFrom(q.columns, src, |q.columns|, name);
    var j :| 0 <= j < |q.columns| && KindAt(q.columns, src, j, name, env[name]);
    assert name != "" by { LowerLength(Output(q.columns[j]).value.0); }
    assert Output(q.columns[k]).Some? by { LowerLength(OutputName(q.columns[k])); }
    assert j == k;
    var x := Output(q.columns[k]).value.1;
    GuaranteeOfOutput(q.columns[k], Visible(q.from), s);
    ExprAllowed(x, Visible(q.from), s, src);
  }

  lemma LowerLength(s: string)
    ensures |LowerAll(s)| == |s|
  {
  }

  lemma {:induction false} ShapeEnvFits(q: Query, ss: Shapes)
    requires ProperShapes(ss) && Plain(q) && EnvFits(SourceShape(q, ss), SourceEnv(q))
    ensures EnvFits(ShapeOf(q, ss), InferColumnTypes(q))
  {
    hide SourceShape, SourceEnv, LowerAll, Allows, Plain, ExprKind, OwnKinds;
    var s, env := ShapeOf(q, ss), InferColumnTypes(q);
    assert s.kinds == OwnKinds(q, SourceShape(q, ss)) by { PlainKinds(q, ss); }
    forall n: string | LowerAll(n) in env ensures Allows(RefKind(s, n), env[LowerAll(n)]) {
      assert q.columns[..|q.columns|] == q.columns;
      InferredFrom(q.columns, SourceEnv(q), |q.columns|, LowerAll(n));
      var j :| 0 <= j < |q.columns| && KindAt(q.columns, SourceEnv(q), j, LowerAll(n), env[LowerAll(n)]);
      assert s.names[j] == OutputName(q.columns[j]);
      var k := NameIndex(s.names, n);
      assert k < |s.names|;
      ColumnAllowed(q, SourceShape(q, ss), k);
    }
  }

  lemma PlainKinds(q: Query, ss: Shapes)
    requires ProperShapes(ss) && Plain(q)
    ensures ShapeOf(q, ss).kinds == OwnKinds(q, SourceShape(q, ss))
  {
    hide SourceShape, OwnKinds, ShapeOf, JoinedAll, CteShapes;
    ShapeIs(q, ss);
    NothingJoined(OwnKinds(q, SourceShape(q, ss)), ArmKinds(q, ss));
  }

  lemma {:induction false} NothingJoined(own: seq<Guarantee>, arms: seq<(SetOp, seq<Guarantee>)>)
    requires forall i :: 0 <= i < |arms| ==> !arms[i].0.Union?
    ensures JoinedAll(own, arms) == own
  {
    if arms != [] {
      NothingJoined(own, arms[..|arms| - 1]);
    }
  }

  /** In the query's own scope a CTE is found under its name. */
  lemma {:induction false} FindCte(q: Query, ss: Shapes, n: nat, k: nat, name: string)
    requires ProperShapes(ss) && k < n <= |q.ctes|
    requires forall i, j :: 0 <= i < j < |q.ctes| ==> LowerAll(q.ctes[i].name) != LowerAll(q.ctes[j].name)
    requires LowerAll(q.ctes[k].name) == LowerAll(name) && q.ctes[k].columns == []
    ensures FindShape(CteShapes(q, ss, n), name) == ShapeOf(q.ctes[k].query, CteShapes(q, ss, k))
  {
    hide ShapeOf, LowerAll, CteShapes, RenamedShape;
    var before, c := CteShapes(q, ss, n - 1), q.ctes[n - 1];
    CteShapesStep(q, ss, n);
    FindLast(before, c.name, RenamedShape(ShapeOf(c.query, before), c.columns), name);
    if k < n - 1 {
      FindCte(q, ss, n - 1, k, name);
    } else {
      NotRenamed(ShapeOf(c.query, before));
    }
  }

  lemma CteShapesStep(q: Query, ss: Shapes, n: nat)
    requires ProperShapes(ss) && 0 < n <= |q.ctes|
    ensures var c := q.ctes[n - 1]; var before := CteShapes(q, ss, n - 1);
      CteShapes(q, ss, n) == before + [(c.name, RenamedShape(ShapeOf(c.query, before), c.columns))]
  {
    hide ShapeOf, RenamedShape;
  }

  lemma FindLast(ss: Shapes, other: string, s: Shape, name: string)
    ensures FindShape(ss + [(other, s)], name) == if LowerAll(other) == LowerAll(name) then s else FindShape(ss, name)
  {
    hide LowerAll;
    assert (ss + [(other, s)])[..|ss|] == ss;
  }

  lemma EmptyEnvFits(s: Shape)
    requires Proper(s)
    ensures EnvFits(s, map[])
  {
  }

  lemma NotRenamed(s: Shape)
    ensures RenamedShape(s, []) == s
  {
  }

  /** The inference agrees with the reference typing on plain queries, nested ones included. */
  lemma {:induction false} PlainFits(q: Query, ss: Shapes)
    requires ProperShapes(ss) && Plain(q)
    ensures EnvFits(SourceShape(q, ss), SourceEnv(q)) && EnvFits(ShapeOf(q, ss), InferColumnTypes(q))
    decreases q
  {
    hide EnvFits, ShapeOf, InferColumnTypes, LowerAll, CteShapes, FindShape, RenamedShape;
    EmptyEnvFits(SourceShape(q, ss));
    if !q.joins {
      var inner := CteShapes(q, ss, |q.ctes|);
      match q.from
      case Derived(sub, types, _) =>
        PlainFits(sub, inner);
      case Table(name, schema, _, aliases, routine) =>
        var k := CteIndex(q.ctes, name);
        if k < |q.ctes| && q.ctes[k].columns == [] {
          FindCte(q, ss, |q.ctes|, k, name);
          PlainFits(q.ctes[k].query, CteShapes(q, ss, k));
          NotRenamed(FindShape(inner, name));
        }
      case _ =>
    }
    ShapeEnvFits(q, ss);
  }

  lemma PlainAllowed(q: Query)
    requires Plain(q)
    ensures EnvAllowed(q)
  {
    hide SourceShape, SourceEnv, InferColumnTypes, OwnKinds, Allows, Plain, LowerAll, ShapeOf;
    PlainFits(q, []);
    PlainKinds(q, []);
    var env := InferColumnTypes(q);
    forall k | 0 <= k < |q.columns| && LowerAll(OutputName(q.columns[k])) in env
      ensures Allows(ShapeOf(q, []).kinds[k], env[LowerAll(OutputName(q.columns[k]))])
    {
      ColumnAllowed(q, SourceShape(q, []), k);
    }
  }

  /** A column inferred to be a date or a timestamp holds only NULL or that kind, in every row a plain
      query returns, on every engine and within any CTEs. */
  lemma InferenceSound(g: Engine, q: Query, scope: Scope)
    requires Typed(g) && ValidScope(scope) && Plain(q)
    ensures Sound(Result(g, q, scope), InferColumnTypes(q))
  {
    PlainAllowed(q);
    AllowedIsSound(g, q, scope);
  }

  lemma {:induction false} KnownIn(columns: seq<Expr>, src: Env, n: nat, k: nat, name: string, kind: Kind)
    requires k < n <= |columns| && KindAt(columns, src, k, name, kind)
    ensures name in InferFrom(columns[..n], src)
  {
    hide LowerAll, ExprKind;
    assert columns[..n][..n - 1] == columns[..n - 1];
    if k < n - 1 {
      KnownIn(columns, src, n - 1, k, name, kind);
    }
  }

  /** With distinct names, a column the inference knows is known by its own expression. */
  lemma KnownByItself(q: Query, k: nat)
    requires k < |q.columns| && DistinctNames(q.columns)
    ensures var name := LowerAll(OutputName(q.columns[k]));
      name in InferColumnTypes(q) <==>
        (Output(q.columns[k]).Some? && name != "" && ExprKind(Output(q.columns[k]).value.1, SourceEnv(q)).Some?)
    ensures var name := LowerAll(OutputName(q.columns[k]));
      name in InferColumnTypes(q) ==>
        ExprKind(Output(q.columns[k]).value.1, SourceEnv(q)) == Some(InferColumnTypes(q)[name])
  {
    hide ExprKind, SourceEnv, LowerAll;
    var env, src := InferColumnTypes(q), SourceEnv(q);
    var name := LowerAll(OutputName(q.columns[k]));
    LowerLength(OutputName(q.columns[k]));
    assert q.columns[..|q.columns|] == q.columns;
    if name in env {
      InferredFrom(q.columns, src, |q.columns|, name);
      var j :| 0 <= j < |q.columns| && KindAt(q.columns, src, j, name, env[name]);
      LowerLength(Output(q.columns[j]).value.0);
      assert j == k;
    } else if Output(q.columns[k]).Some? && name != "" && ExprKind(Output(q.columns[k]).value.1, src).Some? {
      KnownIn(q.columns, src, |q.columns|, k, name, ExprKind(Output(q.columns[k]).value.1, src).value);
    }
  }

  /** Column `i` is a named reference to a name the source environment knows. */
  predicate KnownRef(q: Query, i: nat)
    requires i < |q.columns|
  {
    var out := Output(q.columns[i]);
    out.Some? && out.value.0 != "" && out.value.1.ColumnRef? && LowerAll(out.value.1.name) in SourceEnv(q)
  }

  /** A source that is not the CTE it is called after (it is qualified, or a function): the inference
      is right exactly when no output column is a reference to a name it knows. */
  lemma HiddenSourceIff(q: Query)
    requires OnlyUnions(q) && q.arms == [] && DistinctNames(q.columns)
    requires !q.joins && q.from.Table? && (q.from.schema.Some? || q.from.routine.Some?)
    ensures (forall g: Engine :: Typed(g) ==> RightOn(g, q)) <==> forall i :: 0 <= i < |q.columns| ==> !KnownRef(q, i)
  {
    hide RightOn, Typed, OnlyUnions, SourceEnv, InferColumnTypes, LowerAll;
    InferenceSoundIff(q);
    var s := ShapeOf(q, []);
    assert SourceShape(q, []) == Opaque;
    forall k | 0 <= k < |q.columns|
      ensures var name := LowerAll(OutputName(q.columns[k])); KnownRef(q, k) <==>
        name in InferColumnTypes(q) && !Allows(s.kinds[k], InferColumnTypes(q)[name])
    {
      HiddenColumn(q, k);
    }
  }

  lemma HiddenColumn(q: Query, k: nat)
    requires q.arms == [] && DistinctNames(q.columns) && k < |q.columns| && SourceShape(q, []) == Opaque
    ensures var name := LowerAll(OutputName(q.columns[k]));
      KnownRef(q, k) <==> name in InferColumnTypes(q) && !Allows(ShapeOf(q, []).kinds[k], InferColumnTypes(q)[name])
  {
    hide SourceEnv, InferColumnTypes, LowerAll, TypeKind, UpperAll;
    KnownByItself(q, k);
    LowerLength(OutputName(q.columns[k]));
    if Output(q.columns[k]).Some? {
      GuaranteeOfOutput(q.columns[k], Visible(q.from), Opaque);
    }
  }

  /** UNION: right exactly when all arms guarantee the inferred kind, column by column. */
  lemma UnionSoundIff(q: Query)
    requires OnlyUnions(q) && forall i :: 0 <= i < |q.arms| ==> |q.arms[i].query.columns| == |q.columns|
    ensures (forall g: Engine :: Typed(g) ==> RightOn(g, q)) <==>
      forall k :: 0 <= k < |q.columns| && LowerAll(OutputName(q.columns[k])) in InferColumnTypes(q) ==>
        AllAllow(q, k, InferColumnTypes(q)[LowerAll(OutputName(q.columns[k]))])
  {
    hide RightOn, Typed, InferColumnTypes, LowerAll, SourceShape, CteShapes, OwnKinds, ShapeOf, Allows, OnlyUnions;
    hide JoinedAll;
    InferenceSoundIff(q);
    ShapeIs(q, []);
    forall k, t | 0 <= k < |q.columns| ensures Allows(ShapeOf(q, []).kinds[k], t) <==> AllAllow(q, k, t) {
      JoinedAllows(OwnKinds(q, SourceShape(q, [])), ArmKinds(q, []), k, t);
      AllAllowIs(q, k, t);
    }
  }

  predicate AllAllow(q: Query, k: nat, t: Kind)
    requires k < |q.columns| && forall i :: 0 <= i < |q.arms| ==> |q.arms[i].query.columns| == |q.columns|
  {
    && Allows(OwnKinds(q, SourceShape(q, []))[k], t)
    && forall i :: 0 <= i < |q.arms| ==>
      Allows(ShapeOf(q.arms[i].query, CteShapes(q, [], |q.ctes|)).kinds[k], t)
  }

  lemma AllAllowIs(q: Query, k: nat, t: Kind)
    requires k < |q.columns| && OnlyUnions(q)
    requires forall i :: 0 <= i < |q.arms| ==> |q.arms[i].query.columns| == |q.columns|
    ensures var own, arms := OwnKinds(q, SourceShape(q, [])), ArmKinds(q, []);
      AllAllow(q, k, t) <==>
        Allows(own[k], t) && forall i :: 0 <= i < |arms| && Counts(own, arms, i) ==> Allows(arms[i].1[k], t)
  {
    hide SourceShape, CteShapes, OwnKinds, ShapeOf, Allows;
    var own, arms := OwnKinds(q, SourceShape(q, [])), ArmKinds(q, []);
    forall i | 0 <= i < |arms|
      ensures Counts(own, arms, i) && arms[i].1 == ShapeOf(q.arms[i].query, CteShapes(q, [], |q.ctes|)).kinds
    {
      assert q.arms[i].op.Union? && |q.arms[i].query.columns| == |q.columns|;
    }
  }

  // ----- tags -----

  /** `_tag`: a reference without a qualifier and without a tag gets the kind of its name; a nested
      query is left alone. */
  function Tag(e: Expr, env: Env): Expr {
    match e
    case ColumnRef(name, table, inferred) =>
      if table.None? && inferred.None? && LowerAll(name) in env then ColumnRef(name, table, Some(env[LowerAll(name)]))
      else e
    case Alias(x, name) => Alias(Tag(x, env), name)
    case Cast(x, t) => Cast(Tag(x, env), t)
    case Function(n, args) => Function(n, seq(|args|, i requires 0 <= i < |args| => Tag(args[i], env)))
    case NullLiteral => e
    case Scalar(_) => e
    case Node(tag, kids) => Node(tag, seq(|kids|, i requires 0 <= i < |kids| => Tag(kids[i], env)))
  }

  function TagTemporalColumns(q: Query): (r: Query)
    ensures |r.columns| == |q.columns|
  {
    var env := SourceEnv(q);
    if env == map[] then q
    else q.(columns := seq(|q.columns|, i requires 0 <= i < |q.columns| => Tag(q.columns[i], env)))
  }

  /** The tree without its tags. */
  function Erase(e: Expr): Expr {
    match e
    case ColumnRef(name, table, _) => ColumnRef(name, table, None)
    case Alias(x, name) => Alias(Erase(x), name)
    case Cast(x, t) => Cast(Erase(x), t)
    case Function(n, args) => Function(n, seq(|args|, i requires 0 <= i < |args| => Erase(args[i])))
    case NullLiteral => e
    case Scalar(_) => e
    case Node(tag, kids) => Node(tag, seq(|kids|, i requires 0 <= i < |kids| => Erase(kids[i])))
  }

  ghost predicate TagsStay(e: Expr, env: Env) {
    Erase(Tag(e, env)) == Erase(e) && Tag(Tag(e, env), env) == Tag(e, env)
  }

  /** Tagging changes nothing but the tags, and a second time it changes nothing. */
  lemma {:induction false} TagOnlyTags(e: Expr, env: Env)
    ensures TagsStay(e, env)
  {
    match e
    case ColumnRef(_, _, _) =>
    case Alias(x, _) => TagOnlyTags(x, env);
    case Cast(x, _) => TagOnlyTags(x, env);
    case NullLiteral =>
    case Scalar(_) =>
    case Function(n, args) =>
      forall i | 0 <= i < |args| ensures TagsStay(args[i], env) {
        TagOnlyTags(args[i], env);
      }
      assert Erase(Tag(e, env)).args == Erase(e).args;
      assert Tag(Tag(e, env), env).args == Tag(e, env).args;
    case Node(_, kids) =>
      forall i | 0 <= i < |kids| ensures TagsStay(kids[i], env) {
        TagOnlyTags(kids[i], env);
      }
      assert Erase(Tag(e, env)).kids == Erase(e).kids;
      assert Tag(Tag(e, env), env).kids == Tag(e, env).kids;
  }

  /** Values do not depend on tags. */
  lemma {:induction false} EvalTagged(g: Engine, e: Expr, env: Env, at: Option<string>, names: seq<string>,
    row: seq<Value>)
    requires |row| == |names|
    ensures Eval(g, Tag(e, env), at, names, row) == Eval(g, e, at, names, row)
  {
    var t := Tag(e, env);
    match e
    case ColumnRef(_, _, _) =>
    case Alias(x, _) => EvalTagged(g, x, env, at, names, row);
    case Cast(x, _) => EvalTagged(g, x, env, at, names, row);
    case NullLiteral =>
    case Scalar(_) =>
    case Function(n, args) =>
      forall i | 0 <= i < |args| ensures Eval(g, t.args[i], at, names, row) == Eval(g, args[i], at, names, row) {
        EvalTagged(g, args[i], env, at, names, row);
      }
      assert seq(|args|, i requires 0 <= i < |args| => Eval(g, t.args[i], at, names, row))
          == seq(|args|, i requires 0 <= i < |args| => Eval(g, args[i], at, names, row));
    case Node(_, kids) =>
      forall i | 0 <= i < |kids| ensures Eval(g, t.kids[i], at, names, row) == Eval(g, kids[i], at, names, row) {
        EvalTagged(g, kids[i], env, at, names, row);
      }
      assert seq(|kids|, i requires 0 <= i < |kids| => Eval(g, t.kids[i], at, names, row))
          == seq(|kids|, i requires 0 <= i < |kids| => Eval(g, kids[i], at, names, row));
  }

  /** Every tag in the tree, nested queries apart, is right for the row. */
  ghost predicate TagsFit(g: Engine, e: Expr, at: Option<string>, names: seq<string>, row: seq<Value>)
    requires |row| == |names|
  {
    match e
    case ColumnRef(_, _, inferred) => inferred.Some? ==> Fits(Eval(g, e, at, names, row), inferred.value)
    case Alias(x, _) => TagsFit(g, x, at, names, row)
    case Cast(x, _) => TagsFit(g, x, at, names, row)
    case Function(_, args) => forall i :: 0 <= i < |args| ==> TagsFit(g, args[i], at, names, row)
    case NullLiteral => true
    case Scalar(_) => true
    case Node(_, kids) => forall i :: 0 <= i < |kids| ==> TagsFit(g, kids[i], at, names, row)
  }

  /** Every reference that gets a tag is to a column whose guarantee allows it. */
  predicate TagAllowed(e: Expr, s: Shape, env: Env)
    requires Proper(s)
  {
    match e
    case ColumnRef(name, table, inferred) =>
      table.None? && inferred.None? && LowerAll(name) in env ==> Allows(RefKind(s, name), env[LowerAll(name)])
    case Alias(x, _) => TagAllowed(x, s, env)
    case Cast(x, _) => TagAllowed(x, s, env)
    case Function(_, args) => forall i :: 0 <= i < |args| ==> TagAllowed(args[i], s, env)
    case NullLiteral => true
    case Scalar(_) => true
    case Node(_, kids) => forall i :: 0 <= i < |kids| ==> TagAllowed(kids[i], s, env)
  }

  lemma {:induction false} TagMeets(g: Engine, e: Expr, env: Env, at: Option<string>, rel: Relation, s: Shape,
    row: seq<Value>)
    requires Typed(g) && rel.Valid() && Proper(s) && FitsShape(rel, s) && row in rel.rows
    requires TagAllowed(e, s, env) && TagsFit(g, e, at, rel.names, row)
    ensures TagsFit(g, Tag(e, env), at, rel.names, row)
  {
    hide Typed, FitsShape, LowerAll;
    match e
    case ColumnRef(name, _, _) =>
      ExprMeets(g, Tag(e, env), at, rel, s, row);
    case Alias(x, _) => TagMeets(g, x, env, at, rel, s, row);
    case Cast(x, _) => TagMeets(g, x, env, at, rel, s, row);
    case NullLiteral =>
    case Scalar(_) =>
    case Function(n, args) =>
      forall i | 0 <= i < |args| ensures TagsFit(g, Tag(args[i], env), at, rel.names, row) {
        TagMeets(g, args[i], env, at, rel, s, row);
      }
    case Node(_, kids) =>
      forall i | 0 <= i < |kids| ensures TagsFit(g, Tag(kids[i], env), at, rel.names, row) {
        TagMeets(g, kids[i], env, at, rel, s, row);
      }
  }

  ghost predicate SomeWrongTag(g: Engine, e: Expr, at: Option<string>, rel: Relation)
    requires rel.Valid()
  {
    exists x :: x in rel.rows && !TagsFit(g, e, at, rel.names, x)
  }

  lemma WrongBelow(g: Engine, e: Expr, at: Option<string>, rel: Relation, i: nat)
    requires rel.Valid() && (e.Function? || e.Node?)
    requires var kids := if e.Function? then e.args else e.kids; i < |kids| && SomeWrongTag(g, kids[i], at, rel)
    ensures SomeWrongTag(g, e, at, rel)
  {
    var kids := if e.Function? then e.args else e.kids;
    var x :| x in rel.rows && !TagsFit(g, kids[i], at, rel.names, x);
    assert !TagsFit(g, e, at, rel.names, x);
  }

  lemma {:induction false} TagRefuted(g: Engine, e: Expr, env: Env, at: Option<string>, rel: Relation, s: Shape)
    requires Adverse(g) && rel.Valid() && Proper(s) && Exact(rel, s) && !TagAllowed(e, s, env)
    ensures SomeWrongTag(g, Tag(e, env), at, rel)
  {
    hide Adverse, Exact, LowerAll;
    match e
    case ColumnRef(name, _, _) =>
      var t := env[LowerAll(name)];
      ExprRefuted(g, Tag(e, env), at, rel, s, t);
      var x :| x in rel.rows && !Fits(Eval(g, Tag(e, env), at, rel.names, x), t);
      assert !TagsFit(g, Tag(e, env), at, rel.names, x);
    case Alias(y, _) =>
      TagRefuted(g, y, env, at, rel, s);
      var x :| x in rel.rows && !TagsFit(g, Tag(y, env), at, rel.names, x);
      assert !TagsFit(g, Tag(e, env), at, rel.names, x);
    case Cast(y, _) =>
      TagRefuted(g, y, env, at, rel, s);
      var x :| x in rel.rows && !TagsFit(g, Tag(y, env), at, rel.names, x);
      assert !TagsFit(g, Tag(e, env), at, rel.names, x);
    case Function(_, args) =>
      var i :| 0 <= i < |args| && !TagAllowed(args[i], s, env);
      TagRefuted(g, args[i], env, at, rel, s);
      WrongBelow(g, Tag(e, env), at, rel, i);
    case Node(_, kids) =>
      var i :| 0 <= i < |kids| && !TagAllowed(kids[i], s, env);
      TagRefuted(g, kids[i], env, at, rel, s);
      WrongBelow(g, Tag(e, env), at, rel, i);
  }

  lemma {:induction false} UntaggedFits(g: Engine, e: Expr, at: Option<string>, names: seq<string>, row: seq<Value>)
    requires |row| == |names| && Erase(e) == e
    ensures TagsFit(g, e, at, names, row)
  {
    match e
    case ColumnRef(_, _, _) =>
    case Alias(x, _) => UntaggedFits(g, x, at, names, row);
    case Cast(x, _) => UntaggedFits(g, x, at, names, row);
    case NullLiteral =>
    case Scalar(_) =>
    case Function(_, args) =>
      forall i | 0 <= i < |args| ensures TagsFit(g, args[i], at, names, row) {
        assert Erase(e).args[i] == Erase(args[i]);
        UntaggedFits(g, args[i], at, names, row);
      }
    case Node(_, kids) =>
      forall i | 0 <= i < |kids| ensures TagsFit(g, kids[i], at, names, row) {
        assert Erase(e).kids[i] == Erase(kids[i]);
        UntaggedFits(g, kids[i], at, names, row);
      }
  }

  /** All tags `tag_temporal_columns` leaves on the query are right in every row of its source, on the
      engine and within any CTEs. */
  ghost predicate TagsRightOn(g: Engine, q: Query)
    requires Typed(g)
  {
    forall scope: Scope, i: nat, x: seq<Value> ::
      ValidScope(scope) && i < |q.columns| && x in SourceRelation(g, q, scope).rows ==>
        TagsFit(g, TagTemporalColumns(q).columns[i], Visible(q.from), SourceRelation(g, q, scope).names, x)
  }

  predicate AllTagsAllowed(q: Query) {
    forall i :: 0 <= i < |q.columns| ==> TagAllowed(q.columns[i], SourceShape(q, []), SourceEnv(q))
  }

  predicate Untagged(q: Query) {
    forall i :: 0 <= i < |q.columns| ==> Erase(q.columns[i]) == q.columns[i]
  }

  lemma {:induction false} NothingToTag(e: Expr)
    ensures Tag(e, map[]) == e
  {
    match e
    case ColumnRef(_, _, _) =>
    case Alias(x, _) => NothingToTag(x);
    case Cast(x, _) => NothingToTag(x);
    case NullLiteral =>
    case Scalar(_) =>
    case Function(_, args) =>
      forall i | 0 <= i < |args| ensures Tag(args[i], map[]) == args[i] {
        NothingToTag(args[i]);
      }
      assert Tag(e, map[]).args == args;
    case Node(_, kids) =>
      forall i | 0 <= i < |kids| ensures Tag(kids[i], map[]) == kids[i] {
        NothingToTag(kids[i]);
      }
      assert Tag(e, map[]).kids == kids;
  }

  lemma TaggedColumn(q: Query, i: nat)
    requires i < |q.columns|
    ensures TagTemporalColumns(q).columns[i] == Tag(q.columns[i], SourceEnv(q))
  {
    hide SourceEnv, Tag;
    NothingToTag(q.columns[i]);
  }

  lemma AllowedTagsFit(g: Engine, q: Query, scope: Scope, i: nat, x: seq<Value>)
    requires Typed(g) && ValidScope(scope) && Untagged(q) && AllTagsAllowed(q) && i < |q.columns|
    requires x in SourceRelation(g, q, scope).rows
    ensures TagsFit(g, TagTemporalColumns(q).columns[i], Visible(q.from), SourceRelation(g, q, scope).names, x)
  {
    hide Typed, SourceRelation, SourceShape, SourceEnv, TagsFit, Tag, TagAllowed, FitsShape, Erase, TagTemporalColumns;
    var rel := SourceRelation(g, q, scope);
    TaggedColumn(q, i);
    SourceFits(g, q, scope, []);
    UntaggedFits(g, q.columns[i], Visible(q.from), rel.names, x);
    TagMeets(g, q.columns[i], SourceEnv(q), Visible(q.from), rel, SourceShape(q, []), x);
  }

  lemma AdverseTags(g: Engine, q: Query)
    requires Typed(g) && Adverse(g) && OnlyUnions(q) && !AllTagsAllowed(q)
    ensures !TagsRightOn(g, q)
  {
    hide Typed, Adverse, SourceRelation, SourceShape, SourceEnv, TagsFit, Tag, TagAllowed, Exact, TagTemporalColumns,
      OnlyUnions;
    SourceExact(g, q, [], []);
    var rel := SourceRelation(g, q, []);
    var i :| 0 <= i < |q.columns| && !TagAllowed(q.columns[i], SourceShape(q, []), SourceEnv(q));
    TaggedColumn(q, i);
    TagRefuted(g, q.columns[i], SourceEnv(q), Visible(q.from), rel, SourceShape(q, []));
    var x :| x in rel.rows && !TagsFit(g, Tag(q.columns[i], SourceEnv(q)), Visible(q.from), rel.names, x);
    assert ValidScope([]);
  }

  /** The tags are right on every engine if and only if every tagged reference is to a column whose
      guarantee allows the tag: for every query without tags, its set operations being UNIONs. */
  lemma TaggingSoundIff(q: Query)
    requires OnlyUnions(q) && Untagged(q)
    ensures (forall g: Engine :: Typed(g) ==> TagsRightOn(g, q)) <==> AllTagsAllowed(q)
  {
    hide Typed, SourceRelation, SourceEnv, TagsFit, TagTemporalColumns, OnlyUnions, Untagged, Worst, Adverse;
    if AllTagsAllowed(q) {
      hide AllTagsAllowed;
      forall g: Engine | Typed(g) ensures TagsRightOn(g, q) {
        forall scope: Scope, i: nat, x: seq<Value> |
          ValidScope(scope) && i < |q.columns| && x in SourceRelation(g, q, scope).rows
          ensures TagsFit(g, TagTemporalColumns(q).columns[i], Visible(q.from), SourceRelation(g, q, scope).names, x)
        {
          AllowedTagsFit(g, q, scope, i, x);
        }
      }
    } else {
      hide AllTagsAllowed, TagsRightOn;
      var g := Worst([]);
      WorstIsAdverse([]);
      KeepsAll(g);
      AdverseTags(g, q);
    }
  }

  lemma {:induction false} FitsAllTags(e: Expr, s: Shape, env: Env)
    requires Proper(s) && EnvFits(s, env)
    ensures TagAllowed(e, s, env)
  {
    hide LowerAll, RefKind;
    match e
    case ColumnRef(_, _, _) =>
    case Alias(x, _) => FitsAllTags(x, s, env);
    case Cast(x, _) => FitsAllTags(x, s, env);
    case NullLiteral =>
    case Scalar(_) =>
    case Function(_, args) =>
      forall i | 0 <= i < |args| ensures TagAllowed(args[i], s, env) {
        FitsAllTags(args[i], s, env);
      }
    case Node(_, kids) =>
      forall i | 0 <= i < |kids| ensures TagAllowed(kids[i], s, env) {
        FitsAllTags(kids[i], s, env);
      }
  }

  /** Every tag put on a plain query is right in every row of its source. */
  lemma TaggingSound(g: Engine, q: Query, scope: Scope, i: nat, x: seq<Value>)
    requires Typed(g) && ValidScope(scope) && Plain(q) && Untagged(q) && i < |q.columns|
    requires x in SourceRelation(g, q, scope).rows
    ensures TagsFit(g, TagTemporalColumns(q).columns[i], Visible(q.from), SourceRelation(g, q, scope).names, x)
  {
    hide Typed, SourceRelation, SourceShape, SourceEnv, TagsFit, TagAllowed, Plain, Untagged, TagTemporalColumns,
      EnvFits;
    PlainFits(q, []);
    forall k | 0 <= k < |q.columns| ensures TagAllowed(q.columns[k], SourceShape(q, []), SourceEnv(q)) {
      FitsAllTags(q.columns[k], SourceShape(q, []), SourceEnv(q));
    }
    AllowedTagsFit(g, q, scope, i, x);
  }

  // ----- everything there is to infer is inferred -----

  /** White space, a word that names the kind, in any case, white space, and nothing more or a
      parenthesis with whatever follows it. */
  ghost predicate Spells(typeName: string, kind: Kind) {
    exists a: nat, b: nat, c: nat :: SpelledBy(typeName, a, b, c, kind)
  }

  ghost predicate SpelledBy(s: string, a: nat, b: nat, c: nat, kind: Kind) {
    && a <= b <= c <= |s|
    && (forall k :: 0 <= k < a || b <= k < c ==> IsSpace(s[k]))
    && (c < |s| ==> s[c] == '(')
    && KindWord(UpperAll(s[a..b]), kind)
  }

  predicate KindWord(word: string, kind: Kind) {
    match kind
    case DATE => word == "DATE"
    case TIMESTAMP =>
      || word == "DATETIME" || word == "DATETIME2" || word == "TIMESTAMP" || word == "SMALLDATETIME"
      || word == "DATETIMEOFFSET"
  }

  lemma {:induction false} BeforeParenIs(s: string, c: nat)
    requires c <= |s| && (forall k :: 0 <= k < c ==> s[k] != '(') && (c < |s| ==> s[c] == '(')
    ensures BeforeParen(s) == s[..c]
  {
    if c > 0 {
      BeforeParenIs(s[1..], c - 1);
      assert s[..c] == [s[0]] + s[1..][..c - 1];
    }
  }

  lemma {:induction false} BeforeParenSplit(s: string) returns (c: nat)
    ensures c <= |s| && BeforeParen(s) == s[..c] && (c < |s| ==> s[c] == '(')
    ensures forall k :: 0 <= k < c ==> s[k] != '('
  {
    if s == [] || s[0] == '(' {
      c := 0;
    } else {
      c := BeforeParenSplit(s[1..]);
      assert s[..c + 1] == [s[0]] + s[1..][..c];
      assert forall k :: 1 <= k < c + 1 ==> s[k] == s[1..][k - 1];
      c := c + 1;
    }
  }

  lemma WordOfLetters(word: string, kind: Kind)
    requires KindWord(UpperAll(word), kind)
    ensures word != [] && forall k :: 0 <= k < |word| ==> IsAlnum(word[k])
  {
    var w := UpperAll(word);
    assert forall k :: 0 <= k < |w| ==> 'A' <= w[k] <= 'Z' || w[k] == '2';
    forall k | 0 <= k < |word| ensures IsAlnum(word[k]) {
      assert w[k] == Upper(word[k]);
    }
    assert w != "";
  }

  lemma StripsTo(s: string, a: nat, b: nat)
    requires a < b <= |s| && !IsSpace(s[a]) && !IsSpace(s[b - 1])
    requires forall k :: 0 <= k < a || b <= k < |s| ==> IsSpace(s[k])
    ensures Strip(s) == s[a..b]
  {
    var x, y := StripSplit(s);
    assert x == a && y == b;
  }

  lemma TypeKindWord(s: string, kind: Kind)
    ensures TypeKind(s) == Some(kind) <==> KindWord(UpperAll(Strip(BeforeParen(s))), kind)
  {
    hide Strip, BeforeParen, UpperAll;
  }

  /** A type is read as a date or a timestamp exactly when it is spelled as one. */
  lemma TypeKindIff(s: string, kind: Kind)
    ensures TypeKind(s) == Some(kind) <==> Spells(s, kind)
  {
    hide TypeKind, KindWord, Strip, BeforeParen, UpperAll;
    TypeKindWord(s, kind);
    if TypeKind(s) == Some(kind) {
      var c := BeforeParenSplit(s);
      var a, b := StripSplit(s[..c]);
      assert s[..c][a..b] == s[a..b];
      assert SpelledBy(s, a, b, c, kind);
    }
    if Spells(s, kind) {
      var a: nat, b: nat, c: nat :| SpelledBy(s, a, b, c, kind);
      WordOfLetters(s[a..b], kind);
      assert IsAlnum(s[a..b][0]) && IsAlnum(s[a..b][b - a - 1]);
      forall k | 0 <= k < c ensures s[k] != '(' {
        if a <= k < b {
          assert IsAlnum(s[a..b][k - a]);
        }
      }
      BeforeParenIs(s, c);
      StripsTo(s[..c], a, b);
      assert s[..c][a..b] == s[a..b];
    }
  }

  /** The expression is a date, or a timestamp: a date literal, a conversion to that type, or a
      reference to such a column of the source. */
  ghost predicate TemporalExpr(q: Query, e: Expr, kind: Kind)
    decreases q, 1
  {
    match e
    case Function(name, _) => kind.DATE? && UpperAll(name) == "DATE_STR_TO_DATE"
    case Cast(_, typeName) => Spells(typeName, kind)
    case ColumnRef(name, _, _) => TemporalSource(q, name, kind)
    case _ => false
  }

  /** The single source of the query is a derived table, or its first CTE of the name if that is not
      renamed, with such a column. */
  ghost predicate TemporalSource(q: Query, name: string, kind: Kind)
    decreases q, 0
  {
    && !q.joins
    && match q.from
       case Derived(sub, _, _) => Temporal(sub, name, kind)
       case Table(table, _, _, _, _) =>
         exists i :: 0 <= i < |q.ctes| && FirstCte(q.ctes, i, table) && q.ctes[i].columns == [] &&
           Temporal(q.ctes[i].query, name, kind)
       case _ => false
  }

  predicate FirstCte(ctes: seq<Cte>, i: nat, name: string)
    requires i < |ctes|
  {
    && LowerAll(ctes[i].name) == LowerAll(name)
    && forall j :: 0 <= j < i ==> LowerAll(ctes[j].name) != LowerAll(name)
  }

  /** Output column `k` has that name, and is a date, or a timestamp. */
  ghost predicate TemporalAt(q: Query, k: nat, name: string, kind: Kind)
    requires k < |q.columns|
    decreases q, 2
  {
    match q.columns[k]
    case Alias(x, own) => own != "" && LowerAll(own) == LowerAll(name) && TemporalExpr(q, x, kind)
    case ColumnRef(own, _, _) =>
      own != "" && LowerAll(own) == LowerAll(name) && TemporalExpr(q, q.columns[k], kind)
    case _ => false
  }

  /** The last output column of the name that is a date or a timestamp is of that kind. */
  ghost predicate Temporal(q: Query, name: string, kind: Kind)
    decreases q, 4
  {
    exists k :: 0 <= k < |q.columns| && LastTemporal(q, k, name, kind)
  }

  ghost predicate LastTemporal(q: Query, k: nat, name: string, kind: Kind)
    requires k < |q.columns|
    decreases q, 3
  {
    && TemporalAt(q, k, name, kind)
    && forall l :: k < l < |q.columns| ==> !TemporalAt(q, l, name, DATE) && !TemporalAt(q, l, name, TIMESTAMP)
  }

  /** Every derived table carries the inference of its query, as pairs. */
  ghost predicate Recorded(q: Query) {
    && (q.from.Derived? ==> Carries(q.from.columnTypes, InferColumnTypes(q.from.query)) && Recorded(q.from.query))
    && forall i :: 0 <= i < |q.ctes| ==> Recorded(q.ctes[i].query)
  }

  ghost predicate Carries(types: seq<(string, Kind)>, env: Env) {
    forall n, t :: (n, t) in types <==> n in env && env[n] == t
  }

  predicate Has(env: Env, name: string, kind: Kind) {
    name in env && env[name] == kind
  }

  lemma {:induction false} DictHas(types: seq<(string, Kind)>, name: string)
    ensures name in Dict(types) ==> (name, Dict(types)[name]) in types
    ensures name !in Dict(types) ==> forall t :: (name, t) !in types
  {
    if types != [] {
      DictHas(types[..|types| - 1], name);
      assert types == types[..|types| - 1] + [types[|types| - 1]];
    }
  }

  lemma CarriedHas(types: seq<(string, Kind)>, env: Env, name: string, kind: Kind)
    requires Carries(types, env)
    ensures Has(Dict(types), name, kind) <==> Has(env, name, kind)
  {
    DictHas(types, name);
    if name in env {
      assert (name, env[name]) in types;
    }
  }

  lemma KnownStep(columns: seq<Expr>, src: Env, n: nat, name: string, kind: Kind)
    requires 0 < n <= |columns|
    ensures var before := InferFrom(columns[..n - 1], src);
      Has(InferFrom(columns[..n], src), name, kind) <==>
        KindAt(columns, src, n - 1, name, kind) || (Has(before, name, kind) && NoKindAt(columns, src, n - 1, name))
  {
    hide LowerAll, ExprKind;
    assert columns[..n][..n - 1] == columns[..n - 1];
  }

  ghost predicate NoKindAt(columns: seq<Expr>, src: Env, k: nat, name: string)
    requires k < |columns|
  {
    !KindAt(columns, src, k, name, DATE) && !KindAt(columns, src, k, name, TIMESTAMP)
  }

  ghost predicate LastKindAt(columns: seq<Expr>, src: Env, n: nat, k: nat, name: string, kind: Kind)
    requires k < n <= |columns|
  {
    KindAt(columns, src, k, name, kind) && forall l :: k < l < n ==> NoKindAt(columns, src, l, name)
  }

  /** The last column of a name that has a kind gives the name its kind. */
  lemma {:induction false} LastKnown(columns: seq<Expr>, src: Env, n: nat, name: string, kind: Kind)
    requires n <= |columns|
    ensures Has(InferFrom(columns[..n], src), name, kind) <==>
      exists k :: 0 <= k < n && LastKindAt(columns, src, n, k, name, kind)
  {
    hide KindAt, NoKindAt, InferFrom, LastKindAt;
    if n == 0 {
      NothingKnown(columns, src);
    } else {
      KnownStep(columns, src, n, name, kind);
      LastKnown(columns, src, n - 1, name, kind);
      LastIsLast(columns, src, n, name, kind);
      forall k | 0 <= k < n - 1
        ensures LastKindAt(columns, src, n, k, name, kind) <==>
          LastKindAt(columns, src, n - 1, k, name, kind) && NoKindAt(columns, src, n - 1, name)
      {
        LastShorter(columns, src, n, k, name, kind);
      }
      if Has(InferFrom(columns[..n], src), name, kind) && !KindAt(columns, src, n - 1, name, kind) {
        var k :| 0 <= k < n - 1 && LastKindAt(columns, src, n - 1, k, name, kind);
        assert LastKindAt(columns, src, n, k, name, kind);
      }
    }
  }

  lemma LastIsLast(columns: seq<Expr>, src: Env, n: nat, name: string, kind: Kind)
    requires 0 < n <= |columns|
    ensures LastKindAt(columns, src, n, n - 1, name, kind) <==> KindAt(columns, src, n - 1, name, kind)
  {
    hide KindAt;
  }

  lemma LastShorter(columns: seq<Expr>, src: Env, n: nat, k: nat, name: string, kind: Kind)
    requires k < n - 1 < |columns|
    ensures LastKindAt(columns, src, n, k, name, kind) <==>
      LastKindAt(columns, src, n - 1, k, name, kind) && NoKindAt(columns, src, n - 1, name)
  {
    hide KindAt, NoKindAt;
  }

  lemma NothingKnown(columns: seq<Expr>, src: Env)
    ensures InferFrom(columns[..0], src) == map[]
  {
  }

  lemma {:induction false} ExprTemporalIff(q: Query, e: Expr, kind: Kind)
    requires Recorded(q)
    ensures ExprKind(e, SourceEnv(q)) == Some(kind) <==> TemporalExpr(q, e, kind)
    decreases q, 1
  {
    hide TypeKind, Spells, SourceEnv, TemporalSource, LowerAll, UpperAll, Recorded;
    if e.Cast? {
      TypeKindIff(e.typeName, kind);
    } else if e.ColumnRef? {
      SourceTemporalIff(q, e.name, kind);
    }
  }

  lemma {:induction false} SourceTemporalIff(q: Query, name: string, kind: Kind)
    requires Recorded(q)
    ensures Has(SourceEnv(q), LowerAll(name), kind) <==> TemporalSource(q, name, kind)
    decreases q, 0
  {
    hide Temporal, LowerAll, InferColumnTypes, Carries;
    if !q.joins {
      match q.from
      case Derived(sub, types, _) =>
        CarriedHas(types, InferColumnTypes(sub), LowerAll(name), kind);
        TemporalIff(sub, name, kind);
      case Table(table, _, _, _, _) =>
        var k := CteIndex(q.ctes, table);
        if k < |q.ctes| {
          assert FirstCte(q.ctes, k, table);
          TemporalIff(q.ctes[k].query, name, kind);
        }
      case _ =>
    }
  }

  lemma {:induction false} ColumnTemporalIff(q: Query, k: nat, name: string, kind: Kind)
    requires Recorded(q) && k < |q.columns|
    ensures KindAt(q.columns, SourceEnv(q), k, LowerAll(name), kind) <==> TemporalAt(q, k, name, kind)
    decreases q, 2
  {
    hide TemporalExpr, ExprKind, SourceEnv, LowerAll, Recorded;
    var e := q.columns[k];
    ExprTemporalIff(q, if e.Alias? then e.expr else e, kind);
  }

  /** A name is inferred to be of a kind exactly when the last date or timestamp of that name among the
      outputs is of that kind, however deep the derived tables and CTEs it comes from are nested. */
  lemma {:induction false} TemporalIff(q: Query, name: string, kind: Kind)
    requires Recorded(q)
    ensures Has(InferColumnTypes(q), LowerAll(name), kind) <==> Temporal(q, name, kind)
    decreases q, 4
  {
    hide KindAt, TemporalAt, SourceEnv, LowerAll, Recorded, InferFrom, Has, LastKindAt, LastTemporal;
    var n, src := |q.columns|, SourceEnv(q);
    assert q.columns[..n] == q.columns;
    LastKnown(q.columns, src, n, LowerAll(name), kind);
    forall k, t | 0 <= k < n ensures KindAt(q.columns, src, k, LowerAll(name), t) <==> TemporalAt(q, k, name, t) {
      ColumnTemporalIff(q, k, name, t);
    }
    forall k | 0 <= k < n
      ensures LastKindAt(q.columns, src, n, k, LowerAll(name), kind) <==> LastTemporal(q, k, name, kind)
    {
      LastsAgree(q, k, name, kind);
    }
  }

  lemma LastsAgree(q: Query, k: nat, name: string, kind: Kind)
    requires k < |q.columns|
    requires forall l, t :: 0 <= l < |q.columns| ==>
      (KindAt(q.columns, SourceEnv(q), l, LowerAll(name), t) <==> TemporalAt(q, l, name, t))
    ensures LastKindAt(q.columns, SourceEnv(q), |q.columns|, k, LowerAll(name), kind) <==>
      LastTemporal(q, k, name, kind)
  {
    hide KindAt, TemporalAt, SourceEnv, LowerAll;
    forall l | k < l < |q.columns|
      ensures NoKindAt(q.columns, SourceEnv(q), l, LowerAll(name)) <==>
        !TemporalAt(q, l, name, DATE) && !TemporalAt(q, l, name, TIMESTAMP)
    {
    }
    if LastKindAt(q.columns, SourceEnv(q), |q.columns|, k, LowerAll(name), kind) {
      forall l | k < l < |q.columns| ensures !TemporalAt(q, l, name, DATE) && !TemporalAt(q, l, name, TIMESTAMP) {
        assert NoKindAt(q.columns, SourceEnv(q), l, LowerAll(name));
      }
    }
  }

  /** Where the outputs have distinct names, every date or timestamp among them is inferred. */
  lemma TemporalColumnInferred(q: Query, k: nat, name: string, kind: Kind)
    requires Recorded(q) && DistinctNames(q.columns) && k < |q.columns| && TemporalAt(q, k, name, kind)
    ensures Has(InferColumnTypes(q), LowerAll(name), kind)
  {
    hide LowerAll, Recorded, InferColumnTypes, Has, TemporalExpr;
    forall l | k < l < |q.columns| ensures !TemporalAt(q, l, name, DATE) && !TemporalAt(q, l, name, TIMESTAMP) {
      assert Output(q.columns[k]).Some? && LowerAll(OutputName(q.columns[k])) == LowerAll(name);
    }
    assert LastTemporal(q, k, name, kind);
    TemporalIff(q, name, kind);
  }

  /** Part number `i` of an expression; a nested query has none. */
  function Part(e: Expr, i: nat): Option<Expr> {
    match e
    case Alias(x, _) => if i == 0 then Some(x) else None
    case Cast(x, _) => if i == 0 then Some(x) else None
    case Function(_, args) => if i < |args| then Some(args[i]) else None
    case Node(_, kids) => if i < |kids| then Some(kids[i]) else None
    case _ => None
  }

  /** What stands in an expression at the end of a path. */
  function PartAt(e: Expr, path: seq<nat>): Option<Expr>
    decreases |path|
  {
    if path == [] then Some(e)
    else
      var x := Part(e, path[0]);
      if x.None? then None else PartAt(x.value, path[1..])
  }

  lemma {:induction false} TagAt(e: Expr, env: Env, path: seq<nat>)
    requires PartAt(e, path).Some?
    ensures PartAt(Tag(e, env), path) == Some(Tag(PartAt(e, path).value, env))
    decreases |path|
  {
    if path != [] {
      TagAt(Part(e, path[0]).value, env, path[1..]);
      assert Part(Tag(e, env), path[0]) == Some(Tag(Part(e, path[0]).value, env));
    }
  }

  /** A reference anywhere in an output column is tagged with a kind exactly when it has no qualifier
      and no tag and the source has a date or a timestamp of that kind under its name. */
  lemma TaggedIff(q: Query, i: nat, path: seq<nat>, kind: Kind)
    requires Recorded(q) && i < |q.columns|
    requires PartAt(q.columns[i], path).Some? && PartAt(q.columns[i], path).value.ColumnRef?
    ensures var was := PartAt(q.columns[i], path).value; var now := PartAt(TagTemporalColumns(q).columns[i], path);
      && now.Some? && now.value.ColumnRef? && now.value.name == was.name && now.value.table == was.table
      && (now.value.inferred == Some(kind) <==>
        if was.table.None? && was.inferred.None? then TemporalSource(q, was.name, kind) else was.inferred == Some(kind))
  {
    hide SourceEnv, TemporalSource, LowerAll, Recorded, TagTemporalColumns, PartAt;
    TaggedColumn(q, i);
    TagAt(q.columns[i], SourceEnv(q), path);
    SourceTemporalIff(q, PartAt(q.columns[i], path).value.name, kind);
  }

  /** A nested query stays as it is. */
  lemma NestedUntagged(q: Query, i: nat, path: seq<nat>)
    requires i < |q.columns| && PartAt(q.columns[i], path).Some? && PartAt(q.columns[i], path).value.Scalar?
    ensures PartAt(TagTemporalColumns(q).columns[i], path) == PartAt(q.columns[i], path)
  {
    hide SourceEnv, TagTemporalColumns, PartAt;
    TaggedColumn(q, i);
    TagAt(q.columns[i], SourceEnv(q), path);
  }

  // ----- four queries the inference is wrong about, with the engine that shows it -----

  function Day(): Expr {
    Alias(Function("DATE_STR_TO_DATE", []), "d")
  }

  function One(name: string): Expr {
    Alias(Node("one", []), name)
  }

  function Simple(columns: seq<Expr>): Query {
    Query(columns, NoFrom, false, [], [])
  }

  lemma DayInferred(src: Env)
    ensures InferFrom([Day()], src) == map["d" := DATE]
    ensures InferFrom([Day(), One("n")], src) == map["d" := DATE]
  {
    hide TypeKind;
    assert [Day()][..0] == [] && [Day(), One("n")][..1] == [Day()];
    assert UpperAll("DATE_STR_TO_DATE") == "DATE_STR_TO_DATE";
    assert LowerAll("d") == "d";
    assert InferFrom([], src) == map[];
    assert InferFrom([Day()], src) == map["d" := DATE];
  }

  /** SELECT DATE '...' AS d UNION ALL SELECT 1. */
  function UnionQuery(): Query {
    Simple([Day()]).(arms := [Arm(Union, Simple([One("n")]))])
  }

  lemma SetOperationUnsound() returns (g: Engine)
    ensures Typed(g)
    ensures !Sound(Result(g, UnionQuery(), []), InferColumnTypes(UnionQuery()))
  {
    var q := UnionQuery();
    DayInferred(SourceEnv(q));
    assert ShapeOf(q, []).kinds[0] == Unknown;
    assert LowerAll(OutputName(q.columns[0])) == "d";
    Wrong(q, 0);
    g := WorstRefutes(q, []);
  }

  /** SELECT DATE '...' AS d EXCEPT SELECT DATE '...' UNION ALL SELECT CAST(... AS TIMESTAMP). */
  function ExceptUnionQuery(): Query {
    var stamp := Alias(Cast(Node("one", []), "TIMESTAMP"), "t");
    Simple([Day()]).(arms := [Arm(Except, Simple([Day()])), Arm(Union, Simple([stamp]))])
  }

  /** The UNION after the EXCEPT counts as well: the chain is read from the left. */
  lemma ChainUnsound() returns (g: Engine)
    ensures Typed(g) && !Plain(ExceptUnionQuery())
    ensures !Sound(Result(g, ExceptUnionQuery(), []), InferColumnTypes(ExceptUnionQuery()))
  {
    hide TypeKind;
    var q := ExceptUnionQuery();
    DayInferred(SourceEnv(q));
    StampKind();
    assert LowerAll(OutputName(q.columns[0])) == "d";
    var arm := q.arms[1].query;
    assert ShapeOf(arm, []).kinds[0] == Always(TIMESTAMP) by { ShapeIs(arm, []); }
    assert CteShapes(q, [], |q.ctes|) == [];
    g := TailRefutes(q, 1, 0, []);
  }

  lemma StampKind()
    ensures TypeKind("TIMESTAMP") == Some(TIMESTAMP)
  {
    hide Strip, BeforeParen;
    var s := "TIMESTAMP";
    NoParen(s);
    StripFixed(s);
    assert |s| == 9 && |"DATE"| == 4;
    UpperStamp();
  }

  lemma UpperStamp()
    ensures UpperAll("TIMESTAMP") == "TIMESTAMP"
  {
  }

  lemma {:induction false} NoParen(s: string)
    requires '(' !in s
    ensures BeforeParen(s) == s
  {
    if s != [] {
      NoParen(s[1..]);
    }
  }

  lemma Wrong(q: Query, k: nat)
    requires k < |q.columns| && LowerAll(OutputName(q.columns[k])) in InferColumnTypes(q) &&
      ShapeOf(q, []).kinds[k] == Unknown
    ensures !EnvAllowed(q)
  {
  }

  /** WITH x AS (SELECT DATE '...' AS d, 1 AS n) SELECT d FROM the given relation. */
  function OverCte(f: From): Query {
    Query([ColumnRef("d", None, None)], f, false, [Cte("x", [], Simple([Day(), One("n")]))], [])
  }

  lemma OverCteInferred(f: From)
    requires f.Table? && f.name == "x"
    ensures InferColumnTypes(OverCte(f)) == map["d" := DATE] && SourceEnv(OverCte(f)) == map["d" := DATE]
    ensures LowerAll(OutputName(OverCte(f).columns[0])) == "d" && OnlyUnions(OverCte(f))
  {
    hide TypeKind;
    var q := OverCte(f);
    DayInferred(map[]);
    assert CteIndex(q.ctes, "x") == 0;
    assert LowerAll("d") == "d";
    var d := q.columns[0];
    assert q.columns[..0] == [] && q.columns == [d];
    var src := SourceEnv(q);
    var inner := q.ctes[0].query;
    assert inner.columns == [Day(), One("n")] && SourceEnv(inner) == map[];
    assert InferColumnTypes(inner) == map["d" := DATE];
    assert src == map["d" := DATE];
    assert InferFrom([], src) == map[];
    assert ExprKind(d, src) == Some(DATE);
    assert AddColumn(map[], d, src) == map["d" := DATE];
  }

  /** ... FROM s.x: a qualified table that shares its name with the CTE. */
  lemma QualifiedTableUnsound() returns (g: Engine)
    ensures Typed(g)
    ensures var q := OverCte(Table("x", Some("s"), None, [], None)); !Sound(Result(g, q, []), InferColumnTypes(q))
    ensures g == Worst(["d"])
  {
    var q := OverCte(Table("x", Some("s"), None, [], None));
    OverCteInferred(q.from);
    assert SourceShape(q, []) == Opaque;
    assert ShapeOf(q, []).kinds[0] == Unknown;
    Wrong(q, 0);
    g := WorstRefutes(q, ["d"]);
  }

  /** ... FROM f(..) AS x(d): a function whose alias is the name of the CTE. */
  lemma RoutineUnsound(f: Expr) returns (g: Engine)
    ensures Typed(g)
    ensures var q := OverCte(Table("x", None, Some("x"), ["d"], Some(f))); !Sound(Result(g, q, []), InferColumnTypes(q))
    ensures g == Worst(["c"])
  {
    var q := OverCte(Table("x", None, Some("x"), ["d"], Some(f)));
    OverCteInferred(q.from);
    assert SourceShape(q, []) == Opaque;
    assert ShapeOf(q, []).kinds[0] == Unknown;
    Wrong(q, 0);
    g := WorstRefutes(q, ["c"]);
  }

  /** ... FROM x AS y(n, d): the CTE itself, its columns renamed crosswise. */
  lemma RenamedCteUnsound() returns (g: Engine)
    ensures Typed(g)
    ensures var q := OverCte(Table("x", None, Some("y"), ["n", "d"], None));
      !Sound(Result(g, q, []), InferColumnTypes(q))
    ensures g == Worst([])
  {
    var q := OverCte(Table("x", None, Some("y"), ["n", "d"], None));
    OverCteInferred(q.from);
    CrosswiseShape(q);
    Wrong(q, 0);
    g := WorstRefutes(q, []);
  }

  lemma CrosswiseShape(q: Query)
    requires q == OverCte(Table("x", None, Some("y"), ["n", "d"], None))
    ensures ShapeOf(q, []).kinds[0] == Unknown
  {
    hide TypeKind, NameIndex;
    var inner := Simple([Day(), One("n")]);
    var s := ShapeOf(inner, []);
    DayAndOne();
    assert CteShapes(q, [], 0) == [];
    var shapes := CteShapes(q, [], 1);
    assert shapes == [("x", RenamedShape(s, []))];
    assert RenamedShape(s, []) == s by { NotRenamed(s); }
    assert FindShape(shapes, "x") == s;
    var r := RenamedShape(s, ["n", "d"]);
    assert r.names == ["n", "d"];
    assert SourceShape(q, []) == r;
    SecondName();
  }

  lemma DayAndOne()
    ensures var s := ShapeOf(Simple([Day(), One("n")]), []); s.kinds[1] == Unknown && |s.names| == 2
  {
    hide TypeKind, NameIndex;
  }

  lemma SecondName()
    ensures NameIndex(["n", "d"], "d") == 1
  {
    assert LowerAll("n") == "n" && LowerAll("d") == "d" && "n"[0] != "d"[0];
    assert ["n", "d"][1..] == ["d"];
  }
}
