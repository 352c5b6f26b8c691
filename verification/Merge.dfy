/** `_merge_to_mysql_upsert` of src/unique/core/converter/_base.py: a canonical MERGE rewritten as
    INSERT ... ON DUPLICATE KEY UPDATE, and what the two statements do to a table. */
module Merge {
  import opened Basics

  /** Numbers, texts, and structured values such as dates or lists. */
  datatype Value = Null | Val(v: int) | Text(s: string) | Struct(name: string, fields: seq<Value>)

  /** A row; the columns of the table that a row does not mention are NULL. */
  type Row = map<string, Value>

  datatype Side = Target | Source

  /** A scalar expression after name resolution; its rendering as SQL text is injective. */
  datatype Expr =
    | Literal(v: int)
    | NullLiteral
    | Column(side: Side, name: string)
    | Call(name: string, args: seq<Expr>)

  datatype SetItem = SetEq(col: string, rhs: Expr) | SetOther

  /** A node that the source accepts only as a tuple. */
  datatype Tuple<T> = Tuple(items: seq<T>) | NotTuple

  datatype Action =
    | Update(items: seq<SetItem>)
    | Insert(cols: Tuple<string>, vals: Tuple<Expr>)
    | OtherAction

  datatype When = When(matched: bool, conditional: bool, action: Action)

  /** The ON condition: a conjunction of equalities and of anything else. */
  datatype Cond = Equal(left: Expr, right: Expr) | Both(first: Cond, second: Cond) | Test(name: string, args: seq<Expr>)

  datatype MergeStmt = MergeStmt(returning: bool, whens: seq<When>, on: Cond)

  datatype Rhs = ValuesOf(col: string) | Constant(e: Expr)

  /** INSERT INTO t (cols) SELECT vals FROM source ON DUPLICATE KEY UPDATE sets. */
  datatype Upsert = Upsert(cols: seq<string>, vals: seq<Expr>, sets: seq<(string, Rhs)>)

  // ----- which statements are rewritten, and to what -----

  predicate IsUpdate(w: When) {
    w.matched && !w.conditional && w.action.Update?
  }

  predicate IsInsert(w: When) {
    !w.matched && !w.conditional && w.action.Insert?
  }

  predicate IsConstant(e: Expr) {
    e.Literal? || e.NullLiteral?
  }

  /** One unconditional UPDATE and one unconditional INSERT, in either order. */
  predicate Shape(m: MergeStmt) {
    && !m.returning && |m.whens| == 2
    && ((IsUpdate(m.whens[0]) && IsInsert(m.whens[1])) || (IsInsert(m.whens[0]) && IsUpdate(m.whens[1])))
  }

  function UpdateOf(m: MergeStmt): Action
    requires Shape(m)
  {
    if m.whens[0].matched then m.whens[0].action else m.whens[1].action
  }

  function InsertOf(m: MergeStmt): Action
    requires Shape(m)
  {
    if m.whens[0].matched then m.whens[1].action else m.whens[0].action
  }

  predicate Rewritable(m: MergeStmt) {
    && Shape(m)
    && var ins := InsertOf(m);
    && ins.cols.Tuple? && ins.vals.Tuple? && |ins.cols.items| == |ins.vals.items|
    && forall i :: 0 <= i < |UpdateOf(m).items| ==> Assignable(UpdateOf(m).items[i], ins.vals.items)
  }

  predicate Assignable(s: SetItem, vals: seq<Expr>) {
    s.SetEq? && (s.rhs in vals || IsConstant(s.rhs))
  }

  /** The assignment `a` stands for the SET item `s`: the inserted value it repeats, or its constant. */
  ghost predicate Stands(s: SetItem, a: (string, Rhs), cols: seq<string>, vals: seq<Expr>)
    requires |cols| == |vals|
  {
    && s.SetEq? && a.0 == s.col
    && match a.1
       case ValuesOf(c) => exists j :: 0 <= j < |cols| && cols[j] == c && vals[j] == s.rhs
       case Constant(e) => e == s.rhs && IsConstant(e) && s.rhs !in vals
  }

  ghost predicate RewriteOf(m: MergeStmt, u: Upsert)
  {
    && Rewritable(m)
    && u.cols == InsertOf(m).cols.items && u.vals == InsertOf(m).vals.items
    && |u.sets| == |UpdateOf(m).items|
    && forall i :: 0 <= i < |u.sets| ==> Stands(UpdateOf(m).items[i], u.sets[i], u.cols, u.vals)
  }

  /** The dictionary from an inserted value to its column; the last column of a value wins. */
  method ValueToColumn(cols: seq<string>, vals: seq<Expr>) returns (d: map<Expr, string>)
    requires |cols| == |vals|
    ensures forall e :: e in d <==> e in vals
    ensures forall e :: e in d ==> exists j :: 0 <= j < |cols| && cols[j] == d[e] && vals[j] == e
  {
    d := map[];
    for i := 0 to |cols|
      invariant forall e :: e in d <==> e in vals[..i]
      invariant forall e :: e in d ==> exists j :: 0 <= j < i && cols[j] == d[e] && vals[j] == e
    {
      d := d[vals[i] := cols[i]];
    }
  }

  method MergeToUpsert(m: MergeStmt) returns (r: Option<Upsert>)
    ensures r.Some? <==> Rewritable(m)
    ensures r.Some? ==> RewriteOf(m, r.value)
  {
    if m.returning { return None; }
    if |m.whens| != 2 { return None; }
    var update: Option<Action> := None;
    var insert: Option<Action> := None;
    for i := 0 to |m.whens|
      invariant forall k :: 0 <= k < i ==> IsUpdate(m.whens[k]) || IsInsert(m.whens[k])
      invariant update.Some? <==> exists k :: 0 <= k < i && IsUpdate(m.whens[k])
      invariant insert.Some? <==> exists k :: 0 <= k < i && IsInsert(m.whens[k])
      invariant update.Some? ==> exists k :: 0 <= k < i && IsUpdate(m.whens[k]) && update.value == m.whens[k].action
      invariant insert.Some? ==> exists k :: 0 <= k < i && IsInsert(m.whens[k]) && insert.value == m.whens[k].action
    {
      var w := m.whens[i];
      if w.conditional { return None; }
      if w.matched && w.action.Update? {
        assert IsUpdate(w);
        update := Some(w.action);
      } else if !w.matched && w.action.Insert? {
        assert IsInsert(w);
        insert := Some(w.action);
      } else {
        return None;
      }
    }
    if update.None? || insert.None? { return None; }
    assert Shape(m) && update.value == UpdateOf(m) && insert.value == InsertOf(m);
    if insert.value.cols.NotTuple? || insert.value.vals.NotTuple? { return None; }
    var cols, vals := insert.value.cols.items, insert.value.vals.items;
    if |cols| != |vals| { return None; }
    var valueToCol := ValueToColumn(cols, vals);
    var items := update.value.items;
    var sets: seq<(string, Rhs)> := [];
    for i := 0 to |items|
      invariant |sets| == i
      invariant forall k :: 0 <= k < i ==> Assignable(items[k], vals)
      invariant forall k :: 0 <= k < i ==> Stands(items[k], sets[k], cols, vals)
    {
      if items[i].SetOther? { return None; }
      var rhs := items[i].rhs;
      if rhs in valueToCol {
        sets := sets + [(items[i].col, ValuesOf(valueToCol[rhs]))];
      } else if IsConstant(rhs) {
        sets := sets + [(items[i].col, Constant(rhs))];
      } else {
        assert !Assignable(items[i], vals);
        return None;
      }
    }
    r := Some(Upsert(cols, vals, sets));
  }

  // ----- what the statements mean -----

  /** Everything the source leaves to the database: functions and predicates, the defaults of columns that
      an INSERT does not list, and the columns of the target table's unique key. */
  datatype Engine = Engine(
    call: (string, seq<Value>) -> Value,
    test: (string, seq<Value>) -> bool,
    defaults: Row,
    key: seq<string>)

  function Get(row: Row, col: string): Value {
    if col in row then row[col] else Null
  }

  function Eval(g: Engine, e: Expr, target: Row, source: Row): Value {
    match e
    case Literal(v) => Val(v)
    case NullLiteral => Null
    case Column(Target, name) => Get(target, name)
    case Column(Source, name) => Get(source, name)
    case Call(name, args) => g.call(name, seq(|args|, i requires 0 <= i < |args| => Eval(g, args[i], target, source)))
  }

  predicate SourceOnly(e: Expr) {
    match e
    case Column(side, _) => side.Source?
    case Call(_, args) => forall i :: 0 <= i < |args| ==> SourceOnly(args[i])
    case _ => true
  }

  lemma {:induction false} SourceOnlyEval(g: Engine, e: Expr, x: Row, y: Row, source: Row)
    requires SourceOnly(e)
    ensures Eval(g, e, x, source) == Eval(g, e, y, source)
  {
    if e.Call? {
      var a := seq(|e.args|, i requires 0 <= i < |e.args| => Eval(g, e.args[i], x, source));
      var b := seq(|e.args|, i requires 0 <= i < |e.args| => Eval(g, e.args[i], y, source));
      forall i | 0 <= i < |e.args| ensures a[i] == b[i] {
        SourceOnlyEval(g, e.args[i], x, y, source);
      }
      assert a == b;
    }
  }

  /** The ON condition is true: neither false nor unknown. */
  function Holds(g: Engine, c: Cond, target: Row, source: Row): bool {
    match c
    case Equal(a, b) => !Eval(g, a, target, source).Null? && Eval(g, a, target, source) == Eval(g, b, target, source)
    case Both(x, y) => Holds(g, x, target, source) && Holds(g, y, target, source)
    case Test(name, args) => g.test(name, seq(|args|, i requires 0 <= i < |args| => Eval(g, args[i], target, source)))
  }

  predicate Matches(g: Engine, m: MergeStmt, row: Row, s: Row) {
    Holds(g, m.on, row, s)
  }

  /** A table, indexed by its unique key. */
  type Key = seq<Value>
  type Table = map<Key, Row>

  function KeyOf(g: Engine, row: Row): Key {
    seq(|g.key|, i requires 0 <= i < |g.key| => Get(row, g.key[i]))
  }

  /** The row INSERT builds from the source row `s`. */
  function NewRow(g: Engine, cols: seq<string>, vals: seq<Expr>, s: Row): Row
    requires |cols| == |vals|
  {
    if cols == [] then g.defaults
    else NewRow(g, cols[..|cols| - 1], vals[..|cols| - 1], s)
           [cols[|cols| - 1] := Eval(g, vals[|cols| - 1], map[], s)]
  }

  function Inserted(g: Engine, m: MergeStmt, s: Row): Row
    requires Rewritable(m)
  {
    NewRow(g, InsertOf(m).cols.items, InsertOf(m).vals.items, s)
  }

  function InsertKey(g: Engine, m: MergeStmt, s: Row): Key
    requires Rewritable(m)
  {
    KeyOf(g, Inserted(g, m, s))
  }

  /** UPDATE SET: every right-hand side reads the row as it was. */
  function SetItems(g: Engine, was: Row, row: Row, items: seq<SetItem>, s: Row): Row
    requires forall i :: 0 <= i < |items| ==> items[i].SetEq?
  {
    if items == [] then row
    else
      var n := |items| - 1;
      SetItems(g, was, row, items[..n], s)[items[n].col := Eval(g, items[n].rhs, was, s)]
  }

  ghost predicate Valid(g: Engine, t: Table) {
    forall k :: k in t ==> Null !in k && KeyOf(g, t[k]) == k
  }

  /** The source row that matches a row of the table, if there is one. */
  function MatchFor(g: Engine, m: MergeStmt, source: seq<Row>, row: Row): Option<Row> {
    if source == [] then None
    else if Matches(g, m, row, source[|source| - 1]) then Some(source[|source| - 1])
    else MatchFor(g, m, source[..|source| - 1], row)
  }

  predicate Unmatched(g: Engine, m: MergeStmt, t: Table, s: Row) {
    forall k :: k in t ==> !Matches(g, m, t[k], s)
  }

  /** MERGE raises no error: no target row is matched twice, no inserted key is NULL or a duplicate. */
  ghost predicate ErrorFree(g: Engine, m: MergeStmt, t: Table, source: seq<Row>)
    requires Rewritable(m)
  {
    && (forall i, j, k :: 0 <= i < j < |source| && k in t ==>
          !Matches(g, m, t[k], source[i]) || !Matches(g, m, t[k], source[j]))
    && (forall i :: 0 <= i < |source| && Unmatched(g, m, t, source[i]) ==>
          InsertKey(g, m, source[i]) !in t && Null !in InsertKey(g, m, source[i]))
    && (forall i, j :: 0 <= i < j < |source| && Unmatched(g, m, t, source[i]) && Unmatched(g, m, t, source[j]) ==>
          InsertKey(g, m, source[i]) != InsertKey(g, m, source[j]))
  }

  function UpdatedRows(g: Engine, m: MergeStmt, t: Table, source: seq<Row>): Table
    requires Rewritable(m)
  {
    map k | k in t ::
      match MatchFor(g, m, source, t[k])
      case None => t[k]
      case Some(s) => SetItems(g, t[k], t[k], UpdateOf(m).items, s)
  }

  function InsertedRows(g: Engine, m: MergeStmt, t: Table, source: seq<Row>): Table
    requires Rewritable(m)
  {
    if source == [] then map[]
    else
      var s := source[|source| - 1];
      var before := InsertedRows(g, m, t, source[..|source| - 1]);
      if Unmatched(g, m, t, s) then before[InsertKey(g, m, s) := Inserted(g, m, s)] else before
  }

  /** MERGE: every source row is joined with the table as it was before the statement. */
  function MergeResult(g: Engine, m: MergeStmt, t: Table, source: seq<Row>): Table
    requires Rewritable(m)
  {
    UpdatedRows(g, m, t, source) + InsertedRows(g, m, t, source)
  }

  /** ON DUPLICATE KEY UPDATE: assignments run left to right on the row; VALUES(c) is the value that
      would have been inserted into c. */
  function ApplySets(g: Engine, row: Row, sets: seq<(string, Rhs)>, inserted: Row): Row {
    if sets == [] then row
    else
      var n := |sets| - 1;
      var (col, rhs) := sets[n];
      ApplySets(g, row, sets[..n], inserted)[col :=
        match rhs
        case ValuesOf(c) => Get(inserted, c)
        case Constant(e) => Eval(g, e, map[], map[])]
  }

  function UpsertRow(g: Engine, m: MergeStmt, u: Upsert, t: Table, s: Row): Option<Table>
    requires |u.cols| == |u.vals|
  {
    var row := NewRow(g, u.cols, u.vals, s);
    var k := KeyOf(g, row);
    if Null in k then None
    else if k in t then Some(t[k := ApplySets(g, t[k], u.sets, row)])
    else Some(t[k := row])
  }

  /** The upsert takes the source row by row; None is an error. */
  function UpsertAll(g: Engine, m: MergeStmt, u: Upsert, t: Table, source: seq<Row>): Option<Table>
    requires |u.cols| == |u.vals|
  {
    if source == [] then Some(t)
    else match UpsertAll(g, m, u, t, source[..|source| - 1])
      case None => None
      case Some(t') => UpsertRow(g, m, u, t', source[|source| - 1])
  }

  // ----- when they mean the same -----

  /** What SQL itself demands: no column twice in the INSERT list or the key, inserted values read the
      source row only. */
  ghost predicate Legal(key: seq<string>, m: MergeStmt)
    requires Rewritable(m)
  {
    var cols, vals := InsertOf(m).cols.items, InsertOf(m).vals.items;
    && (forall i, j :: 0 <= i < j < |cols| ==> cols[i] != cols[j])
    && (forall i :: 0 <= i < |vals| ==> SourceOnly(vals[i]))
    && (forall i, j :: 0 <= i < j < |key| ==> key[i] != key[j])
  }

  /** And no assignment touches a key column. */
  ghost predicate WellFormed(key: seq<string>, m: MergeStmt)
    requires Rewritable(m)
  {
    && Legal(key, m)
    && forall i, j :: 0 <= i < |UpdateOf(m).items| && 0 <= j < |key| ==> UpdateOf(m).items[i].col != key[j]
  }

  /** The source row matches no row of any table but one with the very key it is inserted under. */
  ghost predicate KeyAgrees(g: Engine, m: MergeStmt, s: Row)
    requires Rewritable(m)
  {
    forall row: Row :: Matches(g, m, row, s) && Null !in KeyOf(g, row) ==> KeyOf(g, row) == InsertKey(g, m, s)
  }

  lemma {:induction false} NewRowAt(g: Engine, cols: seq<string>, vals: seq<Expr>, s: Row, j: nat)
    requires |cols| == |vals| && j < |cols|
    requires forall i, k :: 0 <= i < k < |cols| ==> cols[i] != cols[k]
    ensures Get(NewRow(g, cols, vals, s), cols[j]) == Eval(g, vals[j], map[], s)
  {
    var n := |cols| - 1;
    if j < n {
      NewRowAt(g, cols[..n], vals[..n], s, j);
    }
    hide Eval;
  }

  /** Each assignment gives the value of the SET item it stands for, whatever the matched row is. */
  lemma AssignmentValue(g: Engine, m: MergeStmt, u: Upsert, i: nat, was: Row, s: Row)
    requires RewriteOf(m, u) && Legal(g.key, m) && i < |u.sets|
    ensures Eval(g, UpdateOf(m).items[i].rhs, was, s) ==
      match u.sets[i].1
      case ValuesOf(c) => Get(Inserted(g, m, s), c)
      case Constant(e) => Eval(g, e, map[], map[])
  {
    var item := UpdateOf(m).items[i];
    assert Stands(item, u.sets[i], u.cols, u.vals);
    if u.sets[i].1.ValuesOf? {
      var j :| 0 <= j < |u.cols| && u.cols[j] == u.sets[i].1.col && u.vals[j] == item.rhs;
      NewRowAt(g, u.cols, u.vals, s, j);
      SourceOnlyEval(g, item.rhs, map[], was, s);
    }
    hide NewRow;
  }

  lemma SameColumn(m: MergeStmt, u: Upsert, i: nat)
    requires RewriteOf(m, u) && i < |u.sets|
    ensures u.sets[i].0 == UpdateOf(m).items[i].col
  {
    hide Assignable;
    assert Stands(UpdateOf(m).items[i], u.sets[i], u.cols, u.vals);
  }

  lemma {:induction false} SetsAgree(g: Engine, m: MergeStmt, u: Upsert, was: Row, s: Row, n: nat)
    requires RewriteOf(m, u) && Legal(g.key, m) && n <= |u.sets|
    ensures ApplySets(g, was, u.sets[..n], Inserted(g, m, s)) == SetItems(g, was, was, UpdateOf(m).items[..n], s)
  {
    hide Legal, Eval, Inserted, Assignable, Stands;
    if n > 0 {
      SetsAgree(g, m, u, was, s, n - 1);
      AssignmentValue(g, m, u, n - 1, was, s);
      SameColumn(m, u, n - 1);
      assert u.sets[..n][..n - 1] == u.sets[..n - 1];
      assert UpdateOf(m).items[..n][..n - 1] == UpdateOf(m).items[..n - 1];
    }
  }

  lemma {:induction false} NoMatch(g: Engine, m: MergeStmt, source: seq<Row>, row: Row)
    requires forall i :: 0 <= i < |source| ==> !Matches(g, m, row, source[i])
    ensures MatchFor(g, m, source, row) == None
  {
    hide Matches;
    if source != [] {
      NoMatch(g, m, source[..|source| - 1], row);
    }
  }

  lemma {:induction false} InsertedFrom(g: Engine, m: MergeStmt, t: Table, source: seq<Row>, k: Key)
    requires Rewritable(m) && k in InsertedRows(g, m, t, source)
    ensures exists i :: 0 <= i < |source| && Unmatched(g, m, t, source[i]) && InsertKey(g, m, source[i]) == k
  {
    hide Unmatched, InsertKey, Rewritable, Inserted;
    var n := |source| - 1;
    if k in InsertedRows(g, m, t, source[..n]) {
      InsertedFrom(g, m, t, source[..n], k);
      var i :| 0 <= i < n && Unmatched(g, m, t, source[..n][i]) && InsertKey(g, m, source[..n][i]) == k;
      assert source[..n][i] == source[i];
    } else {
      assert Unmatched(g, m, t, source[n]) && InsertKey(g, m, source[n]) == k;
    }
  }

  lemma ErrorFreePrefix(g: Engine, m: MergeStmt, t: Table, source: seq<Row>, n: nat)
    requires Rewritable(m) && ErrorFree(g, m, t, source) && n <= |source|
    ensures ErrorFree(g, m, t, source[..n])
  {
    hide Matches, Unmatched, InsertKey, Rewritable;
    assert forall i :: 0 <= i < n ==> source[..n][i] == source[i];
  }

  lemma InsertedDisjoint(g: Engine, m: MergeStmt, t: Table, source: seq<Row>)
    requires Rewritable(m) && ErrorFree(g, m, t, source)
    ensures InsertedRows(g, m, t, source).Keys !! t.Keys
  {
    hide Matches, Unmatched, InsertKey, Rewritable, InsertedRows;
    forall k | k in InsertedRows(g, m, t, source) ensures k !in t {
      InsertedFrom(g, m, t, source, k);
    }
  }

  lemma UpdatedStep(g: Engine, m: MergeStmt, t: Table, source: seq<Row>, n: nat, k: Key)
    requires Rewritable(m) && n + 1 == |source| && k in t
    requires forall x :: x in t ==> (Matches(g, m, t[x], source[n]) <==> x == k)
    ensures UpdatedRows(g, m, t, source)
         == UpdatedRows(g, m, t, source[..n])[k := SetItems(g, t[k], t[k], UpdateOf(m).items, source[n])]
  {
    hide Matches, SetItems, Rewritable;
  }

  lemma NotUpdated(g: Engine, m: MergeStmt, t: Table, source: seq<Row>, n: nat)
    requires Rewritable(m) && n + 1 == |source| && Unmatched(g, m, t, source[n])
    ensures UpdatedRows(g, m, t, source) == UpdatedRows(g, m, t, source[..n])
  {
    hide Matches, SetItems, Rewritable;
  }

  /** A row of the table that the source row matches has the key it is inserted under. */
  lemma MatchedKey(g: Engine, m: MergeStmt, t: Table, s: Row)
    requires Rewritable(m) && Valid(g, t) && KeyAgrees(g, m, s) && !Unmatched(g, m, t, s)
    ensures var k := InsertKey(g, m, s);
      k in t && Null !in k && forall x :: x in t ==> (Matches(g, m, t[x], s) <==> x == k)
  {
    hide Matches, KeyOf, InsertKey, Rewritable;
  }

  lemma NotMatchedBefore(g: Engine, m: MergeStmt, t: Table, source: seq<Row>, n: nat, k: Key)
    requires Rewritable(m) && ErrorFree(g, m, t, source) && n + 1 == |source| && k in t
    requires Matches(g, m, t[k], source[n])
    ensures MatchFor(g, m, source[..n], t[k]) == None
  {
    hide Matches, Unmatched, InsertKey, Rewritable;
    assert forall i :: 0 <= i < n ==> source[..n][i] == source[i];
    NoMatch(g, m, source[..n], t[k]);
  }

  /** The last source row, when it matches a row of the table. */
  lemma MatchedStep(g: Engine, m: MergeStmt, u: Upsert, t: Table, source: seq<Row>, n: nat)
    requires RewriteOf(m, u) && WellFormed(g.key, m) && Valid(g, t) && ErrorFree(g, m, t, source)
    requires n + 1 == |source| && KeyAgrees(g, m, source[n]) && !Unmatched(g, m, t, source[n])
    ensures UpsertRow(g, m, u, MergeResult(g, m, t, source[..n]), source[n]) == Some(MergeResult(g, m, t, source))
  {
    hide Matches, Unmatched, KeyOf, Legal, ErrorFree, KeyAgrees, Valid, NewRow, SetItems, ApplySets;
    var s, before := source[n], source[..n];
    var k := InsertKey(g, m, s);
    MatchedKey(g, m, t, s);
    NotMatchedBefore(g, m, t, source, n, k);
    ErrorFreePrefix(g, m, t, source, n);
    InsertedDisjoint(g, m, t, before);
    SetsAgree(g, m, u, t[k], s, |u.sets|);
    assert u.sets[..|u.sets|] == u.sets && UpdateOf(m).items[..|u.sets|] == UpdateOf(m).items;
    var row := SetItems(g, t[k], t[k], UpdateOf(m).items, s);
    var was := MergeResult(g, m, t, before);
    assert was[k] == t[k];
    assert UpsertRow(g, m, u, was, s) == Some(was[k := row]);
    MatchedResult(g, m, t, source, n, k, row);
  }

  lemma MatchedResult(g: Engine, m: MergeStmt, t: Table, source: seq<Row>, n: nat, k: Key, row: Row)
    requires Rewritable(m) && n + 1 == |source| && k in t
    requires forall x :: x in t ==> (Matches(g, m, t[x], source[n]) <==> x == k)
    requires InsertedRows(g, m, t, source[..n]).Keys !! t.Keys
    requires row == SetItems(g, t[k], t[k], UpdateOf(m).items, source[n])
    ensures MergeResult(g, m, t, source) == MergeResult(g, m, t, source[..n])[k := row]
  {
    hide Matches, SetItems, Rewritable, UpdatedRows, InsertedRows;
    UpdatedStep(g, m, t, source, n, k);
    NothingInserted(g, m, t, source, n, k);
    var upd, ins := UpdatedRows(g, m, t, source[..n]), InsertedRows(g, m, t, source[..n]);
    assert upd[k := row] + ins == (upd + ins)[k := row];
  }

  lemma NothingInserted(g: Engine, m: MergeStmt, t: Table, source: seq<Row>, n: nat, k: Key)
    requires Rewritable(m) && n + 1 == |source| && k in t && Matches(g, m, t[k], source[n])
    ensures InsertedRows(g, m, t, source) == InsertedRows(g, m, t, source[..n])
  {
    hide Matches, Rewritable, InsertKey, Inserted;
    assert !Unmatched(g, m, t, source[n]);
  }

  lemma NewKey(g: Engine, m: MergeStmt, t: Table, source: seq<Row>, n: nat)
    requires Rewritable(m) && ErrorFree(g, m, t, source) && n + 1 == |source| && Unmatched(g, m, t, source[n])
    ensures var k := InsertKey(g, m, source[n]);
      k !in InsertedRows(g, m, t, source[..n]) && k !in t && Null !in k
  {
    hide Matches, Unmatched, InsertKey, Rewritable, InsertedRows;
    var k := InsertKey(g, m, source[n]);
    if k in InsertedRows(g, m, t, source[..n]) {
      InsertedFrom(g, m, t, source[..n], k);
    }
  }

  /** The last source row, when it matches no row of the table. */
  lemma InsertedStep(g: Engine, m: MergeStmt, u: Upsert, t: Table, source: seq<Row>, n: nat)
    requires RewriteOf(m, u) && ErrorFree(g, m, t, source)
    requires n + 1 == |source| && Unmatched(g, m, t, source[n])
    ensures UpsertRow(g, m, u, MergeResult(g, m, t, source[..n]), source[n]) == Some(MergeResult(g, m, t, source))
  {
    hide Matches, Unmatched, KeyOf, NewRow, ErrorFree, UpdatedRows;
    var s, before := source[n], source[..n];
    var k := InsertKey(g, m, s);
    NewKey(g, m, t, source, n);
    NotUpdated(g, m, t, source, n);
    var upd, ins := UpdatedRows(g, m, t, before), InsertedRows(g, m, t, before);
    var row := Inserted(g, m, s);
    assert InsertedRows(g, m, t, source) == ins[k := row];
    assert upd.Keys == t.Keys by { UpdatedKeys(g, m, t, before); }
    assert k !in upd + ins;
    assert UpsertRow(g, m, u, upd + ins, s) == Some((upd + ins)[k := row]);
    assert upd + ins[k := row] == (upd + ins)[k := row];
  }

  lemma UpdatedKeys(g: Engine, m: MergeStmt, t: Table, source: seq<Row>)
    requires Rewritable(m)
    ensures UpdatedRows(g, m, t, source).Keys == t.Keys
  {
    hide MatchFor, SetItems, Rewritable;
  }

  lemma NothingMerged(g: Engine, m: MergeStmt, t: Table)
    requires Rewritable(m)
    ensures MergeResult(g, m, t, []) == t
  {
  }

  /** Whenever the rewrite is produced, MERGE runs without an error, and its source rows are inserted
      under the key they match by, the row-by-row upsert leaves the table MERGE leaves. */
  lemma {:induction false} UpsertIsMerge(g: Engine, m: MergeStmt, u: Upsert, t: Table, source: seq<Row>)
    requires RewriteOf(m, u) && WellFormed(g.key, m) && Valid(g, t) && ErrorFree(g, m, t, source)
    requires forall i :: 0 <= i < |source| ==> KeyAgrees(g, m, source[i])
    ensures UpsertAll(g, m, u, t, source) == Some(MergeResult(g, m, t, source))
  {
    hide Matches, Unmatched, WellFormed, ErrorFree, MergeResult, UpsertRow, KeyAgrees, Valid;
    if source == [] {
      NothingMerged(g, m, t);
    } else {
      var n := |source| - 1;
      assert forall i :: 0 <= i < n ==> source[..n][i] == source[i];
      ErrorFreePrefix(g, m, t, source, n);
      UpsertIsMerge(g, m, u, t, source[..n]);
      if Unmatched(g, m, t, source[n]) {
        InsertedStep(g, m, u, t, source, n);
      } else {
        MatchedStep(g, m, u, t, source, n);
      }
    }
  }

  /** The statement means the same in both forms, on every table and every error-free source. */
  ghost predicate Faithful(g: Engine, m: MergeStmt, u: Upsert)
    requires RewriteOf(m, u)
  {
    forall t: Table, source: seq<Row> :: Valid(g, t) && ErrorFree(g, m, t, source) ==>
      UpsertAll(g, m, u, t, source) == Some(MergeResult(g, m, t, source))
  }

  /** A row that is matched under another key than it is inserted under makes the two forms differ: MERGE
      updates it, the upsert adds a row or fails. */
  lemma KeyMustAgree(g: Engine, m: MergeStmt, u: Upsert, s: Row)
    requires RewriteOf(m, u) && WellFormed(g.key, m) && !KeyAgrees(g, m, s)
    ensures !Faithful(g, m, u)
  {
    hide Matches, KeyOf, InsertKey, WellFormed, MergeResult, UpsertAll;
    var row: Row :| Matches(g, m, row, s) && Null !in KeyOf(g, row) && KeyOf(g, row) != InsertKey(g, m, s);
    var k := KeyOf(g, row);
    var t: Table := map[k := row];
    assert k in t && !Unmatched(g, m, t, s);
    assert Valid(g, t) && ErrorFree(g, m, t, [s]);
    OneMerged(g, m, t, s);
    OneUpserted(g, m, u, t, s);
    var r := UpsertAll(g, m, u, t, [s]);
    assert r.Some? ==> InsertKey(g, m, s) in r.value;
  }

  lemma OneMerged(g: Engine, m: MergeStmt, t: Table, s: Row)
    requires Rewritable(m) && !Unmatched(g, m, t, s)
    ensures MergeResult(g, m, t, [s]).Keys == t.Keys
  {
    hide Unmatched, UpdatedRows;
    UpdatedKeys(g, m, t, [s]);
    assert InsertedRows(g, m, t, [s]) == map[] by { assert [s][..0] == []; }
  }

  lemma OneUpserted(g: Engine, m: MergeStmt, u: Upsert, t: Table, s: Row)
    requires RewriteOf(m, u)
    ensures var r := UpsertAll(g, m, u, t, [s]); r.Some? ==> InsertKey(g, m, s) in r.value
  {
    hide NewRow, ApplySets, KeyOf;
    assert [s][..0] == [];
    assert UpsertAll(g, m, u, t, []) == Some(t);
    assert UpsertAll(g, m, u, t, [s]) == UpsertRow(g, m, u, t, s);
  }

  /** The code reads the ON clause only for its comment. Whatever that clause is, the rewrite is faithful
      exactly when it matches no row but one with the key the source row is inserted under. */
  lemma FaithfulIff(g: Engine, m: MergeStmt, u: Upsert)
    requires RewriteOf(m, u) && WellFormed(g.key, m)
    ensures Faithful(g, m, u) <==> forall s: Row :: KeyAgrees(g, m, s)
  {
    hide KeyAgrees, Valid, ErrorFree, UpsertAll, MergeResult, Shape, Assignable, Stands, WellFormed;
    if forall s: Row :: KeyAgrees(g, m, s) {
      forall t: Table, source: seq<Row> | Valid(g, t) && ErrorFree(g, m, t, source)
        ensures UpsertAll(g, m, u, t, source) == Some(MergeResult(g, m, t, source))
      {
        UpsertIsMerge(g, m, u, t, source);
      }
    } else {
      var s: Row :| !KeyAgrees(g, m, s);
      KeyMustAgree(g, m, u, s);
    }
  }

  // ----- a check on the text alone -----

  /** One of the conjuncts equates the target's column with the expression. */
  predicate Equates(c: Cond, col: string, e: Expr) {
    match c
    case Equal(a, b) => (a == Column(Target, col) && b == e) || (b == Column(Target, col) && a == e)
    case Both(x, y) => Equates(x, col, e) || Equates(y, col, e)
    case Test(_, _) => false
  }

  /** Each key column is inserted with an expression that ON compares it with. */
  ghost predicate InsertsTheKey(m: MergeStmt, key: seq<string>)
    requires Rewritable(m)
  {
    var cols, vals := InsertOf(m).cols.items, InsertOf(m).vals.items;
    forall i :: 0 <= i < |key| ==> exists j :: 0 <= j < |cols| && cols[j] == key[i] && Equates(m.on, key[i], vals[j])
  }

  lemma {:induction false} EquatedValue(g: Engine, c: Cond, col: string, e: Expr, row: Row, s: Row)
    requires Holds(g, c, row, s) && Equates(c, col, e) && SourceOnly(e)
    ensures Get(row, col) == Eval(g, e, map[], s)
  {
    match c
    case Equal(a, b) => SourceOnlyEval(g, e, map[], row, s);
    case Both(x, y) =>
      if Equates(x, col, e) {
        EquatedValue(g, x, col, e, row, s);
      } else {
        EquatedValue(g, y, col, e, row, s);
      }
    case Test(_, _) =>
  }

  lemma InsertedAt(g: Engine, m: MergeStmt, s: Row, i: nat, j: nat)
    requires Rewritable(m) && Legal(g.key, m) && i < |g.key|
    requires j < |InsertOf(m).cols.items| && InsertOf(m).cols.items[j] == g.key[i]
    ensures InsertKey(g, m, s)[i] == Eval(g, InsertOf(m).vals.items[j], map[], s)
  {
    NewRowAt(g, InsertOf(m).cols.items, InsertOf(m).vals.items, s, j);
    hide NewRow, Eval, WellFormed;
  }

  lemma CanonicalIsFaithful(g: Engine, m: MergeStmt, u: Upsert)
    requires RewriteOf(m, u) && WellFormed(g.key, m) && InsertsTheKey(m, g.key)
    ensures Faithful(g, m, u)
  {
    hide Faithful, Holds, Equates, Eval, InsertKey;
    var cols, vals := InsertOf(m).cols.items, InsertOf(m).vals.items;
    forall s: Row, row: Row | Matches(g, m, row, s) ensures KeyOf(g, row) == InsertKey(g, m, s) {
      KeySize(g, m, s);
      forall i | 0 <= i < |g.key| ensures KeyOf(g, row)[i] == InsertKey(g, m, s)[i] {
        var j :| 0 <= j < |cols| && cols[j] == g.key[i] && Equates(m.on, g.key[i], vals[j]);
        InsertedAt(g, m, s, i, j);
        EquatedValue(g, m.on, g.key[i], vals[j], row, s);
      }
    }
    FaithfulIff(g, m, u);
  }

  lemma KeySize(g: Engine, m: MergeStmt, s: Row)
    requires Rewritable(m)
    ensures |InsertKey(g, m, s)| == |g.key|
  {
    hide Inserted;
  }

  // ----- the usual ON clause: each key column with an expression -----

  /** `key[0] = es[0] AND key[1] = es[1] AND ...`. */
  function KeyTest(key: seq<string>, es: seq<Expr>): Cond
    requires 0 < |key| == |es|
  {
    var n := |key| - 1;
    var last := Equal(Column(Target, key[n]), es[n]);
    if n == 0 then last else Both(KeyTest(key[..n], es[..n]), last)
  }

  /** An engine on which different expressions have different values. */
  function FreeCall(name: string, vs: seq<Value>): Value {
    Struct(name, vs)
  }

  function FreeEngine(key: seq<string>): Engine {
    Engine(FreeCall, (name, vs) => true, map[], key)
  }

  function Columns(e: Expr): set<string> {
    match e
    case Column(_, name) => {name}
    case Call(_, args) => set i, c | 0 <= i < |args| && c in Columns(args[i]) :: c
    case _ => {}
  }

  /** A source row in which each of the columns holds its own name. */
  function FreeRow(names: set<string>): Row {
    map c | c in names :: Text(c)
  }

  lemma {:induction false} FreeInjective(g: Engine, key: seq<string>, a: Expr, b: Expr, names: set<string>)
    requires g == FreeEngine(key) && SourceOnly(a) && SourceOnly(b) && Columns(a) + Columns(b) <= names
    requires Eval(g, a, map[], FreeRow(names)) == Eval(g, b, map[], FreeRow(names))
    ensures a == b
  {
    var s := FreeRow(names);
    if a.Column? || b.Column? {
      assert a.Column? ==> a.name in names;
      assert b.Column? ==> b.name in names;
    } else if a.Call? && b.Call? {
      var x := seq(|a.args|, i requires 0 <= i < |a.args| => Eval(g, a.args[i], map[], s));
      var y := seq(|b.args|, i requires 0 <= i < |b.args| => Eval(g, b.args[i], map[], s));
      assert Eval(g, a, map[], s) == Struct(a.name, x) && Eval(g, b, map[], s) == Struct(b.name, y);
      assert x == y;
      forall i | 0 <= i < |a.args| ensures a.args[i] == b.args[i] {
        assert x[i] == y[i];
        assert Columns(a.args[i]) <= Columns(a) && Columns(b.args[i]) <= Columns(b);
        FreeInjective(g, key, a.args[i], b.args[i], names);
      }
    }
  }

  lemma FreeNotNull(g: Engine, key: seq<string>, e: Expr, names: set<string>)
    requires g == FreeEngine(key) && SourceOnly(e) && Columns(e) <= names && !e.NullLiteral?
    ensures !Eval(g, e, map[], FreeRow(names)).Null?
  {
  }

  function AllColumns(es: seq<Expr>): set<string> {
    set i, c | 0 <= i < |es| && c in Columns(es[i]) :: c
  }

  /** A row whose key columns have the values of the expressions. */
  lemma {:induction false} RowWithKey(g: Engine, key: seq<string>, es: seq<Expr>, s: Row) returns (row: Row)
    requires |key| == |es| && forall i, j :: 0 <= i < j < |key| ==> key[i] != key[j]
    ensures forall i :: 0 <= i < |key| ==> Get(row, key[i]) == Eval(g, es[i], map[], s)
  {
    hide Eval;
    if key == [] {
      row := map[];
    } else {
      var n := |key| - 1;
      row := RowWithKey(g, key[..n], es[..n], s);
      var was := row;
      row := was[key[n] := Eval(g, es[n], map[], s)];
      forall i | 0 <= i < n ensures Get(row, key[i]) == Eval(g, es[i], map[], s) {
        assert Get(was, key[..n][i]) == Eval(g, es[..n][i], map[], s);
      }
    }
  }

  lemma {:induction false} KeyTestHolds(g: Engine, key: seq<string>, es: seq<Expr>, row: Row, s: Row)
    requires 0 < |key| == |es| && forall i :: 0 <= i < |es| ==> SourceOnly(es[i])
    requires forall i :: 0 <= i < |key| ==>
      Get(row, key[i]) == Eval(g, es[i], map[], s) && !Eval(g, es[i], map[], s).Null?
    ensures Holds(g, KeyTest(key, es), row, s)
  {
    var n := |key| - 1;
    SourceOnlyEval(g, es[n], map[], row, s);
    assert Holds(g, Equal(Column(Target, key[n]), es[n]), row, s);
    if n > 0 {
      assert forall i :: 0 <= i < n ==> key[..n][i] == key[i] && es[..n][i] == es[i];
      KeyTestHolds(g, key[..n], es[..n], row, s);
    }
  }

  lemma {:induction false} KeyTestNull(g: Engine, key: seq<string>, es: seq<Expr>, i: nat, row: Row, s: Row)
    requires i < |key| == |es| && es[i].NullLiteral?
    ensures !Holds(g, KeyTest(key, es), row, s)
  {
    var n := |key| - 1;
    if i < n {
      KeyTestNull(g, key[..n], es[..n], i, row, s);
    }
  }

  lemma {:induction false} KeyTestEquates(key: seq<string>, es: seq<Expr>, i: nat)
    requires i < |key| == |es|
    ensures Equates(KeyTest(key, es), key[i], es[i])
  {
    var n := |key| - 1;
    if i < n {
      KeyTestEquates(key[..n], es[..n], i);
    }
  }

  /** Some key column is inserted with something else, or not at all. */
  lemma OtherKey(m: MergeStmt, key: seq<string>, es: seq<Expr>) returns (i: nat)
    requires Rewritable(m) && 0 < |key| == |es| && m.on == KeyTest(key, es) && !InsertsTheKey(m, key)
    ensures i < |key|
    ensures forall j :: 0 <= j < |InsertOf(m).cols.items| && InsertOf(m).cols.items[j] == key[i] ==>
      InsertOf(m).vals.items[j] != es[i]
  {
    hide Equates, KeyTest;
    var cols, vals := InsertOf(m).cols.items, InsertOf(m).vals.items;
    i :| 0 <= i < |key| && !exists j :: 0 <= j < |cols| && cols[j] == key[i] && Equates(m.on, key[i], vals[j]);
    KeyTestEquates(key, es, i);
  }

  lemma {:induction false} NewRowWithout(g: Engine, cols: seq<string>, vals: seq<Expr>, s: Row, c: string)
    requires |cols| == |vals| && c !in cols
    ensures Get(NewRow(g, cols, vals, s), c) == Get(g.defaults, c)
  {
    hide Eval;
    if cols != [] {
      var n := |cols| - 1;
      assert cols[n] in cols && forall x :: x in cols[..n] ==> x in cols;
      NewRowWithout(g, cols[..n], vals[..n], s, c);
    }
  }

  /** On that engine the row is inserted under another key. */
  lemma FreeKeyDiffers(g: Engine, m: MergeStmt, key: seq<string>, es: seq<Expr>, names: set<string>, i: nat)
    requires g == FreeEngine(key) && Rewritable(m) && WellFormed(key, m) && i < |key| == |es|
    requires SourceOnly(es[i]) && !es[i].NullLiteral?
    requires Columns(es[i]) <= names && AllColumns(InsertOf(m).vals.items) <= names
    requires forall j :: 0 <= j < |InsertOf(m).cols.items| && InsertOf(m).cols.items[j] == key[i] ==>
      InsertOf(m).vals.items[j] != es[i]
    ensures |InsertKey(g, m, FreeRow(names))| == |key|
    ensures InsertKey(g, m, FreeRow(names))[i] != Eval(g, es[i], map[], FreeRow(names))
  {
    hide Eval, NewRow, FreeRow, Columns;
    var cols, vals := InsertOf(m).cols.items, InsertOf(m).vals.items;
    var s := FreeRow(names);
    FreeNotNull(g, key, es[i], names);
    if key[i] in cols {
      var j :| 0 <= j < |cols| && cols[j] == key[i];
      InsertedAt(g, m, s, i, j);
      assert Columns(vals[j]) <= AllColumns(vals);
      if Eval(g, vals[j], map[], s) == Eval(g, es[i], map[], s) {
        FreeInjective(g, key, vals[j], es[i], names);
      }
    } else {
      NewRowWithout(g, cols, vals, s, key[i]);
    }
  }

  /** For the usual ON clause: the rewrite is faithful on every engine exactly when each key column is
      inserted with the expression ON compares it with, or when one of these is NULL and nothing ever
      matches. */
  lemma CanonicalIff(m: MergeStmt, u: Upsert, key: seq<string>, es: seq<Expr>)
    requires RewriteOf(m, u) && WellFormed(key, m) && 0 < |key| == |es| && m.on == KeyTest(key, es)
    requires forall i :: 0 <= i < |es| ==> SourceOnly(es[i])
    ensures (forall g: Engine :: g.key == key ==> Faithful(g, m, u))
      <==> InsertsTheKey(m, key) || exists i :: 0 <= i < |es| && es[i].NullLiteral?
  {
    hide Faithful, InsertsTheKey, WellFormed, Shape, Assignable, Stands, KeyTest;
    if InsertsTheKey(m, key) {
      forall g: Engine | g.key == key ensures Faithful(g, m, u) {
        CanonicalIsFaithful(g, m, u);
      }
    } else if i :| 0 <= i < |es| && es[i].NullLiteral? {
      forall g: Engine | g.key == key ensures Faithful(g, m, u) {
        NeverMatches(g, m, u, key, es, i);
      }
    } else {
      FreeSeparates(m, u, key, es);
      assert FreeEngine(key).key == key;
    }
  }

  lemma NeverMatches(g: Engine, m: MergeStmt, u: Upsert, key: seq<string>, es: seq<Expr>, i: nat)
    requires RewriteOf(m, u) && WellFormed(g.key, m) && i < |key| == |es| && m.on == KeyTest(key, es)
    requires es[i].NullLiteral?
    ensures Faithful(g, m, u)
  {
    hide Faithful, WellFormed, RewriteOf, KeyTest, Holds, InsertKey;
    forall s: Row, row: Row ensures !Matches(g, m, row, s) {
      KeyTestNull(g, key, es, i, row, s);
    }
    FaithfulIff(g, m, u);
  }

  /** There is a row that matches. */
  lemma FreeMatches(m: MergeStmt, key: seq<string>, es: seq<Expr>, names: set<string>) returns (row: Row)
    requires (forall i, j :: 0 <= i < j < |key| ==> key[i] != key[j]) && 0 < |key| == |es| && m.on == KeyTest(key, es)
    requires forall i :: 0 <= i < |es| ==> SourceOnly(es[i]) && !es[i].NullLiteral?
    requires AllColumns(es) <= names
    ensures var g, s := FreeEngine(key), FreeRow(names);
      && Matches(g, m, row, s) && |KeyOf(g, row)| == |key| && Null !in KeyOf(g, row)
      && forall i :: 0 <= i < |key| ==> KeyOf(g, row)[i] == Eval(g, es[i], map[], s)
  {
    hide KeyTest, Holds, Eval, FreeRow, Columns, FreeEngine;
    var g, s := FreeEngine(key), FreeRow(names);
    FreeKey(key);
    forall k | 0 <= k < |es| ensures !Eval(g, es[k], map[], s).Null? {
      assert Columns(es[k]) <= AllColumns(es);
      FreeNotNull(g, key, es[k], names);
    }
    row := RowWithKey(g, key, es, s);
    KeyTestHolds(g, key, es, row, s);
  }

  function ValuesIn(m: MergeStmt): seq<Expr>
    requires Rewritable(m)
  {
    InsertOf(m).vals.items
  }

  lemma FreeSeparates(m: MergeStmt, u: Upsert, key: seq<string>, es: seq<Expr>)
    requires RewriteOf(m, u) && WellFormed(key, m) && 0 < |key| == |es| && m.on == KeyTest(key, es)
    requires forall i :: 0 <= i < |es| ==> SourceOnly(es[i]) && !es[i].NullLiteral?
    requires !InsertsTheKey(m, key)
    ensures !Faithful(FreeEngine(key), m, u)
  {
    hide Faithful, InsertsTheKey, KeyTest, Matches, KeyOf, InsertKey, Eval, FreeRow, Columns, FreeEngine, ValuesIn;
    hide Shape, Assignable, Stands;
    var g := FreeEngine(key);
    FreeKey(key);
    var names := AllColumns(es) + AllColumns(ValuesIn(m));
    var s := FreeRow(names);
    var row := FreeMatches(m, key, es, names);
    var i := FreeOtherKey(m, key, es, names);
    assert KeyOf(g, row) != InsertKey(g, m, s);
    KeyMustAgree(g, m, u, s);
  }

  lemma FreeOtherKey(m: MergeStmt, key: seq<string>, es: seq<Expr>, names: set<string>) returns (i: nat)
    requires Rewritable(m) && WellFormed(key, m) && 0 < |key| == |es| && m.on == KeyTest(key, es)
    requires forall i :: 0 <= i < |es| ==> SourceOnly(es[i]) && !es[i].NullLiteral?
    requires !InsertsTheKey(m, key) && names == AllColumns(es) + AllColumns(ValuesIn(m))
    ensures var g, s := FreeEngine(key), FreeRow(names);
      i < |key| && |InsertKey(g, m, s)| == |key| && InsertKey(g, m, s)[i] != Eval(g, es[i], map[], s)
  {
    hide InsertsTheKey, WellFormed, KeyTest, InsertKey, Eval, FreeRow, Columns, FreeEngine;
    i := OtherKey(m, key, es);
    assert Columns(es[i]) <= AllColumns(es);
    FreeKeyDiffers(FreeEngine(key), m, key, es, names, i);
  }

  lemma FreeKey(key: seq<string>)
    ensures FreeEngine(key).key == key
  {
  }

  /** ON t.id = s.id, but the row is inserted with id = s.other: rewritten, and wrong on some engine. */
  lemma KeyIsNotChecked() returns (m: MergeStmt, u: Upsert)
    ensures RewriteOf(m, u) && WellFormed(["id"], m) && !Faithful(FreeEngine(["id"]), m, u)
  {
    hide Faithful, FreeEngine;
    var ins := Insert(Tuple(["id", "v"]), Tuple([Column(Source, "other"), Column(Source, "v")]));
    var upd := Update([SetEq("v", Column(Source, "v"))]);
    m := MergeStmt(false, [When(true, false, upd), When(false, false, ins)],
      Equal(Column(Target, "id"), Column(Source, "id")));
    u := Upsert(["id", "v"], [Column(Source, "other"), Column(Source, "v")], [("v", ValuesOf("v"))]);
    assert UpdateOf(m) == upd && InsertOf(m) == ins;
    assert u.cols[1] == "v" && u.vals[1] == upd.items[0].rhs;
    assert Stands(upd.items[0], u.sets[0], u.cols, u.vals);
    assert RewriteOf(m, u);
    assert "id"[0] != "v"[0] && "id"[0] != "other"[0];
    assert !InsertsTheKey(m, ["id"]) by {
      assert ["id"][0] == "id";
    }
    FreeSeparates(m, u, ["id"], [Column(Source, "id")]);
  }

  // ----- assignments that move a row to another key -----

  /** What a row of the table becomes. */
  function NewVersion(g: Engine, m: MergeStmt, source: seq<Row>, row: Row): Row
    requires Rewritable(m)
  {
    match MatchFor(g, m, source, row)
    case None => row
    case Some(s) => Updated(g, m, row, s)
  }

  function Updated(g: Engine, m: MergeStmt, row: Row, s: Row): Row
    requires Rewritable(m)
  {
    SetItems(g, row, row, UpdateOf(m).items, s)
  }

  function EndKey(g: Engine, m: MergeStmt, source: seq<Row>, row: Row): Key
    requires Rewritable(m)
  {
    KeyOf(g, NewVersion(g, m, source, row))
  }

  ghost predicate NoDoubleMatch(g: Engine, m: MergeStmt, t: Table, source: seq<Row>) {
    forall i, j, k :: 0 <= i < j < |source| && k in t ==>
      !Matches(g, m, t[k], source[i]) || !Matches(g, m, t[k], source[j])
  }

  /** The keys that the rows of the table end up with are not NULL and no two the same. */
  ghost predicate KeysMove(g: Engine, m: MergeStmt, t: Table, source: seq<Row>)
    requires Rewritable(m)
  {
    && (forall k :: k in t ==> Null !in EndKey(g, m, source, t[k]))
    && (forall j, k :: j in t && k in t && j != k ==> EndKey(g, m, source, t[j]) != EndKey(g, m, source, t[k]))
  }

  /** Nor is an inserted key, among the others or against those of the table. */
  ghost predicate KeysInsert(g: Engine, m: MergeStmt, t: Table, source: seq<Row>)
    requires Rewritable(m)
  {
    && (forall i :: 0 <= i < |source| && Unmatched(g, m, t, source[i]) ==> Null !in InsertKey(g, m, source[i]))
    && (forall i, k :: 0 <= i < |source| && Unmatched(g, m, t, source[i]) && k in t ==>
          EndKey(g, m, source, t[k]) != InsertKey(g, m, source[i]))
    && (forall i, j :: 0 <= i < j < |source| && Unmatched(g, m, t, source[i]) && Unmatched(g, m, t, source[j]) ==>
          InsertKey(g, m, source[i]) != InsertKey(g, m, source[j]))
  }

  /** MERGE raises no error; keys are checked at the end of the statement. */
  ghost predicate MovesWell(g: Engine, m: MergeStmt, t: Table, source: seq<Row>)
    requires Rewritable(m)
  {
    NoDoubleMatch(g, m, t, source) && KeysMove(g, m, t, source) && KeysInsert(g, m, t, source)
  }

  function MovedRows(g: Engine, m: MergeStmt, t: Table, source: seq<Row>): Table
    requires Rewritable(m) && KeysMove(g, m, t, source)
  {
    map k | k in t :: EndKey(g, m, source, t[k]) := NewVersion(g, m, source, t[k])
  }

  /** MERGE, with every row under the key it ends up with. */
  function MovedResult(g: Engine, m: MergeStmt, t: Table, source: seq<Row>): Table
    requires Rewritable(m) && MovesWell(g, m, t, source)
  {
    MovedRows(g, m, t, source) + InsertedRows(g, m, t, source)
  }

  /** One row of the upsert: a row that moves must not meet another; keys are checked at once. */
  function MoveRow(g: Engine, m: MergeStmt, u: Upsert, t: Table, s: Row): Option<Table>
    requires |u.cols| == |u.vals|
  {
    var row := NewRow(g, u.cols, u.vals, s);
    var k := KeyOf(g, row);
    if Null in k then None
    else if k !in t then Some(t[k := row])
    else
      var now := ApplySets(g, t[k], u.sets, row);
      var k' := KeyOf(g, now);
      if k' == k then Some(t[k := now])
      else if Null in k' || k' in t then None
      else Some((t - {k})[k' := now])
  }

  function MoveAll(g: Engine, m: MergeStmt, u: Upsert, t: Table, source: seq<Row>): Option<Table>
    requires |u.cols| == |u.vals|
  {
    if source == [] then Some(t)
    else match MoveAll(g, m, u, t, source[..|source| - 1])
      case None => None
      case Some(t') => MoveRow(g, m, u, t', source[|source| - 1])
  }

  ghost predicate FaithfulMoving(g: Engine, m: MergeStmt, u: Upsert)
    requires RewriteOf(m, u)
  {
    forall t: Table, source: seq<Row> :: Valid(g, t) && MovesWell(g, m, t, source) ==>
      MoveAll(g, m, u, t, source) == Some(MovedResult(g, m, t, source))
  }

  /** ON matches exactly the row with the key the source row is inserted under. */
  ghost predicate OnIsKey(g: Engine, m: MergeStmt)
    requires Rewritable(m)
  {
    forall row: Row, s: Row :: Null !in KeyOf(g, row) ==>
      (Matches(g, m, row, s) <==> KeyOf(g, row) == InsertKey(g, m, s))
  }

  /** The first row moves to the key of the second, which moves on. */
  ghost predicate Follows(g: Engine, m: MergeStmt, r1: Row, s1: Row, r2: Row, s2: Row)
    requires Rewritable(m)
  {
    var k1, k2 := KeyOf(g, r1), KeyOf(g, r2);
    && Null !in k1 && Null !in k2 && k1 != k2
    && InsertKey(g, m, s1) == k1 && InsertKey(g, m, s2) == k2
    && KeyOf(g, Updated(g, m, r1, s1)) == k2
    && Null !in KeyOf(g, Updated(g, m, r2, s2)) && KeyOf(g, Updated(g, m, r2, s2)) != k2
  }

  lemma MatchIsKey(g: Engine, m: MergeStmt, t: Table, s: Row)
    requires Rewritable(m) && OnIsKey(g, m) && Valid(g, t)
    ensures forall k :: k in t ==> (Matches(g, m, t[k], s) <==> k == InsertKey(g, m, s))
    ensures Unmatched(g, m, t, s) <==> InsertKey(g, m, s) !in t
  {
    hide Matches, KeyOf, InsertKey, Rewritable;
    assert forall k :: k in t ==> Null !in KeyOf(g, t[k]);
  }

  lemma VersionStep(g: Engine, m: MergeStmt, t: Table, source: seq<Row>, n: nat, k: Key)
    requires Rewritable(m) && OnIsKey(g, m) && Valid(g, t) && n + 1 == |source| && k in t
    ensures NewVersion(g, m, source, t[k]) ==
      if k == InsertKey(g, m, source[n]) then Updated(g, m, t[k], source[n]) else NewVersion(g, m, source[..n], t[k])
  {
    hide Matches, KeyOf, InsertKey, Rewritable, Updated, OnIsKey, Valid;
    MatchIsKey(g, m, t, source[n]);
  }

  /** A row that the last source row matches has not been touched before. */
  lemma VersionBefore(g: Engine, m: MergeStmt, t: Table, source: seq<Row>, n: nat)
    requires Rewritable(m) && OnIsKey(g, m) && Valid(g, t) && NoDoubleMatch(g, m, t, source) && n + 1 == |source|
    requires InsertKey(g, m, source[n]) in t
    ensures var k := InsertKey(g, m, source[n]);
      NewVersion(g, m, source[..n], t[k]) == t[k] && EndKey(g, m, source[..n], t[k]) == k
  {
    hide Matches, InsertKey, Rewritable, Updated, OnIsKey, KeyOf;
    var k := InsertKey(g, m, source[n]);
    MatchIsKey(g, m, t, source[n]);
    assert Matches(g, m, t[k], source[n]);
    forall i | 0 <= i < n ensures !Matches(g, m, t[k], source[..n][i]) {
      assert source[..n][i] == source[i];
    }
    NoMatch(g, m, source[..n], t[k]);
  }

  /** A row that has moved was matched. */
  lemma {:induction false} MovedBy(g: Engine, m: MergeStmt, source: seq<Row>, row: Row) returns (s: Row)
    requires Rewritable(m) && NewVersion(g, m, source, row) != row
    ensures Matches(g, m, row, s) && NewVersion(g, m, source, row) == Updated(g, m, row, s)
  {
    hide Matches, Updated, Rewritable;
    s := MatchedBy(g, m, source, row);
  }

  lemma {:induction false} MatchedBy(g: Engine, m: MergeStmt, source: seq<Row>, row: Row) returns (s: Row)
    requires MatchFor(g, m, source, row).Some?
    ensures MatchFor(g, m, source, row) == Some(s) && Matches(g, m, row, s)
  {
    hide Matches;
    var n := |source| - 1;
    if Matches(g, m, row, source[n]) {
      s := source[n];
    } else {
      s := MatchedBy(g, m, source[..n], row);
    }
  }

  ghost predicate NoFollowers(g: Engine, m: MergeStmt)
    requires Rewritable(m)
  {
    forall r1, s1, r2, s2 :: !Follows(g, m, r1, s1, r2, s2)
  }

  lemma EndKeyStep(g: Engine, m: MergeStmt, t: Table, source: seq<Row>, n: nat)
    requires Rewritable(m) && OnIsKey(g, m) && Valid(g, t) && n + 1 == |source|
    ensures forall k :: k in t && k != InsertKey(g, m, source[n]) ==>
      EndKey(g, m, source, t[k]) == EndKey(g, m, source[..n], t[k])
  {
    hide KeyOf, InsertKey, Rewritable, OnIsKey, Valid, NewVersion;
    forall k | k in t && k != InsertKey(g, m, source[n])
      ensures EndKey(g, m, source, t[k]) == EndKey(g, m, source[..n], t[k])
    {
      VersionStep(g, m, t, source, n, k);
    }
  }

  /** No row has moved to the key of one that the last source row matches. */
  lemma NotThere(g: Engine, m: MergeStmt, t: Table, source: seq<Row>, n: nat, j: Key)
    requires Rewritable(m) && OnIsKey(g, m) && Valid(g, t) && NoFollowers(g, m) && MovesWell(g, m, t, source)
    requires n + 1 == |source| && InsertKey(g, m, source[n]) in t && j in t && j != InsertKey(g, m, source[n])
    ensures EndKey(g, m, source[..n], t[j]) != InsertKey(g, m, source[n])
  {
    hide Matches, InsertKey, Rewritable, Updated, OnIsKey, KeyOf, Follows, NewVersion, NoDoubleMatch, KeysInsert;
    var k := InsertKey(g, m, source[n]);
    EndKeyStep(g, m, t, source, n);
    if EndKey(g, m, source[..n], t[j]) == k {
      assert NewVersion(g, m, source[..n], t[j]) != t[j];
      var s := MovedBy(g, m, source[..n], t[j]);
      MatchIsKey(g, m, t, s);
      VersionStep(g, m, t, source, n, k);
      assert EndKey(g, m, source, t[k]) == KeyOf(g, Updated(g, m, t[k], source[n]));
      FollowsIs(g, m, t[j], s, t[k], source[n]);
    }
  }

  lemma FollowsIs(g: Engine, m: MergeStmt, r1: Row, s1: Row, r2: Row, s2: Row)
    requires Rewritable(m) && Null !in KeyOf(g, r1) && Null !in KeyOf(g, r2) && KeyOf(g, r1) != KeyOf(g, r2)
    requires InsertKey(g, m, s1) == KeyOf(g, r1) && InsertKey(g, m, s2) == KeyOf(g, r2)
    requires KeyOf(g, Updated(g, m, r1, s1)) == KeyOf(g, r2)
    requires Null !in KeyOf(g, Updated(g, m, r2, s2)) && KeyOf(g, Updated(g, m, r2, s2)) != KeyOf(g, r2)
    ensures Follows(g, m, r1, s1, r2, s2)
  {
  }

  /** When no row follows another, a prefix of the source runs without an error as well. */
  lemma PrefixMoves(g: Engine, m: MergeStmt, t: Table, source: seq<Row>, n: nat)
    requires Rewritable(m) && OnIsKey(g, m) && Valid(g, t) && NoFollowers(g, m) && MovesWell(g, m, t, source)
    requires n + 1 == |source|
    ensures MovesWell(g, m, t, source[..n])
  {
    hide Matches, InsertKey, Rewritable, OnIsKey, KeyOf, NoFollowers, EndKey, Unmatched;
    assert forall i :: 0 <= i < n ==> source[..n][i] == source[i];
    var k := InsertKey(g, m, source[n]);
    EndKeyStep(g, m, t, source, n);
    if k in t {
      VersionBefore(g, m, t, source, n);
      forall j | j in t && j != k ensures EndKey(g, m, source[..n], t[j]) != k {
        NotThere(g, m, t, source, n, j);
      }
      forall i | 0 <= i < n && Unmatched(g, m, t, source[i]) ensures InsertKey(g, m, source[i]) != k {
        MatchIsKey(g, m, t, source[i]);
      }
      assert Null !in k;
    }
  }

  lemma Rekeyed(rows: Table, ins: Table, k: Key, k': Key, row: Row)
    requires k in rows && k !in ins && k' !in ins && (k' == k || k' !in rows)
    ensures k' == k ==> (rows + ins)[k := row] == (rows - {k})[k' := row] + ins
    ensures k' != k ==> k' !in rows + ins && ((rows + ins) - {k})[k' := row] == (rows - {k})[k' := row] + ins
  {
  }

  lemma MovedAt(g: Engine, m: MergeStmt, t: Table, source: seq<Row>, k: Key)
    requires Rewritable(m) && KeysMove(g, m, t, source) && k in t
    ensures var end := EndKey(g, m, source, t[k]);
      end in MovedRows(g, m, t, source) && MovedRows(g, m, t, source)[end] == NewVersion(g, m, source, t[k])
  {
    hide EndKey, NewVersion, Rewritable;
  }

  lemma MovedFrom(g: Engine, m: MergeStmt, t: Table, source: seq<Row>, end: Key) returns (k: Key)
    requires Rewritable(m) && KeysMove(g, m, t, source) && end in MovedRows(g, m, t, source)
    ensures k in t && EndKey(g, m, source, t[k]) == end
  {
    hide EndKey, NewVersion, Rewritable;
    k :| k in t && EndKey(g, m, source, t[k]) == end;
  }

  /** The last source row takes a row of the table from its key to the one it ends up with. */
  lemma MovedRowsStep(g: Engine, m: MergeStmt, t: Table, source: seq<Row>, n: nat)
    requires Rewritable(m) && OnIsKey(g, m) && Valid(g, t) && NoDoubleMatch(g, m, t, source)
    requires n + 1 == |source| && KeysMove(g, m, t, source) && KeysMove(g, m, t, source[..n])
    requires InsertKey(g, m, source[n]) in t
    ensures var k := InsertKey(g, m, source[n]); var row := Updated(g, m, t[k], source[n]);
      && k in MovedRows(g, m, t, source[..n]) && MovedRows(g, m, t, source[..n])[k] == t[k]
      && KeyOf(g, row) == EndKey(g, m, source, t[k])
      && (KeyOf(g, row) == k || KeyOf(g, row) !in MovedRows(g, m, t, source[..n]))
      && MovedRows(g, m, t, source) == (MovedRows(g, m, t, source[..n]) - {k})[KeyOf(g, row) := row]
  {
    hide Matches, InsertKey, Rewritable, OnIsKey, KeyOf, NewVersion, Valid, MovedRows, Updated, KeysMove;
    var before := source[..n];
    var k := InsertKey(g, m, source[n]);
    var row := Updated(g, m, t[k], source[n]);
    VersionBefore(g, m, t, source, n);
    VersionStep(g, m, t, source, n, k);
    MovedAt(g, m, t, before, k);
    EndKeyStep(g, m, t, source, n);
    var was, now := MovedRows(g, m, t, before), MovedRows(g, m, t, source);
    if KeyOf(g, row) in was && KeyOf(g, row) != k {
      var j := MovedFrom(g, m, t, before, KeyOf(g, row));
      KeysDiffer(g, m, t, source, j, k);
    }
    var moved := (was - {k})[KeyOf(g, row) := row];
    forall x | x in now ensures x in moved && now[x] == moved[x] {
      var j := MovedFrom(g, m, t, source, x);
      MovedAt(g, m, t, source, j);
      MovedAt(g, m, t, before, j);
      VersionStep(g, m, t, source, n, j);
      if j != k {
        KeysDiffer(g, m, t, source, j, k);
        KeysDiffer(g, m, t, before, j, k);
      }
    }
    forall x | x in moved ensures x in now {
      MovedAt(g, m, t, source, k);
      if x != KeyOf(g, row) {
        var j := MovedFrom(g, m, t, before, x);
        MovedAt(g, m, t, source, j);
      }
    }
  }

  lemma KeysDiffer(g: Engine, m: MergeStmt, t: Table, source: seq<Row>, j: Key, k: Key)
    requires Rewritable(m) && KeysMove(g, m, t, source) && j in t && k in t && j != k
    ensures EndKey(g, m, source, t[j]) != EndKey(g, m, source, t[k])
  {
    hide EndKey, Rewritable;
  }

  /** A key that is inserted is no key of the table, nor one that a row of it ends up with. */
  lemma InsertedApart(g: Engine, m: MergeStmt, t: Table, source: seq<Row>, x: Key)
    requires Rewritable(m) && OnIsKey(g, m) && Valid(g, t) && KeysInsert(g, m, t, source)
    requires x in InsertedRows(g, m, t, source)
    ensures x !in t && forall k :: k in t ==> EndKey(g, m, source, t[k]) != x
  {
    hide Matches, InsertKey, Rewritable, OnIsKey, EndKey, Unmatched, Valid, InsertedRows;
    InsertedFrom(g, m, t, source, x);
    var i :| 0 <= i < |source| && Unmatched(g, m, t, source[i]) && InsertKey(g, m, source[i]) == x;
    MatchIsKey(g, m, t, source[i]);
  }

  lemma MovedMatched(g: Engine, m: MergeStmt, u: Upsert, t: Table, source: seq<Row>, n: nat)
    requires RewriteOf(m, u) && Legal(g.key, m) && OnIsKey(g, m) && Valid(g, t) && MovesWell(g, m, t, source)
    requires n + 1 == |source| && MovesWell(g, m, t, source[..n]) && InsertKey(g, m, source[n]) in t
    ensures MoveRow(g, m, u, MovedResult(g, m, t, source[..n]), source[n]) == Some(MovedResult(g, m, t, source))
  {
    hide Matches, Unmatched, OnIsKey, KeyOf, EndKey, NewVersion, Valid, MovedRows, InsertedRows, Legal, KeysMove;
    hide KeysInsert, NoDoubleMatch, NewRow, ApplySets, SetItems, Assignable, Stands;
    var s := source[n];
    var k := InsertKey(g, m, s);
    var row := Updated(g, m, t[k], s);
    var was, ins := MovedRows(g, m, t, source[..n]), InsertedRows(g, m, t, source[..n]);
    MovedRowsStep(g, m, t, source, n);
    MatchIsKey(g, m, t, s);
    NothingInserted(g, m, t, source, n, k);
    NotInserted(g, m, t, source, k);
    SetsAgree(g, m, u, t[k], s, |u.sets|);
    assert u.sets[..|u.sets|] == u.sets && UpdateOf(m).items[..|u.sets|] == UpdateOf(m).items;
    KeyNotNull(g, m, t, source, k);
    Rekeyed(was, ins, k, KeyOf(g, row), row);
    assert (was + ins)[k] == t[k];
  }

  lemma NotInserted(g: Engine, m: MergeStmt, t: Table, source: seq<Row>, k: Key)
    requires Rewritable(m) && OnIsKey(g, m) && Valid(g, t) && KeysInsert(g, m, t, source) && k in t
    ensures k !in InsertedRows(g, m, t, source) && EndKey(g, m, source, t[k]) !in InsertedRows(g, m, t, source)
  {
    hide InsertedRows, EndKey, OnIsKey, Valid, KeysInsert, Rewritable;
    if k in InsertedRows(g, m, t, source) {
      InsertedApart(g, m, t, source, k);
    }
    if EndKey(g, m, source, t[k]) in InsertedRows(g, m, t, source) {
      InsertedApart(g, m, t, source, EndKey(g, m, source, t[k]));
    }
  }

  lemma KeyNotNull(g: Engine, m: MergeStmt, t: Table, source: seq<Row>, k: Key)
    requires Rewritable(m) && Valid(g, t) && KeysMove(g, m, t, source) && k in t
    ensures Null !in k && Null !in EndKey(g, m, source, t[k])
  {
    hide KeyOf, EndKey, Rewritable;
  }

  lemma MovedUnmatched(g: Engine, m: MergeStmt, u: Upsert, t: Table, source: seq<Row>, n: nat)
    requires RewriteOf(m, u) && OnIsKey(g, m) && Valid(g, t) && MovesWell(g, m, t, source)
    requires n + 1 == |source| && MovesWell(g, m, t, source[..n]) && InsertKey(g, m, source[n]) !in t
    ensures MoveRow(g, m, u, MovedResult(g, m, t, source[..n]), source[n]) == Some(MovedResult(g, m, t, source))
  {
    hide Matches, OnIsKey, KeyOf, EndKey, NewVersion, Valid, MovedRows, KeysMove;
    hide KeysInsert, NoDoubleMatch, NewRow, ApplySets, Unmatched, InsertedRows;
    var s := source[n];
    var k := InsertKey(g, m, s);
    var was, ins := MovedRows(g, m, t, source[..n]), InsertedRows(g, m, t, source[..n]);
    MatchIsKey(g, m, t, s);
    SameRows(g, m, t, source, n);
    NewInsert(g, m, t, source, n);
    assert was + ins[k := Inserted(g, m, s)] == (was + ins)[k := Inserted(g, m, s)];
  }

  lemma SameRows(g: Engine, m: MergeStmt, t: Table, source: seq<Row>, n: nat)
    requires Rewritable(m) && OnIsKey(g, m) && Valid(g, t) && n + 1 == |source|
    requires KeysMove(g, m, t, source) && KeysMove(g, m, t, source[..n]) && InsertKey(g, m, source[n]) !in t
    ensures MovedRows(g, m, t, source) == MovedRows(g, m, t, source[..n])
  {
    hide Matches, InsertKey, Rewritable, OnIsKey, KeyOf, NewVersion, Valid;
    EndKeyStep(g, m, t, source, n);
    forall k | k in t ensures NewVersion(g, m, source, t[k]) == NewVersion(g, m, source[..n], t[k]) {
      VersionStep(g, m, t, source, n, k);
    }
  }

  lemma NewInsert(g: Engine, m: MergeStmt, t: Table, source: seq<Row>, n: nat)
    requires Rewritable(m) && OnIsKey(g, m) && Valid(g, t) && n + 1 == |source| && MovesWell(g, m, t, source)
    requires KeysMove(g, m, t, source[..n]) && Unmatched(g, m, t, source[n])
    ensures var k := InsertKey(g, m, source[n]); var ins := InsertedRows(g, m, t, source[..n]);
      && Null !in k && k !in ins && k !in MovedRows(g, m, t, source[..n])
      && InsertedRows(g, m, t, source) == ins[k := Inserted(g, m, source[n])]
  {
    hide Matches, Rewritable, OnIsKey, KeyOf, Valid, Unmatched, NewRow, KeysMove, NoDoubleMatch, MovedRows, EndKey;
    hide Inserted;
    var k := InsertKey(g, m, source[n]);
    MatchIsKey(g, m, t, source[n]);
    EndKeyStep(g, m, t, source, n);
    if k in InsertedRows(g, m, t, source[..n]) {
      InsertedFrom(g, m, t, source[..n], k);
    }
    if k in MovedRows(g, m, t, source[..n]) {
      var j := MovedFrom(g, m, t, source[..n], k);
    }
  }

  lemma {:induction false} NoFollowersFaithful(g: Engine, m: MergeStmt, u: Upsert, t: Table, source: seq<Row>)
    requires RewriteOf(m, u) && Legal(g.key, m) && OnIsKey(g, m) && NoFollowers(g, m)
    requires Valid(g, t) && MovesWell(g, m, t, source)
    ensures MoveAll(g, m, u, t, source) == Some(MovedResult(g, m, t, source))
  {
    hide Matches, Legal, OnIsKey, NoFollowers, Valid, MovesWell, MovedResult, MoveRow, InsertKey, Stands, Assignable;
    if source == [] {
      NothingMoved(g, m, t);
    } else {
      var n := |source| - 1;
      PrefixMoves(g, m, t, source, n);
      NoFollowersFaithful(g, m, u, t, source[..n]);
      if InsertKey(g, m, source[n]) in t {
        MovedMatched(g, m, u, t, source, n);
      } else {
        MovedUnmatched(g, m, u, t, source, n);
      }
    }
  }

  lemma NothingMoved(g: Engine, m: MergeStmt, t: Table)
    requires Rewritable(m) && Valid(g, t) && MovesWell(g, m, t, [])
    ensures MovedResult(g, m, t, []) == t
  {
    hide KeyOf, Rewritable, MovesWell;
    assert forall k :: k in t ==> EndKey(g, m, [], t[k]) == k && NewVersion(g, m, [], t[k]) == t[k];
  }

  /** The upsert meets the second row before that has moved on; MERGE checks keys at the end. */
  lemma FollowerFails(g: Engine, m: MergeStmt, u: Upsert, r1: Row, s1: Row, r2: Row, s2: Row)
    requires RewriteOf(m, u) && Legal(g.key, m) && OnIsKey(g, m) && Follows(g, m, r1, s1, r2, s2)
    ensures !FaithfulMoving(g, m, u)
  {
    hide Matches, Legal, OnIsKey, KeyOf, InsertKey, Updated, MovedResult, MoveAll, Stands, Assignable;
    var k1, k2 := KeyOf(g, r1), KeyOf(g, r2);
    var t: Table := map[k1 := r1, k2 := r2];
    assert Valid(g, t);
    FollowersRun(g, m, t, r1, s1, r2, s2);
    FollowersFail(g, m, u, t, r1, s1, r2, s2);
  }

  lemma TwoVersions(g: Engine, m: MergeStmt, row: Row, s1: Row, s2: Row)
    requires Rewritable(m)
    ensures NewVersion(g, m, [s1, s2], row) ==
      if Matches(g, m, row, s2) then Updated(g, m, row, s2)
      else if Matches(g, m, row, s1) then Updated(g, m, row, s1)
      else row
  {
    hide Matches, Updated, Rewritable;
    assert [s1, s2][..1] == [s1] && [s1][..0] == [];
    assert MatchFor(g, m, [], row) == None;
    assert MatchFor(g, m, [s1], row) == if Matches(g, m, row, s1) then Some(s1) else None;
  }

  lemma FollowersRun(g: Engine, m: MergeStmt, t: Table, r1: Row, s1: Row, r2: Row, s2: Row)
    requires Rewritable(m) && OnIsKey(g, m) && Follows(g, m, r1, s1, r2, s2)
    requires t == map[KeyOf(g, r1) := r1, KeyOf(g, r2) := r2]
    ensures Valid(g, t) && MovesWell(g, m, t, [s1, s2])
  {
    hide Matches, OnIsKey, KeyOf, InsertKey, Updated, Rewritable, NewVersion, KeysMove, KeysInsert;
    var k1, k2 := KeyOf(g, r1), KeyOf(g, r2);
    MatchIsKey(g, m, t, s1);
    MatchIsKey(g, m, t, s2);
    assert t[k1] == r1 && t[k2] == r2 && t.Keys == {k1, k2};
    TwoVersions(g, m, r1, s1, s2);
    TwoVersions(g, m, r2, s1, s2);
    assert EndKey(g, m, [s1, s2], r1) == k2;
    assert NoDoubleMatch(g, m, t, [s1, s2]);
    TwoKeysMove(g, m, t, [s1, s2], k1, k2);
    assert forall i :: 0 <= i < 2 ==> !Unmatched(g, m, t, [s1, s2][i]);
    AllMatched(g, m, t, [s1, s2]);
  }

  lemma TwoKeysMove(g: Engine, m: MergeStmt, t: Table, source: seq<Row>, k1: Key, k2: Key)
    requires Rewritable(m) && t.Keys == {k1, k2} && k1 != k2
    requires Null !in EndKey(g, m, source, t[k1]) && Null !in EndKey(g, m, source, t[k2])
    requires EndKey(g, m, source, t[k1]) != EndKey(g, m, source, t[k2])
    ensures KeysMove(g, m, t, source)
  {
    hide EndKey, Rewritable;
  }

  lemma AllMatched(g: Engine, m: MergeStmt, t: Table, source: seq<Row>)
    requires Rewritable(m) && forall i :: 0 <= i < |source| ==> !Unmatched(g, m, t, source[i])
    ensures KeysInsert(g, m, t, source)
  {
    hide EndKey, Rewritable, Unmatched, InsertKey;
  }

  lemma FollowersFail(g: Engine, m: MergeStmt, u: Upsert, t: Table, r1: Row, s1: Row, r2: Row, s2: Row)
    requires RewriteOf(m, u) && Legal(g.key, m) && Follows(g, m, r1, s1, r2, s2)
    requires t == map[KeyOf(g, r1) := r1, KeyOf(g, r2) := r2]
    ensures MoveAll(g, m, u, t, [s1, s2]) == None
  {
    hide Legal, KeyOf, NewRow, ApplySets, SetItems, Stands, Assignable;
    assert [s1, s2][..1] == [s1] && [s1][..0] == [];
    SetsAgree(g, m, u, r1, s1, |u.sets|);
    assert u.sets[..|u.sets|] == u.sets && UpdateOf(m).items[..|u.sets|] == UpdateOf(m).items;
    assert MoveAll(g, m, u, t, []) == Some(t);
    assert MoveRow(g, m, u, t, s1) == None;
    assert MoveAll(g, m, u, t, [s1]) == None;
  }

  /** Key columns may be assigned: where ON matches by the inserted key, the rewrite is faithful exactly
      when no row can move to the key of another that moves on in its turn. */
  lemma MovingIff(g: Engine, m: MergeStmt, u: Upsert)
    requires RewriteOf(m, u) && Legal(g.key, m) && OnIsKey(g, m)
    ensures FaithfulMoving(g, m, u) <==> NoFollowers(g, m)
  {
    hide Legal, OnIsKey, Follows, MovesWell, MovedResult, MoveAll, Valid, Stands, Assignable;
    if NoFollowers(g, m) {
      forall t: Table, source: seq<Row> | Valid(g, t) && MovesWell(g, m, t, source)
        ensures MoveAll(g, m, u, t, source) == Some(MovedResult(g, m, t, source))
      {
        NoFollowersFaithful(g, m, u, t, source);
      }
    } else {
      var r1, s1, r2, s2 :| Follows(g, m, r1, s1, r2, s2);
      FollowerFails(g, m, u, r1, s1, r2, s2);
    }
  }

  /** A check on the text: an assigned key column gets the value that is inserted into it. */
  ghost predicate KeepsKey(key: seq<string>, m: MergeStmt)
    requires Rewritable(m)
  {
    var cols, vals, items := InsertOf(m).cols.items, InsertOf(m).vals.items, UpdateOf(m).items;
    forall i :: 0 <= i < |items| && items[i].col in key ==>
      exists j :: 0 <= j < |cols| && cols[j] == items[i].col && vals[j] == items[i].rhs
  }

  lemma {:induction false} ColumnKept(g: Engine, m: MergeStmt, row: Row, s: Row, n: nat, i: nat)
    requires Rewritable(m) && Legal(g.key, m) && KeepsKey(g.key, m) && KeyOf(g, row) == InsertKey(g, m, s)
    requires n <= |UpdateOf(m).items| && i < |g.key|
    ensures Get(SetItems(g, row, row, UpdateOf(m).items[..n], s), g.key[i]) == Get(row, g.key[i])
  {
    hide InsertKey, Legal, Eval;
    var items := UpdateOf(m).items;
    assert KeyOf(g, row)[i] == Get(row, g.key[i]);
    if n > 0 {
      ColumnKept(g, m, row, s, n - 1, i);
      assert items[..n][..n - 1] == items[..n - 1] && items[..n][n - 1] == items[n - 1];
      if items[n - 1].col == g.key[i] {
        var cols, vals := InsertOf(m).cols.items, InsertOf(m).vals.items;
        var j :| 0 <= j < |cols| && cols[j] == items[n - 1].col && vals[j] == items[n - 1].rhs;
        InsertedAt(g, m, s, i, j);
        InsertedSource(g, m, j);
        SourceOnlyEval(g, vals[j], map[], row, s);
      }
    }
  }

  lemma InsertedSource(g: Engine, m: MergeStmt, j: nat)
    requires Rewritable(m) && Legal(g.key, m) && j < |InsertOf(m).vals.items|
    ensures SourceOnly(InsertOf(m).vals.items[j])
  {
  }

  /** Then no row moves at all, and the rewrite is faithful. */
  lemma KeptKeyIsFaithful(g: Engine, m: MergeStmt, u: Upsert)
    requires RewriteOf(m, u) && Legal(g.key, m) && OnIsKey(g, m) && KeepsKey(g.key, m)
    ensures FaithfulMoving(g, m, u)
  {
    hide FaithfulMoving, Legal, OnIsKey, KeepsKey, InsertKey, Stands, Assignable;
    forall r1, s1, r2, s2 ensures !Follows(g, m, r1, s1, r2, s2) {
      if KeyOf(g, r1) == InsertKey(g, m, s1) {
        KeyStays(g, m, r1, s1);
      }
    }
    MovingIff(g, m, u);
  }

  lemma KeyStays(g: Engine, m: MergeStmt, row: Row, s: Row)
    requires Rewritable(m) && Legal(g.key, m) && KeepsKey(g.key, m) && KeyOf(g, row) == InsertKey(g, m, s)
    ensures KeyOf(g, Updated(g, m, row, s)) == KeyOf(g, row)
  {
    hide Legal, KeepsKey, InsertKey, SetItems, Assignable;
    var items := UpdateOf(m).items;
    assert items[..|items|] == items;
    forall i | 0 <= i < |g.key| ensures KeyOf(g, Updated(g, m, row, s))[i] == KeyOf(g, row)[i] {
      ColumnKept(g, m, row, s, |items|, i);
    }
  }

  /** ON t.id = s.id, UPDATE SET id = s.other, INSERT (id, other). */
  const KEY_MOVE := MergeStmt(
    false,
    [When(true, false, Update([SetEq("id", Column(Source, "other"))])),
     When(false, false, Insert(Tuple(["id", "other"]), Tuple([Column(Source, "id"), Column(Source, "other")])))],
    Equal(Column(Target, "id"), Column(Source, "id")))

  const KEY_MOVE_UPSERT :=
    Upsert(["id", "other"], [Column(Source, "id"), Column(Source, "other")], [("id", ValuesOf("other"))])

  lemma KeyMoveRewritten()
    ensures RewriteOf(KEY_MOVE, KEY_MOVE_UPSERT) && Legal(["id"], KEY_MOVE)
  {
    var m, u := KEY_MOVE, KEY_MOVE_UPSERT;
    var items := [SetEq("id", Column(Source, "other"))];
    assert UpdateOf(m) == Update(items);
    assert u.cols[1] == "other" && u.vals[1] == items[0].rhs;
    assert Stands(items[0], u.sets[0], u.cols, u.vals);
    assert "id"[0] != "other"[0];
  }

  lemma KeyMoveKey(g: Engine, s: Row)
    requires g.key == ["id"] && RewriteOf(KEY_MOVE, KEY_MOVE_UPSERT) && Legal(g.key, KEY_MOVE)
    ensures InsertKey(g, KEY_MOVE, s) == [Get(s, "id")]
  {
    hide RewriteOf, Legal, InsertKey;
    KeyMoveRewritten();
    InsertedAt(g, KEY_MOVE, s, 0, 0);
    KeySize(g, KEY_MOVE, s);
  }

  lemma KeyMoveOn(g: Engine)
    requires g.key == ["id"] && RewriteOf(KEY_MOVE, KEY_MOVE_UPSERT) && Legal(g.key, KEY_MOVE)
    ensures OnIsKey(g, KEY_MOVE)
  {
    hide RewriteOf, Legal, InsertKey;
    KeyMoveRewritten();
    forall row: Row, s: Row | Null !in KeyOf(g, row)
      ensures Matches(g, KEY_MOVE, row, s) <==> KeyOf(g, row) == InsertKey(g, KEY_MOVE, s)
    {
      KeyMoveKey(g, s);
      assert KeyOf(g, row) == [Get(row, "id")] && KeyOf(g, row)[0] == Get(row, "id");
      assert [Get(s, "id")][0] == Get(s, "id");
    }
  }

  /** It is rewritten, and wrong when one row takes the id that another gives up. */
  lemma KeyIsMoved(g: Engine)
    requires g.key == ["id"]
    ensures RewriteOf(KEY_MOVE, KEY_MOVE_UPSERT) && Legal(g.key, KEY_MOVE) && OnIsKey(g, KEY_MOVE)
    ensures !FaithfulMoving(g, KEY_MOVE, KEY_MOVE_UPSERT)
  {
    hide FaithfulMoving, RewriteOf, Legal, InsertKey, Updated, Follows, Rewritable, OnIsKey;
    KeyMoveRewritten();
    var m := KEY_MOVE;
    assert Rewritable(m) by { RewriteIsOne(m, KEY_MOVE_UPSERT); }
    KeyMoveOn(g);
    var r1: Row, s1: Row := map["id" := Val(1)], map["id" := Val(1), "other" := Val(2)];
    var r2: Row, s2: Row := map["id" := Val(2)], map["id" := Val(2), "other" := Val(3)];
    KeyMoveKey(g, s1);
    KeyMoveKey(g, s2);
    MovedTo(g, m, r1, s1);
    MovedTo(g, m, r2, s2);
    assert "id"[0] != "other"[0];
    assert KeyOf(g, r1) == [Val(1)] && KeyOf(g, r2) == [Val(2)];
    FollowsIs(g, m, r1, s1, r2, s2);
    MovingIff(g, m, KEY_MOVE_UPSERT);
  }

  lemma RewriteIsOne(m: MergeStmt, u: Upsert)
    requires RewriteOf(m, u)
    ensures Rewritable(m)
  {
    hide Rewritable;
  }

  lemma MovedTo(g: Engine, m: MergeStmt, row: Row, s: Row)
    requires Rewritable(m) && g.key == ["id"] && UpdateOf(m) == Update([SetEq("id", Column(Source, "other"))])
    ensures KeyOf(g, Updated(g, m, row, s)) == [Get(s, "other")]
  {
    var items := [SetEq("id", Column(Source, "other"))];
    assert items[..0] == [];
    assert SetItems(g, row, row, items, s) == row["id" := Get(s, "other")];
  }
}
