/** PIVOT and UNPIVOT relations of src/unique/core/converter/emit_relations.py: the conditional
    aggregation and the UNION ALL they are emitted as, against the native operators. */
module Relations {
  import opened Basics
  import opened Text

  datatype Value = Null | Num(n: int) | Str(s: string)

  /** A row of the source, by column name in lower case. */
  type Row = map<string, Value>

  function Get(row: Row, col: string): Value {
    if LowerAll(col) in row then row[LowerAll(col)] else Null
  }

  function Lowered(names: seq<string>): set<string> {
    set x | x in names :: LowerAll(x)
  }

  /** The named columns of a row. */
  function Project(row: Row, cols: seq<string>): Row {
    map c | c in Lowered(cols) :: Get(row, c)
  }

  /** Rows that have exactly the named columns. */
  ghost predicate RowsOf(rows: seq<Row>, names: seq<string>) {
    forall r :: r in rows ==> r.Keys == Lowered(names)
  }

  /** An item of the source's SELECT list, and the source itself. */
  datatype Item = ColumnRef(name: string, qualified: bool) | Alias(name: string) | OtherItem
  datatype Source = Subquery(items: seq<Item>) | OtherSource

  predicate Named(it: Item) {
    !it.OtherItem?
  }

  function Names(items: seq<Item>): seq<string>
    requires forall i :: 0 <= i < |items| ==> Named(items[i])
  {
    seq(|items|, i requires 0 <= i < |items| => assert Named(items[i]); items[i].name)
  }

  /** The names that differ, case ignored, from every one of `excluded`. */
  function Without(names: seq<string>, excluded: seq<string>): seq<string> {
    if names == [] then []
    else
      var n := |names| - 1;
      Without(names[..n], excluded) + (if LowerAll(names[n]) in Lowered(excluded) then [] else [names[n]])
  }

  method LowerSet(names: seq<string>) returns (s: set<string>)
    ensures s == Lowered(names)
  {
    s := {};
    for k := 0 to |names|
      invariant s == Lowered(names[..k])
    {
      assert names[..k + 1] == names[..k] + [names[k]];
      s := s + {LowerAll(names[k])};
    }
    assert names[..|names|] == names;
  }

  method KeepOthers(names: seq<string>, lowered: set<string>, ghost excluded: seq<string>) returns (r: seq<string>)
    requires lowered == Lowered(excluded)
    ensures r == Without(names, excluded)
  {
    r := [];
    for k := 0 to |names|
      invariant r == Without(names[..k], excluded)
    {
      assert names[..k + 1][..k] == names[..k];
      if LowerAll(names[k]) !in lowered {
        r := r + [names[k]];
      }
    }
    assert names[..|names|] == names;
  }

  lemma LowerOnce(x: string)
    ensures LowerAll(LowerAll(x)) == LowerAll(x)
  {
  }

  lemma {:induction false} WithoutNames(names: seq<string>, excluded: seq<string>)
    ensures Lowered(Without(names, excluded)) == Lowered(names) - Lowered(excluded)
  {
    if names != [] {
      var n := |names| - 1;
      WithoutNames(names[..n], excluded);
      assert names == names[..n] + [names[n]];
      LoweredConcat(names[..n], [names[n]]);
      LoweredConcat(Without(names[..n], excluded), [names[n]]);
      assert Lowered([names[n]]) == {LowerAll(names[n])};
      hide Lowered;
      assert Without(names[..n], excluded) + [] == Without(names[..n], excluded);
    }
  }

  lemma LoweredConcat(a: seq<string>, b: seq<string>)
    ensures Lowered(a + b) == Lowered(a) + Lowered(b)
  {
    forall x | x in Lowered(a) + Lowered(b) ensures x in Lowered(a + b) {
      var y :| (y in a || y in b) && LowerAll(y) == x;
      assert y in a + b;
    }
  }

  /** What is selected of a row is all of it but the excluded columns. */
  lemma ProjectIsRest(row: Row, names: seq<string>, excluded: seq<string>)
    requires row.Keys == Lowered(names)
    ensures Project(row, Without(names, excluded)) == row - Lowered(excluded)
  {
    WithoutNames(names, excluded);
    forall c | c in Lowered(names) ensures LowerAll(c) == c {
      var x :| x in names && LowerAll(x) == c;
      LowerOnce(x);
    }
    hide LowerAll, Lowered, Without;
  }

  // ----- UNPIVOT -----

  datatype Unpivot = Unpivot(source: Source, columns: seq<string>, includeNulls: bool)

  /** SELECT carried, 'display' AS name, column AS value FROM source [WHERE column IS NOT NULL]. */
  datatype Arm = Arm(carried: seq<string>, display: string, column: string, skipNulls: bool)

  method UnpivotCarriedColumns(src: Source, unpivoted: seq<string>) returns (r: Option<seq<string>>)
    ensures r.Some? <==> src.Subquery? && forall i :: 0 <= i < |src.items| ==> Named(src.items[i])
    ensures r.Some? ==> r.value == Without(Names(src.items), unpivoted)
  {
    if !src.Subquery? { return None; }
    var names: seq<string> := [];
    for k := 0 to |src.items|
      invariant forall i :: 0 <= i < k ==> Named(src.items[i])
      invariant names == Names(src.items[..k])
    {
      if src.items[k].OtherItem? { return None; }
      names := names + [src.items[k].name];
    }
    assert src.items[..|src.items|] == src.items;
    var lowered := LowerSet(unpivoted);
    var kept := KeepOthers(names, lowered, unpivoted);
    r := Some(kept);
  }

  /** The name an UNPIVOT of the source engine gives a column: Oracle folds it to upper case. */
  function NameValue(col: string, foldsUpper: bool): string {
    if foldsUpper then UpperAll(col) else col
  }

  function ArmOf(node: Unpivot, carried: seq<string>, foldsUpper: bool, c: string): Arm {
    Arm(carried, NameValue(c, foldsUpper), c, !node.includeNulls)
  }

  method EmitUnpivotRelation(node: Unpivot, foldsUpper: bool) returns (r: Option<seq<Arm>>)
    ensures r.Some? <==>
      node.source.Subquery? && forall i :: 0 <= i < |node.source.items| ==> Named(node.source.items[i])
    ensures r.Some? ==> UnpivotArms(node, Names(node.source.items), foldsUpper, r.value)
    ensures r.Some? ==> forall rows :: RowsOf(rows, Names(node.source.items)) ==>
      multiset(UnionAll(r.value, rows)) == multiset(NativeUnpivot(node, foldsUpper, rows))
  {
    hide RowsOf, UnionAll, NativeUnpivot, Without, LowerAll;
    var carried := UnpivotCarriedColumns(node.source, node.columns);
    if carried.None? { return None; }
    var arms: seq<Arm> := [];
    for k := 0 to |node.columns|
      invariant |arms| == k
      invariant forall i :: 0 <= i < k ==> arms[i] == ArmOf(node, carried.value, foldsUpper, node.columns[i])
    {
      var c := node.columns[k];
      var display := if foldsUpper then UpperAll(c) else c;
      arms := arms + [Arm(carried.value, display, c, !node.includeNulls)];
    }
    r := Some(arms);
    ghost var names := Names(node.source.items);
    forall rows | RowsOf(rows, names)
      ensures multiset(UnionAll(arms, rows)) == multiset(NativeUnpivot(node, foldsUpper, rows))
    {
      UnpivotSameRows(node, names, foldsUpper, arms, rows);
    }
  }

  /** A row of the result: the carried columns, the name, the value. */
  datatype Cell = Cell(carried: Row, name: string, value: Value)

  function ArmRow(a: Arm, row: Row): seq<Cell> {
    if a.skipNulls && Get(row, a.column).Null? then []
    else [Cell(Project(row, a.carried), a.display, Get(row, a.column))]
  }

  function ArmRows(a: Arm, rows: seq<Row>): seq<Cell> {
    if rows == [] then [] else ArmRow(a, rows[0]) + ArmRows(a, rows[1..])
  }

  /** The emitted relation: column by column, row by row. */
  function UnionAll(arms: seq<Arm>, rows: seq<Row>): seq<Cell> {
    if arms == [] then [] else ArmRows(arms[0], rows) + UnionAll(arms[1..], rows)
  }

  /** What native UNPIVOT makes of one row: the row without its unpivoted columns, a name, a value. */
  function NativeCells(node: Unpivot, foldsUpper: bool, row: Row, k: nat): seq<Cell>
    requires k <= |node.columns|
    decreases |node.columns| - k
  {
    if k == |node.columns| then []
    else
      var c := node.columns[k];
      (if Get(row, c).Null? && !node.includeNulls then []
       else [Cell(row - Lowered(node.columns), NameValue(c, foldsUpper), Get(row, c))])
      + NativeCells(node, foldsUpper, row, k + 1)
  }

  /** Native UNPIVOT: row by row, column by column, NULLs dropped unless they are asked for. */
  function NativeUnpivot(node: Unpivot, foldsUpper: bool, rows: seq<Row>): seq<Cell> {
    if rows == [] then []
    else NativeCells(node, foldsUpper, rows[0], 0) + NativeUnpivot(node, foldsUpper, rows[1..])
  }

  function RowCells(arms: seq<Arm>, row: Row): seq<Cell> {
    if arms == [] then [] else ArmRow(arms[0], row) + RowCells(arms[1..], row)
  }

  lemma {:induction false} SplitRow(arms: seq<Arm>, row: Row, rest: seq<Row>)
    ensures multiset(UnionAll(arms, [row] + rest)) == multiset(RowCells(arms, row)) + multiset(UnionAll(arms, rest))
  {
    if arms != [] {
      SplitRow(arms[1..], row, rest);
      assert ([row] + rest)[1..] == rest;
      assert ArmRows(arms[0], [row] + rest) == ArmRow(arms[0], row) + ArmRows(arms[0], rest);
      hide ArmRow;
    }
  }

  /** What is emitted for a source with the visible columns `names`. */
  ghost predicate UnpivotArms(node: Unpivot, names: seq<string>, foldsUpper: bool, arms: seq<Arm>) {
    && |arms| == |node.columns|
    && forall i :: 0 <= i < |arms| ==> arms[i] == ArmOf(node, Without(names, node.columns), foldsUpper, node.columns[i])
  }

  lemma {:induction false} CellsAgree(
    node: Unpivot, names: seq<string>, foldsUpper: bool, arms: seq<Arm>, row: Row, k: nat)
    requires UnpivotArms(node, names, foldsUpper, arms) && row.Keys == Lowered(names) && k <= |arms|
    ensures RowCells(arms[k..], row) == NativeCells(node, foldsUpper, row, k)
    decreases |arms| - k
  {
    hide Get, Project, NameValue, Lowered, Without;
    if k < |arms| {
      CellsAgree(node, names, foldsUpper, arms, row, k + 1);
      ProjectIsRest(row, names, node.columns);
      assert arms[k..][1..] == arms[k + 1..];
    }
  }

  lemma {:induction false} EmptyUnion(arms: seq<Arm>)
    ensures UnionAll(arms, []) == []
  {
    if arms != [] {
      EmptyUnion(arms[1..]);
    }
  }

  /** The UNION ALL returns the rows of the native UNPIVOT, each as often, for every source. */
  lemma {:induction false} UnpivotSameRows(
    node: Unpivot, names: seq<string>, foldsUpper: bool, arms: seq<Arm>, rows: seq<Row>)
    requires UnpivotArms(node, names, foldsUpper, arms) && RowsOf(rows, names)
    ensures multiset(UnionAll(arms, rows)) == multiset(NativeUnpivot(node, foldsUpper, rows))
  {
    hide UnionAll, NativeCells, RowCells, UnpivotArms, Lowered;
    if rows == [] {
      EmptyUnion(arms);
    } else {
      assert rows[0] in rows;
      UnpivotSameRows(node, names, foldsUpper, arms, rows[1..]);
      SplitRow(arms, rows[0], rows[1..]);
      ArmsFromStart(node, names, foldsUpper, arms, rows[0]);
      assert [rows[0]] + rows[1..] == rows;
    }
  }

  lemma ArmsFromStart(node: Unpivot, names: seq<string>, foldsUpper: bool, arms: seq<Arm>, row: Row)
    requires UnpivotArms(node, names, foldsUpper, arms) && row.Keys == Lowered(names)
    ensures RowCells(arms, row) == NativeCells(node, foldsUpper, row, 0)
  {
    CellsAgree(node, names, foldsUpper, arms, row, 0);
    assert arms[0..] == arms;
  }

  /** The rows a column contributes: its non-NULL cells, or all of them. */
  function Cells(rows: seq<Row>, col: string, includeNulls: bool): nat {
    if rows == [] then 0
    else (if Get(rows[0], col).Null? && !includeNulls then 0 else 1) + Cells(rows[1..], col, includeNulls)
  }

  function AllCells(rows: seq<Row>, cols: seq<string>, includeNulls: bool): nat {
    if cols == [] then 0 else Cells(rows, cols[0], includeNulls) + AllCells(rows, cols[1..], includeNulls)
  }

  lemma {:induction false} RowCount(node: Unpivot, foldsUpper: bool, row: Row, k: nat)
    requires k <= |node.columns|
    ensures |NativeCells(node, foldsUpper, row, k)| == AllCells([row], node.columns[k..], node.includeNulls)
    decreases |node.columns| - k
  {
    if k < |node.columns| {
      RowCount(node, foldsUpper, row, k + 1);
      assert node.columns[k..][1..] == node.columns[k + 1..];
      assert [row][1..] == [];
      assert Cells([row], node.columns[k], node.includeNulls)
          == if Get(row, node.columns[k]).Null? && !node.includeNulls then 0 else 1;
    }
  }

  lemma {:induction false} CellsOfRows(row: Row, rest: seq<Row>, cols: seq<string>, includeNulls: bool)
    ensures AllCells([row] + rest, cols, includeNulls) ==
      AllCells([row], cols, includeNulls) + AllCells(rest, cols, includeNulls)
  {
    hide Get;
    if cols != [] {
      var one := [row];
      CellsOfRows(row, rest, cols[1..], includeNulls);
      assert (one + rest)[1..] == rest && one[1..] == [];
      assert Cells(one, cols[0], includeNulls) + Cells(rest, cols[0], includeNulls) ==
        Cells(one + rest, cols[0], includeNulls);
    }
  }

  lemma {:induction false} NoCells(cols: seq<string>, includeNulls: bool)
    ensures AllCells([], cols, includeNulls) == 0
  {
    if cols != [] {
      NoCells(cols[1..], includeNulls);
    }
  }

  /** Native UNPIVOT, which goes row by row, has as many rows as there are cells to show, column by column. */
  lemma {:induction false} NativeCount(node: Unpivot, foldsUpper: bool, rows: seq<Row>)
    ensures |NativeUnpivot(node, foldsUpper, rows)| == AllCells(rows, node.columns, node.includeNulls)
  {
    hide NativeCells, AllCells;
    if rows == [] {
      NoCells(node.columns, node.includeNulls);
    } else {
      NativeCount(node, foldsUpper, rows[1..]);
      RowCount(node, foldsUpper, rows[0], 0);
      CellsOfRows(rows[0], rows[1..], node.columns, node.includeNulls);
      assert node.columns[0..] == node.columns && [rows[0]] + rows[1..] == rows;
    }
  }

  // ----- PIVOT -----

  /** An aggregate that skips NULLs: a fold over the other values, and what it makes of its state. */
  datatype Aggregate<!A> = Aggregate(zero: A, step: (A, Value) -> A, result: A -> Value)

  /** The aggregated argument: a column, or an expression over the columns it mentions. */
  datatype Arg = ColumnArg(name: string) | OtherArg(columns: seq<string>, value: Row -> Value)

  datatype Pivot = Pivot(source: Source, arg: Arg, pivotCol: string, values: seq<string>)

  /** SELECT keys, agg(CASE WHEN pivotCol = 'v' THEN arg END) ... GROUP BY keys. */
  datatype CaseAgg = CaseAgg(pivotCol: string, v: string, arg: Arg)
  datatype GroupQuery = GroupQuery(keys: seq<string>, aggs: seq<CaseAgg>)

  predicate Groupable(it: Item) {
    it.Alias? || (it.ColumnRef? && !it.qualified)
  }

  function Excluded(node: Pivot): seq<string> {
    [node.pivotCol, if node.arg.ColumnArg? then node.arg.name else ""]
  }

  method PivotGroupColumns(node: Pivot) returns (r: Option<seq<string>>)
    ensures r.Some? <==>
      node.source.Subquery? && forall i :: 0 <= i < |node.source.items| ==> Groupable(node.source.items[i])
    ensures r.Some? ==> forall i :: 0 <= i < |node.source.items| ==> Named(node.source.items[i])
    ensures r.Some? ==> r.value == Without(Names(node.source.items), Excluded(node))
  {
    if !node.source.Subquery? { return None; }
    var names: seq<string> := [];
    var items := node.source.items;
    for k := 0 to |items|
      invariant forall i :: 0 <= i < k ==> Groupable(items[i]) && Named(items[i])
      invariant names == Names(items[..k])
    {
      if Groupable(items[k]) {
        names := names + [items[k].name];
      } else {
        return None;
      }
    }
    assert items[..|items|] == items;
    var lowered := LowerSet(Excluded(node));
    var kept := KeepOthers(names, lowered, Excluded(node));
    r := Some(kept);
  }

  method EmitPivotRelation(node: Pivot) returns (r: Option<GroupQuery>)
    ensures r.Some? <==>
      node.source.Subquery? && forall i :: 0 <= i < |node.source.items| ==> Groupable(node.source.items[i])
    ensures r.Some? ==> forall i :: 0 <= i < |node.source.items| ==> Named(node.source.items[i])
    ensures r.Some? ==> PivotQuery(node, Names(node.source.items), r.value)
  {
    var groupCols := PivotGroupColumns(node);
    if groupCols.None? { return None; }
    var aggs: seq<CaseAgg> := [];
    for k := 0 to |node.values|
      invariant |aggs| == k
      invariant forall i :: 0 <= i < k ==> aggs[i] == CaseAgg(node.pivotCol, node.values[i], node.arg)
    {
      aggs := aggs + [CaseAgg(node.pivotCol, node.values[k], node.arg)];
    }
    r := Some(GroupQuery(groupCols.value, aggs));
  }

  ghost predicate Emitted(node: Pivot, q: GroupQuery) {
    |q.aggs| == |node.values| &&
    forall i :: 0 <= i < |q.aggs| ==> q.aggs[i] == CaseAgg(node.pivotCol, node.values[i], node.arg)
  }

  function ArgValue(a: Arg, row: Row): Value {
    match a case ColumnArg(name) => Get(row, name) case OtherArg(_, value) => value(row)
  }

  /** CASE WHEN p = 'v' THEN arg END. */
  function CaseValue(c: CaseAgg, row: Row): Value {
    if Get(row, c.pivotCol) == Str(c.v) then ArgValue(c.arg, row) else Null
  }

  function Feed<A>(agg: Aggregate<A>, acc: A, v: Value): A {
    if v.Null? then acc else agg.step(acc, v)
  }

  /** GROUP BY in one pass: a table of running states by the key columns; NULL keys are equal. Without
      key columns there is one group, also over no rows. */
  function HashGroups<A>(agg: Aggregate<A>, q: GroupQuery, rows: seq<Row>): (m: map<Row, seq<A>>)
    ensures forall k :: k in m ==> |m[k]| == |q.aggs|
  {
    var zeros := seq(|q.aggs|, _ => agg.zero);
    if rows == [] then (if q.keys == [] then map[Project(map[], []) := zeros] else map[])
    else
      var n := |rows| - 1;
      var before := HashGroups(agg, q, rows[..n]);
      var k := Project(rows[n], q.keys);
      var accs := if k in before then before[k] else zeros;
      before[k := seq(|q.aggs|, i requires 0 <= i < |q.aggs| => Feed(agg, accs[i], CaseValue(q.aggs[i], rows[n])))]
  }

  /** The result of the emitted query, one row a group: the key columns, then the aggregates. */
  function GroupByResult<A>(agg: Aggregate<A>, q: GroupQuery, rows: seq<Row>): map<Row, seq<Value>> {
    var m := HashGroups(agg, q, rows);
    map k | k in m :: seq(|m[k]|, i requires 0 <= i < |m[k]| => agg.result(m[k][i]))
  }

  function ArgColumns(a: Arg): set<string> {
    match a case ColumnArg(name) => {LowerAll(name)} case OtherArg(columns, _) => Lowered(columns)
  }

  /** What native PIVOT groups a row by: the row without the columns the operator mentions. */
  function Unmentioned(node: Pivot, row: Row): Row {
    row - ({LowerAll(node.pivotCol)} + ArgColumns(node.arg))
  }

  /** The values native PIVOT aggregates for the group `k` and the IN value `v`. */
  function NativeCell(node: Pivot, rows: seq<Row>, k: Row, v: string): seq<Value> {
    if rows == [] then []
    else
      var n := |rows| - 1;
      var counts := Unmentioned(node, rows[n]) == k && Get(rows[n], node.pivotCol) == Str(v);
      NativeCell(node, rows[..n], k, v) + (if counts then [ArgValue(node.arg, rows[n])] else [])
  }

  function Fold<A>(agg: Aggregate<A>, vs: seq<Value>): A {
    if vs == [] then agg.zero else Feed(agg, Fold(agg, vs[..|vs| - 1]), vs[|vs| - 1])
  }

  function GroupsOf(node: Pivot, rows: seq<Row>): set<Row> {
    set r | r in rows :: Unmentioned(node, r)
  }

  /** Native PIVOT: one row for every group, for each IN value the aggregate of the group's rows
      whose pivot column equals it. */
  function NativePivot<A>(agg: Aggregate<A>, node: Pivot, rows: seq<Row>): map<Row, seq<Value>> {
    map k | k in GroupsOf(node, rows) ::
      seq(|node.values|, i requires 0 <= i < |node.values| =>
        agg.result(Fold(agg, NativeCell(node, rows, k, node.values[i]))))
  }

  /** The emitted query groups the rows as native PIVOT does. */
  ghost predicate SameGroups(node: Pivot, q: GroupQuery, rows: seq<Row>) {
    forall r :: r in rows ==> Project(r, q.keys) == Unmentioned(node, r)
  }

  function KeySet(keys: seq<string>, rows: seq<Row>): set<Row> {
    set r | r in rows :: Project(r, keys)
  }

  lemma {:induction false} HashKeys<A>(agg: Aggregate<A>, q: GroupQuery, rows: seq<Row>)
    ensures HashGroups(agg, q, rows).Keys == KeySet(q.keys, rows) + if q.keys == [] then {Project(map[], [])} else {}
  {
    hide Project, CaseValue;
    if rows != [] {
      var n := |rows| - 1;
      HashKeys(agg, q, rows[..n]);
      assert rows == rows[..n] + [rows[n]];
    }
  }

  /** A group that no row is in contributes nothing. */
  lemma {:induction false} NoRows(node: Pivot, rows: seq<Row>, k: Row, v: string)
    requires k !in GroupsOf(node, rows)
    ensures NativeCell(node, rows, k, v) == []
  {
    hide Unmentioned;
    if rows != [] {
      var n := |rows| - 1;
      assert rows[n] in rows && forall r :: r in rows[..n] ==> r in rows;
      NoRows(node, rows[..n], k, v);
    }
  }

  lemma FreshStates<A>(agg: Aggregate<A>, q: GroupQuery, rows: seq<Row>, k: Row, i: nat)
    requires rows == [] && k in HashGroups(agg, q, rows) && i < |q.aggs|
    ensures HashGroups(agg, q, rows)[k][i] == agg.zero
  {
  }

  /** The running state of a group is the fold of what native PIVOT aggregates. */
  lemma {:induction false} HashIsFold<A>(agg: Aggregate<A>, node: Pivot, q: GroupQuery, rows: seq<Row>, k: Row, i: nat)
    requires Emitted(node, q) && SameGroups(node, q, rows) && i < |q.aggs| && k in HashGroups(agg, q, rows)
    ensures HashGroups(agg, q, rows)[k][i] == Fold(agg, NativeCell(node, rows, k, node.values[i]))
  {
    hide Project, Unmentioned, Get, ArgValue, Fold;
    if rows == [] {
      FreshStates(agg, q, rows, k, i);
      assert Fold(agg, []) == agg.zero by { FoldNone(agg); }
    } else {
      var n := |rows| - 1;
      var before := HashGroups(agg, q, rows[..n]);
      assert rows[n] in rows && forall r :: r in rows[..n] ==> r in rows;
      HashKeys(agg, q, rows[..n]);
      if k in before {
        HashIsFold(agg, node, q, rows[..n], k, i);
      } else {
        NoRows(node, rows[..n], k, node.values[i]);
        FoldNone(agg);
      }
      FoldOne(agg, NativeCell(node, rows[..n], k, node.values[i]), ArgValue(node.arg, rows[n]));
    }
  }

  lemma FoldNone<A>(agg: Aggregate<A>)
    ensures Fold(agg, []) == agg.zero
  {
  }

  lemma FoldOne<A>(agg: Aggregate<A>, vs: seq<Value>, v: Value)
    ensures Fold(agg, vs + [v]) == Feed(agg, Fold(agg, vs), v)
    ensures Fold(agg, vs + []) == Fold(agg, vs)
  {
    assert (vs + [v])[..|vs|] == vs;
    assert vs + [] == vs;
  }

  lemma OneGroup(node: Pivot, q: GroupQuery, rows: seq<Row>)
    requires SameGroups(node, q, rows) && (q.keys != [] || rows != [])
    ensures KeySet(q.keys, rows) + (if q.keys == [] then {Project(map[], [])} else {}) == GroupsOf(node, rows)
  {
    if q.keys == [] {
      assert Project(rows[0], q.keys) == map[] == Project(map[], []);
      assert rows[0] in rows;
    }
    hide Project, Unmentioned;
  }

  /** Grouped alike, the CASE aggregates return the table of native PIVOT, for every aggregate that
      skips NULLs: the same groups, each once, with the same aggregates. */
  lemma PivotSameTable<A>(agg: Aggregate<A>, node: Pivot, q: GroupQuery, rows: seq<Row>)
    requires Emitted(node, q) && SameGroups(node, q, rows) && (q.keys != [] || rows != [])
    ensures GroupByResult(agg, q, rows) == NativePivot(agg, node, rows)
  {
    hide HashGroups, NativeCell, Fold, KeySet, GroupsOf, SameGroups;
    HashKeys(agg, q, rows);
    OneGroup(node, q, rows);
    var m := HashGroups(agg, q, rows);
    var a, b := GroupByResult(agg, q, rows), NativePivot(agg, node, rows);
    forall k | k in m ensures a[k] == b[k] {
      forall i | 0 <= i < |q.aggs| ensures m[k][i] == Fold(agg, NativeCell(node, rows, k, node.values[i])) {
        HashIsFold(agg, node, q, rows, k, i);
      }
    }
  }

  /** What is emitted for a source with the visible columns `names`. */
  ghost predicate PivotQuery(node: Pivot, names: seq<string>, q: GroupQuery) {
    q.keys == Without(names, Excluded(node)) && Emitted(node, q)
  }

  /** No column that an aggregated expression mentions is left among the grouping columns. */
  predicate ArgumentGone(node: Pivot, names: seq<string>) {
    node.arg.OtherArg? ==>
      forall c :: c in Lowered(names) && c in Lowered(node.arg.columns) ==> c == LowerAll(node.pivotCol)
  }

  lemma ExcludedNames(node: Pivot)
    ensures Lowered(Excluded(node)) ==
      {LowerAll(node.pivotCol)} + (if node.arg.ColumnArg? then ArgColumns(node.arg) else {""})
  {
    assert LowerAll("") == "";
    var e := Excluded(node);
    assert e[0] in e && e[1] in e;
  }

  lemma NoEmptyName(names: seq<string>)
    requires "" !in names
    ensures "" !in Lowered(names)
  {
  }

  /** The grouping columns are the unmentioned ones exactly when that is so. */
  lemma GroupsIff(node: Pivot, names: seq<string>, q: GroupQuery, row: Row)
    requires PivotQuery(node, names, q) && "" !in names && row.Keys == Lowered(names)
    ensures Project(row, q.keys) == Unmentioned(node, row) <==> ArgumentGone(node, names)
  {
    hide LowerAll, Lowered, Without, Excluded;
    ProjectIsRest(row, names, Excluded(node));
    ExcludedNames(node);
    NoEmptyName(names);
    var p := LowerAll(node.pivotCol);
    var a, b := row - Lowered(Excluded(node)), Unmentioned(node, row);
    if node.arg.OtherArg? {
      if !ArgumentGone(node, names) {
        var c :| c in Lowered(names) && c in Lowered(node.arg.columns) && c != p;
        assert c in a && c !in b;
      } else {
        assert forall c :: c in row ==> (c in a <==> c in b);
        assert a == b;
      }
    }
  }

  /** Over any rows, and for every aggregate that skips NULLs, the emitted query returns the table of
      native PIVOT if and only if no column of an aggregated expression is left to group by; with a
      plain column for its argument it always does. */
  lemma PivotIff<A>(agg: Aggregate<A>, node: Pivot, names: seq<string>, q: GroupQuery, rows: seq<Row>)
    requires PivotQuery(node, names, q) && "" !in names && RowsOf(rows, names) && rows != []
    ensures GroupByResult(agg, q, rows) == NativePivot(agg, node, rows) <==> ArgumentGone(node, names)
    ensures node.arg.ColumnArg? ==> ArgumentGone(node, names)
  {
    hide HashGroups, NativeCell, ArgumentGone, Project, Unmentioned, Lowered;
    if node.arg.ColumnArg? {
      ColumnGone(node, names);
    }
    forall r | r in rows ensures Project(r, q.keys) == Unmentioned(node, r) <==> ArgumentGone(node, names) {
      GroupsIff(node, names, q, r);
    }
    if ArgumentGone(node, names) {
      PivotSameTable(agg, node, q, rows);
    } else {
      assert rows[0] in rows;
      NotGrouped(agg, node, names, q, rows);
    }
  }

  lemma ColumnGone(node: Pivot, names: seq<string>)
    requires node.arg.ColumnArg?
    ensures ArgumentGone(node, names)
  {
  }

  /** The group of the first row is none of the native ones: it has a column too many. */
  lemma NotGrouped<A>(agg: Aggregate<A>, node: Pivot, names: seq<string>, q: GroupQuery, rows: seq<Row>)
    requires PivotQuery(node, names, q) && "" !in names && RowsOf(rows, names) && rows != [] &&
      !ArgumentGone(node, names)
    ensures GroupByResult(agg, q, rows) != NativePivot(agg, node, rows)
  {
    hide HashGroups, NativeCell, Lowered, LowerAll, Without, Excluded;
    HashKeys(agg, q, rows);
    ExcludedNames(node);
    NoEmptyName(names);
    var r := rows[0];
    assert r in rows && r.Keys == Lowered(names);
    ProjectIsRest(r, names, Excluded(node));
    var c :| c in Lowered(names) && c in Lowered(node.arg.columns) && c != LowerAll(node.pivotCol);
    var k := Project(r, q.keys);
    assert c in k && k in GroupByResult(agg, q, rows);
    assert forall r' :: r' in rows ==> c !in Unmentioned(node, r');
  }

  const FourColumns :=
    Subquery([ColumnRef("g", false), ColumnRef("p", false), ColumnRef("a", false), ColumnRef("b", false)])

  /** `SUM(a * b)` over a source of `g`, `p`, `a` and `b` is grouped by all but `p`. */
  lemma ExpressionSplitsGroups<A>(agg: Aggregate<A>, product: Row -> Value, q: GroupQuery, r: Row, rest: seq<Row>)
    requires PivotQuery(Pivot(FourColumns, OtherArg(["a", "b"], product), "p", ["x"]), ["g", "p", "a", "b"], q)
    requires RowsOf([r] + rest, ["g", "p", "a", "b"])
    ensures GroupByResult(agg, q, [r] + rest)
         != NativePivot(agg, Pivot(FourColumns, OtherArg(["a", "b"], product), "p", ["x"]), [r] + rest)
  {
    hide GroupByResult, NativePivot, Without, Excluded, PivotQuery;
    var node := Pivot(FourColumns, OtherArg(["a", "b"], product), "p", ["x"]);
    var names := ["g", "p", "a", "b"];
    assert names[2] == "a" && "a" in names && node.arg.columns[0] == "a";
    assert LowerAll("a") == "a" && LowerAll("p") == "p" && "a"[0] != "p"[0];
    assert LowerAll("a") in Lowered(names) && LowerAll("a") in Lowered(node.arg.columns);
    PivotIff(agg, node, names, q, [r] + rest);
  }
}
