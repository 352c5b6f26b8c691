/** `_DELETE_CAP`, `_UPDATE_CAP`, `_emit_delete` and `_emit_capped_update` of
    src/unique/core/converter/emit_relations.py: one row cap, spelled four ways. */
module RowCaps {
  import opened Basics

  // ----- conditions, as trees and as the text they are emitted as -----

  datatype Truth = False | Unknown | True

  function And3(a: Truth, b: Truth): Truth {
    if a.False? || b.False? then False else if a.True? && b.True? then True else Unknown
  }

  function Or3(a: Truth, b: Truth): Truth {
    if a.True? || b.True? then True else if a.False? && b.False? then False else Unknown
  }

  function Not3(a: Truth): Truth {
    match a case False => True case Unknown => Unknown case True => False
  }

  datatype Row = Row(rid: nat, cells: seq<int>)

  /** What the engine supplies: the truth of an atomic condition, and the order of ORDER BY. */
  datatype Engine = Engine(truth: (nat, Row) -> Truth, less: (Row, Row) -> bool)

  datatype Cond = Atom(id: nat) | And(l: Cond, r: Cond) | Or(l: Cond, r: Cond) | Not(c: Cond)

  /** The text of a condition as SQL reads it: operands of OR, each a list of operands of AND. */
  type Text = seq<Conj>
  datatype Conj = Conj(factors: seq<Factor>)
  datatype Factor = Leaf(id: nat) | Group(negated: bool, text: seq<Conj>) | RownumLe(n: nat)

  function Holds(g: Engine, c: Cond, row: Row): Truth {
    match c
    case Atom(id) => g.truth(id, row)
    case And(l, r) => And3(Holds(g, l, row), Holds(g, r, row))
    case Or(l, r) => Or3(Holds(g, l, row), Holds(g, r, row))
    case Not(d) => Not3(Holds(g, d, row))
  }

  function FactorHolds(g: Engine, f: Factor, row: Row, rownum: nat): Truth
    decreases f, 0
  {
    match f
    case Leaf(id) => g.truth(id, row)
    case Group(negated, text) =>
      var v := TextHolds(g, text, row, rownum);
      if negated then Not3(v) else v
    case RownumLe(n) => if rownum <= n then True else False
  }

  function ConjHolds(g: Engine, fs: seq<Factor>, row: Row, rownum: nat): Truth
    decreases fs, 1
  {
    if fs == [] then True
      else And3(ConjHolds(g, fs[..|fs| - 1], row, rownum), FactorHolds(g, fs[|fs| - 1], row, rownum))
  }

  function TextHolds(g: Engine, t: Text, row: Row, rownum: nat): Truth
    decreases t, 2
  {
    if t == [] then False
      else Or3(TextHolds(g, t[..|t| - 1], row, rownum), ConjHolds(g, t[|t| - 1].factors, row, rownum))
  }

  /** `_emit_condition`: AND puts parentheses round an OR operand; the condition itself gets none. */
  function Emit(c: Cond): (t: Text)
    ensures |t| > 0
    ensures !c.Or? ==> |t| == 1
  {
    match c
    case Atom(id) => [Conj([Leaf(id)])]
    case And(l, r) => [Conj((if l.Or? then [Group(false, Emit(l))] else Emit(l)[0].factors) +
                            (if r.Or? then [Group(false, Emit(r))] else Emit(r)[0].factors))]
    case Or(l, r) => Emit(l) + Emit(r)
    case Not(d) => [Conj([Group(true, Emit(d))])]
  }

  /** `f"{w} AND ROWNUM <= {n}"`: the new operand joins the last AND list of the text. */
  function AppendRownum(t: Text, n: nat): Text
    requires |t| > 0
  {
    t[..|t| - 1] + [Conj(t[|t| - 1].factors + [RownumLe(n)])]
  }

  lemma {:induction false} ConjConcat(g: Engine, a: seq<Factor>, b: seq<Factor>, row: Row, k: nat)
    ensures ConjHolds(g, a + b, row, k) == And3(ConjHolds(g, a, row, k), ConjHolds(g, b, row, k))
  {
    if b == [] {
      assert a + b == a;
    } else {
      assert (a + b)[..|a + b| - 1] == a + b[..|b| - 1];
      ConjConcat(g, a, b[..|b| - 1], row, k);
    }
    hide FactorHolds;
  }

  lemma {:induction false} TextConcat(g: Engine, a: Text, b: Text, row: Row, k: nat)
    ensures TextHolds(g, a + b, row, k) == Or3(TextHolds(g, a, row, k), TextHolds(g, b, row, k))
  {
    if b == [] {
      assert a + b == a;
    } else {
      assert (a + b)[..|a + b| - 1] == a + b[..|b| - 1];
      TextConcat(g, a, b[..|b| - 1], row, k);
    }
    hide ConjHolds;
  }

  lemma SingleConj(g: Engine, fs: seq<Factor>, row: Row, k: nat)
    ensures TextHolds(g, [Conj(fs)], row, k) == ConjHolds(g, fs, row, k)
  {
    assert [Conj(fs)][..0] == [];
    hide ConjHolds;
  }

  lemma SingleFactor(g: Engine, f: Factor, row: Row, k: nat)
    ensures ConjHolds(g, [f], row, k) == FactorHolds(g, f, row, k)
  {
    assert [f][..0] == [];
    hide FactorHolds;
  }

  /** The emitted text means the condition. */
  lemma {:induction false} EmitMeans(g: Engine, c: Cond, row: Row, k: nat)
    ensures TextHolds(g, Emit(c), row, k) == Holds(g, c, row)
    decreases c, 0
  {
    hide ConjHolds, TextHolds;
    match c
    case Atom(id) =>
      SingleConj(g, [Leaf(id)], row, k);
      SingleFactor(g, Leaf(id), row, k);
    case And(l, r) =>
      OperandMeans(g, l, row, k);
      OperandMeans(g, r, row, k);
      var a := if l.Or? then [Group(false, Emit(l))] else Emit(l)[0].factors;
      var b := if r.Or? then [Group(false, Emit(r))] else Emit(r)[0].factors;
      ConjConcat(g, a, b, row, k);
      SingleConj(g, a + b, row, k);
      assert Emit(c) == [Conj(a + b)];
    case Or(l, r) =>
      EmitMeans(g, l, row, k);
      EmitMeans(g, r, row, k);
      TextConcat(g, Emit(l), Emit(r), row, k);
      assert Emit(c) == Emit(l) + Emit(r);
    case Not(d) =>
      EmitMeans(g, d, row, k);
      SingleConj(g, [Group(true, Emit(d))], row, k);
      SingleFactor(g, Group(true, Emit(d)), row, k);
      assert Emit(c) == [Conj([Group(true, Emit(d))])];
  }

  lemma {:induction false} OperandMeans(g: Engine, c: Cond, row: Row, k: nat)
    ensures ConjHolds(g, if c.Or? then [Group(false, Emit(c))] else Emit(c)[0].factors, row, k) == Holds(g, c, row)
    decreases c, 1
  {
    hide ConjHolds, TextHolds, Emit, Holds;
    EmitMeans(g, c, row, k);
    if c.Or? {
      SingleFactor(g, Group(false, Emit(c)), row, k);
    } else {
      assert Emit(c) == [Conj(Emit(c)[0].factors)];
      SingleConj(g, Emit(c)[0].factors, row, k);
    }
  }

  // ----- statements -----

  datatype Dialect = Mysql | Tsql | Oracle | Postgresql

  datatype Query =
    | Select(where: Option<Text>, ordered: bool, limit: Option<nat>)
    | RownumOver(inner: Query, n: nat)

  datatype Stmt =
    | Capped(where: Option<Text>, ordered: bool, n: nat)   // MySQL ORDER BY ... LIMIT n; T-SQL DELETE TOP (n)
    | ThroughCte(q: Query)                                 // WITH cte AS (q) DELETE FROM cte / UPDATE cte
    | RowIdIn(q: Query)                                    // WHERE rowid / ctid IN (q)
    | Direct(where: Option<Text>)                          // WHERE text, with ROWNUM in it

  function WhereText(w: Option<Cond>): Option<Text> {
    match w case None => None case Some(c) => Some(Emit(c))
  }

  /** `_DELETE_CAP`. */
  function EmitDelete(d: Dialect, w: Option<Cond>, n: nat, ordered: bool): Stmt {
    var text := WhereText(w);
    match d
    case Tsql => if ordered then ThroughCte(Select(text, true, Some(n))) else Capped(text, false, n)
    case Mysql => Capped(text, ordered, n)
    case Oracle =>
      if ordered then RowIdIn(RownumOver(Select(text, true, None), n))
      else Direct(Some(match w case None => [Conj([RownumLe(n)])] case Some(c) => AppendRownum(Emit(c), n)))
    case Postgresql => RowIdIn(Select(text, ordered, Some(n)))
  }

  /** `_UPDATE_CAP`: as for DELETE, but T-SQL goes through a CTE in either case. */
  function EmitUpdate(d: Dialect, w: Option<Cond>, n: nat, ordered: bool): Stmt {
    if d.Tsql? then ThroughCte(Select(WhereText(w), ordered, Some(n))) else EmitDelete(d, w, n, ordered)
  }

  // ----- what a statement does; `scan` is the order in which the engine reads the rows -----

  /** A WHERE with ROWNUM: the counter advances only on rows that are accepted. */
  function Accepted(g: Engine, where: Option<Text>, rows: seq<Row>, count: nat): seq<Row> {
    if rows == [] then []
    else if where.None? || TextHolds(g, where.value, rows[0], count + 1) == True
    then [rows[0]] + Accepted(g, where, rows[1..], count + 1)
    else Accepted(g, where, rows[1..], count)
  }

  function Insert(g: Engine, x: Row, s: seq<Row>): seq<Row> {
    if s == [] then [x] else if g.less(x, s[0]) then [x] + s else [s[0]] + Insert(g, x, s[1..])
  }

  function Sort(g: Engine, s: seq<Row>): seq<Row> {
    if s == [] then [] else Insert(g, s[0], Sort(g, s[1..]))
  }

  function Take(s: seq<Row>, n: nat): seq<Row> {
    if n < |s| then s[..n] else s
  }

  function Rows(g: Engine, q: Query, scan: seq<Row>): seq<Row> {
    match q
    case Select(where, ordered, limit) =>
      var hits := Accepted(g, where, scan, 0);
      var sorted := if ordered then Sort(g, hits) else hits;
      (match limit case None => sorted case Some(n) => Take(sorted, n))
    case RownumOver(inner, n) => Accepted(g, Some([Conj([RownumLe(n)])]), Rows(g, inner, scan), 0)
  }

  /** The rows a statement deletes or updates. */
  function Hits(g: Engine, s: Stmt, scan: seq<Row>): seq<Row> {
    match s
    case Capped(where, ordered, n) => Rows(g, Select(where, ordered, Some(n)), scan)
    case ThroughCte(q) => Rows(g, q, scan)
    case RowIdIn(q) => WithRids(scan, Rids(Rows(g, q, scan)))
    case Direct(where) => Accepted(g, where, scan, 0)
  }

  function Rids(rows: seq<Row>): set<nat> {
    set r | r in rows :: r.rid
  }

  function WithRids(rows: seq<Row>, rids: set<nat>): seq<Row> {
    if rows == [] then []
    else (if rows[0].rid in rids then [rows[0]] else []) + WithRids(rows[1..], rids)
  }

  function Delete(table: seq<Row>, rids: set<nat>): seq<Row> {
    if table == [] then []
    else (if table[0].rid in rids then [] else [table[0]]) + Delete(table[1..], rids)
  }

  function Update(table: seq<Row>, rids: set<nat>, assign: Row -> Row): seq<Row> {
    if table == [] then []
    else [if table[0].rid in rids then assign(table[0]) else table[0]] + Update(table[1..], rids, assign)
  }

  // ----- the reference -----

  ghost predicate Distinct(s: seq<Row>) {
    forall i, j :: 0 <= i < j < |s| ==> s[i].rid != s[j].rid
  }

  predicate Matches(g: Engine, w: Option<Cond>, row: Row) {
    w.None? || Holds(g, w.value, row) == True
  }

  function Matching(g: Engine, w: Option<Cond>, rows: seq<Row>): set<Row> {
    set r | r in rows && Matches(g, w, r)
  }

  /** The matching rows that come before `row`. */
  function Before(g: Engine, w: Option<Cond>, rows: seq<Row>, row: Row): set<Row> {
    set r | r in rows && Matches(g, w, r) && g.less(r, row)
  }

  /** One of the first `n` matching rows by the order. */
  predicate Chosen(g: Engine, w: Option<Cond>, n: nat, table: seq<Row>, row: Row) {
    row in table && Matches(g, w, row) && |Before(g, w, table, row)| < n
  }

  ghost predicate StrictOrder(g: Engine, rows: seq<Row>) {
    && (forall x :: x in rows ==> !g.less(x, x))
    && (forall x, y :: x in rows && y in rows && x != y ==> g.less(x, y) || g.less(y, x))
    && (forall x, y, z :: x in rows && y in rows && z in rows && g.less(x, y) && g.less(y, z) ==> g.less(x, z))
  }

  // ----- filtering -----

  function Filter(g: Engine, w: Option<Cond>, rows: seq<Row>): seq<Row> {
    if rows == [] then []
    else (if Matches(g, w, rows[0]) then [rows[0]] else []) + Filter(g, w, rows[1..])
  }

  lemma {:induction false} AcceptedIsFilter(g: Engine, w: Option<Cond>, rows: seq<Row>, count: nat)
    ensures Accepted(g, WhereText(w), rows, count) == Filter(g, w, rows)
  {
    if rows != [] {
      if w.Some? {
        EmitMeans(g, w.value, rows[0], count + 1);
      }
      AcceptedIsFilter(g, w, rows[1..], count);
      AcceptedIsFilter(g, w, rows[1..], count + 1);
    }
    hide TextHolds, Emit, Holds;
  }

  lemma {:induction false} FilterElements(g: Engine, w: Option<Cond>, rows: seq<Row>)
    ensures forall r :: r in Filter(g, w, rows) <==> r in rows && Matches(g, w, r)
    ensures Distinct(rows) ==> Distinct(Filter(g, w, rows))
  {
    hide Matches;
    if rows != [] {
      FilterElements(g, w, rows[1..]);
      var f := Filter(g, w, rows[1..]);
      assert forall r :: r in rows <==> r == rows[0] || r in rows[1..];
      if Distinct(rows) {
        assert forall r :: r in f ==> r.rid != rows[0].rid;
      }
    }
  }

  /** `WHERE ROWNUM <= n` keeps the first rows. */
  lemma {:induction false} RownumTakes(g: Engine, rows: seq<Row>, n: nat, count: nat)
    ensures Accepted(g, Some([Conj([RownumLe(n)])]), rows, count) == Take(rows, if count < n then n - count else 0)
  {
    if rows != [] {
      SingleConj(g, [RownumLe(n)], rows[0], count + 1);
      SingleFactor(g, RownumLe(n), rows[0], count + 1);
      RownumTakes(g, rows[1..], n, count);
      RownumTakes(g, rows[1..], n, count + 1);
      hide TextHolds, ConjHolds;
      if count < n && n - count < |rows| {
        assert rows[..n - count] == [rows[0]] + rows[1..][..n - count - 1];
      } else if count < n {
        assert rows == [rows[0]] + rows[1..];
      }
    }
  }

  lemma {:induction false} WithRidsElements(rows: seq<Row>, rids: set<nat>)
    ensures forall r :: r in WithRids(rows, rids) <==> r in rows && r.rid in rids
    ensures Distinct(rows) ==> Distinct(WithRids(rows, rids))
  {
    if rows != [] {
      WithRidsElements(rows[1..], rids);
      var f := WithRids(rows[1..], rids);
      assert forall r :: r in rows <==> r == rows[0] || r in rows[1..];
      if Distinct(rows) {
        assert forall r :: r in f ==> r.rid != rows[0].rid;
      }
    }
  }

  /** Going through row ids hits the rows of the subquery. */
  lemma ThroughRids(scan: seq<Row>, rows: seq<Row>)
    requires Distinct(scan) && forall r :: r in rows ==> r in scan
    ensures forall r :: r in WithRids(scan, Rids(rows)) <==> r in rows
    ensures Distinct(WithRids(scan, Rids(rows)))
  {
    WithRidsElements(scan, Rids(rows));
    hide WithRids;
  }

  // ----- sorting -----

  ghost predicate Sorted(g: Engine, s: seq<Row>) {
    forall i, j :: 0 <= i < j < |s| ==> g.less(s[i], s[j])
  }

  lemma {:induction false} InsertSorts(g: Engine, x: Row, s: seq<Row>, all: seq<Row>)
    requires Sorted(g, s) && StrictOrder(g, all) && x !in s
    requires x in all && forall r :: r in s ==> r in all
    ensures Sorted(g, Insert(g, x, s))
    ensures forall r :: r in Insert(g, x, s) <==> r == x || r in s
    ensures |Insert(g, x, s)| == |s| + 1
  {
    if s == [] {
    } else if g.less(x, s[0]) {
      FirstBelow(g, x, s, all);
    } else {
      InsertSorts(g, x, s[1..], all);
      var t := Insert(g, x, s[1..]);
      forall r | r in t ensures g.less(s[0], r) {
        if r != x {
          var i :| 0 <= i < |s[1..]| && s[1..][i] == r;
          assert g.less(s[0], s[i + 1]);
        }
      }
      hide StrictOrder;
      assert forall r :: r in s <==> r == s[0] || r in s[1..];
    }
  }

  lemma FirstBelow(g: Engine, x: Row, s: seq<Row>, all: seq<Row>)
    requires Sorted(g, s) && StrictOrder(g, all) && s != [] && g.less(x, s[0])
    requires x in all && forall r :: r in s ==> r in all
    ensures Sorted(g, [x] + s)
  {
    forall i | 0 <= i < |s| ensures g.less(x, s[i]) {
      if i > 0 {
        assert g.less(s[0], s[i]) && s[0] in all && s[i] in all;
      }
    }
    hide StrictOrder;
  }

  lemma SubOrder(g: Engine, a: seq<Row>, b: seq<Row>)
    requires StrictOrder(g, a) && forall r :: r in b ==> r in a
    ensures StrictOrder(g, b)
  {
  }

  lemma {:induction false} SortSorts(g: Engine, s: seq<Row>)
    requires StrictOrder(g, s) && Distinct(s)
    ensures Sorted(g, Sort(g, s)) && |Sort(g, s)| == |s|
    ensures forall r :: r in Sort(g, s) <==> r in s
  {
    if s != [] {
      SubOrder(g, s, s[1..]);
      SortSorts(g, s[1..]);
      var t := Sort(g, s[1..]);
      assert s[0] !in s[1..];
      InsertSorts(g, s[0], t, s);
      assert forall r :: r in s <==> r == s[0] || r in s[1..];
      hide Insert, StrictOrder, Sort;
    }
  }

  function SetOf(s: seq<Row>): set<Row> {
    set r | r in s
  }

  lemma {:induction false} PrefixSet(s: seq<Row>, i: nat)
    requires i <= |s| && forall j, k :: 0 <= j < k < |s| ==> s[j] != s[k]
    ensures |SetOf(s[..i])| == i
  {
    if i > 0 {
      PrefixSet(s, i - 1);
      assert s[..i] == s[..i - 1] + [s[i - 1]];
      assert SetOf(s[..i]) == SetOf(s[..i - 1]) + {s[i - 1]};
    } else {
      assert SetOf(s[..0]) == {};
    }
  }

  /** In a sorted sequence the position of a row is the number of rows before it. */
  lemma SortedRank(g: Engine, s: seq<Row>, i: nat)
    requires Sorted(g, s) && StrictOrder(g, s) && i < |s|
    ensures |set r | r in s && g.less(r, s[i])| == i
  {
    assert forall j, k :: 0 <= j < k < |s| ==> s[j] != s[k];
    PrefixSet(s, i);
    forall r ensures r in s && g.less(r, s[i]) <==> r in s[..i] {
      if r in s && g.less(r, s[i]) {
        var j :| 0 <= j < |s| && s[j] == r;
        assert j < i;
      }
    }
    assert (set r | r in s && g.less(r, s[i])) == SetOf(s[..i]);
  }

  // ----- ordered caps -----

  /** The sorted matching rows, cut at `n`, are the chosen ones. */
  lemma SelectChooses(g: Engine, w: Option<Cond>, n: nat, table: seq<Row>, scan: seq<Row>)
    requires Distinct(scan) && (forall r :: r in scan <==> r in table)
    requires StrictOrder(g, table)
    ensures forall r :: r in Take(Sort(g, Filter(g, w, scan)), n) <==> Chosen(g, w, n, table, r)
  {
    hide Filter, Sort, Matches, StrictOrder, Sorted;
    var f := Filter(g, w, scan);
    FilterElements(g, w, scan);
    SubOrder(g, table, f);
    SortSorts(g, f);
    var s := Sort(g, f);
    SubOrder(g, f, s);
    forall r ensures r in Take(s, n) <==> Chosen(g, w, n, table, r) {
      if r in s {
        var i :| 0 <= i < |s| && s[i] == r;
        SortedRank(g, s, i);
        assert Before(g, w, table, r) == (set x | x in s && g.less(x, s[i]));
        TakeIndex(g, s, n, i);
      }
    }
  }

  lemma TakeIndex(g: Engine, s: seq<Row>, n: nat, i: nat)
    requires i < |s| && Sorted(g, s) && StrictOrder(g, s)
    ensures s[i] in Take(s, n) <==> i < n
  {
    assert forall j :: 0 <= j < |s| && j != i ==> s[j] != s[i];
    if i < n && n < |s| {
      assert s[..n][i] == s[i];
    }
  }

  /** What the ordered plans come to: the sorted matching rows cut at `n`, for some targets through
      their row ids. */
  lemma OrderedPlan(g: Engine, d: Dialect, w: Option<Cond>, n: nat, scan: seq<Row>)
    ensures var rows := Take(Sort(g, Filter(g, w, scan)), n);
      var hits := if d.Mysql? || d.Tsql? then rows else WithRids(scan, Rids(rows));
      Hits(g, EmitDelete(d, w, n, true), scan) == hits && Hits(g, EmitUpdate(d, w, n, true), scan) == hits
  {
    AcceptedIsFilter(g, w, scan, 0);
    var rows := Sort(g, Filter(g, w, scan));
    RownumTakes(g, rows, n, 0);
    assert Rows(g, Select(WhereText(w), true, Some(n)), scan) == Take(rows, n);
    assert Rows(g, Select(WhereText(w), true, None), scan) == rows;
    assert Rows(g, RownumOver(Select(WhereText(w), true, None), n), scan) == Take(rows, n);
    hide Rows, Take, Sort, Filter, WithRids, Accepted, Rids;
  }

  /** Every target's ordered DELETE or UPDATE hits exactly the first `n` matching rows by the order,
      however the engine scans the table. */
  lemma OrderedHits(g: Engine, d: Dialect, w: Option<Cond>, n: nat, table: seq<Row>, scan: seq<Row>)
    requires Distinct(scan) && (forall r :: r in scan <==> r in table)
    requires StrictOrder(g, table)
    ensures forall r :: r in Hits(g, EmitDelete(d, w, n, true), scan) <==> Chosen(g, w, n, table, r)
    ensures forall r :: r in Hits(g, EmitUpdate(d, w, n, true), scan) <==> Chosen(g, w, n, table, r)
  {
    OrderedPlan(g, d, w, n, scan);
    SelectChooses(g, w, n, table, scan);
    ThroughRids(scan, Take(Sort(g, Filter(g, w, scan)), n));
    hide Hits, EmitDelete, EmitUpdate, Chosen, Take, Sort, Filter, WithRids, StrictOrder, Distinct, Rids;
  }

  lemma {:induction false} SameRidsDelete(table: seq<Row>, a: set<nat>, b: set<nat>)
    requires forall r :: r in table ==> (r.rid in a <==> r.rid in b)
    ensures Delete(table, a) == Delete(table, b)
  {
    if table != [] {
      SameRidsDelete(table[1..], a, b);
    }
  }

  lemma {:induction false} SameRidsUpdate(table: seq<Row>, a: set<nat>, b: set<nat>, assign: Row -> Row)
    requires forall r :: r in table ==> (r.rid in a <==> r.rid in b)
    ensures Update(table, a, assign) == Update(table, b, assign)
  {
    if table != [] {
      SameRidsUpdate(table[1..], a, b, assign);
    }
  }

  /** Two targets leave identical tables, each scanning in its own order. */
  lemma OrderedTargetsAgree(g: Engine, d: Dialect, e: Dialect, w: Option<Cond>, n: nat, table: seq<Row>,
                            scanD: seq<Row>, scanE: seq<Row>, assign: Row -> Row)
    requires Distinct(table) && StrictOrder(g, table)
    requires Distinct(scanD) && (forall r :: r in scanD <==> r in table)
    requires Distinct(scanE) && (forall r :: r in scanE <==> r in table)
    ensures Delete(table, Rids(Hits(g, EmitDelete(d, w, n, true), scanD)))
         == Delete(table, Rids(Hits(g, EmitDelete(e, w, n, true), scanE)))
    ensures Update(table, Rids(Hits(g, EmitUpdate(d, w, n, true), scanD)), assign)
         == Update(table, Rids(Hits(g, EmitUpdate(e, w, n, true), scanE)), assign)
  {
    OrderedHits(g, d, w, n, table, scanD);
    OrderedHits(g, e, w, n, table, scanE);
    hide Hits, EmitDelete, EmitUpdate, Chosen, StrictOrder;
    SameRidsDelete(table, Rids(Hits(g, EmitDelete(d, w, n, true), scanD)),
      Rids(Hits(g, EmitDelete(e, w, n, true), scanE)));
    SameRidsUpdate(table, Rids(Hits(g, EmitUpdate(d, w, n, true), scanD)),
      Rids(Hits(g, EmitUpdate(e, w, n, true), scanE)), assign);
  }

  // ----- how many rows are hit -----

  lemma Cardinal(s: seq<Row>)
    requires Distinct(s)
    ensures |SetOf(s)| == |s|
  {
    assert s[..|s|] == s;
    PrefixSet(s, |s|);
  }

  lemma MatchingCount(g: Engine, w: Option<Cond>, table: seq<Row>, scan: seq<Row>)
    requires Distinct(scan) && forall r :: r in scan <==> r in table
    ensures |Filter(g, w, scan)| == |Matching(g, w, table)|
  {
    FilterElements(g, w, scan);
    Cardinal(Filter(g, w, scan));
    hide Matches, Filter, Distinct;
    assert SetOf(Filter(g, w, scan)) == Matching(g, w, table);
  }

  /** `hits` is a legitimate capped choice: matching rows, none twice, as many as the cap allows. */
  ghost predicate CappedChoice(g: Engine, w: Option<Cond>, n: nat, table: seq<Row>, hits: seq<Row>) {
    && Distinct(hits)
    && (forall r :: r in hits ==> r in table && Matches(g, w, r))
    && |hits| == Min(n, |Matching(g, w, table)|)
  }

  lemma TakeIsChoice(g: Engine, w: Option<Cond>, n: nat, table: seq<Row>, scan: seq<Row>)
    requires Distinct(scan) && forall r :: r in scan <==> r in table
    ensures CappedChoice(g, w, n, table, Take(Filter(g, w, scan), n))
  {
    FilterElements(g, w, scan);
    MatchingCount(g, w, table, scan);
    hide Matches, Filter, Matching;
  }

  lemma SameRowsChoice(g: Engine, w: Option<Cond>, n: nat, table: seq<Row>, a: seq<Row>, b: seq<Row>)
    requires CappedChoice(g, w, n, table, a) && Distinct(b) && forall r :: r in b <==> r in a
    ensures CappedChoice(g, w, n, table, b)
  {
    Cardinal(a);
    Cardinal(b);
    assert SetOf(a) == SetOf(b);
    hide Matches, Matching;
  }

  // ----- unordered caps -----

  /** An operand of a top-level OR that is not the last holds of the row: `AND ROWNUM <= n` does not
      reach it. */
  predicate Escapes(g: Engine, c: Cond, row: Row) {
    c.Or? && (Holds(g, c.l, row) == True || Escapes(g, c.r, row))
  }

  function CappedHolds(g: Engine, c: Cond, row: Row, within: Truth): Truth {
    if c.Or? then Or3(Holds(g, c.l, row), CappedHolds(g, c.r, row, within)) else And3(Holds(g, c, row), within)
  }

  /** What `w AND ROWNUM <= n` says once SQL has read it. */
  lemma {:induction false} AppendMeans(g: Engine, c: Cond, n: nat, row: Row, k: nat)
    ensures TextHolds(g, AppendRownum(Emit(c), n), row, k) == CappedHolds(g, c, row, if k <= n then True else False)
  {
    var t := Emit(c);
    if c.Or? {
      AppendMeans(g, c.r, n, row, k);
      EmitMeans(g, c.l, row, k);
      assert AppendRownum(t, n) == Emit(c.l) + AppendRownum(Emit(c.r), n);
      TextConcat(g, Emit(c.l), AppendRownum(Emit(c.r), n), row, k);
    } else {
      var fs := t[0].factors;
      EmitMeans(g, c, row, k);
      assert t == [Conj(fs)] && AppendRownum(t, n) == [Conj(fs + [RownumLe(n)])];
      SingleConj(g, fs, row, k);
      SingleConj(g, fs + [RownumLe(n)], row, k);
      ConjConcat(g, fs, [RownumLe(n)], row, k);
      SingleFactor(g, RownumLe(n), row, k);
    }
    hide TextHolds, ConjHolds, Emit;
  }

  lemma {:induction false} EscapesDecides(g: Engine, c: Cond, row: Row, within: Truth)
    requires within != Unknown
    ensures CappedHolds(g, c, row, within) == True <==>
      Escapes(g, c, row) || (Holds(g, c, row) == True && within == True)
  {
    if c.Or? {
      EscapesDecides(g, c.r, row, within);
    }
  }

  lemma OracleAccepts(g: Engine, c: Cond, n: nat, row: Row, count: nat)
    requires !Escapes(g, c, row)
    ensures TextHolds(g, AppendRownum(Emit(c), n), row, count + 1) == True <==> Matches(g, Some(c), row) && count < n
  {
    AppendMeans(g, c, n, row, count + 1);
    EscapesDecides(g, c, row, if count + 1 <= n then True else False);
    hide TextHolds, CappedHolds, Emit, Holds, Escapes, AppendRownum;
  }

  lemma {:induction false} OracleTakes(g: Engine, c: Cond, n: nat, rows: seq<Row>, count: nat)
    requires forall r :: r in rows ==> !Escapes(g, c, r)
    ensures Accepted(g, Some(AppendRownum(Emit(c), n)), rows, count)
         == Take(Filter(g, Some(c), rows), if count < n then n - count else 0)
  {
    hide TextHolds, Emit, Escapes, AppendRownum, Matches, Take;
    TakeEnds(Filter(g, Some(c), rows));
    if rows != [] {
      OracleAccepts(g, c, n, rows[0], count);
      var f := Filter(g, Some(c), rows[1..]);
      TakeEnds(f);
      if Matches(g, Some(c), rows[0]) && count < n {
        OracleTakes(g, c, n, rows[1..], count + 1);
        TakeCons(rows[0], f, n - count);
      } else {
        OracleTakes(g, c, n, rows[1..], count);
        assert !Matches(g, Some(c), rows[0]) ==> Filter(g, Some(c), rows) == f;
      }
    }
  }

  lemma TakeEnds(s: seq<Row>)
    ensures Take(s, 0) == []
    ensures forall n: nat :: n >= |s| ==> Take(s, n) == s
  {
  }

  lemma TakeCons(x: Row, s: seq<Row>, n: nat)
    requires n > 0
    ensures Take([x] + s, n) == [x] + Take(s, n - 1)
  {
  }

  /** An unordered cap hits min(n, matches) matching rows, none twice, on MySQL, T-SQL and PostgreSQL
      always, and on Oracle when no row satisfies an operand of OR that the cap does not reach. */
  lemma UnorderedHits(g: Engine, d: Dialect, w: Option<Cond>, n: nat, table: seq<Row>, scan: seq<Row>)
    requires Distinct(scan) && forall r :: r in scan <==> r in table
    requires d.Oracle? && w.Some? ==> forall r :: r in scan ==> !Escapes(g, w.value, r)
    ensures CappedChoice(g, w, n, table, Hits(g, EmitDelete(d, w, n, false), scan))
    ensures CappedChoice(g, w, n, table, Hits(g, EmitUpdate(d, w, n, false), scan))
  {
    hide CappedChoice, Rows, Filter, WithRids, Rids, Accepted, AppendRownum, Take, Emit, Distinct;
    TakeIsChoice(g, w, n, table, scan);
    var rows := Take(Filter(g, w, scan), n);
    UnorderedRows(g, w, n, scan);
    if d.Postgresql? {
      ChoiceRows(g, w, n, table, rows);
      ThroughRids(scan, rows);
      SameRowsChoice(g, w, n, table, rows, WithRids(scan, Rids(rows)));
    } else if d.Oracle? {
      OracleUnordered(g, w, n, scan);
    }
  }

  lemma UnorderedRows(g: Engine, w: Option<Cond>, n: nat, scan: seq<Row>)
    ensures Rows(g, Select(WhereText(w), false, Some(n)), scan) == Take(Filter(g, w, scan), n)
  {
    hide Accepted, Filter, WhereText;
    AcceptedIsFilter(g, w, scan, 0);
  }

  lemma OracleUnordered(g: Engine, w: Option<Cond>, n: nat, scan: seq<Row>)
    requires w.Some? ==> forall r :: r in scan ==> !Escapes(g, w.value, r)
    ensures Hits(g, EmitDelete(Oracle, w, n, false), scan) == Take(Filter(g, w, scan), n)
  {
    hide Accepted, Filter, AppendRownum, Take, Emit, Escapes;
    if w.Some? {
      OracleTakes(g, w.value, n, scan, 0);
    } else {
      RownumTakes(g, scan, n, 0);
      FilterAll(g, scan);
    }
  }

  lemma {:induction false} FilterAll(g: Engine, rows: seq<Row>)
    ensures Filter(g, None, rows) == rows
  {
    if rows != [] {
      FilterAll(g, rows[1..]);
    }
  }

  /** A row that escapes is hit whatever the cap. */
  lemma {:induction false} EscapersAreHit(g: Engine, c: Cond, n: nat, rows: seq<Row>, count: nat)
    ensures forall r :: r in rows && Escapes(g, c, r) ==> r in Accepted(g, Some(AppendRownum(Emit(c), n)), rows, count)
  {
    if rows != [] {
      AppendMeans(g, c, n, rows[0], count + 1);
      EscapesDecides(g, c, rows[0], if count + 1 <= n then True else False);
      EscapersAreHit(g, c, n, rows[1..], count);
      EscapersAreHit(g, c, n, rows[1..], count + 1);
      hide TextHolds, CappedHolds, Emit, Holds, Escapes, AppendRownum;
      assert forall r :: r in rows <==> r == rows[0] || r in rows[1..];
    }
  }

  /** `n` matching rows and one more that escapes: too many for the cap. */
  ghost predicate Overfull(g: Engine, c: Cond, n: nat, rows: seq<Row>) {
    && |rows| == n + 1 && Distinct(rows) && Escapes(g, c, rows[n])
    && forall r :: r in rows ==> Matches(g, Some(c), r)
  }

  function OracleHits(g: Engine, c: Cond, n: nat, rows: seq<Row>, count: nat): seq<Row> {
    Accepted(g, Some(AppendRownum(Emit(c), n)), rows, count)
  }

  /** A row is hit when it escapes, or matches while the counter allows it. */
  lemma OracleHitsStep(g: Engine, c: Cond, n: nat, rows: seq<Row>, count: nat)
    requires rows != []
    ensures var hit := Escapes(g, c, rows[0]) || (Matches(g, Some(c), rows[0]) && count < n);
      OracleHits(g, c, n, rows, count) ==
      if hit then [rows[0]] + OracleHits(g, c, n, rows[1..], count + 1) else OracleHits(g, c, n, rows[1..], count)
  {
    hide TextHolds, CappedHolds, Emit, Holds, Escapes, AppendRownum;
    AppendMeans(g, c, n, rows[0], count + 1);
    EscapesDecides(g, c, rows[0], if count + 1 <= n then True else False);
  }

  lemma {:induction false} EscapersMatch(g: Engine, c: Cond, row: Row)
    requires Escapes(g, c, row)
    ensures Matches(g, Some(c), row)
  {
    if Holds(g, c.l, row) != True {
      EscapersMatch(g, c.r, row);
    }
  }

  lemma {:induction false} OracleHitsMatch(g: Engine, c: Cond, n: nat, rows: seq<Row>, count: nat)
    ensures forall r :: r in OracleHits(g, c, n, rows, count) ==> r in rows && Matches(g, Some(c), r)
    ensures Distinct(rows) ==> Distinct(OracleHits(g, c, n, rows, count))
    decreases rows
  {
    hide OracleHits, Escapes, Matches;
    if rows == [] {
      NoHits(g, c, n, count);
    } else {
      OracleHitsStep(g, c, n, rows, count);
      if Escapes(g, c, rows[0]) {
        EscapersMatch(g, c, rows[0]);
      }
      OracleHitsMatch(g, c, n, rows[1..], count);
      OracleHitsMatch(g, c, n, rows[1..], count + 1);
      var rest := OracleHits(g, c, n, rows[1..], count + 1);
      assert forall r :: r in rows <==> r == rows[0] || r in rows[1..];
      if Distinct(rows) {
        assert forall r :: r in rest ==> r.rid != rows[0].rid;
      }
    }
  }

  lemma NoHits(g: Engine, c: Cond, n: nat, count: nat)
    ensures OracleHits(g, c, n, [], count) == []
  {
  }

  /** The hit that exceeds the cap escapes. */
  lemma {:induction false} LateHit(g: Engine, c: Cond, n: nat, rows: seq<Row>, count: nat)
    requires count <= n && n - count < |OracleHits(g, c, n, rows, count)|
    ensures Escapes(g, c, OracleHits(g, c, n, rows, count)[n - count])
    decreases rows
  {
    hide OracleHits, Escapes, Matches;
    if rows == [] {
      NoHits(g, c, n, count);
    } else {
      OracleHitsStep(g, c, n, rows, count);
      if Escapes(g, c, rows[0]) || (Matches(g, Some(c), rows[0]) && count < n) {
        if count < n {
          LateHit(g, c, n, rows[1..], count + 1);
        }
      } else {
        LateHit(g, c, n, rows[1..], count);
      }
    }
  }

  /** Within the cap, the hits are the first matching rows. */
  lemma {:induction false} HitsWithin(g: Engine, c: Cond, n: nat, rows: seq<Row>, count: nat)
    requires count + |OracleHits(g, c, n, rows, count)| <= n
    ensures OracleHits(g, c, n, rows, count) == Take(Filter(g, Some(c), rows), n - count)
    decreases rows
  {
    hide OracleHits, Escapes, Matches, Take;
    TakeEnds(Filter(g, Some(c), rows));
    if rows == [] {
      NoHits(g, c, n, count);
    } else {
      OracleHitsStep(g, c, n, rows, count);
      var f := Filter(g, Some(c), rows[1..]);
      TakeEnds(f);
      if Escapes(g, c, rows[0]) {
        EscapersMatch(g, c, rows[0]);
      }
      if Matches(g, Some(c), rows[0]) && count < n {
        HitsWithin(g, c, n, rows[1..], count + 1);
        TakeCons(rows[0], f, n - count);
      } else {
        HitsWithin(g, c, n, rows[1..], count);
        assert !Matches(g, Some(c), rows[0]) ==> Filter(g, Some(c), rows) == f;
      }
    }
  }

  /** Matching rows are all hit up to the cap, and an escaping one behind them. */
  lemma {:induction false} AllHit(g: Engine, c: Cond, n: nat, rows: seq<Row>, count: nat)
    requires forall i :: 0 <= i < |rows| ==>
      Escapes(g, c, rows[i]) || (Matches(g, Some(c), rows[i]) && count + i < n)
    ensures OracleHits(g, c, n, rows, count) == rows
    decreases rows
  {
    hide OracleHits, Escapes, Matches;
    if rows == [] {
      NoHits(g, c, n, count);
    } else {
      OracleHitsStep(g, c, n, rows, count);
      assert forall i :: 0 <= i < |rows[1..]| ==> rows[1..][i] == rows[i + 1];
      AllHit(g, c, n, rows[1..], count + 1);
    }
  }

  lemma OracleOvershoots(g: Engine, c: Cond, n: nat, rows: seq<Row>)
    requires Overfull(g, c, n, rows)
    ensures !CappedChoice(g, Some(c), n, rows, Hits(g, EmitDelete(Oracle, Some(c), n, false), rows))
  {
    hide Escapes, Matches, AppendRownum, Emit, Matching, Accepted;
    assert forall i :: 0 <= i < |rows| ==> rows[i] in rows;
    AllHit(g, c, n, rows, 0);
    assert OracleHits(g, c, n, rows, 0) == Hits(g, EmitDelete(Oracle, Some(c), n, false), rows);
  }

  lemma TooManyHits(g: Engine, c: Cond, n: nat, table: seq<Row>)
    requires Distinct(table) && n < |OracleHits(g, c, n, table, 0)|
    ensures Overfull(g, c, n, OracleHits(g, c, n, table, 0)[..n + 1])
  {
    hide Escapes, Matches, OracleHits;
    OracleHitsMatch(g, c, n, table, 0);
    LateHit(g, c, n, table, 0);
    var hits := OracleHits(g, c, n, table, 0);
    assert forall r :: r in hits[..n + 1] ==> r in hits;
  }

  lemma OracleKeeps(g: Engine, c: Cond, n: nat, table: seq<Row>)
    requires Distinct(table) && forall rows :: !Overfull(g, c, n, rows)
    ensures CappedChoice(g, Some(c), n, table, Hits(g, EmitDelete(Oracle, Some(c), n, false), table))
  {
    hide Escapes, Matches, AppendRownum, Emit, CappedChoice, Accepted, Filter, Take;
    var hits := OracleHits(g, c, n, table, 0);
    assert hits == Hits(g, EmitDelete(Oracle, Some(c), n, false), table);
    OracleHitsMatch(g, c, n, table, 0);
    if n < |hits| {
      TooManyHits(g, c, n, table);
    } else {
      HitsWithin(g, c, n, table, 0);
      TakeIsChoice(g, Some(c), n, table, table);
    }
  }

  /** The unordered form keeps to the cap on every table, read in any order. */
  ghost predicate OracleKeepsTo(g: Engine, c: Cond, n: nat) {
    forall table: seq<Row> :: Distinct(table) ==>
      CappedChoice(g, Some(c), n, table, Hits(g, EmitDelete(Oracle, Some(c), n, false), table))
  }

  /** For each cap: Oracle's unordered form keeps to it exactly when no row that satisfies a top-level OR
      operand before the last can stand with `n` other matching rows. */
  lemma OracleCapAtIff(g: Engine, c: Cond, n: nat)
    ensures OracleKeepsTo(g, c, n) <==> forall rows: seq<Row> :: !Overfull(g, c, n, rows)
  {
    hide CappedChoice, Hits, EmitDelete, Distinct, Escapes, Matches;
    if forall rows: seq<Row> :: !Overfull(g, c, n, rows) {
      forall table: seq<Row> | Distinct(table)
        ensures CappedChoice(g, Some(c), n, table, Hits(g, EmitDelete(Oracle, Some(c), n, false), table))
      {
        OracleKeeps(g, c, n, table);
      }
    } else {
      var rows: seq<Row> :| Overfull(g, c, n, rows);
      OracleOvershoots(g, c, n, rows);
    }
  }

  lemma OneRow(g: Engine, c: Cond, row: Row)
    requires Escapes(g, c, row)
    ensures Overfull(g, c, 0, [row])
  {
    hide Escapes, Matches;
    EscapersMatch(g, c, row);
  }

  /** Oracle's unordered cap keeps to its number of rows whatever that is, on every table, exactly when no
      row can satisfy a top-level OR operand before the last. */
  lemma OracleCapIff(g: Engine, c: Cond)
    ensures (forall n: nat :: OracleKeepsTo(g, c, n)) <==> forall row: Row :: !Escapes(g, c, row)
  {
    hide CappedChoice, Hits, EmitDelete, Distinct, Escapes, Matches;
    if forall row: Row :: !Escapes(g, c, row) {
      forall n: nat ensures OracleKeepsTo(g, c, n) {
        forall rows: seq<Row> ensures !Overfull(g, c, n, rows) {
          assert n < |rows| ==> !Escapes(g, c, rows[n]);
        }
        OracleCapAtIff(g, c, n);
      }
    } else {
      var row: Row :| Escapes(g, c, row);
      OneRow(g, c, row);
      OracleCapAtIff(g, c, 0);
      assert !OracleKeepsTo(g, c, 0);
    }
  }

  // ----- row tuples, which Oracle and T-SQL are given as several tests -----

  /** `(a, b) <> (x, y)`: `a <> x OR b <> y`, without parentheses. */
  function TupleText(tests: seq<nat>): Text {
    seq(|tests|, i requires 0 <= i < |tests| => Conj([Leaf(tests[i])]))
  }

  function OrChain(tests: seq<nat>): Cond
    requires tests != []
  {
    if |tests| == 1 then Atom(tests[0]) else Or(Atom(tests[0]), OrChain(tests[1..]))
  }

  /** So it reads, and is capped, as the OR of its tests. */
  lemma {:induction false} TupleIsOr(tests: seq<nat>)
    requires tests != []
    ensures TupleText(tests) == Emit(OrChain(tests))
  {
    if |tests| > 1 {
      TupleIsOr(tests[1..]);
      assert TupleText(tests) == [Conj([Leaf(tests[0])])] + TupleText(tests[1..]);
    } else {
      assert TupleText(tests) == [Conj([Leaf(tests[0])])];
    }
  }

  /** `a AND b`, written one after the other. */
  function TextAnd(a: Text, b: Text): Text
    requires |a| > 0 && |b| > 0
  {
    a[..|a| - 1] + [Conj(a[|a| - 1].factors + b[0].factors)] + b[1..]
  }

  /** As an operand of AND it gets no parentheses either: `z AND a <> x OR b <> y` is true of every row on
      which the last test is, whatever `z` says of it. */
  lemma TupleUnderAnd(g: Engine, z: nat, tests: seq<nat>, row: Row, k: nat)
    requires |tests| > 1 && g.truth(tests[|tests| - 1], row) == True
    ensures TextHolds(g, TextAnd(Emit(Atom(z)), TupleText(tests)), row, k) == True
    ensures g.truth(z, row) == False ==> Holds(g, And(Atom(z), OrChain(tests)), row) == False
  {
    var n := |tests| - 1;
    var t := TextAnd(Emit(Atom(z)), TupleText(tests));
    var last := Conj([Leaf(tests[n])]);
    assert t[|t| - 1] == last && t == t[..|t| - 1] + [last];
    SingleFactor(g, Leaf(tests[n]), row, k);
    hide ConjHolds, OrChain, Emit;
  }

  lemma SortedChoice(g: Engine, w: Option<Cond>, n: nat, table: seq<Row>, scan: seq<Row>)
    requires Distinct(scan) && (forall r :: r in scan <==> r in table)
    requires StrictOrder(g, table)
    ensures CappedChoice(g, w, n, table, Take(Sort(g, Filter(g, w, scan)), n))
  {
    var f := Filter(g, w, scan);
    FilterElements(g, w, scan);
    SubOrder(g, table, f);
    SortSorts(g, f);
    SortDistinct(g, f);
    MatchingCount(g, w, table, scan);
    hide Filter, Sort, Matching, Matches, StrictOrder, Sorted;
  }

  lemma ChoiceRows(g: Engine, w: Option<Cond>, n: nat, table: seq<Row>, hits: seq<Row>)
    requires CappedChoice(g, w, n, table, hits)
    ensures forall r :: r in hits ==> r in table
  {
  }

  /** With an order, no row is hit twice and the count is exact as well. */
  lemma OrderedCount(g: Engine, d: Dialect, w: Option<Cond>, n: nat, table: seq<Row>, scan: seq<Row>)
    requires Distinct(scan) && (forall r :: r in scan <==> r in table)
    requires StrictOrder(g, table)
    ensures CappedChoice(g, w, n, table, Hits(g, EmitDelete(d, w, n, true), scan))
    ensures CappedChoice(g, w, n, table, Hits(g, EmitUpdate(d, w, n, true), scan))
  {
    hide *;
    OrderedPlan(g, d, w, n, scan);
    SortedChoice(g, w, n, table, scan);
    var rows := Take(Sort(g, Filter(g, w, scan)), n);
    ChoiceRows(g, w, n, table, rows);
    ThroughRids(scan, rows);
    SameRowsChoice(g, w, n, table, rows, WithRids(scan, Rids(rows)));
  }

  lemma SortDistinct(g: Engine, s: seq<Row>)
    requires StrictOrder(g, s) && Distinct(s)
    ensures Distinct(Sort(g, s))
  {
    SortSorts(g, s);
    var t := Sort(g, s);
    forall i, j | 0 <= i < j < |t| ensures t[i].rid != t[j].rid {
      assert g.less(t[i], t[j]);
      assert t[i] in s && t[j] in s;
      assert t[i] != t[j];
    }
  }
}
