/** What a query run through check, build and execution yields, and exactly when
    that is what its clauses mean. */
module QueryMeaning {
  import opened Mvcc
  import opened Executors
  import opened Queries

  // ---- What a FROM clause means ----

  function Scope(leaves: seq<TableRef>, catalog: Catalog, n: nat): Relations
    requires n <= |leaves| && forall t :: t in leaves ==> t.name in catalog
  {
    if n == 0 then map[] else Scope(leaves, catalog, n - 1)[Label(leaves[n - 1]) := catalog[leaves[n - 1].name]]
  }

  predicate Known(f: Factor, catalog: Catalog) {
    forall t :: t in Leaves(f) ==> t.name in catalog
  }

  ghost function ScopeOf(f: Factor, catalog: Catalog): Relations
    requires Known(f, catalog)
  {
    Scope(Leaves(f), catalog, |Leaves(f)|)
  }

  /** Environments handed on, and whether evaluation then ends in a fault. */
  datatype Served = Served(envs: seq<Env>, fault: bool)

  function Next(r: Served, q: Served): Served {
    if r.fault then r else Served(r.envs + q.envs, q.fault)
  }

  ghost function Judge(e: Expr, rels: Relations, env: Env): Served {
    match Holds(e, rels, env)
    case Fault => Served([], true)
    case Settled(b) => Served(if b then [env] else [], false)
  }

  /** One left environment beside the first n right ones, in order. */
  ghost function Beside(l: Env, rights: seq<Env>, on: Expr, rels: Relations, n: nat): Served
    requires n <= |rights|
  {
    if n == 0 then Served([], false) else Next(Beside(l, rights, on, rels, n - 1), Judge(on, rels, l + rights[n - 1]))
  }

  ghost function Across(lefts: seq<Env>, rights: seq<Env>, on: Expr, rels: Relations, m: nat): Served
    requires m <= |lefts|
  {
    if m == 0 then Served([], false)
        else Next(Across(lefts, rights, on, rels, m - 1), Beside(lefts[m - 1], rights, on, rels, |rights|))
  }

  ghost function TableEnvs(t: TableRef, tuples: seq<Tuple>): seq<Env> {
    seq(|tuples|, i requires 0 <= i < |tuples| => map[Label(t) := tuples[i]])
  }

  ghost function Pairs(l: Env, rights: seq<Env>, on: Expr, rels: Relations, n: nat): seq<Env>
    requires n <= |rights|
  {
    if n == 0 then [] else
      Pairs(l, rights, on, rels, n - 1) + if Holds(on, rels, l + rights[n - 1])
          == Settled(true) then [l + rights[n - 1]] else []
  }

  ghost function Joined(lefts: seq<Env>, rights: seq<Env>, on: Expr, rels: Relations, m: nat): seq<Env>
    requires m <= |lefts|
  {
    if m == 0 then [] else Joined(lefts, rights, on, rels, m - 1) + Pairs(lefts[m - 1], rights, on, rels, |rights|)
  }

  /** The combinations of tuples that satisfy every ON, left table first. */
  ghost function From(f: Factor, catalog: Catalog): seq<Env>
    requires Known(f, catalog)
  {
    match f
    case TableReference(name, _) =>
      assert f in Leaves(f);
      TableEnvs(f, catalog[name].tuples)
    case JoinClause(l, r, on) =>
      assert forall t :: t in Leaves(l) || t in Leaves(r) ==> t in Leaves(f);
      Joined(From(l, catalog), From(r, catalog), on, ScopeOf(f, catalog), |From(l, catalog)|)
  }

  /** What the executors make of it: a left side that ends without a row still
      takes one turn, with no tuple for any of its tables. */
  ghost function EnvTurns(left: Served): seq<Env> {
    if |left.envs| == 0 && !left.fault then [map[]] else left.envs
  }

  ghost function Serve(f: Factor, catalog: Catalog): Served
    requires Known(f, catalog)
  {
    match f
    case TableReference(name, _) =>
      assert f in Leaves(f);
      Served(TableEnvs(f, catalog[name].tuples), false)
    case JoinClause(l, r, on) =>
      assert forall t :: t in Leaves(l) || t in Leaves(r) ==> t in Leaves(f);
      var turns := EnvTurns(Serve(l, catalog));
      Next(Across(turns, From(r, catalog), on, ScopeOf(f, catalog), |turns|), Served([], Serve(l, catalog).fault))
  }

  // ---- Rows and environments ----

  ghost function RowOf(env: Env, leaves: seq<TableRef>, width: nat): Row {
    seq(width, i requires 0 <= i < width => if i < |leaves| && Label(leaves[i]) in env then Some(env[Label(leaves[i])])
        else None)
  }

  ghost function RowsOf(envs: seq<Env>, leaves: seq<TableRef>, width: nat, n: nat): seq<Row>
    requires n <= |envs|
  {
    if n == 0 then [] else RowsOf(envs, leaves, width, n - 1) + [RowOf(envs[n - 1], leaves, width)]
  }

  lemma {:induction false} RowsOfAt(envs: seq<Env>, leaves: seq<TableRef>, width: nat, n: nat)
    requires n <= |envs|
    ensures |RowsOf(envs, leaves, width, n)| == n
    ensures forall i :: 0 <= i < n ==> RowsOf(envs, leaves, width, n)[i] == RowOf(envs[i], leaves, width)
  {
    if n > 0 {
      RowsOfAt(envs, leaves, width, n - 1);
    }
  }

  /** Tuples for some of the tables named, and no others. */
  ghost predicate EnvFor(env: Env, leaves: seq<TableRef>) {
    forall n :: n in env ==> exists i :: 0 <= i < |leaves| && Label(leaves[i]) == n
  }

  ghost predicate EnvsFor(envs: seq<Env>, leaves: seq<TableRef>) {
    forall i :: 0 <= i < |envs| ==> EnvFor(envs[i], leaves)
  }

  lemma EnvNext(env: Env, leaves: seq<TableRef>, t: TableRef, tuple: Tuple, width: nat)
    requires EnvFor(env, leaves) && DistinctLabels(leaves + [t]) && |leaves| < width
    ensures EnvFor(env + map[Label(t) := tuple], leaves + [t])
    ensures RowOf(env + map[Label(t) := tuple], leaves + [t], width)
            == RowOf(env, leaves, width)[|leaves| := Some(tuple)]
  {
    var env', leaves' := env + map[Label(t) := tuple], leaves + [t];
    assert leaves'[|leaves|] == t && forall i :: 0 <= i < |leaves| ==> leaves'[i] == leaves[i];
    forall i | 0 <= i < |leaves| ensures Label(leaves[i]) != Label(t) {
      assert Label(leaves'[i]) != Label(leaves'[|leaves|]);
    }
    forall n | n in env' ensures exists i :: 0 <= i < |leaves'| && Label(leaves'[i]) == n {
      if n == Label(t) {
        assert Label(leaves'[|leaves|]) == n;
      } else {
        var i :| 0 <= i < |leaves| && Label(leaves[i]) == n;
        assert Label(leaves'[i]) == n;
      }
    }
  }

  lemma RowCarries(env: Env, leaves: seq<TableRef>, catalog: Catalog, rels: Relations, numbers: Numbers, width: nat)
    requires Numbered(leaves, catalog, rels, numbers) && |leaves| <= width
    ensures Carries(RowOf(env, leaves, width), numbers, env)
  {
    NumberedParts(leaves, catalog, rels, numbers);
    forall n | n in numbers ensures numbers[n] < width
        && RowOf(env, leaves, width)[numbers[n]] == if n in env then Some(env[n]) else None {
      assert Label(leaves[numbers[n]]) == n;
    }
  }

  lemma {:induction false} ScopeAt(leaves: seq<TableRef>, catalog: Catalog, n: nat)
    requires n <= |leaves| && (forall t :: t in leaves ==> t.name in catalog) && DistinctLabels(leaves)
    ensures forall i :: 0 <= i < n ==> Label(leaves[i]) in Scope(leaves, catalog, n)
                                       && Scope(leaves, catalog, n)[Label(leaves[i])] == catalog[leaves[i].name]
    ensures forall k :: k in Scope(leaves, catalog, n) ==> exists i :: 0 <= i < n && Label(leaves[i]) == k
  {
    if n > 0 {
      ScopeAt(leaves, catalog, n - 1);
    }
  }

  /** The names checked are the names in scope. */
  lemma NumberedScope(leaves: seq<TableRef>, catalog: Catalog, rels: Relations, numbers: Numbers)
    requires Numbered(leaves, catalog, rels, numbers) && (forall t :: t in leaves ==> t.name in catalog)
             && DistinctLabels(leaves)
    ensures rels == Scope(leaves, catalog, |leaves|)
  {
    NumberedParts(leaves, catalog, rels, numbers);
    ScopeAt(leaves, catalog, |leaves|);
    var scope := Scope(leaves, catalog, |leaves|);
    forall k | k in rels ensures k in scope && scope[k] == rels[k] {
      assert LeafAt(leaves[numbers[k]], numbers[k], catalog, rels, numbers);
    }
    forall k | k in scope ensures k in rels {
      var i :| 0 <= i < |leaves| && Label(leaves[i]) == k;
      assert LeafAt(leaves[i], i, catalog, rels, numbers);
    }
  }

  // ---- Rows that stand for environments ----

  datatype Side = Tuples | Tables

  ghost predicate StandBy(side: Side, rows: seq<Row>, envs: seq<Env>, leaves: seq<TableRef>, width: nat) {
    match side
    case Tables => EnvsFor(envs, leaves)
    case Tuples => rows == RowsOf(envs, leaves, width, |envs|)
  }

  ghost predicate Stand(rows: seq<Row>, envs: seq<Env>, leaves: seq<TableRef>, width: nat) {
    forall side: Side :: StandBy(side, rows, envs, leaves, width)
  }

  lemma StandParts(rows: seq<Row>, envs: seq<Env>, leaves: seq<TableRef>, width: nat)
    requires Stand(rows, envs, leaves, width)
    ensures EnvsFor(envs, leaves) && rows == RowsOf(envs, leaves, width, |envs|) && |rows| == |envs|
    ensures forall i :: 0 <= i < |envs| ==> rows[i] == RowOf(envs[i], leaves, width)
  {
    assert StandBy(Tables, rows, envs, leaves, width) && StandBy(Tuples, rows, envs, leaves, width);
    RowsOfAt(envs, leaves, width, |envs|);
  }

  lemma StandNone(leaves: seq<TableRef>, width: nat)
    ensures Stand([], [], leaves, width)
  {}

  lemma StandOne(row: Row, env: Env, leaves: seq<TableRef>, width: nat)
    requires EnvFor(env, leaves) && row == RowOf(env, leaves, width)
    ensures Stand([row], [env], leaves, width)
  {
    assert RowsOf([env], leaves, width, 1) == RowsOf([env], leaves, width, 0) + [row];
  }

  lemma {:induction false} RowsOfJoin(a: seq<Env>, b: seq<Env>, leaves: seq<TableRef>, width: nat, n: nat)
    requires n <= |b|
    ensures RowsOf(a + b, leaves, width, |a| + n) == RowsOf(a, leaves, width, |a|) + RowsOf(b, leaves, width, n)
  {
    if n > 0 {
      RowsOfJoin(a, b, leaves, width, n - 1);
      assert (a + b)[|a| + n - 1] == b[n - 1];
    } else {
      RowsOfAt(a, leaves, width, |a|);
      RowsOfAt(a + b, leaves, width, |a|);
    }
  }

  lemma EnvsJoin(a: seq<Env>, b: seq<Env>, leaves: seq<TableRef>)
    requires EnvsFor(a, leaves) && EnvsFor(b, leaves)
    ensures EnvsFor(a + b, leaves)
  {}

  lemma StandJoin(rows: seq<Row>, envs: seq<Env>, rows': seq<Row>, envs': seq<Env>, leaves: seq<TableRef>, width: nat)
    requires Stand(rows, envs, leaves, width) && Stand(rows', envs', leaves, width)
    ensures Stand(rows + rows', envs + envs', leaves, width)
  {
    StandParts(rows, envs, leaves, width);
    StandParts(rows', envs', leaves, width);
    EnvsJoin(envs, envs', leaves);
    RowsOfJoin(envs, envs', leaves, width, |envs'|);
  }

  /** A run and what it serves, fault for fault. */
  ghost predicate StandRun(r: Run, s: Served, leaves: seq<TableRef>, width: nat) {
    Stand(r.rows, s.envs, leaves, width) && r.fault == s.fault
  }

  lemma StandThen(r: Run, s: Served, r': Run, s': Served, leaves: seq<TableRef>, width: nat)
    requires StandRun(r, s, leaves, width) && StandRun(r', s', leaves, width)
    ensures StandRun(Then(r, r'), Next(s, s'), leaves, width)
  {
    StandJoin(r.rows, s.envs, r'.rows, s'.envs, leaves, width);
  }

  /** What a predicate and the meaning of a condition have to agree on. */
  ghost predicate Agrees(pred: Predicate, on: Expr, rels: Relations, leaves: seq<TableRef>, width: nat) {
    forall env: Env :: EnvFor(env, leaves) ==> pred(RowOf(env, leaves, width)) == Holds(on, rels, env)
  }

  function Compiled(b: BoolExpr): Predicate {
    (row: Row) => Passes(b, row)
  }

  lemma CompiledAgrees(e: Expr, leaves: seq<TableRef>, catalog: Catalog, rels: Relations, numbers: Numbers,
        slots: map<nat, Slot>, width: nat)
    requires Numbered(leaves, catalog, rels, numbers) && Recorded(e, rels, numbers, slots)
             && BuildBoolean(e, slots).Some? && |leaves| <= width
    ensures Agrees(Compiled(BuildBoolean(e, slots).value), e, rels, leaves, width)
  {
    forall env: Env | EnvFor(env, leaves)
      ensures Compiled(BuildBoolean(e, slots).value)(RowOf(env, leaves, width)) == Holds(e, rels, env)
    {
      RowCarries(env, leaves, catalog, rels, numbers, width);
      PredicateMeans(e, rels, numbers, slots, RowOf(env, leaves, width), env);
    }
  }

  lemma TryMeans(pred: Predicate, on: Expr, rels: Relations, row: Row, env: Env, leaves: seq<TableRef>, width: nat)
    requires Agrees(pred, on, rels, leaves, width) && EnvFor(env, leaves) && row == RowOf(env, leaves, width)
    ensures StandRun(Try(pred, row), Judge(on, rels, env), leaves, width)
  {
    StandNone(leaves, width);
    StandOne(row, env, leaves, width);
  }

  // ---- One join ----

  /** Setting slot k of a left row is adding a table to its environment. */
  ghost predicate StepAt(l: Env, row: Row, k: nat, e: Env, t: Tuple, leaves: seq<TableRef>, width: nat) {
    k < |row| && EnvFor(l + e, leaves) && RowOf(l + e, leaves, width) == row[k := Some(t)]
  }

  ghost predicate Steps(l: Env, row: Row, k: nat, rights: seq<Env>, right: seq<Tuple>, leaves: seq<TableRef>,
        width: nat)
  {
    |rights| == |right| && k < |row| && forall i :: 0 <= i < |right| ==>
        StepAt(l, row, k, rights[i], right[i], leaves, width)
  }

  lemma TableSteps(l: Env, leaves: seq<TableRef>, t: TableRef, right: seq<Tuple>, width: nat)
    requires EnvFor(l, leaves) && DistinctLabels(leaves + [t]) && |leaves| < width
    ensures Steps(l, RowOf(l, leaves, width), |leaves|, TableEnvs(t, right), right, leaves + [t], width)
  {
    forall i | 0 <= i < |right| ensures StepAt(l, RowOf(l, leaves, width), |leaves|, TableEnvs(t, right)[i], right[i],
        leaves + [t], width) {
      EnvNext(l, leaves, t, right[i], width);
    }
  }

  ghost predicate AllSteps(lefts: seq<Env>, rows: seq<Row>, k: nat, rights: seq<Env>, right: seq<Tuple>,
        leaves: seq<TableRef>, width: nat)
  {
    && |rows| == |lefts| && |rights| == |right| && Reaches(rows, k)
    && forall i :: 0 <= i < |rows| ==> Steps(lefts[i], rows[i], k, rights, right, leaves, width)
  }

  lemma {:induction false} WithLeftMeans(l: Env, row: Row, k: nat, rights: seq<Env>, right: seq<Tuple>, pred: Predicate,
        on: Expr, rels: Relations, leaves: seq<TableRef>, width: nat, n: nat)
    requires Steps(l, row, k, rights, right, leaves, width) && n <= |right| && Agrees(pred, on, rels, leaves, width)
    ensures StandRun(WithLeft(row, k, right, pred, n), Beside(l, rights, on, rels, n), leaves, width)
  {
    if n == 0 {
      StandNone(leaves, width);
    } else {
      WithLeftMeans(l, row, k, rights, right, pred, on, rels, leaves, width, n - 1);
      assert StepAt(l, row, k, rights[n - 1], right[n - 1], leaves, width);
      TryMeans(pred, on, rels, row[k := Some(right[n - 1])], l + rights[n - 1], leaves, width);
      StandThen(WithLeft(row, k, right, pred, n - 1), Beside(l, rights, on, rels, n - 1),
                Try(pred, row[k := Some(right[n - 1])]), Judge(on, rels, l + rights[n - 1]), leaves, width);
    }
  }

  /** Left rows that stand for environments give the filtered product of them. */
  lemma {:induction false} ProductMeans(lefts: seq<Env>, rows: seq<Row>, k: nat, rights: seq<Env>, right: seq<Tuple>,
        pred: Predicate, on: Expr, rels: Relations, leaves: seq<TableRef>, width: nat, m: nat)
    requires AllSteps(lefts, rows, k, rights, right, leaves, width) && m <= |lefts|
             && Agrees(pred, on, rels, leaves, width)
    ensures StandRun(Product(rows, k, right, pred, m), Across(lefts, rights, on, rels, m), leaves, width)
  {
    if m == 0 {
      StandNone(leaves, width);
    } else {
      ProductMeans(lefts, rows, k, rights, right, pred, on, rels, leaves, width, m - 1);
      assert Steps(lefts[m - 1], rows[m - 1], k, rights, right, leaves, width);
      WithLeftMeans(lefts[m - 1], rows[m - 1], k, rights, right, pred, on, rels, leaves, width, |right|);
      StandThen(Product(rows, k, right, pred, m - 1), Across(lefts, rights, on, rels, m - 1),
                WithLeft(rows[m - 1], k, right, pred, |right|), Beside(lefts[m - 1], rights, on, rels, |right|), leaves,
                    width);
    }
  }

  // ---- Plans ----

  function Count(p: Plan): nat {
    match p
    case ScanPlan(_, _) => 1
    case JoinPlan(l, r, _) => Count(l) + Count(r)
  }

  /** Left-deep, with the tables numbered in order. */
  predicate Chain(p: Plan, width: nat) {
    match p
    case ScanPlan(_, index) => index == 0 && 0 < width
    case JoinPlan(l, r, _) => Chain(l, width) && r.ScanPlan? && r.index == Count(l) && Count(l) < width
  }

  /** The run of a plan's executor. */
  ghost function PlanRun(p: Plan, width: nat): (r: Run)
    requires Chain(p, width)
    ensures 0 < Count(p) <= width && Tailed(r.rows, width, Count(p) - 1)
  {
    match p
    case ScanPlan(table, _) => ScanTailed(table, width); Run(ScanRows(table, width), false)
    case JoinPlan(l, r, on) =>
      JoinTailed(PlanRun(l, width), width, Count(l), r.table, Compiled(on));
      JoinRun(PlanRun(l, width), width, Count(l), r.table, Compiled(on))
  }

  predicate LeftDeep(f: Factor) {
    f.JoinClause? ==> LeftDeep(f.left) && f.right.TableReference?
  }

  lemma {:induction false} PlanChain(p: Plan, f: Factor, catalog: Catalog, slots: map<nat, Slot>, width: nat)
    requires PlanFor(p, f, 0, catalog, slots) && LeftDeep(f) && |Leaves(f)| <= width
    ensures Chain(p, width) && Count(p) == |Leaves(f)|
  {
    if f.JoinClause? {
      PlanChain(p.left, f.left, catalog, slots, width);
    }
  }

  lemma ScanMeans(t: TableRef, tuples: seq<Tuple>, width: nat)
    requires 0 < width
    ensures Stand(ScanRows(tuples, width), TableEnvs(t, tuples), [t], width)
  {
    var envs := TableEnvs(t, tuples);
    RowsOfAt(envs, [t], width, |envs|);
    forall i | 0 <= i < |tuples| ensures ScanRows(tuples, width)[i] == RowOf(envs[i], [t], width) {
      assert ScanRows(tuples, width)[i] == EmptyRow(width)[0 := Some(tuples[i])];
    }
    forall i | 0 <= i < |envs| ensures EnvFor(envs[i], [t]) {
      assert Label([t][0]) in envs[i];
    }
  }

  lemma TurnsMean(r: Run, s: Served, leaves: seq<TableRef>, width: nat)
    requires StandRun(r, s, leaves, width)
    ensures Stand(Turns(r, width), EnvTurns(s), leaves, width)
  {
    StandParts(r.rows, s.envs, leaves, width);
    var none: Env := map[];
    assert EmptyRow(width) == RowOf(none, leaves, width);
    StandOne(EmptyRow(width), none, leaves, width);
  }

  lemma LeftSteps(lefts: seq<Env>, rows: seq<Row>, leaves: seq<TableRef>, r: TableRef, right: seq<Tuple>, width: nat)
    requires Stand(rows, lefts, leaves, width) && DistinctLabels(leaves + [r]) && |leaves| < width
    ensures AllSteps(lefts, rows, |leaves|, TableEnvs(r, right), right, leaves + [r], width)
  {
    StandParts(rows, lefts, leaves, width);
    forall i | 0 <= i < |rows| ensures |leaves| < |rows[i]|
        && Steps(lefts[i], rows[i], |leaves|, TableEnvs(r, right), right, leaves + [r], width) {
      assert EnvFor(lefts[i], leaves);
      TableSteps(lefts[i], leaves, r, right, width);
    }
  }

  lemma OnAgrees(f: Factor, b: BoolExpr, catalog: Catalog, slots: map<nat, Slot>, width: nat)
    requires f.JoinClause? && Known(f, catalog) && BuildBoolean(f.on, slots) == Some(b)
             && Checked(f, [], catalog, slots)
    requires DistinctLabels(Leaves(f)) && |Leaves(f)| <= width
    ensures Agrees(Compiled(b), f.on, ScopeOf(f, catalog), Leaves(f), width)
  {
    var rels, numbers :| Numbered([] + Leaves(f), catalog, rels, numbers) && Recorded(f.on, rels, numbers, slots);
    assert [] + Leaves(f) == Leaves(f);
    NumberedScope(Leaves(f), catalog, rels, numbers);
    CompiledAgrees(f.on, Leaves(f), catalog, rels, numbers, slots, width);
  }

  lemma JoinMeans(f: Factor, p: Plan, catalog: Catalog, slots: map<nat, Slot>, width: nat)
    requires f.JoinClause? && f.right.TableReference? && p.JoinPlan? && Chain(p, width)
             && Count(p.left) == |Leaves(f.left)|
    requires Known(f, catalog) && Known(f.left, catalog) && PlanFor(p, f, 0, catalog, slots)
             && Checked(f, [], catalog, slots)
    requires DistinctLabels(Leaves(f)) && |Leaves(f)| <= width
    requires StandRun(PlanRun(p.left, width), Serve(f.left, catalog), Leaves(f.left), width)
    ensures StandRun(PlanRun(p, width), Serve(f, catalog), Leaves(f), width)
  {
    var r, leaves, left, served, right := f.right, Leaves(f.left), PlanRun(p.left, width), Serve(f.left, catalog),
        p.right.table;
    assert r in Leaves(f) && Leaves(f) == leaves + [r];
    OnAgrees(f, p.on, catalog, slots, width);
    TurnsMean(left, served, leaves, width);
    var lefts, rows := EnvTurns(served), Turns(left, width);
    LeftSteps(lefts, rows, leaves, r, right, width);
    ProductMeans(lefts, rows, |leaves|, TableEnvs(r, right), right, Compiled(p.on), f.on, ScopeOf(f, catalog),
        Leaves(f), width, |lefts|);
    StandNone(Leaves(f), width);
    StandThen(Product(rows, |leaves|, right, Compiled(p.on), |rows|),
        Across(lefts, TableEnvs(r, right), f.on, ScopeOf(f, catalog), |lefts|),
              Run([], left.fault), Served([], served.fault), Leaves(f), width);
  }

  /** For a left-deep FROM clause the plan's run serves the clause, row for row and
      fault for fault. */
  lemma {:induction false} PlanMeans(p: Plan, f: Factor, catalog: Catalog, slots: map<nat, Slot>, width: nat)
    requires Known(f, catalog) && PlanFor(p, f, 0, catalog, slots) && Checked(f, [], catalog, slots)
    requires LeftDeep(f) && DistinctLabels(Leaves(f)) && |Leaves(f)| <= width && Chain(p, width)
    ensures StandRun(PlanRun(p, width), Serve(f, catalog), Leaves(f), width)
  {
    match f
    case TableReference(name, _) =>
      ScanMeans(f, catalog[name].tuples, width);
    case JoinClause(l, r, on) =>
      assert forall t :: t in Leaves(l) || t in Leaves(r) ==> t in Leaves(f);
      LabelsFront(Leaves(l), Leaves(r));
      PlanChain(p.left, l, catalog, slots, width);
      PlanMeans(p.left, l, catalog, slots, width);
      JoinMeans(f, p, catalog, slots, width);
  }
}
