/** The whole path of a query: check, build, execute. */
module QueryRuns {
  import opened Mvcc
  import opened Executors
  import opened Queries
  import opened QueryMeaning
  import opened QueryAnswers

  /** Every ON is well typed. */
  ghost predicate WellTyped(f: Factor, before: seq<TableRef>, catalog: Catalog) {
    match f
    case TableReference(_, _) => true
    case JoinClause(l, r, on) =>
      && WellTyped(l, before, catalog) && WellTyped(r, before + Leaves(l), catalog)
      && exists rels, numbers :: Numbered(before + Leaves(f), catalog, rels, numbers) && Typed(on, rels)
  }

  lemma {:induction false} BuildableIffTyped(f: Factor, before: seq<TableRef>, catalog: Catalog, slots: map<nat, Slot>)
    requires Checked(f, before, catalog, slots)
    ensures Buildable(f, slots) <==> WellTyped(f, before, catalog)
  {
    match f
    case TableReference(_, _) =>
    case JoinClause(l, r, on) =>
      BuildableIffTyped(l, before, catalog, slots);
      BuildableIffTyped(r, before + Leaves(l), catalog, slots);
      var rels, numbers :| Numbered(before + Leaves(f), catalog, rels, numbers) && Recorded(on, rels, numbers, slots);
      BuildsIffTyped(on, rels, numbers, slots);
      if WellTyped(f, before, catalog) {
        var rels', numbers' :| Numbered(before + Leaves(f), catalog, rels', numbers') && Typed(on, rels');
        OneNumbering(before + Leaves(f), catalog, rels, numbers, rels', numbers');
      }
  }

  /** The executors of a plan. */
  method Start(p: Plan, width: nat) returns (e: Exec)
    requires Chain(p, width)
    ensures e.Fresh() && fresh(e.Repr) && e.width == width && e.scan.index == Count(p) - 1
            && (e.left == null <==> p.ScanPlan?)
    ensures e.run == PlanRun(p, width)
    decreases p
  {
    if p.ScanPlan? {
      e := new Exec.Scan(p.table, width);
    } else {
      var left := Start(p.left, width);
      e := new Exec.Join(left, p.right.table, Compiled(p.on));
    }
  }

  lemma NumberedKnown(f: Factor, catalog: Catalog, rels: Relations, numbers: Numbers)
    requires Numbered(Leaves(f), catalog, rels, numbers)
    ensures Known(f, catalog) && |rels| == |Leaves(f)| && forall t :: t in Leaves(f) ==> Label(t) in rels
  {
    NumberedParts(Leaves(f), catalog, rels, numbers);
    forall t | t in Leaves(f) ensures t.name in catalog && Label(t) in rels {
      var i :| 0 <= i < |Leaves(f)| && Leaves(f)[i] == t;
      assert LeafAt(Leaves(f)[i], i, catalog, rels, numbers);
    }
    assert |rels.Keys| == |numbers.Keys|;
  }

  // ---- Check ----

  /** What Check leaves behind for a FROM clause and a WHERE. */
  ghost predicate Ready(f: Factor, where: Option<Expr>, catalog: Catalog, rels: Relations, numbers: Numbers,
        slots: map<nat, Slot>)
  {
    && Numbered(Leaves(f), catalog, rels, numbers) && Checked(f, [], catalog, slots)
    && (where.Some? ==> Recorded(where.value, rels, numbers, slots))
  }

  ghost predicate Named(f: Factor, where: Option<Expr>, catalog: Catalog) {
    WellNamed(f, [], catalog) && Known(f, catalog) && (where.Some? ==> Resolves(where.value, ScopeOf(f, catalog)))
  }

  ghost predicate InTypes(f: Factor, where: Option<Expr>, catalog: Catalog)
    requires Known(f, catalog)
  {
    WellTyped(f, [], catalog) && (where.Some? ==> Typed(where.value, ScopeOf(f, catalog)))
  }

  predicate NodesApart(f: Factor, where: Option<Expr>) {
    FactorTree(f) && (where.Some? ==> IsTree(where.value) && FactorNodes(f) !! Nodes(where.value))
  }

  method Check(realizer: QueryRealizer, f: Factor, where: Option<Expr>) returns (ok: bool)
    requires NodesApart(f, where) && DistinctLabels(Leaves(f))
    requires realizer.name2relation == map[] && realizer.name2tupleIndex == map[] && realizer.name2slot == map[]
    modifies realizer`name2relation, realizer`name2tupleIndex, realizer`name2slot
    ensures ok <==> Named(f, where, realizer.catalog)
    ensures ok ==> Ready(f, where, realizer.catalog, realizer.name2relation, realizer.name2tupleIndex,
                   realizer.name2slot)
  {
    assert [] + Leaves(f) == Leaves(f);
    var error := realizer.CheckTableFactor(f, []);
    if error.Some? {
      return false;
    }
    NumberedKnown(f, realizer.catalog, realizer.name2relation, realizer.name2tupleIndex);
    NumberedParts(Leaves(f), realizer.catalog, realizer.name2relation, realizer.name2tupleIndex);
    NumberedScope(Leaves(f), realizer.catalog, realizer.name2relation, realizer.name2tupleIndex);
    ok := true;
    if where.Some? {
      ghost var slots := realizer.name2slot;
      error := realizer.CheckExpression(where.value);
      ok := error.None?;
      if ok {
        CheckedStays(f, [], realizer.catalog, slots, realizer.name2slot);
      }
    }
  }

  // ---- Build ----

  lemma ReadyBuilds(f: Factor, where: Option<Expr>, catalog: Catalog, rels: Relations, numbers: Numbers, slots: map<nat,
        Slot>)
    requires Ready(f, where, catalog, rels, numbers, slots) && DistinctLabels(Leaves(f))
    ensures Known(f, catalog) && |rels| == |Leaves(f)| && (forall t :: t in Leaves(f) ==> Label(t) in rels)
    ensures Buildable(f, slots) && (where.Some? ==> BuildBoolean(where.value, slots).Some?) <==>
            InTypes(f, where, catalog)
  {
    NumberedKnown(f, catalog, rels, numbers);
    NumberedScope(Leaves(f), catalog, rels, numbers);
    BuildableIffTyped(f, [], catalog, slots);
    if where.Some? {
      BuildsIffTyped(where.value, rels, numbers, slots);
    }
  }

  /** A plan, perhaps a selection, and the width of their rows. */
  datatype Query = Query(plan: Plan, cond: Option<BoolExpr>, width: nat)

  ghost predicate Compiles(q: Query, f: Factor, where: Option<Expr>, catalog: Catalog, slots: map<nat, Slot>) {
    && q.width == |Leaves(f)| && PlanFor(q.plan, f, 0, catalog, slots) && Chain(q.plan, q.width)
    && q.cond == (if where.Some? then BuildBoolean(where.value, slots) else None) && (where.Some? ==> q.cond.Some?)
  }

  method Build(realizer: QueryRealizer, f: Factor, where: Option<Expr>) returns (q: Option<Query>)
    requires Ready(f, where, realizer.catalog, realizer.name2relation, realizer.name2tupleIndex, realizer.name2slot)
    requires LeftDeep(f) && DistinctLabels(Leaves(f)) && realizer.allTupleDesc == []
    modifies realizer`allTupleDesc
    ensures Known(f, realizer.catalog) && (q.Some? <==> InTypes(f, where, realizer.catalog))
    ensures q.Some? ==> Compiles(q.value, f, where, realizer.catalog, realizer.name2slot)
  {
    ReadyBuilds(f, where, realizer.catalog, realizer.name2relation, realizer.name2tupleIndex, realizer.name2slot);
    var plan := realizer.BuildJoin(f);
    if plan.None? {
      return None;
    }
    var cond := None;
    if where.Some? {
      cond := BuildBoolean(where.value, realizer.name2slot);
      if cond.None? {
        return None;
      }
    }
    PlanChain(plan.value, f, realizer.catalog, realizer.name2slot, |realizer.name2relation|);
    q := Some(Query(plan.value, cond, |realizer.name2relation|));
  }

  // ---- Execute ----

  ghost function QueryRun(q: Query): Run
    requires Chain(q.plan, q.width)
  {
    if q.cond.Some? then SelectRun(PlanRun(q.plan, q.width), Compiled(q.cond.value)) else PlanRun(q.plan, q.width)
  }

  method Execute(q: Query) returns (run: Run)
    requires Chain(q.plan, q.width) && (q.plan.ScanPlan? ==> q.width == 1)
    ensures run == QueryRun(q)
  {
    var exec := Start(q.plan, q.width);
    if q.cond.Some? {
      var select := new Select(exec, Compiled(q.cond.value));
      run := select.Drain();
    } else {
      run := RunPlan(exec);
    }
  }

  lemma {:induction false} QueryMeans(q: Query, f: Factor, where: Option<Expr>, catalog: Catalog, rels: Relations,
        numbers: Numbers, slots: map<nat, Slot>)
    requires Ready(f, where, catalog, rels, numbers, slots) && Compiles(q, f, where, catalog, slots)
             && Known(f, catalog)
    requires LeftDeep(f) && DistinctLabels(Leaves(f))
    ensures StandRun(QueryRun(q), ServeQuery(f, where, catalog), Leaves(f), q.width)
  {
    PlanMeans(q.plan, f, catalog, slots, q.width);
    if where.Some? {
      NumberedScope(Leaves(f), catalog, rels, numbers);
      CompiledAgrees(where.value, Leaves(f), catalog, rels, numbers, slots, q.width);
      SelectMeans(PlanRun(q.plan, q.width), Serve(f, catalog), Compiled(q.cond.value), where.value, rels, Leaves(f),
          q.width);
    }
  }

  lemma ScanIsAlone(q: Query, f: Factor, catalog: Catalog, slots: map<nat, Slot>)
    requires PlanFor(q.plan, f, 0, catalog, slots) && q.width == |Leaves(f)|
    ensures q.plan.ScanPlan? ==> q.width == 1
  {}

  /** No table is read twice: two scans of one relation would share an iterator. */
  predicate DistinctTables(leaves: seq<TableRef>) {
    forall i, j :: 0 <= i < j < |leaves| ==> leaves[i].name != leaves[j].name
  }

  /** Refused with an error, stopped by an assertion while the plan was built, or run. */
  datatype Result = Refused | Stopped | Ran(run: Run)

  /** The run ended well and its rows are the answer, in order. */
  ghost predicate Answers(r: Run, f: Factor, where: Option<Expr>, catalog: Catalog)
    requires Known(f, catalog)
  {
    !r.fault && Stand(r.rows, Meant(f, where, catalog), Leaves(f), |Leaves(f)|)
  }

  lemma AnswersIffSound(r: Run, f: Factor, where: Option<Expr>, catalog: Catalog)
    requires Known(f, catalog) && StandRun(r, ServeQuery(f, where, catalog), Leaves(f), |Leaves(f)|)
    ensures Answers(r, f, where, catalog) <==> SoundQuery(f, where, catalog)
    ensures Answers(r, f, where, catalog) <==> Answerable(f, where, catalog)
  {
    QueryIff(f, where, catalog);
    QueryIffSound(f, where, catalog);
    if Answers(r, f, where, catalog) {
      OneReading(r.rows, ServeQuery(f, where, catalog).envs, Meant(f, where, catalog), Leaves(f), |Leaves(f)|);
    }
  }

  /** One FROM element, with or without a WHERE.  The query is refused if and only
      if a name does not resolve, and stops at an assertion if and only if, all names
      being right, a condition is ill typed.  Otherwise it runs, and the run ends well
      with exactly the answer if and only if it is answerable; over a clear FROM
      clause, if and only if the WHERE settles on its rows. */
  method RunQuery(catalog: Catalog, f: Factor, where: Option<Expr>) returns (result: Result)
    requires NodesApart(f, where) && LeftDeep(f) && DistinctLabels(Leaves(f)) && DistinctTables(Leaves(f))
    ensures result.Refused? <==> !Named(f, where, catalog)
    ensures result.Stopped? <==> Named(f, where, catalog) && !InTypes(f, where, catalog)
    ensures result.Ran? ==> StandRun(result.run, ServeQuery(f, where, catalog), Leaves(f), |Leaves(f)|)
    ensures result.Ran? ==> (Answers(result.run, f, where, catalog) <==> Answerable(f, where, catalog))
    ensures result.Ran? && Clear(f, catalog) ==>
              (Answers(result.run, f, where, catalog) <==>
               (where.Some? ==> SettlesOn(where.value, ScopeOf(f, catalog), From(f, catalog))))
  {
    var realizer := new QueryRealizer(catalog);
    var ok := Check(realizer, f, where);
    if !ok {
      return Refused;
    }
    var q := Build(realizer, f, where);
    if q.None? {
      return Stopped;
    }
    QueryMeans(q.value, f, where, catalog, realizer.name2relation, realizer.name2tupleIndex, realizer.name2slot);
    ScanIsAlone(q.value, f, catalog, realizer.name2slot);
    var run := Execute(q.value);
    AnswersIffSound(run, f, where, catalog);
    if Clear(f, catalog) {
      ClearQuery(f, where, catalog);
    }
    result := Ran(run);
  }

  // ---- Filled tables suffice ----

  /** Stored tuples have all the attributes of their relation. */
  ghost predicate Stored(catalog: Catalog) {
    forall n, t :: n in catalog && t in catalog[n].tuples ==> |t| == |catalog[n].attributes|
  }

  /** No join has an empty left side. */
  ghost predicate LeftsFilled(f: Factor, catalog: Catalog)
    requires Known(f, catalog)
  {
    f.JoinClause? ==> Known(f.left, catalog) && LeftsFilled(f.left, catalog) && From(f.left, catalog) != []
  }

  /** A full tuple for every table in scope. */
  ghost predicate Full(env: Env, rels: Relations) {
    forall n :: n in rels ==> n in env && |env[n]| == |rels[n].attributes|
  }

  lemma {:induction false} IndexBound(names: seq<string>, name: string, i: nat)
    requires i <= |names|
    ensures FirstIndex(names, name, i).Some? ==> FirstIndex(names, name, i).value < |names|
    decreases |names| - i
  {
    if i < |names| {
      IndexBound(names, name, i + 1);
    }
  }

  lemma ValueThere(e: Expr, rels: Relations, env: Env)
    requires Full(env, rels) && ValueType(e, rels).Some?
    ensures ValueOf(e, rels, env).Some?
  {
    if e.Column? {
      var r := Resolve(rels, e.table, e.column).ref;
      IndexBound(rels[r.table].attributes, e.column, 0);
    }
  }

  lemma {:induction false} TypedSettles(e: Expr, rels: Relations, env: Env)
    requires Full(env, rels) && Typed(e, rels)
    ensures Holds(e, rels, env).Settled?
  {
    match e
    case Operation(op, l, r) =>
      if IsCompareOperator(op) {
        ValueThere(l, rels, env);
        ValueThere(r, rels, env);
      } else {
        TypedSettles(l, rels, env);
        TypedSettles(r, rels, env);
      }
    case _ =>
  }

  lemma TableFull(f: Factor, catalog: Catalog)
    requires f.TableReference? && Known(f, catalog) && Stored(catalog)
    ensures forall env :: env in From(f, catalog) ==> Full(env, ScopeOf(f, catalog))
  {
    assert Leaves(f) == [f];
    assert Scope([f], catalog, 1) == Scope([f], catalog, 0)[Label(f) := catalog[f.name]];
  }

  lemma ScopeJoins(f: Factor, catalog: Catalog)
    requires f.JoinClause? && Known(f, catalog) && Known(f.left, catalog) && Known(f.right, catalog)
             && DistinctLabels(Leaves(f))
    ensures DistinctLabels(Leaves(f.left)) && DistinctLabels(Leaves(f.right))
    ensures var l, r := ScopeOf(f.left, catalog),
            ScopeOf(f.right, catalog); l.Keys !! r.Keys && ScopeOf(f, catalog) == l + r
  {
    var a, b := Leaves(f.left), Leaves(f.right);
    assert Leaves(f) == a + b;
    LabelsFront(a, b);
    LabelsBack(a, b);
    ScopeApart(a, b, a + b, catalog);
    ScopeUnion(a, b, catalog, |b|);
  }

  lemma LabelsBack(a: seq<TableRef>, b: seq<TableRef>)
    requires DistinctLabels(a + b)
    ensures DistinctLabels(b)
  {
    forall i, j | 0 <= i < j < |b| ensures Label(b[i]) != Label(b[j]) {
      assert (a + b)[|a| + i] == b[i] && (a + b)[|a| + j] == b[j];
    }
  }

  lemma ScopeApart(a: seq<TableRef>, b: seq<TableRef>, all: seq<TableRef>, catalog: Catalog)
    requires all == a + b && (forall t :: t in all ==> t.name in catalog) && DistinctLabels(all) && DistinctLabels(a)
             && DistinctLabels(b)
    requires (forall t :: t in a ==> t.name in catalog) && (forall t :: t in b ==> t.name in catalog)
    ensures Scope(a, catalog, |a|).Keys !! Scope(b, catalog, |b|).Keys
  {
    ScopeAt(a, catalog, |a|);
    ScopeAt(b, catalog, |b|);
    forall k | k in Scope(a, catalog, |a|) ensures k !in Scope(b, catalog, |b|) {
      var i :| 0 <= i < |a| && Label(a[i]) == k;
      assert all[i] == a[i];
      forall j | 0 <= j < |b| ensures Label(b[j]) != k {
        assert all[|a| + j] == b[j];
      }
    }
  }

  lemma {:induction false} ScopeFront(a: seq<TableRef>, b: seq<TableRef>, catalog: Catalog, n: nat)
    requires n <= |a| && (forall t :: t in a + b ==> t.name in catalog) && (forall t :: t in a ==> t.name in catalog)
    ensures Scope(a + b, catalog, n) == Scope(a, catalog, n)
  {
    if n > 0 {
      ScopeFront(a, b, catalog, n - 1);
      assert (a + b)[n - 1] == a[n - 1];
    }
  }

  lemma {:induction false} ScopeUnion(a: seq<TableRef>, b: seq<TableRef>, catalog: Catalog, n: nat)
    requires n <= |b| && (forall t :: t in a + b ==> t.name in catalog)
    requires (forall t :: t in a ==> t.name in catalog) && (forall t :: t in b ==> t.name in catalog)
    ensures Scope(a + b, catalog, |a| + n) == Scope(a, catalog, |a|) + Scope(b, catalog, n)
  {
    if n == 0 {
      ScopeFront(a, b, catalog, |a|);
    } else {
      ScopeUnion(a, b, catalog, n - 1);
      var t, m := b[n - 1], |a| + n;
      assert (a + b)[m - 1] == t;
      assert Scope(a + b, catalog, m) == Scope(a + b, catalog, m - 1)[Label(t) := catalog[t.name]];
    }
  }

  lemma {:induction false} PairsFull(l: Env, rights: seq<Env>, on: Expr, rels: Relations, ls: Relations, rs: Relations,
        n: nat)
    requires n <= |rights| && Full(l, ls) && (forall r :: r in rights ==> Full(r, rs) && r.Keys <= rs.Keys)
             && ls.Keys !! rs.Keys
    ensures forall env :: env in Pairs(l, rights, on, rels, n) ==> Full(env, ls + rs)
  {
    if n > 0 {
      PairsFull(l, rights, on, rels, ls, rs, n - 1);
    }
  }

  lemma {:induction false} JoinedFull(lefts: seq<Env>, rights: seq<Env>, on: Expr, rels: Relations, ls: Relations,
        rs: Relations, m: nat)
    requires m <= |lefts| && (forall l :: l in lefts ==> Full(l, ls))
             && (forall r :: r in rights ==> Full(r, rs) && r.Keys <= rs.Keys) && ls.Keys !! rs.Keys
    ensures forall env :: env in Joined(lefts, rights, on, rels, m) ==> Full(env, ls + rs)
  {
    if m > 0 {
      JoinedFull(lefts, rights, on, rels, ls, rs, m - 1);
      PairsFull(lefts[m - 1], rights, on, rels, ls, rs, |rights|);
    }
  }

  lemma {:induction false} FromFull(f: Factor, catalog: Catalog)
    requires Known(f, catalog) && LeftDeep(f) && DistinctLabels(Leaves(f)) && Stored(catalog)
    ensures forall env :: env in From(f, catalog) ==> Full(env, ScopeOf(f, catalog))
  {
    if f.TableReference? {
      TableFull(f, catalog);
    } else {
      Inputs(f, catalog);
      ScopeJoins(f, catalog);
      FromFull(f.left, catalog);
      TableFull(f.right, catalog);
      TableOwn(f.right, catalog);
      JoinedFull(From(f.left, catalog), From(f.right, catalog), f.on, ScopeOf(f, catalog),
                 ScopeOf(f.left, catalog), ScopeOf(f.right, catalog), |From(f.left, catalog)|);
    }
  }

  lemma TableOwn(f: Factor, catalog: Catalog)
    requires f.TableReference? && Known(f, catalog)
    ensures forall env :: env in From(f, catalog) ==> env.Keys <= ScopeOf(f, catalog).Keys
  {
    assert Leaves(f) == [f];
    assert Scope([f], catalog, 1) == Scope([f], catalog, 0)[Label(f) := catalog[f.name]];
  }

  /** With full tuples, and rows on the left of every join, a well-typed FROM clause
      is clear. */
  lemma {:induction false} FilledIsClear(f: Factor, catalog: Catalog)
    requires Known(f, catalog) && LeftDeep(f) && DistinctLabels(Leaves(f)) && Stored(catalog)
    requires WellTyped(f, [], catalog) && LeftsFilled(f, catalog)
    ensures Clear(f, catalog)
  {
    if f.JoinClause? {
      Inputs(f, catalog);
      ScopeJoins(f, catalog);
      FilledIsClear(f.left, catalog);
      FromFull(f.left, catalog);
      TableFull(f.right, catalog);
      TableOwn(f.right, catalog);
      OnTyped(f, catalog);
      var rels := ScopeOf(f, catalog);
      forall l, r | l in From(f.left, catalog)
          && r in From(f.right, catalog) ensures Holds(f.on, rels, l + r).Settled? {
        assert Full(l + r, rels);
        TypedSettles(f.on, rels, l + r);
      }
    }
  }

  lemma OnTyped(f: Factor, catalog: Catalog)
    requires f.JoinClause? && Known(f, catalog) && DistinctLabels(Leaves(f)) && WellTyped(f, [], catalog)
    ensures Typed(f.on, ScopeOf(f, catalog))
  {
    var rels, numbers :| Numbered([] + Leaves(f), catalog, rels, numbers) && Typed(f.on, rels);
    assert [] + Leaves(f) == Leaves(f);
    NumberedScope(Leaves(f), catalog, rels, numbers);
  }

  // ---- Two queries that are not sound ----

  /** b.y == 1 and a.x == b.y, with a numbered 0 and b numbered 1. */
  const ONLY_RIGHT := CompareExpr(Equal, SlotReference(Slot(1, 0, IntegerType)), ConstValue(Integer(1)))
  const BOTH_SIDES := CompareExpr(Equal, SlotReference(Slot(0, 0, IntegerType)), SlotReference(Slot(1, 0, IntegerType)))

  lemma OneRight(b: BoolExpr, t: Tuple)
    ensures Turns(Run([], false), 2) == [[None, None]] && Reaches([[None, None]], 1)
    ensures JoinRun(Run([], false), 2, 1, [t], Compiled(b)) == Try(Compiled(b), [None, Some(t)])
  {
    assert EmptyRow(2) == [None, None];
    OneTurn([None, None], 1, [t], Compiled(b));
    assert WithLeft([None, None], 1, [t], Compiled(b), 0) == Run([], false);
    assert [None, None][1 := Some(t)] == [None, Some(t)];
  }

  /** An empty left table, and a condition on the right one alone: a row comes out
      that has no left tuple. */
  lemma EmptyLeftStrayRow()
    ensures Reaches(Turns(Run([], false), 2), 1)
    ensures JoinRun(Run([], false), 2, 1, [[Integer(1)]], Compiled(ONLY_RIGHT)) == Run([[None, Some([Integer(1)])]],
            false)
  {
    OneRight(ONLY_RIGHT, [Integer(1)]);
    assert GetValue(SlotReference(Slot(1, 0, IntegerType)), [None, Some([Integer(1)])]) == Some(Integer(1));
  }

  /** An empty left table, and a condition that reads it: the run faults. */
  lemma EmptyLeftFaults()
    ensures Reaches(Turns(Run([], false), 2), 1)
    ensures JoinRun(Run([], false), 2, 1, [[Integer(1)]], Compiled(BOTH_SIDES)) == Run([], true)
  {
    OneRight(BOTH_SIDES, [Integer(1)]);
    assert GetValue(SlotReference(Slot(0, 0, IntegerType)), [None, Some([Integer(1)])]) == None;
  }
}
