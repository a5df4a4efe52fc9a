/** When a query's run is its answer, and the whole path from catalog to rows. */
module QueryAnswers {
  import opened Mvcc
  import opened Executors
  import opened Queries
  import opened QueryMeaning

  // ---- Pairs that settle ----

  ghost predicate AllSettle(lefts: seq<Env>, rights: seq<Env>, on: Expr, rels: Relations) {
    forall l, r :: l in lefts && r in rights ==> Holds(on, rels, l + r).Settled?
  }

  ghost predicate NonePass(lefts: seq<Env>, rights: seq<Env>, on: Expr, rels: Relations) {
    forall l, r :: l in lefts && r in rights ==> Holds(on, rels, l + r) == Settled(false)
  }

  lemma {:induction false} BesideSettles(l: Env, rights: seq<Env>, on: Expr, rels: Relations, n: nat)
    requires n <= |rights|
    ensures !Beside(l, rights, on, rels, n).fault <==> forall r :: r in rights[..n] ==> Holds(on, rels, l + r).Settled?
    ensures Beside(l, rights, on, rels, n) == Served([], false) <==> forall r :: r in rights[..n] ==>
            Holds(on, rels, l + r) == Settled(false)
    ensures !Beside(l, rights, on, rels, n).fault ==>
            Beside(l, rights, on, rels, n).envs == Pairs(l, rights, on, rels, n)
  {
    if n > 0 {
      BesideSettles(l, rights, on, rels, n - 1);
      assert rights[..n] == rights[..n - 1] + [rights[n - 1]];
    }
  }

  lemma {:induction false} AcrossSettles(lefts: seq<Env>, rights: seq<Env>, on: Expr, rels: Relations, m: nat)
    requires m <= |lefts|
    ensures !Across(lefts, rights, on, rels, m).fault <==> AllSettle(lefts[..m], rights, on, rels)
    ensures Across(lefts, rights, on, rels, m) == Served([], false) <==> NonePass(lefts[..m], rights, on, rels)
    ensures !Across(lefts, rights, on, rels, m).fault ==>
            Across(lefts, rights, on, rels, m).envs == Joined(lefts, rights, on, rels, m)
  {
    if m > 0 {
      AcrossSettles(lefts, rights, on, rels, m - 1);
      BesideSettles(lefts[m - 1], rights, on, rels, |rights|);
      assert rights[..|rights|] == rights;
      assert lefts[..m] == lefts[..m - 1] + [lefts[m - 1]];
    }
  }

  // ---- A FROM clause ----

  /** Nothing below faults, no pair put to the ON faults, and where the left side
      means no row, no turn the executors take anyway gets through the ON. */
  ghost predicate Sound(f: Factor, catalog: Catalog)
    requires Known(f, catalog)
  {
    f.JoinClause? ==>
      && Known(f.left, catalog) && Known(f.right, catalog) && !Serve(f.left, catalog).fault
      && var turns, rights, rels := EnvTurns(Serve(f.left, catalog)), From(f.right, catalog), ScopeOf(f, catalog);
         && AllSettle(turns, rights, f.on, rels)
         && (From(f.left, catalog) == [] ==> NonePass(turns, rights, f.on, rels))
  }

  lemma Inputs(f: Factor, catalog: Catalog)
    requires f.JoinClause? && Known(f, catalog)
    ensures Known(f.left, catalog) && Known(f.right, catalog)
  {
    assert forall t :: t in Leaves(f.left) || t in Leaves(f.right) ==> t in Leaves(f);
  }

  /** Without a fault the executors go wrong only where the answer is empty. */
  lemma {:induction false} WrongOnlyWhenEmpty(f: Factor, catalog: Catalog)
    requires Known(f, catalog) && !Serve(f, catalog).fault && From(f, catalog) != []
    ensures Serve(f, catalog).envs == From(f, catalog)
  {
    if f.JoinClause? {
      Inputs(f, catalog);
      var turns, rights, rels := EnvTurns(Serve(f.left, catalog)), From(f.right, catalog), ScopeOf(f, catalog);
      AcrossSettles(turns, rights, f.on, rels, |turns|);
      if From(f.left, catalog) != [] {
        WrongOnlyWhenEmpty(f.left, catalog);
      }
    }
  }

  /** The executors serve exactly what a left-deep FROM clause means, and end well,
      if and only if it is sound. */
  lemma ServesIffSound(f: Factor, catalog: Catalog)
    requires Known(f, catalog)
    ensures Serve(f, catalog) == Served(From(f, catalog), false) <==> Sound(f, catalog)
  {
    if f.JoinClause? {
      Inputs(f, catalog);
      var left := Serve(f.left, catalog);
      var turns, rights, rels := EnvTurns(left), From(f.right, catalog), ScopeOf(f, catalog);
      AcrossSettles(turns, rights, f.on, rels, |turns|);
      assert turns[..|turns|] == turns;
      if From(f.left, catalog) != [] && !left.fault {
        WrongOnlyWhenEmpty(f.left, catalog);
      }
    }
  }

  /** Over a sound left side the condition needs no executor: with rows on the
      left no pair may fault; with none, every right tuple, if there is any, has
      to settle to false beside no left tuple at all. */
  lemma SoundStep(f: Factor, catalog: Catalog)
    requires f.JoinClause? && Known(f, catalog) && Known(f.left, catalog) && Known(f.right, catalog)
             && Sound(f.left, catalog)
    ensures Sound(f, catalog) <==>
            var lefts, rights, rels := From(f.left, catalog), From(f.right, catalog), ScopeOf(f, catalog);
            if lefts != [] then AllSettle(lefts, rights, f.on, rels) else NonePass([map[]], rights, f.on, rels)
  {
    ServesIffSound(f.left, catalog);
  }

  // ---- The same, said of tables and conditions ----

  /** A side without a combination counts as one combination of no tuples. */
  ghost function OrNothing(envs: seq<Env>): seq<Env> {
    if envs == [] then [map[]] else envs
  }

  /** The combinations of tuples that satisfy every ON, when a left side without any
      counts as one of no tuples. */
  ghost function Loose(f: Factor, catalog: Catalog): seq<Env>
    requires Known(f, catalog)
  {
    if f.TableReference? then From(f, catalog)
    else
      Inputs(f, catalog);
      var lefts := OrNothing(Loose(f.left, catalog));
      Joined(lefts, From(f.right, catalog), f.on, ScopeOf(f, catalog), |lefts|)
  }

  /** Every ON settles on every pair of them. */
  ghost predicate Settles(f: Factor, catalog: Catalog)
    requires Known(f, catalog)
  {
    f.JoinClause? ==>
      && Known(f.left, catalog) && Known(f.right, catalog) && Settles(f.left, catalog)
      && AllSettle(OrNothing(Loose(f.left, catalog)), From(f.right, catalog), f.on, ScopeOf(f, catalog))
  }

  /** Where there is a proper combination there is no other. */
  lemma {:induction false} LooseIsFrom(f: Factor, catalog: Catalog)
    requires Known(f, catalog) && From(f, catalog) != []
    ensures Loose(f, catalog) == From(f, catalog)
  {
    if f.JoinClause? {
      Inputs(f, catalog);
      LooseIsFrom(f.left, catalog);
    }
  }

  lemma {:induction false} ServesLoose(f: Factor, catalog: Catalog)
    requires Known(f, catalog)
    ensures Serve(f, catalog).fault <==> !Settles(f, catalog)
    ensures !Serve(f, catalog).fault ==> Serve(f, catalog).envs == Loose(f, catalog)
  {
    if f.JoinClause? {
      Inputs(f, catalog);
      ServesLoose(f.left, catalog);
      var turns, rights, rels := EnvTurns(Serve(f.left, catalog)), From(f.right, catalog), ScopeOf(f, catalog);
      AcrossSettles(turns, rights, f.on, rels, |turns|);
      assert turns[..|turns|] == turns;
    }
  }

  /** Every ON settles and, when the clause means no row, there is no loose one. */
  ghost predicate Exact(f: Factor, catalog: Catalog)
    requires Known(f, catalog)
  {
    Settles(f, catalog) && (From(f, catalog) == [] ==> Loose(f, catalog) == [])
  }

  /** What a left-deep FROM clause means is served, and the run ends well, if and only
      if it is exact. */
  lemma ServesIff(f: Factor, catalog: Catalog)
    requires Known(f, catalog)
    ensures Serve(f, catalog) == Served(From(f, catalog), false) <==> Exact(f, catalog)
  {
    ServesLoose(f, catalog);
    if From(f, catalog) != [] {
      LooseIsFrom(f, catalog);
    }
  }

  /** No join goes wrong, from the innermost out: with rows on its left no pair
      faults, without any every right tuple settles to false beside no left tuple. */
  ghost predicate Clear(f: Factor, catalog: Catalog)
    requires Known(f, catalog)
  {
    f.JoinClause? ==>
      && Known(f.left, catalog) && Known(f.right, catalog) && Clear(f.left, catalog)
      && var lefts, rights, rels := From(f.left, catalog), From(f.right, catalog), ScopeOf(f, catalog);
         if lefts != [] then AllSettle(lefts, rights, f.on, rels) else NonePass([map[]], rights, f.on, rels)
  }

  /** The clause and every left side in it is served exactly, without a fault. */
  ghost predicate ServedThroughout(f: Factor, catalog: Catalog)
    requires Known(f, catalog)
  {
    && Serve(f, catalog) == Served(From(f, catalog), false)
    && (f.JoinClause? ==> Known(f.left, catalog) && ServedThroughout(f.left, catalog))
  }

  lemma {:induction false} ClearIff(f: Factor, catalog: Catalog)
    requires Known(f, catalog)
    ensures Clear(f, catalog) <==> ServedThroughout(f, catalog)
  {
    ServesIffSound(f, catalog);
    if f.JoinClause? {
      Inputs(f, catalog);
      ClearIff(f.left, catalog);
      ServesIffSound(f.left, catalog);
      if Sound(f.left, catalog) {
        SoundStep(f, catalog);
      }
    }
  }

  // ---- WHERE ----

  ghost function JudgeAll(envs: seq<Env>, e: Expr, rels: Relations, n: nat): Served
    requires n <= |envs|
  {
    if n == 0 then Served([], false) else Next(JudgeAll(envs, e, rels, n - 1), Judge(e, rels, envs[n - 1]))
  }

  ghost function KeptEnvs(envs: seq<Env>, e: Expr, rels: Relations, n: nat): seq<Env>
    requires n <= |envs|
  {
    if n == 0 then [] else KeptEnvs(envs, e, rels, n - 1) + if Holds(e, rels, envs[n - 1])
        == Settled(true) then [envs[n - 1]] else []
  }

  /** What a query asks for. */
  ghost function Meant(f: Factor, where: Option<Expr>, catalog: Catalog): seq<Env>
    requires Known(f, catalog)
  {
    if where.None? then From(f, catalog)
    else KeptEnvs(From(f, catalog), where.value, ScopeOf(f, catalog), |From(f, catalog)|)
  }

  /** What it gets. */
  ghost function ServeQuery(f: Factor, where: Option<Expr>, catalog: Catalog): Served
    requires Known(f, catalog)
  {
    var from := Serve(f, catalog);
    if where.None? then from
    else Next(JudgeAll(from.envs, where.value, ScopeOf(f, catalog), |from.envs|), Served([], from.fault))
  }

  ghost predicate SettlesOn(e: Expr, rels: Relations, envs: seq<Env>) {
    forall env :: env in envs ==> Holds(e, rels, env).Settled?
  }

  ghost predicate RejectsAll(e: Expr, rels: Relations, envs: seq<Env>) {
    forall env :: env in envs ==> Holds(e, rels, env) == Settled(false)
  }

  lemma {:induction false} JudgeAllSettles(envs: seq<Env>, e: Expr, rels: Relations, n: nat)
    requires n <= |envs|
    ensures !JudgeAll(envs, e, rels, n).fault <==> SettlesOn(e, rels, envs[..n])
    ensures JudgeAll(envs, e, rels, n) == Served([], false) <==> RejectsAll(e, rels, envs[..n])
    ensures !JudgeAll(envs, e, rels, n).fault ==> JudgeAll(envs, e, rels, n).envs == KeptEnvs(envs, e, rels, n)
  {
    if n > 0 {
      JudgeAllSettles(envs, e, rels, n - 1);
      assert envs[..n] == envs[..n - 1] + [envs[n - 1]];
    }
  }

  /** No fault, and either the FROM clause is sound or the WHERE rejects whatever
      the executors make of it. */
  ghost predicate SoundQuery(f: Factor, where: Option<Expr>, catalog: Catalog)
    requires Known(f, catalog)
  {
    var envs, rels := Serve(f, catalog).envs, ScopeOf(f, catalog);
    && (where.None? ==> Sound(f, catalog))
    && (where.Some? ==>
          && !Serve(f, catalog).fault && SettlesOn(where.value, rels, envs)
          && (Sound(f, catalog) || RejectsAll(where.value, rels, envs)))
  }

  /** The query gets what it asks for, and ends well, if and only if it is sound. */
  lemma QueryIffSound(f: Factor, where: Option<Expr>, catalog: Catalog)
    requires Known(f, catalog)
    ensures ServeQuery(f, where, catalog) == Served(Meant(f, where, catalog), false) <==> SoundQuery(f, where, catalog)
  {
    ServesIffSound(f, catalog);
    if where.Some? {
      var from, rels := Serve(f, catalog), ScopeOf(f, catalog);
      JudgeAllSettles(from.envs, where.value, rels, |from.envs|);
      assert from.envs[..|from.envs|] == from.envs;
      if !from.fault && !Sound(f, catalog) && From(f, catalog) != [] {
        WrongOnlyWhenEmpty(f, catalog);
      }
    }
  }

  /** Every ON settles, the WHERE settles on whatever gets through, and when the FROM
      clause means no row, no loose one passes the WHERE. */
  ghost predicate Answerable(f: Factor, where: Option<Expr>, catalog: Catalog)
    requires Known(f, catalog)
  {
    var envs, rels := Loose(f, catalog), ScopeOf(f, catalog);
    && Settles(f, catalog) && (where.Some? ==> SettlesOn(where.value, rels, envs))
    && (From(f, catalog) == [] ==> if where.Some? then RejectsAll(where.value, rels, envs) else envs == [])
  }

  /** The query gets what it asks for, and ends well, if and only if it is answerable,
      which is a matter of tables and conditions alone. */
  lemma QueryIff(f: Factor, where: Option<Expr>, catalog: Catalog)
    requires Known(f, catalog)
    ensures SoundQuery(f, where, catalog) <==> Answerable(f, where, catalog)
    ensures ServeQuery(f, where, catalog) == Served(Meant(f, where, catalog), false) <==> Answerable(f, where, catalog)
  {
    QueryIffSound(f, where, catalog);
    ServesIffSound(f, catalog);
    ServesIff(f, catalog);
    ServesLoose(f, catalog);
  }

  /** Over a clear FROM clause all that matters is that the WHERE settles. */
  lemma ClearQuery(f: Factor, where: Option<Expr>, catalog: Catalog)
    requires Known(f, catalog) && Clear(f, catalog)
    ensures Answerable(f, where, catalog) <==>
            (where.Some? ==> SettlesOn(where.value, ScopeOf(f, catalog), From(f, catalog)))
  {
    ClearIff(f, catalog);
    ServesLoose(f, catalog);
  }

  lemma {:induction false} KeptMeans(rows: seq<Row>, envs: seq<Env>, pred: Predicate, e: Expr, rels: Relations,
        leaves: seq<TableRef>, width: nat, n: nat)
    requires Stand(rows, envs, leaves, width) && |rows| == |envs| && n <= |rows| && Agrees(pred, e, rels, leaves, width)
    ensures StandRun(Kept(rows, pred, n), JudgeAll(envs, e, rels, n), leaves, width)
  {
    if n == 0 {
      StandNone(leaves, width);
    } else {
      KeptMeans(rows, envs, pred, e, rels, leaves, width, n - 1);
      StandParts(rows, envs, leaves, width);
      assert EnvFor(envs[n - 1], leaves);
      TryMeans(pred, e, rels, rows[n - 1], envs[n - 1], leaves, width);
      StandThen(Kept(rows, pred, n - 1), JudgeAll(envs, e, rels, n - 1), Try(pred, rows[n - 1]),
          Judge(e, rels, envs[n - 1]), leaves, width);
    }
  }

  lemma SelectMeans(run: Run, served: Served, pred: Predicate, e: Expr, rels: Relations, leaves: seq<TableRef>,
        width: nat)
    requires StandRun(run, served, leaves, width) && Agrees(pred, e, rels, leaves, width)
    ensures StandRun(SelectRun(run, pred), Next(JudgeAll(served.envs, e, rels, |served.envs|),
            Served([], served.fault)), leaves, width)
  {
    StandParts(run.rows, served.envs, leaves, width);
    KeptMeans(run.rows, served.envs, pred, e, rels, leaves, width, |run.rows|);
    StandNone(leaves, width);
    StandThen(Kept(run.rows, pred, |run.rows|), JudgeAll(served.envs, e, rels, |served.envs|), Run([], run.fault),
        Served([], served.fault), leaves, width);
  }

  // ---- Rows determine environments ----

  lemma OneEnv(e: Env, e': Env, leaves: seq<TableRef>, width: nat)
    requires EnvFor(e, leaves) && EnvFor(e', leaves) && |leaves| <= width
             && RowOf(e, leaves, width) == RowOf(e', leaves, width)
    ensures e == e'
  {
    HasEnv(e, e', leaves, width);
    HasEnv(e', e, leaves, width);
  }

  lemma HasEnv(e: Env, e': Env, leaves: seq<TableRef>, width: nat)
    requires EnvFor(e, leaves) && |leaves| <= width && RowOf(e, leaves, width) == RowOf(e', leaves, width)
    ensures forall n :: n in e ==> n in e' && e'[n] == e[n]
  {
    forall n | n in e ensures n in e' && e'[n] == e[n] {
      var i :| 0 <= i < |leaves| && Label(leaves[i]) == n;
      assert RowOf(e, leaves, width)[i] == RowOf(e', leaves, width)[i];
    }
  }

  lemma OneReading(rows: seq<Row>, envs: seq<Env>, envs': seq<Env>, leaves: seq<TableRef>, width: nat)
    requires Stand(rows, envs, leaves, width) && Stand(rows, envs', leaves, width) && |leaves| <= width
    ensures envs == envs'
  {
    StandParts(rows, envs, leaves, width);
    StandParts(rows, envs', leaves, width);
    forall i | 0 <= i < |envs| ensures envs[i] == envs'[i] {
      assert EnvFor(envs[i], leaves) && EnvFor(envs'[i], leaves);
      OneEnv(envs[i], envs'[i], leaves, width);
    }
  }
}
