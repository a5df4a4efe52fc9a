/** QueryRealizer: names are checked against the tables of the FROM clause, then
    the plan and its predicates are built on tuple numbers. */
module Queries {
  import opened Mvcc
  import opened Executors

  datatype Operator = Equal | Less | Greater | LessOrEqual | GreaterOrEqual | And | Or | Xor

  predicate IsCompareOperator(op: Operator) {
    op.Equal? || op.Less? || op.Greater? || op.LessOrEqual? || op.GreaterOrEqual?
  }

  /** A column reference is known by its node. */
  datatype Expr =
    | Column(node: nat, table: string, column: string)
    | Const(value: Value)
    | Operation(op: Operator, left: Expr, right: Expr)

  datatype Factor =
    | TableReference(name: string, aliasName: string)
    | JoinClause(left: Factor, right: Factor, on: Expr)

  datatype DataType = IntegerType | FloatType | VarcharType

  datatype Relation = Relation(attributes: seq<string>, types: seq<DataType>, tuples: seq<Tuple>)

  type Catalog = map<string, Relation>
  type Relations = map<string, Relation>
  type Numbers = map<string, nat>

  datatype Error = RelationNotFound | AttributeNotFound | NameAmbiguous

  // ---- Names ----

  function FirstIndex(names: seq<string>, name: string, i: nat): Option<nat>
    requires i <= |names|
    decreases |names| - i
  {
    if i == |names| then None else if names[i] == name then Some(i) else FirstIndex(names, name, i + 1)
  }

  function AttributeIndex(r: Relation, name: string): Option<nat> {
    FirstIndex(r.attributes, name, 0)
  }

  function AttributeType(r: Relation, i: nat): DataType {
    if i < |r.types| then r.types[i] else IntegerType
  }

  function Owners(rels: Relations, column: string): set<string> {
    set n | n in rels && AttributeIndex(rels[n], column).Some?
  }

  /** A table name and an attribute of it. */
  datatype Reference = Reference(table: string, attribute: nat)

  datatype Resolution = Resolved(ref: Reference) | Failed(error: Error)

  /** What a column reference stands for among some tables. */
  ghost function Resolve(rels: Relations, table: string, column: string): Resolution {
    if table != "" then
      if table !in rels then Failed(RelationNotFound)
      else match AttributeIndex(rels[table], column)
           case Some(i) => Resolved(Reference(table, i))
           case None => Failed(AttributeNotFound)
    else if |Owners(rels, column)| > 1 then Failed(NameAmbiguous)
    else if Owners(rels, column) == {} then Failed(AttributeNotFound)
    else
      var n :| n in Owners(rels, column);
      Resolved(Reference(n, AttributeIndex(rels[n], column).value))
  }

  // ---- What expressions mean ----

  /** A tuple for each table name that has one. */
  type Env = map<string, Tuple>

  predicate StringLess(a: string, b: string) {
    |b| > 0 && (|a| == 0 || a[0] < b[0] || (a[0] == b[0] && StringLess(a[1..], b[1..])))
  }

  /** Values of different types do not compare. */
  function Compare(op: Operator, a: Value, b: Value): bool {
    match (a, b)
    case (Integer(x), Integer(y)) => Ordered(op, x < y, x == y)
    case (Float(x), Float(y)) => Ordered(op, x < y, x == y)
    case (Varchar(x), Varchar(y)) => Ordered(op, StringLess(x, y), x == y)
    case _ => false
  }

  function Ordered(op: Operator, less: bool, equal: bool): bool {
    match op
    case Equal => equal
    case Less => less
    case Greater => !less && !equal
    case LessOrEqual => less || equal
    case GreaterOrEqual => !less
    case _ => false
  }

  /** LogicExpr: `and` and `or` stop at the first operand that decides, `xor`
      needs both. */
  function Logic(op: Operator, a: Truth, b: Truth): Truth {
    if a == Fault then Fault
    else match op
         case And => if a.b then b else a
         case Or => if a.b then a else b
         case _ => if b == Fault then Fault else Settled(a.b != b.b)
  }

  /** A comparison reads both sides; a side that is not there is a fault. */
  function CompareRead(op: Operator, a: Option<Value>, b: Option<Value>): Truth {
    if a.Some? && b.Some? then Settled(Compare(op, a.value, b.value)) else Fault
  }

  ghost function ValueOf(e: Expr, rels: Relations, env: Env): Option<Value> {
    match e
    case Const(v) => Some(v)
    case Column(_, t, c) =>
      (match Resolve(rels, t, c)
       case Resolved(r) => if r.table in env && r.attribute < |env[r.table]| then Some(env[r.table][r.attribute])
           else None
       case Failed(_) => None)
    case Operation(_, _, _) => None
  }

  ghost function Holds(e: Expr, rels: Relations, env: Env): Truth {
    match e
    case Operation(op, l, r) =>
      if IsCompareOperator(op) then CompareRead(op, ValueOf(l, rels, env), ValueOf(r, rels, env))
      else Logic(op, Holds(l, rels, env), Holds(r, rels, env))
    case _ => Fault
  }

  // ---- Compiled expressions ----

  datatype Slot = Slot(tuple: nat, attribute: nat, dataType: DataType)

  datatype ValueExpr = SlotReference(slot: Slot) | ConstValue(value: Value)

  datatype BoolExpr = CompareExpr(op: Operator, left: ValueExpr, right: ValueExpr) | LogicExpr(op: Operator,
      l: BoolExpr, r: BoolExpr)

  /** SlotReference::GetValue dereferences the slot's tuple, set or not. */
  function GetValue(v: ValueExpr, row: Row): Option<Value> {
    match v
    case ConstValue(c) => Some(c)
    case SlotReference(s) =>
      if s.tuple < |row| && row[s.tuple].Some?
          && s.attribute < |row[s.tuple].value| then Some(row[s.tuple].value[s.attribute]) else None
  }

  function Passes(b: BoolExpr, row: Row): Truth {
    match b
    case CompareExpr(op, l, r) => CompareRead(op, GetValue(l, row), GetValue(r, row))
    case LogicExpr(op, l, r) => Logic(op, Passes(l, row), Passes(r, row))
  }

  function TypeOf(v: ValueExpr): DataType {
    match v
    case SlotReference(s) => s.dataType
    case ConstValue(Integer(_)) => IntegerType
    case ConstValue(Float(_)) => FloatType
    case ConstValue(Varchar(_)) => VarcharType
  }

  // ---- Nodes ----

  function Nodes(e: Expr): set<nat> {
    match e
    case Column(n, _, _) => {n}
    case Const(_) => {}
    case Operation(_, l, r) => Nodes(l) + Nodes(r)
  }

  /** No node occurs twice. */
  predicate IsTree(e: Expr) {
    match e
    case Operation(_, l, r) => IsTree(l) && IsTree(r) && Nodes(l) !! Nodes(r)
    case _ => true
  }

  /** The slots recorded for an expression's columns are those of its names. */
  ghost predicate Recorded(e: Expr, rels: Relations, numbers: Numbers, slots: map<nat, Slot>) {
    match e
    case Const(_) => true
    case Operation(_, l, r) => Recorded(l, rels, numbers, slots) && Recorded(r, rels, numbers, slots)
    case Column(n, t, c) =>
      && n in slots && Resolve(rels, t, c).Resolved?
      && var r := Resolve(rels, t, c).ref;
         r.table in numbers && r.table in rels
             && slots[n] == Slot(numbers[r.table], r.attribute, AttributeType(rels[r.table], r.attribute))
  }

  /** Every column is that of one table. */
  ghost predicate Resolves(e: Expr, rels: Relations) {
    match e
    case Const(_) => true
    case Operation(_, l, r) => Resolves(l, rels) && Resolves(r, rels)
    case Column(_, t, c) => Resolve(rels, t, c).Resolved?
  }

  ghost function ValueType(e: Expr, rels: Relations): Option<DataType> {
    match e
    case Column(_, t, c) =>
      (match Resolve(rels, t, c)
       case Resolved(r) => if r.table in rels then Some(AttributeType(rels[r.table], r.attribute)) else None
       case Failed(_) => None)
    case Const(Integer(_)) => Some(IntegerType)
    case Const(Varchar(_)) => Some(VarcharType)
    case _ => None
  }

  /** Comparisons are between values of one type, connectives between conditions. */
  ghost predicate Typed(e: Expr, rels: Relations) {
    match e
    case Operation(op, l, r) =>
      if IsCompareOperator(op) then ValueType(l, rels).Some? && ValueType(l, rels) == ValueType(r, rels)
      else Typed(l, rels) && Typed(r, rels)
    case _ => false
  }

  lemma {:induction false} RecordedStays(e: Expr, rels: Relations, numbers: Numbers, slots: map<nat, Slot>,
        slots': map<nat, Slot>)
    requires Recorded(e, rels, numbers, slots) && forall n :: n in slots ==> n in slots' && slots'[n] == slots[n]
    ensures Recorded(e, rels, numbers, slots')
  {
    match e
    case Operation(_, l, r) =>
      RecordedStays(l, rels, numbers, slots, slots');
      RecordedStays(r, rels, numbers, slots, slots');
    case _ =>
  }

  /** A row holds an environment's tuples by number, and nothing for the others. */
  ghost predicate Carries(row: Row, numbers: Numbers, env: Env) {
    forall n :: n in numbers ==> numbers[n] < |row| && row[numbers[n]] == if n in env then Some(env[n]) else None
  }

  // ---- Building ----

  function BuildValue(e: Expr, slots: map<nat, Slot>): Option<ValueExpr> {
    match e
    case Column(n, _, _) => if n in slots then Some(SlotReference(slots[n])) else None
    case Const(v) => if v.Float? then None else Some(ConstValue(v))
    case Operation(_, _, _) => None
  }

  /** None where an assertion of BuildBooleanExpression or BuildValueExpression fails. */
  function BuildBoolean(e: Expr, slots: map<nat, Slot>): Option<BoolExpr> {
    match e
    case Operation(op, l, r) =>
      if IsCompareOperator(op) then
        var left, right := BuildValue(l, slots), BuildValue(r, slots);
        if left.Some? && right.Some?
            && TypeOf(left.value) == TypeOf(right.value) then Some(CompareExpr(op, left.value, right.value)) else None
      else
        var left, right := BuildBoolean(l, slots), BuildBoolean(r, slots);
        if left.Some? && right.Some? then Some(LogicExpr(op, left.value, right.value)) else None
    case _ => None
  }

  lemma ValueMeans(e: Expr, rels: Relations, numbers: Numbers, slots: map<nat, Slot>, row: Row, env: Env)
    requires Recorded(e, rels, numbers, slots) && Carries(row, numbers, env) && BuildValue(e, slots).Some?
    ensures GetValue(BuildValue(e, slots).value, row) == ValueOf(e, rels, env)
  {}

  lemma ValueBuilds(e: Expr, rels: Relations, numbers: Numbers, slots: map<nat, Slot>)
    requires Recorded(e, rels, numbers, slots)
    ensures BuildValue(e, slots).Some? <==> ValueType(e, rels).Some?
    ensures BuildValue(e, slots).Some? ==> ValueType(e, rels) == Some(TypeOf(BuildValue(e, slots).value))
  {}

  /** A checked condition compiles, without tripping an assertion, if and only if it is
      well typed. */
  lemma {:induction false} BuildsIffTyped(e: Expr, rels: Relations, numbers: Numbers, slots: map<nat, Slot>)
    requires Recorded(e, rels, numbers, slots)
    ensures BuildBoolean(e, slots).Some? <==> Typed(e, rels)
  {
    match e
    case Operation(op, l, r) =>
      if IsCompareOperator(op) {
        ValueBuilds(l, rels, numbers, slots);
        ValueBuilds(r, rels, numbers, slots);
      } else {
        BuildsIffTyped(l, rels, numbers, slots);
        BuildsIffTyped(r, rels, numbers, slots);
      }
    case _ =>
  }

  /** The compiled predicate says of a row what the expression says of its tables,
      and faults exactly when that does. */
  lemma {:induction false} PredicateMeans(e: Expr, rels: Relations, numbers: Numbers, slots: map<nat, Slot>, row: Row,
        env: Env)
    requires Recorded(e, rels, numbers, slots) && Carries(row, numbers, env) && BuildBoolean(e, slots).Some?
    ensures Passes(BuildBoolean(e, slots).value, row) == Holds(e, rels, env)
  {
    match e
    case Operation(op, l, r) =>
      if IsCompareOperator(op) {
        ValueMeans(l, rels, numbers, slots, row, env);
        ValueMeans(r, rels, numbers, slots, row, env);
      } else {
        PredicateMeans(l, rels, numbers, slots, row, env);
        PredicateMeans(r, rels, numbers, slots, row, env);
      }
    case _ =>
  }

  // ---- Tables of a FROM clause ----

  type TableRef = f: Factor | f.TableReference? witness TableReference("", "")

  function Label(f: TableRef): string {
    if f.aliasName != "" then f.aliasName else f.name
  }

  /** The table references, left to right. */
  function Leaves(f: Factor): seq<TableRef> {
    match f
    case TableReference(_, _) => [f]
    case JoinClause(l, r, _) => Leaves(l) + Leaves(r)
  }

  ghost predicate DistinctLabels(leaves: seq<TableRef>) {
    forall i, j :: 0 <= i < j < |leaves| ==> Label(leaves[i]) != Label(leaves[j])
  }

  ghost predicate LeafAt(f: TableRef, i: nat, catalog: Catalog, rels: Relations, numbers: Numbers) {
    && f.name in catalog && Label(f) in numbers && Label(f) in rels
    && numbers[Label(f)] == i && rels[Label(f)] == catalog[f.name]
  }

  datatype Way = ByPlace | ByName

  ghost predicate NumberedBy(way: Way, leaves: seq<TableRef>, catalog: Catalog, rels: Relations, numbers: Numbers) {
    match way
    case ByPlace => |numbers| == |leaves| && forall i :: 0 <= i < |leaves| ==>
        LeafAt(leaves[i], i, catalog, rels, numbers)
    case ByName => rels.Keys == numbers.Keys && forall n :: n in numbers ==>
        numbers[n] < |leaves| && Label(leaves[numbers[n]]) == n
  }

  /** The maps hold exactly these tables, numbered in order. */
  ghost predicate Numbered(leaves: seq<TableRef>, catalog: Catalog, rels: Relations, numbers: Numbers) {
    forall way: Way :: NumberedBy(way, leaves, catalog, rels, numbers)
  }

  lemma NumberedParts(leaves: seq<TableRef>, catalog: Catalog, rels: Relations, numbers: Numbers)
    requires Numbered(leaves, catalog, rels, numbers)
    ensures rels.Keys == numbers.Keys && |numbers| == |leaves|
    ensures forall i :: 0 <= i < |leaves| ==> LeafAt(leaves[i], i, catalog, rels, numbers)
    ensures forall n :: n in numbers ==> numbers[n] < |leaves| && Label(leaves[numbers[n]]) == n
  {
    assert NumberedBy(ByPlace, leaves, catalog, rels, numbers) && NumberedBy(ByName, leaves, catalog, rels, numbers);
  }

  lemma NumberedNext(leaves: seq<TableRef>, catalog: Catalog, rels: Relations, numbers: Numbers, f: TableRef)
    requires Numbered(leaves, catalog, rels, numbers) && f.name in catalog && Label(f) !in numbers
    ensures Numbered(leaves + [f], catalog, rels[Label(f) := catalog[f.name]], numbers[Label(f) := |leaves|])
  {
    NextByPlace(leaves, catalog, rels, numbers, f);
    NextByName(leaves, catalog, rels, numbers, f);
  }

  lemma NextByPlace(leaves: seq<TableRef>, catalog: Catalog, rels: Relations, numbers: Numbers, f: TableRef)
    requires Numbered(leaves, catalog, rels, numbers) && f.name in catalog && Label(f) !in numbers
    ensures NumberedBy(ByPlace, leaves + [f], catalog, rels[Label(f) := catalog[f.name]], numbers[Label(f) := |leaves|])
  {
    var rels', numbers' := rels[Label(f) := catalog[f.name]], numbers[Label(f) := |leaves|];
    assert NumberedBy(ByPlace, leaves, catalog, rels, numbers);
    assert numbers'.Keys == numbers.Keys + {Label(f)};
    forall i | 0 <= i < |leaves + [f]| ensures LeafAt((leaves + [f])[i], i, catalog, rels', numbers') {
      assert i < |leaves| ==> LeafAt(leaves[i], i, catalog, rels, numbers);
    }
  }

  lemma NextByName(leaves: seq<TableRef>, catalog: Catalog, rels: Relations, numbers: Numbers, f: TableRef)
    requires Numbered(leaves, catalog, rels, numbers) && f.name in catalog && Label(f) !in numbers
    ensures NumberedBy(ByName, leaves + [f], catalog, rels[Label(f) := catalog[f.name]], numbers[Label(f) := |leaves|])
  {
    assert NumberedBy(ByName, leaves, catalog, rels, numbers);
  }

  lemma NewLabel(leaves: seq<TableRef>, catalog: Catalog, rels: Relations, numbers: Numbers, f: TableRef)
    requires Numbered(leaves, catalog, rels, numbers) && DistinctLabels(leaves + [f])
    ensures Label(f) !in numbers && Label(f) !in rels && |numbers| == |leaves|
  {
    NumberedParts(leaves, catalog, rels, numbers);
    assert forall i :: 0 <= i < |leaves| ==> (leaves + [f])[i] == leaves[i];
    assert (leaves + [f])[|leaves|] == f;
  }

  lemma LabelsFront(front: seq<TableRef>, back: seq<TableRef>)
    requires DistinctLabels(front + back)
    ensures DistinctLabels(front)
  {
    forall i, j | 0 <= i < j < |front| ensures Label(front[i]) != Label(front[j]) {
      assert front[i] == (front + back)[i] && front[j] == (front + back)[j];
    }
  }

  function FactorNodes(f: Factor): set<nat> {
    match f
    case TableReference(_, _) => {}
    case JoinClause(l, r, on) => FactorNodes(l) + FactorNodes(r) + Nodes(on)
  }

  predicate FactorTree(f: Factor) {
    match f
    case TableReference(_, _) => true
    case JoinClause(l, r, on) =>
      FactorTree(l) && FactorTree(r) && IsTree(on) && FactorNodes(l) !! FactorNodes(r)
          && Nodes(on) !! (FactorNodes(l) + FactorNodes(r))
  }

  /** Every ON condition is recorded in the scope of the tables up to it. */
  ghost predicate Checked(f: Factor, before: seq<TableRef>, catalog: Catalog, slots: map<nat, Slot>) {
    match f
    case TableReference(_, _) => true
    case JoinClause(l, r, on) =>
      && Checked(l, before, catalog, slots) && Checked(r, before + Leaves(l), catalog, slots)
      && exists rels, numbers :: Numbered(before + Leaves(f), catalog, rels, numbers)
                                 && Recorded(on, rels, numbers, slots)
  }

  /** Every table exists and every ON is about the tables up to it. */
  ghost predicate WellNamed(f: Factor, before: seq<TableRef>, catalog: Catalog) {
    match f
    case TableReference(name, _) => name in catalog
    case JoinClause(l, r, on) =>
      && WellNamed(l, before, catalog) && WellNamed(r, before + Leaves(l), catalog)
      && exists rels, numbers :: Numbered(before + Leaves(f), catalog, rels, numbers) && Resolves(on, rels)
  }

  lemma OneNumbering(leaves: seq<TableRef>, catalog: Catalog, rels: Relations, numbers: Numbers, rels': Relations,
        numbers': Numbers)
    requires Numbered(leaves, catalog, rels, numbers) && Numbered(leaves, catalog, rels', numbers')
    ensures rels == rels' && numbers == numbers'
  {
    HasNumbering(leaves, catalog, rels, numbers, rels', numbers');
    HasNumbering(leaves, catalog, rels', numbers', rels, numbers);
  }

  lemma HasNumbering(leaves: seq<TableRef>, catalog: Catalog, rels: Relations, numbers: Numbers, rels': Relations,
        numbers': Numbers)
    requires Numbered(leaves, catalog, rels, numbers) && Numbered(leaves, catalog, rels', numbers')
    ensures rels.Keys == numbers.Keys
    ensures forall n :: n in numbers ==> n in rels' && n in numbers' && numbers'[n] == numbers[n] && rels'[n] == rels[n]
  {
    NumberedParts(leaves, catalog, rels, numbers);
    NumberedParts(leaves, catalog, rels', numbers');
    forall n | n in numbers ensures n in rels' && n in numbers' && numbers'[n] == numbers[n] && rels'[n] == rels[n] {
      assert LeafAt(leaves[numbers[n]], numbers[n], catalog, rels, numbers)
             && LeafAt(leaves[numbers[n]], numbers[n], catalog, rels', numbers');
    }
  }

  lemma OnResolves(f: Factor, before: seq<TableRef>, catalog: Catalog, rels: Relations, numbers: Numbers)
    requires f.JoinClause? && WellNamed(f, before, catalog) && Numbered(before + Leaves(f), catalog, rels, numbers)
    ensures Resolves(f.on, rels)
  {
    var rels', numbers' :| Numbered(before + Leaves(f), catalog, rels', numbers') && Resolves(f.on, rels');
    OneNumbering(before + Leaves(f), catalog, rels, numbers, rels', numbers');
  }

  ghost predicate Extends(slots: map<nat, Slot>, slots': map<nat, Slot>) {
    forall n :: n in slots ==> n in slots' && slots'[n] == slots[n]
  }

  lemma {:induction false} CheckedStays(f: Factor, before: seq<TableRef>, catalog: Catalog, slots: map<nat, Slot>,
        slots': map<nat, Slot>)
    requires Checked(f, before, catalog, slots) && Extends(slots, slots')
    ensures Checked(f, before, catalog, slots')
  {
    match f
    case TableReference(_, _) =>
    case JoinClause(l, r, on) =>
      CheckedStays(l, before, catalog, slots, slots');
      CheckedStays(r, before + Leaves(l), catalog, slots, slots');
      var rels, numbers :| Numbered(before + Leaves(f), catalog, rels, numbers) && Recorded(on, rels, numbers, slots);
      RecordedStays(on, rels, numbers, slots, slots');
  }

  /** A plan names its tables by number. */
  datatype Plan = ScanPlan(table: seq<Tuple>, index: nat) | JoinPlan(left: Plan, right: Plan, on: BoolExpr)

  /** The plan of a clause whose first table has number `start`. */
  ghost predicate PlanFor(p: Plan, f: Factor, start: nat, catalog: Catalog, slots: map<nat, Slot>) {
    match f
    case TableReference(name, _) => name in catalog && p == ScanPlan(catalog[name].tuples, start)
    case JoinClause(l, r, on) =>
      && p.JoinPlan? && PlanFor(p.left, l, start, catalog, slots)
         && PlanFor(p.right, r, start + |Leaves(l)|, catalog, slots)
      && BuildBoolean(on, slots) == Some(p.on)
  }

  /** Every ON condition compiles. */
  predicate Buildable(f: Factor, slots: map<nat, Slot>) {
    match f
    case TableReference(_, _) => true
    case JoinClause(l, r, on) => Buildable(l, slots) && Buildable(r, slots) && BuildBoolean(on, slots).Some?
  }

  class QueryRealizer {
    const catalog: Catalog
    var name2relation: Relations
    var name2tupleIndex: Numbers
    var name2slot: map<nat, Slot>
    var allTupleDesc: seq<Relation>

    constructor (catalog: Catalog)
      ensures this.catalog == catalog && name2relation == map[] && name2tupleIndex == map[] && name2slot == map[]
              && allTupleDesc == []
    {
      this.catalog := catalog;
      name2relation, name2tupleIndex, name2slot, allTupleDesc := map[], map[], map[], [];
    }

    /** CheckTableFactor: tables are numbered as they are met, left to right, and
        every ON condition is resolved among the tables met so far. */
    method CheckTableFactor(f: Factor, ghost before: seq<TableRef>) returns (error: Option<Error>)
      requires Numbered(before, catalog, name2relation, name2tupleIndex)
      requires DistinctLabels(before + Leaves(f)) && FactorTree(f) && FactorNodes(f) !! name2slot.Keys
      modifies this`name2relation, this`name2tupleIndex, this`name2slot
      ensures error.None? ==> Numbered(before + Leaves(f), catalog, name2relation, name2tupleIndex)
      ensures error.None? ==> Checked(f, before, catalog, name2slot)
      ensures error.None? <==> WellNamed(f, before, catalog)
      ensures Extends(old(name2slot), name2slot) && name2slot.Keys <= old(name2slot).Keys + FactorNodes(f)
      decreases f
    {
      match f
      case TableReference(_, _) =>
        error := CheckTable(f, before);
      case JoinClause(l, r, on) =>
        assert before + Leaves(f) == before + Leaves(l) + Leaves(r);
        LabelsFront(before + Leaves(l), Leaves(r));
        error := CheckTableFactor(l, before);
        if error.Some? {
          return;
        }
        ghost var slots1 := name2slot;
        error := CheckTableFactor(r, before + Leaves(l));
        if error.Some? {
          return;
        }
        ghost var slots2 := name2slot;
        NumberedParts(before + Leaves(f), catalog, name2relation, name2tupleIndex);
        error := CheckExpression(on);
        if WellNamed(f, before, catalog) {
          OnResolves(f, before, catalog, name2relation, name2tupleIndex);
        }
        CheckedStays(l, before, catalog, slots1, name2slot);
        CheckedStays(r, before + Leaves(l), catalog, slots2, name2slot);
    }

    method CheckTable(f: TableRef, ghost before: seq<TableRef>) returns (error: Option<Error>)
      requires Numbered(before, catalog, name2relation, name2tupleIndex) && DistinctLabels(before + [f])
      modifies this`name2relation, this`name2tupleIndex
      ensures error == if f.name in catalog then None else Some(RelationNotFound)
      ensures error.None? ==> Numbered(before + [f], catalog, name2relation, name2tupleIndex)
    {
      if f.name !in catalog {
        return Some(RelationNotFound);
      }
      NewLabel(before, catalog, name2relation, name2tupleIndex, f);
      NumberedNext(before, catalog, name2relation, name2tupleIndex, f);
      if Label(f) !in name2tupleIndex {
        name2tupleIndex := name2tupleIndex[Label(f) := |name2tupleIndex|];
      }
      if Label(f) !in name2relation {
        name2relation := name2relation[Label(f) := catalog[f.name]];
      }
      error := None;
    }

    /** BuildJoin: scans are numbered in the order they are built, left to right. */
    method BuildJoin(f: Factor) returns (p: Option<Plan>)
      requires forall t :: t in Leaves(f) ==> t.name in catalog && Label(t) in name2relation
      modifies this`allTupleDesc
      ensures p.Some? <==> Buildable(f, name2slot)
      ensures p.Some? ==> PlanFor(p.value, f, |old(allTupleDesc)|, catalog, name2slot)
                          && |allTupleDesc| == |old(allTupleDesc)| + |Leaves(f)|
      decreases f
    {
      match f
      case TableReference(name, _) =>
        assert f in Leaves(f);
        p := Some(ScanPlan(catalog[name].tuples, |allTupleDesc|));
        allTupleDesc := allTupleDesc + [name2relation[Label(f)]];
      case JoinClause(l, r, on) =>
        assert forall t :: t in Leaves(l) || t in Leaves(r) ==> t in Leaves(f);
        var left := BuildJoin(l);
        if left.None? {
          return None;
        }
        var right := BuildJoin(r);
        if right.None? {
          return None;
        }
        var cond := BuildBoolean(on, name2slot);
        if cond.None? {
          return None;
        }
        p := Some(JoinPlan(left.value, right.value, cond.value));
    }

    /** CheckExpressionBase: each column becomes a slot of the tuple its table is
        numbered by. */
    method CheckExpression(e: Expr) returns (error: Option<Error>)
      requires IsTree(e) && Nodes(e) !! name2slot.Keys && name2relation.Keys == name2tupleIndex.Keys
      modifies this`name2slot
      ensures error.None? <==> Resolves(e, name2relation)
      ensures error.None? ==> Recorded(e, name2relation, name2tupleIndex, name2slot)
      ensures Extends(old(name2slot), name2slot) && name2slot.Keys <= old(name2slot).Keys + Nodes(e)
      decreases e
    {
      error := None;
      match e
      case Const(_) =>
      case Operation(_, l, r) =>
        error := CheckExpression(l);
        if error.Some? {
          return;
        }
        ghost var slots := name2slot;
        error := CheckExpression(r);
        RecordedStays(l, name2relation, name2tupleIndex, slots, name2slot);
      case Column(n, t, c) =>
        error := CheckColumn(n, t, c);
    }

    method CheckColumn(n: nat, table: string, column: string) returns (error: Option<Error>)
      requires n !in name2slot && name2relation.Keys == name2tupleIndex.Keys
      modifies this`name2slot
      ensures error == match Resolve(name2relation, table, column) case Failed(e) => Some(e) case Resolved(_) => None
      ensures error.None? ==> Recorded(Column(n, table, column), name2relation, name2tupleIndex, name2slot)
      ensures Extends(old(name2slot), name2slot) && name2slot.Keys <= old(name2slot).Keys + {n}
    {
      var owner := table;
      if table != "" {
        if table !in name2relation {
          return Some(RelationNotFound);
        }
      } else {
        var count;
        owner, count := FindOwner(name2relation, column);
        if count > 1 {
          return Some(NameAmbiguous);
        } else if count == 0 {
          return Some(AttributeNotFound);
        }
        OnlyMember(Owners(name2relation, column), owner);
      }
      var r := name2relation[owner];
      var i := AttributeIndex(r, column);
      if i.None? {
        return Some(AttributeNotFound);
      }
      name2slot := name2slot[n := Slot(name2tupleIndex[owner], i.value, AttributeType(r, i.value))];
      error := None;
    }
  }

  /** The tables that have a column, counted, and the last one met. */
  method FindOwner(rels: Relations, column: string) returns (owner: string, count: nat)
    ensures count == |Owners(rels, column)| && (count > 0 ==> owner in Owners(rels, column))
  {
    owner, count := "", 0;
    var rest := rels.Keys;
    while rest != {}
      invariant rest <= rels.Keys && Counted(OwnersAmong(rels, column, rels.Keys - rest), owner, count)
      decreases rest
    {
      var n :| n in rest;
      OwnersNext(rels, column, rels.Keys - rest, n, owner, count);
      assert rels.Keys - rest + {n} == rels.Keys - (rest - {n});
      if AttributeIndex(rels[n], column).Some? {
        owner, count := n, count + 1;
      }
      rest := rest - {n};
    }
    AllOwners(rels, column);
  }

  lemma AllOwners(rels: Relations, column: string)
    ensures OwnersAmong(rels, column, rels.Keys - {}) == Owners(rels, column)
  {}

  ghost function OwnersAmong(rels: Relations, column: string, names: set<string>): set<string> {
    set n | n in names && n in rels && AttributeIndex(rels[n], column).Some?
  }

  ghost predicate Counted(s: set<string>, x: string, count: nat) {
    count == |s| && (count > 0 ==> x in s)
  }

  lemma OwnersNext(rels: Relations, column: string, seen: set<string>, n: string, owner: string, count: nat)
    requires n !in seen && n in rels && Counted(OwnersAmong(rels, column, seen), owner, count)
    ensures var has := AttributeIndex(rels[n], column).Some?;
            Counted(OwnersAmong(rels, column, seen + {n}), if has then n else owner, if has then count + 1 else count)
  {
    var before, after := OwnersAmong(rels, column, seen), OwnersAmong(rels, column, seen + {n});
    assert n !in before && after == before + if AttributeIndex(rels[n], column).Some? then {n} else {};
  }

  lemma OnlyMember(s: set<string>, x: string)
    requires x in s && |s| == 1
    ensures s == {x}
  {
    assert |s - {x}| == 0;
  }
}
