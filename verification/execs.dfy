/** Table scans, nested-loop joins and selections as cursors.  A row is the
    tuples of a TupleRow, unset until a scan fills its slot; a predicate that
    reads an unset slot faults, and the run ends there. */
module Executors {
  import opened Mvcc

  datatype Value = Integer(i: int) | Float(f: real) | Varchar(s: string)

  type Tuple = seq<Value>
  type Row = seq<Option<Tuple>>

  /** What a condition says of a row, if evaluating it gets that far. */
  datatype Truth = Settled(b: bool) | Fault

  type Predicate = Row -> Truth

  datatype State = Ok | Eof | Aborted

  function EmptyRow(n: nat): Row {
    seq(n, _ => None)
  }

  // ---- Runs ----

  /** Rows handed out, and whether the run then ends in a fault. */
  datatype Run = Run(rows: seq<Row>, fault: bool)

  function Then(r: Run, q: Run): Run {
    if r.fault then r else Run(r.rows + q.rows, q.fault)
  }

  /** One row put to a predicate. */
  function Try(pred: Predicate, row: Row): Run {
    match pred(row)
    case Fault => Run([], true)
    case Settled(b) => Run(if b then [row] else [], false)
  }

  /** The first n right tuples beside one left row. */
  function WithLeft(l: Row, k: nat, right: seq<Tuple>, pred: Predicate, n: nat): Run
    requires k < |l| && n <= |right|
  {
    if n == 0 then Run([], false) else
      Then(WithLeft(l, k, right, pred, n - 1), Try(pred, l[k := Some(right[n - 1])]))
  }

  ghost predicate Wide(rows: seq<Row>, width: nat) {
    forall i :: 0 <= i < |rows| ==> |rows[i]| == width
  }

  ghost predicate Reaches(rows: seq<Row>, k: nat) {
    forall i :: 0 <= i < |rows| ==> k < |rows[i]|
  }

  /** The first m left rows, each beside the whole right table. */
  function Product(left: seq<Row>, k: nat, right: seq<Tuple>, pred: Predicate, m: nat): Run
    requires m <= |left| && Reaches(left, k)
  {
    if m == 0 then Run([], false) else
      Then(Product(left, k, right, pred, m - 1), WithLeft(left[m - 1], k, right, pred, |right|))
  }

  /** A run that has not faulted goes on; one that has stays as it is. */
  predicate GoesOn(r: Run, q: Run) {
    r.rows <= q.rows && (r.fault ==> q == r)
  }

  lemma {:induction false} WithLeftGoesOn(l: Row, k: nat, right: seq<Tuple>, pred: Predicate, n: nat, n': nat)
    requires k < |l| && n <= n' <= |right|
    ensures GoesOn(WithLeft(l, k, right, pred, n), WithLeft(l, k, right, pred, n'))
  {
    if n < n' {
      WithLeftGoesOn(l, k, right, pred, n, n' - 1);
    }
  }

  lemma {:induction false} ProductGoesOn(left: seq<Row>, k: nat, right: seq<Tuple>, pred: Predicate, m: nat, m': nat)
    requires m <= m' <= |left| && Reaches(left, k)
    ensures GoesOn(Product(left, k, right, pred, m), Product(left, k, right, pred, m'))
  {
    if m < m' {
      ProductGoesOn(left, k, right, pred, m, m' - 1);
    }
  }

  /** Everything up to the n-th right tuple of left row m. */
  function Sent(left: seq<Row>, k: nat, right: seq<Tuple>, pred: Predicate, m: nat, n: nat): Run
    requires m < |left| && n <= |right| && Reaches(left, k)
  {
    Then(Product(left, k, right, pred, m), WithLeft(left[m], k, right, pred, n))
  }

  lemma ThenGoesOn(p: Run, r: Run, q: Run)
    requires GoesOn(r, q)
    ensures GoesOn(Then(p, r), Then(p, q))
  {}

  lemma GoesOnTrans(p: Run, r: Run, q: Run)
    requires GoesOn(p, r) && GoesOn(r, q)
    ensures GoesOn(p, q)
  {}

  lemma SentGoesOn(left: seq<Row>, k: nat, right: seq<Tuple>, pred: Predicate, m: nat, n: nat)
    requires m < |left| && n <= |right| && Reaches(left, k)
    ensures GoesOn(Sent(left, k, right, pred, m, n), Product(left, k, right, pred, |left|))
  {
    WithLeftGoesOn(left[m], k, right, pred, n, |right|);
    ThenGoesOn(Product(left, k, right, pred, m), WithLeft(left[m], k, right, pred, n),
        WithLeft(left[m], k, right, pred, |right|));
    ProductGoesOn(left, k, right, pred, m + 1, |left|);
    GoesOnTrans(Sent(left, k, right, pred, m, n), Product(left, k, right, pred, m + 1),
        Product(left, k, right, pred, |left|));
  }

  /** The rows the loops of a join go through on the left: a left input that ends
      without a row still takes one turn, on a row whose slots are unset. */
  function Turns(left: Run, width: nat): seq<Row> {
    if |left.rows| == 0 && !left.fault then [EmptyRow(width)] else left.rows
  }

  /** What a join does. */
  function JoinRun(left: Run, width: nat, k: nat, right: seq<Tuple>, pred: Predicate): Run
    requires Reaches(Turns(left, width), k)
  {
    var turns := Turns(left, width);
    Then(Product(turns, k, right, pred, |turns|), Run([], left.fault))
  }

  /** Every right tuple beside the row settles the predicate, to `b` or to anything. */
  ghost predicate Settles(l: Row, k: nat, right: seq<Tuple>, pred: Predicate)
    requires k < |l|
  {
    forall t :: t in right ==> pred(l[k := Some(t)]).Settled?
  }

  ghost predicate Rejects(l: Row, k: nat, right: seq<Tuple>, pred: Predicate)
    requires k < |l|
  {
    forall t :: t in right ==> pred(l[k := Some(t)]) == Settled(false)
  }

  lemma {:induction false} WithLeftSettles(l: Row, k: nat, right: seq<Tuple>, pred: Predicate, n: nat)
    requires k < |l| && n <= |right|
    ensures !WithLeft(l, k, right, pred, n).fault <==> Settles(l, k, right[..n], pred)
    ensures WithLeft(l, k, right, pred, n) == Run([], false) <==> Rejects(l, k, right[..n], pred)
  {
    if n > 0 {
      WithLeftSettles(l, k, right, pred, n - 1);
      assert right[..n] == right[..n - 1] + [right[n - 1]];
    }
  }

  lemma {:induction false} ProductSettles(left: seq<Row>, k: nat, right: seq<Tuple>, pred: Predicate, m: nat)
    requires m <= |left| && Reaches(left, k)
    ensures !Product(left, k, right, pred, m).fault <==> forall i :: 0 <= i < m ==> Settles(left[i], k, right, pred)
  {
    if m > 0 {
      ProductSettles(left, k, right, pred, m - 1);
      WithLeftSettles(left[m - 1], k, right, pred, |right|);
      assert right[..|right|] == right;
    }
  }

  /** A join over a left input that ends well is the filtered product of its
      inputs, and ends well, if and only if no pair faults, and with an empty left
      input every right tuple, if there is any, settles to false on the unset row. */
  lemma JoinIsProduct(left: seq<Row>, width: nat, k: nat, right: seq<Tuple>, pred: Predicate)
    requires k < width && Wide(left, width)
    ensures Reaches(Turns(Run(left, false), width), k) && Reaches(left, k)
    ensures JoinRun(Run(left, false), width, k, right, pred) == Run(Product(left, k, right, pred, |left|).rows,
            false) <==>
            && (forall i :: 0 <= i < |left| ==> Settles(left[i], k, right, pred))
            && (|left| == 0 ==> Rejects(EmptyRow(width), k, right, pred))
  {
    ProductSettles(left, k, right, pred, |left|);
    if |left| == 0 {
      OneTurn(EmptyRow(width), k, right, pred);
      WithLeftSettles(EmptyRow(width), k, right, pred, |right|);
      assert right[..|right|] == right;
    }
  }

  lemma OneTurn(l: Row, k: nat, right: seq<Tuple>, pred: Predicate)
    requires k < |l|
    ensures Product([l], k, right, pred, 1) == WithLeft(l, k, right, pred, |right|)
  {
    assert Product([l], k, right, pred, 0) == Run([], false);
  }

  // ---- The executors ----

  class SeqScan {
    const table: seq<Tuple>
    const index: nat
    var pos: nat

    ghost predicate Valid()
      reads this
    {
      pos <= |table|
    }

    constructor (table: seq<Tuple>, index: nat)
      ensures Valid() && this.table == table && this.index == index
    {
      this.table, this.index, pos := table, index, 0;
    }

    method Open()
      modifies this
      ensures Valid() && pos == 0
    {
      pos := 0;
    }

    method GetNext(row: Row) returns (state: State, row': Row)
      requires Valid() && index < |row|
      modifies this
      ensures Valid()
      ensures state == (if old(pos) < |table| then Ok else Eof)
      ensures state == Ok ==> pos == old(pos) + 1 && row' == row[index := Some(table[old(pos)])]
      ensures state == Eof ==> pos == old(pos) && row' == row
    {
      if pos < |table| {
        state, row', pos := Ok, row[index := Some(table[pos])], pos + 1;
      } else {
        state, row' := Eof, row;
      }
    }
  }

  function ScanRows(table: seq<Tuple>, width: nat): seq<Row>
    requires width > 0
  {
    seq(|table|, i requires 0 <= i < |table| => EmptyRow(width)[0 := Some(table[i])])
  }

  /** Slots past k are unset. */
  ghost predicate Tailed(rows: seq<Row>, width: nat, k: nat) {
    forall i :: 0 <= i < |rows| ==> |rows[i]| == width && forall j :: k < j < width ==> rows[i][j] == None
  }

  lemma ScanTailed(table: seq<Tuple>, width: nat)
    requires width > 0
    ensures Tailed(ScanRows(table, width), width, 0)
  {
    assert forall i :: 0 <= i < |table| ==> ScanRows(table, width)[i] == EmptyRow(width)[0 := Some(table[i])];
  }

  lemma {:induction false} WithLeftTailed(l: Row, k: nat, right: seq<Tuple>, pred: Predicate, n: nat)
    requires k < |l| && n <= |right| && forall j :: k < j < |l| ==> l[j] == None
    ensures Tailed(WithLeft(l, k, right, pred, n).rows, |l|, k)
  {
    if n > 0 {
      WithLeftTailed(l, k, right, pred, n - 1);
    }
  }

  lemma {:induction false} ProductTailed(left: seq<Row>, width: nat, k: nat, right: seq<Tuple>, pred: Predicate, m: nat)
    requires 0 < k < width && m <= |left| && Tailed(left, width, k - 1)
    ensures Tailed(Product(left, k, right, pred, m).rows, width, k)
  {
    if m > 0 {
      ProductTailed(left, width, k, right, pred, m - 1);
      WithLeftTailed(left[m - 1], k, right, pred, |right|);
    }
  }

  lemma JoinTailed(left: Run, width: nat, k: nat, right: seq<Tuple>, pred: Predicate)
    requires 0 < k < width && Tailed(left.rows, width, k - 1)
    ensures Tailed(Turns(left, width), width, k - 1) && Reaches(Turns(left, width), k)
    ensures Tailed(JoinRun(left, width, k, right, pred).rows, width, k)
  {
    ProductTailed(Turns(left, width), width, k, right, pred, |Turns(left, width)|);
  }

  ghost predicate SameBut(r: Row, l: Row, k: nat) {
    |r| == |l| && k < |r| && forall j :: 0 <= j < |r| && j != k ==> r[j] == l[j]
  }

  /** What a join is made of: the left rows it turns through and the right table. */
  datatype Loop = Loop(turns: seq<Row>, width: nat, k: nat, right: seq<Tuple>, pred: Predicate)

  ghost predicate LoopOk(w: Loop) {
    0 < w.k < w.width && Tailed(w.turns, w.width, w.k - 1)
  }

  function LoopRun(w: Loop): Run
    requires LoopOk(w)
  {
    Product(w.turns, w.k, w.right, w.pred, |w.turns|)
  }

  datatype Aspect = Reading | Counting

  ghost predicate AtPlace(a: Aspect, w: Loop, turn: nat, pos: nat, row: Row, sent: nat) {
    && LoopOk(w) && turn < |w.turns| && pos <= |w.right|
    && match a
       case Reading => SameBut(row, w.turns[turn], w.k)
       case Counting =>
         var r := Sent(w.turns, w.k, w.right, w.pred, turn, pos);
         !r.fault && sent == |r.rows|
  }

  /** A join stands at a left row and a place in the right table, no fault so far. */
  ghost predicate At(w: Loop, turn: nat, pos: nat, row: Row, sent: nat) {
    forall a: Aspect :: AtPlace(a, w, turn, pos, row, sent)
  }

  lemma AtParts(w: Loop, turn: nat, pos: nat, row: Row, sent: nat)
    requires At(w, turn, pos, row, sent)
    ensures LoopOk(w) && turn < |w.turns| && pos <= |w.right| && SameBut(row, w.turns[turn], w.k)
    ensures var r := Sent(w.turns, w.k, w.right, w.pred, turn, pos); !r.fault && sent == |r.rows|
                                                                     && r.rows <= LoopRun(w).rows
  {
    assert AtPlace(Reading, w, turn, pos, row, sent) && AtPlace(Counting, w, turn, pos, row, sent);
    SentGoesOn(w.turns, w.k, w.right, w.pred, turn, pos);
  }

  lemma AtFirst(w: Loop, row: Row)
    requires LoopOk(w) && |w.turns| > 0 && SameBut(row, w.turns[0], w.k)
    ensures At(w, 0, 0, row, 0)
  {}

  /** The next right tuple: a row handed out, a row passed over, or the fault. */
  lemma AtRight(w: Loop, turn: nat, pos: nat, row: Row, sent: nat, row': Row)
    requires At(w, turn, pos, row, sent) && w.k < |row| && pos < |w.right| && row' == row[w.k := Some(w.right[pos])]
    ensures LoopOk(w)
    ensures w.pred(row').Settled? ==> At(w, turn, pos + 1, row', if w.pred(row').b then sent + 1 else sent)
    ensures w.pred(row') == Settled(true) ==> sent < |LoopRun(w).rows| && row' == LoopRun(w).rows[sent]
    ensures w.pred(row') == Fault ==> LoopRun(w).fault && sent == |LoopRun(w).rows|
  {
    AtParts(w, turn, pos, row, sent);
    assert row' == w.turns[turn][w.k := Some(w.right[pos])];
    SentNext(w, turn, pos);
    SentGoesOn(w.turns, w.k, w.right, w.pred, turn, pos + 1);
  }

  lemma SentNext(w: Loop, turn: nat, pos: nat)
    requires LoopOk(w) && turn < |w.turns| && pos < |w.right|
    ensures Sent(w.turns, w.k, w.right, w.pred, turn, pos + 1) ==
            Then(Sent(w.turns, w.k, w.right, w.pred, turn, pos), Try(w.pred, w.turns[turn][w.k := Some(w.right[pos])]))
  {
    ThenAssoc(Product(w.turns, w.k, w.right, w.pred, turn), WithLeft(w.turns[turn], w.k, w.right, w.pred, pos),
              Try(w.pred, w.turns[turn][w.k := Some(w.right[pos])]));
  }

  lemma ThenAssoc(p: Run, q: Run, r: Run)
    ensures Then(Then(p, q), r) == Then(p, Then(q, r))
  {
    assert p.rows + q.rows + r.rows == p.rows + (q.rows + r.rows);
  }

  lemma AtLeft(w: Loop, turn: nat, row: Row, sent: nat, row': Row)
    requires At(w, turn, |w.right|, row, sent) && LoopOk(w) && turn + 1 < |w.turns|
    requires row' == w.turns[turn + 1] || (w.k == 1 && 0 < |row| && row' == row[0 := w.turns[turn + 1][0]])
    ensures At(w, turn + 1, 0, row', sent)
  {
    AtParts(w, turn, |w.right|, row, sent);
    assert Product(w.turns, w.k, w.right, w.pred, turn + 1) == Sent(w.turns, w.k, w.right, w.pred, turn, |w.right|);
  }

  lemma AtLast(w: Loop, turn: nat, row: Row, sent: nat)
    requires At(w, turn, |w.right|, row, sent) && LoopOk(w) && turn + 1 == |w.turns|
    ensures sent == |LoopRun(w).rows| && !LoopRun(w).fault
  {
    AtParts(w, turn, |w.right|, row, sent);
    assert Product(w.turns, w.k, w.right, w.pred, turn + 1) == Sent(w.turns, w.k, w.right, w.pred, turn, |w.right|);
  }

  /** A left-deep plan: a scan, or a join of a plan with a scan. */
  class Exec {
    const width: nat
    const scan: SeqScan            // the table, or the right input of the join
    const left: Exec?              // none for a table scan
    const pred: Predicate
    var row: Row
    var leftState: State
    var rightState: State
    ghost const Repr: set<object>
    ghost const run: Run           // what the plan does
    ghost const loop: Loop         // for a join
    ghost var sent: nat            // how many rows it has handed out
    ghost var turn: nat            // the left row at hand

    /** How the plan is put together, which does not change. */
    ghost predicate Built()
      decreases Repr
    {
      && this in Repr && scan in Repr && scan.index < width && Tailed(run.rows, width, scan.index)
      && (left == null ==> scan.index == 0 && run == Run(ScanRows(scan.table, width), false))
      && (left != null ==>
            && left in Repr && left.Repr < Repr && this !in left.Repr && scan !in left.Repr
            && left.Built() && left.width == width && scan.index == left.scan.index + 1
            && loop == Loop(Turns(left.run, width), width, scan.index, scan.table, pred) && LoopOk(loop)
            && run == Then(LoopRun(loop), Run([], left.run.fault)))
    }

    ghost predicate Fresh()
      reads this, Repr
      decreases Repr
    {
      Built() && row == EmptyRow(width) && (left != null ==> left.Fresh())
    }

    ghost predicate JoinAt()
      requires left != null
      reads this, scan, left
    {
      && At(loop, turn, scan.pos, row, sent) && turn < |loop.turns| && scan.Valid() && |row| == width
      && leftState == (if |left.run.rows| > 0 then Ok else Eof)
         && left.sent == (if |left.run.rows| > 0 then turn + 1 else 0)
    }

    ghost predicate JoinDone()
      reads this
    {
      leftState == Eof && rightState == Eof && sent == |run.rows| && !run.fault
    }

    ghost predicate Opened()
      reads this, Repr
      decreases Repr
    {
      && Built()
      && (left == null ==> scan.Valid() && sent == scan.pos)
      && (left != null ==> JoinDone() || (left.Opened() && JoinAt() && rightState == Ok))
    }

    constructor Scan(table: seq<Tuple>, width: nat)
      requires width > 0
      ensures Fresh() && fresh(Repr) && left == null && scan.table == table && this.width == width && scan.index == 0
      ensures run == Run(ScanRows(table, width), false)
    {
      ScanTailed(table, width);
      scan := new SeqScan(table, 0);
      this.width, left, row, leftState, rightState, sent, turn := width, null, EmptyRow(width), Ok, Ok, 0, 0;
      pred := _ => Settled(true);
      run := Run(ScanRows(table, width), false);
      Repr := {this, scan};
    }

    constructor Join(left: Exec, table: seq<Tuple>, pred: Predicate)
      requires left.Fresh() && left.scan.index + 1 < left.width
      ensures Fresh() && fresh(Repr - left.Repr) && this.left == left && scan.table == table && this.pred == pred
      ensures width == left.width && scan.index == left.scan.index + 1
      ensures Reaches(Turns(left.run, width), scan.index) && run == JoinRun(left.run, width, scan.index, table, pred)
    {
      JoinTailed(left.run, left.width, left.scan.index + 1, table, pred);
      ghost var w := Loop(Turns(left.run, left.width), left.width, left.scan.index + 1, table, pred);
      scan := new SeqScan(table, left.scan.index + 1);
      width, this.left, this.pred := left.width, left, pred;
      row, leftState, rightState, sent, turn := EmptyRow(left.width), Ok, Ok, 0, 0;
      loop, run := w, Then(LoopRun(w), Run([], left.run.fault));
      Repr := {this, scan} + left.Repr;
    }

    /** Opening a join reads its first left row, and so may already fault. */
    method Open() returns (ok: bool)
      requires Fresh()
      modifies Repr
      ensures ok ==> Opened() && sent == 0
      ensures !ok ==> run == Run([], true)
      decreases Repr, 3
    {
      if left == null {
        scan.Open();
        sent := 0;
        ok := true;
      } else {
        ok := OpenJoin();
      }
    }

    method OpenJoin() returns (ok: bool)
      requires Fresh() && left != null
      modifies Repr
      ensures ok ==> left.Opened() && JoinAt() && rightState == Ok && sent == 0
      ensures !ok ==> run == Run([], true)
      decreases Repr, 2
    {
      ok := left.Open();
      if !ok {
        NoTurn();
        return;
      }
      scan.Open();
      ok := FirstLeft();
      rightState := Ok;
    }

    method FirstLeft() returns (ok: bool)
      requires Built() && left != null && left.Opened() && left.sent == 0 && scan.pos == 0 && row == EmptyRow(width)
      modifies left.Repr, this`leftState, this`row, this`turn, this`sent
      ensures ok ==> left.Opened() && JoinAt() && sent == 0
      ensures !ok ==> run == Run([], true)
      decreases Repr, 1
    {
      leftState, row := left.GetNext(row);
      ok := leftState != Aborted;
      if ok {
        FirstRow(row);
        turn, sent := 0, 0;
      } else {
        NoTurn();
      }
    }

    /** A left input that faults before its first row. */
    lemma NoTurn()
      requires Built() && left != null && left.run == Run([], true)
      ensures run == Run([], true)
    {}

    /** The row at hand after the first read from the left. */
    lemma FirstRow(r: Row)
      requires Built() && left != null && (|left.run.rows| == 0 ==> !left.run.fault)
      requires r == if |left.run.rows| == 0 then EmptyRow(width)
                    else if left.left == null then EmptyRow(width)[0 := left.run.rows[0][0]] else left.run.rows[0]
      ensures |loop.turns| > 0 && At(loop, 0, 0, r, 0)
    {
      assert SameBut(r, loop.turns[0], loop.k);
      AtFirst(loop, r);
    }

    lemma NextRow(turn: nat, r: Row, r': Row, sent: nat)
      requires Built() && left != null && At(loop, turn, |scan.table|, r, sent) && turn + 1 < |left.run.rows|
               && |r| == width
      requires r' == if left.left == null then r[0 := left.run.rows[turn + 1][0]] else left.run.rows[turn + 1]
      ensures At(loop, turn + 1, 0, r', sent)
    {
      AtLeft(loop, turn, r, sent, r');
    }

    lemma NoNextRow(turn: nat, r: Row, sent: nat)
      requires Built() && left != null && At(loop, turn, |scan.table|, r, sent) && turn + 1 == |loop.turns|
      ensures sent == |run.rows| && run.fault == left.run.fault
    {
      AtLast(loop, turn, r, sent);
    }

    /** Row by row, and then the end for good, or the fault. */
    method GetNext(buffer: Row) returns (state: State, out: Row)
      requires Opened() && |buffer| == width
      modifies Repr
      ensures state == (if old(sent) < |run.rows| then Ok else if run.fault then Aborted else Eof)
      ensures state == Ok ==> Opened() && sent == old(sent) + 1
      ensures state == Ok ==> out == if left == null then buffer[0 := run.rows[old(sent)][0]] else run.rows[old(sent)]
      ensures state == Ok && (left == null ==> width == 1) ==> out == run.rows[old(sent)] && |out| == width
      ensures state == Eof ==> Opened() && sent == old(sent) && out == buffer
      decreases Repr, 3
    {
      if left == null {
        ScanRow();
        state, out := scan.GetNext(buffer);
        if state == Ok {
          sent := sent + 1;
        }
      } else {
        state := JoinNext();
        out := if state == Ok then row else buffer;
      }
    }

    lemma ScanRow()
      requires Built() && left == null
      ensures |run.rows| == |scan.table| && forall i :: 0 <= i < |run.rows| ==>
              |run.rows[i]| == width && run.rows[i][0] == Some(scan.table[i])
    {
      forall i | 0 <= i < |run.rows| ensures |run.rows[i]| == width && run.rows[i][0] == Some(scan.table[i]) {
        assert run.rows[i] == EmptyRow(width)[0 := Some(scan.table[i])];
      }
    }

    /** The loop of NestedLoopJoin::GetNext. */
    method JoinNext() returns (state: State)
      requires Opened() && left != null
      modifies Repr
      ensures state == (if old(sent) < |run.rows| then Ok else if run.fault then Aborted else Eof)
      ensures state == Ok ==> Opened() && sent == old(sent) + 1 && row == run.rows[old(sent)]
      ensures state == Eof ==> Opened() && sent == old(sent)
      decreases Repr, 2
    {
      while true
        invariant Opened() && sent == old(sent) && (JoinDone() || JoinAt())
        decreases if JoinDone() then 0 else 1, |loop.turns| - turn, |scan.table| - scan.pos
      {
        if leftState == Eof && rightState == Eof {
          FinishedIsDone();
          return Eof;
        }
        state := RightRow();
        if state == Ok || state == Aborted {
          return;
        }
        if rightState == Eof {
          state := LeftRow();
          if state != Ok {
            return;
          }
        }
      }
    }

    lemma FinishedIsDone()
      requires Opened() && left != null && leftState == Eof && rightState == Eof
      ensures JoinDone()
    {}

    /** One right tuple, if there is one: Ok when its row passes, Eof when there is
        no row to hand out yet. */
    method RightRow() returns (state: State)
      requires Built() && left != null && JoinAt()
      modifies this`row, this`rightState, this`sent, scan
      ensures rightState == (if old(scan.pos) < |scan.table| then Ok else Eof)
      ensures state == Aborted ==> rightState == Ok && old(sent) == |run.rows| && run.fault
      ensures state != Aborted ==> JoinAt() && scan.pos == old(scan.pos) + (if rightState == Ok then 1 else 0)
      ensures state == Ok ==> rightState == Ok && old(sent) < |run.rows| && row == run.rows[old(sent)]
                              && sent == old(sent) + 1
      ensures state == Eof ==> sent == old(sent)
    {
      ghost var row0, pos0 := row, scan.pos;
      rightState, row := scan.GetNext(row);
      state := Eof;
      if rightState == Ok {
        AtRight(loop, turn, pos0, row0, sent, row);
        var truth := pred(row);
        if truth == Fault {
          return Aborted;
        }
        if truth.b {
          state, sent := Ok, sent + 1;
        }
      }
    }

    /** The next left row goes into the row buffer. */
    method PullLeft() returns (state: State)
      requires Built() && left != null && left.Opened() && JoinAt() && rightState == Eof && scan.pos == |scan.table|
      modifies this`row, this`leftState, left.Repr
      ensures leftState == state
      ensures state == Ok ==> left.Opened() && At(loop, turn + 1, 0, row, sent) && turn + 1 < |loop.turns|
                              && |row| == width
      ensures state == Ok ==> |left.run.rows| > 0 && left.sent == turn + 2
      ensures state == Eof ==> sent == |run.rows| && !run.fault
      ensures state == Aborted ==> sent == |run.rows| && run.fault
      decreases Repr, 0
    {
      ghost var row0, n := row, left.sent;
      assert n < |left.run.rows| <==> turn + 1 < |left.run.rows|;
      leftState, row := left.GetNext(row);
      state := leftState;
      if state == Ok {
        NextRow(turn, row0, row, sent);
      } else {
        NoNextRow(turn, row0, sent);
      }
    }

    /** The right table is at its end: the next left row, the end of the join, or
        the left input's fault. */
    method LeftRow() returns (state: State)
      requires Built() && left != null && left.Opened() && JoinAt() && rightState == Eof && scan.pos == |scan.table|
      modifies Repr
      ensures state == Ok ==> left.Opened() && JoinAt() && rightState == Ok && turn == old(turn) + 1
                              && sent == old(sent)
      ensures state == Eof ==> JoinDone() && sent == old(sent)
      ensures state == Aborted ==> old(sent) == |run.rows| && run.fault
      decreases Repr, 1
    {
      state := PullLeft();
      if state == Ok {
        Rewind();
      }
    }

    /** The right table from its start again. */
    method Rewind()
      requires Built() && left != null && left.Opened() && At(loop, turn + 1, 0, row, sent) && turn + 1 < |loop.turns|
               && |row| == width
      requires leftState == Ok && |left.run.rows| > 0 && left.sent == turn + 2
      modifies this`rightState, this`turn, scan
      ensures left.Opened() && JoinAt() && rightState == Ok && turn == old(turn) + 1
    {
      scan.Open();
      rightState := Ok;
      turn := turn + 1;
    }
  }

  // ---- Selection ----

  /** The first n rows put to a predicate. */
  function Kept(rows: seq<Row>, pred: Predicate, n: nat): Run
    requires n <= |rows|
  {
    if n == 0 then Run([], false) else Then(Kept(rows, pred, n - 1), Try(pred, rows[n - 1]))
  }

  lemma {:induction false} KeptGoesOn(rows: seq<Row>, pred: Predicate, n: nat, n': nat)
    requires n <= n' <= |rows|
    ensures GoesOn(Kept(rows, pred, n), Kept(rows, pred, n'))
  {
    if n < n' {
      KeptGoesOn(rows, pred, n, n' - 1);
    }
  }

  /** What a selection over a plan does. */
  function SelectRun(run: Run, pred: Predicate): Run {
    Then(Kept(run.rows, pred, |run.rows|), Run([], run.fault))
  }

  /** What the next row does to a selection. */
  lemma Considered(run: Run, pred: Predicate, i: nat)
    requires i <= |run.rows| && !Kept(run.rows, pred, i).fault
    ensures i == |run.rows| ==> SelectRun(run, pred) == Run(Kept(run.rows, pred, i).rows, run.fault)
    ensures i < |run.rows| ==>
              match pred(run.rows[i])
              case Fault => SelectRun(run, pred) == Run(Kept(run.rows, pred, i).rows, true)
              case Settled(b) =>
                Kept(run.rows, pred, i + 1)
                == Run(Kept(run.rows, pred, i).rows + (if b then [run.rows[i]] else []), false)
  {
    if i < |run.rows| {
      assert Kept(run.rows, pred, i + 1) == Then(Kept(run.rows, pred, i), Try(pred, run.rows[i]));
      KeptGoesOn(run.rows, pred, i + 1, |run.rows|);
    }
  }

  class Select {
    const left: Exec
    const pred: Predicate

    constructor (left: Exec, pred: Predicate)
      ensures this.left == left && this.pred == pred
    {
      this.left, this.pred := left, pred;
    }

    ghost predicate Valid()
      reads left, left.Repr
    {
      && left.Opened() && left.sent <= |left.run.rows| && (left.left == null ==> left.width == 1)
      && !Kept(left.run.rows, pred, left.sent).fault
    }

    method Open() returns (ok: bool)
      requires left.Fresh() && (left.left == null ==> left.width == 1)
      modifies left.Repr
      ensures ok ==> Valid() && left.sent == 0
      ensures !ok ==> SelectRun(left.run, pred) == Run([], true)
    {
      ok := left.Open();
    }

    /** The next row that passes, the end when no more does, or the fault. */
    method GetNext(buffer: Row) returns (state: State, out: Row)
      requires Valid() && |buffer| == left.width
      modifies left.Repr
      ensures var before := old(Kept(left.run.rows, pred, left.sent)).rows;
              && (state == Ok ==> Valid() && left.sent > old(left.sent) && |out| == left.width
                                  && Kept(left.run.rows, pred, left.sent).rows == before + [out])
              && (state == Eof ==> SelectRun(left.run, pred) == Run(before, false))
              && (state == Aborted ==> SelectRun(left.run, pred) == Run(before, true))
    {
      out := buffer;
      ghost var before := Kept(left.run.rows, pred, left.sent);
      state := Ok;
      var passed := false;
      while !passed
        invariant Valid() && old(left.sent) <= left.sent && |out| == left.width
        invariant !passed ==> Kept(left.run.rows, pred, left.sent) == before
        invariant passed ==> state == Ok && left.sent > old(left.sent)
                             && Kept(left.run.rows, pred, left.sent).rows == before.rows + [out]
        decreases !passed, |left.run.rows| - left.sent
      {
        state, out, passed := Consider(out);
        if state != Ok {
          return;
        }
      }
    }

    /** One row of the plan put to the predicate. */
    method Consider(buffer: Row) returns (state: State, out: Row, passed: bool)
      requires Valid() && |buffer| == left.width
      modifies left.Repr
      ensures var before := old(Kept(left.run.rows, pred, left.sent)).rows;
              && (state == Ok ==> Valid() && left.sent == old(left.sent) + 1 && |out| == left.width)
              && (state == Ok ==> Kept(left.run.rows, pred, left.sent) == Run(before + (if passed then [out] else []),
                                  false))
              && (state == Eof ==> SelectRun(left.run, pred) == Run(before, false))
              && (state == Aborted ==> SelectRun(left.run, pred) == Run(before, true))
    {
      Considered(left.run, pred, left.sent);
      passed := false;
      state, out := left.GetNext(buffer);
      if state == Ok {
        var truth := pred(out);
        if truth == Fault {
          state := Aborted;
        } else {
          passed := truth.b;
        }
      }
    }

    /** The plan run to its end or its fault, as ExecSelect does. */
    method Drain() returns (result: Run)
      requires left.Fresh() && (left.left == null ==> left.width == 1)
      modifies left.Repr
      ensures result == SelectRun(left.run, pred)
    {
      var ok := Open();
      if !ok {
        return Run([], true);
      }
      var rows := [];
      var row := EmptyRow(left.width);
      while true
        invariant Valid() && |row| == left.width && rows == Kept(left.run.rows, pred, left.sent).rows
        decreases |left.run.rows| - left.sent
      {
        var state;
        state, row := GetNext(row);
        if state != Ok {
          return Run(rows, state == Aborted);
        }
        rows := rows + [row];
      }
    }
  }

  /** Without a WHERE there is no selection: the plan itself run to its end. */
  method RunPlan(e: Exec) returns (result: Run)
    requires e.Fresh() && (e.left == null ==> e.width == 1)
    modifies e.Repr
    ensures result == e.run
  {
    var ok := e.Open();
    if !ok {
      return Run([], true);
    }
    var rows := [];
    var row := EmptyRow(e.width);
    while true
      invariant e.Opened() && |row| == e.width && e.sent <= |e.run.rows| && rows == e.run.rows[..e.sent]
      decreases |e.run.rows| - e.sent
    {
      var state;
      ghost var i := e.sent;
      state, row := e.GetNext(row);
      if state != Ok {
        assert e.run.rows[..i] == e.run.rows;
        return Run(rows, state == Aborted);
      }
      rows := rows + [row];
    }
  }
}
