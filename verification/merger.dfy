/** MergingIterator: one cursor over the sorted merge of several sorted runs,
    across changes of direction. */
module Merger {
  import opened Mvcc
  import opened Levels

  // ---- The merge ----

  ghost predicate InRuns(runs: seq<seq<Entry>>, e: Entry) {
    exists c, i :: 0 <= c < |runs| && 0 <= i < |runs[c]| && runs[c][i] == e
  }

  /** The children: sorted, and no key in two of them. */
  ghost predicate RunsOk(runs: seq<seq<Entry>>) {
    && (forall c :: 0 <= c < |runs| ==> SortedEntries(runs[c]))
    && (forall c, d, i, j :: 0 <= c < |runs| && 0 <= d < |runs| && c != d && 0 <= i < |runs[c]|
                             && 0 <= j < |runs[d]| ==>
          KeyOf(runs[c][i]) != KeyOf(runs[d][j]))
  }

  datatype Bound = Unbounded | AtLeast(key: InternalKey) | Beyond(key: InternalKey)

  predicate Above(b: Bound, e: Entry) {
    match b
    case Unbounded => true
    case AtLeast(k) => !Before(KeyOf(e), k)
    case Beyond(k) => Before(k, KeyOf(e))
  }

  predicate Below(b: Bound, e: Entry) {
    match b
    case Unbounded => true
    case AtLeast(k) => !Before(k, KeyOf(e))
    case Beyond(k) => Before(KeyOf(e), k)
  }

  /** e is the least entry of the merge above the bound, if there is one. */
  ghost predicate IsLeast(runs: seq<seq<Entry>>, b: Bound, found: bool, e: Entry) {
    if found then InRuns(runs, e) && Above(b, e) && forall d :: InRuns(runs, d) && Above(b, d) ==>
        !Before(KeyOf(d), KeyOf(e))
    else forall d :: InRuns(runs, d) ==> !Above(b, d)
  }

  ghost predicate IsGreatest(runs: seq<seq<Entry>>, b: Bound, found: bool, e: Entry) {
    if found then InRuns(runs, e) && Below(b, e) && forall d :: InRuns(runs, d) && Below(b, d) ==>
        !Before(KeyOf(e), KeyOf(d))
    else forall d :: InRuns(runs, d) ==> !Below(b, d)
  }

  /** The merged sequence the children stand for. */
  ghost predicate IsMerge(runs: seq<seq<Entry>>, merged: seq<Entry>) {
    SortedEntries(merged) && forall e {:trigger InRuns(runs, e)} :: e in merged <==> InRuns(runs, e)
  }

  /** Being least beyond the i-th entry is being the next of the merge, and
      greatest before it the previous. */
  lemma CursorMoves(runs: seq<seq<Entry>>, merged: seq<Entry>, i: nat, found: bool, e: Entry)
    requires IsMerge(runs, merged) && i < |merged|
    ensures IsLeast(runs, Beyond(KeyOf(merged[i])), found, e) ==> found == (i + 1 < |merged|)
                                                                  && (found ==> e == merged[i + 1])
    ensures IsGreatest(runs, Beyond(KeyOf(merged[i])), found, e) ==> found == (i > 0) && (found ==> e == merged[i - 1])
  {
    if i + 1 < |merged| {
      assert InRuns(runs, merged[i + 1]);
    }
    if i > 0 {
      assert InRuns(runs, merged[i - 1]);
    }
    if found && InRuns(runs, e) {
      var j :| 0 <= j < |merged| && merged[j] == e;
    }
  }

  lemma CursorEnds(runs: seq<seq<Entry>>, merged: seq<Entry>, found: bool, e: Entry)
    requires IsMerge(runs, merged)
    ensures IsLeast(runs, Unbounded, found, e) ==> found == (|merged| > 0) && (found ==> e == merged[0])
    ensures IsGreatest(runs, Unbounded, found, e) ==> found == (|merged| > 0) && (found ==> e == merged[|merged| - 1])
  {
    if |merged| > 0 {
      assert InRuns(runs, merged[0]) && InRuns(runs, merged[|merged| - 1]);
    }
    if found && InRuns(runs, e) {
      var j :| 0 <= j < |merged| && merged[j] == e;
    }
  }

  /** Seeking lands where the flat sorted sequence would. */
  lemma CursorSeek(runs: seq<seq<Entry>>, merged: seq<Entry>, t: InternalKey, found: bool, e: Entry)
    requires IsMerge(runs, merged)
    ensures IsLeast(runs, AtLeast(t), found, e) ==>
              found == (LowerBound(merged, t) < |merged|) && (found ==> e == merged[LowerBound(merged, t)])
  {
    var i := LowerBound(merged, t);
    if i < |merged| {
      assert InRuns(runs, merged[i]);
    }
    if found && InRuns(runs, e) {
      var j :| 0 <= j < |merged| && merged[j] == e;
    }
  }

  // ---- Positions of the children ----

  /** A forward cut: entries before p are below the bound, the rest above. */
  predicate CutUp(run: seq<Entry>, p: nat, b: Bound) {
    p <= |run| && (forall j :: 0 <= j < p ==> !Above(b, run[j])) && (forall j :: p <= j < |run| ==> Above(b, run[j]))
  }

  /** One past a backward position; |run| stands for "not valid". */
  function Behind(run: seq<Entry>, p: nat): nat {
    if p < |run| then p + 1 else 0
  }

  predicate CutDown(run: seq<Entry>, p: nat, b: Bound) {
    && p <= |run|
    && (forall j :: 0 <= j < Behind(run, p) ==> Below(b, run[j]))
    && (forall j :: Behind(run, p) <= j < |run| ==> !Below(b, run[j]))
  }

  ghost predicate AllCutUp(runs: seq<seq<Entry>>, pos: seq<nat>, b: Bound) {
    |pos| == |runs| && forall c :: 0 <= c < |runs| ==> CutUp(runs[c], pos[c], b)
  }

  ghost predicate AllCutDown(runs: seq<seq<Entry>>, pos: seq<nat>, b: Bound) {
    |pos| == |runs| && forall c :: 0 <= c < |runs| ==> CutDown(runs[c], pos[c], b)
  }

  /** e is below none of the items of the first n children. */
  predicate Smallest(runs: seq<seq<Entry>>, pos: seq<nat>, n: nat, e: Entry)
    requires n <= |runs| == |pos|
  {
    forall c :: 0 <= c < n && pos[c] < |runs[c]| ==> !Before(KeyOf(runs[c][pos[c]]), KeyOf(e))
  }

  predicate Largest(runs: seq<seq<Entry>>, pos: seq<nat>, from: nat, e: Entry)
    requires from <= |runs| == |pos|
  {
    forall c :: from <= c < |runs| && pos[c] < |runs[c]| ==> !Before(KeyOf(e), KeyOf(runs[c][pos[c]]))
  }

  /** FindSmallest over children cut at the bound finds the least entry above. */
  lemma SmallestIsLeast(runs: seq<seq<Entry>>, pos: seq<nat>, b: Bound, cur: nat)
    requires RunsOk(runs) && AllCutUp(runs, pos, b) && cur <= |runs|
    requires cur < |runs| ==> pos[cur] < |runs[cur]| && Smallest(runs, pos, |runs|, runs[cur][pos[cur]])
    requires cur == |runs| ==> forall c :: 0 <= c < |runs| ==> pos[c] == |runs[c]|
    ensures cur < |runs| ==> IsLeast(runs, b, true, runs[cur][pos[cur]])
    ensures cur == |runs| ==> forall e :: IsLeast(runs, b, false, e)
  {
    if cur < |runs| {
      var e := runs[cur][pos[cur]];
      forall d | InRuns(runs, d) && Above(b, d) ensures !Before(KeyOf(d), KeyOf(e)) {
        var c, i :| 0 <= c < |runs| && 0 <= i < |runs[c]| && runs[c][i] == d;
        assert CutUp(runs[c], pos[c], b);
        assert i >= pos[c];
        assert i == pos[c] || Before(KeyOf(runs[c][pos[c]]), KeyOf(runs[c][i]));
      }
      assert CutUp(runs[cur], pos[cur], b);
    } else {
      forall d | InRuns(runs, d) ensures !Above(b, d) {
        var c, i :| 0 <= c < |runs| && 0 <= i < |runs[c]| && runs[c][i] == d;
        assert CutUp(runs[c], pos[c], b);
      }
    }
  }

  lemma LargestIsGreatest(runs: seq<seq<Entry>>, pos: seq<nat>, b: Bound, cur: nat)
    requires RunsOk(runs) && AllCutDown(runs, pos, b) && cur <= |runs|
    requires cur < |runs| ==> pos[cur] < |runs[cur]| && Largest(runs, pos, 0, runs[cur][pos[cur]])
    requires cur == |runs| ==> forall c :: 0 <= c < |runs| ==> pos[c] == |runs[c]|
    ensures cur < |runs| ==> IsGreatest(runs, b, true, runs[cur][pos[cur]])
    ensures cur == |runs| ==> forall e :: IsGreatest(runs, b, false, e)
  {
    if cur < |runs| {
      var e := runs[cur][pos[cur]];
      forall d | InRuns(runs, d) && Below(b, d) ensures !Before(KeyOf(e), KeyOf(d)) {
        var c, i :| 0 <= c < |runs| && 0 <= i < |runs[c]| && runs[c][i] == d;
        assert CutDown(runs[c], pos[c], b);
        assert i < Behind(runs[c], pos[c]);
        assert i == pos[c] || Before(KeyOf(runs[c][i]), KeyOf(runs[c][pos[c]]));
      }
      assert CutDown(runs[cur], pos[cur], b);
    } else {
      forall d | InRuns(runs, d) ensures !Below(b, d) {
        var c, i :| 0 <= c < |runs| && 0 <= i < |runs[c]| && runs[c][i] == d;
        assert CutDown(runs[c], pos[c], b);
      }
    }
  }

  /** Cutting at the least entry found instead of at the bound. */
  lemma CutAtFound(runs: seq<seq<Entry>>, pos: seq<nat>, b: Bound, cur: nat)
    requires RunsOk(runs) && AllCutUp(runs, pos, b) && cur < |runs| && pos[cur] < |runs[cur]|
    requires IsLeast(runs, b, true, runs[cur][pos[cur]])
    ensures AllCutUp(runs, pos, AtLeast(KeyOf(runs[cur][pos[cur]])))
  {
    var k := KeyOf(runs[cur][pos[cur]]);
    forall c | 0 <= c < |runs| ensures CutUp(runs[c], pos[c], AtLeast(k)) {
      assert CutUp(runs[c], pos[c], b) && CutUp(runs[cur], pos[cur], b);
      forall j | 0 <= j < pos[c] ensures Before(KeyOf(runs[c][j]), k) {
        assert !Above(b, runs[c][j]) && Above(b, runs[cur][pos[cur]]);
      }
      forall j | pos[c] <= j < |runs[c]| ensures !Before(KeyOf(runs[c][j]), k) {
        assert InRuns(runs, runs[c][j]);
      }
    }
  }

  lemma CutAtFoundDown(runs: seq<seq<Entry>>, pos: seq<nat>, b: Bound, cur: nat)
    requires RunsOk(runs) && AllCutDown(runs, pos, b) && cur < |runs| && pos[cur] < |runs[cur]|
    requires IsGreatest(runs, b, true, runs[cur][pos[cur]])
    ensures AllCutDown(runs, pos, AtLeast(KeyOf(runs[cur][pos[cur]])))
  {
    var k := KeyOf(runs[cur][pos[cur]]);
    forall c | 0 <= c < |runs| ensures CutDown(runs[c], pos[c], AtLeast(k)) {
      assert CutDown(runs[c], pos[c], b) && CutDown(runs[cur], pos[cur], b);
      forall j | 0 <= j < Behind(runs[c], pos[c]) ensures !Before(k, KeyOf(runs[c][j])) {
        assert InRuns(runs, runs[c][j]);
      }
      forall j | Behind(runs[c], pos[c]) <= j < |runs[c]| ensures Before(k, KeyOf(runs[c][j])) {
        assert !Below(b, runs[c][j]) && Below(b, runs[cur][pos[cur]]);
      }
    }
  }

  /** Two entries of different children never compare equal. */
  lemma Apart(runs: seq<seq<Entry>>, c: nat, i: nat, d: nat, j: nat)
    requires RunsOk(runs) && c < |runs| && d < |runs| && i < |runs[c]| && j < |runs[d]|
    requires c != d || i != j
    ensures Differ(KeyOf(runs[c][i]), KeyOf(runs[d][j]))
  {
    if c == d {
      assert SortedEntries(runs[c]);
    } else {
      assert KeyOf(runs[c][i]) != KeyOf(runs[d][j]);
    }
  }

  /** After the current child steps on, every child is past the old key. */
  lemma StepUp(runs: seq<seq<Entry>>, pos: seq<nat>, cur: nat)
    requires RunsOk(runs) && cur < |runs| && |pos| == |runs| && pos[cur] < |runs[cur]|
    requires AllCutUp(runs, pos, AtLeast(KeyOf(runs[cur][pos[cur]])))
    ensures AllCutUp(runs, pos[cur := pos[cur] + 1], Beyond(KeyOf(runs[cur][pos[cur]])))
  {
    var k := KeyOf(runs[cur][pos[cur]]);
    var pos' := pos[cur := pos[cur] + 1];
    forall c | 0 <= c < |runs| ensures CutUp(runs[c], pos'[c], Beyond(k)) {
      assert CutUp(runs[c], pos[c], AtLeast(k));
      forall j | pos'[c] <= j < |runs[c]| ensures Before(k, KeyOf(runs[c][j])) {
        Apart(runs, cur, pos[cur], c, j);
      }
    }
  }

  lemma StepDown(runs: seq<seq<Entry>>, pos: seq<nat>, cur: nat)
    requires RunsOk(runs) && cur < |runs| && |pos| == |runs| && pos[cur] < |runs[cur]|
    requires AllCutDown(runs, pos, AtLeast(KeyOf(runs[cur][pos[cur]])))
    ensures AllCutDown(runs, pos[cur := if pos[cur] == 0 then |runs[cur]| else pos[cur] - 1],
            Beyond(KeyOf(runs[cur][pos[cur]])))
  {
    var k := KeyOf(runs[cur][pos[cur]]);
    var pos' := pos[cur := if pos[cur] == 0 then |runs[cur]| else pos[cur] - 1];
    forall c | 0 <= c < |runs| ensures CutDown(runs[c], pos'[c], Beyond(k)) {
      assert CutDown(runs[c], pos[c], AtLeast(k));
      forall j | 0 <= j < Behind(runs[c], pos'[c]) ensures Before(KeyOf(runs[c][j]), k) {
        Apart(runs, cur, pos[cur], c, j);
      }
      if c == cur {
        forall j | pos[cur] < j < |runs[c]| ensures !Before(KeyOf(runs[c][j]), k) {
          assert SortedEntries(runs[c]);
        }
      }
    }
  }

  // ---- The iterator ----

  datatype Part = Children | Others

  class MergingIterator {
    const runs: seq<seq<Entry>>     // what each child iterates over
    var pos: seq<nat>               // each child's position; its length when not valid
    var current: nat                // the child that has the key; |runs| for NULL
    var forward: bool

    constructor (runs: seq<seq<Entry>>)
      requires RunsOk(runs)
      ensures Consistent() && !Valid() && this.runs == runs
    {
      this.runs := runs;
      pos := seq(|runs|, i requires 0 <= i < |runs| => |runs[i]|);
      current, forward := |runs|, true;
    }

    predicate Valid()
      reads this
    {
      current < |runs|
    }

    /** The key is the current child's. */
    predicate Shaped()
      reads this
    {
      |pos| == |runs| && current <= |runs| && (current < |runs| ==> pos[current] < |runs[current]|)
    }

    /** The others stand just past it in the direction of travel. */
    ghost predicate Placed(part: Part)
      requires Shaped()
      reads this
    {
      match part
      case Children => RunsOk(runs) && forall c :: 0 <= c < |runs| ==> pos[c] <= |runs[c]|
      case Others =>
        && (Valid() && forward ==> AllCutUp(runs, pos, AtLeast(Key())))
        && (Valid() && !forward ==> AllCutDown(runs, pos, AtLeast(Key())))
    }

    ghost predicate Consistent()
      reads this
    {
      Shaped() && forall part: Part :: Placed(part)
    }

    lemma Parts()
      requires Consistent()
      ensures Placed(Children) && Placed(Others)
    {}

    function Item(): Entry
      requires Valid() && |pos| == |runs| && pos[current] < |runs[current]|
      reads this
    {
      runs[current][pos[current]]
    }

    function Key(): InternalKey
      requires Valid() && |pos| == |runs| && pos[current] < |runs[current]|
      reads this
    {
      KeyOf(Item())
    }

    method FindSmallest(ghost b: Bound)
      requires RunsOk(runs) && AllCutUp(runs, pos, b)
      modifies this`current
      ensures current <= |runs| && (Valid() ==> pos[current] < |runs[current]|)
      ensures Valid() ==> IsLeast(runs, b, true, Item()) && AllCutUp(runs, pos, AtLeast(Key()))
      ensures !Valid() ==> forall e :: IsLeast(runs, b, false, e)
    {
      var smallest: nat := |runs|;
      for i := 0 to |runs|
        invariant smallest < i || smallest == |runs|
        invariant smallest == |runs| ==> forall c :: 0 <= c < i ==> pos[c] == |runs[c]|
        invariant smallest < |runs| ==> pos[smallest] < |runs[smallest]|
                                        && Smallest(runs, pos, i, runs[smallest][pos[smallest]])
      {
        assert CutUp(runs[i], pos[i], b);
        if pos[i] < |runs[i]| {
          if smallest == |runs| {
            smallest := i;
          } else if Before(KeyOf(runs[i][pos[i]]), KeyOf(runs[smallest][pos[smallest]])) {
            smallest := i;
          }
        }
      }
      SmallestIsLeast(runs, pos, b, smallest);
      if smallest < |runs| {
        CutAtFound(runs, pos, b, smallest);
      }
      current := smallest;
    }

    method FindLargest(ghost b: Bound)
      requires RunsOk(runs) && AllCutDown(runs, pos, b)
      modifies this`current
      ensures current <= |runs| && (Valid() ==> pos[current] < |runs[current]|)
      ensures Valid() ==> IsGreatest(runs, b, true, Item()) && AllCutDown(runs, pos, AtLeast(Key()))
      ensures !Valid() ==> forall e :: IsGreatest(runs, b, false, e)
    {
      var largest: nat := |runs|;
      for i := |runs| downto 0
        invariant i <= largest <= |runs|
        invariant largest == |runs| ==> forall c :: i <= c < |runs| ==> pos[c] == |runs[c]|
        invariant largest < |runs| ==> pos[largest] < |runs[largest]|
                                       && Largest(runs, pos, i, runs[largest][pos[largest]])
      {
        assert CutDown(runs[i], pos[i], b);
        if pos[i] < |runs[i]| {
          if largest == |runs| {
            largest := i;
          } else if Before(KeyOf(runs[largest][pos[largest]]), KeyOf(runs[i][pos[i]])) {
            largest := i;
          }
        }
      }
      LargestIsGreatest(runs, pos, b, largest);
      if largest < |runs| {
        CutAtFoundDown(runs, pos, b, largest);
      }
      current := largest;
    }

    method SeekToFirst()
      requires Consistent()
      modifies this
      ensures Consistent()
      ensures IsLeast(runs, Unbounded, Valid(), if Valid() then Item() else NONE)
    {
      Parts();
      pos := seq(|runs|, i requires 0 <= i < |runs| => 0);
      FindSmallest(Unbounded);
      forward := true;
    }

    method SeekToLast()
      requires Consistent()
      modifies this
      ensures Consistent()
      ensures IsGreatest(runs, Unbounded, Valid(), if Valid() then Item() else NONE)
    {
      Parts();
      pos := seq(|runs|, i requires 0 <= i < |runs| => if |runs[i]| == 0 then 0 else |runs[i]| - 1);
      FindLargest(Unbounded);
      forward := false;
    }

    method Seek(target: InternalKey)
      requires Consistent()
      modifies this
      ensures Consistent()
      ensures IsLeast(runs, AtLeast(target), Valid(), if Valid() then Item() else NONE)
    {
      Parts();
      pos := seq(|runs|, i requires 0 <= i < |runs| => LowerBound(runs[i], target));
      forall c | 0 <= c < |runs| ensures CutUp(runs[c], pos[c], AtLeast(target)) {
        SeekCuts(runs[c], target);
      }
      FindSmallest(AtLeast(target));
      forward := true;
    }

    method Next()
      requires Consistent() && Valid()
      modifies this
      ensures Consistent()
      ensures IsLeast(runs, Beyond(old(Key())), Valid(), if Valid() then Item() else NONE)
    {
      ghost var k := Key();
      if !forward {
        TurnForward();
      }
      Parts();
      StepUp(runs, pos, current);
      pos := pos[current := pos[current] + 1];
      FindSmallest(Beyond(k));
    }

    method Prev()
      requires Consistent() && Valid()
      modifies this
      ensures Consistent()
      ensures IsGreatest(runs, Beyond(old(Key())), Valid(), if Valid() then Item() else NONE)
    {
      ghost var k := Key();
      if forward {
        TurnBackward();
      }
      Parts();
      StepDown(runs, pos, current);
      pos := pos[current := if pos[current] == 0 then |runs[current]| else pos[current] - 1];
      FindLargest(Beyond(k));
    }

    /** Position every other child after the key. */
    method TurnForward()
      requires Consistent() && Valid() && !forward
      modifies this
      ensures Consistent() && forward && current == old(current) && Valid() && Item() == old(Item())
    {
      Parts();
      ghost var k := Key();
      var key := Key();
      for i := 0 to |runs|
        invariant current == old(current) && |pos| == |runs| && pos[current] == old(pos)[current]
        invariant forall c :: 0 <= c < i && c != current ==> CutUp(runs[c], pos[c], AtLeast(k))
      {
        if i != current {
          var p := LowerBound(runs[i], key);
          SeekCuts(runs[i], key);
          if p < |runs[i]| && KeyOf(runs[i][p]) == key {
            p := p + 1;
          }
          NeverEqual(runs, i, current, pos[current]);
          pos := pos[i := p];
        }
      }
      CurrentCuts(runs[current], pos[current]);
      forward := true;
    }

    /** Position every other child before the key. */
    method TurnBackward()
      requires Consistent() && Valid() && forward
      modifies this
      ensures Consistent() && !forward && current == old(current) && Valid() && Item() == old(Item())
    {
      Parts();
      ghost var k := Key();
      var key := Key();
      for i := 0 to |runs|
        invariant current == old(current) && |pos| == |runs| && pos[current] == old(pos)[current]
        invariant forall c :: 0 <= c < i && c != current ==> CutDown(runs[c], pos[c], AtLeast(k))
      {
        if i != current {
          var p := LowerBound(runs[i], key);
          SeekCuts(runs[i], key);
          NeverEqual(runs, i, current, pos[current]);
          if p < |runs[i]| {
            p := if p == 0 then |runs[i]| else p - 1;
          } else {
            p := if |runs[i]| == 0 then 0 else |runs[i]| - 1;
          }
          pos := pos[i := p];
        }
      }
      CurrentCuts(runs[current], pos[current]);
      forward := false;
    }
  }

  const NONE := Entry(0.0, 0, Deletion, [])

  /** A child's own Seek. */
  lemma SeekCuts(run: seq<Entry>, t: InternalKey)
    requires SortedEntries(run)
    ensures CutUp(run, LowerBound(run, t), AtLeast(t))
  {
    var p := LowerBound(run, t);
    forall j | p <= j < |run| ensures !Before(KeyOf(run[j]), t) {
      assert j == p || Before(KeyOf(run[p]), KeyOf(run[j]));
    }
  }

  predicate Differ(a: InternalKey, b: InternalKey) {
    a != b && (Before(a, b) || Before(b, a))
  }

  lemma NeverEqual(runs: seq<seq<Entry>>, c: nat, cur: nat, p: nat)
    requires RunsOk(runs) && c < |runs| && cur < |runs| && c != cur && p < |runs[cur]|
    ensures forall j :: 0 <= j < |runs[c]| ==> Differ(KeyOf(runs[c][j]), KeyOf(runs[cur][p]))
  {
    forall j | 0 <= j < |runs[c]| ensures Differ(KeyOf(runs[c][j]), KeyOf(runs[cur][p])) {
      Apart(runs, c, j, cur, p);
    }
  }

  lemma CurrentCuts(run: seq<Entry>, p: nat)
    requires SortedEntries(run) && p < |run|
    ensures CutUp(run, p, AtLeast(KeyOf(run[p]))) && CutDown(run, p, AtLeast(KeyOf(run[p])))
  {}
}
