/** Group commit: the writer queue of DBImpl::Write as a state machine over its
    atomic steps, with BuildBatchGroup as the code that forms a group. */
module GroupCommit {
  import opened Keys
  import opened Mvcc

  datatype Op = Op(user: UserKey, kind: Kind, value: Bytes)

  /** What a writer does between two holds of the mutex. */
  datatype Stage = Built | Logged | Inserting(done: nat)

  datatype Phase = Waiting | Leading(count: nat, ops: seq<Op>, stage: Stage) | Returned

  /** A missing batch is the NULL batch that only forces a memtable switch. */
  datatype Writer = Writer(batch: Option<seq<Op>>, sync: bool, phase: Phase)

  /** A log record: its first sequence number, its operations, whether it was
      synced, and which writers it serves. */
  datatype Record = Record(first: nat, ops: seq<Op>, synced: bool, from: nat, to: nat)

  /** Writers are numbered in order of arrival.  The deque holds the writers
      from `head` on: push_back appends a writer, pop_front advances the head. */
  datatype State = State(base: nat, writers: seq<Writer>, head: nat, log: seq<Record>, mem: seq<(nat, Op)>,
      lastSeq: nat)

  function OpsOf(w: Writer): seq<Op> {
    if w.batch.Some? then w.batch.value else []
  }

  /** All operations of the writers from lo up to hi, in order. */
  function Ops(ws: seq<Writer>, lo: nat, hi: nat): seq<Op>
    requires lo <= hi <= |ws|
  {
    if lo == hi then [] else Ops(ws, lo, hi - 1) + OpsOf(ws[hi - 1])
  }

  // ---- BuildBatchGroup ----

  /** The growth limit: 1 MB, but at most 128 KB beyond a small first batch. */
  function MaxSize(first: nat): nat {
    if first <= 131072 then first + 131072 else 1048576
  }

  /** Whether the group must stop before writer w: a sync write never rides on a
      non-sync leader, and the group must not grow too big. */
  predicate StopBefore(leader: Writer, w: Writer, size: nat, byteSize: seq<Op> -> nat) {
    || (w.sync && !leader.sync)
    || (w.batch.Some? && size + byteSize(w.batch.value) > MaxSize(byteSize(OpsOf(leader))))
  }

  function GroupSize(ws: seq<Writer>, n: nat, byteSize: seq<Op> -> nat): nat
    requires n <= |ws|
  {
    if n == 0 then 0
    else GroupSize(ws, n - 1, byteSize) + if ws[n - 1].batch.Some? then byteSize(ws[n - 1].batch.value) else 0
  }

  /** No rule stops the group before any of its first n writers. */
  predicate Grouped(queue: seq<Writer>, n: nat, byteSize: seq<Op> -> nat)
    requires n <= |queue|
  {
    n <= 1 ||
    (Grouped(queue, n - 1, byteSize)
        && !StopBefore(queue[0], queue[n - 1], GroupSize(queue, n - 1, byteSize), byteSize))
  }

  /** A sync write never rides on a non-sync leader. */
  lemma {:induction false} GroupedSync(queue: seq<Writer>, n: nat, byteSize: seq<Op> -> nat)
    requires n <= |queue| && Grouped(queue, n, byteSize)
    ensures forall i :: 0 <= i < n && queue[i].sync ==> queue[0].sync
  {
    if n > 1 {
      GroupedSync(queue, n - 1, byteSize);
    }
  }

  /** The group is the longest prefix of the queue no rule stops. */
  method BuildBatchGroup(queue: seq<Writer>, byteSize: seq<Op> -> nat) returns (count: nat, ops: seq<Op>)
    requires |queue| > 0 && queue[0].batch.Some?
    ensures 1 <= count <= |queue|
    ensures ops == Ops(queue, 0, count)
    ensures Grouped(queue, count, byteSize)
    ensures count < |queue| ==> !Grouped(queue, count + 1, byteSize)
  {
    var first := queue[0];
    ops := first.batch.value;
    var size := byteSize(ops);
    var maxSize := MaxSize(size);
    count := 1;
    while count < |queue|
      invariant 1 <= count <= |queue|
      invariant ops == Ops(queue, 0, count)
      invariant size == GroupSize(queue, count, byteSize)
      invariant Grouped(queue, count, byteSize)
    {
      var w := queue[count];
      if w.sync && !first.sync {
        break;
      }
      if w.batch.Some? {
        if size + byteSize(w.batch.value) > maxSize {
          break;
        }
        size := size + byteSize(w.batch.value);
        ops := ops + w.batch.value;
      }
      count := count + 1;
    }
  }

  // ---- Steps ----

  /** A thread calls Write: it joins the queue. */
  ghost predicate Arrive(s: State, s': State, batch: Option<seq<Op>>, sync: bool) {
    s' == s.(writers := s.writers + [Writer(batch, sync, Waiting)])
  }

  ghost function SetPhase(s: State, w: nat, p: Phase): State
    requires w < |s.writers|
  {
    s.(writers := s.writers[w := s.writers[w].(phase := p)])
  }

  /** A writer that finds itself at the front, not yet done, builds a group. */
  ghost predicate Lead(s: State, s': State, w: nat, count: nat) {
    && w < |s.writers| && w == s.head && s.writers[w].phase.Waiting?
    && 1 <= count && w + count <= |s.writers|
    && (s.writers[w].batch.None? ==> count == 1)
    && (forall i :: w <= i < w + count && s.writers[i].sync ==> s.writers[w].sync)
    && s' == SetPhase(s, w, Leading(count, Ops(s.writers, w, w + count), Built))
  }

  /** log_->AddRecord, and Sync when the leader asks for it. */
  ghost predicate AddRecord(s: State, s': State, w: nat) {
    && w < |s.writers| && s.writers[w].phase.Leading? && s.writers[w].phase.stage.Built? && s.writers[w].batch.Some?
    && s' == SetPhase(s, w, s.writers[w].phase.(stage := Logged)).(log := s.log + [NewRecord(s, w)])
  }

  ghost function NewRecord(s: State, w: nat): Record
    requires w < |s.writers| && s.writers[w].phase.Leading?
  {
    var p := s.writers[w].phase;
    Record(s.lastSeq + 1, p.ops, s.writers[w].sync, w, w + p.count)
  }

  function Done(p: Phase): nat
    requires p.Leading?
  {
    if p.stage.Inserting? then p.stage.done else 0
  }

  /** One MemTable::Add of InsertInto. */
  ghost predicate InsertOne(s: State, s': State, w: nat) {
    && w < |s.writers| && s.writers[w].phase.Leading?
    && var p := s.writers[w].phase;
       && !p.stage.Built? && Done(p) < |p.ops|
       && s' == SetPhase(s, w, p.(stage := Inserting(Done(p) + 1))).(
                  mem := s.mem + [(s.lastSeq + 1 + Done(p), p.ops[Done(p)])])
  }

  /** ready->done = true for every writer taken off the queue. */
  ghost function SetReturned(ws: seq<Writer>, from: nat, to: nat): (r: seq<Writer>)
    ensures |r| == |ws|
    ensures forall i :: 0 <= i < |ws| ==> r[i] == if from <= i < to then ws[i].(phase := Returned) else ws[i]
  {
    seq(|ws|, i requires 0 <= i < |ws| => if from <= i < to then ws[i].(phase := Returned) else ws[i])
  }

  /** Back under the mutex: LastSequence moves, the group leaves the queue. */
  ghost predicate Finish(s: State, s': State, w: nat) {
    && w < |s.writers| && s.writers[w].phase.Leading?
    && var p := s.writers[w].phase;
       && (if s.writers[w].batch.None? then p.stage.Built? else !p.stage.Built? && Done(p) == |p.ops|)
       && s' == s.(lastSeq := s.lastSeq + |p.ops|, head := s.head + p.count,
                   writers := SetReturned(s.writers, s.head, s.head + p.count))
  }

  ghost predicate Next(s: State, s': State) {
    || (exists batch, sync :: Arrive(s, s', batch, sync))
    || (exists w, count :: Lead(s, s', w, count))
    || (exists w :: AddRecord(s, s', w))
    || (exists w :: InsertOne(s, s', w))
    || (exists w :: Finish(s, s', w))
  }

  ghost predicate Init(s: State) {
    s.writers == [] && s.head == 0 && s.log == [] && s.mem == [] && s.lastSeq == s.base
  }

  // ---- Invariant ----

  ghost predicate QueueOk(s: State) {
    && s.head <= |s.writers|
    && (forall i :: 0 <= i < s.head ==> s.writers[i].phase.Returned?)
    && (forall i :: s.head < i < |s.writers| ==> s.writers[i].phase.Waiting?)
    && (s.head < |s.writers| ==> !s.writers[s.head].phase.Returned?)
  }

  ghost predicate HasLeader(s: State) {
    s.head < |s.writers| && s.writers[s.head].phase.Leading?
  }

  /** The leader, if any, and what it is about to apply. */
  ghost predicate LeaderOk(s: State) {
    HasLeader(s) ==>
      var w, p := s.head, s.writers[s.head].phase;
      && 1 <= p.count && w + p.count <= |s.writers|
      && p.ops == Ops(s.writers, w, w + p.count)
      && Done(p) <= |p.ops|
      && (s.writers[w].batch.None? ==> p.count == 1 && p.stage.Built?)
      && (forall i :: w <= i < w + p.count && s.writers[i].sync ==> s.writers[w].sync)
  }

  /** How many writers the log covers. */
  ghost function LoggedUpTo(s: State): nat {
    if HasLeader(s) && !s.writers[s.head].phase.stage.Built? then s.head + s.writers[s.head].phase.count else s.head
  }

  /** How many operations of the leader's are in the memtable. */
  ghost function InFlight(s: State): nat {
    if HasLeader(s) then Done(s.writers[s.head].phase) else 0
  }

  ghost predicate RecordOk(ws: seq<Writer>, base: nat, r: Record) {
    && r.from < r.to <= |ws|
    && r.first == base + 1 + |Ops(ws, 0, r.from)|
    && r.ops == Ops(ws, r.from, r.to)
    && (forall i :: r.from <= i < r.to && ws[i].sync ==> r.synced)
  }

  /** The log lists the writers it covers, in order, each with a batch once. */
  ghost predicate LogOk(ws: seq<Writer>, base: nat, log: seq<Record>, upTo: nat) {
    && upTo <= |ws|
    && (forall i :: 0 <= i < |log| ==> RecordOk(ws, base, log[i]) && log[i].to <= upTo)
    && (forall i, j :: 0 <= i < j < |log| ==> log[i].to <= log[j].from)
    && (forall w :: 0 <= w < upTo && ws[w].batch.Some? ==> Covered(log, w))
  }

  ghost predicate Covered(log: seq<Record>, w: nat) {
    exists i :: 0 <= i < |log| && log[i].from <= w < log[i].to
  }

  /** The memtable is a numbered prefix of the concatenation of all batches. */
  ghost predicate MemOk(mem: seq<(nat, Op)>, base: nat, all: seq<Op>) {
    |mem| <= |all| && forall i :: 0 <= i < |mem| ==> mem[i] == (base + 1 + i, all[i])
  }

  /** It holds the finished batches and the part of the leader's that is in. */
  ghost predicate CountsOk(s: State)
    requires s.head <= |s.writers|
  {
    && s.lastSeq == s.base + |Ops(s.writers, 0, s.head)|
    && |s.mem| == |Ops(s.writers, 0, s.head)| + InFlight(s)
  }

  ghost predicate Inv(s: State) {
    && QueueOk(s) && LeaderOk(s)
    && LogOk(s.writers, s.base, s.log, LoggedUpTo(s))
    && MemOk(s.mem, s.base, Ops(s.writers, 0, |s.writers|)) && CountsOk(s)
  }

  // ---- Concatenated operations ----

  lemma {:induction false} OpsSplit(ws: seq<Writer>, lo: nat, mid: nat, hi: nat)
    requires lo <= mid <= hi <= |ws|
    ensures Ops(ws, lo, hi) == Ops(ws, lo, mid) + Ops(ws, mid, hi)
    decreases hi
  {
    if mid < hi {
      OpsSplit(ws, lo, mid, hi - 1);
    }
  }

  /** A step that changes only phases, or adds writers. */
  ghost predicate SameBatches(a: seq<Writer>, b: seq<Writer>) {
    |a| <= |b| && forall i :: 0 <= i < |a| ==> b[i].batch == a[i].batch && b[i].sync == a[i].sync
  }

  /** Only batches matter. */
  lemma {:induction false} OpsSame(a: seq<Writer>, b: seq<Writer>, lo: nat, hi: nat)
    requires SameBatches(a, b) && lo <= hi <= |a|
    ensures Ops(b, lo, hi) == Ops(a, lo, hi)
    decreases hi
  {
    if lo < hi {
      OpsSame(a, b, lo, hi - 1);
    }
  }

  lemma RecordKept(a: seq<Writer>, b: seq<Writer>, base: nat, r: Record)
    requires SameBatches(a, b) && RecordOk(a, base, r)
    ensures RecordOk(b, base, r)
  {
    OpsSame(a, b, r.from, r.to);
    OpsSame(a, b, 0, r.from);
  }

  lemma LogKept(a: seq<Writer>, b: seq<Writer>, base: nat, log: seq<Record>, upTo: nat)
    requires SameBatches(a, b) && LogOk(a, base, log, upTo)
    ensures LogOk(b, base, log, upTo)
  {
    forall i | 0 <= i < |log| ensures RecordOk(b, base, log[i]) {
      RecordKept(a, b, base, log[i]);
    }
  }

  /** Arrivals only extend the concatenation. */
  lemma MemKept(a: seq<Writer>, b: seq<Writer>, mem: seq<(nat, Op)>, base: nat)
    requires SameBatches(a, b) && MemOk(mem, base, Ops(a, 0, |a|))
    ensures MemOk(mem, base, Ops(b, 0, |b|))
  {
    OpsSplit(b, 0, |a|, |b|);
    OpsSame(a, b, 0, |a|);
  }

  // ---- Preservation ----

  lemma ArriveQueue(s: State, s': State, batch: Option<seq<Op>>, sync: bool)
    requires QueueOk(s) && Arrive(s, s', batch, sync)
    ensures QueueOk(s') && SameBatches(s.writers, s'.writers)
    ensures LoggedUpTo(s') == LoggedUpTo(s) && InFlight(s') == InFlight(s)
    ensures HasLeader(s') ==> HasLeader(s) && s'.writers[s.head] == s.writers[s.head]
  {}

  lemma ArriveInv(s: State, s': State, batch: Option<seq<Op>>, sync: bool)
    requires Inv(s) && Arrive(s, s', batch, sync)
    ensures Inv(s')
  {
    ArriveQueue(s, s', batch, sync);
    LeaderKept(s, s');
    OpsSame(s.writers, s'.writers, 0, s.head);
    LogKept(s.writers, s'.writers, s.base, s.log, LoggedUpTo(s));
    MemKept(s.writers, s'.writers, s.mem, s.base);
  }

  /** The same leader with the same group, at whatever stage. */
  lemma LeaderKept(s: State, s': State)
    requires LeaderOk(s) && SameBatches(s.writers, s'.writers) && s'.head == s.head
    requires HasLeader(s') ==>
      && HasLeader(s)
      && var p, p' := s.writers[s.head].phase, s'.writers[s.head].phase;
         && p'.count == p.count && p'.ops == p.ops && Done(p') <= |p.ops|
         && (s.writers[s.head].batch.None? ==> p'.stage.Built?)
    ensures LeaderOk(s')
  {
    if HasLeader(s') {
      OpsSame(s.writers, s'.writers, s.head, s.head + s.writers[s.head].phase.count);
    }
  }

  /** A phase change leaves the batches alone. */
  lemma PhaseSame(s: State, w: nat, p: Phase)
    requires QueueOk(s) && w == s.head < |s.writers| && !p.Returned?
    ensures var s' := SetPhase(s, w, p);
            && QueueOk(s') && SameBatches(s.writers, s'.writers)
            && s'.writers[w].batch == s.writers[w].batch && s'.writers[w].sync == s.writers[w].sync
            && s'.writers[w].phase == p && (p.Leading? ==> HasLeader(s'))
            && Ops(s'.writers, 0, |s'.writers|) == Ops(s.writers, 0, |s.writers|)
               && Ops(s'.writers, 0, w) == Ops(s.writers, 0, w)
  {
    var s' := SetPhase(s, w, p);
    OpsSame(s.writers, s'.writers, 0, |s.writers|);
    OpsSame(s.writers, s'.writers, 0, w);
  }

  /** The leader moves on to another stage of the same group. */
  lemma LeaderStep(s: State, s': State, w: nat, stage: Stage)
    requires QueueOk(s) && LeaderOk(s) && HasLeader(s) && w == s.head && s'.head == s.head
    requires s'.writers == SetPhase(s, w, s.writers[w].phase.(stage := stage)).writers
    requires stage.Inserting? ==> stage.done <= |s.writers[w].phase.ops|
    requires s.writers[w].batch.Some?
    ensures QueueOk(s') && LeaderOk(s') && HasLeader(s') && SameBatches(s.writers, s'.writers)
    ensures Ops(s'.writers, 0, |s'.writers|) == Ops(s.writers, 0, |s.writers|)
    ensures Ops(s'.writers, 0, w) == Ops(s.writers, 0, w)
    ensures InFlight(s') == if stage.Inserting? then stage.done else 0
    ensures LoggedUpTo(s') == if stage.Built? then w else w + s.writers[w].phase.count
  {
    PhaseSame(s, w, s.writers[w].phase.(stage := stage));
    LeaderKept(s, s');
  }

  lemma LeadLeader(s: State, s': State, w: nat, count: nat)
    requires QueueOk(s) && Lead(s, s', w, count)
    ensures LeaderOk(s')
  {
    OpsSame(s.writers, s'.writers, w, w + count);
  }

  lemma LeadInv(s: State, s': State, w: nat, count: nat)
    requires Inv(s) && Lead(s, s', w, count)
    ensures Inv(s')
  {
    PhaseSame(s, w, Leading(count, Ops(s.writers, w, w + count), Built));
    LeadLeader(s, s', w, count);
    LogKept(s.writers, s'.writers, s.base, s.log, LoggedUpTo(s));
  }

  /** Whoever leads is at the front. */
  lemma FrontLeads(s: State, w: nat)
    requires QueueOk(s) && w < |s.writers| && s.writers[w].phase.Leading?
    ensures w == s.head && HasLeader(s)
  {}

  lemma LogExtended(ws: seq<Writer>, base: nat, log: seq<Record>, upTo: nat, r: Record)
    requires LogOk(ws, base, log, upTo) && RecordOk(ws, base, r) && r.from == upTo
    ensures LogOk(ws, base, log + [r], r.to)
  {
    var log' := log + [r];
    forall w | 0 <= w < r.to && ws[w].batch.Some? ensures Covered(log', w) {
      if w < upTo {
        var i :| 0 <= i < |log| && log[i].from <= w < log[i].to;
        assert log'[i] == log[i];
      } else {
        assert log'[|log|] == r;
      }
    }
  }

  lemma AddRecordLog(s: State, s': State, w: nat)
    requires QueueOk(s) && LeaderOk(s) && CountsOk(s) && AddRecord(s, s', w)
    requires LogOk(s.writers, s.base, s.log, s.head)
    ensures LogOk(s.writers, s.base, s'.log, w + s.writers[w].phase.count)
  {
    FrontLeads(s, w);
    var r := NewRecord(s, w);
    assert RecordOk(s.writers, s.base, r);
    LogExtended(s.writers, s.base, s.log, w, r);
  }

  lemma AddRecordInv(s: State, s': State, w: nat)
    requires Inv(s) && AddRecord(s, s', w)
    ensures Inv(s')
  {
    FrontLeads(s, w);
    LeaderStep(s, s', w, Logged);
    AddRecordLog(s, s', w);
    LogKept(s.writers, s'.writers, s.base, s'.log, w + s.writers[w].phase.count);
  }

  /** The leader's next operation, in the concatenation of all writers. */
  lemma NextOp(ws: seq<Writer>, w: nat, count: nat, done: nat)
    requires w + count <= |ws| && done < |Ops(ws, w, w + count)|
    ensures var i := |Ops(ws, 0, w)| + done;
            i < |Ops(ws, 0, |ws|)| && Ops(ws, 0, |ws|)[i] == Ops(ws, w, w + count)[done]
  {
    OpsSplit(ws, 0, w, |ws|);
    OpsSplit(ws, w, w + count, |ws|);
  }

  lemma MemExtended(mem: seq<(nat, Op)>, base: nat, all: seq<Op>)
    requires MemOk(mem, base, all) && |mem| < |all|
    ensures MemOk(mem + [(base + 1 + |mem|, all[|mem|])], base, all)
  {}

  lemma InsertOneMem(s: State, s': State, w: nat)
    requires QueueOk(s) && LeaderOk(s) && CountsOk(s) && InsertOne(s, s', w)
    requires MemOk(s.mem, s.base, Ops(s.writers, 0, |s.writers|))
    ensures MemOk(s'.mem, s.base, Ops(s.writers, 0, |s.writers|))
    ensures |s'.mem| == |s.mem| + 1
  {
    FrontLeads(s, w);
    var p := s.writers[w].phase;
    NextOp(s.writers, w, p.count, Done(p));
    assert |s.mem| == |Ops(s.writers, 0, w)| + Done(p);
    MemExtended(s.mem, s.base, Ops(s.writers, 0, |s.writers|));
  }

  lemma InsertOneInv(s: State, s': State, w: nat)
    requires Inv(s) && InsertOne(s, s', w)
    ensures Inv(s')
  {
    FrontLeads(s, w);
    LeaderStep(s, s', w, Inserting(Done(s.writers[w].phase) + 1));
    LogKept(s.writers, s'.writers, s.base, s.log, LoggedUpTo(s));
    InsertOneMem(s, s', w);
  }

  lemma FinishQueue(s: State, s': State, w: nat)
    requires QueueOk(s) && LeaderOk(s) && Finish(s, s', w)
    ensures w == s.head && QueueOk(s') && SameBatches(s.writers, s'.writers)
    ensures !HasLeader(s') && LeaderOk(s')
  {}

  lemma FinishCounts(s: State, s': State, w: nat)
    requires QueueOk(s) && LeaderOk(s) && CountsOk(s) && Finish(s, s', w)
    requires w == s.head && QueueOk(s') && SameBatches(s.writers, s'.writers) && !HasLeader(s')
    ensures CountsOk(s')
  {
    FinishLength(s, s', w);
    if s.writers[w].batch.None? {
      NullBatchEmpty(s, w);
    }
    assert InFlight(s) == |s.writers[w].phase.ops| && InFlight(s') == 0;
  }

  lemma FinishLength(s: State, s': State, w: nat)
    requires Finish(s, s', w) && w == s.head && w + s.writers[w].phase.count <= |s.writers| == |s'.writers|
    requires s.writers[w].phase.ops == Ops(s.writers, w, w + s.writers[w].phase.count)
             && SameBatches(s.writers, s'.writers)
    ensures |Ops(s'.writers, 0, s'.head)| == |Ops(s.writers, 0, w)| + |s.writers[w].phase.ops|
  {
    OpsGrown(s.writers, s'.writers, w, s.writers[w].phase.count);
  }

  lemma OpsGrown(ws: seq<Writer>, ws': seq<Writer>, w: nat, count: nat)
    requires SameBatches(ws, ws') && |ws'| == |ws| && w + count <= |ws|
    ensures |Ops(ws', 0, w + count)| == |Ops(ws, 0, w)| + |Ops(ws, w, w + count)|
  {
    OpsSame(ws, ws', 0, w + count);
    OpsSplit(ws, 0, w, w + count);
  }

  lemma NullBatchEmpty(s: State, w: nat)
    requires LeaderOk(s) && HasLeader(s) && w == s.head && s.writers[w].batch.None?
    ensures s.writers[w].phase.ops == []
  {
    assert Ops(s.writers, w, w) == [];
  }

  lemma FinishInv(s: State, s': State, w: nat)
    requires Inv(s) && Finish(s, s', w)
    ensures Inv(s')
  {
    FinishQueue(s, s', w);
    FinishCounts(s, s', w);
    OpsSame(s.writers, s'.writers, 0, |s.writers|);
    FinishLog(s, w);
    LogKept(s.writers, s'.writers, s.base, s.log, s'.head);
  }

  /** Once a group finishes the log covers it, NULL batches included. */
  lemma FinishLog(s: State, w: nat)
    requires QueueOk(s) && LeaderOk(s) && LogOk(s.writers, s.base, s.log, LoggedUpTo(s))
    requires HasLeader(s) && w == s.head
    requires s.writers[w].batch.None? <==> s.writers[w].phase.stage.Built?
    ensures LogOk(s.writers, s.base, s.log, w + s.writers[w].phase.count)
  {
    if s.writers[w].batch.None? {
      assert forall v :: 0 <= v < w + 1 && s.writers[v].batch.Some? ==> v < w;
    }
  }

  lemma NextInv(s: State, s': State)
    requires Inv(s) && Next(s, s')
    ensures Inv(s')
  {
    if batch, sync :| Arrive(s, s', batch, sync) {
      ArriveInv(s, s', batch, sync);
    } else if w, count :| Lead(s, s', w, count) {
      LeadInv(s, s', w, count);
    } else if w :| AddRecord(s, s', w) {
      AddRecordInv(s, s', w);
    } else if w :| InsertOne(s, s', w) {
      InsertOneInv(s, s', w);
    } else {
      var w :| Finish(s, s', w);
      FinishInv(s, s', w);
    }
  }

  ghost predicate Run(trace: seq<State>) {
    && |trace| > 0 && Init(trace[0])
    && forall i :: 0 <= i < |trace| - 1 ==> Next(trace[i], trace[i + 1])
  }

  lemma {:induction false} RunInv(trace: seq<State>, n: nat)
    requires Run(trace) && n < |trace|
    ensures Inv(trace[n])
  {
    if n > 0 {
      RunInv(trace, n - 1);
      NextInv(trace[n - 1], trace[n]);
    }
  }

  // ---- Theorems over whole runs ----

  /** At most one leader logs or inserts at a time. */
  lemma OneLeader(trace: seq<State>, n: nat, v: nat, w: nat)
    requires Run(trace) && n < |trace| && v < |trace[n].writers| && w < |trace[n].writers|
    requires trace[n].writers[v].phase.Leading? && trace[n].writers[w].phase.Leading?
    ensures v == w
  {
    RunInv(trace, n);
  }

  /** Exactly once, in queue order: what is visible at LastSequence is precisely
      the batches of the writers that have returned, concatenated in order of
      arrival and numbered consecutively. */
  lemma VisibleIsReturned(trace: seq<State>, n: nat)
    requires Run(trace) && n < |trace|
    ensures var s := trace[n];
            && s.head <= |s.writers|
            && (forall i :: 0 <= i < |s.writers| ==> (s.writers[i].phase.Returned? <==> i < s.head))
            && var visible := Ops(s.writers, 0, s.head);
            && s.lastSeq == s.base + |visible|
            && |visible| <= |s.mem| && MemOk(s.mem[..|visible|], s.base, visible)
  {
    RunInv(trace, n);
    var s := trace[n];
    OpsSplit(s.writers, 0, s.head, |s.writers|);
  }

  lemma PrefixLength(ws: seq<Writer>, a: nat, b: nat)
    requires a <= b <= |ws|
    ensures |Ops(ws, 0, a)| <= |Ops(ws, 0, b)|
  {
    OpsSplit(ws, 0, a, b);
  }

  /** The first and last sequence numbers of writer w's batch. */
  ghost function FirstSeq(s: State, w: nat): nat
    requires w < |s.writers|
  {
    s.base + 1 + |Ops(s.writers, 0, w)|
  }

  ghost function LastSeq(s: State, w: nat): nat
    requires w < |s.writers|
  {
    s.base + |Ops(s.writers, 0, w + 1)|
  }

  /** A reader at LastSequence sees each batch wholly or not at all. */
  lemma BatchAtomic(trace: seq<State>, n: nat, w: nat)
    requires Run(trace) && n < |trace| && w < |trace[n].writers|
    ensures trace[n].writers[w].phase.Returned? ==> LastSeq(trace[n], w) <= trace[n].lastSeq
    ensures !trace[n].writers[w].phase.Returned? ==> trace[n].lastSeq < FirstSeq(trace[n], w)
  {
    RunInv(trace, n);
    var s := trace[n];
    if w < s.head {
      PrefixLength(s.writers, w + 1, s.head);
    } else {
      PrefixLength(s.writers, s.head, w);
    }
  }

  /** The record carries w's operations where w's sequence numbers say. */
  ghost predicate Serves(ws: seq<Writer>, base: nat, r: Record, w: nat)
    requires w < |ws|
  {
    && r.from <= w < r.to
    && (ws[w].sync ==> r.synced)
    && var at := base + 1 + |Ops(ws, 0, w)| - r.first;
       && 0 <= at && at + |OpsOf(ws[w])| <= |r.ops|
       && r.ops[at..at + |OpsOf(ws[w])|] == OpsOf(ws[w])
  }

  lemma SliceOf(x: seq<Op>, a: seq<Op>, b: seq<Op>, c: seq<Op>)
    requires x == a + b + c
    ensures |a| + |b| <= |x| && x[|a|..|a| + |b|] == b
  {}

  lemma RecordServes(ws: seq<Writer>, base: nat, r: Record, w: nat)
    requires RecordOk(ws, base, r) && r.from <= w < r.to
    ensures Serves(ws, base, r, w)
  {
    OpsSplit(ws, 0, r.from, w);
    OpsSplit(ws, r.from, w + 1, r.to);
    SliceOf(r.ops, Ops(ws, r.from, w), OpsOf(ws[w]), Ops(ws, w + 1, r.to));
  }

  /** A returned writer's batch is in exactly one log record, at its own
      sequence numbers, and that record was synced if the writer asked for it. */
  lemma LoggedOnceAndSynced(trace: seq<State>, n: nat, w: nat) returns (i: nat)
    requires Run(trace) && n < |trace| && w < |trace[n].writers|
    requires trace[n].writers[w].phase.Returned? && trace[n].writers[w].batch.Some?
    ensures i < |trace[n].log| && Serves(trace[n].writers, trace[n].base, trace[n].log[i], w)
    ensures forall j :: 0 <= j < |trace[n].log| && j != i ==> !(trace[n].log[j].from <= w < trace[n].log[j].to)
  {
    RunInv(trace, n);
    var s := trace[n];
    assert Covered(s.log, w);
    i :| 0 <= i < |s.log| && s.log[i].from <= w < s.log[i].to;
    RecordServes(s.writers, s.base, s.log[i], w);
  }

  /** The code's group is one the Lead step allows. */
  lemma GroupMeetsLead(s: State, queue: seq<Writer>, count: nat)
    requires QueueOk(s) && s.head < |s.writers| && s.writers[s.head].phase.Waiting?
    requires queue == s.writers[s.head..] && queue[0].batch.Some? && 1 <= count <= |queue|
    requires forall i :: 0 <= i < count && queue[i].sync ==> queue[0].sync
    ensures exists s' :: Lead(s, s', s.head, count)
  {
    var w := s.head;
    forall i | w <= i < w + count && s.writers[i].sync ensures s.writers[w].sync {
      assert queue[i - w] == s.writers[i];
    }
    var s' := SetPhase(s, w, Leading(count, Ops(s.writers, w, w + count), Built));
    assert Lead(s, s', w, count);
  }
}
