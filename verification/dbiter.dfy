/** DBIter: the user's cursor over the versions a merging iterator yields in
    order.  Any mix of Seek, SeekToFirst, SeekToLast, Next and Prev walks the
    sorted live keys of the snapshot, with the right values. */
module DbIterator {
  import opened Keys
  import opened Mvcc
  import opened Levels
  import Merger

  // ---- What the snapshot sees of a sorted run ----

  /** The first entry for u at or after position i that the snapshot may see. */
  function First(es: seq<Entry>, i: nat, u: UserKey, s: nat): (r: Option<Entry>)
    requires i <= |es|
    decreases |es| - i
  {
    if i == |es| then None
    else if Candidate(es[i], u, s) then Some(es[i])
    else First(es, i + 1, u, s)
  }

  function ReadFrom(es: seq<Entry>, i: nat, u: UserKey, s: nat): Answer
    requires i <= |es|
  {
    AnswerOf(First(es, i, u, s))
  }

  predicate Shown(es: seq<Entry>, s: nat, u: UserKey) {
    ReadFrom(es, 0, u, s).Found?
  }

  /** A key that a read of the entries at the snapshot finds. */
  ghost predicate Live(S: set<Entry>, s: nat, u: UserKey) {
    Read(S, u, s).Found?
  }

  lemma {:induction false} FirstPosition(es: seq<Entry>, i: nat, u: UserKey, s: nat)
    requires i <= |es|
    ensures First(es, i, u, s).Some? ==>
              exists j :: i <= j < |es| && es[j] == First(es, i, u, s).value && Candidate(es[j], u, s)
                && (forall m :: i <= m < j ==> !Candidate(es[m], u, s))
    ensures First(es, i, u, s).None? ==> forall j :: i <= j < |es| ==> !Candidate(es[j], u, s)
    decreases |es| - i
  {
    if i < |es| && !Candidate(es[i], u, s) {
      FirstPosition(es, i + 1, u, s);
    }
  }

  /** In a sorted run the first candidate is the newest: this is a read. */
  lemma FirstIsVisible(es: seq<Entry>, u: UserKey, s: nat)
    requires SortedEntries(es) && DistinctSeqs(Elems(es))
    ensures First(es, 0, u, s) == Visible(Elems(es), u, s)
    ensures ReadFrom(es, 0, u, s) == Read(Elems(es), u, s)
  {
    FirstPosition(es, 0, u, s);
    VisibleNone(Elems(es), u, s);
    if First(es, 0, u, s).Some? {
      var j :| 0 <= j < |es| && es[j] == First(es, 0, u, s).value && Candidate(es[j], u, s)
        && (forall m :: 0 <= m < j ==> !Candidate(es[m], u, s));
      forall d | d in Elems(es) && Candidate(d, u, s) ensures d.sn <= es[j].sn {
        var m :| 0 <= m < |es| && es[m] == d;
        assert m == j || Before(KeyOf(es[j]), KeyOf(es[m]));
      }
      assert IsVisible(Elems(es), u, s, es[j]);
      VisibleIs(Elems(es), u, s, es[j]);
    }
  }

  /** Positions without a candidate for u can be skipped. */
  lemma {:induction false} SkipTo(es: seq<Entry>, i: nat, j: nat, u: UserKey, s: nat)
    requires i <= j <= |es| && forall m :: i <= m < j ==> !Candidate(es[m], u, s)
    ensures First(es, i, u, s) == First(es, j, u, s)
    decreases j
  {
    if i < j {
      SkipTo(es, i, j - 1, u, s);
      FirstStep(es, i, j - 1, u, s);
    }
  }

  lemma {:induction false} FirstStep(es: seq<Entry>, i: nat, j: nat, u: UserKey, s: nat)
    requires i <= j < |es| && !Candidate(es[j], u, s)
    ensures First(es, j, u, s) == First(es, j + 1, u, s)
  {}

  // ---- The live key next in order ----

  /** k is the least live key within the bound, if there is one. */
  ghost predicate LeastLive(S: set<Entry>, s: nat, lo: Bound, found: bool, k: UserKey) {
    if found then
      Live(S, s, k) && Above(lo, k) && forall u :: Above(lo, u) && Live(S, s, u) ==> k <= u
    else
      forall u :: Above(lo, u) ==> !Live(S, s, u)
  }

  /** k is the greatest live key within the bound, if there is one. */
  ghost predicate GreatestLive(S: set<Entry>, s: nat, hi: Bound, found: bool, k: UserKey) {
    if found then
      Live(S, s, k) && Under(hi, k) && forall u :: Under(hi, u) && Live(S, s, u) ==> u <= k
    else
      forall u :: Under(hi, u) ==> !Live(S, s, u)
  }

  /** The same of a sorted run. */
  ghost predicate LeastShown(es: seq<Entry>, s: nat, lo: Bound, found: bool, k: UserKey) {
    if found then
      Shown(es, s, k) && Above(lo, k) && forall u :: Above(lo, u) && Shown(es, s, u) ==> k <= u
    else
      forall u :: Above(lo, u) ==> !Shown(es, s, u)
  }

  ghost predicate GreatestShown(es: seq<Entry>, s: nat, hi: Bound, found: bool, k: UserKey) {
    if found then
      Shown(es, s, k) && Under(hi, k) && forall u :: Under(hi, u) && Shown(es, s, u) ==> u <= k
    else
      forall u :: Under(hi, u) ==> !Shown(es, s, u)
  }

  /** In a sorted run the keys shown are the keys a read finds. */
  lemma ShownIsLive(runs: seq<seq<Entry>>, es: seq<Entry>, s: nat, b: Bound, found: bool, k: UserKey)
    requires MergeOf(runs, es)
    ensures LeastShown(es, s, b, found, k) ==> LeastLive(Elems(es), s, b, found, k)
    ensures GreatestShown(es, s, b, found, k) ==> GreatestLive(Elems(es), s, b, found, k)
  {
    MergeParts(runs, es);
    forall u ensures Shown(es, s, u) <==> Live(Elems(es), s, u) {
      FirstIsVisible(es, u, s);
    }
  }

  datatype Bound = Unbounded | Inclusive(at: UserKey) | Exclusive(at: UserKey)

  predicate Above(lo: Bound, u: UserKey) {
    match lo
    case Unbounded => true
    case Inclusive(at) => u >= at
    case Exclusive(at) => u > at
  }

  predicate Under(hi: Bound, u: UserKey) {
    match hi
    case Unbounded => true
    case Inclusive(at) => u <= at
    case Exclusive(at) => u < at
  }

  /** The live keys of the snapshot, in order. */
  ghost predicate IsLiveList(S: set<Entry>, s: nat, live: seq<UserKey>) {
    && (forall i, j :: 0 <= i < j < |live| ==> live[i] < live[j])
    && (forall u :: u in live <==> Live(S, s, u))
  }

  /** Being the least live key above the i-th is being the next in the list, and
      being the greatest below it is being the one before. */
  lemma CursorMoves(S: set<Entry>, s: nat, live: seq<UserKey>, i: nat, found: bool, k: UserKey)
    requires IsLiveList(S, s, live) && i < |live|
    ensures LeastLive(S, s, Exclusive(live[i]), found, k) ==> found == (i + 1 < |live|) && (found ==> k == live[i + 1])
    ensures GreatestLive(S, s, Exclusive(live[i]), found, k) ==> found == (i > 0) && (found ==> k == live[i - 1])
  {
    if i + 1 < |live| {
      assert live[i + 1] in live;
    }
    if i > 0 {
      assert live[i - 1] in live;
    }
    if found && Live(S, s, k) {
      var j :| 0 <= j < |live| && live[j] == k;
    }
  }

  /** Likewise for the ends of the list. */
  lemma CursorEnds(S: set<Entry>, s: nat, live: seq<UserKey>, found: bool, k: UserKey)
    requires IsLiveList(S, s, live)
    ensures LeastLive(S, s, Unbounded, found, k) ==> found == (|live| > 0) && (found ==> k == live[0])
    ensures GreatestLive(S, s, Unbounded, found, k) ==> found == (|live| > 0) && (found ==> k == live[|live| - 1])
  {
    if |live| > 0 {
      assert live[0] in live && live[|live| - 1] in live;
    }
    if found && Live(S, s, k) {
      var j :| 0 <= j < |live| && live[j] == k;
    }
  }

  /** Likewise for seeking: i is where the target belongs in the list. */
  lemma CursorSeek(S: set<Entry>, s: nat, live: seq<UserKey>, t: UserKey, i: nat, found: bool, k: UserKey)
    requires IsLiveList(S, s, live) && i <= |live|
    requires (forall j :: 0 <= j < i ==> live[j] < t) && (forall j :: i <= j < |live| ==> t <= live[j])
    ensures LeastLive(S, s, Inclusive(t), found, k) ==> found == (i < |live|) && (found ==> k == live[i])
  {
    if i < |live| {
      assert live[i] in live;
    }
    if found && Live(S, s, k) {
      var j :| 0 <= j < |live| && live[j] == k;
    }
  }

  // ---- Scanning forward ----

  /** FindNextUserEntry's situation at position i: what has been passed is of no
      interest or hidden, and hidden keys are not live. */
  ghost predicate Forward(es: seq<Entry>, s: nat, i: nat, skipping: bool, skip: UserKey, lo: Bound) {
    && i <= |es|
    && (forall j :: 0 <= j < i && es[j].sn <= s ==> !Above(lo, es[j].user) || (skipping && es[j].user <= skip))
    && (forall j :: i <= j < |es| && es[j].sn <= s ==> (skipping ==> es[j].user >= skip)
                                                       && (Above(lo, es[j].user) || (skipping && es[j].user <= skip)))
    && (skipping ==> forall u :: u <= skip && Above(lo, u) ==> !Shown(es, s, u))
  }

  /** An entry with no smaller sequence number ahead of it decides its key. */
  lemma Decides(es: seq<Entry>, s: nat, i: nat)
    requires i < |es| && es[i].sn <= s
    requires forall j :: 0 <= j < i && es[j].sn <= s ==> es[j].user != es[i].user
    ensures First(es, 0, es[i].user, s) == Some(es[i])
  {
    SkipTo(es, 0, i, es[i].user, s);
  }

  /** A key whose group is wholly behind position i, or has no candidate. */
  lemma BehindNotAhead(es: seq<Entry>, s: nat, i: nat, u: UserKey)
    requires SortedEntries(es) && i < |es| && u < es[i].user && Shown(es, s, u)
    ensures exists j :: 0 <= j < i && es[j].sn <= s && es[j].user == u
  {
    FirstPosition(es, 0, u, s);
    var j :| 0 <= j < |es| && Candidate(es[j], u, s);
    if j > i {
      assert Before(KeyOf(es[i]), KeyOf(es[j]));
    }
  }

  /** A deletion marker at i hides its key and every key below it is dead. */
  lemma ForwardDelete(es: seq<Entry>, s: nat, i: nat, skipping: bool, skip: UserKey, lo: Bound)
    requires SortedEntries(es) && Forward(es, s, i, skipping, skip, lo) && i < |es|
    requires es[i].sn <= s && es[i].kind.Deletion?
    ensures Forward(es, s, i + 1, true, es[i].user, lo)
  {
    var x := es[i].user;
    forall u | u <= x && Above(lo, u) ensures !Shown(es, s, u) {
      if !(skipping && u <= skip) {
        if u == x {
          Decides(es, s, i);
        } else if Shown(es, s, u) {
          BehindNotAhead(es, s, i, u);
        }
      }
    }
    forall j | i + 1 <= j < |es| && es[j].sn <= s ensures es[j].user >= x {
      assert Before(KeyOf(es[i]), KeyOf(es[j]));
    }
  }

  lemma ForwardSkip(es: seq<Entry>, s: nat, i: nat, skipping: bool, skip: UserKey, lo: Bound)
    requires Forward(es, s, i, skipping, skip, lo) && i < |es|
    requires es[i].sn > s || (skipping && es[i].user <= skip)
    ensures Forward(es, s, i + 1, skipping, skip, lo)
  {}

  /** A value that is not hidden is the least live key. */
  lemma ForwardFound(es: seq<Entry>, s: nat, i: nat, skipping: bool, skip: UserKey, lo: Bound)
    requires SortedEntries(es) && Forward(es, s, i, skipping, skip, lo) && i < |es|
    requires es[i].sn <= s && es[i].kind.Put? && !(skipping && es[i].user <= skip)
    ensures LeastShown(es, s, lo, true, es[i].user)
    ensures First(es, 0, es[i].user, s) == Some(es[i])
  {
    Decides(es, s, i);
    forall u | Above(lo, u) && Shown(es, s, u) ensures es[i].user <= u {
      if u < es[i].user {
        BehindNotAhead(es, s, i, u);
      }
    }
  }

  lemma ForwardEnd(es: seq<Entry>, s: nat, skipping: bool, skip: UserKey, lo: Bound)
    requires Forward(es, s, |es|, skipping, skip, lo)
    ensures LeastShown(es, s, lo, false, 0.0)
  {
    forall u | Above(lo, u) ensures !Shown(es, s, u) {
      FirstPosition(es, 0, u, s);
    }
  }

  // ---- Scanning backward ----

  /** FindPrevUserEntry's situation when entries from position n on are done:
      what they say about the keys of interest. */
  ghost predicate Backward(es: seq<Entry>, s: nat, n: nat, put: bool, savedKey: UserKey, savedValue: Bytes, hi: Bound) {
    && n <= |es|
    && (forall j :: 0 <= j < n && es[j].sn <= s ==> Under(hi, es[j].user))
    && (!put ==> forall u :: Under(hi, u) ==> ReadFrom(es, n, u, s).NotFound?)
    && (put ==>
          && Under(hi, savedKey) && ReadFrom(es, n, savedKey, s) == Found(savedValue)
          && (forall u :: Under(hi, u) && u > savedKey ==> ReadFrom(es, n, u, s).NotFound?)
          && (forall j :: 0 <= j < n ==> es[j].user <= savedKey)
          && (forall j :: n <= j < |es| && es[j].sn <= s ==> es[j].user >= savedKey))
  }

  lemma ReadStep(es: seq<Entry>, n: nat, u: UserKey, s: nat)
    requires 0 < n <= |es|
    ensures ReadFrom(es, n - 1, u, s) == if Candidate(es[n - 1], u, s) then AnswerOf(Some(es[n - 1]))
            else ReadFrom(es, n, u, s)
  {}

  lemma BackwardSkip(es: seq<Entry>, s: nat, n: nat, put: bool, savedKey: UserKey, savedValue: Bytes, hi: Bound)
    requires 0 < n && Backward(es, s, n, put, savedKey, savedValue, hi) && es[n - 1].sn > s
    ensures Backward(es, s, n - 1, put, savedKey, savedValue, hi)
  {
    forall u ensures ReadFrom(es, n - 1, u, s) == ReadFrom(es, n, u, s) {
      ReadStep(es, n, u, s);
    }
  }

  lemma BackwardTake(es: seq<Entry>, s: nat, n: nat, put: bool, savedKey: UserKey, savedValue: Bytes, hi: Bound)
    requires SortedEntries(es) && 0 < n && Backward(es, s, n, put, savedKey, savedValue, hi)
    requires es[n - 1].sn <= s && !(put && es[n - 1].user < savedKey)
    ensures var e := es[n - 1];
            Backward(es, s, n - 1, e.kind.Put?, if e.kind.Put? then e.user else 0.0, if e.kind.Put? then e.value
                else [], hi)
  {
    var e := es[n - 1];
    forall u ensures ReadFrom(es, n - 1, u, s) == if e.user == u then AnswerOf(Some(e)) else ReadFrom(es, n, u, s) {
      ReadStep(es, n, u, s);
    }
    forall j | 0 <= j < n - 1 ensures es[j].user <= e.user {
      assert Before(KeyOf(es[j]), KeyOf(es[n - 1]));
    }
    forall j | n <= j < |es| ensures es[j].user >= e.user {
      assert Before(KeyOf(es[n - 1]), KeyOf(es[j]));
    }
    if e.kind.Deletion? {
      forall u | Under(hi, u) ensures ReadFrom(es, n - 1, u, s).NotFound? {
        if u < e.user {
          NoneAfter(es, n, u, s);
        }
      }
    }
  }

  /** Keys below the one at n - 1 have nothing from n on. */
  lemma NoneAfter(es: seq<Entry>, n: nat, u: UserKey, s: nat)
    requires SortedEntries(es) && 0 < n <= |es| && u < es[n - 1].user
    ensures ReadFrom(es, n, u, s).NotFound?
  {
    FirstPosition(es, n, u, s);
    forall j | n <= j < |es| ensures es[j].user != u {
      assert Before(KeyOf(es[n - 1]), KeyOf(es[j]));
    }
  }

  /** Stopping where the next visible entry is of a smaller key. */
  lemma BackwardFound(es: seq<Entry>, s: nat, n: nat, savedKey: UserKey, savedValue: Bytes, hi: Bound)
    requires SortedEntries(es) && Backward(es, s, n, true, savedKey, savedValue, hi)
    requires n == 0 || es[n - 1].user < savedKey
    ensures GreatestShown(es, s, hi, true, savedKey)
    ensures ReadFrom(es, 0, savedKey, s) == Found(savedValue)
    ensures forall j :: 0 <= j < n ==> es[j].user < savedKey
    ensures forall j :: n <= j < |es| && es[j].user < savedKey ==> es[j].sn > s
  {
    forall j | 0 <= j < n ensures es[j].user < savedKey {
      assert j == n - 1 || Before(KeyOf(es[j]), KeyOf(es[n - 1]));
    }
    forall u | u >= savedKey ensures ReadFrom(es, 0, u, s) == ReadFrom(es, n, u, s) {
      forall j | 0 <= j < n ensures !Candidate(es[j], u, s) {
        assert j == n - 1 || Before(KeyOf(es[j]), KeyOf(es[n - 1]));
      }
      SkipTo(es, 0, n, u, s);
    }
  }

  lemma BackwardEnd(es: seq<Entry>, s: nat, savedKey: UserKey, savedValue: Bytes, hi: Bound)
    requires Backward(es, s, 0, false, savedKey, savedValue, hi)
    ensures GreatestShown(es, s, hi, false, 0.0)
  {
    forall u | Under(hi, u) ensures !Shown(es, s, u) {
      assert ReadFrom(es, 0, u, s).NotFound?;
    }
  }

  lemma DeadFrom(es: seq<Entry>, n: nat, u: UserKey, s: nat)
    requires n <= |es| && forall j :: n <= j < |es| && es[j].sn <= s ==> es[j].user != u
    ensures ReadFrom(es, n, u, s).NotFound?
  {
    FirstPosition(es, n, u, s);
  }

  // ---- The iterator ----

  datatype Source = Merged | Numbered

  /** What the cursor walks: the merge of the runs, every entry with a sequence
      number of its own. */
  ghost predicate Sourced(source: Source, runs: seq<seq<Entry>>, es: seq<Entry>) {
    match source
    case Merged => Merger.IsMerge(runs, es)
    case Numbered => SortedEntries(es) && DistinctSeqs(Elems(es))
  }

  ghost predicate MergeOf(runs: seq<seq<Entry>>, es: seq<Entry>) {
    forall source: Source :: Sourced(source, runs, es)
  }

  lemma MergeParts(runs: seq<seq<Entry>>, es: seq<Entry>)
    ensures MergeOf(runs, es) <==> Merger.IsMerge(runs, es) && DistinctSeqs(Elems(es))
  {
    if MergeOf(runs, es) {
      assert Sourced(Merged, runs, es) && Sourced(Numbered, runs, es);
    }
  }

  lemma MergeSorted(runs: seq<seq<Entry>>, es: seq<Entry>)
    requires MergeOf(runs, es)
    ensures SortedEntries(es)
  {
    MergeParts(runs, es);
  }

  class DBIter {
    const iter: Merger.MergingIterator
    const sequence: nat
    var forward: bool
    var valid: bool
    var savedKey: UserKey
    var savedValue: Bytes
    ghost const es: seq<Entry>   // what the merging iterator yields, in order
    ghost var pos: nat           // where in it that iterator stands; |es| when not valid

    constructor (iter: Merger.MergingIterator, sequence: nat, ghost es: seq<Entry>)
      requires iter.Consistent() && !iter.Valid() && MergeOf(iter.runs, es)
      ensures Consistent() && !valid && this.iter == iter && this.sequence == sequence && this.es == es
    {
      this.iter, this.sequence, this.es := iter, sequence, es;
      pos, forward, valid, savedKey, savedValue := |es|, true, false, 0.0, [];
    }

    /** The merging iterator stands at entry `pos` of the merge. */
    ghost predicate Tracks()
      reads this, iter
    {
      && iter.Consistent() && MergeOf(iter.runs, es) && pos <= |es|
      && (iter.Valid() <==> pos < |es|) && (iter.Valid() ==> iter.Item() == es[pos])
    }

    /** Where the merging iterator stands while the cursor is on a key. */
    ghost predicate Consistent()
      reads this, iter
    {
      && Tracks()
      && (valid && forward ==>
            pos < |es| && es[pos].kind.Put? && es[pos].sn <= sequence
                && First(es, 0, es[pos].user, sequence) == Some(es[pos]))
      && (valid && !forward ==>
            && ReadFrom(es, 0, savedKey, sequence) == Found(savedValue)
            && (forall j :: 0 <= j < AfterPos() ==> es[j].user < savedKey)
            && (forall j :: AfterPos() <= j < |es| && es[j].user < savedKey ==> es[j].sn > sequence))
    }

    /** One past the merging iterator's position; 0 when it has run off the front. */
    ghost function AfterPos(): nat
      reads this
    {
      if pos < |es| then pos + 1 else 0
    }

    function Key(): UserKey
      requires valid && Consistent()
      reads this, iter
    {
      if forward then iter.Item().user else savedKey
    }

    /** value() is the value a read of key() at the snapshot finds. */
    function Value(): (v: Bytes)
      requires valid && Consistent()
      reads this, iter
      ensures Read(Elems(es), Key(), sequence) == Found(v)
    {
      MergeParts(iter.runs, es);
      FirstIsVisible(es, Key(), sequence);
      if forward then iter.Item().value else savedValue
    }

    // ---- Steps of the merging iterator ----

    method Forth()
      requires Tracks() && iter.Valid()
      modifies this`pos, iter
      ensures Tracks() && pos == old(pos) + 1
    {
      iter.Next();
      MergeParts(iter.runs, es);
      Merger.CursorMoves(iter.runs, es, pos, iter.Valid(), if iter.Valid() then iter.Item() else Merger.NONE);
      pos := pos + 1;
    }

    method Back()
      requires Tracks() && iter.Valid()
      modifies this`pos, iter
      ensures Tracks() && pos == (if old(pos) == 0 then |es| else old(pos) - 1)
    {
      iter.Prev();
      MergeParts(iter.runs, es);
      Merger.CursorMoves(iter.runs, es, pos, iter.Valid(), if iter.Valid() then iter.Item() else Merger.NONE);
      pos := if pos == 0 then |es| else pos - 1;
    }

    method ToFirst()
      requires Tracks()
      modifies this`pos, iter
      ensures Tracks() && pos == 0
    {
      iter.SeekToFirst();
      MergeParts(iter.runs, es);
      Merger.CursorEnds(iter.runs, es, iter.Valid(), if iter.Valid() then iter.Item() else Merger.NONE);
      pos := 0;
    }

    method ToLast()
      requires Tracks()
      modifies this`pos, iter
      ensures Tracks() && pos == (if |es| == 0 then 0 else |es| - 1)
    {
      iter.SeekToLast();
      MergeParts(iter.runs, es);
      Merger.CursorEnds(iter.runs, es, iter.Valid(), if iter.Valid() then iter.Item() else Merger.NONE);
      pos := if |es| == 0 then 0 else |es| - 1;
    }

    method ToKey(target: InternalKey)
      requires Tracks()
      modifies this`pos, iter
      ensures Tracks() && pos == LowerBound(es, target)
    {
      iter.Seek(target);
      MergeParts(iter.runs, es);
      Merger.CursorSeek(iter.runs, es, target, iter.Valid(), if iter.Valid() then iter.Item() else Merger.NONE);
      pos := LowerBound(es, target);
    }

    // ---- The user's cursor ----

    method FindNextUserEntry(skipping0: bool, skip0: UserKey, ghost lo: Bound)
      requires Tracks() && forward && iter.Valid() && Forward(es, sequence, pos, skipping0, skip0, lo)
      modifies this, iter
      ensures Consistent() && forward
      ensures LeastLive(Elems(es), sequence, lo, valid, if valid then Key() else 0.0)
    {
      MergeSorted(iter.runs, es);
      var skipping, skip := skipping0, skip0;
      while iter.Valid()
        invariant Tracks() && forward && Forward(es, sequence, pos, skipping, skip, lo)
        decreases |es| - pos
      {
        var e := iter.Item();
        if e.sn <= sequence {
          if e.kind.Deletion? {
            ForwardDelete(es, sequence, pos, skipping, skip, lo);
            skip := e.user;
            skipping := true;
          } else if skipping && e.user <= skip {
            ForwardSkip(es, sequence, pos, skipping, skip, lo);
          } else {
            ForwardFound(es, sequence, pos, skipping, skip, lo);
            ShownIsLive(iter.runs, es, sequence, lo, true, e.user);
            valid := true;
            savedKey := 0.0;
            return;
          }
        } else {
          ForwardSkip(es, sequence, pos, skipping, skip, lo);
        }
        Forth();
      }
      ForwardEnd(es, sequence, skipping, skip, lo);
      ShownIsLive(iter.runs, es, sequence, lo, false, 0.0);
      savedKey := 0.0;
      valid := false;
    }

    /** One entry of a backward scan; `more` is false when the entry belongs to a
        key before the one saved. */
    method TakeBack(put: bool, ghost hi: Bound) returns (more: bool, put': bool)
      requires Tracks() && !forward && iter.Valid() && Backward(es, sequence, AfterPos(), put, savedKey, savedValue, hi)
      modifies this`savedKey, this`savedValue, this`pos, iter
      ensures Tracks() && Backward(es, sequence, AfterPos(), put', savedKey, savedValue, hi)
      ensures more ==> AfterPos() < old(AfterPos())
      ensures !more ==> put' && AfterPos() > 0 && es[AfterPos() - 1].sn <= sequence
                        && es[AfterPos() - 1].user < savedKey
    {
      MergeSorted(iter.runs, es);
      var e := iter.Item();
      put' := put;
      if e.sn <= sequence {
        if put && e.user < savedKey {
          return false, put';
        }
        BackwardTake(es, sequence, pos + 1, put, savedKey, savedValue, hi);
        put' := e.kind.Put?;
        if !put' {
          savedKey, savedValue := 0.0, [];
        } else {
          savedKey, savedValue := e.user, e.value;
        }
      } else {
        BackwardSkip(es, sequence, pos + 1, put, savedKey, savedValue, hi);
      }
      Back();
      more := true;
    }

    method FindPrevUserEntry(ghost hi: Bound)
      requires Tracks() && !forward
      requires Backward(es, sequence, AfterPos(), false, 0.0, [], hi)
      modifies this, iter
      ensures Consistent()
      ensures GreatestLive(Elems(es), sequence, hi, valid, if valid then Key() else 0.0)
    {
      var put, more := false, true;
      while more && iter.Valid()
        invariant Tracks() && !forward
        invariant Backward(es, sequence, AfterPos(), put, savedKey, savedValue, hi)
        invariant !more ==> put && AfterPos() > 0 && es[AfterPos() - 1].sn <= sequence
                            && es[AfterPos() - 1].user < savedKey
        decreases more, AfterPos()
      {
        more, put := TakeBack(put, hi);
      }
      Settle(put, hi);
    }

    method Settle(put: bool, ghost hi: Bound)
      requires Tracks() && !forward && Backward(es, sequence, AfterPos(), put, savedKey, savedValue, hi)
      requires AfterPos() == 0 || (put && es[AfterPos() - 1].user < savedKey)
      modifies this`valid, this`forward, this`savedKey, this`savedValue
      ensures Consistent()
      ensures GreatestLive(Elems(es), sequence, hi, valid, if valid then Key() else 0.0)
    {
      if !put {
        BackwardEnd(es, sequence, savedKey, savedValue, hi);
        ShownIsLive(iter.runs, es, sequence, hi, false, 0.0);
        valid := false;
        savedKey, savedValue := 0.0, [];
        forward := true;
      } else {
        MergeSorted(iter.runs, es);
        BackwardFound(es, sequence, AfterPos(), savedKey, savedValue, hi);
        ShownIsLive(iter.runs, es, sequence, hi, true, savedKey);
        valid := true;
      }
    }

    method Next()
      requires Consistent() && valid
      modifies this, iter
      ensures Consistent()
      ensures LeastLive(Elems(es), sequence, Exclusive(old(Key())), valid, if valid then Key() else 0.0)
    {
      MergeSorted(iter.runs, es);
      ghost var k := Key();
      if !forward {
        forward := true;
        if !iter.Valid() {
          ToFirst();
        } else {
          Forth();
        }
        if !iter.Valid() {
          NothingAbove(k);
          valid := false;
          savedKey := 0.0;
          return;
        }
      } else {
        savedKey := iter.Item().user;
      }
      FindNextUserEntry(true, savedKey, Exclusive(k));
    }

    lemma NothingAbove(k: UserKey)
      requires Tracks() && forall j :: 0 <= j < |es| && es[j].user > k ==> es[j].sn > sequence
      ensures LeastLive(Elems(es), sequence, Exclusive(k), false, 0.0)
    {
      MergeSorted(iter.runs, es);
      forall u | u > k ensures !Shown(es, sequence, u) {
        DeadFrom(es, 0, u, sequence);
      }
      ShownIsLive(iter.runs, es, sequence, Exclusive(k), false, 0.0);
    }

    lemma NothingBelow(k: UserKey)
      requires Tracks() && forall j :: 0 <= j < |es| ==> es[j].user >= k
      ensures GreatestLive(Elems(es), sequence, Exclusive(k), false, 0.0)
    {
      MergeSorted(iter.runs, es);
      forall u | u < k ensures !Shown(es, sequence, u) {
        DeadFrom(es, 0, u, sequence);
      }
      ShownIsLive(iter.runs, es, sequence, Exclusive(k), false, 0.0);
    }

    method Prev()
      requires Consistent() && valid
      modifies this, iter
      ensures Consistent()
      ensures GreatestLive(Elems(es), sequence, Exclusive(old(Key())), valid, if valid then Key() else 0.0)
    {
      MergeSorted(iter.runs, es);
      ghost var k := Key();
      if forward {
        savedKey := iter.Item().user;
        while true
          invariant Tracks() && iter.Valid() && forward && savedKey == k
          invariant forall j :: pos <= j < |es| ==> es[j].user >= k
          decreases pos
        {
          Back();
          if !iter.Valid() {
            NothingBelow(k);
            valid := false;
            savedKey, savedValue := 0.0, [];
            return;
          }
          if iter.Item().user < savedKey {
            break;
          }
        }
        forward := false;
      }
      forall u | u < k ensures ReadFrom(es, AfterPos(), u, sequence).NotFound? {
        DeadFrom(es, AfterPos(), u, sequence);
      }
      FindPrevUserEntry(Exclusive(k));
    }

    method Seek(target: UserKey)
      requires Consistent()
      modifies this, iter
      ensures Consistent()
      ensures LeastLive(Elems(es), sequence, Inclusive(target), valid, if valid then Key() else 0.0)
    {
      MergeSorted(iter.runs, es);
      forward := true;
      savedValue := [];
      ToKey(LookupKey(target, sequence));
      if iter.Valid() {
        FindNextUserEntry(false, 0.0, Inclusive(target));
      } else {
        ForwardEnd(es, sequence, false, 0.0, Inclusive(target));
        ShownIsLive(iter.runs, es, sequence, Inclusive(target), false, 0.0);
        valid := false;
      }
    }

    method SeekToFirst()
      requires Consistent()
      modifies this, iter
      ensures Consistent()
      ensures LeastLive(Elems(es), sequence, Unbounded, valid, if valid then Key() else 0.0)
    {
      forward := true;
      savedValue := [];
      ToFirst();
      if iter.Valid() {
        FindNextUserEntry(false, 0.0, Unbounded);
      } else {
        ShownIsLive(iter.runs, es, sequence, Unbounded, false, 0.0);
        valid := false;
      }
    }

    method SeekToLast()
      requires Consistent()
      modifies this, iter
      ensures Consistent()
      ensures GreatestLive(Elems(es), sequence, Unbounded, valid, if valid then Key() else 0.0)
    {
      forward := false;
      savedValue := [];
      ToLast();
      FindPrevUserEntry(Unbounded);
    }
  }
}
