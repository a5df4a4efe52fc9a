/** Multi-version entries and what a snapshot sees of them.

    This is the specification every layer of the engine is measured against: a
    read of key k at snapshot s answers with the newest entry of k whose
    sequence number is at most s, and a deletion marker answers "not found". */
module Mvcc {
  import opened Keys

  datatype Kind = Deletion | Put

  datatype Entry = Entry(user: UserKey, sn: nat, kind: Kind, value: Bytes)

  datatype Option<+T> = None | Some(value: T)

  datatype Answer = Found(value: Bytes) | NotFound

  predicate Candidate(e: Entry, k: UserKey, s: nat) {
    e.user == k && e.sn <= s
  }

  /** `e` is the newest entry for k at snapshot s. */
  ghost predicate IsVisible(S: set<Entry>, k: UserKey, s: nat, e: Entry) {
    && e in S && Candidate(e, k, s)
    && forall d :: d in S && Candidate(d, k, s) ==> d.sn <= e.sn
  }

  /** Every write gets a sequence number of its own. */
  ghost predicate DistinctSeqs(S: set<Entry>) {
    forall d, e :: d in S && e in S && d.sn == e.sn ==> d == e
  }

  ghost predicate HasCandidate(S: set<Entry>, k: UserKey, s: nat) {
    exists e :: e in S && Candidate(e, k, s)
  }

  /** The specification of a read, as an entry. */
  ghost function Visible(S: set<Entry>, k: UserKey, s: nat): Option<Entry> {
    if e :| IsVisible(S, k, s, e) then Some(e) else None
  }

  function AnswerOf(o: Option<Entry>): Answer {
    if o.Some? && o.value.kind.Put? then Found(o.value.value) else NotFound
  }

  /** The specification of DB::Get. */
  ghost function Read(S: set<Entry>, k: UserKey, s: nat): Answer {
    AnswerOf(Visible(S, k, s))
  }

  /** For each key, everything in A is newer than everything in B. */
  ghost predicate Newer(A: set<Entry>, B: set<Entry>) {
    forall d, e :: d in A && e in B && d.user == e.user ==> d.sn > e.sn
  }

  /** A finite set with a candidate has a newest one. */
  lemma {:induction false} VisibleExists(S: set<Entry>, k: UserKey, s: nat)
    requires HasCandidate(S, k, s)
    ensures exists e :: IsVisible(S, k, s, e)
    decreases S
  {
    var e :| e in S && Candidate(e, k, s);
    if HasCandidate(S - {e}, k, s) {
      VisibleExists(S - {e}, k, s);
      var m :| IsVisible(S - {e}, k, s, m);
      var best := if m.sn < e.sn then e else m;
      assert IsVisible(S, k, s, best);
    } else {
      assert IsVisible(S, k, s, e) by {
        forall d | d in S && Candidate(d, k, s) ensures d.sn <= e.sn {
          assert d == e || d in S - {e};
        }
      }
    }
  }

  /** The declarative `IsVisible` pins down what `Visible` returns. */
  lemma VisibleIs(S: set<Entry>, k: UserKey, s: nat, e: Entry)
    requires DistinctSeqs(S) && IsVisible(S, k, s, e)
    ensures Visible(S, k, s) == Some(e)
  {
    var d := Visible(S, k, s).value;
    assert IsVisible(S, k, s, d);
    assert d.sn == e.sn;
  }

  lemma VisibleNone(S: set<Entry>, k: UserKey, s: nat)
    ensures Visible(S, k, s).None? <==> !HasCandidate(S, k, s)
  {
    if HasCandidate(S, k, s) {
      VisibleExists(S, k, s);
    }
  }

  /** Reading a union whose first part is newer: look in the first part, and in
      the second only when the first has nothing at the snapshot. */
  lemma ReadLayers(A: set<Entry>, B: set<Entry>, k: UserKey, s: nat)
    requires Newer(A, B) && DistinctSeqs(A + B)
    ensures Visible(A + B, k, s) == if HasCandidate(A, k, s) then Visible(A, k, s) else Visible(B, k, s)
  {
    VisibleNone(A, k, s);
    VisibleNone(B, k, s);
    VisibleNone(A + B, k, s);
    if HasCandidate(A, k, s) {
      var e := Visible(A, k, s).value;
      assert IsVisible(A, k, s, e);
      assert IsVisible(A + B, k, s, e);
      VisibleIs(A + B, k, s, e);
    } else if HasCandidate(B, k, s) {
      var e := Visible(B, k, s).value;
      assert IsVisible(B, k, s, e);
      assert IsVisible(A + B, k, s, e);
      VisibleIs(A + B, k, s, e);
    } else {
      assert !HasCandidate(A + B, k, s);
    }
  }

  /** Two entry sets that no reader at `floor` or later can tell apart. */
  ghost predicate SameAnswers(S: set<Entry>, T: set<Entry>, floor: nat) {
    forall k: UserKey, s: nat | s >= floor :: Read(S, k, s) == Read(T, k, s)
  }

  ghost predicate AllBelow(S: set<Entry>, bound: nat) {
    forall e :: e in S ==> e.sn < bound
  }

  lemma ReadInsert(S: set<Entry>, e: Entry, k: UserKey, s: nat)
    requires AllBelow(S, e.sn) && DistinctSeqs(S)
    ensures Read({e} + S, k, s) == if Candidate(e, k, s) then AnswerOf(Some(e)) else Read(S, k, s)
  {
    assert DistinctSeqs({e} + S);
    ReadLayers({e}, S, k, s);
    if Candidate(e, k, s) {
      assert IsVisible({e}, k, s, e);
      VisibleIs({e}, k, s, e);
    }
  }

  lemma SameAnswersTrans(A: set<Entry>, B: set<Entry>, H: set<Entry>, low: nat, high: nat)
    requires SameAnswers(A, H, low) && SameAnswers(A, B, high)
    ensures SameAnswers(B, H, if low < high then high else low)
  {
    forall k: UserKey, s: nat | s >= (if low < high then high else low) ensures Read(B, k, s) == Read(H, k, s) {
      assert Read(A, k, s) == Read(H, k, s);
      assert Read(A, k, s) == Read(B, k, s);
    }
  }

  /** An entry newer than everything on both sides keeps them indistinguishable. */
  lemma SameAnswersInsert(S: set<Entry>, T: set<Entry>, e: Entry, floor: nat)
    requires SameAnswers(S, T, floor)
    requires AllBelow(S, e.sn) && AllBelow(T, e.sn)
    requires DistinctSeqs(S) && DistinctSeqs(T)
    ensures SameAnswers({e} + S, {e} + T, floor)
  {
    forall k: UserKey, s: nat | s >= floor
      ensures Read({e} + S, k, s) == Read({e} + T, k, s)
    {
      ReadInsert(S, e, k, s);
      ReadInsert(T, e, k, s);
    }
  }

  /** A reader below every new sequence number does not see the new entries. */
  lemma ReadIgnoresLater(S: set<Entry>, later: set<Entry>, k: UserKey, s: nat)
    requires DistinctSeqs(S + later)
    requires forall e :: e in later ==> e.sn > s
    ensures Visible(S + later, k, s) == Visible(S, k, s)
  {
    VisibleNone(S, k, s);
    VisibleNone(S + later, k, s);
    if HasCandidate(S, k, s) {
      var e := Visible(S, k, s).value;
      assert IsVisible(S, k, s, e);
      assert IsVisible(S + later, k, s, e);
      VisibleIs(S + later, k, s, e);
    } else {
      assert !HasCandidate(S + later, k, s);
    }
  }
}
