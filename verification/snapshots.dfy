/** SnapshotList: a circular doubly linked list in creation order, whose oldest
    element is the smallest live snapshot. */
module Snapshots {

  class SnapshotImpl {
    const number: nat   // const after creation
    var prev: SnapshotImpl?
    var next: SnapshotImpl?

    constructor (number: nat)
      ensures this.number == number
    {
      this.number := number;
      prev, next := null, null;
    }
  }

  /** One turn around the ring, from the dummy head back to it. */
  ghost predicate Turn(ring: seq<SnapshotImpl>) {
    && |ring| >= 2 && ring[0] == ring[|ring| - 1]
    && (forall i, j :: 0 <= i < j < |ring| - 1 ==> ring[i] != ring[j])
  }

  ghost predicate Linked(ring: seq<SnapshotImpl>)
    reads ring
  {
    forall i, j :: 0 <= i && j == i + 1 && j < |ring| ==> ring[i].next == ring[j] && ring[j].prev == ring[i]
  }

  /** The live snapshots, oldest first, are in ascending order. */
  ghost predicate Ascending(ring: seq<SnapshotImpl>) {
    forall i, j :: 1 <= i < j < |ring| - 1 ==> ring[i].number <= ring[j].number
  }

  ghost function Cut(ring: seq<SnapshotImpl>, at: nat): seq<SnapshotImpl>
    requires at < |ring|
  {
    ring[..at] + ring[at + 1..]
  }

  lemma CutTurn(ring: seq<SnapshotImpl>, at: nat)
    requires Turn(ring) && Ascending(ring) && 0 < at < |ring| - 1
    ensures Turn(Cut(ring, at)) && Ascending(Cut(ring, at))
    ensures forall i :: 0 <= i < |ring| - 1 ==> Cut(ring, at)[i] == ring[if i < at then i else i + 1]
  {
    var r := Cut(ring, at);
    assert forall i :: 0 <= i < |r| ==> r[i] == ring[if i < at then i else i + 1];
  }

  class SnapshotList {
    const head: SnapshotImpl
    ghost var ring: seq<SnapshotImpl>

    constructor ()
      ensures Valid() && ring == [head, head] && fresh(head)
    {
      head := new SnapshotImpl(0);
      new;
      ring := [head, head];
      head.prev := head;
      head.next := head;
    }

    ghost predicate Valid()
      reads this, ring
    {
      Turn(ring) && ring[0] == head && Linked(ring) && Ascending(ring)
    }

    predicate Empty()
      requires Valid()
      reads this, ring, head
      ensures Empty() <==> |ring| == 2
    {
      assert ring[0].next == ring[1];
      head.next == head
    }

    method Oldest() returns (s: SnapshotImpl)
      requires Valid() && |ring| > 2
      ensures s == ring[1]
      ensures forall i :: 1 <= i < |ring| - 1 ==> s.number <= ring[i].number
    {
      assert ring[0].next == ring[1];
      s := head.next;
    }

    /** A new snapshot goes in just before the head: it is the newest. */
    method New(number: nat) returns (s: SnapshotImpl)
      requires Valid() && forall i :: 1 <= i < |ring| - 1 ==> ring[i].number <= number
      modifies this, ring
      ensures Valid() && fresh(s) && s.number == number
      ensures ring == old(ring)[..|old(ring)| - 1] + [s, head]
    {
      s := new SnapshotImpl(number);
      ghost var n := |ring| - 1;
      assert ring[n] == head && ring[n].prev == ring[n - 1];
      s.next := head;
      s.prev := head.prev;
      s.prev.next := s;
      s.next.prev := s;
      ring := ring[..n] + [s, head];
    }

    /** Unlinks one snapshot; the others keep their order. */
    method Delete(s: SnapshotImpl, ghost at: nat)
      requires Valid() && 0 < at < |ring| - 1 && ring[at] == s
      modifies this, ring
      ensures Valid() && ring == Cut(old(ring), at)
    {
      assert ring[at].next == ring[at + 1] && ring[at].prev == ring[at - 1];
      CutTurn(ring, at);
      s.prev.next := s.next;
      s.next.prev := s.prev;
      ring := Cut(ring, at);
    }

    /** DoCompactionWork's choice: nothing live is below it. */
    method SmallestSnapshot(lastSequence: nat) returns (x: nat)
      requires Valid() && forall i :: 1 <= i < |ring| - 1 ==> ring[i].number <= lastSequence
      ensures x <= lastSequence && forall i :: 1 <= i < |ring| - 1 ==> x <= ring[i].number
      ensures if |ring| == 2 then x == lastSequence else x == ring[1].number
    {
      if Empty() {
        x := lastSequence;
      } else {
        var s := Oldest();
        x := s.number;
      }
    }
  }
}
