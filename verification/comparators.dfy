/** The bytewise comparator's separators, the internal-key comparator's, and the
    order they live in. */
module Comparators {
  import opened Keys
  import opened Mvcc
  import opened Levels

  // ---- Byte strings ----

  /** The first differing byte decides. */
  lemma {:induction false} LessAt(a: Bytes, b: Bytes, d: nat)
    requires d < |a| && d < |b| && a[..d] == b[..d] && a[d] != b[d]
    ensures Less(a, b) <==> a[d] < b[d]
  {
    if d > 0 {
      assert a[0] == a[..d][0] && b[0] == b[..d][0];
      assert a[1..][..d - 1] == a[..d][1..] && b[1..][..d - 1] == b[..d][1..];
      LessAt(a[1..], b[1..], d - 1);
    }
  }

  /** Where the two strings part, with room for a byte in between. */
  predicate ShortensAt(start: Bytes, limit: Bytes, d: nat) {
    d < |start| && d < |limit| && start[..d] == limit[..d] && start[d] < 255 && start[d] + 1 < limit[d]
  }

  /** BytewiseComparatorImpl::FindShortestSeparator: start itself, or a string
      no longer than it that lies strictly between start and limit; shortened
      exactly when the first differing bytes leave room. */
  method FindShortestSeparator(start: Bytes, limit: Bytes) returns (r: Bytes)
    ensures r == start || (Less(start, r) && Less(r, limit) && |r| <= |start|)
    ensures forall d: nat :: ShortensAt(start, limit, d) ==> r == start[..d] + [start[d] + 1]
    ensures r != start ==> exists d: nat :: ShortensAt(start, limit, d)
  {
    var minLength := if |start| < |limit| then |start| else |limit|;
    var diff := 0;
    while diff < minLength && start[diff] == limit[diff]
      invariant diff <= minLength && start[..diff] == limit[..diff]
    {
      assert start[..diff + 1] == start[..diff] + [start[diff]];
      assert limit[..diff + 1] == limit[..diff] + [limit[diff]];
      diff := diff + 1;
    }
    r := start;
    if diff < minLength {
      var byte := start[diff];
      if byte < 255 && byte + 1 < limit[diff] {
        r := start[..diff] + [byte + 1];
        assert r[..diff] == start[..diff];
        LessAt(start, r, diff);
        LessAt(r, limit, diff);
        assert ShortensAt(start, limit, diff);
      }
    }
    forall d: nat | ShortensAt(start, limit, d) ensures d == diff {
      PartOnce(start, limit, d, diff);
    }
  }

  lemma PartOnce(a: Bytes, b: Bytes, d: nat, e: nat)
    requires d < |a| && d < |b| && a[..d] == b[..d] && a[d] != b[d]
    requires e <= |a| && e <= |b| && a[..e] == b[..e] && (e < |a| && e < |b| ==> a[e] != b[e])
    ensures d == e
  {
    SamePrefix(a, b, d);
    SamePrefix(a, b, e);
  }

  lemma SamePrefix(a: Bytes, b: Bytes, n: nat)
    requires n <= |a| && n <= |b| && a[..n] == b[..n]
    ensures forall i :: 0 <= i < n ==> a[i] == b[i]
  {
    assert forall i :: 0 <= i < n ==> a[..n][i] == b[..n][i];
  }

  /** BytewiseComparatorImpl::FindShortSuccessor. */
  method FindShortSuccessor(key: Bytes) returns (r: Bytes)
    ensures r == key || (Less(key, r) && |r| <= |key|)
    ensures r == key <==> forall i :: 0 <= i < |key| ==> key[i] == 255
    ensures r != key ==> |r| > 0 && r[..|r| - 1] == key[..|r| - 1] && (forall i :: 0 <= i < |r| - 1 ==> key[i] == 255)
                         && key[|r| - 1] < 255 && r[|r| - 1] == key[|r| - 1] + 1
  {
    for i := 0 to |key|
      invariant forall j :: 0 <= j < i ==> key[j] == 255
    {
      var byte := key[i];
      if byte != 255 {
        r := key[..i] + [byte + 1];
        assert r[..i] == key[..i];
        LessAt(key, r, i);
        assert r[i] != key[i];
        return;
      }
    }
    r := key;
  }

  // ---- Internal keys over byte strings ----

  /** An internal key whose user part is the byte string itself. */
  datatype ByteKey = ByteKey(user: Bytes, sn: nat, kind: Kind)

  /** The key as the engine modules see it. */
  function Ranked(k: ByteKey): InternalKey {
    InternalKey(Rank(k.user), k.sn, k.kind)
  }

  /** InternalKeyComparator::Compare < 0. */
  predicate KeyLess(a: ByteKey, b: ByteKey) {
    Less(a.user, b.user) || (a.user == b.user && Tag(Ranked(a)) > Tag(Ranked(b)))
  }

  lemma RankedOrder(a: ByteKey, b: ByteKey)
    ensures KeyLess(a, b) <==> Before(Ranked(a), Ranked(b))
    ensures a.user == b.user <==> Ranked(a).user == Ranked(b).user
    ensures a == b <==> Ranked(a) == Ranked(b)
  {
    RankOrder(a.user, b.user);
  }

  /** InternalKeyComparator::FindShortestSeparator: the key itself, or one whose
      user key lies strictly between the two user keys. */
  method FindShortestInternalSeparator(start: ByteKey, limit: ByteKey) returns (r: ByteKey)
    ensures r == start || (Less(start.user, r.user) && Less(r.user, limit.user))
    ensures r != start <==> exists d: nat :: ShortensAt(start.user, limit.user, d) && d + 1 < |start.user|
    ensures r != start ==> |r.user| < |start.user| && r.sn == MAX_SEQUENCE && r.kind == Put
  {
    var tmp := FindShortestSeparator(start.user, limit.user);
    r := start;
    if |tmp| < |start.user| && Less(start.user, tmp) {
      r := ByteKey(tmp, MAX_SEQUENCE, Put);
    }
  }

  /** InternalKeyComparator::FindShortSuccessor. */
  method FindShortInternalSuccessor(key: ByteKey) returns (r: ByteKey)
    ensures r == key || (Less(key.user, r.user) && |r.user| < |key.user| && r.sn == MAX_SEQUENCE)
    ensures r != key <==> exists i :: 0 <= i < |key.user| - 1 && key.user[i] != 255
  {
    var tmp := FindShortSuccessor(key.user);
    r := key;
    if |tmp| < |key.user| && Less(key.user, tmp) {
      r := ByteKey(tmp, MAX_SEQUENCE, Put);
    }
  }

  /** The promise the comparator's documentation makes: for start < limit the
      separator lies in [start, limit). */
  lemma SeparatorBetween(start: ByteKey, limit: ByteKey, r: ByteKey)
    requires KeyLess(start, limit) && (r == start || (Less(start.user, r.user) && Less(r.user, limit.user)))
    ensures !KeyLess(r, start) && KeyLess(r, limit)
  {
    RankedOrder(r, start);
    RankedOrder(start, r);
    RankOrder(start.user, r.user);
  }
}
