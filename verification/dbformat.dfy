/** Internal keys as they are stored: the user key, then eight bytes of sequence
    number and kind. */
module DbFormat {
  import opened Keys
  import opened Mvcc
  import opened Levels
  import opened Coding
  import opened Comparators

  /** AppendInternalKey. */
  function EncodeKey(k: ByteKey): (b: Bytes)
    requires k.sn <= MAX_SEQUENCE
    ensures |b| == |k.user| + 8
  {
    k.user + Fixed64(Tag(Ranked(k)))
  }

  function UserPart(b: Bytes): Bytes {
    if |b| < 8 then b else b[..|b| - 8]
  }

  function TagPart(b: Bytes): nat {
    if |b| < 8 then 0 else FromFixed(b[|b| - 8..])
  }

  /** ParseInternalKey, kinds other than a value taken for deletions. */
  function DecodeKey(b: Bytes): ByteKey {
    ByteKey(UserPart(b), TagPart(b) / 256, if TagPart(b) % 256 == 1 then Put else Deletion)
  }

  lemma EncodedParts(k: ByteKey)
    requires k.sn <= MAX_SEQUENCE
    ensures UserPart(EncodeKey(k)) == k.user && TagPart(EncodeKey(k)) == Tag(Ranked(k))
  {
    var tail := Fixed64(Tag(Ranked(k)));
    Fixed64RoundTrip(Tag(Ranked(k)));
    assert (k.user + tail)[|k.user|..] == tail && (k.user + tail)[..|k.user|] == k.user;
  }

  lemma KeyRoundTrip(k: ByteKey)
    requires k.sn <= MAX_SEQUENCE
    ensures DecodeKey(EncodeKey(k)) == k
  {
    EncodedParts(k);
  }

  /** InternalKeyComparator::Compare < 0 on stored keys. */
  predicate EncodedLess(a: Bytes, b: Bytes) {
    Less(UserPart(a), UserPart(b)) || (UserPart(a) == UserPart(b) && TagPart(a) > TagPart(b))
  }

  lemma EncodedOrder(a: ByteKey, b: ByteKey)
    requires a.sn <= MAX_SEQUENCE && b.sn <= MAX_SEQUENCE
    ensures EncodedLess(EncodeKey(a), EncodeKey(b)) <==> Before(Ranked(a), Ranked(b))
  {
    EncodedParts(a);
    EncodedParts(b);
    RankOrder(a.user, b.user);
  }

  lemma EncodedTransitive(a: Bytes, b: Bytes, c: Bytes)
    requires EncodedLess(a, b) && EncodedLess(b, c)
    ensures EncodedLess(a, c)
  {
    RankOrder(UserPart(a), UserPart(b));
    RankOrder(UserPart(b), UserPart(c));
    RankOrder(UserPart(a), UserPart(c));
  }
}
