/**
 Trusted timestamps over the chain head: what `verify` checks of a stored token,
 and how much of the log one accepted token fixes. The token itself is kept as the
 entry number it names and the digest it was issued for.
 */
module Timestamps {
  import opened Text
  import opened Wrappers
  import opened HashChain
  import opened Checkpoints
  import opened Commitment

  /** capture_meta.stamped_seq and capture_meta.digest_sha256. */
  datatype Stamp = Stamp(seqNo: int, digest: string)

  function StampMaterial(seqNo: int, entryHash: string): string {
    Decimal(seqNo) + (":" + entryHash)
  }

  /** The token `timestamp_chain_head` obtains; none for an empty log. */
  function HeadStamp(H: Hash, t: seq<Entry>): Option<Stamp> {
    if t == [] then None
    else var head := t[|t| - 1]; Some(Stamp(head.seqNo, H(StampMaterial(head.seqNo, head.entryHash))))
  }

  predicate StampHolds(H: Hash, t: seq<Entry>, s: Stamp) {
    var entry := Lookup(t, s.seqNo);
    entry.Some? && H(StampMaterial(s.seqNo, entry.value.entryHash)) == s.digest
  }

  /** The tokens that do not match their entry, in the order they are stored. */
  function Failing(H: Hash, t: seq<Entry>, stamps: seq<Stamp>): seq<Stamp> {
    if stamps == [] then []
    else
      Failing(H, t, stamps[..|stamps| - 1]) +
      if StampHolds(H, t, stamps[|stamps| - 1]) then [] else [stamps[|stamps| - 1]]
  }

  lemma FailingNext(H: Hash, t: seq<Entry>, stamps: seq<Stamp>, i: nat)
    requires i < |stamps|
    ensures Failing(H, t, stamps[..i + 1])
            == Failing(H, t, stamps[..i]) + if StampHolds(H, t, stamps[i]) then [] else [stamps[i]]
  {
    hide StampHolds;
    assert stamps[..i + 1][..i] == stamps[..i];
  }

  lemma {:induction false} FailingExact(H: Hash, t: seq<Entry>, stamps: seq<Stamp>)
    ensures forall s :: s in Failing(H, t, stamps) <==> s in stamps && !StampHolds(H, t, s)
    ensures Failing(H, t, stamps) == [] <==> forall s <- stamps :: StampHolds(H, t, s)
  {
    hide StampHolds;
    if stamps != [] {
      var n := |stamps| - 1;
      FailingExact(H, t, stamps[..n]);
      assert stamps == stamps[..n] + [stamps[n]];
    }
  }

  method CheckTimestamps(H: Hash, t: seq<Entry>, stamps: seq<Stamp>) returns (problems: seq<Stamp>)
    ensures problems == Failing(H, t, stamps)
    ensures problems == [] <==> forall s <- stamps :: StampHolds(H, t, s)
    ensures forall s :: s in problems <==> s in stamps && !StampHolds(H, t, s)
  {
    problems := [];
    for i := 0 to |stamps|
      invariant problems == Failing(H, t, stamps[..i])
    {
      hide Failing, Lookup, StampMaterial;
      var stamp := stamps[i];
      var entry := Lookup(t, stamp.seqNo);
      FailingNext(H, t, stamps, i);
      if entry.None? || H(StampMaterial(stamp.seqNo, entry.value.entryHash)) != stamp.digest {
        problems := problems + [stamp];
      }
    }
    assert stamps[..|stamps|] == stamps;
    FailingExact(H, t, stamps);
  }

  lemma LinkedKeyed(h: EntryHash, t: seq<Entry>)
    requires Linked(h, t)
    ensures Keyed(t)
  {
    forall i, j | 0 <= i < j < |t| ensures t[i].seqNo < t[j].seqNo {
      LinkedAt(h, t, i);
      LinkedAt(h, t, j);
    }
  }

  /** Two numbers' entry hashes differ and their stamp materials hash alike. */
  predicate StampCollision(H: Hash, seqNo: int, x: string, y: string) {
    x != y && H(StampMaterial(seqNo, x)) == H(StampMaterial(seqNo, y))
  }

  lemma StampMaterialUnique(m: int, n: int, x: string, y: string)
    ensures StampMaterial(m, x) == StampMaterial(n, y) <==> m == n && x == y
  {
    if StampMaterial(m, x) == StampMaterial(n, y) {
      assert (":" + x)[0] == ':' && (":" + y)[0] == ':';
      DecimalUnique(m, n, ":" + x, ":" + y);
      assert x == (":" + x)[1..] && y == (":" + y)[1..];
    }
  }

  lemma PrefixCommitment(H: Hash, a: seq<Entry>, b: seq<Entry>, m: nat, n: nat)
    requires Linked(Hasher(H), a) && Linked(Hasher(H), b) && AllWellFormed(a) && AllWellFormed(b)
    requires 0 < m <= |a| && 0 < n <= |b| && a[m - 1].entryHash == b[n - 1].entryHash
    ensures SameHistory(a[..m], b[..n]) || HashBroken(H, a, b)
  {
    LinkedPrefix(Hasher(H), a, m);
    LinkedPrefix(Hasher(H), b, n);
    assert HeadHash(a[..m]) == a[m - 1].entryHash && HeadHash(b[..n]) == b[n - 1].entryHash;
    LinkedCommitment(H, a[..m], b[..n]);
    if HashBroken(H, a[..m], b[..n]) {
      HashBrokenPrefix(H, a, b, m, n);
    }
  }

  /** The entry a valid log's token names ends the rows numbered up to it. */
  lemma StampedEntry(H: Hash, t: seq<Entry>, s: Stamp)
    requires Verify(Hasher(H), t).Valid? && StampHolds(H, t, s)
    ensures Linked(Hasher(H), t)
    ensures var n := CountTo(t, s.seqNo);
      && 0 < n && t[n - 1].seqNo == s.seqNo && Lookup(t, s.seqNo) == Some(t[n - 1])
      && H(StampMaterial(s.seqNo, t[n - 1].entryHash)) == s.digest
  {
    VerifyExact(Hasher(H), t);
    LinkedKeyed(Hasher(H), t);
    LookupIsLast(t, s.seqNo);
  }

  lemma StampedDiffer(H: Hash, s: Stamp, x: string, y: string)
    requires H(StampMaterial(s.seqNo, x)) == s.digest == H(StampMaterial(s.seqNo, y)) && x != y
    ensures StampCollision(H, s.seqNo, x, y)
  {
  }

  lemma SameLength(a: seq<Entry>, b: seq<Entry>)
    requires SameHistory(a, b)
    ensures |a| == |b|
  {
  }

  /** Linked rows that meet in one number have agreed in every number before. */
  lemma PrefixNumbers(h: EntryHash, a: seq<Entry>, b: seq<Entry>, m: nat)
    requires Linked(h, a) && Linked(h, b) && 0 < m <= |a| && m <= |b| && a[m - 1].seqNo == b[m - 1].seqNo
    ensures forall i :: 0 <= i < m ==> a[i].seqNo == b[i].seqNo
  {
    hide Linked;
    forall i | 0 <= i < m ensures a[i].seqNo == b[i].seqNo {
      LinkedAt(h, a, i);
      LinkedAt(h, a, m - 1);
      LinkedAt(h, b, i);
      LinkedAt(h, b, m - 1);
    }
  }

  /**
   Two valid logs that accept one token hold the same numbered history up to the
   stamped entry, unless they exhibit a broken hash.
   */
  lemma StampFixesPrefix(H: Hash, a: seq<Entry>, b: seq<Entry>, s: Stamp)
    requires Verify(Hasher(H), a).Valid? && Verify(Hasher(H), b).Valid?
    requires AllWellFormed(a) && AllWellFormed(b)
    requires StampHolds(H, a, s) && StampHolds(H, b, s)
    ensures var m, n := CountTo(a, s.seqNo), CountTo(b, s.seqNo);
      || (SameHistory(a[..m], b[..n]) && forall i :: 0 <= i < m ==> a[i].seqNo == b[i].seqNo)
      || HashBroken(H, a, b)
      || StampCollision(H, s.seqNo, Lookup(a, s.seqNo).value.entryHash, Lookup(b, s.seqNo).value.entryHash)
  {
    hide Verify, StampHolds, StampCollision, SameHistory, HashBroken, Linked;
    StampedEntry(H, a, s);
    StampedEntry(H, b, s);
    var m, n := CountTo(a, s.seqNo), CountTo(b, s.seqNo);
    if a[m - 1].entryHash == b[n - 1].entryHash {
      PrefixCommitment(H, a, b, m, n);
      if SameHistory(a[..m], b[..n]) {
        SameLength(a[..m], b[..n]);
        PrefixNumbers(Hasher(H), a, b, m);
      }
    } else {
      StampedDiffer(H, s, a[m - 1].entryHash, b[n - 1].entryHash);
    }
  }

  /** A token just issued matches its entry, and goes on matching as the log grows. */
  lemma StampSurvives(H: Hash, t: seq<Entry>, u: seq<Entry>)
    requires Keyed(u) && t != [] && |t| <= |u| && u[..|t|] == t
    ensures StampHolds(H, u, HeadStamp(H, t).value)
  {
    var q, n := t[|t| - 1].seqNo, |t|;
    assert u[n - 1] == u[..n][n - 1];
    assert n < |u| ==> u[n - 1].seqNo < u[n].seqNo;
    CountToAt(u, q, n);
    LookupIsLast(u, q);
  }
}
