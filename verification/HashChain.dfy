/**
 The hash chain: a table of entries, each carrying its predecessor's hash, and the
 walk that checks it. The hash of an entry's content is a parameter `h` about which
 nothing is assumed; module Commitment says what it is computed from.
 */
module HashChain {
  import opened Json
  import opened Wrappers

  const GENESIS := "0000000000000000000000000000000000000000000000000000000000000000"

  /** What an entry's hash covers; its seq is not part of it. */
  datatype Content = Content(prevHash: string, occurredAt: string, eventType: string, payload: Json)

  /** A row of evidence_log. */
  datatype Entry = Entry(seqNo: int, content: Content, entryHash: string)

  /** compute_entry_hash. */
  type EntryHash = Content -> string

  // ----- The walk -----

  /** Rows as `ORDER BY seq` returns them: seq is the primary key. */
  predicate Keyed(t: seq<Entry>) {
    forall i, j :: 0 <= i < j < |t| ==> t[i].seqNo < t[j].seqNo
  }

  datatype Reason =
    | Gap(expected: int)
    | PrevHashMismatch
    | ContentMismatch
    | CheckpointMismatch
    | EntriesGone
    | ShorterThanCheckpoint

  /** VerifyResult: `ok` is Valid?, a broken result never carries a checkpoint. */
  datatype VerifyResult =
    | Valid(entries: int, checkedFrom: Option<int>, checkpointAt: Option<string>)
    | Broken(entries: int, firstBadSeq: int, reason: Reason)

  /** The walk from row i on, expecting `prev` as its prev_hash and `expected` as its number. */
  function Walk(h: EntryHash, t: seq<Entry>, i: nat, prev: string, expected: Option<int>, count: int): VerifyResult
    requires i <= |t|
    decreases |t| - i
  {
    if i == |t| then Valid(count, None, None)
    else
      var e := t[i];
      var want := expected.GetOr(e.seqNo);
      if e.seqNo != want then Broken(count + 1, e.seqNo, Gap(want))
      else if e.content.prevHash != prev then Broken(count + 1, e.seqNo, PrevHashMismatch)
      else if h(e.content) != e.entryHash then Broken(count + 1, e.seqNo, ContentMismatch)
      else Walk(h, t, i + 1, e.entryHash, Some(want + 1), count + 1)
  }

  function Verify(h: EntryHash, t: seq<Entry>): VerifyResult {
    Walk(h, t, 0, GENESIS, None, 0)
  }

  /** A passing walk of part of the chain says where it began and on whose word. */
  function Labelled(r: VerifyResult, from: Option<int>, at: Option<string>): VerifyResult {
    match r
    case Valid(n, _, _) => Valid(n, from, at)
    case Broken(_, _, _) => r
  }

  function PrevOf(t: seq<Entry>, i: nat): string
    requires i <= |t|
  {
    if i == 0 then GENESIS else t[i - 1].entryHash
  }

  /** Row i follows its predecessor: next number, its hash, and its own content. */
  predicate Link(h: EntryHash, t: seq<Entry>, i: nat, first: int)
    requires i < |t|
  {
    && t[i].seqNo == first + i
    && t[i].content.prevHash == PrevOf(t, i)
    && h(t[i].content) == t[i].entryHash
  }

  /** Rows lo up to hi each follow their predecessor, counting from `first`. */
  predicate Links(h: EntryHash, t: seq<Entry>, lo: nat, hi: nat, first: int)
    requires hi <= |t|
  {
    forall i :: lo <= i < hi ==> Link(h, t, i, first)
  }

  /** Row k is the first from lo on that does not follow, for this reason. */
  predicate BrokenAt(h: EntryHash, t: seq<Entry>, lo: nat, k: nat, first: int, reason: Reason)
    requires k < |t|
  {
    && lo <= k && Links(h, t, lo, k, first)
    && match reason
       case Gap(want) => want == first + k && t[k].seqNo != want
       case PrevHashMismatch => t[k].seqNo == first + k && t[k].content.prevHash != PrevOf(t, k)
       case ContentMismatch =>
         && t[k].seqNo == first + k && t[k].content.prevHash == PrevOf(t, k)
         && h(t[k].content) != t[k].entryHash
       case _ => false
  }

  /** The walk passes exactly the linked rows, and a failure names the first break. */
  lemma {:induction false} WalkExact(h: EntryHash, t: seq<Entry>, i: nat, expected: Option<int>, count: int, first: int)
    requires i <= |t| && (i < |t| ==> expected.GetOr(t[i].seqNo) == first + i)
    ensures var r := Walk(h, t, i, PrevOf(t, i), expected, count);
      && (r.Valid? <==> Links(h, t, i, |t|, first))
      && (r.Valid? ==> r == Valid(count + |t| - i, None, None))
      && (r.Broken? ==>
            var k := r.entries - count - 1 + i;
            i <= k < |t| && r.firstBadSeq == t[k].seqNo && BrokenAt(h, t, i, k, first, r.reason))
    decreases |t| - i
  {
    if i < |t| && Link(h, t, i, first) {
      WalkExact(h, t, i + 1, Some(first + i + 1), count + 1, first);
    }
  }

  function FirstSeq(t: seq<Entry>): int {
    if t == [] then 0 else t[0].seqNo
  }

  predicate Linked(h: EntryHash, t: seq<Entry>) {
    Links(h, t, 0, |t|, FirstSeq(t))
  }

  /** `verify` passes exactly the linked tables, and names the first break of any other. */
  lemma VerifyExact(h: EntryHash, t: seq<Entry>)
    ensures var r := Verify(h, t);
      && (r.Valid? <==> Linked(h, t))
      && (r.Valid? ==> r == Valid(|t|, None, None))
      && (r.Broken? ==>
            0 < r.entries <= |t| && r.firstBadSeq == t[r.entries - 1].seqNo
            && BrokenAt(h, t, 0, r.entries - 1, FirstSeq(t), r.reason))
  {
    WalkExact(h, t, 0, None, 0, FirstSeq(t));
  }

  /** How many entry hashes that walk computes. */
  function WalkHashes(h: EntryHash, t: seq<Entry>, i: nat, prev: string, expected: Option<int>): nat
    requires i <= |t|
    decreases |t| - i
  {
    if i == |t| || t[i].seqNo != expected.GetOr(t[i].seqNo) || t[i].content.prevHash != prev then 0
    else if h(t[i].content) != t[i].entryHash then 1
    else 1 + WalkHashes(h, t, i + 1, t[i].entryHash, Some(t[i].seqNo + 1))
  }

  /** A row out of place is refused before its hash is computed. */
  function Unhashed(r: VerifyResult): nat {
    if r.Broken? && r.reason != ContentMismatch then 1 else 0
  }

  /** One hash for every row up to where the walk ends. */
  lemma {:induction false} WalkHashesExact(h: EntryHash, t: seq<Entry>, i: nat, prev: string, expected: Option<int>,
                                           count: int)
    requires i <= |t|
    ensures var r := Walk(h, t, i, prev, expected, count);
      && WalkHashes(h, t, i, prev, expected) == r.entries - count - Unhashed(r)
      && (r.Valid? ==> r.entries - count == |t| - i)
    decreases |t| - i
  {
    if i < |t| {
      WalkHashesExact(h, t, i + 1, t[i].entryHash, Some(t[i].seqNo + 1), count + 1);
    }
  }

  /** The walk itself: one pass over the rows, stopping at the first break. */
  method WalkRows(h: EntryHash, t: seq<Entry>, start: nat, prev: string, expected: Option<int>, seen: int,
                  from: Option<int>, at: Option<string>)
    returns (r: VerifyResult, hashes: nat)
    requires start <= |t|
    ensures r == Labelled(Walk(h, t, start, prev, expected, seen), from, at)
    ensures hashes == WalkHashes(h, t, start, prev, expected)
  {
    var expectedPrev, expectedSeq, count := prev, expected, seen;
    hashes := 0;
    for i := start to |t|
      invariant Walk(h, t, i, expectedPrev, expectedSeq, count) == Walk(h, t, start, prev, expected, seen)
      invariant hashes + WalkHashes(h, t, i, expectedPrev, expectedSeq) == WalkHashes(h, t, start, prev, expected)
    {
      var entry := t[i];
      count := count + 1;
      if expectedSeq.None? {
        expectedSeq := Some(entry.seqNo);
      }
      if entry.seqNo != expectedSeq.value {
        return Broken(count, entry.seqNo, Gap(expectedSeq.value)), hashes;
      }
      if entry.content.prevHash != expectedPrev {
        return Broken(count, entry.seqNo, PrevHashMismatch), hashes;
      }
      var recomputed := h(entry.content);
      hashes := hashes + 1;
      if recomputed != entry.entryHash {
        return Broken(count, entry.seqNo, ContentMismatch), hashes;
      }
      expectedPrev := entry.entryHash;
      expectedSeq := Some(entry.seqNo + 1);
    }
    r := Valid(count, from, at);
  }

  // ----- Prefixes -----

  function HeadHash(t: seq<Entry>): string {
    PrevOf(t, |t|)
  }

  lemma LinkedPrefix(h: EntryHash, t: seq<Entry>, n: nat)
    requires n <= |t| && Links(h, t, 0, n, FirstSeq(t))
    ensures Linked(h, t[..n])
  {
    var u := t[..n];
    forall i | 0 <= i < n ensures Link(h, u, i, FirstSeq(u)) {
      assert Link(h, t, i, FirstSeq(t));
    }
  }

  /** In a linked table numbers run on by one and every hash is its content's. */
  lemma LinkedAt(h: EntryHash, t: seq<Entry>, i: nat)
    requires Linked(h, t) && i < |t|
    ensures t[i].seqNo == t[0].seqNo + i && t[i].content.prevHash == PrevOf(t, i)
    ensures h(t[i].content) == t[i].entryHash
  {
    assert Link(h, t, i, FirstSeq(t));
  }
}
