/**
 Checkpoints: the routine check that walks only what was appended since the last
 full verification, and how far it agrees with the full walk.
 */
module Checkpoints {
  import opened Json
  import opened Wrappers
  import opened HashChain

  datatype Checkpoint = Checkpoint(seqNo: int, entryHash: string, verifiedAt: string)

  /** evidence_log by seq, and chain_checkpoints by its unique seq. */
  datatype LogState = LogState(entries: seq<Entry>, checkpoints: seq<Checkpoint>)

  // ----- Queries -----

  function CountIn(t: seq<Entry>, n: nat, q: int): (c: nat)
    requires n <= |t|
    ensures c <= n
  {
    if n == 0 then 0 else CountIn(t, n - 1, q) + if t[n - 1].seqNo <= q then 1 else 0
  }

  /** SELECT count(*) WHERE seq <= q. */
  function CountTo(t: seq<Entry>, q: int): (n: nat)
    ensures n <= |t|
  {
    CountIn(t, |t|, q)
  }

  function LookupIn(t: seq<Entry>, n: nat, q: int): Option<Entry>
    requires n <= |t|
  {
    if n == 0 then None else if t[n - 1].seqNo == q then Some(t[n - 1]) else LookupIn(t, n - 1, q)
  }

  /** session.get(EvidenceEntry, q). */
  function Lookup(t: seq<Entry>, q: int): Option<Entry> {
    LookupIn(t, |t|, q)
  }

  lemma {:induction false} CountInAt(t: seq<Entry>, n: nat, q: int, c: nat)
    requires c <= n <= |t|
    requires forall i :: 0 <= i < c ==> t[i].seqNo <= q
    requires forall i :: c <= i < n ==> q < t[i].seqNo
    ensures CountIn(t, n, q) == c
  {
    if n > 0 {
      CountInAt(t, n - 1, q, if c == n then c - 1 else c);
    }
  }

  /** Where the rows numbered up to q end. */
  lemma {:induction false} Boundary(t: seq<Entry>, n: nat, q: int) returns (c: nat)
    requires Keyed(t) && n <= |t|
    ensures c <= n
    ensures forall i :: 0 <= i < c ==> t[i].seqNo <= q
    ensures forall i :: c <= i < n ==> q < t[i].seqNo
  {
    if n == 0 || t[n - 1].seqNo <= q {
      c := n;
    } else {
      c := Boundary(t, n - 1, q);
    }
  }

  lemma CountToSplits(t: seq<Entry>, q: int)
    requires Keyed(t)
    ensures forall i :: 0 <= i < CountTo(t, q) ==> t[i].seqNo <= q
    ensures forall i :: CountTo(t, q) <= i < |t| ==> q < t[i].seqNo
  {
    var c := Boundary(t, |t|, q);
    CountInAt(t, |t|, q, c);
  }

  lemma {:induction false} LookupExact(t: seq<Entry>, n: nat, q: int)
    requires n <= |t|
    ensures var r := LookupIn(t, n, q);
      && (r.Some? ==> exists i :: 0 <= i < n && t[i] == r.value && t[i].seqNo == q)
      && (r.None? ==> forall i :: 0 <= i < n ==> t[i].seqNo != q)
  {
    if n > 0 {
      LookupExact(t, n - 1, q);
    }
  }

  /** In key order the entry numbered q, if there is one, is the last one up to q. */
  lemma LookupIsLast(t: seq<Entry>, q: int)
    requires Keyed(t)
    ensures var n := CountTo(t, q);
      if n > 0 && t[n - 1].seqNo == q then Lookup(t, q) == Some(t[n - 1]) else Lookup(t, q) == None
  {
    CountToSplits(t, q);
    LookupExact(t, |t|, q);
  }

  // ----- The routine check -----

  /** The log has the checkpoint's entry, unaltered, and a row for every number up to it; else, how it fails. */
  function Anchored(h: EntryHash, t: seq<Entry>, cp: Checkpoint): Option<VerifyResult> {
    var anchor := Lookup(t, cp.seqNo);
    var below := CountTo(t, cp.seqNo);
    if anchor.None? || anchor.value.entryHash != cp.entryHash then
      Some(Broken(below, cp.seqNo, CheckpointMismatch))
    else if h(anchor.value.content) != anchor.value.entryHash then
      Some(Broken(below, cp.seqNo, ContentMismatch))
    else if t == [] || below != cp.seqNo - t[0].seqNo + 1 then
      Some(Broken(below, cp.seqNo, EntriesGone))
    else if t[|t| - 1].seqNo < cp.seqNo then
      Some(Broken(below, cp.seqNo, ShorterThanCheckpoint))
    else None
  }

  function AnchorHashes(t: seq<Entry>, cp: Checkpoint): nat {
    var anchor := Lookup(t, cp.seqNo);
    if anchor.None? || anchor.value.entryHash != cp.entryHash then 0 else 1
  }

  /** The walk of the rows above the checkpoint. */
  function WalkAbove(h: EntryHash, t: seq<Entry>, cp: Checkpoint): VerifyResult {
    Walk(h, t, CountTo(t, cp.seqNo), cp.entryHash, Some(cp.seqNo + 1), CountTo(t, cp.seqNo))
  }

  function CheckFrom(h: EntryHash, t: seq<Entry>, cp: Checkpoint): VerifyResult {
    match Anchored(h, t, cp)
    case Some(failed) => failed
    case None => Labelled(WalkAbove(h, t, cp), Some(cp.seqNo + 1), Some(cp.verifiedAt))
  }

  function SinceCheckpoint(h: EntryHash, s: LogState): VerifyResult {
    if s.checkpoints == [] then Verify(h, s.entries)
    else CheckFrom(h, s.entries, s.checkpoints[|s.checkpoints| - 1])
  }

  function CheckHashes(h: EntryHash, t: seq<Entry>, cp: Checkpoint): nat {
    AnchorHashes(t, cp) +
    if Anchored(h, t, cp).Some? then 0 else WalkHashes(h, t, CountTo(t, cp.seqNo), cp.entryHash, Some(cp.seqNo + 1))
  }

  function SinceHashes(h: EntryHash, s: LogState): nat {
    if s.checkpoints == [] then WalkHashes(h, s.entries, 0, GENESIS, None)
    else
      var cp := s.checkpoints[|s.checkpoints| - 1];
      CheckHashes(h, s.entries, cp)
  }

  /** Mark the current head as verified: one row per advance. */
  function WriteCheckpoint(s: LogState, now: string): LogState {
    if s.entries == [] then s
    else
      var head := s.entries[|s.entries| - 1];
      if s.checkpoints != [] && s.checkpoints[|s.checkpoints| - 1].seqNo >= head.seqNo then s
      else s.(checkpoints := s.checkpoints + [Checkpoint(head.seqNo, head.entryHash, now)])
  }

  function RoutineCheck(h: EntryHash, s: LogState, record: bool, now: string): LogState {
    if SinceCheckpoint(h, s).Valid? && record then WriteCheckpoint(s, now) else s
  }

  // ----- Appending -----

  function NewEntry(h: EntryHash, t: seq<Entry>, at: string, eventType: string, payload: Json): Entry {
    var content := Content(HeadHash(t), at, eventType, payload);
    Entry(if t == [] then 1 else t[|t| - 1].seqNo + 1, content, h(content))
  }

  /** The unique indexes on prev_hash and entry_hash admit the row. */
  predicate Fits(t: seq<Entry>, e: Entry) {
    forall f <- t :: f.content.prevHash != e.content.prevHash && f.entryHash != e.entryHash
  }

  /** An append that an index refuses is rolled back. */
  function Append(h: EntryHash, t: seq<Entry>, at: string, eventType: string, payload: Json): seq<Entry> {
    var e := NewEntry(h, t, at, eventType, payload);
    if Fits(t, e) then t + [e] else t
  }

  /** What an append leaves: the table as it was, or one row more at the end, numbered and hashed after the head. */
  ghost predicate Appended(h: EntryHash, t: seq<Entry>, u: seq<Entry>, at: string, eventType: string, payload: Json) {
    var prev := if t == [] then GENESIS else t[|t| - 1].entryHash;
    var content := Content(prev, at, eventType, payload);
    var seqNo := if t == [] then 1 else t[|t| - 1].seqNo + 1;
    if exists f :: f in t && (f.content.prevHash == prev || f.entryHash == h(content)) then u == t
    else u == t + [Entry(seqNo, content, h(content))]
  }

  /** Refused exactly when a unique index has the head's hash or the new one already. */
  lemma AppendExact(h: EntryHash, t: seq<Entry>, at: string, eventType: string, payload: Json)
    ensures Appended(h, t, Append(h, t, at, eventType, payload), at, eventType, payload)
  {
    assert HeadHash(t) == if t == [] then GENESIS else t[|t| - 1].entryHash;
  }

  // ----- What a check answers -----

  /** The rows numbered up to q are the first n. */
  predicate RowsTo(t: seq<Entry>, q: int, n: nat) {
    && n <= |t|
    && (forall i :: 0 <= i < n ==> t[i].seqNo <= q)
    && forall i :: n <= i < |t| ==> q < t[i].seqNo
  }

  /** Row k is the checkpoint's entry, and its content still hashes to what the checkpoint holds. */
  predicate IsAnchor(h: EntryHash, t: seq<Entry>, cp: Checkpoint, k: int) {
    0 <= k < |t| && t[k].seqNo == cp.seqNo && t[k].entryHash == cp.entryHash && h(t[k].content) == cp.entryHash
  }

  /** The rows up to k are numbered one after the other. */
  predicate Unbroken(t: seq<Entry>, k: int)
    requires k < |t|
  {
    forall i :: 0 <= i <= k ==> t[i].seqNo == t[0].seqNo + i
  }

  /** Which failure is reported, first things first, with its number and its count. */
  ghost predicate Reports(h: EntryHash, t: seq<Entry>, cp: Checkpoint, n: nat, r: VerifyResult)
    requires n <= |t|
  {
    if n == 0 || t[n - 1].seqNo != cp.seqNo || t[n - 1].entryHash != cp.entryHash then
      r == Broken(n, cp.seqNo, CheckpointMismatch)
    else if !IsAnchor(h, t, cp, n - 1) then r == Broken(n, cp.seqNo, ContentMismatch)
    else if !Unbroken(t, n - 1) then r == Broken(n, cp.seqNo, EntriesGone)
    else
      && r.Broken? && n < r.entries <= |t| && r.firstBadSeq == t[r.entries - 1].seqNo
      && BrokenAt(h, t, n, r.entries - 1, t[0].seqNo, r.reason)
  }

  /** The answer of a check from this checkpoint, read off the rows. */
  ghost predicate Answers(h: EntryHash, t: seq<Entry>, cp: Checkpoint, r: VerifyResult) {
    && (r.Valid? <==> exists k :: IsAnchor(h, t, cp, k) && Unbroken(t, k) && Links(h, t, k + 1, |t|, t[0].seqNo))
    && (r.Valid? ==> r == Valid(|t|, Some(cp.seqNo + 1), Some(cp.verifiedAt)))
    && (r.Broken? ==> exists n :: RowsTo(t, cp.seqNo, n) && Reports(h, t, cp, n, r))
  }

  /** Increasing numbers are at least consecutive. */
  lemma {:induction false} KeyedGrows(t: seq<Entry>, i: nat, j: nat)
    requires Keyed(t) && i <= j < |t|
    ensures t[j].seqNo - t[i].seqNo >= j - i
  {
    if i < j {
      KeyedGrows(t, i, j - 1);
      assert t[j - 1].seqNo < t[j].seqNo;
    }
  }

  lemma UnbrokenCount(t: seq<Entry>, q: int, n: nat)
    requires Keyed(t) && RowsTo(t, q, n) && n > 0 && t[n - 1].seqNo == q
    ensures Unbroken(t, n - 1) <==> n == q - t[0].seqNo + 1
  {
    if n == q - t[0].seqNo + 1 {
      forall i | 0 <= i < n ensures t[i].seqNo == t[0].seqNo + i {
        KeyedGrows(t, 0, i);
        KeyedGrows(t, i, n - 1);
      }
    }
  }

  lemma AnchorAt(h: EntryHash, t: seq<Entry>, cp: Checkpoint, n: nat, k: int)
    requires Keyed(t) && RowsTo(t, cp.seqNo, n) && IsAnchor(h, t, cp, k)
    ensures k == n - 1
  {
    if k < n - 1 {
      KeyedGrows(t, k, n - 1);
    }
  }

  /**
   For any table in key order and any checkpoint, whatever was done to either: the check
   passes if and only if the checkpoint's own entry is there and unaltered, every number
   from the lowest up to it has its row, and the rows above follow one another; and a
   failure reports the first of the four things that is wrong.
   */
  lemma CheckExact(h: EntryHash, t: seq<Entry>, cp: Checkpoint)
    requires Keyed(t)
    ensures Answers(h, t, cp, CheckFrom(h, t, cp))
  {
    hide Links, BrokenAt;
    var n, r := CountTo(t, cp.seqNo), CheckFrom(h, t, cp);
    CountToSplits(t, cp.seqNo);
    LookupIsLast(t, cp.seqNo);
    assert RowsTo(t, cp.seqNo, n);
    forall k | IsAnchor(h, t, cp, k) ensures k == n - 1 {
      AnchorAt(h, t, cp, n, k);
    }
    if n == 0 || t[n - 1].seqNo != cp.seqNo || t[n - 1].entryHash != cp.entryHash {
      assert Reports(h, t, cp, n, r);
    } else {
      UnbrokenCount(t, cp.seqNo, n);
      if IsAnchor(h, t, cp, n - 1) && Unbroken(t, n - 1) {
        assert t[|t| - 1].seqNo >= t[n - 1].seqNo;
        WalkExact(h, t, n, Some(cp.seqNo + 1), n, t[0].seqNo);
      }
      assert r.Broken? ==> Reports(h, t, cp, n, r);
    }
  }

  /**
   What a check with this answer hashes: the checkpoint's entry, unless that is not its own,
   then the rows above it up to where the walk ends, and none below.
   */
  ghost predicate HashesFrom(h: EntryHash, t: seq<Entry>, cp: Checkpoint, r: VerifyResult, hashes: nat) {
    && (r.Broken? && r.firstBadSeq == cp.seqNo ==> hashes == if r.reason == CheckpointMismatch then 0 else 1)
    && (r.Valid? || r.firstBadSeq != cp.seqNo ==>
          forall k :: IsAnchor(h, t, cp, k) ==> hashes == r.entries - k - Unhashed(r))
  }

  lemma HashesExact(h: EntryHash, t: seq<Entry>, cp: Checkpoint)
    requires Keyed(t)
    ensures HashesFrom(h, t, cp, CheckFrom(h, t, cp), CheckHashes(h, t, cp))
  {
    hide Links, BrokenAt;
    var n, r := CountTo(t, cp.seqNo), CheckFrom(h, t, cp);
    CountToSplits(t, cp.seqNo);
    LookupIsLast(t, cp.seqNo);
    if Anchored(h, t, cp).None? {
      WalkHashesExact(h, t, n, cp.entryHash, Some(cp.seqNo + 1), n);
      WalkExact(h, t, n, Some(cp.seqNo + 1), n, cp.seqNo + 1 - n);
      assert r.Broken? ==> r.firstBadSeq > cp.seqNo;
    }
    forall k | IsAnchor(h, t, cp, k) ensures k == n - 1 {
      AnchorAt(h, t, cp, n, k);
    }
  }

  /** One row per advance of the head, and none over an empty log. */
  predicate HeadMarked(t: seq<Entry>, before: seq<Checkpoint>, after: seq<Checkpoint>, now: string) {
    if t == [] || (before != [] && before[|before| - 1].seqNo >= t[|t| - 1].seqNo) then after == before
    else after == before + [Checkpoint(t[|t| - 1].seqNo, t[|t| - 1].entryHash, now)]
  }

  /** The two tables and the operations on them, as the session methods change them. */
  class EvidenceLog {
    const hash: EntryHash
    var entries: seq<Entry>
    var checkpoints: seq<Checkpoint>

    ghost function State(): LogState
      reads this
    {
      LogState(entries, checkpoints)
    }

    constructor (hash: EntryHash)
      ensures this.hash == hash && State() == LogState([], [])
    {
      this.hash := hash;
      entries, checkpoints := [], [];
    }

    method AppendEvent(at: string, eventType: string, payload: Json) returns (ok: bool)
      modifies this`entries
      ensures var t := old(entries);
        var prev := if t == [] then GENESIS else t[|t| - 1].entryHash;
        var digest := hash(Content(prev, at, eventType, payload));
        && (ok <==> (forall f <- t :: f.content.prevHash != prev) && forall f <- t :: f.entryHash != digest)
        && (!ok ==> entries == t)
        && (ok ==>
              && |entries| == |t| + 1 && entries[..|t|] == t
              && entries[|t|].seqNo == (if t == [] then 1 else t[|t| - 1].seqNo + 1)
              && entries[|t|].content == Content(prev, at, eventType, payload)
              && entries[|t|].entryHash == digest)
      ensures entries == Append(hash, old(entries), at, eventType, payload)
    {
      var prevHash := if entries == [] then GENESIS else entries[|entries| - 1].entryHash;
      var seqNo := if entries == [] then 1 else entries[|entries| - 1].seqNo + 1;
      var content := Content(prevHash, at, eventType, payload);
      var entry := Entry(seqNo, content, hash(content));
      ok := Fits(entries, entry);
      if ok {
        entries := entries + [entry];
      }
    }

    method VerifyAll() returns (r: VerifyResult, hashes: nat)
      ensures r == Verify(hash, entries)
      ensures hashes == WalkHashes(hash, entries, 0, GENESIS, None)
      ensures (r.Valid? <==> Linked(hash, entries)) && hashes == r.entries - Unhashed(r)
      ensures r.Broken? ==>
                && 0 < r.entries <= |entries| && r.firstBadSeq == entries[r.entries - 1].seqNo
                && BrokenAt(hash, entries, 0, r.entries - 1, FirstSeq(entries), r.reason)
    {
      r, hashes := WalkRows(hash, entries, 0, GENESIS, None, 0, None, None);
      VerifyExact(hash, entries);
      WalkHashesExact(hash, entries, 0, GENESIS, None, 0);
    }

    method MarkHead(now: string)
      modifies this`checkpoints
      ensures State() == WriteCheckpoint(old(State()), now)
      ensures HeadMarked(entries, old(checkpoints), checkpoints, now)
    {
      if entries == [] {
        return;
      }
      var head := entries[|entries| - 1];
      if checkpoints != [] && checkpoints[|checkpoints| - 1].seqNo >= head.seqNo {
        return;
      }
      checkpoints := checkpoints + [Checkpoint(head.seqNo, head.entryHash, now)];
    }

    method CheckAnchor(cp: Checkpoint) returns (failed: Option<VerifyResult>, hashes: nat)
      ensures failed == Anchored(hash, entries, cp) && hashes == AnchorHashes(entries, cp)
    {
      hashes := 0;
      var anchor := Lookup(entries, cp.seqNo);
      var below := CountTo(entries, cp.seqNo);
      if anchor.None? || anchor.value.entryHash != cp.entryHash {
        return Some(Broken(below, cp.seqNo, CheckpointMismatch)), hashes;
      }
      var recomputed := hash(anchor.value.content);
      hashes := hashes + 1;
      if recomputed != anchor.value.entryHash {
        return Some(Broken(below, cp.seqNo, ContentMismatch)), hashes;
      }
      if entries == [] || below != cp.seqNo - entries[0].seqNo + 1 {
        return Some(Broken(below, cp.seqNo, EntriesGone)), hashes;
      }
      if entries[|entries| - 1].seqNo < cp.seqNo {
        return Some(Broken(below, cp.seqNo, ShorterThanCheckpoint)), hashes;
      }
      failed := None;
    }

    method VerifySinceCheckpoint(record: bool, now: string) returns (r: VerifyResult, hashes: nat)
      modifies this`checkpoints
      ensures r == SinceCheckpoint(hash, old(State()))
      ensures hashes == SinceHashes(hash, old(State()))
      ensures State() == RoutineCheck(hash, old(State()), record, now)
      ensures old(checkpoints) == [] ==> (r.Valid? <==> Linked(hash, entries))
      ensures old(checkpoints) != [] && Keyed(entries) ==>
                Answers(hash, entries, old(checkpoints)[|old(checkpoints)| - 1], r)
      ensures old(checkpoints) == [] ==> hashes == r.entries - Unhashed(r)
      ensures old(checkpoints) != [] && Keyed(entries) ==>
                HashesFrom(hash, entries, old(checkpoints)[|old(checkpoints)| - 1], r, hashes)
      ensures if r.Valid? && record then HeadMarked(entries, old(checkpoints), checkpoints, now)
              else checkpoints == old(checkpoints)
    {
      hide Anchored, AnchorHashes, Answers, HashesFrom, HeadMarked, Linked, Keyed, Walk, WalkHashes, CountTo;
      if checkpoints == [] {
        r, hashes := VerifyAll();
      } else {
        var cp := checkpoints[|checkpoints| - 1];
        var failed;
        failed, hashes := CheckAnchor(cp);
        if failed.Some? {
          r := failed.value;
        } else {
          var more;
          var below := CountTo(entries, cp.seqNo);
          r, more := WalkRows(hash, entries, below, cp.entryHash, Some(cp.seqNo + 1), below,
                              Some(cp.seqNo + 1), Some(cp.verifiedAt));
          hashes := hashes + more;
        }
      }
      if old(checkpoints) == [] {
        VerifyExact(hash, entries);
        WalkHashesExact(hash, entries, 0, GENESIS, None, 0);
      } else if Keyed(entries) {
        ghost var cp := old(checkpoints)[|old(checkpoints)| - 1];
        CheckExact(hash, entries, cp);
        HashesExact(hash, entries, cp);
      }
      if r.Valid? && record {
        MarkHead(now);
      }
    }
  }

  // ----- The routine check refines the full walk -----

  /** Equal ok, entries, first_bad_seq and reason. */
  predicate Agree(r: VerifyResult, full: VerifyResult) {
    match r
    case Valid(n, _, _) => full.Valid? && full.entries == n
    case Broken(_, _, _) => r == full
  }

  /** The checkpoint names an entry that ends a fully valid prefix. */
  predicate Marks(h: EntryHash, t: seq<Entry>, cp: Checkpoint) {
    var n := CountTo(t, cp.seqNo);
    n > 0 && t[n - 1].seqNo == cp.seqNo && t[n - 1].entryHash == cp.entryHash && Links(h, t, 0, n, t[0].seqNo)
  }

  /** A walk whose first rows link carries on after them. */
  lemma {:induction false} WalkOn(h: EntryHash, t: seq<Entry>, i: nat, n: nat, expected: Option<int>, count: int,
                                  first: int)
    requires i < n <= |t| && expected.GetOr(t[i].seqNo) == first + i && Links(h, t, i, n, first)
    ensures Walk(h, t, i, PrevOf(t, i), expected, count)
         == Walk(h, t, n, PrevOf(t, n), Some(first + n), count + n - i)
    decreases n - i
  {
    assert Link(h, t, i, first);
    if i + 1 < n {
      WalkOn(h, t, i + 1, n, Some(first + i + 1), count + 1, first);
    }
  }

  /** With the prefix up to the checkpoint valid, both checks give one answer whatever stands above it. */
  lemma RoutineRefinesFull(h: EntryHash, s: LogState)
    requires Keyed(s.entries)
    requires s.checkpoints != [] ==> Marks(h, s.entries, s.checkpoints[|s.checkpoints| - 1])
    ensures Agree(SinceCheckpoint(h, s), Verify(h, s.entries))
  {
    if s.checkpoints != [] {
      var t, cp := s.entries, s.checkpoints[|s.checkpoints| - 1];
      var n := CountTo(t, cp.seqNo);
      LookupIsLast(t, cp.seqNo);
      assert Link(h, t, n - 1, t[0].seqNo);
      assert t[|t| - 1].seqNo >= t[n - 1].seqNo;
      WalkOn(h, t, 0, n, None, 0, t[0].seqNo);
    }
  }

  // ----- What the routine check cannot see -----

  /** Every number from the lowest present one up to q has an entry. */
  predicate Contiguous(t: seq<Entry>, q: int) {
    t != [] && forall k :: 0 <= k <= q - t[0].seqNo ==> k < |t| && t[k].seqNo == t[0].seqNo + k
  }

  /** As many entries as numbers means one entry per number. */
  lemma CountMeansContiguous(t: seq<Entry>, q: int)
    requires Keyed(t) && t != [] && CountTo(t, q) == q - t[0].seqNo + 1 > 0
    ensures Contiguous(t, q)
  {
    var n := CountTo(t, q);
    CountToSplits(t, q);
    forall k | 0 <= k <= q - t[0].seqNo ensures k < |t| && t[k].seqNo == t[0].seqNo + k {
      KeyedGrows(t, 0, k);
      KeyedGrows(t, k, n - 1);
    }
  }

  /** When the rows from n on link, only a row below n can fail the walk. */
  lemma BrokenBelow(h: EntryHash, t: seq<Entry>, n: nat)
    requires n <= |t| && t != [] && Links(h, t, n, |t|, t[0].seqNo)
    ensures Verify(h, t).Valid? <==> Links(h, t, 0, n, t[0].seqNo)
    ensures Verify(h, t).Broken? ==> exists k :: 0 <= k < n && Verify(h, t).firstBadSeq == t[k].seqNo
  {
    VerifyExact(h, t);
    var r := Verify(h, t);
    if r.Broken? {
      assert !Link(h, t, r.entries - 1, t[0].seqNo);
    }
  }

  /**
   An arbitrary table and checkpoint. If the routine check passes, nothing between
   the lowest entry and the checkpoint is missing, the full walk passes exactly when
   the rows up to the checkpoint link, and otherwise it stops at or below it.
   */
  lemma BlindSpot(h: EntryHash, t: seq<Entry>, cp: Checkpoint)
    requires Keyed(t) && CheckFrom(h, t, cp).Valid?
    ensures Lookup(t, cp.seqNo).Some? && Contiguous(t, cp.seqNo)
    ensures Verify(h, t).Valid? <==> Links(h, t, 0, CountTo(t, cp.seqNo), t[0].seqNo)
    ensures Verify(h, t).Broken? ==> Verify(h, t).firstBadSeq <= cp.seqNo
  {
    var n := CountTo(t, cp.seqNo);
    LookupIsLast(t, cp.seqNo);
    CountMeansContiguous(t, cp.seqNo);
    assert t[n - 1].seqNo == t[0].seqNo + n - 1;
    WalkExact(h, t, n, Some(cp.seqNo + 1), n, t[0].seqNo);
    BrokenBelow(h, t, n);
    CountToSplits(t, cp.seqNo);
  }

  lemma CountToAt(t: seq<Entry>, q: int, n: nat)
    requires Keyed(t) && n <= |t|
    requires (n > 0 ==> t[n - 1].seqNo <= q) && (n < |t| ==> q < t[n].seqNo)
    ensures CountTo(t, q) == n
  {
    CountInAt(t, |t|, q, n);
  }

  lemma {:induction false} WalkReadsOn(h: EntryHash, t: seq<Entry>, u: seq<Entry>, i: nat, prev: string,
                                       expected: Option<int>, count: int)
    requires |t| == |u| && i <= |t| && forall k :: i <= k < |t| ==> t[k] == u[k]
    ensures Walk(h, t, i, prev, expected, count) == Walk(h, u, i, prev, expected, count)
    decreases |t| - i
  {
    if i < |t| {
      WalkReadsOn(h, t, u, i + 1, t[i].entryHash, Some(expected.GetOr(t[i].seqNo) + 1), count + 1);
    }
  }

  /** Below its entry the checkpoint is compared with the count alone: contents there go unread. */
  lemma UnreadBelow(h: EntryHash, t: seq<Entry>, u: seq<Entry>, cp: Checkpoint)
    requires Keyed(t) && Keyed(u) && |t| == |u|
    requires var n := CountTo(t, cp.seqNo);
      0 < n == CountTo(u, cp.seqNo) && t[0].seqNo == u[0].seqNo && forall i :: n - 1 <= i < |t| ==> t[i] == u[i]
    ensures CheckFrom(h, t, cp) == CheckFrom(h, u, cp)
  {
    var n := CountTo(t, cp.seqNo);
    LookupIsLast(t, cp.seqNo);
    LookupIsLast(u, cp.seqNo);
    WalkReadsOn(h, t, u, n, cp.entryHash, Some(cp.seqNo + 1), n);
  }

  lemma LinksDrop(h: EntryHash, t: seq<Entry>, k: nat, n: nat)
    requires Linked(h, t) && k < n <= |t|
    ensures Links(h, t[k..], n - k, |t| - k, t[0].seqNo + k)
  {
    var u, first := t[k..], t[0].seqNo + k;
    forall i | n - k <= i < |u| ensures Link(h, u, i, first) {
      LinkedAt(h, t, k + i);
      assert u[i] == t[k + i] && u[i - 1] == t[k + i - 1];
    }
  }

  /** A block that reaches the checkpoint keeps its entry, and every number from the block's first row to it. */
  lemma BlockAnchors(h: EntryHash, t: seq<Entry>, k: nat, cp: Checkpoint)
    requires Keyed(t) && Linked(h, t) && Marks(h, t, cp) && k < CountTo(t, cp.seqNo)
    ensures var at := CountTo(t, cp.seqNo) - k - 1;
      Keyed(t[k..]) && IsAnchor(h, t[k..], cp, at) && Unbroken(t[k..], at)
  {
    hide Linked;
    var n, u := CountTo(t, cp.seqNo), t[k..];
    LinkedAt(h, t, n - 1);
    LinkedAt(h, t, k);
    forall i | 0 <= i < n - k ensures u[i].seqNo == u[0].seqNo + i {
      LinkedAt(h, t, k + i);
    }
  }

  lemma BlockPasses(h: EntryHash, t: seq<Entry>, k: nat, cp: Checkpoint)
    requires Keyed(t) && Linked(h, t) && Marks(h, t, cp) && k < CountTo(t, cp.seqNo)
    ensures CheckFrom(h, t[k..], cp).Valid?
  {
    hide CheckFrom, Linked, IsAnchor, Unbroken, Keyed, Links;
    BlockAnchors(h, t, k, cp);
    LinksDrop(h, t, k, CountTo(t, cp.seqNo));
    LinkedAt(h, t, k);
    CheckExact(h, t[k..], cp);
  }

  /** What a checkpoint marks stays marked while the entries up to it stay. */
  lemma MarksKept(h: EntryHash, t: seq<Entry>, u: seq<Entry>, cp: Checkpoint, m: nat)
    requires Keyed(t) && Keyed(u) && Marks(h, t, cp)
    requires CountTo(t, cp.seqNo) <= m <= |t| && m <= |u| && t[..m] == u[..m]
    ensures Marks(h, u, cp)
  {
    var n := CountTo(t, cp.seqNo);
    CountToSplits(t, cp.seqNo);
    forall i | 0 <= i < n ensures t[i] == u[i] {
      assert t[..m][i] == u[..m][i];
    }
    forall i | 0 <= i < n ensures Link(h, u, i, t[0].seqNo) {
      assert Link(h, t, i, t[0].seqNo);
    }
    assert n < |u| ==> u[n - 1].seqNo < u[n].seqNo;
    CountToAt(u, cp.seqNo, n);
  }

  /** A prefix that reaches the checkpoint is as linked, and as marked. */
  lemma PrefixMarks(h: EntryHash, t: seq<Entry>, m: nat, cp: Checkpoint)
    requires Keyed(t) && Linked(h, t) && Marks(h, t, cp) && CountTo(t, cp.seqNo) <= m <= |t|
    ensures Keyed(t[..m]) && Linked(h, t[..m]) && Marks(h, t[..m], cp)
    ensures CountTo(t[..m], cp.seqNo) == CountTo(t, cp.seqNo)
  {
    var n := CountTo(t, cp.seqNo);
    LinkedPrefix(h, t, m);
    MarksKept(h, t, t[..m], cp, m);
    CountToSplits(t, cp.seqNo);
    assert m < |t| || t[..m] == t;
    assert n < m ==> t[..m][n] == t[n];
    CountToAt(t[..m], cp.seqNo, n);
  }

  /** Rows that pass the check are numbered without a gap. */
  lemma PassingIsContiguous(h: EntryHash, u: seq<Entry>, cp: Checkpoint)
    requires Keyed(u) && CheckFrom(h, u, cp).Valid?
    ensures u != [] && forall i :: 0 <= i < |u| ==> u[i].seqNo == u[0].seqNo + i
    ensures u[0].seqNo <= cp.seqNo <= u[|u| - 1].seqNo
  {
    var n := CountTo(u, cp.seqNo);
    BlindSpot(h, u, cp);
    LookupIsLast(u, cp.seqNo);
    assert u[n - 1].seqNo == u[0].seqNo + n - 1;
    WalkExact(h, u, n, Some(cp.seqNo + 1), n, u[0].seqNo);
    forall i | 0 <= i < |u| ensures u[i].seqNo == u[0].seqNo + i {
      if i >= n {
        assert Link(h, u, i, u[0].seqNo);
      }
    }
  }

  /** Consecutive rows of a linked table are a block of it. */
  lemma BlockOf(h: EntryHash, t: seq<Entry>, u: seq<Entry>) returns (k: nat)
    requires Linked(h, t) && u != [] && forall e <- u :: e in t
    requires forall i :: 0 <= i < |u| ==> u[i].seqNo == u[0].seqNo + i
    ensures k + |u| <= |t| && u == t[k..k + |u|]
  {
    forall i | 0 <= i < |u|
      ensures t != [] && 0 <= u[i].seqNo - t[0].seqNo < |t| && t[u[i].seqNo - t[0].seqNo] == u[i]
    {
      assert u[i] in u;
      var j :| 0 <= j < |t| && t[j] == u[i];
      LinkedAt(h, t, j);
    }
    k := u[0].seqNo - t[0].seqNo;
    var last := |u| - 1;
    assert u[last].seqNo == u[0].seqNo + last;
    forall i | 0 <= i < |u| ensures u[i] == t[k..k + |u|][i] {
      assert u[i].seqNo - t[0].seqNo == k + i;
    }
  }

  lemma BlockLinked(h: EntryHash, t: seq<Entry>, k: nat, m: nat)
    requires Linked(h, t) && k < m <= |t| && t[k].content.prevHash == GENESIS
    ensures Linked(h, t[k..m])
  {
    var u := t[k..m];
    LinkedAt(h, t, k);
    forall i | 0 <= i < |u| ensures Link(h, u, i, u[0].seqNo) {
      LinkedAt(h, t, k + i);
      assert u[i] == t[k + i];
      assert i > 0 ==> u[i - 1] == t[k + i - 1];
    }
  }

  /** The walk of a block fails, if at all, at its first row. */
  lemma BlockWalk(h: EntryHash, t: seq<Entry>, k: nat, m: nat)
    requires Linked(h, t) && k < m <= |t|
    ensures var u := t[k..m];
      && (u[0].content.prevHash == GENESIS ==> Verify(h, u).Valid?)
      && (u[0].content.prevHash != GENESIS ==> Verify(h, u) == Broken(1, u[0].seqNo, PrevHashMismatch))
  {
    var u := t[k..m];
    hide Linked;
    if u[0].content.prevHash == GENESIS {
      BlockLinked(h, t, k, m);
      VerifyExact(h, u);
    } else {
      assert Walk(h, u, 0, GENESIS, None, 0) == Broken(1, u[0].seqNo, PrevHashMismatch);
    }
  }

  /** One unbroken run of the table's rows that ends at row n or above. */
  ghost predicate IsBlock(t: seq<Entry>, u: seq<Entry>, n: nat) {
    exists k, m :: 0 <= k < n <= m <= |t| && u == t[k..m]
  }

  lemma PassingIsBlock(h: EntryHash, t: seq<Entry>, u: seq<Entry>, cp: Checkpoint)
    requires Linked(h, t) && Marks(h, t, cp) && Keyed(u) && forall e <- u :: e in t
    requires CheckFrom(h, u, cp).Valid?
    ensures IsBlock(t, u, CountTo(t, cp.seqNo))
    ensures u[0].content.prevHash == GENESIS ==> Verify(h, u).Valid?
    ensures u[0].content.prevHash != GENESIS ==> Verify(h, u) == Broken(1, u[0].seqNo, PrevHashMismatch)
  {
    hide CheckFrom, Verify;
    var n := CountTo(t, cp.seqNo);
    PassingIsContiguous(h, u, cp);
    var k := BlockOf(h, t, u);
    LinkedAt(h, t, n - 1);
    LinkedAt(h, t, k);
    LinkedAt(h, t, k + |u| - 1);
    BlockWalk(h, t, k, k + |u|);
  }

  lemma BlockIsPassing(h: EntryHash, t: seq<Entry>, u: seq<Entry>, cp: Checkpoint)
    requires Keyed(t) && Linked(h, t) && Marks(h, t, cp) && IsBlock(t, u, CountTo(t, cp.seqNo))
    ensures CheckFrom(h, u, cp).Valid?
  {
    hide CheckFrom, Marks;
    var k, m :| 0 <= k < CountTo(t, cp.seqNo) <= m <= |t| && u == t[k..m];
    PrefixMarks(h, t, m, cp);
    BlockPasses(h, t[..m], k, cp);
    assert t[..m][k..] == u;
  }

  /**
   Which losses the routine check sees. Of a valid chain some rows are left: they pass
   the check if and only if they are one unbroken block that reaches the checkpoint, and
   then the full walk too if and only if the block begins as a chain does.
   */
  lemma LossExact(h: EntryHash, t: seq<Entry>, u: seq<Entry>, cp: Checkpoint)
    requires Keyed(t) && Linked(h, t) && Marks(h, t, cp) && Keyed(u) && forall e <- u :: e in t
    ensures CheckFrom(h, u, cp).Valid? <==> IsBlock(t, u, CountTo(t, cp.seqNo))
    ensures CheckFrom(h, u, cp).Valid? ==>
              && u != []
              && Verify(h, u) == if u[0].content.prevHash == GENESIS then Valid(|u|, None, None)
                                 else Broken(1, u[0].seqNo, PrevHashMismatch)
  {
    hide CheckFrom, Marks, IsBlock;
    if IsBlock(t, u, CountTo(t, cp.seqNo)) {
      BlockIsPassing(h, t, u, cp);
    }
    if CheckFrom(h, u, cp).Valid? {
      PassingIsBlock(h, t, u, cp);
      PassingIsContiguous(h, u, cp);
      VerifyExact(h, u);
    }
  }

  /** A valid chain that loses its lowest k entries passes the routine check and fails the full one. */
  lemma LowestGoneUnseen(h: EntryHash, t: seq<Entry>, k: nat, cp: Checkpoint)
    requires Keyed(t) && Linked(h, t) && Marks(h, t, cp)
    requires 0 < k < CountTo(t, cp.seqNo) && t[k].content.prevHash != GENESIS
    ensures CheckFrom(h, t[k..], cp).Valid?
    ensures Verify(h, t[k..]) == Broken(1, t[k].seqNo, PrevHashMismatch)
  {
    LossExact(h, t, t[k..], cp);
    assert t[k..] == t[k..|t|];
    LinkedAt(h, t, k);
  }

  // ----- Runs -----

  /** `Alter` puts anything at all above the latest checkpoint. */
  datatype LogOp =
    | AppendOp(at: string, eventType: string, payload: Json)
    | CheckOp(record: bool, now: string)
    | Alter(above: seq<Entry>)

  function Covered(s: LogState): (n: nat)
    ensures n <= |s.entries|
  {
    if s.checkpoints == [] then 0 else CountTo(s.entries, s.checkpoints[|s.checkpoints| - 1].seqNo)
  }

  function Step(h: EntryHash, s: LogState, op: LogOp): LogState {
    match op
    case AppendOp(at, ty, payload) => s.(entries := Append(h, s.entries, at, ty, payload))
    case CheckOp(record, now) => RoutineCheck(h, s, record, now)
    case Alter(above) =>
      var t := s.entries[..Covered(s)] + above;
      if Keyed(t) then s.(entries := t) else s
  }

  function Run(h: EntryHash, ops: seq<LogOp>): LogState {
    if ops == [] then LogState([], []) else Step(h, Run(h, ops[..|ops| - 1]), ops[|ops| - 1])
  }

  ghost predicate Sound(h: EntryHash, s: LogState) {
    && Keyed(s.entries)
    && (forall cp <- s.checkpoints :: Marks(h, s.entries, cp))
    && (forall i, j :: 0 <= i < j < |s.checkpoints| ==> s.checkpoints[i].seqNo < s.checkpoints[j].seqNo)
  }

  lemma {:induction false} CountInMonotone(t: seq<Entry>, n: nat, p: int, q: int)
    requires n <= |t| && p <= q
    ensures CountIn(t, n, p) <= CountIn(t, n, q)
  {
    if n > 0 {
      CountInMonotone(t, n - 1, p, q);
    }
  }

  lemma SoundKept(h: EntryHash, s: LogState, u: seq<Entry>)
    requires Sound(h, s) && Keyed(u)
    requires Covered(s) <= |u| && s.entries[..Covered(s)] == u[..Covered(s)]
    ensures Sound(h, s.(entries := u))
  {
    forall cp | cp in s.checkpoints ensures Marks(h, u, cp) {
      var i :| 0 <= i < |s.checkpoints| && s.checkpoints[i] == cp;
      var last := s.checkpoints[|s.checkpoints| - 1];
      assert cp.seqNo <= last.seqNo;
      CountInMonotone(s.entries, |s.entries|, cp.seqNo, last.seqNo);
      MarksKept(h, s.entries, u, cp, Covered(s));
    }
  }

  lemma MarksHead(h: EntryHash, t: seq<Entry>, now: string)
    requires Keyed(t) && Linked(h, t) && t != []
    ensures Marks(h, t, Checkpoint(t[|t| - 1].seqNo, t[|t| - 1].entryHash, now))
  {
    CountToAt(t, t[|t| - 1].seqNo, |t|);
  }

  lemma SoundCheck(h: EntryHash, s: LogState, now: string)
    requires Sound(h, s) && SinceCheckpoint(h, s).Valid?
    ensures Sound(h, WriteCheckpoint(s, now))
  {
    if s.checkpoints != [] {
      assert s.checkpoints[|s.checkpoints| - 1] in s.checkpoints;
    }
    RoutineRefinesFull(h, s);
    VerifyExact(h, s.entries);
    if s.entries != [] {
      MarksHead(h, s.entries, now);
    }
  }

  lemma SoundStep(h: EntryHash, s: LogState, op: LogOp)
    requires Sound(h, s)
    ensures Sound(h, Step(h, s, op))
  {
    match op
    case AppendOp(at, ty, payload) =>
      var u := Append(h, s.entries, at, ty, payload);
      assert s.entries[..Covered(s)] == u[..Covered(s)];
      SoundKept(h, s, u);
    case CheckOp(record, now) =>
      if SinceCheckpoint(h, s).Valid? && record {
        SoundCheck(h, s, now);
      }
    case Alter(above) =>
      var u := s.entries[..Covered(s)] + above;
      if Keyed(u) {
        assert s.entries[..Covered(s)] == u[..Covered(s)];
        SoundKept(h, s, u);
      }
  }

  lemma {:induction false} SoundRun(h: EntryHash, ops: seq<LogOp>)
    ensures Sound(h, Run(h, ops))
  {
    if ops != [] {
      SoundRun(h, ops[..|ops| - 1]);
      SoundStep(h, Run(h, ops[..|ops| - 1]), ops[|ops| - 1]);
    }
  }

  /**
   Over every run of appends, checks and arbitrary changes above the latest
   checkpoint: every checkpoint marks a fully valid prefix, their numbers strictly
   increase, and the routine check answers as the full one.
   */
  lemma CheckpointRuns(h: EntryHash, ops: seq<LogOp>)
    ensures var s := Run(h, ops);
      && Agree(SinceCheckpoint(h, s), Verify(h, s.entries))
      && (forall cp <- s.checkpoints :: Marks(h, s.entries, cp))
      && (forall i, j :: 0 <= i < j < |s.checkpoints| ==> s.checkpoints[i].seqNo < s.checkpoints[j].seqNo)
  {
    SoundRun(h, ops);
    var s := Run(h, ops);
    if s.checkpoints != [] {
      assert s.checkpoints[|s.checkpoints| - 1] in s.checkpoints;
    }
    RoutineRefinesFull(h, s);
  }

  /** The first n rows are those up to the latest checkpoint. */
  predicate IsCovered(s: LogState, n: nat) {
    && n <= |s.entries|
    && if s.checkpoints == [] then n == 0 else RowsTo(s.entries, s.checkpoints[|s.checkpoints| - 1].seqNo, n)
  }

  /** What one operation of a run does to the two tables. */
  ghost predicate Moved(h: EntryHash, s: LogState, u: LogState, op: LogOp) {
    match op
    case AppendOp(at, ty, payload) =>
      u.checkpoints == s.checkpoints && Appended(h, s.entries, u.entries, at, ty, payload)
    case CheckOp(record, now) =>
      && u.entries == s.entries
      && if record && Linked(h, s.entries) then HeadMarked(s.entries, s.checkpoints, u.checkpoints, now)
         else u.checkpoints == s.checkpoints
    case Alter(above) =>
      && u.checkpoints == s.checkpoints
      && exists n: nat ::
           IsCovered(s, n) && u.entries == if Keyed(s.entries[..n] + above) then s.entries[..n] + above else s.entries
  }

  /**
   One operation more after any run. A recorded check marks the head if and only if the
   whole table is linked, though it reads no more than the rows above the checkpoint.
   */
  lemma RunNext(h: EntryHash, ops: seq<LogOp>, op: LogOp)
    ensures Moved(h, Run(h, ops), Run(h, ops + [op]), op)
  {
    hide Linked, Keyed, SinceCheckpoint, Verify, Marks, Append, Appended, CountTo;
    var s := Run(h, ops);
    assert (ops + [op])[..|ops|] == ops;
    match op
    case AppendOp(at, ty, payload) => AppendExact(h, s.entries, at, ty, payload);
    case CheckOp(record, now) =>
      CheckpointRuns(h, ops);
      VerifyExact(h, s.entries);
    case Alter(above) =>
      SoundRun(h, ops);
      if s.checkpoints != [] {
        CountToSplits(s.entries, s.checkpoints[|s.checkpoints| - 1].seqNo);
      }
      assert IsCovered(s, Covered(s));
  }

  // ----- What the checks of a run cost -----

  predicate Honest(ops: seq<LogOp>) {
    forall op <- ops :: op.AppendOp? || (op.CheckOp? && op.record)
  }

  function Checks(ops: seq<LogOp>): nat {
    if ops == [] then 0
    else Checks(ops[..|ops| - 1]) + if ops[|ops| - 1].CheckOp? then 1 else 0
  }

  /** How many of them found a checkpoint to start from. */
  function Rechecks(h: EntryHash, ops: seq<LogOp>): (n: nat)
    ensures n <= Checks(ops)
  {
    if ops == [] then 0
    else
      var before := ops[..|ops| - 1];
      Rechecks(h, before) + if ops[|ops| - 1].CheckOp? && Run(h, before).checkpoints != [] then 1 else 0
  }

  /** Entry hashes computed by all the checks of a run. */
  function CheckingCost(h: EntryHash, ops: seq<LogOp>): nat {
    if ops == [] then 0
    else
      CheckingCost(h, ops[..|ops| - 1]) +
      if ops[|ops| - 1].CheckOp? then SinceHashes(h, Run(h, ops[..|ops| - 1])) else 0
  }

  lemma AppendLinked(h: EntryHash, t: seq<Entry>, at: string, eventType: string, payload: Json)
    requires Linked(h, t)
    ensures Linked(h, Append(h, t, at, eventType, payload))
  {
    var u, e := Append(h, t, at, eventType, payload), NewEntry(h, t, at, eventType, payload);
    if u != t {
      forall i | 0 <= i < |u| ensures Link(h, u, i, FirstSeq(u)) {
        if t != [] {
          LinkedAt(h, t, if i < |t| then i else |t| - 1);
        }
      }
    }
  }

  lemma HonestCheck(h: EntryHash, s: LogState, now: string)
    requires Sound(h, s) && Linked(h, s.entries)
    ensures var s' := RoutineCheck(h, s, true, now);
      s'.entries == s.entries && Covered(s') == |s.entries|
    ensures SinceHashes(h, s) == |s.entries| - Covered(s) + if s.checkpoints == [] then 0 else 1
  {
    if s.checkpoints != [] {
      assert s.checkpoints[|s.checkpoints| - 1] in s.checkpoints;
    }
    RoutineRefinesFull(h, s);
    VerifyExact(h, s.entries);
    if s.entries != [] {
      var q := s.entries[|s.entries| - 1].seqNo;
      CountToAt(s.entries, q, |s.entries|);
      if s.checkpoints != [] {
        CountToSplits(s.entries, s.checkpoints[|s.checkpoints| - 1].seqNo);
      }
    }
    if s.checkpoints == [] {
      WalkHashesExact(h, s.entries, 0, GENESIS, None, 0);
    } else {
      var cp := s.checkpoints[|s.checkpoints| - 1];
      var n := CountTo(s.entries, cp.seqNo);
      WalkHashesExact(h, s.entries, n, cp.entryHash, Some(cp.seqNo + 1), n);
    }
  }

  /** An entry above a checkpoint is not covered by it. */
  lemma CoveredAppend(h: EntryHash, s: LogState, at: string, eventType: string, payload: Json)
    requires Sound(h, s)
    ensures Covered(s.(entries := Append(h, s.entries, at, eventType, payload))) == Covered(s)
  {
    var t, u := s.entries, Append(h, s.entries, at, eventType, payload);
    if s.checkpoints != [] && u != t {
      var cp := s.checkpoints[|s.checkpoints| - 1];
      assert cp in s.checkpoints;
      CountToSplits(t, cp.seqNo);
      CountToAt(u, cp.seqNo, Covered(s));
    }
  }

  lemma {:induction false} CostExact(h: EntryHash, ops: seq<LogOp>)
    requires Honest(ops)
    ensures var s := Run(h, ops);
      Linked(h, s.entries) && CheckingCost(h, ops) == Covered(s) + Rechecks(h, ops)
  {
    if ops != [] {
      var before, op := ops[..|ops| - 1], ops[|ops| - 1];
      assert op in ops;
      CostExact(h, before);
      SoundRun(h, before);
      var s := Run(h, before);
      match op
      case AppendOp(at, ty, payload) =>
        AppendLinked(h, s.entries, at, ty, payload);
        CoveredAppend(h, s, at, ty, payload);
      case CheckOp(_, now) =>
        HonestCheck(h, s, now);
    }
  }

  /**
   k recorded checks over a log that ends at N entries hash at most N + k entries in all:
   each entry that is covered once, and a checkpoint's own entry once for every check that
   starts from it. With the last check all N are covered.
   */
  lemma AmortisedCost(h: EntryHash, ops: seq<LogOp>)
    requires Honest(ops)
    ensures CheckingCost(h, ops) <= |Run(h, ops).entries| + Checks(ops)
    ensures ops != [] && ops[|ops| - 1].CheckOp? ==>
              CheckingCost(h, ops) == |Run(h, ops).entries| + Rechecks(h, ops)
  {
    CostExact(h, ops);
    if ops != [] && ops[|ops| - 1].CheckOp? {
      var before := ops[..|ops| - 1];
      CostExact(h, before);
      SoundRun(h, before);
      HonestCheck(h, Run(h, before), ops[|ops| - 1].now);
    }
  }
}
