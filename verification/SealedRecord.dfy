/**
 The log of the record as a hash chain, and what the hash of its head, or a token
 issued for it, says about the tables.
 */
module SealedRecord {
  import opened Json
  import opened Clock
  import opened HashChain
  import opened Checkpoints
  import opened Commitment
  import opened Timestamps
  import opened Database
  import opened Payloads
  import Store
  import Crawler
  import Transactions

  /** The rows `append` writes for these events, each stamped with the moment it was written. */
  ghost function Chain(H: Hash, log: seq<Event>, times: seq<Time>): (chain: seq<Entry>)
    requires |times| == |log|
    ensures |chain| == |log|
  {
    if log == [] then []
    else
      var n := |log| - 1;
      var t := Chain(H, log[..n], times[..n]);
      t + [NewEntry(Hasher(H), t, StampOf(times[n]), TypeOf(log[n]), PayloadOf(log[n]))]
  }

  ghost predicate WritesEvent(c: Content, e: Event) {
    |c.prevHash| == 64 && |c.occurredAt| == 32 && c.eventType == TypeOf(e) && c.payload == PayloadOf(e)
  }

  /** Row by row the table says what the log says, with digests and stamps of their fixed widths. */
  ghost predicate Writes(t: seq<Entry>, log: seq<Event>) {
    |t| == |log| && forall i :: 0 <= i < |t| ==> WritesEvent(t[i].content, log[i])
  }

  /** Digests print as 64 characters. */
  ghost predicate HexDigests(H: Hash) {
    forall s :: |H(s)| == 64
  }

  lemma StampWidth(t: Time)
    ensures |StampOf(t)| == 32
  {
    var s := StampOf(t);
    var c :| Stamps(t, c, s);
  }

  lemma ExtendLinked(h: EntryHash, t: seq<Entry>, e: Entry)
    requires Linked(h, t) && e == NewEntry(h, t, e.content.occurredAt, e.content.eventType, e.content.payload)
    ensures Linked(h, t + [e])
  {
    var u := t + [e];
    forall i | 0 <= i < |u| ensures Link(h, u, i, FirstSeq(u)) {
      if t != [] {
        LinkedAt(h, t, if i < |t| then i else |t| - 1);
      }
    }
  }

  lemma ChainLast(H: Hash, log: seq<Event>, times: seq<Time>)
    requires |times| == |log| > 0
    ensures Chain(H, log, times)[..|log| - 1] == Chain(H, log[..|log| - 1], times[..|log| - 1])
  {
    hide NewEntry, PayloadOf, TypeOf, StampOf;
  }

  lemma {:induction false} ChainPrefix(H: Hash, log: seq<Event>, times: seq<Time>, k: nat)
    requires |times| == |log| && k <= |log|
    ensures Chain(H, log, times)[..k] == Chain(H, log[..k], times[..k])
  {
    hide Chain;
    if k < |log| {
      var n := |log| - 1;
      ChainPrefix(H, log[..n], times[..n], k);
      ChainLast(H, log, times);
      assert log[..n][..k] == log[..k] && times[..n][..k] == times[..k];
      assert Chain(H, log, times)[..n][..k] == Chain(H, log, times)[..k];
    } else {
      assert log[..k] == log && times[..k] == times;
    }
  }

  lemma AppendedEntry(H: Hash, t: seq<Entry>, e: Event, at: Time)
    requires Linked(Hasher(H), t)
    ensures Linked(Hasher(H), t + [NewEntry(Hasher(H), t, StampOf(at), TypeOf(e), PayloadOf(e))])
  {
    ExtendLinked(Hasher(H), t, NewEntry(Hasher(H), t, StampOf(at), TypeOf(e), PayloadOf(e)));
  }

  lemma {:induction false} ChainLinked(H: Hash, log: seq<Event>, times: seq<Time>)
    requires |times| == |log|
    ensures Linked(Hasher(H), Chain(H, log, times))
  {
    hide NewEntry;
    if log != [] {
      var n := |log| - 1;
      ChainLinked(H, log[..n], times[..n]);
      AppendedEntry(H, Chain(H, log[..n], times[..n]), log[n], times[n]);
    }
  }

  lemma HeadWidth(H: Hash, t: seq<Entry>)
    requires HexDigests(H) && Linked(Hasher(H), t)
    ensures |HeadHash(t)| == 64
  {
    if t != [] {
      LinkedAt(Hasher(H), t, |t| - 1);
      assert HeadHash(t) == H(Material(t[|t| - 1].content));
    }
  }

  lemma ChainNext(H: Hash, log: seq<Event>, times: seq<Time>)
    requires |times| == |log| > 0
    ensures var n := |log| - 1;
      var t := Chain(H, log[..n], times[..n]);
      Chain(H, log, times) == t + [NewEntry(Hasher(H), t, StampOf(times[n]), TypeOf(log[n]), PayloadOf(log[n]))]
  {
    hide NewEntry, PayloadOf, TypeOf, StampOf;
  }

  /** Each of its rows is what `append` adds, wherever the indexes admit it. */
  lemma ChainAppends(H: Hash, log: seq<Event>, times: seq<Time>)
    requires |times| == |log| > 0
    ensures var n := |log| - 1;
      var t, u := Chain(H, log[..n], times[..n]), Chain(H, log, times);
      && u[..n] == t
      && (Fits(t, u[n]) ==> u == Append(Hasher(H), t, StampOf(times[n]), TypeOf(log[n]), PayloadOf(log[n])))
  {
    hide Chain, NewEntry, PayloadOf, TypeOf, StampOf, Fits;
    ChainNext(H, log, times);
  }

  /** Written this way the chain verifies and says what the log says. */
  lemma {:induction false} ChainSound(H: Hash, log: seq<Event>, times: seq<Time>)
    requires |times| == |log| && HexDigests(H)
    ensures Verify(Hasher(H), Chain(H, log, times)).Valid? && Writes(Chain(H, log, times), log)
  {
    hide PayloadOf, TypeOf, StampOf, HexDigests;
    VerifyExact(Hasher(H), Chain(H, log, times));
    if log != [] {
      var n := |log| - 1;
      var t, u := Chain(H, log[..n], times[..n]), Chain(H, log, times);
      ChainSound(H, log[..n], times[..n]);
      VerifyExact(Hasher(H), t);
      ExtendLinked(Hasher(H), t, u[n]);
      StampWidth(times[n]);
      HeadWidth(H, t);
      forall i | 0 <= i < n ensures WritesEvent(u[i].content, log[i]) {
        assert WritesEvent(t[i].content, log[..n][i]);
      }
    }
  }

  lemma WritesWellFormed(t: seq<Entry>, log: seq<Event>)
    requires Writes(t, log)
    ensures AllWellFormed(t)
  {
    hide PayloadOf, TypeOf;
    forall e | e in t ensures WellFormed(e.content) {
      var i :| 0 <= i < |t| && t[i] == e;
      assert WritesEvent(t[i].content, log[i]);
      PayloadIsDict(log[i]);
    }
  }

  /** One history is one log. */
  lemma SameHistorySameLog(a: seq<Entry>, b: seq<Entry>, x: seq<Event>, y: seq<Event>)
    requires SameHistory(a, b) && Writes(a, x) && Writes(b, y)
    ensures x == y
  {
    hide PayloadOf, TypeOf, Same;
    forall i | 0 <= i < |x| ensures x[i] == y[i] {
      assert WritesEvent(a[i].content, x[i]) && WritesEvent(b[i].content, y[i]);
      assert SameContent(a[i].content, b[i].content);
      EventUnique(x[i], y[i]);
    }
  }

  /**
   Two verified chains with one head hash tell one log, so the tables their logs
   stand for agree in everything the log shows, unless the chains exhibit a broken hash.
   */
  lemma HeadHashFixesTables(H: Hash, a: seq<Entry>, b: seq<Entry>, x: Db, y: Db)
    requires Verify(Hasher(H), a).Valid? && Verify(Hasher(H), b).Valid? && HeadHash(a) == HeadHash(b)
    requires Writes(a, x.log) && Writes(b, y.log) && Faithful(x) && Faithful(y)
    ensures (x.log == y.log && Visible(x.tables) == Visible(y.tables)) || HashBroken(H, a, b)
  {
    hide Writes, Visible;
    WritesWellFormed(a, x.log);
    WritesWellFormed(b, y.log);
    HeadCommits(H, a, b);
    if SameHistory(a, b) {
      SameHistorySameLog(a, b, x.log, y.log);
    }
  }

  /** Two records, each the result of any run of transactions, whose chains end in one hash hold the same rows. */
  lemma HeadHashFixesRecords(H: Hash, sha: Store.Digest, norm: Crawler.UrlNorm, p: seq<Transactions.Move>,
                             q: seq<Transactions.Move>,
                             s: seq<Time>, t: seq<Time>)
    requires HexDigests(H)
    requires |s| == |Transactions.Run(sha, norm, p).db.log| && |t| == |Transactions.Run(sha, norm, q).db.log|
    requires HeadHash(Chain(H, Transactions.Run(sha, norm, p).db.log, s))
             == HeadHash(Chain(H, Transactions.Run(sha, norm, q).db.log, t))
    ensures var x, y := Transactions.Run(sha, norm, p).db, Transactions.Run(sha, norm, q).db;
      || (x.log == y.log && Visible(x.tables) == Visible(y.tables))
      || HashBroken(H, Chain(H, x.log, s), Chain(H, y.log, t))
  {
    hide Transactions.Run, Faithful, Visible, Writes, HexDigests, Chain;
    var x, y := Transactions.Run(sha, norm, p).db, Transactions.Run(sha, norm, q).db;
    Transactions.LogReplays(sha, norm, p);
    Transactions.LogReplays(sha, norm, q);
    ChainSound(H, x.log, s);
    ChainSound(H, y.log, t);
    HeadHashFixesTables(H, Chain(H, x.log, s), Chain(H, y.log, t), x, y);
  }

  lemma WritesPrefix(t: seq<Entry>, log: seq<Event>, n: nat)
    requires Writes(t, log) && n <= |t|
    ensures Writes(t[..n], log[..n])
  {
    hide WritesEvent;
  }

  lemma WritesLength(t: seq<Entry>, log: seq<Event>)
    requires Writes(t, log)
    ensures |t| == |log|
  {
  }

  /**
   A token that two verified chains accept fixes their logs up to the stamped entry,
   and so everything the tables showed at that point.
   */
  lemma TokenFixesTables(H: Hash, a: seq<Entry>, b: seq<Entry>, x: seq<Event>, y: seq<Event>, token: Stamp)
    requires Verify(Hasher(H), a).Valid? && Verify(Hasher(H), b).Valid? && Writes(a, x) && Writes(b, y)
    requires StampHolds(H, a, token) && StampHolds(H, b, token)
    ensures var m, n := CountTo(a, token.seqNo), CountTo(b, token.seqNo);
      || (x[..m] == y[..n] && Replay(x[..m]) == Replay(y[..n]))
      || HashBroken(H, a, b)
      || StampCollision(H, token.seqNo, Lookup(a, token.seqNo).value.entryHash, Lookup(b, token.seqNo).value.entryHash)
  {
    hide Writes;
    var m, n := CountTo(a, token.seqNo), CountTo(b, token.seqNo);
    WritesWellFormed(a, x);
    WritesWellFormed(b, y);
    StampFixesPrefix(H, a, b, token);
    WritesLength(a, x);
    WritesLength(b, y);
    WritesPrefix(a, x, m);
    WritesPrefix(b, y, n);
    if SameHistory(a[..m], b[..n]) {
      SameHistorySameLog(a[..m], b[..n], x[..m], y[..n]);
    }
  }
}
