/**
 Concurrent writers of the evidence log as interleaved steps of any number of
 processes. A writing transaction takes the one write lock before it reads the head
 (BEGIN IMMEDIATE); readers see committed rows; a process may also remember a head
 it read outside the lock and insert after it later, which is what the unique index
 on prev_hash is there to stop.
 */
module Writers {
  import opened Json
  import opened Wrappers
  import opened HashChain
  import opened Checkpoints

  /** The lock holder and the log as its transaction sees it. */
  datatype Txn = Txn(pid: nat, view: seq<Entry>)

  datatype Db = Db(committed: seq<Entry>, writer: Option<Txn>, heads: map<nat, string>)

  datatype Action =
    | BeginImmediate(pid: nat)
    | AppendUnderLock(pid: nat, at: string, eventType: string, payload: Json)
    | ReadHead(pid: nat)
    | InsertAfterRemembered(pid: nat, at: string, eventType: string, payload: Json)
    | Commit(pid: nat)
    | Rollback(pid: nat)

  predicate Holds(db: Db, pid: nat) {
    db.writer.Some? && db.writer.value.pid == pid
  }

  /** The row a process inserts after the head it remembers. */
  function RememberedEntry(h: EntryHash, view: seq<Entry>, head: string, at: string, eventType: string,
                           payload: Json): Entry {
    var content := Content(head, at, eventType, payload);
    Entry(if view == [] then 1 else view[|view| - 1].seqNo + 1, content, h(content))
  }

  /** An insert an index refuses raises, and session_scope rolls the transaction back. */
  function Insert(db: Db, pid: nat, view: seq<Entry>, e: Entry): Db {
    if Fits(view, e) then db.(writer := Some(Txn(pid, view + [e]))) else db.(writer := None)
  }

  /** A step that is not enabled, such as taking a held lock, changes nothing. */
  function Step(h: EntryHash, db: Db, a: Action): Db {
    match a
    case BeginImmediate(pid) =>
      if db.writer.None? then db.(writer := Some(Txn(pid, db.committed))) else db
    case AppendUnderLock(pid, at, ty, payload) =>
      if Holds(db, pid) then
        var view := db.writer.value.view;
        Insert(db, pid, view, NewEntry(h, view, at, ty, payload))
      else db
    case ReadHead(pid) => db.(heads := db.heads[pid := HeadHash(db.committed)])
    case InsertAfterRemembered(pid, at, ty, payload) =>
      if pid in db.heads && (db.writer.None? || Holds(db, pid)) then
        var view := if db.writer.None? then db.committed else db.writer.value.view;
        Insert(db, pid, view, RememberedEntry(h, view, db.heads[pid], at, ty, payload))
      else db
    case Commit(pid) => if Holds(db, pid) then db.(committed := db.writer.value.view, writer := None) else db
    case Rollback(pid) => if Holds(db, pid) then db.(writer := None) else db
  }

  function Run(h: EntryHash, actions: seq<Action>): Db {
    if actions == [] then Db([], None, map[])
    else Step(h, Run(h, actions[..|actions| - 1]), actions[|actions| - 1])
  }

  /** No two rows share an entry_hash or a prev_hash: the table's unique indexes. */
  predicate Indexed(t: seq<Entry>) {
    forall i, j :: 0 <= i < j < |t| ==>
      t[i].entryHash != t[j].entryHash && t[i].content.prevHash != t[j].content.prevHash
  }

  predicate IsChain(h: EntryHash, t: seq<Entry>) {
    Linked(h, t) && Indexed(t)
  }

  predicate Extends(t: seq<Entry>, u: seq<Entry>) {
    |t| <= |u| && forall i :: 0 <= i < |t| ==> t[i] == u[i]
  }

  /** A remembered head is still the head, or some row already follows it. */
  predicate HeadKnown(t: seq<Entry>, head: string) {
    head == HeadHash(t) || exists e :: e in t && e.content.prevHash == head
  }

  ghost predicate Inv(h: EntryHash, db: Db) {
    && IsChain(h, db.committed)
    && (db.writer.Some? ==> IsChain(h, db.writer.value.view) && Extends(db.committed, db.writer.value.view))
    && (forall pid <- db.heads :: HeadKnown(db.committed, db.heads[pid]))
  }

  lemma ChainGrows(h: EntryHash, t: seq<Entry>, at: string, eventType: string, payload: Json)
    requires IsChain(h, t) && Fits(t, NewEntry(h, t, at, eventType, payload))
    ensures IsChain(h, t + [NewEntry(h, t, at, eventType, payload)])
  {
    AppendLinked(h, t, at, eventType, payload);
  }

  /** In a longer linked table the old head has a follower. */
  lemma OldHeadFollowed(h: EntryHash, t: seq<Entry>, u: seq<Entry>)
    requires IsChain(h, u) && Extends(t, u)
    ensures |t| < |u| ==> u[|t|].content.prevHash == HeadHash(t) && u[|t|] in u
  {
    if |t| < |u| {
      LinkedAt(h, u, |t|);
    }
  }

  lemma HeadKnownGrows(h: EntryHash, t: seq<Entry>, u: seq<Entry>, head: string)
    requires IsChain(h, u) && Extends(t, u) && HeadKnown(t, head)
    ensures HeadKnown(u, head)
  {
    OldHeadFollowed(h, t, u);
    if e :| e in t && e.content.prevHash == head {
      var i :| 0 <= i < |t| && t[i] == e;
      assert u[i] == e;
    } else if |t| == |u| {
      assert t == u;
    }
  }

  /**
   Writers that remember a head insert only at the true head: the index admits the
   row exactly when the head has not moved on and the new hash is unused, and then
   it is the row a writer under the lock would append.
   */
  lemma RememberedInsertExact(h: EntryHash, view: seq<Entry>, committed: seq<Entry>, head: string,
                              at: string, eventType: string, payload: Json)
    requires IsChain(h, view) && Extends(committed, view) && HeadKnown(committed, head)
    ensures var e := RememberedEntry(h, view, head, at, eventType, payload);
      var own := NewEntry(h, view, at, eventType, payload);
      Fits(view, e) <==> head == HeadHash(view) && e == own && Fits(view, own)
  {
    HeadKnownGrows(h, committed, view, head);
  }

  lemma StepKeeps(h: EntryHash, db: Db, a: Action)
    requires Inv(h, db)
    ensures Inv(h, Step(h, db, a)) && Extends(db.committed, Step(h, db, a).committed)
  {
    match a
    case AppendUnderLock(pid, at, ty, payload) =>
      if Holds(db, pid) && Fits(db.writer.value.view, NewEntry(h, db.writer.value.view, at, ty, payload)) {
        ChainGrows(h, db.writer.value.view, at, ty, payload);
      }
    case InsertAfterRemembered(pid, at, ty, payload) =>
      if pid in db.heads && (db.writer.None? || Holds(db, pid)) {
        var view := if db.writer.None? then db.committed else db.writer.value.view;
        RememberedInsertExact(h, view, db.committed, db.heads[pid], at, ty, payload);
        if Fits(view, NewEntry(h, view, at, ty, payload)) {
          ChainGrows(h, view, at, ty, payload);
        }
      }
    case Commit(pid) =>
      if Holds(db, pid) {
        forall p | p in db.heads ensures HeadKnown(db.writer.value.view, db.heads[p]) {
          HeadKnownGrows(h, db.committed, db.writer.value.view, db.heads[p]);
        }
      }
    case _ =>
  }

  lemma {:induction false} RunKeeps(h: EntryHash, actions: seq<Action>)
    ensures Inv(h, Run(h, actions))
  {
    if actions != [] {
      RunKeeps(h, actions[..|actions| - 1]);
      StepKeeps(h, Run(h, actions[..|actions| - 1]), actions[|actions| - 1]);
    }
  }

  /**
   For any number of writers and any interleaving, crashes and rollbacks included,
   the committed log is one valid chain and only ever grows.
   */
  lemma LinearUnderConcurrency(h: EntryHash, actions: seq<Action>, next: Action)
    ensures Verify(h, Run(h, actions).committed) == Valid(|Run(h, actions).committed|, None, None)
    ensures Extends(Run(h, actions).committed, Step(h, Run(h, actions), next).committed)
  {
    RunKeeps(h, actions);
    VerifyExact(h, Run(h, actions).committed);
    StepKeeps(h, Run(h, actions), next);
  }

  /**
   An append that read its head under the lock meets no index unless the hash fails:
   the head hashes to GENESIS, or the new row's hash is that of different content.
   */
  lemma LockedAppendRefused(h: EntryHash, t: seq<Entry>, at: string, eventType: string, payload: Json)
    requires IsChain(h, t)
    ensures var e := NewEntry(h, t, at, eventType, payload);
      !Fits(t, e) <==> (t != [] && HeadHash(t) == GENESIS)
                       || exists f :: f in t && f.content != e.content && h(f.content) == h(e.content)
  {
    var e := NewEntry(h, t, at, eventType, payload);
    forall i | 0 <= i < |t| ensures h(t[i].content) == t[i].entryHash {
      LinkedAt(h, t, i);
    }
    if t != [] && HeadHash(t) == GENESIS {
      LinkedAt(h, t, 0);
      assert t[0] in t && t[0].content.prevHash == e.content.prevHash;
    }
    forall i | 0 <= i < |t| && t[i].content.prevHash == e.content.prevHash
      ensures t != [] && HeadHash(t) == GENESIS
    {
      LinkedAt(h, t, i);
    }
  }

  lemma RunNext(h: EntryHash, actions: seq<Action>, a: Action)
    ensures Run(h, actions + [a]) == Step(h, Run(h, actions), a)
  {
    assert (actions + [a])[..|actions|] == actions;
  }

  /** The lock is with this process, and this is what it sees and what all others see. */
  predicate HeldBy(db: Db, pid: nat, view: seq<Entry>, committed: seq<Entry>) {
    db.writer == Some(Txn(pid, view)) && db.committed == committed
  }

  /** While one process has the lock, no step of any other shows in its view or in the committed table. */
  lemma {:induction false} OthersWait(h: EntryHash, actions: seq<Action>, others: seq<Action>, pid: nat,
                                      view: seq<Entry>, committed: seq<Entry>)
    requires HeldBy(Run(h, actions), pid, view, committed) && forall a <- others :: a.pid != pid
    ensures HeldBy(Run(h, actions + others), pid, view, committed)
  {
    if others == [] {
      assert actions + others == actions;
    } else {
      var n := |others| - 1;
      OthersWait(h, actions, others[..n], pid, view, committed);
      assert actions + others == (actions + others[..n]) + [others[n]] && others[n] in others;
      RunNext(h, actions + others[..n], others[n]);
    }
  }

  /** The head hashes to GENESIS, or this content hashes as that of some other row. */
  ghost predicate HashFails(h: EntryHash, t: seq<Entry>, content: Content) {
    (t != [] && content.prevHash == GENESIS) || exists f :: f in t && f.content != content && h(f.content) == h(content)
  }

  /** The row an append adds, and what refuses it. */
  lemma NewAfterHead(h: EntryHash, t: seq<Entry>, at: string, eventType: string, payload: Json)
    requires IsChain(h, t)
    ensures var content := Content(if t == [] then GENESIS else t[|t| - 1].entryHash, at, eventType, payload);
      var e := NewEntry(h, t, at, eventType, payload);
      && e == Entry(if t == [] then 1 else t[|t| - 1].seqNo + 1, content, h(content))
      && (!Fits(t, e) <==> HashFails(h, t, content))
  {
    hide Linked, Indexed, Fits;
    LockedAppendRefused(h, t, at, eventType, payload);
    assert HeadHash(t) == if t == [] then GENESIS else t[|t| - 1].entryHash;
  }

  /** A process takes the lock and appends, with any steps of others between. */
  function WriteSteps(pid: nat, others: seq<Action>, at: string, eventType: string, payload: Json): seq<Action> {
    [BeginImmediate(pid)] + others + [AppendUnderLock(pid, at, eventType, payload)]
  }

  lemma WriteHeld(h: EntryHash, actions: seq<Action>, pid: nat, others: seq<Action>, at: string, eventType: string,
                  payload: Json)
    requires Run(h, actions).writer.None? && forall a <- others :: a.pid != pid
    ensures var t := Run(h, actions).committed;
      var e := NewEntry(h, t, at, eventType, payload);
      var db := Run(h, actions + WriteSteps(pid, others, at, eventType, payload));
      if Fits(t, e) then HeldBy(db, pid, t + [e], t) else db.writer.None? && db.committed == t
  {
    hide Run, Fits, NewEntry;
    var t := Run(h, actions).committed;
    var begin, append := BeginImmediate(pid), AppendUnderLock(pid, at, eventType, payload);
    RunNext(h, actions, begin);
    OthersWait(h, actions + [begin], others, pid, t, t);
    RunNext(h, actions + [begin] + others, append);
    assert actions + ([begin] + others + [append]) == actions + [begin] + others + [append];
  }

  lemma EndHeld(h: EntryHash, actions: seq<Action>, pid: nat, others: seq<Action>, view: seq<Entry>, t: seq<Entry>)
    requires HeldBy(Run(h, actions), pid, view, t) && forall a <- others :: a.pid != pid
    ensures Run(h, actions + others + [Commit(pid)]).committed == view
    ensures Run(h, actions + others + [Rollback(pid)]).committed == t
    ensures Run(h, actions + others + [Rollback(pid)]).writer == Run(h, actions + others + [Commit(pid)]).writer == None
  {
    hide Run;
    OthersWait(h, actions, others, pid, view, t);
    RunNext(h, actions + others, Commit(pid));
    RunNext(h, actions + others, Rollback(pid));
  }

  /**
   After any run that leaves the lock free, a writer takes it, appends and ends, whatever
   all others try meanwhile. If it commits, the log has one row more at the end: the given
   event, numbered and hashed after the head. If it rolls back, the log is as it was. Either
   way the lock is free. Only a failing hash keeps the row out, and then both hold at once.
   */
  lemma WriteGrows(h: EntryHash, actions: seq<Action>, pid: nat, before: seq<Action>, after: seq<Action>,
                   at: string, eventType: string, payload: Json)
    requires Run(h, actions).writer.None? && forall a <- before + after :: a.pid != pid
    ensures var t, appended := Run(h, actions).committed, actions + WriteSteps(pid, before, at, eventType, payload);
      var prev := if t == [] then GENESIS else t[|t| - 1].entryHash;
      var content := Content(prev, at, eventType, payload);
      var seqNo := if t == [] then 1 else t[|t| - 1].seqNo + 1;
      if HashFails(h, t, content) then Run(h, appended).committed == t && Run(h, appended).writer.None?
      else
        var kept, undone := Run(h, appended + after + [Commit(pid)]), Run(h, appended + after + [Rollback(pid)]);
        && kept.committed == t + [Entry(seqNo, content, h(content))] && kept.writer.None?
        && undone.committed == t && undone.writer.None?
  {
    hide Run, Linked, Indexed, IsChain, Fits, HashFails, NewEntry, WriteSteps;
    assert forall a <- before :: a in before + after;
    assert forall a <- after :: a in before + after;
    var t, appended := Run(h, actions).committed, actions + WriteSteps(pid, before, at, eventType, payload);
    var e := NewEntry(h, t, at, eventType, payload);
    RunKeeps(h, actions);
    WriteHeld(h, actions, pid, before, at, eventType, payload);
    NewAfterHead(h, t, at, eventType, payload);
    if Fits(t, e) {
      EndHeld(h, appended, pid, after, t + [e], t);
    }
  }
}
