/**
 What the log says about notes: those given with a status are in its events, and the
 advisory tag is the one line that is not.
 */
module Notes {
  import opened Text
  import opened Wrappers
  import opened Database
  import opened Store
  import opened CapturePipeline
  import opened ArchivePoll
  import opened Crawler
  import opened CaptureLoop
  import opened EvidenceRows
  import opened Transactions
  import opened Frames

  /** The notes the status events of a mention amount to. */
  function NotesOf(log: seq<Event>, id: string): Option<string> {
    if log == [] then None
    else
      var before := NotesOf(log[..|log| - 1], id);
      match log[|log| - 1]
      case StatusChanged(k, _, note) => if k == id then AddNote(before, note) else before
      case _ => before
  }

  function AddAll(notes: Option<string>, more: seq<Option<string>>): Option<string> {
    if more == [] then notes else AddNote(AddAll(notes, more[..|more| - 1]), more[|more| - 1])
  }

  /** The notes given with a mention's status events, in order. */
  function Given(log: seq<Event>, id: string): seq<Option<string>> {
    if log == [] then []
    else
      match log[|log| - 1]
      case StatusChanged(k, _, note) => Given(log[..|log| - 1], id) + if k == id then [note] else []
      case _ => Given(log[..|log| - 1], id)
  }

  /** Those that say something. */
  function Lines(notes: seq<Option<string>>): seq<string> {
    if notes == [] then []
    else Lines(notes[..|notes| - 1]) + if Truthy(notes[|notes| - 1]) then [notes[|notes| - 1].value] else []
  }

  lemma {:induction false} NotesAreGiven(log: seq<Event>, id: string)
    ensures NotesOf(log, id) == AddAll(None, Given(log, id))
  {
    if log != [] {
      NotesAreGiven(log[..|log| - 1], id);
      var before, given := Given(log[..|log| - 1], id), Given(log, id);
      assert given != before ==> given[..|given| - 1] == before;
    }
  }

  lemma {:induction false} JoinLast(lines: seq<string>, last: string)
    requires lines != []
    ensures Join(lines + [last]) == Join(lines) + "\n" + last
  {
    assert (lines + [last])[..|lines|] == lines;
  }

  lemma JoinNotEmpty(lines: seq<string>)
    requires lines != [] && forall l <- lines :: l != ""
    ensures Join(lines) != ""
  {
    assert lines[0] in lines;
  }

  lemma {:induction false} LinesNotEmpty(notes: seq<Option<string>>)
    ensures forall l <- Lines(notes) :: l != ""
  {
    if notes != [] {
      LinesNotEmpty(notes[..|notes| - 1]);
    }
  }

  lemma {:induction false} AddAllJoins(notes: seq<Option<string>>)
    ensures AddAll(None, notes) == if Lines(notes) == [] then None else Some(Join(Lines(notes)))
  {
    if notes != [] {
      var before, last := notes[..|notes| - 1], notes[|notes| - 1];
      AddAllJoins(before);
      LinesNotEmpty(before);
      assert Lines(notes) == if Truthy(last) then Lines(before) + [last.value] else Lines(before);
      if Lines(before) != [] {
        JoinNotEmpty(Lines(before));
        if Truthy(last) {
          JoinLast(Lines(before), last.value);
        }
      } else if Truthy(last) {
        assert Lines(notes) == [last.value];
      }
    }
  }

  /** What the log holds of a mention's notes: the ones given with its status, in order, one to a line. */
  lemma NotesAreLines(log: seq<Event>, id: string)
    ensures var lines := Lines(Given(log, id));
      NotesOf(log, id) == if lines == [] then None else Some(Join(lines))
  {
    NotesAreGiven(log, id);
    AddAllJoins(Given(log, id));
  }

  ghost predicate TaggedAt(notes: Option<string>, logged: Option<string>, before: Option<string>, tag: string,
                           after: seq<Option<string>>) {
    logged == AddAll(before, after) && notes == AddAll(AddNote(before, TagLine(tag)), after)
  }

  /** The notes are those logged, with one tag line inserted at most. */
  ghost predicate UpToTag(notes: Option<string>, logged: Option<string>) {
    notes == logged || exists before, tag, after :: TaggedAt(notes, logged, before, tag, after)
  }

  // ----- A tag is found again -----

  predicate HasTag(notes: Option<string>) {
    Truthy(notes) && Contains(notes.value, TAG_PREFIX)
  }

  lemma {:induction false} ContainsMore(s: string, t: string, part: string)
    requires Contains(s, part)
    ensures Contains(s + t, part)
  {
    if s[..|part|] == part {
      assert (s + t)[..|part|] == s[..|part|];
    } else {
      assert (s + t)[1..] == s[1..] + t;
      ContainsMore(s[1..], t, part);
    }
  }

  lemma {:induction false} ContainsAfter(s: string, t: string, part: string)
    requires Contains(t, part)
    ensures Contains(s + t, part)
  {
    if s == "" {
      assert s + t == t;
    } else {
      assert (s + t)[1..] == s[1..] + t;
      ContainsAfter(s[1..], t, part);
    }
  }

  lemma TagStays(notes: Option<string>, note: Option<string>)
    requires HasTag(notes)
    ensures HasTag(AddNote(notes, note))
  {
    if Truthy(note) {
      ContainsMore(notes.value, "\n", TAG_PREFIX);
      ContainsMore(notes.value + "\n", note.value, TAG_PREFIX);
    }
  }

  lemma TagAdded(notes: Option<string>, tag: string)
    ensures HasTag(AddNote(notes, TagLine(tag)))
  {
    var line := TagLine(tag).value;
    assert line[..|TAG_PREFIX|] == TAG_PREFIX;
    assert Contains(line, TAG_PREFIX);
    if Truthy(notes) {
      ContainsAfter(notes.value + "\n", line, TAG_PREFIX);
    }
  }

  lemma {:induction false} TagRemains(before: Option<string>, tag: string, after: seq<Option<string>>)
    ensures HasTag(AddAll(AddNote(before, TagLine(tag)), after))
  {
    if after == [] {
      TagAdded(before, tag);
    } else {
      TagRemains(before, tag, after[..|after| - 1]);
      TagStays(AddAll(AddNote(before, TagLine(tag)), after[..|after| - 1]), after[|after| - 1]);
    }
  }

  /** A status note goes to the end of both; a tag is inserted only where there is none. */
  lemma NoteUpToTag(notes: Option<string>, logged: Option<string>, note: Option<string>)
    requires UpToTag(notes, logged)
    ensures UpToTag(AddNote(notes, note), AddNote(logged, note))
  {
    if notes != logged {
      var before, tag, after :| TaggedAt(notes, logged, before, tag, after);
      assert (after + [note])[..|after|] == after;
      assert TaggedAt(AddNote(notes, note), AddNote(logged, note), before, tag, after + [note]);
    }
  }

  lemma TagUpToTag(notes: Option<string>, logged: Option<string>, tag: string)
    requires UpToTag(notes, logged) && !HasTag(notes)
    ensures UpToTag(AddNote(notes, TagLine(tag)), logged)
  {
    if notes != logged {
      var before, earlier, after :| TaggedAt(notes, logged, before, earlier, after);
      TagRemains(before, earlier, after);
    }
    assert TaggedAt(AddNote(notes, TagLine(tag)), logged, notes, tag, []);
  }

  /** Tagging tags a mention that has no tag, after the notes it has, and changes nothing else. */
  lemma TagExact(db: Db, id: string, tag: string)
    requires id in db.tables.mentions && db.tables.mentions[id].id == id
    ensures var d := Tag(db, id, tag);
      var m := db.tables.mentions[id];
      && d.log == db.log && id in d.tables.mentions
      && d.tables == db.tables.(mentions := db.tables.mentions[id := d.tables.mentions[id]])
      && d.tables.mentions[id] == m.(notes := d.tables.mentions[id].notes)
      && HasTag(d.tables.mentions[id].notes)
      && if HasTag(m.notes) then d == db
         else NotesGrow(m.notes, d.tables.mentions[id].notes, Some("[auto-tag:" + tag + "]"))
  {
    hide Contains;
    var m := db.tables.mentions[id];
    if !HasTag(m.notes) {
      TagAdded(m.notes, tag);
      AddNoteGrows(m.notes, TagLine(tag));
    }
  }

  // ----- Over whole runs -----

  /** Mentions keep their notes; new ones have none. */
  ghost predicate SameNotes(t: Tables, u: Tables) {
    && (forall id <- t.mentions :: id in u.mentions && u.mentions[id].notes == t.mentions[id].notes)
    && forall id <- u.mentions :: id in t.mentions || u.mentions[id].notes == None
  }

  lemma AbsorbNotes(norm: UrlNorm, db: Db, a: Arrival)
    requires RowsKeyed(db.tables) && Absorb(norm, db, a).Some?
    ensures SameNotes(db.tables, Absorb(norm, db, a).value.tables)
  {
  }

  lemma {:induction false} AbsorbAllNotes(norm: UrlNorm, db: Db, arrivals: seq<Arrival>)
    requires RowsKeyed(db.tables) && AbsorbAll(norm, db, arrivals).Some?
    ensures SameNotes(db.tables, AbsorbAll(norm, db, arrivals).value.tables)
  {
    hide SameCaptures, Absorb;
    if arrivals != [] {
      var before := arrivals[..|arrivals| - 1];
      AbsorbAllNotes(norm, db, before);
      AbsorbAllFrame(norm, db, before);
      AbsorbNotes(norm, AbsorbAll(norm, db, before).value, arrivals[|arrivals| - 1]);
    }
  }

  lemma SettleNotes(sha: Digest, r: Record, id: string, url: string, v: Visit)
    requires RowsKeyed(r.db.tables) && Settle(sha, r, id, url, v).Some?
    ensures SameNotes(r.db.tables, Settle(sha, r, id, url, v).value.db.tables)
  {
    hide StoreEvidence;
    if v.Fetched? {
      StoreEvidenceKeyed(sha, r, Subject("mention", id), url, v.evidence);
    }
  }

  lemma ExecNotes(sha: Digest, norm: UrlNorm, r: Record, x: Txn)
    requires RowsKeyed(r.db.tables) && Exec(sha, norm, r, x).Some? && !x.Triaged? && !x.Tagged?
    ensures SameNotes(r.db.tables, Exec(sha, norm, r, x).value.db.tables)
  {
    hide StoreEvidence, Settle, History, RecordAttempt, AbsorbAll;
    match x
    case Dedupe(arrivals) => AbsorbAllNotes(norm, r.db, arrivals);
    case Visited(id, url, visit) => SettleNotes(sha, r, id, url, visit);
    case PostCaptured(id, url, e) => StoreEvidenceKeyed(sha, r, Subject("post", id), url, e);
    case Answered(id, ref, answer, at) => AnswerFrame(r.db, id, ref, answer, at, "post");
    case FoundHistory(id, provider, url, found, rows) =>
      HistoryFrame(r.db, KnownUrls(r.db, id), Subject("post", id), provider, url, found, rows);
    case _ =>
  }

  lemma {:induction false} NotesOfKept(a: seq<Event>, b: seq<Event>, x: Txn, id: string)
    requires Appends(a, b, x) && (x.Triaged? ==> x.mentionId != id)
    ensures NotesOf(b, id) == NotesOf(a, id)
    decreases |b|
  {
    if |a| < |b| {
      assert b[..|b| - 1][..|a|] == b[..|a|];
      NotesOfKept(a, b[..|b| - 1], x, id);
    } else {
      assert b[..|a|] == b;
    }
  }

  ghost predicate Noted(db: Db, id: string) {
    if id in db.tables.mentions then UpToTag(db.tables.mentions[id].notes, NotesOf(db.log, id))
    else NotesOf(db.log, id) == None
  }

  ghost predicate AllNoted(db: Db) {
    forall id :: Noted(db, id)
  }

  lemma StatusNotes(db: Db, id: string, status: Triage, note: Option<string>, k: string)
    requires id in db.tables.mentions
    ensures NotesOf(SetStatus(db, id, status, note).value.log, k) ==
            if k == id then AddNote(NotesOf(db.log, k), note) else NotesOf(db.log, k)
  {
    assert SetStatus(db, id, status, note).value.log[..|db.log|] == db.log;
  }

  lemma TriagedNoted(db: Db, id: string, status: Triage, note: Option<string>, k: string)
    requires RowsKeyed(db.tables) && AllNoted(db) && id in db.tables.mentions
    ensures Noted(SetStatus(db, id, status, note).value, k)
  {
    hide NotesOf, UpToTag, AddNote;
    var d := SetStatus(db, id, status, note).value;
    assert Noted(db, k);
    StatusNotes(db, id, status, note, k);
    if k == id {
      NoteUpToTag(db.tables.mentions[id].notes, NotesOf(db.log, id), note);
    }
  }

  lemma TaggedNoted(db: Db, id: string, tag: string, k: string)
    requires RowsKeyed(db.tables) && AllNoted(db)
    ensures Noted(Tag(db, id, tag), k)
  {
    hide NotesOf, UpToTag, AddNote, Contains;
    assert Noted(db, k);
    if k == id && id in db.tables.mentions && !HasTag(db.tables.mentions[id].notes) {
      TagUpToTag(db.tables.mentions[id].notes, NotesOf(db.log, id), tag);
    }
  }

  lemma NoneUpToTag()
    ensures UpToTag(None, None)
  {
  }

  lemma ExecNoted(sha: Digest, norm: UrlNorm, r: Record, x: Txn)
    requires RowsKeyed(r.db.tables) && AllNoted(r.db) && Exec(sha, norm, r, x).Some?
    ensures AllNoted(Exec(sha, norm, r, x).value.db)
  {
    hide NotesOf, UpToTag, Appends, StoreEvidence, Settle, AbsorbAll, History, RecordAttempt, AddBlob, SetStatus, Tag;
    var d := Exec(sha, norm, r, x).value.db;
    forall k ensures Noted(d, k) {
      match x
      case Triaged(id, status, note) =>
        UnknownMention(r.db, id, status, note);
        TriagedNoted(r.db, id, status, note, k);
      case Tagged(id, tag) => TaggedNoted(r.db, id, tag, k);
      case _ =>
        assert Noted(r.db, k);
        ExecNotes(sha, norm, r, x);
        ExecLog(sha, norm, r, x);
        NotesOfKept(r.db.log, d.log, x, k);
        NoneUpToTag();
    }
  }

  lemma NothingNoted()
    ensures AllNoted(EMPTY)
  {
  }

  /**
   After any run of transactions a mention's notes are those its status events hold,
   in order, with one advisory tag line inserted at most.
   */
  lemma {:induction false} NotesLogged(sha: Digest, norm: UrlNorm, moves: seq<Move>)
    ensures AllNoted(Run(sha, norm, moves).db)
  {
    hide Noted;
    if moves == [] {
      NothingNoted();
    } else {
      var n := |moves| - 1;
      NotesLogged(sha, norm, moves[..n]);
      LogReplays(sha, norm, moves[..n]);
      var before, m := Run(sha, norm, moves[..n]), moves[n];
      if m.commits && Exec(sha, norm, before, m.txn).Some? {
        ExecNoted(sha, norm, before, m.txn);
      }
    }
  }
}
