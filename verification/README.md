# brand-evidence, modelled and proved

brand-evidence keeps a record of a brand's publications and of mentions of it: posts and mentions, the
captures (screenshot, PDF, HTML) made of them, and the snapshots requested from a web archive. Every
change is also written to an append-only, hash-chained log. Several scheduled jobs, which do overlap,
work on one SQLite database and one content-addressed file store.

These modules model that record as a whole and prove what its parts owe each other.

- **Text, Json, JsonReader, Clock, Terms** are the ground: code point order, canonical JSON and its reader
  (RFC 8259), ISO stamps compared as text, sorted sets.
- **HashChain, Commitment, Checkpoints, Timestamps, Writers** are the log: the walk that verifies it, what
  its head hash commits to, the incremental check that must agree with the full one, the tokens that
  anchor it, and concurrent writers under SQLite's write lock.
- **Database, Sessions, Store, CapturePipeline, Crawler, CaptureLoop, ArchivePoll, Hook** are the tables and
  the operations on them. An operation the program performs step by step is a method. Its contract says what
  it leaves by the tables before and after, and ties it to the function of the state before it that the
  theorems about runs use.
- **Transactions** puts all of the record's transactions into one type. **RecordRuns, Notes, Frames, EvidenceRows,
  PollRuns, CrawlRuns, Backlog, HookRuns, Digest** are state machines over runs of them, with processes on
  the network between transactions, crashes and rollbacks anywhere.
- **Payloads, SealedRecord, Tokens** join both halves: the log of the tables written down as the chain, so
  that one head hash fixes the tables and every token keeps matching.
- **Runs, DigestRows, UrlNorm, Socks** are run bookkeeping, what a digest computes from its rows, URL
  normalisation and the SOCKS5 handshake of the capture proxy (RFC 1928).

SHA-256 is a parameter of which nothing is assumed. Where a result rests on it, the alternative is a
witness in the tables at hand: two rows whose materials differ and hash alike, or a row that hashes to
the value that starts a chain. Clock readings, row ids, network answers, robots verdicts, captures and
crashes are arguments of the operations or choices of the steps. Where a promise of the program fails, a
theorem gives the exact condition on which it holds and a lemma names a failing case: crawls and ingest
calls whose second transaction comes late (TimelyExact), archive answers recorded through an overtaken
item (ScheduleExact), calls after a file was attached (AttachmentBlocksCapture), digests after one that
crashed or failed (ListingExact, NextDigestExact), hosts and paths that normalise differently the second
time (IdempotentExact), lost log entries that only the full check sees (LossExact), and archive requests
that are asked about under the wrong URL (TargetExact).

Three points where the code does less than its comments say; the model follows the code. The anchor test
of the routine check is said to see entries below the checkpoint being deleted
(`src/brand_evidence/core/evidence_log.py:136-139`); deleting the lowest ones passes it
(Checkpoints.LowestGoneUnseen). Storing a capture and its state in one transaction is said to keep a URL from
being captured again (`src/brand_evidence/ingest/crawler.py:319-320`); it does so for a crash, not for two
crawls that overlap (CrawlRuns.OverlapCapturesTwice). And a post is taken for captured once it has any
artifact (`src/brand_evidence/ingest/hook.py:123-132`), so a file attached first, with no call at work on
the post, keeps it from ever being captured (HookRuns.AttachmentBlocksCapture).

One more case goes unmentioned in the code. A poll takes what follows the first `/save/` of a request URL
for the page to ask about (`src/brand_evidence/ingest/archive_poll.py:21-25`), also when the request failed and
that URL is the page's own (`src/brand_evidence/ingest/capture_pipeline.py:74-76`): the wrong page is asked about
when its URL contains `/save/` (ArchivePoll.TargetExact).

`dafny verify dfyconfig.toml` checks the project.

## Model

| member | source | states |
|---|---|---|
| Json.PrintUnique | src/brand_evidence/core/evidence_log.py:24-25 | canonical text is a prefix code: a printed value followed by anything that can follow one gives back both the value and what follows |
| Json.CanonicalJsonExact | src/brand_evidence/core/evidence_log.py:24-25 | two payloads have one canonical text if and only if they are equal as JSON values, whatever the order their keys were inserted in |
| JsonReader.PrintRead | src/brand_evidence/core/evidence_log.py:24-25 | a reader of RFC 8259 text gets back every printed value, and exactly what follows it |
| JsonReader.CanonicalRead | src/brand_evidence/core/evidence_log.py:24-25 | so canonical text reads back as the value it was made from, its dicts in key order, with nothing left over |
| Commitment.MaterialUnique | src/brand_evidence/core/evidence_log.py:28-32 | the undelimited concatenation of previous hash, stamp, event type and payload loses nothing: two well-formed entries have one material if and only if all four agree |
| Commitment.MaterialParts | src/brand_evidence/core/evidence_log.py:28-32 | where the parts stand: 64 characters of previous hash, 32 of stamp, the event type up to the first brace, then the canonical payload |
| HashChain.WalkExact | src/brand_evidence/core/evidence_log.py:181-208 | the walk passes exactly the rows that each follow their predecessor, and a failure names the first that does not, with the first of the three reasons that applies and the count up to it |
| HashChain.VerifyExact | src/brand_evidence/core/evidence_log.py:87-89 | `verify` passes exactly the linked tables, counting all rows, and otherwise reports the first break |
| HashChain.WalkRows | src/brand_evidence/core/evidence_log.py:193-208 | the loop gives the recursive walk's result, from any starting row, and computes exactly the stated number of hashes |
| Commitment.HeadCommits | src/brand_evidence/core/evidence_log.py:41-55 | two verified tables with one head hash have the same length and the same stamp, type and payload at every position, or they exhibit two rows with different materials and one hash, or a row that hashes to GENESIS |
| Writers.RememberedInsertExact | src/brand_evidence/core/models.py:92-93 | a writer that remembered an older head can insert if and only if that head is still the true one: the unique index on prev_hash refuses every other insert |
| Writers.StepKeeps | src/brand_evidence/core/db.py:62-102 | every step of begin, read head, insert, commit and roll back keeps the committed table and the holder's view valid chains, the second extending the first |
| Writers.LinearUnderConcurrency | src/brand_evidence/core/db.py:88-102 | for any number of writers in any order the committed table is always one valid chain and only ever grows at its end |
| Writers.WriteGrows | src/brand_evidence/core/evidence_log.py:41-55 | after any run that leaves the lock free, a writer that locks, appends and commits, whatever all others try meanwhile, adds one row at the end, with the given event, the next number and the head's hash; a rollback leaves the log as it was; only a failing hash keeps the row out; and the lock is free again |
| Writers.LockedAppendRefused | src/brand_evidence/core/evidence_log.py:41-55 | an append made under the write lock is refused by an index if and only if the head hash is GENESIS or the new hash collides with a row's |
| Checkpoints.CheckExact | src/brand_evidence/core/evidence_log.py:98-158 | for any table in key order and any checkpoint, whatever was done to either: the check passes if and only if the checkpoint's own entry is there, holds its hash and still hashes to it, every number from the lowest to it has its row, and the rows above are linked; each failure reports the first of these that is wrong, with its reason, number and count |
| Checkpoints.RoutineRefinesFull | src/brand_evidence/core/evidence_log.py:98-121 | when the latest checkpoint marks a valid prefix, the routine check agrees with `verify` in ok, entries, first bad number and reason, whatever lies above the checkpoint |
| Checkpoints.BlindSpot | src/brand_evidence/core/evidence_log.py:133-158 | for any altered table that a checkpoint's check passes: no number is missing from the lowest row to the checkpoint, `verify` passes if and only if those rows are linked, and otherwise its first break lies at or below the checkpoint |
| Checkpoints.UnreadBelow | src/brand_evidence/core/evidence_log.py:133-158 | the check reads nothing below the checkpoint's own row but how many rows there are and the lowest number |
| Checkpoints.LossExact | src/brand_evidence/core/evidence_log.py:133-158 | of a valid chain, the rows that are left after any loss pass the check if and only if they are one unbroken block that reaches the checkpoint, and then `verify` passes them only if the block begins as a chain does, and otherwise names its first row |
| Checkpoints.LowestGoneUnseen | src/brand_evidence/core/evidence_log.py:150-152 | so deleting the lowest rows is never seen by the routine check and always by `verify` |
| Checkpoints.CheckpointRuns | src/brand_evidence/core/evidence_log.py:161-178 | over every run of appends, recorded checks and alterations above the checkpoint: each checkpoint marks a fully valid prefix, their numbers strictly increase, and the routine check agrees with the full one |
| Checkpoints.RunNext | src/brand_evidence/core/evidence_log.py:98-178 | one operation more after any run: an append adds its row; a recorded check marks the head if and only if the whole table is linked, though it reads no more than the rows above the checkpoint, and otherwise changes nothing |
| Checkpoints.AmortisedCost | src/brand_evidence/core/evidence_log.py:98-121 | k recorded checks among appends that end at N entries compute at most N + k entry hashes in all: just each covered entry once, and a checkpoint's own entry once for every check that starts from it |
| Checkpoints.AppendLinked | src/brand_evidence/core/evidence_log.py:41-55 | an append, refused or not, keeps a linked table linked |
| Checkpoints.AppendExact | src/brand_evidence/core/evidence_log.py:41-55 | the table is left alone if some row has the head's hash as its previous hash or the new hash as its own; else it is the old table and one row with the given stamp, type and payload, the head's hash or GENESIS, the next number or 1, and the hash of that content |
| Checkpoints.EvidenceLog.AppendEvent | src/brand_evidence/core/evidence_log.py:41-55 | accepted if and only if neither unique index holds the head's hash or the new one already; then every row stays and one is added, numbered and hashed after the head with exactly the given event; refused, the table is as it was |
| Checkpoints.EvidenceLog.VerifyAll | src/brand_evidence/core/evidence_log.py:87-89 | passes exactly the linked tables and names the first break of any other, with one hash for every row up to it |
| Checkpoints.EvidenceLog.MarkHead | src/brand_evidence/core/evidence_log.py:161-178 | one checkpoint with the head's number and hash, unless the log is empty or the latest checkpoint is as far already |
| Checkpoints.EvidenceLog.VerifySinceCheckpoint | src/brand_evidence/core/evidence_log.py:98-121 | the answer of CheckExact for the latest checkpoint, or of the full walk when there is none; it hashes the checkpoint's entry and each row above it up to where the walk ends, and none below; a pass leaves the head marked when it records, a failure leaves no mark |
| Timestamps.CheckTimestamps | src/brand_evidence/cli.py:346-361 | the reported tokens are exactly those whose entry is missing or whose digest is not that of `seq:entry_hash` |
| Timestamps.FailingExact | src/brand_evidence/cli.py:346-361 | a list of tokens is reported empty if and only if every one of them names an entry whose number and hash have its digest |
| Timestamps.StampMaterialUnique | src/brand_evidence/ingest/capture_pipeline.py:165-165 | `seq:entry_hash` determines both parts |
| Timestamps.StampFixesPrefix | src/brand_evidence/ingest/capture_pipeline.py:158-188 | two verified logs that accept one token hold the same numbered history up to the stamped entry, or exhibit a broken hash |
| Timestamps.StampSurvives | src/brand_evidence/ingest/capture_pipeline.py:158-188 | a token just issued matches its entry, and goes on matching as the log grows |
| Tokens.TokensPass | src/brand_evidence/cli.py:346-361 | after any run of the record's transactions in which stamping names heads of the log, every recorded token names an entry of the chain and carries the digest of its number and hash, so the check of the tokens finds nothing |
| Tokens.TokenExact | src/brand_evidence/ingest/capture_pipeline.py:158-188 | a token is the number and the digest under their two names in the metadata, and nothing else in it matters |
| Sessions.Session.Close | src/brand_evidence/core/db.py:88-102 | leaving the scope commits everything or undoes everything since the last commit |
| Transactions.ExecFaithful | src/brand_evidence/core/evidence_log.py:58-62 | each of the record's transactions, run to its commit, keeps the log replaying to the tables |
| Transactions.LogReplays | src/brand_evidence/core/evidence_log.py:58-62 | after any run of all the record's transactions, with crashes and rollbacks anywhere, folding the log from empty gives posts, artifacts, mentions and snapshots, up to notes, capture attempts and the job id of a pending snapshot |
| Notes.NotesLogged | src/brand_evidence/cli.py:423-433 | after any run a mention's notes are those its status events hold, in order, with one advisory tag line inserted at most |
| Notes.NotesAreLines | src/brand_evidence/cli.py:423-433 | the notes the log holds of a mention are those given with its status, in order, one to a line |
| Notes.TagExact | src/brand_evidence/digest/classification.py:62-70 | a tag is added after the notes of a mention that has none yet, and a tagged mention is left alone |
| CrawlRuns.DecisionsLogged | src/brand_evidence/ingest/crawler.py:254-265 | as long as no capture visit comes late, the log's last capture decision about a mention is its state and its attempts at that state, and there is none about a pending mention |
| Frames.ExecLog | src/brand_evidence/core/evidence_log.py:41-62 | a committed transaction extends the log by its own kinds of event and changes nothing before them |
| Frames.ExecAdmits | src/brand_evidence/core/models.py:22-93 | a transaction is refused if and only if an id or a unique column that it needs is taken, or the row or kind it names is not there |
| Frames.ExecPuts | src/brand_evidence/ingest/capture_pipeline.py:23-42 | one that commits has stored all its blobs, in order |
| Frames.DeathLeavesBlobs | src/brand_evidence/ingest/capture_pipeline.py:28-41 | one that dies at any point leaves no row and no event, changes no stored file, and adds of its blobs just those it had put |
| Transactions.SetMentionStatus | src/brand_evidence/cli.py:409-434 | an unknown mention changes nothing; otherwise the status is the one given, the note follows the earlier ones on a line of its own, the event carries both, and no other column or row changes |
| Transactions.RecordBlob | src/brand_evidence/ingest/capture_pipeline.py:144-154 | the blob is stored whether or not its row is accepted, which it is if and only if its id is new; then that row, with the data's digest and the stored file's size, and its event are all that came |
| Transactions.AttachFile | src/brand_evidence/ingest/capture_pipeline.py:129-155 | accepted if and only if the post, if one is named, is there, the kind may be attached and the id is new; then one row of the post or of the project, with its event, and nothing else; a post or kind that is refused is refused before anything is stored |
| Transactions.TimestampHead | src/brand_evidence/ingest/capture_pipeline.py:158-188 | nothing for an empty log; else the token's blob with one row of the project and its event, refused if and only if the id is taken |
| RecordRuns.ArtifactsBacked | src/brand_evidence/ingest/capture_pipeline.py:28-41 | after any run, also when transactions die between a blob and its row, every artifact row names a stored file of the recorded size that hashes to the recorded digest |
| RecordRuns.MissingExact | src/brand_evidence/cli.py:330-330 | whatever then happens to the stored files, the check lists exactly the artifacts whose file is gone or altered, where an altered file passes only by colliding with the stored one |
| Store.ArtifactStore.Put | src/brand_evidence/core/store.py:31-41 | an interrupted put leaves no finished file, a finished one is never rewritten, and every finished file hashes to its name |
| Store.ArtifactStore.Verify | src/brand_evidence/core/store.py:46-48 | of any files, lost or altered ones too: a digest verifies if and only if a file is there and hashes to it |
| Payloads.PayloadIsDict | src/brand_evidence/core/models.py:14-16 | every payload is a dict without repeated keys and no event type holds a brace, which is what the unique decoding of the hash material asks |
| Payloads.PayloadTells | src/brand_evidence/core/models.py:14-16 | a payload holds every column of its row, or every part of its event, under the column's own name |
| Payloads.EventUnique | src/brand_evidence/core/models.py:14-16 | an event's type and payload, with payloads compared as dicts, determine the event with every column of its row |
| SealedRecord.ChainSound | src/brand_evidence/core/evidence_log.py:41-62 | writing events with `append` gives a chain that verifies and says what the log says |
| SealedRecord.ChainAppends | src/brand_evidence/core/evidence_log.py:41-62 | each row of that chain is what `append` adds to the rows before it, wherever the indexes admit it |
| SealedRecord.HeadHashFixesTables | src/brand_evidence/core/evidence_log.py:181-208 | two verified chains with one head hash tell one log and stand for equal tables in all the log shows, or exhibit a broken hash |
| SealedRecord.HeadHashFixesRecords | src/brand_evidence/core/evidence_log.py:181-208 | two records, each the result of any run of transactions, whose chains end in one hash hold the same rows, or exhibit a broken hash |
| SealedRecord.TokenFixesTables | src/brand_evidence/ingest/capture_pipeline.py:158-188 | a token accepted by two verified chains fixes their logs up to the stamped entry and so the tables at that point |
| Terms.SortedSetExact | src/brand_evidence/ingest/crawler.py:201-201 | `sorted(set(...))` is increasing and has exactly the given terms |
| Terms.IncreasingUnique | src/brand_evidence/ingest/crawler.py:202-202 | a set of terms has one sorted list, so comparing lists compares sets |
| Crawler.AbsorbExact | src/brand_evidence/ingest/crawler.py:194-225 | one hit joins its terms to what is known of its own URL and changes what is known of no other |
| Crawler.HitExact | src/brand_evidence/ingest/crawler.py:194-225 | one hit, by the tables: a new URL gets one row with the hit's own columns and sorted terms, a known one gets the union of terms if it grew and nothing else, and the log gets the matching event or none |
| Crawler.CreatedExact | src/brand_evidence/ingest/crawler.py:187-227 | a run returns exactly the mentions that were not there before, each once with its URL, in order, and loses none |
| Crawler.RunAdmits | src/brand_evidence/ingest/crawler.py:187-227 | a run is refused if and only if the id of a hit that is the first of its URL, in the table and in the run, is taken or shared; else the mentions are those there were and one for each such hit |
| Crawler.RunLearns | src/brand_evidence/ingest/crawler.py:187-227 | after a run a URL has a mention exactly when it had one or a hit has it, with the sorted union of all terms |
| Crawler.Confluence | src/brand_evidence/ingest/crawler.py:187-227 | two runs that bring the same terms for a URL leave the same list for it, whatever the order and repetition of their hits |
| Crawler.NothingNewExact | src/brand_evidence/ingest/crawler.py:200-210 | a run changes nothing and logs nothing if and only if the record already has all its hits |
| Crawler.ReplayedHits | src/brand_evidence/ingest/crawler.py:200-210 | hits absorbed once append nothing when they come again |
| Crawler.Lookup | src/brand_evidence/ingest/crawler.py:196-199 | the run's own dictionary and the table give the same answer |
| Crawler.AbsorbHit | src/brand_evidence/ingest/crawler.py:194-225 | one pass of the loop, with the row and the event of HitExact and the outcome that says which |
| Crawler.DedupeAndStore | src/brand_evidence/ingest/crawler.py:187-227 | the loop leaves the fold of its hits or, exactly when RunAdmits says so, the committed state; what it returns is exactly the new mentions, and its counts add up to the entries appended |
| RecordRuns.MentionsLearn | src/brand_evidence/ingest/crawler.py:187-227 | after any run of transactions a URL has a mention exactly when some committed crawl hit it, and its terms are the sorted union over all those hits, whatever their order and their split into runs |
| RecordRuns.CrawlsConfluent | src/brand_evidence/ingest/crawler.py:187-227 | two records whose crawls brought the same terms for a URL hold the same list for it |
| CaptureLoop.LoopTreats | src/brand_evidence/ingest/crawler.py:285-325 | after n passes each of the first n mentions is left as its own host, verdict and capture say: skipped if and only if its host is to be skipped or the verdict is a denial, untouched if and only if robots.txt was unavailable, one attempt more and failed at the third if and only if the capture threw, and captured with exactly the evidence fetched if and only if there was some; no other mention and no other evidence changes |
| CaptureLoop.CapturePending | src/brand_evidence/ingest/crawler.py:273-325 | the loop settles its batch one transaction at a time as LoopTreats says; it stops only at a capture whose ids are taken, and its counts are the numbers of captures stored and of allowed hosts that owed an answer |
| CaptureLoop.VisitMention | src/brand_evidence/ingest/crawler.py:285-325 | one visit's changes are committed together or not at all |
| CapturePipeline.StoreArtifacts | src/brand_evidence/ingest/capture_pipeline.py:23-42 | stored if and only if the three ids are new: screenshot, PDF and HTML bytes each under their own kind, digest and size, with three events in order, and every other row as it was; every stored file is kept either way |
| CapturePipeline.SubmitArchive | src/brand_evidence/ingest/capture_pipeline.py:45-78 | refused if and only if the id is taken; else one row and its event: confirmed with the URL and moment if and only if the archive answered with a snapshot, else waiting; with the archive's request URL and job id if it took the request, with the page's URL and none if it failed |
| CapturePipeline.StoreEvidenceRows | src/brand_evidence/ingest/capture_pipeline.py:23-78 | a capture is stored if and only if its four ids are new, and then those four rows carry it and nothing else in the tables changes |
| CapturePipeline.RecordHistory | src/brand_evidence/ingest/capture_pipeline.py:90-123 | exactly one historical row, with its own id and clock reading, for each held snapshot whose URL no row of the subject had before, and their number, unless one of just those ids is taken; -1 and no change when the lookup failed |
| CapturePipeline.HistoryAdmits | src/brand_evidence/ingest/capture_pipeline.py:90-123 | a history is refused if and only if the id of a snapshot that is new to the subject is taken or shared |
| CapturePipeline.HistoryOnce | src/brand_evidence/ingest/capture_pipeline.py:90-123 | a history whose URLs are all known adds nothing, so recording it twice is recording it once |
| EvidenceRows.StoreEvidenceExact | src/brand_evidence/ingest/capture_pipeline.py:23-78 | a stored capture gives a subject without evidence one artifact of each kind and one request, and changes no other subject's rows |
| EvidenceRows.StoreEvidenceOnce | src/brand_evidence/ingest/capture_pipeline.py:23-78 | stored for a subject with all of its evidence or none, a capture leaves full evidence if and only if there was none |
| Frames.ExecFrame | src/brand_evidence/ingest/capture_pipeline.py:23-188 | which transactions leave posts, capture states and the evidence of mentions and posts alone |
| CrawlRuns.VisitExact | src/brand_evidence/ingest/crawler.py:285-325 | a committed visit keeps its mention's state, attempts and evidence one story, and a settled one settled, if and only if it finds the mention still pending, waits, or skips what is skipped: the look again under the lock that the loop does without |
| CrawlRuns.TimelyExact | src/brand_evidence/ingest/crawler.py:273-325 | for any number of crawls overlapping, with crashes, rollbacks and all other transactions between: captures are all or nothing and final throughout a run if and only if no visit of the run commits late |
| CrawlRuns.CaptureAllOrNothing | src/brand_evidence/ingest/crawler.py:254-325 | as long as no visit comes late, overlapping or not: captured if and only if one artifact of each kind and one request exist, otherwise none of either; failed if and only if three captures threw |
| CrawlRuns.CaptureFinal | src/brand_evidence/ingest/crawler.py:234-251 | a captured, skipped or failed mention keeps its state, attempts and evidence through every step that is not late |
| CrawlRuns.ExclusiveRun | src/brand_evidence/ingest/crawler.py:146-185 | crawls that never overlap make no late visit |
| CrawlRuns.OverlapCapturesTwice | src/brand_evidence/ingest/crawler.py:319-324 | a run from the empty record in which two overlapping crawls leave one mention with six artifacts and two requests |
| CrawlRuns.OverlapSkipsCaptured | src/brand_evidence/ingest/crawler.py:287-295 | another in which the second crawl skips what the first has captured, and leaves it skipped with all its evidence |
| Backlog.StepWithin | src/brand_evidence/ingest/crawler.py:239-251 | every step keeps the bound on the crawls still needed and on the captures still owed, and a crawl that begins over a non-empty backlog lowers the first by one |
| Backlog.BacklogDrains | src/brand_evidence/ingest/crawler.py:230-337 | with budget b, hosts that answer and crawls that do not overlap, among any transactions that add no mention, n pending mentions are visited at most 3n times and at least once each to be settled, and once floor(3n/b) + 3 crawls have begun and ended none is pending |
| Backlog.PendingRemain | src/brand_evidence/ingest/crawler.py:309-313 | in every state such crawls reach, from the empty record on, pending mentions are those with attempts left |
| ArchivePoll.Schedule | src/brand_evidence/capture/archiver.py:24-31 | the whole schedule: due at once, then 1 m, 6 m, 36 m, 2 h 36 m and from then on 14 h 36 m after submission |
| ArchivePoll.TargetExact | src/brand_evidence/ingest/archive_poll.py:21-25 | a request the archive took is asked about under the URL it was made for, whatever that URL is; one that never reached the archive is asked about under its own URL if and only if `/save/` does not occur in it |
| ArchivePoll.AskExact | src/brand_evidence/ingest/archive_poll.py:64-104 | the URL handed on is the one some call found and none is made up or dropped; the job id is the resubmission's if the archive took one, else the item's own |
| ArchivePoll.PollExact | src/brand_evidence/ingest/archive_poll.py:64-136 | every due row still waiting gets one attempt: confirmed with the URL and the moment if and only if its check gave a non-empty URL, or the check gave nothing, no job was pending, an attempt was left and the resubmission gave one; else given up if and only if that was the sixth; with the job id kept in each case; every other row is as it was, and the three counts are the numbers of rows that ended so |
| ArchivePoll.DueSnapshots | src/brand_evidence/ingest/archive_poll.py:39-61 | the due rows in query order, exactly those whose next moment has come, and a count of the others |
| ArchivePoll.RecordAnswer | src/brand_evidence/ingest/archive_poll.py:107-136 | the row is read again under the lock: an answered one is left alone; a waiting one gets one attempt and is confirmed with the URL, given up on the sixth, or left waiting, each with its own event and no other change |
| ArchivePoll.RunArchivePoll | src/brand_evidence/ingest/archive_poll.py:64-104 | a poll of the due rows does to each what PollExact says, each at its own moment; its five counters count what was pending, deferred, confirmed, given up and already answered, and it is partial if and only if a call to the archive raised |
| PollRuns.OverlappingPolls | src/brand_evidence/ingest/archive_poll.py:107-136 | for any interleaving of any number of polls: attempts equals the logged attempts and never exceeds six, pending means fewer and unresolved, given up means exactly six, and a snapshot is resolved at most once |
| PollRuns.FinalStays | src/brand_evidence/ingest/archive_poll.py:111-115 | confirmed, given up and historical rows never change again |
| PollRuns.ScheduleExact | src/brand_evidence/ingest/archive_poll.py:39-61 | for any interleaving: attempt k + 1 never comes before submission plus its backoffs if and only if every attempt of the run was due when it was recorded, the question of the work list that is not asked again under the lock |
| PollRuns.FreshIsDue | src/brand_evidence/ingest/archive_poll.py:52-61 | an attempt recorded through an item whose count is still the row's is due, so only an item that another poll has overtaken can be early |
| PollRuns.ScheduleKept | src/brand_evidence/ingest/archive_poll.py:39-61 | as long as no overtaken item is recorded, overlapping or not, attempt k + 1 never comes before submission plus its backoffs, and no snapshot is given up within 14 h 36 m |
| PollRuns.ExclusiveFresh | src/brand_evidence/ingest/archive_poll.py:64-104 | polls that never overlap record no overtaken item |
| PollRuns.OverlapGivesUpAtOnce | src/brand_evidence/ingest/archive_poll.py:107-136 | a run in which six overlapping polls, five of them overtaken, give a snapshot up in the moment it was submitted |
| Hook.ResumeExact | src/brand_evidence/ingest/hook.py:121-135 | a call for a known URL resumes if and only if it captures and the post has no artifact of any kind; otherwise it is a duplicate |
| Hook.IngestExact | src/brand_evidence/ingest/hook.py:105-198 | how every call ends, by the tables before and after: invalid, refused and duplicate calls change nothing; a call that captured reports the post that has the URL, whether it is new, and leaves that post exactly the evidence fetched, with the stored rows' digests and status; a throw or a refused capture leaves just the post |
| Hook.BeginIngest | src/brand_evidence/ingest/hook.py:119-150 | a conflict if and only if the id or the pair of platform and external id is taken, a duplicate of the post that has the URL, a resumed post, or a new one inserted with its event; the first two change nothing |
| Hook.IngestPost | src/brand_evidence/ingest/hook.py:105-169 | the whole call, with its validation, both transactions and every way it can end, as IngestExact says of the tables it finds and leaves |
| Hook.CaptureForPost | src/brand_evidence/ingest/hook.py:172-198 | the second transaction stores all evidence and reports its hashes and status, or changes no row |
| HookRuns.OnePostPerUrl | src/brand_evidence/ingest/hook.py:119-150 | for any calls overlapping, with crashes anywhere, attachments and every other transaction around them: one post and one post.created entry for each URL |
| HookRuns.IngestIsRun | src/brand_evidence/ingest/hook.py:105-198 | a call that nothing interrupts is its first step followed by its second, with the same record and the post it reports, so these results speak of the call |
| HookRuns.TimelyExact | src/brand_evidence/ingest/hook.py:172-198 | posts have full evidence or none, and keep it once full, throughout a run if and only if no call of the run stores its capture for a post that has one |
| HookRuns.IngestAllOrNothing | src/brand_evidence/ingest/hook.py:105-198 | as long as no call stores late, whatever overlaps and is attached, a post has three captured artifacts of the three kinds and one request, or none of either |
| HookRuns.ExclusiveTimely | src/brand_evidence/ingest/hook.py:105-169 | calls that never overlap never store late |
| HookRuns.FinishedCallCaptures | src/brand_evidence/ingest/hook.py:194-198 | a call whose second transaction commits leaves its post with exactly the evidence it stored if and only if the post had no capture then, which calls that do not overlap always find |
| HookRuns.CapturedPostIsFinal | src/brand_evidence/ingest/hook.py:121-133 | a captured post keeps its evidence through every step that is not late, and every call of its URL is a duplicate that changes nothing |
| HookRuns.DuplicateForever | src/brand_evidence/ingest/hook.py:121-133 | once a post has an artifact, captured or attached, every call of its URL after any further run is a duplicate, overlapping or not |
| HookRuns.AttachmentBlocksCapture | src/brand_evidence/ingest/hook.py:127-133 | after a file is attached to a post every later call of its URL is a duplicate for ever; if the post had no capture and no call for it was at work, it never has one |
| HookRuns.InFlightStillCaptures | src/brand_evidence/ingest/hook.py:189-198 | a call at work when the file is attached still captures the post |
| HookRuns.OverlapCapturesTwice | src/brand_evidence/ingest/hook.py:189-198 | a run from the empty record in which two overlapping calls of one URL leave its post with six captured artifacts and two requests |
| Clock.StampOrder | src/brand_evidence/core/clock.py:8-15 | stamps compare as text exactly as their instants compare, from year 1 to 9999 |
| Clock.CutoffOrder | src/brand_evidence/digest/builder.py:70-90 | so does a stamp against a cutoff whose text drops a zero fraction |
| Clock.StampOfOrder | src/brand_evidence/core/clock.py:8-9 | no two instants share a stamp, and the order of stamps is the order of instants |
| Clock.StampReads | src/brand_evidence/core/clock.py:8-15 | a stamp reads back field by field: year, month, day, hour, minute, second and microsecond at their places, in UTC |
| Clock.CutoffOfOrder | src/brand_evidence/digest/builder.py:70-90 | a stamp sorts before a cutoff's text exactly when its instant comes before the cutoff |
| Clock.StampDate | src/brand_evidence/digest/builder.py:214-214 | two stamps begin with the same ten characters exactly when they fall on one UTC day |
| Digest.ListingExact | src/brand_evidence/digest/builder.py:67-99 | of the committed items older than itself a digest lists exactly those that no ended digest of an earlier day started after, or, where none had ended, those no older than the day before; whatever overlapped or crashed |
| Digest.NextDigestExact | src/brand_evidence/digest/builder.py:67-99 | the first digest to start after an item was stamped lists it if and only if some digest of an earlier day had ended by then or the item is no older than the day before |
| Digest.NoHole | src/brand_evidence/digest/builder.py:67-99 | so no item falls between two digests once an older one has ended, or began on the same day |
| Digest.CrashedDigestHides | src/brand_evidence/digest/builder.py:70-80 | a run in which the condition fails: the first digest crashed and stayed running, and the next one misses the item |
| Digest.FailedDigestHides | src/brand_evidence/digest/builder.py:73-73 | a digest that fails before it delivers still moves the window: the item is in no listing |
| Runs.RunContext.MarkPartial | src/brand_evidence/core/runs.py:25-27 | a noted failure makes the run partial and is kept after those before it |
| Runs.RunContext.Finish | src/brand_evidence/core/runs.py:39-59 | failed if and only if an exception ended the work, ok if and only if nothing was noted either, with the stats and the error text; no other row changes, and a row that is gone stays gone |
| DigestRows.ArchiveBySubject | src/brand_evidence/digest/builder.py:90-94 | for every subject with a snapshot and no other, the first of its best-ranked rows: confirmed if it has one, else historical, else waiting, else given up |
| DigestRows.CoverageDays | src/brand_evidence/digest/builder.py:211-224 | the longest unbroken stretch of days, ending the day before, on each of which a crawl or digest started that ended ok or partial |
| DigestRows.CoveredByDate | src/brand_evidence/digest/builder.py:211-224 | a day is covered if and only if the stamp of such a run begins with that day's date |
| UrlNorm.QueryExact | src/brand_evidence/core/urlnorm.py:42-47 | two queries have one canonical form if and only if the same pairs are kept, each as often |
| UrlNorm.QueryInvariant | src/brand_evidence/core/urlnorm.py:42-47 | permuting the pairs and adding or removing tracking parameters does not show |
| UrlNorm.SameMention | src/brand_evidence/core/urlnorm.py:31-48 | two URLs normalise alike if and only if scheme, host and path do and the pairs that do not track agree in number; the fragment never counts |
| UrlNorm.CaseInvariant | src/brand_evidence/core/urlnorm.py:31-48 | URLs that differ only in the letter case of scheme and host normalise alike |
| UrlNorm.SchemeExact | src/brand_evidence/core/urlnorm.py:31-48 | a URL without a scheme is taken for https |
| UrlNorm.LowerExact | src/brand_evidence/core/urlnorm.py:31-48 | lower-casing identifies exactly the texts that agree up to letter case, and leaves no capital |
| UrlNorm.HostExact | src/brand_evidence/core/urlnorm.py:31-48 | a leading `www.` and the scheme's own port, 443 for https and 80 for http, say nothing |
| UrlNorm.PathExact | src/brand_evidence/core/urlnorm.py:31-48 | slashes at the end of a path say nothing, and an empty path is the root |
| UrlNorm.TrackingExact | src/brand_evidence/core/urlnorm.py:31-48 | a tracking parameter is one in any letter case |
| UrlNorm.IdempotentExact | src/brand_evidence/core/urlnorm.py:31-48 | normalising twice equals once if and only if the host has no doubled `www.` in front and no doubled default port behind, and the path is not just two or more slashes |
| Socks.Client.Recv | src/brand_evidence/capture/pinning_proxy.py:157-157 | some of what is next, at most the size asked for, and nothing only at the end |
| Socks.Client.RecvExact | src/brand_evidence/capture/pinning_proxy.py:154-161 | exactly the next bytes of the stream however it is cut, or the exception with everything consumed |
| Socks.PinningProxy.ReadHost | src/brand_evidence/capture/pinning_proxy.py:139-147 | the host by address type, consuming exactly its field |
| Socks.PinningProxy.DialAny | src/brand_evidence/capture/pinning_proxy.py:128-134 | addresses in the resolver's order up to the first that answers |
| Socks.PinningProxy.Serve | src/brand_evidence/capture/pinning_proxy.py:103-136 | for every way recv can cut the stream, outcome, replies, bytes consumed, refusals noted and dials made depend on the concatenated bytes alone |
| Socks.RequestParses | src/brand_evidence/capture/pinning_proxy.py:103-147 | a request laid out as in section 4 of RFC 1928 parses back to its command, host bytes and port, whatever its version and reserved bytes, with the stream left at the first payload byte |
| Socks.NothingReadAhead | src/brand_evidence/capture/pinning_proxy.py:103-136 | unless the client hung up early, bytes sent after the request change nothing and are left unread |
| Socks.OtherCommand | src/brand_evidence/capture/pinning_proxy.py:103-136 | any other command is answered as not supported, with nothing looked up, dialed or noted and the payload unread |
| Socks.OtherAddress | src/brand_evidence/capture/pinning_proxy.py:103-147 | an address of an unknown type is answered by its own code, and its bytes are not skipped over |
| Socks.OnlyAcceptedDialed | src/brand_evidence/capture/pinning_proxy.py:103-136 | whatever a client sends: a whole CONNECT request has the guard asked about its own host and port, a refused host noted and answered so, an accepted one dialed at that port at the addresses the guard gave, in order, up to the first that answers, with the reply that says how it went; any other bytes neither dial, note nor connect |

## Left out

- SHA-256, RFC 3161 tokens and TSA signatures: the hash is a parameter, a token is the entry number and digest it records.
- SQLite, WAL and SQLAlchemy: tables are maps or sequences, a transaction commits as a whole or not at all, one process holds the write lock; waiting for the lock and its timeout are not modelled, and the append-only triggers appear only as the absence of steps that change rows.
- HTTP clients, sources, the browser, language models, SMTP, robots.txt fetching and caching: each is an arbitrary outcome.
- Unicode normalisation and encoding: text is a sequence of code points.
- `urlsplit`, `parse_qsl`, `urlencode` and IDNA: URLs are modelled after splitting, hosts by the bytes given to the decoder, and the crawler's normalisation is any function of the URL's text.
- UrlNorm.IdempotentExact: case folding is that of ASCII, because Unicode folding is library code; netlocs outside ASCII are not modelled.
- VerifyResult.describe and the reason strings: reasons are a datatype with the same cases and the same data.
- Stamps in rows are held as instants; Clock.StampOfOrder and Clock.CutoffOfOrder show that comparing the texts compares these.
- An append that an index refuses ends its transaction, so SealedRecord.Chain numbers only the events that were written.
- The stamps of one transaction's log entries are any instants; only those that a property reads (submission, attempts, items, run starts) are tied to the clock.
- Database.Artifact: `capture_meta` is one arbitrary dict, so merging `source_url` into it is not modelled; of a token's metadata only the entry number and the digest are read.
- Tagging writes several mentions in one transaction; here each is its own step, which differs only when that transaction is rolled back, and the tag is not logged in either case.
- Json.CanonicalJsonExact: floats are left out, and a payload that holds `true` where another holds 1 is a different value here, as it is in the text.
- Backlog.BacklogDrains: transactions that add mentions are excluded, since n counts what is pending at the start, and so are crawls that overlap.
- Tokens.TokensPass: that stamping names a head of the log is its hypothesis, because a token's metadata is a choice of the step here.
- Digest.NextDigestExact: for dates that have begun when the digest starts, as the default date has; what a digest of a future date lists is given by Digest.ListingExact.
- DigestRows.CoverageDays: days are ordinals; a stretch that reaches back to year 1 is not modelled.
- Runs.RunContext.Finish: each figure of the stats is one JSON text.
- Two processes writing one `.part` file of the store at once: the store has one writer, with crashes.
- A transaction's blobs that outlive its rollback are kept; nothing ever removes blobs, and no property here says when one may be removed.
- Export packages, digest and report text, settings, project registry, doctor, migrations, backfill and feed parsing, and the rate limiter: glue, or decided by reading one branch.
- The forwarding threads of the proxy, its sockets' timeouts and its lock: a handshake is modelled from its first byte to the connection it returns.
