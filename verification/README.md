# ctwatch: verification model

ctwatch mirrors Certificate Transparency logs: ingest workers follow each log, a backfill walks its history, a
single writer stores the precertificates it is sent, and a dispatcher delivers watchlist alerts by webhook. Its hard
part is a set of restartable step machines over shared tables, where any process may die between any two steps, and
one binary parser. This project models them in Dafny and proves what they keep.

Every Postgres table is a class and every SQL statement one atomic method of it, which may fail unless the database
is `available`. Workers are methods with the loops and branches of the code, cut off anywhere if the process `mayDie`.
For properties of whole runs, each
component also has a state machine whose events are the single steps of the code; the worker methods return, as a
ghost, the run of the machine that they performed, and their contracts tie the tables to the state at its end. The
lemmas then quantify over all runs, including interleavings and crashes that no single call shows.

| File | Content |
|---|---|
| `Entry.dfy` | the RFC 6962 leaf decoder, its mutable reader, and the encoding it inverts |
| `CtLog.dfy` | the remote log (RFC 6962 sections 4.3 and 4.6) and the sending half of the writer's queue |
| `BackfillJobs.dfy`, `Backfill.dfy` | start-index search, forward walk, and campaigns of interrupted runs |
| `Cursors.dfy`, `Tail.dfy` | live tailing by any number of interleaved workers |
| `Certs.dfy`, `Names.dfy`, `Writer.dfy` | the certificate tables, the name statistics and the writer |
| `Outbox.dfy`, `Webhook.dfy` | the webhook outbox and its dispatcher |
| `Pipeline.dfy` | end to end: from an index a worker has passed to a row in the certificate table, and what a crash loses |
| `Coverage.dfy` | tail and backfill together on a fresh install |
| `Delivery.dfy` | the alert end to end: from an index a worker has passed to the POST of its webhook |
| `Stats.dfy`, `San.dfy` | the rate rings and the normalization of SANs |
| `Wrappers.dfy`, `CertData.dfy`, `Sets.dfy` | shared result types, records and index sets |

## Where the code and its documentation part

The model follows the code. Where the documentation promises more, a lemma gives a failing input and the exact
condition under which the promise holds.

- ARCHITECTURE.md:151 moves the cursor after a successful write; the code moves it once the entries are in the
  writer's queue. `Pipeline.CursorAheadOfTable` shows an entry that is passed, lost in a crash and not stored by any
  later run; `Pipeline.StoredExact` says exactly what it takes to be stored, whatever flushes fail, and
  `Pipeline.LossLasts` where else a lost precert can come from.
- The comment at src/ingest/backfill_worker.rs:17-18 walks up to the tree head. Against a log that caps its replies,
  the newest entry is left out exactly when the smaller of batch size and cap divides the distance walked
  (`Backfill.LastEntryFetched`, `Backfill.CapMissesNewest`). A fresh install can then have an entry that neither the
  tail nor the backfill sends (`Coverage.EntryInNeither`; exactly when, `Coverage.JointExact` and
  `Coverage.SameHeadExact`).
- ARCHITECTURE.md:214 calls a re-run of a completed backfill a no-op. It sends everything again
  (`Backfill.TwoCompletedRuns`); it is a no-op if and only if its tree head ends at most one entry behind the start,
  which takes a head older than that of the completed run (`Backfill.RerunExact`).
- The comment at src/writer.rs:149-150 enqueues alerts for new rows only. `Writer.AlertsOnlyForNewRows` gives the
  exact condition and `Writer.DuplicateFiresAgain` the counterexample.
- ARCHITECTURE.md:615 promises alerts at least once. From the outbox on that holds (`Webhook.AtLeastOnce`), and what
  arrives is the alert that was enqueued (`Webhook.PostedIsEnqueued`, `Delivery.PassedIsPosted`). Up to it,
  of the certificates that one writer adds to the table, those on its own watchlist are all alerted, in all runs, if
  and only if no committed flush is interrupted before its last alert (`Writer.AtLeastOnceExact`), which an available
  database and a living process guarantee (`Writer.Writer.Drain`). A crash in between leaves a certificate stored with
  its alert owed (`Writer.OwedAndLost`); replays do not make up for it, only a flush that brings the certificate again
  together with a new one does (`Writer.CrashLosesAlerts`, `Writer.NoveltyBringsAlert`). `ctwatch backfill` runs a
  second writer with an empty watchlist on the same tables (src/cmd/backfill.rs:40); a watched certificate that it
  stores first is in the same position without any interruption (`Writer.SecondWriterSilences`).
- ARCHITECTURE.md:598 and 622 show one event id in the body and in the address of a redelivery. The code draws two
  (src/writer.rs:159, src/store/outbox.rs:8), and as long as they are two, asking with the id of a body finds nothing
  (`Webhook.IdsApartExact`, `Webhook.RedeliverByBody`).
- ARCHITECTURE.md:207 updates the progress of a backfill after the insert; the code does so once the entries are
  queued, and the command returns without waiting for the writer (src/cmd/backfill.rs:60-72).
  `Pipeline.CutOffAndUnstored` shows a job that is cut off, resumed and completed, and whose first entry no run of it
  ever stores; `Pipeline.BackfillLossLasts` says where else a lost entry can come from, and `Pipeline.RerunRepairs`
  what repairs it. A job can also complete with everything queued or nothing heard (`Pipeline.CompletedButUnstored`,
  `Backfill.DeafRunCompletes`), and a completed job has no later runs (`Backfill.CompletedHasNoRuns`).
- ARCHITECTURE.md:616 starts the retry delays at one second; the code's first is four (`Webhook.DelayIs`,
  `Webhook.ScheduleKept`).
- `last_seen` is overwritten, so a name's span can be reversed (`Names.SpanOutOfOrder`), and stays in order exactly as
  long as no upsert brings a time older than first_seen (`Names.SpanAlwaysInOrder`).
- The refresh at src/cmd/serve.rs:144-149 can start a second worker for a log. From a non-zero cursor that is safe
  (`Tail.TailSafe`). A fresh log is tailed without loss in every run if and only if there is never a second worker
  (`Tail.LossExact`, `Tail.TwoFreshWorkersLoseAnEntry`); what is lost was jumped over by a late skip
  (`Tail.LossNeedsLateSkip`), though not every late skip loses something (`Tail.LateSkipMayBeHarmless`).
- Redelivering a row that is already due sends it to the back (`Webhook.RedeliveryLosesItsPlace`), and doing so again
  and again can starve it (`Webhook.RedeliveryStarves`); the bound on its wait holds if and only if it is never
  redelivered itself (`Webhook.WindowBoundExact`).
- Normalizing SANs twice can change them (`San.IdempotentExact`).
- The comment at src/writer.rs:40 has batches of 101; the loop takes at most 100 (`Writer.TakeBatch`).

## Model

| member | source | states |
|---|---|---|
| Entry.Reader.constructor | src/ingest/entry.rs:95-97 | a new reader has the whole buffer before it |
| Entry.Reader.ReadExact | src/ingest/entry.rs:98-105 | takes exactly the next bytes, or fails and moves nothing; the position stays within the buffer |
| Entry.Reader.Uint | src/ingest/entry.rs:106-120 | reads the big-endian number of the next 1, 2 or 8 bytes, or fails and moves nothing |
| Entry.Reader.VarBytes | src/ingest/entry.rs:121-133 | the shift-or loop reads the vector that its big-endian length prefix announces, and errs exactly when prefix or body is cut short |
| Entry.DecodeKind | src/ingest/entry.rs:54-79 | the entry-type branch reads what the specification function on byte sequences says |
| Entry.DecodeLeaf | src/ingest/entry.rs:41-88 | the imperative decoder agrees with the specification on every input, errors included |
| Entry.ShiftOrIsBigEndian | src/ingest/entry.rs:123-125 | `(len << 8) \| b` on a u64 is one big-endian step modulo 2^64, and loses nothing if and only if the length so far fits in 56 bits |
| Entry.FromBeOfBigEndian | src/ingest/entry.rs:111-120 | reading a big-endian number back gives the number |
| Entry.BigEndianOfFromBe | src/ingest/entry.rs:111-120 | and writing a read number back gives its bytes |
| Entry.DecodeComplete | src/ingest/entry.rs:41-88 | round trip: the encoding of any entry, with any extensions and anything behind it, decodes to that entry |
| Entry.DecodeSound | src/ingest/entry.rs:41-88 | whatever decodes begins with the RFC 6962 section 3.4 encoding of the result |
| Entry.DecodeExact | src/ingest/entry.rs:41-88 | the decoder returns an entry if and only if the input carries it |
| Entry.TrailingBytesIgnored | src/ingest/entry.rs:80-87 | bytes behind a decodable leaf or extra data change nothing |
| Entry.HeaderRefused | src/ingest/entry.rs:41-79 | malformed input is refused by the first header field that is missing or has an unknown value, with the error that names it |
| Entry.EncodingUnambiguous | src/ingest/entry.rs:3-21 | one input carries at most one entry, one extension block and one remainder |
| CtLog.CtServer.GetSth | src/ingest/client.rs:54-73 | a tree head is never beyond the log, possibly stale |
| CtLog.CtServer.GetEntries | src/ingest/client.rs:75-97 | an inverted range is an error; a reply is a run of the log from `start`, not longer than asked |
| CtLog.WriterChannel.Send | src/ingest/worker.rs:89-93 | a job is queued while the receiver lives and lost otherwise; the receiver may go at any moment |
| BackfillJobs.JobTable.Insert | src/store/backfill_jobs.rs:30-50 | creates the job at its start index unless the target, log and since, has a running one (unique index) |
| BackfillJobs.JobTable.FindActive | src/store/backfill_jobs.rs:52-76 | finds a running job of the same log and since exactly when there is one |
| BackfillJobs.JobTable.UpdateProgress | src/store/backfill_jobs.rs:78-87 | changes the progress of one job and nothing else |
| BackfillJobs.JobTable.Complete | src/store/backfill_jobs.rs:89-97 | changes the status of one job and nothing else |
| Backfill.BinarySearchIndex | src/ingest/backfill_worker.rs:96-117 | on any timestamps the result is a boundary; at most ceil(log2 n) probes, all below n - 1; it errs only for a failed request, an empty reply or an undecodable probe |
| Backfill.FirstAtLeast | src/ingest/backfill_worker.rs:17-18 | reference: the first index at or after the target, by a linear scan |
| Backfill.BoundaryIsFirst | src/ingest/backfill_worker.rs:96-117 | on non-decreasing timestamps the search returns min(first index at or after the target, n - 1) |
| Backfill.HalvingStep | src/ingest/backfill_worker.rs:104-114 | either half of the search range needs one probe less |
| Backfill.CeilLog2Exact | src/ingest/backfill_worker.rs:102-115 | the bound on the probes is the binary logarithm of the tree size, rounded up |
| Backfill.SendEntries | src/ingest/backfill_worker.rs:68-80 | what has been sent after every entry: the decodable ones, in order, once each, up to where the receiver went |
| Backfill.SendReply | src/ingest/backfill_worker.rs:66-80 | sending changes the channel only, also when cut off in the middle |
| Backfill.SaveProgress | src/ingest/backfill_worker.rs:81-82 | saved progress is what has been sent, or is left as it was |
| Backfill.HandleReply | src/ingest/backfill_worker.rs:66-83 | a reply advances the job by its length, an empty one by one index; a failure leaves sent entries unsaved, and only a failing database or a kill is one |
| Backfill.CompleteJob | src/ingest/backfill_worker.rs:92 | the job is marked completed, or left running with all progress |
| Backfill.WalkForward | src/ingest/backfill_worker.rs:60-92 | the loop performs a legal walk; at most end - cursor successful replies; with replies cut at a cap only, it stops where WalkEnd says; unhindered and not killed it completes the job |
| Backfill.FindOrInsert | src/ingest/backfill_worker.rs:39-57 | resumes the running job at its stored progress or creates one at the start index |
| Backfill.FindRange | src/ingest/backfill_worker.rs:26-37 | on non-decreasing timestamps there is nothing to do if and only if no entry before the last is recent, else the walk goes from a boundary to the last index; it fails only with the log |
| Backfill.IdleExact | src/ingest/backfill_worker.rs:33-37 | the guard start >= end holds exactly when no entry before the last one is at or after the target |
| Backfill.RunForLog | src/ingest/backfill_worker.rs:19-94 | one run, cut off anywhere, is a legal event of a campaign; it does nothing if and only if the tree it was shown leaves nothing to do; unhindered and not killed it always completes its job or has nothing to do; with regular replies it ends where WalkEnd says |
| Backfill.StepKeepsInv | src/ingest/backfill_worker.rs:32-91 | every run and every growth of the log keeps: each job of the target has sent what it claims |
| Backfill.CampaignCovers | src/ingest/backfill_worker.rs:32-91 | resumption: after any campaign of interrupted runs, [start, progress) of every job has been fetched and, while the receiver lived, sent |
| Backfill.ResumptionSafe | src/ingest/backfill_worker.rs:32-91 | the same from an empty job table: start index, progress and everything sent, spelled out |
| Backfill.CampaignExtends | src/store/backfill_jobs.rs:78-87 | progress never decreases, start indices never change, nothing sent is taken back |
| Backfill.RunsShareStart | src/ingest/backfill_worker.rs:32-33 | every run that gets a job finds the same start index, however stale its tree head |
| Backfill.ResumedStart | src/ingest/backfill_worker.rs:33-57 | a resumed run finds the start index stored in its job |
| Backfill.CampaignSendsRecent | src/ingest/backfill_worker.rs:60-82 | no run ever sends an entry older than `since` |
| Backfill.ResumedSendsFrom | src/ingest/backfill_worker.rs:54-82 | no run of a job sends anything below the progress it finds |
| Backfill.SentExact | src/ingest/backfill_worker.rs:66-82 | over any campaign an index is sent if and only if some run offered it while the receiver was there |
| Backfill.DeafRunCompletes | src/ingest/backfill_worker.rs:70-92 | a run whose receiver is gone completes its job with nothing sent |
| Backfill.CompletedHasNoRuns | src/store/backfill_jobs.rs:52-76 | a completed job has no later runs |
| Backfill.CompletedRunCovers | src/ingest/backfill_worker.rs:60-92 | a completed run stops at the last index or just behind it unless an earlier run got further in a larger tree, and no recent entry is missing but perhaps the last |
| Backfill.WalkEndExact | src/ingest/backfill_worker.rs:60-81 | with replies of one length the walk gets behind the last entry exactly when that length does not divide the distance |
| Backfill.LastEntryFetched | src/ingest/backfill_worker.rs:34-81 | against a log that caps its replies the newest entry is fetched exactly when the smaller of batch size and cap does not divide the distance |
| Backfill.CapMissesNewest | src/ingest/backfill_worker.rs:60-92 | a completed run, batch size three over five entries, that misses the newest because the log answers two at a time |
| Backfill.CompletedTargetStartsOver | src/ingest/backfill_worker.rs:39-57 | after completion any further walk of the target opens a new job at the start index |
| Backfill.RerunSendsAgain | src/ingest/backfill_worker.rs:39-92 | whenever the tree reaches two entries past the start, a completed re-run exists and sends everything from the start again |
| Backfill.RerunExact | src/ingest/backfill_worker.rs:33-57 | a re-run against a tree of n entries is a no-op if and only if n <= start + 1, and can walk if and only if n > start + 1; the completed run's own head is always beyond that |
| Backfill.TwoCompletedRuns | src/ingest/backfill_worker.rs:19-94 | a campaign of two completed runs from an empty job table that sends both entries twice |
| Cursors.CursorTable.Upsert | src/store/cursors.rs:13-28 | a known log keeps its position, a new one starts at zero |
| Cursors.CursorTable.Current | src/ingest/worker.rs:99-107 | the stored position; a missing row is an error |
| Cursors.CursorTable.Advance | src/store/cursors.rs:30-41 | moves the position forward only |
| Tail.SendAll | src/ingest/worker.rs:81-94 | sends the range in order up to the first entry that does not decode; all of it exactly when all decodes |
| Tail.FetchAndAdvance | src/ingest/worker.rs:73-96 | with nothing in its way the cursor moves to the end of the range if all of it decodes, and otherwise not at all |
| Tail.Tick | src/ingest/worker.rs:46-97 | a tick is a run of the machine; true means progress by as many entries as were sent; an error leaves the cursor; unhindered the result is determined |
| Tail.Run | src/ingest/worker.rs:26-44 | any number of ticks are a run of the machine that never lowers the cursor; unhindered, over decodable entries, they lead exactly where CursorAfter says |
| Tail.CatchUpExact | src/ingest/worker.rs:26-97 | a lone worker has caught up with n entries from c if and only if it has had ceil((n - c) / min(batch, cap)) ticks |
| Tail.StepKeepsInv | src/ingest/worker.rs:46-97 | every step of every worker keeps the invariant and never lowers the cursor |
| Tail.RunKeepsInv | src/ingest/worker.rs:46-97 | so does every interleaved run |
| Tail.TailSafe | src/ingest/worker.rs:46-97 | from c0 > 0, under any interleaving and crashes, every index in [c0, cursor) was decoded and sent, and the cursor stays within the largest tree size seen |
| Tail.CursorMonotone | src/store/cursors.rs:30-41 | the cursor never decreases between any two points of a run |
| Tail.PoisonEntryBlocks | src/ingest/worker.rs:82 | the cursor never passes an entry that does not decode |
| Tail.LossNeedsLateSkip | src/ingest/worker.rs:59-68 | a lost index was jumped over by a late skip; without one every index from the first position to the cursor was decoded and sent |
| Tail.LossExact | src/ingest/worker.rs:59-68 | no run of at most n workers on a fresh log loses anything if and only if n <= 1 |
| Tail.JumpsExact | src/ingest/worker.rs:59-68 | an index beyond the first position is jumped over if and only if a late skip happens |
| Tail.LoneWorkerLosesNothing | src/ingest/worker.rs:59-97 | with a single worker every index from the first position to the cursor was decoded and sent |
| Tail.TwoFreshWorkersLoseAnEntry | src/cmd/serve.rs:144-164 | two workers on a fresh log: a run in which an entry is passed and never sent |
| Tail.LateSkipMayBeHarmless | src/ingest/worker.rs:59-97 | two workers on a fresh log: a run with a late skip in which nothing is lost |
| Tail.SentFromStart | src/ingest/worker.rs:73-94 | in any run from position c0 only indices at or beyond c0 are sent |
| Tail.SentSinceFirst | src/ingest/worker.rs:59-94 | a tail from zero never sends an index below its first position |
| Certs.CertStore.InsertBatch | src/store/certs.rs:18-61 | all or nothing; inserts each row whose key is new together with its names, each under what the lookup gives for it or, if that gives nothing, under itself, and returns the growth of the table |
| Certs.InsertAllKeepsIndex | src/store/certs.rs:42-57 | after any batch every certificate stands under its hash and not_before, and cert_names holds exactly one row for each name of each certificate, with the registered domain that the lookup gives for the name, or the name itself if it gives none |
| Certs.NewNamesDomain | src/store/certs.rs:42-57 | what a batch adds to cert_names it adds under what the lookup gives, whatever the table held before |
| Certs.InsertAllExact | src/store/certs.rs:25-40 | old certificates stay; the new keys are the hash and not_before of rows of the batch, and hold one of these rows |
| Certs.GrowthExact | src/store/certs.rs:40 | the count is positive exactly when some key is new, and at most the number of rows |
| Certs.InsertAllSplits | src/store/certs.rs:25-58 | two batches one after the other are one batch |
| Certs.Confluent | src/store/certs.rs:25-58 | order and repetition of rows do not matter if no two different rows claim one key |
| Certs.SwapExact | src/store/certs.rs:25-40 | two rows can be swapped if and only if they do not compete for a new key with different contents |
| Certs.InsertKnown | src/store/certs.rs:25-42 | rows whose keys are stored change neither table |
| Names.NamesTable.Upsert | src/store/names.rs:5-24 | one observation: insert, or overwrite last_seen and count one more |
| Names.NamesTable.PruneOlderThan | src/store/names.rs:75-80 | removes exactly the names last seen before the cutoff and returns their number |
| Names.RowIsFold | src/store/names.rs:5-24 | for any history of upserts and prunes a row is the fold of the name's observations since its last removal |
| Names.SpanInOrder | src/store/names.rs:15 | first_seen <= last_seen if and only if the latest live observation is no older than the first |
| Names.SpanAlwaysInOrder | src/store/names.rs:11-16 | a span is in order all along a history of upserts and prunes if and only if no upsert that finds a row brings a time older than its first_seen |
| Names.SpanOutOfOrder | src/writer.rs:140-147 | a history that reverses them |
| Names.CountGrowsBy | src/store/names.rs:11-16 | without pruning cert_count grows by the number of occurrences and first_seen stays |
| Writer.TakeBatch | src/writer.rs:39-51 | a batch is the next 1 to 100 jobs received |
| Writer.Writer.JudgeBatch | src/writer.rs:79-112 | the rows are exactly those of the precerts whose DER parses with a not_before that is not past the cutoff, each with the hash of that DER and what the parser says of it, in order; stale ones are counted, final certificates and unparsable DERs dropped |
| Writer.RowsExact | src/writer.rs:84-112 | the specification of a batch: a row is in it if and only if some precert of the batch is accepted at the cutoff and is what the row holds |
| Writer.AddedIsPrecert | src/writer.rs:84-112 | over any run, each key added to the table is the hash and not_before of a DER that the writer was sent as the DER of a precert, and holds what the parser says of it |
| Writer.FinalCertsIrrelevant | src/writer.rs:85-88 | final certificates can be taken out of every batch of any run without a difference in tables, index, names, alerts or counters |
| Writer.Writer.ObserveRow | src/writer.rs:141-146 | one observation for each name of a row, in order, under its registered domain and at the not_before, less those whose statement fails, up to a crash |
| Writer.Writer.ObserveNames | src/writer.rs:138-147 | one observation for each name of every accepted row, new or not, less those whose statement fails, up to a crash |
| Writer.ObservedTells | src/writer.rs:138-147 | over any run that began without names, a name stands under what the lookup gives for it or else under itself, and its first_seen and last_seen are the not_before of committed certificates that carry it |
| Writer.ObservedCount | src/writer.rs:138-147 | and its cert_count is how often the committed certificates carry it, if no observation was left out |
| Writer.Writer.StoreRows | src/writer.rs:132-136 | one insert transaction; the ingested counter takes the rows that were new, the duplicate counter the others |
| Writer.MatchesExact | src/watchlist/matcher.rs:23-30 | the matches are the registered domains on the watchlist, in order, each as often as the certificate has it |
| Writer.Writer.FreshIds | src/writer.rs:159 | body and row get two different ids, neither of them in use |
| Writer.Writer.EnqueueAlert | src/writer.rs:158-167 | one new row with the alert, or nothing if the statement fails |
| Writer.Writer.EnqueueAlerts | src/writer.rs:149-169 | one alert for each matching row of the batch, or none if nothing was inserted, less those whose statement fails, up to a crash |
| Writer.AlertTells | src/writer.rs:149-169 | over any run, each alert raised matches exactly the watched registered domains of its certificate, and that is the certificate of a precert in a batch committed at the time it gives |
| Writer.Writer.FlushBatch | src/writer.rs:71-178 | the whole new state of tables, index, names, outbox and counters, whichever statements fail and wherever the process dies; all of it while the database is available |
| Writer.Writer.Drain | src/writer.rs:37-66 | the loop cuts what it receives into batches of 1 to 100 that concatenate back to it, or to a prefix if it dies, and tables, names and outbox are those of the run of flushes, new rows appended in the order of the clock; while the database is available every batch is committed, every name and alert stored, and every watched certificate added is alerted |
| Writer.BatchingIrrelevant | src/writer.rs:39-66 | however and whenever the loop flushes its input, the tables are those of one big batch of what the committed flushes accept |
| Writer.OneCutoffRows | src/writer.rs:79-112 | at one cutoff that is what the committed jobs hold, wherever the cuts are |
| Writer.WriterConfluent | src/writer.rs:84-136 | the tables depend only on the set of precerts accepted by committed flushes, whatever their batches, order, number and times, if no two of them share a hash |
| Writer.RunKeepsIndex | src/store/certs.rs:22-60 | over any run, failed inserts included, the index agrees and ingested equals the growth of certs |
| Writer.OneRowPerHash | src/store/certs.rs:29 | a table that began empty is deduplicated by hash although its key holds not_before too, if no two accepted precerts share a hash |
| Writer.CountersConserved | src/writer.rs:98-136 | ingested plus duplicates, stale ones included, plus the rows given up with a failed insert, equals the number of precerts that parsed |
| Writer.AlertsCounted | src/writer.rs:156-176 | over any run the stream counter grows by the rows of the committed flushes, and the watchlist counter by at least the alerts enqueued, by exactly these if none is left out |
| Writer.ReplayIsQuiet | src/writer.rs:132-169 | flushing known rows again changes no table, alert or ingested count, and raises each name's count by its occurrences |
| Writer.FlushedStaysKnown | src/writer.rs:132-133 | a stored batch stays known through any later run |
| Writer.AlertsOnlyForNewRows | src/writer.rs:149-154 | alerts go to new rows only if and only if the batch holds nothing new or no watched row of it is a duplicate |
| Writer.DuplicateFiresAgain | src/writer.rs:149-154 | a stored watched certificate fires again because of an unrelated new one |
| Writer.CompleteKeepsPromise | src/writer.rs:132-169 | if no committed flush leaves an alert out, every watched certificate the run adds to the table is alerted |
| Writer.AtLeastOnceExact | src/writer.rs:132-169 | in all runs with at most n interrupted flushes every watched certificate added is alerted, if and only if n is zero |
| Writer.OwedAndLost | src/writer.rs:133-169 | a run that stores a watched certificate and never raises its alert |
| Writer.AlertedExact | src/writer.rs:132-169 | over any run with failures and crashes a certificate is alerted if and only if it is watched and some flush that accepts it is committed, brings something new, and stores its alert |
| Writer.OwedExact | src/writer.rs:132-169 | over any run the watched certificates added are all alerted if and only if that holds for each of them |
| Writer.ReplaysRaiseNothing | src/writer.rs:149-154 | flushes of known rows alert nothing, however many |
| Writer.CrashLosesAlerts | src/writer.rs:133-169 | a crash between commit and alerts: a watched row the batch added is stored, after any further run it is alerted if and only if a later flush takes it together with something new, and replays alone alert nothing |
| Writer.NoveltyBringsAlert | src/writer.rs:149-154 | such a later flush does alert it, the new certificate being watched or not |
| Writer.SecondWriterSilences | src/cmd/backfill.rs:40-48 | a watched certificate that the backfill's writer stores first is stored without an alert, nothing being interrupted, and the other writer alerts it if and only if it gets it again together with something new |
| Outbox.OutboxTable.Enqueue | src/store/outbox.rs:7-17 | appends a pending row that is due at once; event ids are unique |
| Outbox.OutboxTable.Due | src/store/outbox.rs:45-66 | a window of earliest due rows, each with its own event id, body and attempts; no due row left out comes before one that is in it |
| Outbox.OutboxTable.MarkAttempt | src/store/outbox.rs:68-88 | one more attempt and a new time on one row |
| Outbox.OutboxTable.MarkDelivered | src/store/outbox.rs:90-104 | one more attempt and delivery on one row |
| Outbox.OutboxTable.ForceRedeliver | src/store/outbox.rs:106-117 | makes the row pending and due, keeps its attempts, and says whether there is one |
| Webhook.IdsApartExact | src/writer.rs:158-165 | over any run of the outbox no body carries the id of a row if and only if every event enqueued had two ids of its own |
| Webhook.RedeliverByBody | src/store/outbox.rs:106-117 | redelivery asked for with the id in a body then finds nothing and changes nothing |
| Outbox.OutboxTable.PendingCount | src/store/outbox.rs:19-24 | the number of undelivered rows |
| Outbox.PendingPlusDelivered | src/store/outbox.rs:19-24 | pending and delivered rows add up to the table |
| Webhook.Endpoint.Post | src/webhook.rs:50-60 | the receiver gets the row and answers with any status or none |
| Webhook.ScheduleRetry | src/webhook.rs:77-95 | after the last attempt the row waits 3650 days, else 4, 16, 64, 256, 1024, 4096 or, from the seventh failure on, 16384 seconds |
| Webhook.DelayIs | src/webhook.rs:91 | 4^min(k, 7) is that table |
| Webhook.DeliverOne | src/webhook.rs:43-75 | exactly one POST of the row, with the event id and body it has in the table; a stored answer makes it delivered if 2xx and else puts it back on schedule; the steps are a run of the machine |
| Webhook.DispatchTick | src/webhook.rs:29-40 | a tick POSTs the rows of one window of at most fifty, each once, in order, and each with the event id and body of its own row; it marks the answers on these rows and leaves all others alone; it is a run of the machine; with the database available it always gets a window and every mark is stored |
| Webhook.RunKeepsInv | src/webhook.rs:23-95 | every run keeps the invariant, with enqueues, redeliveries and crashes at any point |
| Webhook.RunGrows | src/store/outbox.rs:7-117 | no row disappears; event ids and bodies stay; attempts never fall |
| Webhook.PostedIsEnqueued | src/webhook.rs:50-58 | over any run, whatever was ever POSTed under the id of a row carries the event id and the body of that row |
| Webhook.RowsTell | src/store/outbox.rs:68-104 | over any run, a row without attempts tells of none; otherwise last_status is the answer to a POST of it made after one attempt less, and delivered_at is set only by a 2xx answer and is the time of the last attempt |
| Webhook.AtLeastOnce | src/webhook.rs:60-74 | the POSTs made of a row are its stored attempts plus lost marks plus one in flight; for a delivered row one of them was answered with 2xx |
| Webhook.LostMarkStaysDue | src/webhook.rs:64-72 | a row whose mark was lost, by failure or crash, is still due |
| Webhook.AttemptBound | src/webhook.rs:85-93 | a row is POSTed at most max(M, 1) times, plus redeliveries, plus lost marks, before the park ends |
| Webhook.BoundAttained | src/webhook.rs:85-93 | for every M a run in which a row is POSTed max(M, 1) times and fails each time, the last POST exactly the summed delays after it was enqueued |
| Webhook.AttemptBoundExact | src/webhook.rs:85-93 | without redeliveries and lost marks, n bounds the POSTs of a row in all runs of less than 3650 days if and only if n >= max(M, 1), if the schedule is shorter than that |
| Webhook.TotalDelayClosed | src/webhook.rs:91 | the delays before the k-th attempt add up to (4^k - 4) / 3 for k <= 8 and grow by 4^7 after |
| Webhook.ScheduleKept | src/webhook.rs:85-93 | in every run a never-redelivered row is pending until a 2xx answer; after the k-th failure its next attempt is the last one plus exactly 4^min(k, 7) seconds, after the M-th plus 3650 days, and no attempt comes before the delays before it have passed |
| Webhook.BoundedWait | src/store/outbox.rs:45-66 | from any state, in or between windows: whatever is enqueued, retried or redelivered, the rows ahead of a due row only shrink, fifty a window |
| Webhook.PostedWithinWindows | src/webhook.rs:29-40 | a due row not in flight with k rows ahead is POSTed, with its own event id and body, within k / 50 + 1 further windows, or in the current one if that holds it, if marks succeed |
| Webhook.RedeliveryLosesItsPlace | src/store/outbox.rs:106-117 | redelivering a due row puts every other due row in front of it |
| Webhook.RedeliveryStarves | src/store/outbox.rs:106-117 | for every n a run of n windows, none wasted, after each of which a row is redelivered, and which leaves it due and never POSTed |
| Webhook.WindowBoundExact | src/store/outbox.rs:45-117 | in all runs with at most r own redeliveries, none wasted, a waiting row is POSTed within its windows, if and only if r is zero |
| Webhook.AppendIsRun | src/store/outbox.rs:7-17 | whatever a writer appends to the outbox is a run of the dispatcher's machine |
| Pipeline.TailedIsStored | src/ingest/worker.rs:46-97 | every precert below the cursor was taken by a flush once the writer has worked off what was sent, and one committed flush that accepts it puts it into the table, whatever the others do |
| Pipeline.BackfilledIsStored | src/ingest/backfill_worker.rs:60-92 | the same for every index a backfill job claims, once the writer has worked off what was sent |
| Pipeline.BackfillLossLasts | src/cmd/backfill.rs:60-72 | after the process has gone with jobs queued, as long as no new job is opened, a key can get into the table only from the log at or beyond the stored progress or from another sender |
| Pipeline.CompletedButUnstored | src/cmd/backfill.rs:60-72 | a run that completes its job with everything queued, after which that job has no run and sends nothing |
| Pipeline.CutOffCompletes | src/ingest/backfill_worker.rs:39-92 | a job cut off with progress one can be resumed and completed, sending the rest |
| Pipeline.CutOffAndUnstored | src/ingest/backfill_worker.rs:81-82 | whatever the later runs of that job do and the writer makes of them, its first entry is never stored unless the log carries it again |
| Pipeline.RerunRepairs | src/ingest/backfill_worker.rs:39-92 | a re-run of a completed target sends every index from the start again, and what the writer works off of it is settled |
| Pipeline.TakenIsStored | src/writer.rs:54-64 | one committed flush that accepts a job stores it for good, whatever other flushes fail |
| Pipeline.StoredExact | src/writer.rs:84-136 | over any run, failed inserts included, a key is in the table if and only if it was there or some committed flush accepted a precert of it |
| Pipeline.LossLasts | src/ingest/worker.rs:73-96 | after a restart with an empty queue a key can get into the table only from the log at or beyond the cursor or from another sender |
| Pipeline.CursorAheadOfTable | src/ingest/worker.rs:81-96 | a run that passes an entry, after which no run of the restarted tail ever stores its precert unless the log carries it again |
| Delivery.PassedIsEnqueued | src/writer.rs:149-169 | a watched precert below the cursor that a complete flush takes together with something new is stored and has an outbox row that alerts just its certificate, enqueued in a legal run of the dispatcher's machine and due |
| Delivery.EnqueuedIsPosted | src/webhook.rs:29-40 | that row is POSTed, with its own event id and body, once its windows have been worked through |
| Delivery.PassedIsPosted | src/webhook.rs:43-60 | the two together: the receiver gets an alert with the hash and the fields of the very precert that was logged at the passed index, matching exactly its watched registered domains |
| Coverage.JointCoverage | src/ingest/worker.rs:56-68 | a tail from scratch and a completed backfill that reached the tail's first position leave no hole |
| Coverage.HoleIsLeft | src/ingest/worker.rs:56-68 | otherwise no index from where the backfill stopped to where the tail began is sent by either |
| Coverage.JointExact | src/ingest/worker.rs:56-68 | on a fresh install the two leave no hole if and only if the backfill reached the tail's first position |
| Coverage.SameHeadExact | src/ingest/backfill_worker.rs:34-92 | if both saw the same tree head, if and only if the smaller of batch size and cap does not divide the distance walked |
| Coverage.EntryInNeither | src/ingest/backfill_worker.rs:34-92 | a fresh install over three entries whose last one is sent by neither |
| Stats.RingBuf.constructor | src/stats/mod.rs:13-18 | an empty ring |
| Stats.RingBuf.Push | src/stats/mod.rs:20-26 | the ring is the last `capacity` of what was pushed |
| Stats.RingBuf.RatePerSec | src/stats/mod.rs:28-38 | the sum of the samples no further back than the window, over its seconds |
| Stats.Ticker.constructor | src/stats/mod.rs:172-177 | no reading yet, counted from zero |
| Stats.Ticker.Tick | src/stats/mod.rs:179-201 | after any ticks the ring holds the last min(ticks, capacity) deltas in time order |
| Stats.WindowTelescopes | src/stats/mod.rs:28-36 | a tick counts if and only if its time plus the window reaches now; the windowed sum is the last reading minus the one before the first kept tick that counts |
| Stats.EarlyWindowIsEmpty | src/stats/mod.rs:29-30 | a window that reaches back before the clock's origin is cut to nothing, so earlier ticks count for nothing |
| San.Insert | src/parse/san.rs:38 | insertion into the ordered set |
| San.NormalizeSans | src/parse/san.rs:28-41 | exactly the non-empty normal forms, strictly ascending, without a capital left |
| San.NormalExact | src/parse/san.rs:31-34 | there is one normal form of a name: the part between leading and trailing Unicode white space, less the dots at its end, each of its capitals A to Z replaced by the letter 32 places on and every other character as it was |
| San.LessExact | src/parse/san.rs:29-40 | the order is lexicographic by code points |
| San.CaseIrrelevant | src/parse/san.rs:31 | inputs that differ in ASCII case only give the same result |
| San.OrderIrrelevant | src/parse/san.rs:28-41 | the result depends only on the set of names |
| San.NormalIsShaped | src/parse/san.rs:31-34 | a normal form has no capital A to Z, no leading white space and no trailing dot |
| San.NormalFixed | src/parse/san.rs:31-34 | a second pass keeps a normal form exactly when it does not end in white space |
| San.IdempotentExact | src/parse/san.rs:28-41 | normalizing twice is normalizing once if and only if no normal form ends in white space |

## Left out

- HTTP, WebSocket, routes, JSON, base64, configuration, tracing and metrics output: input and output only.
- X.509 parsing, SHA-256, HMAC and the Public Suffix List: parameters of the writer, with collision freedom as a hypothesis where a lemma needs it.
- TimescaleDB compression and retention of `certs`; no statement deletes certificates here.
- The broadcast of the event stream, its subscriber gauge and the queue-depth gauge; only the number of messages sent is kept.
- The semaphore, sleeps, rate limits and the error back-off of the worker (src/ingest/worker.rs:26-44): wall-clock pacing.
- `run_many`, the log list, the endpoints, `backfill_jobs::fail` (never called), `failed_count`, and the read-only listings of all tables.
- The webhook counters and the watchlist's loading; the watchlist is a fixed set of domains during a flush.
- Integer widths other than the u64 length of the reader: tree sizes stay below 2^63, counters and cert_count do not wrap, timestamps fit. Rates are reals, not floats, over windows of positive length.
- `since` is in milliseconds and not before the epoch; batch_size is at least 1.
- A failed statement has no effect: a commit whose acknowledgement is lost is not a case of its own. A state in which it happened is reached by a crash right after the statement.
- Log replies longer than asked, and logs that change or drop entries. Replies may be of any shorter length; only the exact end of a walk is for logs that cut them at a fixed cap.
- The dispatcher and the database share one clock, which does not go back; the two readings around one mark are one instant.
- Random event ids are taken to be unused ones.
- Backfill.WalkForward: at most `patience` failed requests in one run; a run against a log that fails for ever has no end in the code, and is a run cut off here.
- Two backfill processes for one target at the same time: runs of a campaign follow one another, and each is one event.
- Writer.Writer.Drain: takes a fixed sequence of received jobs; the wait for a first job and the queue's capacity are not modelled. After a crash nothing is said of the counters, which live in memory.
- Tail.Tick: one tick of one worker, as in Tail.Run; that other workers' steps fall in between is the machine's matter, not the method's.
- Stats.Ticker.Tick: one of the three counters, each of which has its own ring and the same code.
