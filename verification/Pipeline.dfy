/** End to end: from an index that an ingest worker has passed to the row in the certificate table. */
module Pipeline {
  import opened Wrappers
  import opened Entry
  import opened CtLog
  import opened Certs
  import opened Writer
  import BackfillJobs
  import Backfill
  import Tail

  /** The flush is committed, and it takes the job and accepts its precert. */
  ghost predicate Takes(lib: Lib, retentionDays: nat, cut: Cut, job: WriterJob) {
    && cut.stored && job in cut.batch && job.entry.precertDer.Some?
    && AcceptsAs(lib, cut.now - retentionDays * 86_400 * 1_000_000, job, job.entry.precertDer.value)
  }

  function KeyOfJob(lib: Lib, job: WriterJob): Key
    requires job.entry.precertDer.Some? && lib.parse(job.entry.precertDer.value).Some?
  {
    Key(lib.sha256(job.entry.precertDer.value), lib.parse(job.entry.precertDer.value).value.notBefore)
  }

  /** Some job of the batch is a precert of this key and accepted at this cutoff. */
  ghost predicate Accepts(lib: Lib, cutoff: int, batch: seq<WriterJob>, key: Key) {
    exists der :: IsKeyOfDer(lib, der, key) && AcceptedDer(lib, cutoff, batch, der)
  }

  /** Some committed flush of the run accepts a precert of this key. */
  ghost predicate Flushed(lib: Lib, retentionDays: nat, cuts: seq<Cut>, key: Key) {
    exists k :: 0 <= k < |cuts| && cuts[k].stored
                && Accepts(lib, cuts[k].now - retentionDays * 86_400 * 1_000_000, cuts[k].batch, key)
  }

  lemma FlushedNext(lib: Lib, retentionDays: nat, cuts: seq<Cut>, key: Key)
    requires cuts != []
    ensures var before, last := cuts[..|cuts| - 1], cuts[|cuts| - 1];
      Flushed(lib, retentionDays, cuts, key) <==>
        || Flushed(lib, retentionDays, before, key)
        || (last.stored && Accepts(lib, last.now - retentionDays * 86_400 * 1_000_000, last.batch, key))
  {
    hide Accepts;
    var before := cuts[..|cuts| - 1];
    assert forall k :: 0 <= k < |before| ==> before[k] == cuts[k];
  }

  lemma BatchKeys(lib: Lib, cutoff: int, t: Tables, batch: seq<WriterJob>, key: Key)
    ensures key in InsertAll(lib.regdom, t, Rows(lib, cutoff, batch)).certs <==>
            key in t.certs || Accepts(lib, cutoff, batch, key)
  {
    hide Rows, InsertAll;
    var rows := Rows(lib, cutoff, batch);
    InsertAllExact(lib.regdom, t, rows, key);
    if i :| 0 <= i < |rows| && rows[i].certHash == key.certHash && rows[i].notBefore == key.notBefore {
      var der := RowIsOfDer(lib, cutoff, batch, rows[i]);
      assert IsKeyOfDer(lib, der, key);
    }
    if der :| IsKeyOfDer(lib, der, key) && AcceptedDer(lib, cutoff, batch, der) {
      var row := DerHasRow(lib, cutoff, batch, der);
      var i :| 0 <= i < |rows| && rows[i] == row;
    }
  }

  /** Over any run, failed inserts included: a key gets into the table by a committed flush that accepts a precert of
      that key, and in no other way. What the ingest workers have handed over counts for nothing until then. */
  lemma {:induction false} StoredExact(lib: Lib, retentionDays: nat, core: Core, cuts: seq<Cut>, key: Key)
    ensures key in FlushAll(lib, retentionDays, core, cuts).tables.certs <==>
            key in core.tables.certs || Flushed(lib, retentionDays, cuts, key)
  {
    if cuts != [] {
      var last := cuts[|cuts| - 1];
      var before := FlushAll(lib, retentionDays, core, cuts[..|cuts| - 1]);
      StoredExact(lib, retentionDays, core, cuts[..|cuts| - 1], key);
      FlushedNext(lib, retentionDays, cuts, key);
      BatchKeys(lib, CutoffOf(retentionDays, last.now), before.tables, last.batch, key);
    }
  }

  /** One flush is enough, whatever becomes of the others. */
  lemma TakenIsStored(lib: Lib, retentionDays: nat, core: Core, cuts: seq<Cut>, k: nat, job: WriterJob)
    requires k < |cuts| && Takes(lib, retentionDays, cuts[k], job)
    ensures KeyOfJob(lib, job) in FlushAll(lib, retentionDays, core, cuts).tables.certs
  {
    var cutoff, der := cuts[k].now - retentionDays * 86_400 * 1_000_000, job.entry.precertDer.value;
    assert AcceptedDer(lib, cutoff, cuts[k].batch, der) && IsKeyOfDer(lib, der, KeyOfJob(lib, job));
    StoredExact(lib, retentionDays, core, cuts, KeyOfJob(lib, job));
  }

  /** The writer has taken every one of these jobs into some batch, among those of other workers. */
  ghost predicate WorkedOff(sent: seq<WriterJob>, cuts: seq<Cut>) {
    forall job :: job in sent ==> job in Joined(cuts)
  }

  lemma {:induction false} InSomeBatch(cuts: seq<Cut>, job: WriterJob) returns (k: nat)
    requires job in Joined(cuts)
    ensures k < |cuts| && job in cuts[k].batch
  {
    k := |cuts| - 1;
    if job !in cuts[k].batch {
      k := InSomeBatch(cuts[..k], job);
    }
  }

  /** What becomes of a job that the writer has taken: it is in the table unless every flush that took it failed to
      commit, or dropped it as a final, unparsable or stale certificate. */
  ghost predicate Settled(lib: Lib, retentionDays: nat, core: Core, cuts: seq<Cut>, job: WriterJob) {
    && (exists k :: 0 <= k < |cuts| && job in cuts[k].batch)
    && forall k :: 0 <= k < |cuts| && Takes(lib, retentionDays, cuts[k], job) ==>
         KeyOfJob(lib, job) in FlushAll(lib, retentionDays, core, cuts).tables.certs
  }

  lemma SentIsSettled(lib: Lib, retentionDays: nat, core: Core, cuts: seq<Cut>, sent: seq<WriterJob>, job: WriterJob)
    requires WorkedOff(sent, cuts) && job in sent
    ensures Settled(lib, retentionDays, core, cuts, job)
  {
    var k := InSomeBatch(cuts, job);
    forall k | 0 <= k < |cuts| && Takes(lib, retentionDays, cuts[k], job)
      ensures KeyOfJob(lib, job) in FlushAll(lib, retentionDays, core, cuts).tables.certs
    {
      TakenIsStored(lib, retentionDays, core, cuts, k, job);
    }
  }

  /** Live tailing end to end. Take any interleaving of any workers from a position c0 > 0, and a writer that has
      worked off what they sent, with any flushes failing: every index below the cursor was taken by some flush, and
      one committed flush that accepts its precert puts it into the table for good. */
  lemma TailedIsStored(s: Tail.State, batchSize: nat, run: seq<Tail.Event>, c0: nat, i: nat,
                       lib: Lib, retentionDays: nat, core: Core, cuts: seq<Cut>)
    requires Tail.Start(s, c0) && c0 > 0 && Tail.Legal(s, batchSize, run)
    requires WorkedOff(Tail.Play(s, batchSize, run).sent, cuts)
    requires c0 <= i < Tail.Play(s, batchSize, run).cursor
    ensures var s' := Tail.Play(s, batchSize, run);
      && i < |s'.log| && s'.log[i].Some?
      && Settled(lib, retentionDays, core, cuts, WriterJob(s'.info, s'.log[i].value))
  {
    Tail.TailSafe(s, batchSize, run, c0);
    var s' := Tail.Play(s, batchSize, run);
    assert Tail.DecodedAndSent(s', i);
    SentIsSettled(lib, retentionDays, core, cuts, s'.sent, WriterJob(s'.info, s'.log[i].value));
  }

  /** Backfill end to end. The same after any campaign of interrupted runs, for every index that some job of the
      target claims, other than those the log answered with an empty reply. */
  lemma BackfilledIsStored(w: Backfill.World, t: Backfill.Target, events: seq<Backfill.Event>, id: nat, i: nat,
                           lib: Lib, retentionDays: nat, core: Core, cuts: seq<Cut>)
    requires Backfill.Inv(w, t) && Backfill.LegalCampaign(w, t, events)
    requires WorkedOff(Backfill.Play(w, t, events).sent, cuts)
    requires var w' := Backfill.Play(w, t, events);
      && id in w'.jobs && BackfillJobs.Mine(w'.jobs[id], t.info.logId, t.since)
      && w'.jobs[id].startIndex <= i < w'.jobs[id].progress && i !in w'.skipped && i !in w'.unheard
    ensures var w' := Backfill.Play(w, t, events);
      && i < |w'.log|
      && (w'.log[i].Some? ==> Settled(lib, retentionDays, core, cuts, WriterJob(t.info, w'.log[i].value)))
  {
    Backfill.CampaignCovers(w, t, events);
    Backfill.CampaignExtends(w, t, events);
    var w' := Backfill.Play(w, t, events);
    assert Backfill.JobCovered(w', t, w'.jobs[id]);
    assert Delivered(t.info, w'.log, i, w'.sent);
    if w'.log[i].Some? {
      SentIsSettled(lib, retentionDays, core, cuts, w'.sent, WriterJob(t.info, w'.log[i].value));
    }
  }

  // ---------------------------------------------------------------------------------------------
  // What a crash loses
  // ---------------------------------------------------------------------------------------------

  /** Some entry from index `lo` on is a precert of this key. */
  ghost predicate LoggedFrom(lib: Lib, log: Timeline, lo: nat, key: Key) {
    exists i, der :: lo <= i < |log| && log[i].Some? && log[i].value.kind.Precert?
                     && log[i].value.precertDer == Some(der) && IsKeyOfDer(lib, der, key)
  }

  /** These jobs hold a precert of this key. */
  ghost predicate Among(lib: Lib, jobs: seq<WriterJob>, key: Key) {
    exists job, der :: job in jobs && job.entry.kind.Precert? && job.entry.precertDer == Some(der)
                       && IsKeyOfDer(lib, der, key)
  }

  /** A key of the table was there before, or a committed flush took it from one of two sources: jobs that lie at
      `lo` or beyond in this log, or those that others sent. */
  lemma StoredComesFrom(lib: Lib, retentionDays: nat, core: Core, cuts: seq<Cut>, key: Key,
                        info: LogInfo, log: Timeline, lo: nat, sent: seq<WriterJob>, others: seq<WriterJob>)
    requires forall job :: job in sent ==> JobFrom(info, log, lo, job)
    requires forall job :: job in Joined(cuts) ==> job in sent || job in others
    requires key in FlushAll(lib, retentionDays, core, cuts).tables.certs
    ensures key in core.tables.certs || LoggedFrom(lib, log, lo, key) || Among(lib, others, key)
  {
    StoredExact(lib, retentionDays, core, cuts, key);
    if key !in core.tables.certs {
      var k :| 0 <= k < |cuts| && cuts[k].stored
               && Accepts(lib, cuts[k].now - retentionDays * 86_400 * 1_000_000, cuts[k].batch, key);
      var cutoff := cuts[k].now - retentionDays * 86_400 * 1_000_000;
      var der :| IsKeyOfDer(lib, der, key) && AcceptedDer(lib, cutoff, cuts[k].batch, der);
      var job :| job in cuts[k].batch && AcceptsAs(lib, cutoff, job, der);
      InJoined(cuts, k, job);
      if job !in others {
        assert JobFrom(info, log, lo, job);
      }
    }
  }

  /** The loss lasts. Restart the tail at a position c0 > 0 with nothing left in the channel: whatever interleaving
      follows and whatever the writer does, a key of the table was there before, or comes from the log at c0 or
      beyond, or from a job that others sent. A precert the cursor had passed unstored is not fetched again. */
  lemma LossLasts(s: Tail.State, batchSize: nat, run: seq<Tail.Event>, c0: nat, others: seq<WriterJob>,
                  lib: Lib, retentionDays: nat, core: Core, cuts: seq<Cut>, key: Key)
    requires Tail.Start(s, c0) && c0 > 0 && s.sent == [] && Tail.Legal(s, batchSize, run)
    requires forall job :: job in Joined(cuts) ==> job in Tail.Play(s, batchSize, run).sent || job in others
    requires key in FlushAll(lib, retentionDays, core, cuts).tables.certs
    ensures || key in core.tables.certs
            || LoggedFrom(lib, Tail.Play(s, batchSize, run).log, c0, key)
            || Among(lib, others, key)
  {
    var s' := Tail.Play(s, batchSize, run);
    Tail.SentFromStart(s, batchSize, run, c0);
    forall job | job in s'.sent
      ensures JobFrom(s'.info, s'.log, c0, job)
    {
      var n :| 0 <= n < |s'.sent| && s'.sent[n] == job;
    }
    StoredComesFrom(lib, retentionDays, core, cuts, key, s'.info, s'.log, c0, s'.sent, others);
  }

  /** A loss of the backfill lasts as long as no new job is opened. Resume a job after a crash, or after the command
      has returned with jobs still queued, with nothing left in the channel: whatever its runs do, also when the job
      is completed, a key of the table was there before, or comes from the log at the stored progress or beyond, or
      from others. */
  lemma BackfillLossLasts(w: Backfill.World, t: Backfill.Target, events: seq<Backfill.Event>, id: nat,
                          others: seq<WriterJob>, lib: Lib, retentionDays: nat, core: Core, cuts: seq<Cut>, key: Key)
    requires Backfill.LegalCampaign(w, t, events) && Backfill.OnlyJob(events, id) && id in w.jobs && w.sent == []
    requires forall job :: job in Joined(cuts) ==> job in Backfill.Play(w, t, events).sent || job in others
    requires key in FlushAll(lib, retentionDays, core, cuts).tables.certs
    ensures || key in core.tables.certs
            || LoggedFrom(lib, Backfill.Play(w, t, events).log, w.jobs[id].progress, key)
            || Among(lib, others, key)
  {
    var lo := w.jobs[id].progress;
    Backfill.ResumedSendsFrom(w, t, events, id, lo);
    var w' := Backfill.Play(w, t, events);
    StoredComesFrom(lib, retentionDays, core, cuts, key, t.info, w'.log, lo, w'.sent, others);
  }

  /** The backfill after its process has gone: the table of jobs is what it was, the queue is not. */
  function Exited(w: Backfill.World): Backfill.World {
    w.(sent := [])
  }

  /** What a completed run over two entries leaves behind when its process goes. */
  function TwoCompleted(info: LogInfo, a: DecodedEntry, b: DecodedEntry): Backfill.World {
    var job := BackfillJobs.Job(info.logId, 0, 0, 1, 2, BackfillJobs.Completed);
    Backfill.World([Some(a), Some(b)], map[0 := job], 1, [], {}, {}, 2)
  }

  lemma ExitedIsTwoCompleted(info: LogInfo, a: DecodedEntry, b: DecodedEntry)
    returns (w: Backfill.World, e: Backfill.Event)
    requires a.timestampMs <= b.timestampMs
    ensures var t := Backfill.Target(info, 0);
      && Backfill.Fresh(w) && Backfill.Legal(w, t, e) && e.Walk? && e.done
      && Backfill.Apply(w, t, e).sent == [WriterJob(info, a), WriterJob(info, b)]
      && Exited(Backfill.Apply(w, t, e)) == TwoCompleted(info, a, b)
  {
    w, e := Backfill.OneCompletedRun(info, a, b);
    assert Backfill.Apply(w, Backfill.Target(info, 0), e).jobs == TwoCompleted(info, a, b).jobs;
  }

  /** A run that completes its job with everything still queued. When the process goes, the job is completed and its
      entries are nowhere; and as a completed job has no later runs, none is ever sent again until a new job is
      opened. */
  lemma CompletedButUnstored(info: LogInfo, a: DecodedEntry, b: DecodedEntry, more: seq<Backfill.Event>)
    returns (w: Backfill.World, e: Backfill.Event)
    requires a.timestampMs <= b.timestampMs
    requires Backfill.LegalCampaign(TwoCompleted(info, a, b), Backfill.Target(info, 0), more)
    requires Backfill.OnlyJob(more, 0)
    ensures var t := Backfill.Target(info, 0);
      && Backfill.Fresh(w) && Backfill.Legal(w, t, e) && e.Walk? && e.done
      && Backfill.Apply(w, t, e).sent == [WriterJob(info, a), WriterJob(info, b)]
      && Exited(Backfill.Apply(w, t, e)) == TwoCompleted(info, a, b)
    ensures (forall k :: 0 <= k < |more| ==> !more[k].Walk?)
    ensures Backfill.Play(TwoCompleted(info, a, b), Backfill.Target(info, 0), more).sent == []
  {
    w, e := ExitedIsTwoCompleted(info, a, b);
    Backfill.CompletedHasNoRuns(TwoCompleted(info, a, b), Backfill.Target(info, 0), more, 0);
  }

  /** What a run over three entries leaves behind that was cut off after its first reply, of one entry. */
  function CutOff(info: LogInfo, a: DecodedEntry, b: DecodedEntry, c: DecodedEntry): Backfill.World {
    var job := BackfillJobs.Job(info.logId, 0, 0, 2, 1, BackfillJobs.Running);
    Backfill.World([Some(a), Some(b), Some(c)], map[0 := job], 1, [], {}, {}, 3)
  }

  /** The run that then completes the job. */
  function Completing(): Backfill.Event {
    Backfill.Walk(0, 3, 0, 1, 3, 3, 3, {}, true)
  }

  lemma RunIsCutOff(info: LogInfo, a: DecodedEntry, b: DecodedEntry, c: DecodedEntry)
    returns (w: Backfill.World, e: Backfill.Event)
    requires a.timestampMs <= b.timestampMs <= c.timestampMs
    ensures var t := Backfill.Target(info, 0);
      && Backfill.Fresh(w) && Backfill.Legal(w, t, e) && e.Walk? && !e.done
      && Backfill.Apply(w, t, e).sent == [WriterJob(info, a)]
      && Exited(Backfill.Apply(w, t, e)) == CutOff(info, a, b, c)
  {
    w := Backfill.World([Some(a), Some(b), Some(c)], map[], 0, [], {}, {}, 0);
    e := Backfill.Walk(0, 3, 0, 0, 1, 1, 1, {}, false);
    assert Backfill.Payload(info, w.log, 0, 1, {}) == [WriterJob(info, a)];
    assert Backfill.Apply(w, Backfill.Target(info, 0), e).jobs == CutOff(info, a, b, c).jobs;
  }

  lemma CutOffCompletes(info: LogInfo, a: DecodedEntry, b: DecodedEntry, c: DecodedEntry)
    requires a.timestampMs <= b.timestampMs <= c.timestampMs
    ensures var r, t := CutOff(info, a, b, c), Backfill.Target(info, 0);
      && Backfill.LegalCampaign(r, t, [Completing()]) && Backfill.OnlyJob([Completing()], 0)
      && var r' := Backfill.Play(r, t, [Completing()]);
         r'.jobs[0].status == BackfillJobs.Completed && r'.sent == [WriterJob(info, b), WriterJob(info, c)]
  {
    var r, t := CutOff(info, a, b, c), Backfill.Target(info, 0);
    assert Backfill.Payload(info, r.log, 1, 2, {}) == [WriterJob(info, b)];
    assert Backfill.Payload(info, r.log, 1, 3, {}) == [WriterJob(info, b), WriterJob(info, c)];
    assert Backfill.Legal(r, t, Completing()) && [Completing()][1..] == [];
  }

  /** Progress does not wait for the table. A job is cut off with progress one and its first entry still queued. It can
      be resumed and completed, sending the rest; but whatever its later runs do, these or any others, and whatever
      the writer makes of them, its first entry is never stored, unless the log carries it again. */
  lemma CutOffAndUnstored(info: LogInfo, a: DecodedEntry, b: DecodedEntry, c: DecodedEntry, more: seq<Backfill.Event>,
                          lib: Lib, retentionDays: nat, core: Core, cuts: seq<Cut>, key: Key)
    returns (w: Backfill.World, e: Backfill.Event)
    requires a.timestampMs <= b.timestampMs <= c.timestampMs && key !in core.tables.certs
    requires var r, t := CutOff(info, a, b, c), Backfill.Target(info, 0);
      && Backfill.LegalCampaign(r, t, more) && Backfill.OnlyJob(more, 0)
      && !LoggedFrom(lib, Backfill.Play(r, t, more).log, 1, key)
      && forall job :: job in Joined(cuts) ==> job in Backfill.Play(r, t, more).sent
    ensures var t := Backfill.Target(info, 0);
      && Backfill.Fresh(w) && Backfill.Legal(w, t, e) && e.Walk? && !e.done
      && Backfill.Apply(w, t, e).sent == [WriterJob(info, a)]
      && Exited(Backfill.Apply(w, t, e)) == CutOff(info, a, b, c)
    ensures Backfill.LegalCampaign(CutOff(info, a, b, c), Backfill.Target(info, 0), [Completing()])
    ensures Backfill.OnlyJob([Completing()], 0)
    ensures key !in FlushAll(lib, retentionDays, core, cuts).tables.certs
  {
    w, e := RunIsCutOff(info, a, b, c);
    CutOffCompletes(info, a, b, c);
    if key in FlushAll(lib, retentionDays, core, cuts).tables.certs {
      BackfillLossLasts(CutOff(info, a, b, c), Backfill.Target(info, 0), more, 0, [],
                        lib, retentionDays, core, cuts, key);
    }
  }

  /** A re-run of the completed target repairs it: it sends every index from the start on again, and what the writer
      works off of that is settled. */
  lemma RerunRepairs(w: Backfill.World, t: Backfill.Target, e: Backfill.Event, more: Timeline, n: nat, i: nat,
                     lib: Lib, retentionDays: nat, core: Core, cuts: seq<Cut>)
    requires Backfill.Inv(w, t) && Backfill.Legal(w, t, e) && e.Walk? && e.done
    requires Backfill.Chronological(w.log + more) && e.start <= i < n <= |w.log + more| && e.start + 1 < n
    requires WorkedOff(Backfill.Payload(t.info, w.log + more, e.start, n, {}), cuts)
    ensures var w' := Backfill.Later(w, t, e, more); var e' := Backfill.Rerun(w', n, e.start);
      && w'.log == w.log + more && Backfill.Legal(w', t, e')
      && Backfill.Apply(w', t, e').sent == w'.sent + Backfill.Payload(t.info, w'.log, e.start, n, {})
      && (w'.log[i].Some? ==> Settled(lib, retentionDays, core, cuts, WriterJob(t.info, w'.log[i].value)))
  {
    Backfill.RerunSendsAgain(w, t, e, more, n);
    var log := w.log + more;
    Backfill.PayloadCovers(t.info, log, e.start, n, {}, i);
    if log[i].Some? {
      SentIsSettled(lib, retentionDays, core, cuts, Backfill.Payload(t.info, log, e.start, n, {}),
                    WriterJob(t.info, log[i].value));
    }
  }

  /** One worker sends one entry and moves past it, and the process dies before the writer has flushed it. */
  lemma PassOneEntry(info: LogInfo, older: DecodedEntry, newer: DecodedEntry, batchSize: nat)
    returns (s: Tail.State, run: seq<Tail.Event>)
    requires batchSize > 0
    ensures Tail.Start(s, 1) && Tail.Legal(s, batchSize, run)
    ensures var s' := Tail.Play(s, batchSize, run);
      && s'.info == info && s'.log == [Some(older), Some(newer)]
      && s'.cursor == 2 && s'.sent == [WriterJob(info, newer)]
  {
    s := Tail.State(info, [Some(older), Some(newer)], 1, [], map[1 := Tail.Idle], 0, {}, 1);
    run := [];
    var now := s;
    run, now := Tail.Poll(s, batchSize, run, now, 1);
    run, now := Tail.SeeHead(s, batchSize, run, now, 1, 2);
    run, now := Tail.Fetch(s, batchSize, run, now, 1, 1);
    run, now := Tail.SendOne(s, batchSize, run, now, 1);
    run, now := Tail.Finish(s, batchSize, run, now, 1);
  }

  /** The tail after a crash: the log and the cursor are what they were, everything in memory is gone. */
  function Restarted(s: Tail.State): Tail.State {
    s.(sent := [], workers := map[], head := 0, skipped := {}, first := s.cursor)
  }

  /** The cursor does not wait for the table. There is a run that passes an entry, and after a crash before its flush
      no run of the restarted tail, and no writer fed by it, ever stores its precert, unless the log carries it
      again. */
  lemma CursorAheadOfTable(info: LogInfo, older: DecodedEntry, newer: DecodedEntry, batchSize: nat,
                           more: seq<Tail.Event>,
                           lib: Lib, retentionDays: nat, core: Core, cuts: seq<Cut>, key: Key)
    returns (s: Tail.State, run: seq<Tail.Event>)
    requires batchSize > 0 && key !in core.tables.certs
    requires var r := Tail.State(info, [Some(older), Some(newer)], 2, [], map[], 0, {}, 2);
      && Tail.Legal(r, batchSize, more)
      && !LoggedFrom(lib, Tail.Play(r, batchSize, more).log, 2, key)
      && forall job :: job in Joined(cuts) ==> job in Tail.Play(r, batchSize, more).sent
    ensures Tail.Start(s, 1) && Tail.Legal(s, batchSize, run)
    ensures var s' := Tail.Play(s, batchSize, run);
      && s'.cursor == 2 && s'.sent == [WriterJob(info, newer)]
      && Restarted(s') == Tail.State(info, [Some(older), Some(newer)], 2, [], map[], 0, {}, 2)
    ensures key !in FlushAll(lib, retentionDays, core, cuts).tables.certs
  {
    s, run := PassOneEntry(info, older, newer, batchSize);
    var r := Restarted(Tail.Play(s, batchSize, run));
    if key in FlushAll(lib, retentionDays, core, cuts).tables.certs {
      LossLasts(r, batchSize, more, 2, [], lib, retentionDays, core, cuts, key);
    }
  }
}
