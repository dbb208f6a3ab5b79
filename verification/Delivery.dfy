/** The alert end to end: from an index that a tail worker has passed to the POST of its webhook. */
module Delivery {
  import opened Wrappers
  import opened Entry
  import opened CtLog
  import opened CertData
  import opened Certs
  import opened Writer
  import opened Pipeline
  import Outbox
  import Tail
  import Webhook

  /** The flush takes the job, whose certificate is watched, brings some new certificate, and enqueues all of its
      alerts. */
  ghost predicate Announces(lib: Lib, retentionDays: nat, t: Tables, cut: Cut, job: WriterJob) {
    && Takes(lib, retentionDays, cut, job)
    && IsWatched(lib, RowOfJob(lib, job))
    && !AllKnown(t, RowsOf(lib, retentionDays, cut))
    && AlertsComplete(lib, retentionDays, t, cut)
  }

  function RowOfJob(lib: Lib, job: WriterJob): (row: CertRow)
    requires job.entry.precertDer.Some? && lib.parse(job.entry.precertDer.value).Some?
    ensures IsRowOf(lib, job.entry.precertDer.value, row)
  {
    RowOf(lib, job.entry.precertDer.value, lib.parse(job.entry.precertDer.value).value)
  }

  lemma {:induction false} TakenHasRow(lib: Lib, cutoff: int, jobs: seq<WriterJob>, job: WriterJob)
    requires job in jobs && Judge(lib, cutoff, job).Accepted?
    ensures Judge(lib, cutoff, job).row in Rows(lib, cutoff, jobs)
  {
    if job != jobs[|jobs| - 1] {
      TakenHasRow(lib, cutoff, jobs[..|jobs| - 1], job);
    }
  }

  lemma AnnouncedIsAlerted(lib: Lib, retentionDays: nat, t: Tables, cut: Cut, job: WriterJob)
    requires Announces(lib, retentionDays, t, cut, job)
    ensures AlertedBy(lib, retentionDays, t, cut, RowOfJob(lib, job))
  {
    var rows, row := RowsOf(lib, retentionDays, cut), RowOfJob(lib, job);
    hide Rows, Alerts;
    TakenHasRow(lib, CutoffOf(retentionDays, cut.now), cut.batch, job);
    GrowthExact(lib.regdom, t, rows);
    var i :| 0 <= i < |rows| && rows[i] == row;
    AlertAt(lib, cut.now, rows, i);
  }

  /** One of the rows appended to the outbox alerts this certificate. */
  lemma AlertHasRow(before: seq<Outbox.Row>, rows: seq<Outbox.Row>, raised: seq<Alert>, row: CertRow) returns (id: nat)
    requires before <= rows && Bodies(rows) == Bodies(before) + raised && Alerted(raised, row)
    ensures |before| <= id < |rows| && rows[id].body.alert in raised && rows[id].body.alert.cert == row
  {
    var j :| 0 <= j < |raised| && raised[j].cert == row;
    id := |before| + j;
    assert Bodies(rows)[id] == raised[j];
  }

  /** From the log to the outbox. A worker has passed index i; some flush of the writer announces its job. Then the
      certificate is stored, and the outbox, which `rows` are after the run, has a row that alerts it. Seen from the
      dispatcher this row is one of a legal run of enqueues, and waits for its first POST. */
  lemma PassedIsEnqueued(ts: Tail.State, batchSize: nat, run: seq<Tail.Event>, c0: nat, i: nat,
                         lib: Lib, retentionDays: nat, core: Core, cuts: seq<Cut>, k: nat,
                         s: Webhook.State, maxAttempts: nat, rows: seq<Outbox.Row>, to: int)
    returns (id: nat, start: Webhook.State, enqueues: seq<Webhook.Event>)
    requires Tail.Start(ts, c0) && c0 > 0 && Tail.Legal(ts, batchSize, run)
    requires c0 <= i < Tail.Play(ts, batchSize, run).cursor && k < |cuts|
    requires var s' := Tail.Play(ts, batchSize, run);
             i < |s'.log| && s'.log[i].Some? &&
             Announces(lib, retentionDays, FlushAll(lib, retentionDays, core, cuts[..k]).tables, cuts[k],
                       WriterJob(s'.info, s'.log[i].value))
    requires Webhook.Inv(s, maxAttempts) && Outbox.Appended(s.rows, rows, s.now, to) && Outbox.UniqueEvents(rows)
    requires Bodies(rows) == Bodies(s.rows) + RaisedAll(lib, retentionDays, core, cuts)
    ensures var s' := Tail.Play(ts, batchSize, run); var job := WriterJob(s'.info, s'.log[i].value);
      && job in s'.sent && KeyOfJob(lib, job) in FlushAll(lib, retentionDays, core, cuts).tables.certs
      && |s.rows| <= id < |rows| && rows[id].body.alert.cert == RowOfJob(lib, job)
      && (forall d :: d in rows[id].body.alert.matches <==> d in RowOfJob(lib, job).registeredDomains && lib.watched(d))
    ensures start == s.(watched := id, h := Webhook.UNSEEN) && Webhook.Inv(start, maxAttempts)
    ensures Webhook.Legal(start, maxAttempts, enqueues)
    ensures Webhook.Play(start, maxAttempts, enqueues) == start.(rows := rows, now := to)
    ensures Outbox.IsDue(rows[id], to) && id !in Outbox.Ids(s.queue)
  {
    var s' := Tail.Play(ts, batchSize, run);
    var job := WriterJob(s'.info, s'.log[i].value);
    var row := RowOfJob(lib, job);
    Tail.TailSafe(ts, batchSize, run, c0);
    assert Tail.DecodedAndSent(s', i);
    TakenIsStored(lib, retentionDays, core, cuts, k, job);
    RaisedInRun(lib, retentionDays, core, cuts, k, job);
    id := AlertHasRow(s.rows, rows, RaisedAll(lib, retentionDays, core, cuts), row);
    var k', der' := AlertTells(lib, retentionDays, core, cuts, rows[id].body.alert);
    start := s.(watched := id, h := Webhook.UNSEEN);
    Webhook.WatchNext(s, maxAttempts, id);
    enqueues := Webhook.AppendIsRun(start, maxAttempts, rows, to);
    QueueBelow(s, maxAttempts);
  }

  lemma RaisedInRun(lib: Lib, retentionDays: nat, core: Core, cuts: seq<Cut>, k: nat, job: WriterJob)
    requires k < |cuts|
    requires Announces(lib, retentionDays, FlushAll(lib, retentionDays, core, cuts[..k]).tables, cuts[k], job)
    ensures Alerted(RaisedAll(lib, retentionDays, core, cuts), RowOfJob(lib, job))
  {
    AnnouncedIsAlerted(lib, retentionDays, FlushAll(lib, retentionDays, core, cuts[..k]).tables, cuts[k], job);
    assert AlertedIn(lib, retentionDays, core, cuts, RowOfJob(lib, job));
    AlertedExact(lib, retentionDays, core, cuts, RowOfJob(lib, job));
  }

  lemma QueueBelow(s: Webhook.State, maxAttempts: nat)
    requires Webhook.Inv(s, maxAttempts)
    ensures forall id :: id in Outbox.Ids(s.queue) ==> id < |s.rows|
  {
  }

  /** From the outbox to the receiver. However the dispatcher goes on from there, with whatever is enqueued, retried
      and redelivered meanwhile: once the clock has moved on and enough windows have been worked through, none of them
      wasted, the row has been POSTed, with its own event id and body. */
  lemma EnqueuedIsPosted(start: Webhook.State, maxAttempts: nat, enqueues: seq<Webhook.Event>,
                         rows: seq<Outbox.Row>, to: int, more: seq<Webhook.Event>)
    requires Webhook.Inv(start, maxAttempts) && start.h == Webhook.UNSEEN
    requires start.watched !in Outbox.Ids(start.queue)
    requires Webhook.Legal(start, maxAttempts, enqueues)
    requires Webhook.Play(start, maxAttempts, enqueues) == start.(rows := rows, now := to)
    requires start.watched < |rows| && Outbox.IsDue(rows[start.watched], to)
    requires var later := start.(rows := rows, now := to + 1);
      && Webhook.Legal(later, maxAttempts, more)
      && Webhook.WorkedThrough(later, Webhook.Play(later, maxAttempts, more))
      && Webhook.Play(later, maxAttempts, more).h.redelivered == 0
    ensures var s' := Webhook.Play(start.(rows := rows, now := to + 1), maxAttempts, more);
      && s'.h.posts > 0
      && exists j :: |start.wire| <= j < |s'.wire| && s'.wire[j].row.id == start.watched
                     && s'.wire[j].row.eventId == rows[start.watched].eventId
                     && s'.wire[j].row.body == rows[start.watched].body
  {
    hide Webhook.Inv, Webhook.Next, Webhook.Enabled, Webhook.Legal, Webhook.Play, Webhook.Outside;
    var later := start.(rows := rows, now := to + 1);
    Webhook.RunKeepsInv(start, maxAttempts, enqueues);
    Webhook.AfterPass(start.(rows := rows, now := to), maxAttempts, 1);
    Webhook.StepKeepsInv(start.(rows := rows, now := to), maxAttempts, Webhook.Pass(1));
    NotInFlight(later);
    if Webhook.Redeliver(later.watched) in more {
      Webhook.RedeliveriesCounted(later, maxAttempts, more);
    }
    Webhook.PostedWithinWindows(later, maxAttempts, more);
  }

  lemma NotInFlight(s: Webhook.State)
    requires s.watched !in Outbox.Ids(s.queue)
    ensures Webhook.InFlight(s) == 0
  {
    assert s.queue != [] ==> Outbox.Ids(s.queue)[0] == s.queue[0].id;
  }

  /** Among the POSTs of a run from there, once its windows have been worked through, is one of the alert. */
  ghost predicate Receives(later: Webhook.State, maxAttempts: nat, more: seq<Webhook.Event>, id: nat, alert: Alert)
    requires Webhook.Legal(later, maxAttempts, more)
  {
    var s' := Webhook.Play(later, maxAttempts, more);
    exists j :: |later.wire| <= j < |s'.wire| && s'.wire[j].row.id == id && s'.wire[j].row.body.alert == alert
  }

  /** The alert from end to end. A worker has passed index i, whose entry is a precert that some flush of the writer
      announces. Then what the receiver of the webhooks gets, once the dispatcher has worked off the windows due, is an
      alert of just this certificate, which matches those of its registered domains that are on the watchlist. */
  lemma PassedIsPosted(ts: Tail.State, batchSize: nat, run: seq<Tail.Event>, c0: nat, i: nat,
                       lib: Lib, retentionDays: nat, core: Core, cuts: seq<Cut>, k: nat,
                       s: Webhook.State, maxAttempts: nat, rows: seq<Outbox.Row>, to: int)
    returns (id: nat, start: Webhook.State)
    requires Tail.Start(ts, c0) && c0 > 0 && Tail.Legal(ts, batchSize, run)
    requires c0 <= i < Tail.Play(ts, batchSize, run).cursor && k < |cuts|
    requires var s' := Tail.Play(ts, batchSize, run);
             i < |s'.log| && s'.log[i].Some? &&
             Announces(lib, retentionDays, FlushAll(lib, retentionDays, core, cuts[..k]).tables, cuts[k],
                       WriterJob(s'.info, s'.log[i].value))
    requires Webhook.Inv(s, maxAttempts) && Outbox.Appended(s.rows, rows, s.now, to) && Outbox.UniqueEvents(rows)
    requires Bodies(rows) == Bodies(s.rows) + RaisedAll(lib, retentionDays, core, cuts)
    ensures id < |rows| && start == s.(watched := id, h := Webhook.UNSEEN, rows := rows, now := to + 1)
    ensures var entry, alert := Tail.Play(ts, batchSize, run).log[i].value, rows[id].body.alert;
      && entry.kind.Precert? && entry.precertDer.Some? && IsRowOf(lib, entry.precertDer.value, alert.cert)
      && (forall d :: d in alert.matches <==> d in alert.cert.registeredDomains && lib.watched(d))
      && forall more :: Webhook.Legal(start, maxAttempts, more)
                        && Webhook.WorkedThrough(start, Webhook.Play(start, maxAttempts, more))
                        && Webhook.Play(start, maxAttempts, more).h.redelivered == 0
           ==> Receives(start, maxAttempts, more, id, alert)
  {
    hide Webhook.Inv, Webhook.Legal, Webhook.Play, Webhook.WorkedThrough, Tail.Legal, Tail.Play, Tail.Start, FlushAll;
    hide Announces, Bodies, RaisedAll, Outbox.Appended, Outbox.UniqueEvents;
    var from, enqueues;
    id, from, enqueues := PassedIsEnqueued(ts, batchSize, run, c0, i, lib, retentionDays, core, cuts, k,
                                           s, maxAttempts, rows, to);
    start := s.(watched := id, h := Webhook.UNSEEN, rows := rows, now := to + 1);
    AnnouncedIsPrecert(lib, retentionDays, FlushAll(lib, retentionDays, core, cuts[..k]).tables, cuts[k],
                       WriterJob(Tail.Play(ts, batchSize, run).info, Tail.Play(ts, batchSize, run).log[i].value));
    forall more | Webhook.Legal(start, maxAttempts, more)
                  && Webhook.WorkedThrough(start, Webhook.Play(start, maxAttempts, more))
                  && Webhook.Play(start, maxAttempts, more).h.redelivered == 0
      ensures Receives(start, maxAttempts, more, id, rows[id].body.alert)
    {
      EnqueuedIsPosted(from, maxAttempts, enqueues, rows, to, more);
    }
  }

  lemma AnnouncedIsPrecert(lib: Lib, retentionDays: nat, t: Tables, cut: Cut, job: WriterJob)
    requires Announces(lib, retentionDays, t, cut, job)
    ensures job.entry.kind.Precert? && job.entry.precertDer.Some? && lib.parse(job.entry.precertDer.value).Some?
  {
  }
}
