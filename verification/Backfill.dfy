/** `ctwatch backfill`: find the first entry at or after `since`, then walk forward to the tree head,
    persisting progress after every reply. A run can be cut off anywhere and resumed by a later one. */
module Backfill {
  import opened Wrappers
  import opened Entry
  import opened CtLog
  import opened BackfillJobs
  import opened Sets

  // ---------------------------------------------------------------------------------------------
  // Start-index search
  // ---------------------------------------------------------------------------------------------

  predicate AtLeast(log: Timeline, i: nat, target: nat)
    requires i < |log|
  {
    log[i].Some? && log[i].value.timestampMs >= target
  }

  predicate Below(log: Timeline, i: nat, target: nat)
    requires i < |log|
  {
    log[i].Some? && log[i].value.timestampMs < target
  }

  /** Timestamps of decodable entries do not decrease. */
  ghost predicate Chronological(log: Timeline) {
    forall i: nat, j: nat :: i <= j < |log| && log[i].Some? && log[j].Some? ==>
      log[i].value.timestampMs <= log[j].value.timestampMs
  }

  /** The reference: scan from the left for the first entry at or after `target`; `n` if there is none. */
  function FirstAtLeast(log: Timeline, n: nat, target: nat): (f: nat)
    requires n <= |log|
    ensures f <= n
    ensures f < n ==> AtLeast(log, f, target)
    ensures forall i :: 0 <= i < f ==> !AtLeast(log, i, target)
  {
    if n == 0 then 0
    else
      var f := FirstAtLeast(log, n - 1, target);
      if f < n - 1 then f else if AtLeast(log, n - 1, target) then n - 1 else n
  }

  /** What the search establishes whatever the timestamps are. */
  predicate Boundary(log: Timeline, treeSize: nat, target: nat, r: nat) {
    && r < treeSize <= |log|
    && (r == treeSize - 1 || AtLeast(log, r, target))
    && (r == 0 || Below(log, r - 1, target))
  }

  /** On a chronological log a boundary is where the linear scan stops, capped at the last index. */
  lemma BoundaryIsFirst(log: Timeline, treeSize: nat, target: nat, r: nat)
    requires Chronological(log) && Boundary(log, treeSize, target, r)
    ensures r == if FirstAtLeast(log, treeSize, target) < treeSize - 1 then FirstAtLeast(log, treeSize, target)
                 else treeSize - 1
  {
    var f := FirstAtLeast(log, treeSize, target);
    assert r > 0 && f < treeSize ==> r - 1 < f;
  }

  lemma BoundaryInside(log: Timeline, treeSize: nat, target: nat, r: nat)
    requires Boundary(log, treeSize, target, r)
    ensures r < treeSize <= |log|
  {
  }

  /** A run shown a tree of `n` entries has nothing to do: no entry before the last is at or after `target`. */
  predicate Idle(log: Timeline, n: nat, target: nat)
    requires n <= |log|
  {
    n == 0 || FirstAtLeast(log, n, target) >= n - 1
  }

  lemma IdleExact(log: Timeline, treeSize: nat, target: nat, r: nat)
    requires Chronological(log) && Boundary(log, treeSize, target, r)
    ensures r >= treeSize - 1 <==> Idle(log, treeSize, target)
  {
    BoundaryIsFirst(log, treeSize, target, r);
  }

  function CeilLog2(n: nat): nat {
    if n <= 1 then 0 else 1 + CeilLog2((n + 1) / 2)
  }

  /** The number of probes is the binary logarithm rounded up. */
  lemma {:induction false} CeilLog2Exact(n: nat)
    requires n > 0
    ensures n <= Pow2(CeilLog2(n))
    ensures n > 1 ==> Pow2(CeilLog2(n) - 1) < n
  {
    if n > 1 {
      CeilLog2Exact((n + 1) / 2);
    }
  }

  lemma {:induction false} CeilLog2Monotone(m: nat, n: nat)
    requires m <= n
    ensures CeilLog2(m) <= CeilLog2(n)
  {
    if m > 1 {
      CeilLog2Monotone((m + 1) / 2, (n + 1) / 2);
    }
  }

  /** Either half of [lo, hi] takes one step less. */
  lemma HalvingStep(lo: nat, hi: nat, mid: nat)
    requires lo < hi && mid == lo + (hi - lo) / 2
    ensures 1 + CeilLog2(mid - lo + 1) <= CeilLog2(hi - lo + 1)
    ensures 1 + CeilLog2(hi - mid) <= CeilLog2(hi - lo + 1)
  {
    CeilLog2Monotone(mid - lo + 1, (hi - lo + 2) / 2);
    CeilLog2Monotone(hi - mid, (hi - lo + 2) / 2);
  }

  datatype SearchError = ProbeFailed | EmptyReply(index: nat) | Undecodable(error: DecodeError)

  method BinarySearchIndex(server: CtServer, treeSize: nat, target: nat)
    returns (r: Result<nat, SearchError>, ghost probed: seq<nat>)
    requires 0 < treeSize <= |server.entries|
    ensures r.Ok? ==> Boundary(TimelineOf(server.entries), treeSize, target, r.value)
    ensures |probed| <= CeilLog2(treeSize)
    ensures forall i :: i in probed ==> i < treeSize - 1
    ensures r.Err? && r.error.EmptyReply? ==> r.error.index in probed
    ensures r.Err? && r.error.Undecodable? ==> exists i :: i in probed && TimelineOf(server.entries)[i].None?
    ensures server.reachable && server.regular && AllDecode(TimelineOf(server.entries), 0, treeSize - 1) ==> r.Ok?
  {
    hide Decode, CeilLog2;
    ghost var log := TimelineOf(server.entries);
    var lo: nat, hi: nat := 0, treeSize - 1;
    probed := [];
    while lo < hi
      invariant lo <= hi < treeSize
      invariant hi == treeSize - 1 || AtLeast(log, hi, target)
      invariant lo == 0 || Below(log, lo - 1, target)
      invariant |probed| + CeilLog2(hi - lo + 1) <= CeilLog2(treeSize)
      invariant forall i :: i in probed ==> i < treeSize - 1
    {
      var mid := lo + (hi - lo) / 2;
      probed := probed + [mid];
      HalvingStep(lo, hi, mid);
      var reply := server.GetEntries(mid, mid);
      if reply.Err? {
        return Err(ProbeFailed), probed;
      }
      if reply.value == [] {
        return Err(EmptyReply(mid)), probed;
      }
      var entry := reply.value[0];
      assert log[mid] == Meaning(entry) && probed[|probed| - 1] == mid;
      var decoded := DecodeLeaf(entry.leafInput, entry.extraData);
      if decoded.Err? {
        return Err(Undecodable(decoded.error)), probed;
      }
      if decoded.value.timestampMs >= target {
        hi := mid;
      } else {
        lo := mid + 1;
      }
    }
    return Ok(lo), probed;
  }

  // ---------------------------------------------------------------------------------------------
  // A run as one event of a campaign
  // ---------------------------------------------------------------------------------------------

  /** The jobs owed for [lo, hi), leaving out the indices in `gaps`. */
  function Payload(info: LogInfo, log: Timeline, lo: nat, hi: nat, gaps: set<nat>): seq<WriterJob>
    requires lo == hi || lo < hi <= |log|
    decreases hi
  {
    if lo == hi then []
    else Payload(info, log, lo, hi - 1, gaps) + (if hi - 1 in gaps then [] else JobsAt(info, log, hi - 1))
  }

  /** Everything a backfill of one target reads and writes. `skipped` collects the indices passed over
      after an empty reply, `unheard` those saved after the writer had gone, `head` the largest tree head a
      run has walked towards. */
  datatype World = World(
    log: Timeline, jobs: map<nat, Job>, nextId: nat, sent: seq<WriterJob>,
    skipped: set<nat>, unheard: set<nat>, head: nat)

  datatype Event =
    /** the log appends entries */
    | Grow(more: Timeline)
    /** a run that ended, for whatever reason, before it had a job */
    | NoRun
    /** a run of job `id` that offered the entries in [from, reached) except `gaps` to its writer, which had
        gone from `heard` on, and saved `progress` before it was cut off or, if `done`, completed the job */
    | Walk(id: nat, treeSize: nat, start: nat, from: nat, progress: nat, reached: nat, heard: nat, gaps: set<nat>,
           done: bool)

  datatype Target = Target(info: LogInfo, since: nat)

  ghost predicate Legal(w: World, t: Target, e: Event) {
    match e
    case Grow(more) => Chronological(w.log + more)
    case NoRun => true
    case Walk(id, treeSize, start, from, progress, reached, heard, gaps, done) =>
      && treeSize <= |w.log| && Boundary(w.log, treeSize, t.since, start)
      && start < treeSize - 1
      && (if id in w.jobs then IsActive(w.jobs[id], t.info.logId, t.since) && from == w.jobs[id].progress
          else NoneActive(w.jobs, t.info.logId, t.since) && id == w.nextId && from == start)
      && from <= progress <= reached && from <= heard <= reached
      && (reached == from || reached <= treeSize)
      && (forall i :: i in gaps ==> from <= i < progress)
      && (done ==> treeSize - 1 <= progress == reached)
  }

  /** The job row of a run: resumed or created, with its progress and status. */
  function JobsAfter(jobs: map<nat, Job>, t: Target, id: nat, treeSize: nat, start: nat, progress: nat, done: bool)
    : map<nat, Job>
    requires treeSize > 0
  {
    var job := if id in jobs then jobs[id] else Job(t.info.logId, t.since, start, treeSize - 1, start, Running);
    jobs[id := job.(progress := progress, status := if done then Completed else Running)]
  }

  function SentAfter(w: World, t: Target, from: nat, heard: nat, gaps: set<nat>): seq<WriterJob>
    requires from == heard || from < heard <= |w.log|
  {
    w.sent + Payload(t.info, w.log, from, heard, gaps)
  }

  ghost function Apply(w: World, t: Target, e: Event): World
    requires Legal(w, t, e)
  {
    match e
    case Grow(more) => w.(log := w.log + more)
    case NoRun => w
    case Walk(id, treeSize, start, from, progress, reached, heard, gaps, done) =>
      w.(jobs := JobsAfter(w.jobs, t, id, treeSize, start, progress, done),
         nextId := if id in w.jobs then w.nextId else w.nextId + 1,
         sent := SentAfter(w, t, from, heard, gaps),
         skipped := w.skipped + gaps,
         unheard := w.unheard + Range(heard, progress),
         head := Max(w.head, treeSize))
  }

  // ---------------------------------------------------------------------------------------------
  // The run itself
  // ---------------------------------------------------------------------------------------------

  /** The tables and the channel hold what `w` says. */
  ghost predicate Holds(w: World, server: CtServer, jobs: JobTable, writer: WriterChannel)
    reads server, jobs, writer
  {
    && w.log == TimelineOf(server.entries)
    && w.jobs == jobs.jobs && w.nextId == jobs.nextId
    && w.sent == writer.sent
  }

  datatype Outcome = Finished | NothingToDo | Aborted | Killed

  /** Where a walk from `cursor` stops when every reply brings `step` entries, or all up to `end` if they are
      fewer. */
  function WalkEnd(cursor: nat, end: nat, step: nat): nat
    requires step > 0
    decreases if cursor < end then end - cursor else 0
  {
    if cursor >= end then cursor
    else WalkEnd((if cursor + step - 1 < end then cursor + step - 1 else end) + 1, end, step)
  }

  lemma {:induction false} PayloadGapsAbove(info: LogInfo, log: Timeline, lo: nat, hi: nat, gaps: set<nat>, c: nat)
    requires lo == hi || lo < hi <= |log|
    requires hi <= c
    ensures Payload(info, log, lo, hi, gaps + {c}) == Payload(info, log, lo, hi, gaps)
  {
    hide JobsAt;
    if lo != hi {
      PayloadGapsAbove(info, log, lo, hi - 1, gaps, c);
    }
  }

  /** Sending what an index owes extends what has been sent by that index. */
  lemma PayloadStep(info: LogInfo, log: Timeline, lo: nat, hi: nat, gaps: set<nat>, base: seq<WriterJob>)
    requires lo <= hi < |log| && hi !in gaps
    ensures log[hi].Some? ==> base + Payload(info, log, lo, hi + 1, gaps)
                              == base + Payload(info, log, lo, hi, gaps) + [WriterJob(info, log[hi].value)]
    ensures log[hi].None? ==> Payload(info, log, lo, hi + 1, gaps) == Payload(info, log, lo, hi, gaps)
  {
  }

  lemma EntryRead(entries: seq<RawEntry>, log: Timeline, start: nat, i: nat)
    requires Reads(entries, log, start) && i < |entries|
    ensures start + |entries| <= |log| && log[start + i] == Meaning(entries[i])
  {
  }

  lemma ReadsWithin(entries: seq<RawEntry>, log: Timeline, start: nat)
    requires Reads(entries, log, start)
    ensures start + |entries| <= |log|
  {
  }

  /** Sends one reply, entry by entry, dropping what does not decode. If the process `mayDie`, it may do so before any
      send. `base` is what had been sent before the walk, `heard` how much of it reached the writer. */
  method SendEntries(writer: WriterChannel, info: LogInfo, entries: seq<RawEntry>, mayDie: bool,
                     ghost base: seq<WriterJob>, ghost log: Timeline, ghost from: nat, ghost cursor: nat,
                     ghost heard: nat, ghost gaps: set<nat>)
    returns (alive: bool, ghost n: nat, ghost heard': nat)
    requires from <= heard <= cursor <= |log| && Reads(entries, log, cursor)
    requires forall i :: i in gaps ==> i < cursor
    requires writer.sent == base + Payload(info, log, from, heard, gaps) && (writer.open ==> heard == cursor)
    modifies writer
    ensures n <= |entries| && (alive ==> n == |entries|) && (mayDie || alive)
    ensures heard <= heard' <= cursor + n && (heard < cursor ==> heard' == heard)
    ensures writer.sent == base + Payload(info, log, from, heard', gaps) && (writer.open ==> heard' == cursor + n)
  {
    hide Decode, Payload, JobsAt, Reads;
    ReadsWithin(entries, log, cursor);
    n, heard' := 0, heard;
    for i := 0 to |entries|
      invariant n == i && heard <= heard' <= cursor + i && (heard < cursor ==> heard' == heard)
      invariant writer.sent == base + Payload(info, log, from, heard', gaps) && (writer.open ==> heard' == cursor + i)
    {
      if mayDie {
        if * {
          return false, n, heard';
        }
      }
      var decoded := DecodeLeaf(entries[i].leafInput, entries[i].extraData);
      EntryRead(entries, log, cursor, i);
      PayloadStep(info, log, from, cursor + i, gaps, base);
      if decoded.Ok? {
        var _ := writer.Send(WriterJob(info, decoded.value));
      }
      n, heard' := n + 1, if writer.open then cursor + i + 1 else heard';
    }
    return true, n, heard';
  }

  /** The state after a run that has got as far as `e` is what the tables and the channel hold. */
  ghost predicate At(w: World, t: Target, e: Event, server: CtServer, jobs: JobTable, writer: WriterChannel)
    reads server, jobs, writer
  {
    && jobs.Valid() && Legal(w, t, e) && Holds(Apply(w, t, e), server, jobs, writer)
    && (e.Walk? && writer.open ==> e.heard == e.reached)
  }

  /** The run once it has offered the entries up to `to`, of which the writer took those up to `heard`. */
  function Reached(e: Event, to: nat, heard: nat): (e': Event)
    requires e.Walk?
    ensures e'.Walk?
  {
    e.(reached := to, heard := heard)
  }

  /** The run once it has saved `next`, passing over the index before it if `skip`. */
  function Saved(e: Event, next: nat, skip: bool): (e': Event)
    requires e.Walk?
    ensures e'.Walk?
  {
    e.(progress := next, reached := next, heard := if e.heard == e.reached then next else e.heard,
       gaps := if skip then e.gaps + {e.progress} else e.gaps)
  }

  ghost predicate SameTables(w: World, w': World) {
    w.log == w'.log && w.jobs == w'.jobs && w.nextId == w'.nextId
  }

  /** Recording entries sent but not yet saved touches nothing but what was sent. */
  lemma RecordSent(w: World, t: Target, e: Event, n: nat, heard: nat)
    requires Legal(w, t, e) && e.Walk? && !e.done && e.progress == e.reached && e.reached + n <= e.treeSize
    requires e.heard <= heard <= e.reached + n
    ensures var e' := Reached(e, e.reached + n, heard);
      && Legal(w, t, e')
      && SameTables(Apply(w, t, e), Apply(w, t, e'))
      && Apply(w, t, e').sent == SentAfter(w, t, e.from, heard, e.gaps)
  {
    hide Boundary, NoneActive, JobsAfter, SentAfter;
  }

  /** Recording saved progress touches nothing but the job, and what counts as skipped. */
  lemma RecordSaved(w: World, t: Target, e: Event, next: nat, skip: bool)
    requires Legal(w, t, e) && e.Walk? && !e.done && e.progress < next <= e.treeSize
    requires if skip then e.reached == e.progress && next == e.progress + 1 else e.reached == next
    ensures var e' := Saved(e, next, skip);
      && Legal(w, t, e')
      && e.id in Apply(w, t, e).jobs
      && SameTables(Apply(w, t, e).(jobs := Apply(w, t, e).jobs[e.id := Apply(w, t, e).jobs[e.id].(progress := next)]),
                    Apply(w, t, e'))
      && Apply(w, t, e').sent == Apply(w, t, e).sent
  {
    hide Boundary, NoneActive, Payload, Range;
    SavedSent(w, t, e, next, skip);
    var e' := Saved(e, next, skip);
    assert Apply(w, t, e').jobs == Apply(w, t, e).jobs[e.id := Apply(w, t, e).jobs[e.id].(progress := next)];
  }

  lemma SavedSent(w: World, t: Target, e: Event, next: nat, skip: bool)
    requires e.Walk? && e.from <= e.progress <= e.reached && e.from <= e.heard <= e.reached <= |w.log|
    requires next <= |w.log|
    requires if skip then e.reached == e.progress && next == e.progress + 1 else e.reached == next
    ensures var e' := Saved(e, next, skip);
            SentAfter(w, t, e.from, e'.heard, e'.gaps) == SentAfter(w, t, e.from, e.heard, e.gaps)
  {
    if skip {
      PayloadSkip(t.info, w.log, e.from, e.progress, e.gaps);
      PayloadGapsAbove(t.info, w.log, e.from, e.heard, e.gaps, e.progress);
    }
  }

  lemma PayloadSkip(info: LogInfo, log: Timeline, lo: nat, c: nat, gaps: set<nat>)
    requires lo <= c < |log|
    ensures Payload(info, log, lo, c + 1, gaps + {c}) == Payload(info, log, lo, c, gaps)
  {
    PayloadGapsAbove(info, log, lo, c, gaps, c);
  }

  lemma WalkFacts(w: World, t: Target, e: Event)
    requires Legal(w, t, e) && e.Walk?
    ensures e.from <= e.progress <= e.reached && forall i :: i in e.gaps ==> i < e.progress
    ensures e.from <= e.heard <= e.reached && e.treeSize <= |w.log| && Apply(w, t, e).log == w.log
    ensures Apply(w, t, e).sent == SentAfter(w, t, e.from, e.heard, e.gaps)
  {
    hide Boundary, NoneActive, JobsAfter, SentAfter;
  }

  /** The entries of a reply go to the writer; nothing is saved yet. */
  method SendReply(server: CtServer, jobs: JobTable, writer: WriterChannel, info: LogInfo, cursor: nat,
                   entries: seq<RawEntry>, mayDie: bool, ghost w: World, ghost t: Target, ghost e: Event)
    returns (alive: bool, ghost n: nat, ghost heard: nat)
    requires At(w, t, e, server, jobs, writer) && t.info == info
    requires e.Walk? && !e.done && e.progress == e.reached == cursor
    requires cursor + |entries| <= e.treeSize && Reads(entries, w.log, cursor)
    modifies writer
    ensures n <= |entries| && (alive ==> n == |entries|) && (mayDie || alive)
    ensures At(w, t, Reached(e, cursor + n, heard), server, jobs, writer)
    ensures e.heard <= heard <= cursor + n
  {
    hide Reads, Legal, Apply, Payload, TimelineOf, JobTable.Valid;
    WalkFacts(w, t, e);
    alive, n, heard := SendEntries(writer, info, entries, mayDie, w.sent, w.log, e.from, cursor, e.heard, e.gaps);
    RecordSent(w, t, e, n, heard);
  }

  /** The progress after a reply is written to the job. */
  method SaveProgress(server: CtServer, jobs: JobTable, writer: WriterChannel, id: nat, cursor: nat,
                      next: nat, skip: bool,
                      ghost w: World, ghost t: Target, ghost e: Event)
    returns (ok: bool, ghost e': Event)
    requires At(w, t, e, server, jobs, writer)
    requires e.Walk? && e.id == id && !e.done && e.progress == cursor < next <= e.treeSize
    requires if skip then e.reached == cursor && next == cursor + 1 else e.reached == next
    modifies jobs
    ensures At(w, t, e', server, jobs, writer)
    ensures e' == if ok then Saved(e, next, skip) else e
    ensures jobs.available ==> ok
  {
    assert id in jobs.jobs;
    hide Legal, Apply, TimelineOf, UniqueActive, Saved;
    var updated := jobs.UpdateProgress(id, next);
    ok, e' := updated.Ok?, e;
    if ok {
      RecordSaved(w, t, e, next, skip);
      e' := Saved(e, next, skip);
    }
  }

  /** One reply: send its entries, then save the progress. An empty reply passes over one index. */
  method HandleReply(server: CtServer, jobs: JobTable, writer: WriterChannel, info: LogInfo, id: nat, cursor: nat,
                     entries: seq<RawEntry>, mayDie: bool, ghost w: World, ghost t: Target, ghost e: Event)
    returns (stopped: Option<Outcome>, ghost e': Event)
    requires At(w, t, e, server, jobs, writer) && t.info == info
    requires e.Walk? && e.id == id && !e.done && e.progress == e.reached == cursor < e.treeSize - 1
    requires cursor + |entries| <= e.treeSize && Reads(entries, w.log, cursor)
    modifies jobs, writer
    ensures At(w, t, e', server, jobs, writer)
    ensures e'.Walk? && e.heard <= e'.heard
    ensures stopped.None? ==> var saved := Saved(e, cursor + Max(|entries|, 1), entries == []);
                              e' == saved.(heard := e'.heard)
    ensures stopped.Some? ==> e' == Reached(e, e'.reached, e'.heard)
    ensures stopped.Some? ==> (stopped.value == Killed && mayDie) || (stopped.value == Aborted && !jobs.available)
  {
    hide At, Reads;
    var alive, n, heard := SendReply(server, jobs, writer, info, cursor, entries, mayDie, w, t, e);
    e' := Reached(e, cursor + n, heard);
    if !alive {
      return Some(Killed), e';
    }
    var saved;
    saved, e' := SaveProgress(server, jobs, writer, id, cursor, cursor + Max(|entries|, 1), entries == [], w, t, e');
    return if saved then None else Some(Aborted), e';
  }

  method CompleteJob(server: CtServer, jobs: JobTable, writer: WriterChannel, id: nat,
                     ghost w: World, ghost t: Target, ghost e: Event)
    returns (ok: bool, ghost e': Event)
    requires At(w, t, e, server, jobs, writer)
    requires e.Walk? && e.id == id && !e.done && e.treeSize - 1 <= e.progress == e.reached
    modifies jobs
    ensures e' == if ok then e.(done := true) else e
    ensures jobs.available ==> ok
    ensures At(w, t, e', server, jobs, writer)
  {
    hide TimelineOf, Boundary, NoneActive, UniqueActive, Payload;
    var completed := jobs.Complete(id);
    ok, e' := completed.Ok?, e;
    if ok {
      e' := e.(done := true);
      assert jobs.jobs == Apply(w, t, e').jobs;
    }
  }

  /** The walk loop. `e0` records the run so far: its job exists and nothing has been sent. */
  method WalkForward(server: CtServer, jobs: JobTable, writer: WriterChannel, info: LogInfo, id: nat, startCursor: nat,
                     end: nat, batchSize: nat, patience: nat, mayDie: bool,
                     ghost w: World, ghost t: Target, ghost e0: Event)
    returns (outcome: Outcome, ghost e: Event, ghost replies: nat)
    requires batchSize > 0 && t.info == info
    requires e0.Walk? && e0.id == id && e0.treeSize == end + 1
    requires !e0.done && e0.gaps == {} && e0.reached == e0.heard == e0.progress == e0.from == startCursor
    requires end < |server.entries| && w.log == TimelineOf(server.entries) && At(w, t, e0, server, jobs, writer)
    modifies jobs, writer
    ensures At(w, t, e, server, jobs, writer)
    ensures outcome == Finished <==> e.Walk? && e.done
    ensures outcome != NothingToDo && (jobs.available ==> outcome != Aborted)
    ensures server.reachable && jobs.available && !mayDie ==> outcome == Finished
    ensures e.Walk? && e.treeSize == end + 1 && e.from == startCursor
    ensures replies <= Max(end, startCursor) - startCursor
    ensures outcome == Finished && server.regular ==>
            e.progress == WalkEnd(startCursor, end, Min(batchSize, server.cap))
  {
    hide TimelineOf, Reads, At;
    e, replies := e0, 0;
    var cursor: nat, left := startCursor, patience;
    ghost var step := Min(batchSize, server.cap);
    while cursor < end
      invariant e.Walk? && e == e0.(progress := cursor, reached := cursor, heard := e.heard, gaps := e.gaps)
      invariant At(w, t, e, server, jobs, writer)
      invariant replies <= cursor - startCursor && (replies == 0 || replies <= end - startCursor)
      invariant server.regular ==> WalkEnd(cursor, end, step) == WalkEnd(startCursor, end, step)
      decreases left, if cursor < end then end - cursor else 0
    {
      if mayDie {
        if * {
          return Killed, e, replies;
        }
      }
      var batchEnd := if cursor + batchSize - 1 < end then cursor + batchSize - 1 else end;
      var reply := server.GetEntries(cursor, batchEnd);
      if reply.Err? {
        if left == 0 {
          return Killed, e, replies;
        }
        left := left - 1;
        continue;
      }
      replies := replies + 1;
      var stopped;
      stopped, e := HandleReply(server, jobs, writer, info, id, cursor, reply.value, mayDie, w, t, e);
      if stopped.Some? {
        return stopped.value, e, replies;
      }
      cursor := cursor + Max(|reply.value|, 1);
    }
    var completed;
    completed, e := CompleteJob(server, jobs, writer, id, w, t, e);
    return if completed then Finished else Aborted, e, replies;
  }

  /** Resume the active job of the target or create one, then read back its progress. */
  method FindOrInsert(server: CtServer, jobs: JobTable, writer: WriterChannel, info: LogInfo, since: nat,
                      start: nat, end: nat, mayDie: bool, ghost w: World)
    returns (r: Result<(nat, nat), Outcome>, ghost e: Event)
    requires jobs.Valid() && Holds(w, server, jobs, writer)
    requires end < |w.log| && Boundary(w.log, end + 1, since, start) && start < end
    modifies jobs
    ensures At(w, Target(info, since), e, server, jobs, writer)
    ensures r.Ok? ==> e == Walk(r.value.0, end + 1, start, r.value.1, r.value.1, r.value.1, r.value.1, {}, false)
    ensures r.Err? ==> (r.error == Killed && mayDie) || (r.error == Aborted && !jobs.available)
    ensures r.Err? && e.Walk? ==> !e.done && e.treeSize == end + 1
  {
    hide TimelineOf, Boundary;
    e := NoRun;
    var found := jobs.FindActive(info.logId, since);
    if found.Err? {
      return Err(Aborted), e;
    }
    var id;
    if found.value.Some? {
      id := found.value.value;
    } else {
      var inserted := jobs.Insert(info.logId, since, start, end);
      if inserted.Err? {
        return Err(Aborted), e;
      }
      id := inserted.value;
    }
    ghost var from := jobs.jobs[id].progress;
    e := Walk(id, end + 1, start, from, from, from, from, {}, false);
    assert jobs.jobs == Apply(w, Target(info, since), e).jobs;
    if mayDie {
      if * {
        return Err(Killed), e;
      }
    }
    var again := jobs.FindActive(info.logId, since);
    if again.Err? {
      return Err(Aborted), e;
    }
    return Ok((id, if again.value.Some? then jobs.jobs[again.value.value].progress else start)), e;
  }

  lemma NothingYet(w: World, t: Target, server: CtServer, jobs: JobTable, writer: WriterChannel)
    requires jobs.Valid() && Holds(w, server, jobs, writer)
    ensures At(w, t, NoRun, server, jobs, writer) && w.log == TimelineOf(server.entries)
  {
  }

  /** Neither the log nor the database gets in the way of a run. */
  predicate Unhindered(server: CtServer, jobs: JobTable) {
    server.reachable && server.regular && jobs.available
  }

  /** What is there to do: nothing, or a walk from the start index to the last index of the tree. `head` is the
      tree size worked with, or None if the start index was not found. */
  method FindRange(server: CtServer, since: nat)
    returns (r: Result<Option<(nat, nat)>, SearchError>, ghost head: Option<nat>)
    ensures r.Ok? <==> head.Some?
    ensures var log := TimelineOf(server.entries);
      && (server.reachable && server.regular && (|log| > 0 ==> AllDecode(log, 0, |log| - 1)) ==> r.Ok?)
      && (r.Ok? ==>
            && var n := head.value;
            && n <= |log| && (server.reachable ==> n == |log|)
            && (Chronological(log) ==> (r.value.None? <==> Idle(log, n, since)))
            && match r.value
               case None => n == 0 || Boundary(log, n, since, n - 1)
               case Some((start, end)) => end + 1 == n && start < end && Boundary(log, n, since, start))
  {
    hide TimelineOf, Boundary, AllDecode, FirstAtLeast, Chronological;
    ghost var log := TimelineOf(server.entries);
    var sth := server.GetSth();
    if sth.Err? {
      return Err(ProbeFailed), None;
    }
    var treeSize := sth.value;
    if treeSize == 0 {
      return Ok(None), Some(0);
    }
    var search, _ := BinarySearchIndex(server, treeSize, since);
    if search.Err? {
      return Err(search.error), None;
    }
    var start, end := search.value, treeSize - 1;
    BoundaryInside(log, treeSize, since, start);
    if Chronological(log) {
      IdleExact(log, treeSize, since, start);
    }
    return Ok(if start >= end then None else Some((start, end))), Some(treeSize);
  }

  /** `run_for_log`: one run for one target, cut off wherever the process dies. With nothing in its way, and if the
      process may not die, it completes its job or there is nothing to do. */
  method RunForLog(server: CtServer, jobs: JobTable, writer: WriterChannel, info: LogInfo, since: nat,
                   batchSize: nat, patience: nat, mayDie: bool, ghost w: World)
    returns (outcome: Outcome, ghost e: Event, ghost replies: nat, ghost head: Option<nat>)
    requires batchSize > 0
    requires jobs.Valid() && Holds(w, server, jobs, writer)
    modifies jobs, writer
    ensures At(w, Target(info, since), e, server, jobs, writer)
    ensures outcome == Finished <==> e.Walk? && e.done
    ensures head.None? ==> outcome == Aborted
    ensures head.Some? ==> head.value <= |w.log| && (server.reachable ==> head.value == |w.log|)
    ensures Unhindered(server, jobs) && (|w.log| > 0 ==> AllDecode(w.log, 0, |w.log| - 1)) ==>
            head.Some? && outcome != Aborted && (!mayDie ==> outcome == Finished || outcome == NothingToDo)
    ensures outcome == NothingToDo ==>
            e.NoRun? && head.Some? && (head.value == 0 || Boundary(w.log, head.value, since, head.value - 1))
    ensures Chronological(w.log) && head.Some? ==> (outcome == NothingToDo <==> Idle(w.log, head.value, since))
    ensures e.Walk? ==> head == Some(e.treeSize) && replies <= Max(e.treeSize - 1, e.from) - e.from
    ensures outcome == Finished && server.regular ==>
            e.progress == WalkEnd(e.from, e.treeSize - 1, Min(batchSize, server.cap))
  {
    hide TimelineOf, Boundary, At, Legal, Apply, AllDecode, JobTable.Valid, FirstAtLeast, Chronological, Idle;
    NothingYet(w, Target(info, since), server, jobs, writer);
    e, replies := NoRun, 0;
    var range;
    range, head := FindRange(server, since);
    if range.Err? {
      outcome := Aborted;
      return;
    }
    if range.value.None? {
      outcome := NothingToDo;
      return;
    }
    var (start, end) := range.value.value;
    var job;
    job, e := FindOrInsert(server, jobs, writer, info, since, start, end, mayDie, w);
    if job.Err? {
      outcome := job.error;
      return;
    }
    outcome, e, replies := WalkForward(server, jobs, writer, info, job.value.0, job.value.1, end, batchSize, patience,
                                       mayDie, w, Target(info, since), e);
  }

  // ---------------------------------------------------------------------------------------------
  // Campaigns: any number of runs for one target, one after another, while the log grows
  // ---------------------------------------------------------------------------------------------

  ghost predicate LegalCampaign(w: World, t: Target, events: seq<Event>)
    decreases |events|
  {
    events != [] ==> Legal(w, t, events[0]) && LegalCampaign(Apply(w, t, events[0]), t, events[1..])
  }

  ghost function Play(w: World, t: Target, events: seq<Event>): World
    requires LegalCampaign(w, t, events)
    decreases |events|
  {
    if events == [] then w else Play(Apply(w, t, events[0]), t, events[1..])
  }

  ghost predicate IsFirst(log: Timeline, target: nat, i: nat) {
    i < |log| && AtLeast(log, i, target) && forall k :: 0 <= k < i ==> !AtLeast(log, k, target)
  }

  lemma FirstUnique(log: Timeline, target: nat, i: nat, j: nat)
    requires IsFirst(log, target, i) && IsFirst(log, target, j)
    ensures i == j
  {
  }

  lemma FirstStable(log: Timeline, log': Timeline, target: nat, i: nat)
    requires IsFirst(log, target, i) && log <= log'
    ensures IsFirst(log', target, i)
  {
    forall k | 0 <= k < i
      ensures !AtLeast(log', k, target)
    {
      assert !AtLeast(log, k, target) && log[k] == log'[k];
    }
  }

  /** [start, progress) has been fetched and sent, except where the log gave an empty reply. */
  ghost predicate JobCovered(w: World, t: Target, job: Job) {
    && IsFirst(w.log, t.since, job.startIndex)
    && job.startIndex <= job.progress <= w.head <= |w.log|
    && (forall i :: job.startIndex <= i < job.progress && i !in w.skipped && i !in w.unheard ==>
                         Delivered(t.info, w.log, i, w.sent))
  }

  ghost predicate Inv(w: World, t: Target) {
    && Chronological(w.log)
    && w.head <= |w.log|
    && UniqueActive(w.jobs)
    && (forall id :: id in w.jobs ==> id < w.nextId)
    && (forall id :: id in w.jobs && Mine(w.jobs[id], t.info.logId, t.since) ==> JobCovered(w, t, w.jobs[id]))
  }

  lemma StartIsFirst(log: Timeline, treeSize: nat, target: nat, r: nat)
    requires Chronological(log) && Boundary(log, treeSize, target, r) && r < treeSize - 1
    ensures IsFirst(log, target, r)
  {
    BoundaryIsFirst(log, treeSize, target, r);
  }

  lemma {:induction false} PayloadCovers(info: LogInfo, log: Timeline, lo: nat, hi: nat, gaps: set<nat>, i: nat)
    requires lo <= i < hi <= |log| && i !in gaps
    ensures Delivered(info, log, i, Payload(info, log, lo, hi, gaps))
  {
    if i < hi - 1 {
      PayloadCovers(info, log, lo, hi - 1, gaps, i);
    }
  }

  lemma WalkCovers(w: World, t: Target, e: Event)
    requires Inv(w, t) && Legal(w, t, e) && e.Walk?
    ensures JobCovered(Apply(w, t, e), t, Apply(w, t, e).jobs[e.id])
  {
    StartIsFirst(w.log, e.treeSize, t.since, e.start);
    var w' := Apply(w, t, e);
    forall i | w'.jobs[e.id].startIndex <= i < e.progress && i !in w'.skipped && i !in w'.unheard
      ensures Delivered(t.info, w.log, i, w'.sent)
    {
      if i >= e.from {
        PayloadCovers(t.info, w.log, e.from, e.heard, e.gaps, i);
      }
    }
  }

  /** Every step of a campaign keeps the invariant. */
  lemma StepKeepsInv(w: World, t: Target, e: Event)
    requires Inv(w, t) && Legal(w, t, e)
    ensures Inv(Apply(w, t, e), t)
  {
    hide Payload, JobsAt, AtLeast, IsFirst;
    var w' := Apply(w, t, e);
    if e.Walk? {
      WalkCovers(w, t, e);
    }
    forall id | id in w'.jobs && Mine(w'.jobs[id], t.info.logId, t.since)
      ensures JobCovered(w', t, w'.jobs[id])
    {
      if !e.Walk? || id != e.id {
        assert JobCovered(w, t, w.jobs[id]);
        FirstStable(w.log, w'.log, t.since, w.jobs[id].startIndex);
      }
    }
  }

  /** Resumption: after any campaign every job of the target covers what its progress claims. */
  lemma {:induction false} CampaignCovers(w: World, t: Target, events: seq<Event>)
    requires Inv(w, t) && LegalCampaign(w, t, events)
    ensures Inv(Play(w, t, events), t)
    decreases |events|
  {
    if events != [] {
      StepKeepsInv(w, t, events[0]);
      CampaignCovers(Apply(w, t, events[0]), t, events[1..]);
    }
  }

  /** Before the first backfill. */
  ghost predicate Fresh(w: World) {
    Chronological(w.log) && w.jobs == map[] && w.sent == [] && w.skipped == {} && w.unheard == {} && w.head == 0
  }

  /** The same from an empty job table, spelled out: every job of the target starts at the first entry at or
      after `since`, and everything decodable from there to its progress has been sent, empty replies aside. */
  lemma ResumptionSafe(w: World, t: Target, events: seq<Event>, id: nat)
    requires Fresh(w) && LegalCampaign(w, t, events)
    requires id in Play(w, t, events).jobs && Mine(Play(w, t, events).jobs[id], t.info.logId, t.since)
    ensures var w' := Play(w, t, events); var job := w'.jobs[id];
      && IsFirst(w'.log, t.since, job.startIndex)
      && job.startIndex <= job.progress <= w'.head <= |w'.log|
      && (forall i :: job.startIndex <= i < job.progress && i !in w'.skipped && i !in w'.unheard ==>
                                   Delivered(t.info, w'.log, i, w'.sent))
  {
    CampaignCovers(w, t, events);
    CampaignExtends(w, t, events);
  }

  /** What a campaign never takes back: log entries, sent jobs, and the progress of a job. */
  ghost predicate Extends(w: World, w': World) {
    && w.log <= w'.log && w.sent <= w'.sent && w.skipped <= w'.skipped && w.unheard <= w'.unheard
    && w.head <= w'.head
    && forall id :: id in w.jobs ==>
      id in w'.jobs && w.jobs[id].progress <= w'.jobs[id].progress && w.jobs[id].startIndex == w'.jobs[id].startIndex
  }

  lemma {:induction false} CampaignExtends(w: World, t: Target, events: seq<Event>)
    requires LegalCampaign(w, t, events)
    ensures Extends(w, Play(w, t, events))
    decreases |events|
  {
    if events != [] {
      CampaignExtends(Apply(w, t, events[0]), t, events[1..]);
      assert Extends(w, Apply(w, t, events[0]));
    }
  }

  /** Every run that gets as far as a job finds one and the same start index, however stale its tree head. */
  lemma {:induction false} RunsShareStart(w: World, t: Target, events: seq<Event>, k: nat)
    requires Inv(w, t) && LegalCampaign(w, t, events)
    requires k < |events| && events[k].Walk?
    ensures IsFirst(Play(w, t, events).log, t.since, events[k].start)
    decreases |events|
  {
    var w' := Apply(w, t, events[0]);
    if k == 0 {
      StartIsFirst(w.log, events[0].treeSize, t.since, events[0].start);
      CampaignExtends(w', t, events[1..]);
      FirstStable(w.log, Play(w, t, events).log, t.since, events[0].start);
    } else {
      StepKeepsInv(w, t, events[0]);
      RunsShareStart(w', t, events[1..], k - 1);
    }
  }

  /** A resumed run starts its search from scratch and still finds the index stored in the job. */
  lemma ResumedStart(w: World, t: Target, e: Event)
    requires Inv(w, t) && Legal(w, t, e) && e.Walk? && e.id in w.jobs
    ensures e.start == w.jobs[e.id].startIndex
  {
    StartIsFirst(w.log, e.treeSize, t.since, e.start);
    FirstUnique(w.log, t.since, e.start, w.jobs[e.id].startIndex);
  }

  lemma {:induction false} PayloadInRange(info: LogInfo, log: Timeline, lo: nat, hi: nat, gaps: set<nat>,
                                          job: WriterJob)
    requires (lo == hi || lo < hi <= |log|) && job in Payload(info, log, lo, hi, gaps)
    ensures exists k :: lo <= k < hi <= |log| && k !in gaps && log[k].Some? && job == WriterJob(info, log[k].value)
  {
    if job in Payload(info, log, lo, hi - 1, gaps) {
      PayloadInRange(info, log, lo, hi - 1, gaps, job);
    } else {
      assert hi - 1 !in gaps && log[hi - 1].Some? && job == WriterJob(info, log[hi - 1].value);
    }
  }

  /** All runs of the campaign that have a job have this one: no other is opened. */
  ghost predicate OnlyJob(events: seq<Event>, id: nat) {
    forall k :: 0 <= k < |events| && events[k].Walk? ==> events[k].id == id
  }

  /** What was sent comes from index `lo` on. */
  ghost predicate SentFrom(w: World, t: Target, lo: nat) {
    forall job :: job in w.sent ==> JobFrom(t.info, w.log, lo, job)
  }

  lemma StepSendsFrom(w: World, t: Target, e: Event, id: nat, lo: nat)
    requires Legal(w, t, e) && (e.Walk? ==> e.id == id) && id in w.jobs && lo <= w.jobs[id].progress
    requires SentFrom(w, t, lo)
    ensures var w' := Apply(w, t, e); SentFrom(w', t, lo) && id in w'.jobs && lo <= w'.jobs[id].progress
  {
    var w' := Apply(w, t, e);
    forall job | job in w'.sent
      ensures JobFrom(t.info, w'.log, lo, job)
    {
      if job in w.sent {
        var i :| lo <= i < |w.log| && w.log[i].Some? && job == WriterJob(t.info, w.log[i].value);
        assert w'.log[i] == w.log[i];
      } else {
        PayloadInRange(t.info, w.log, e.from, e.heard, e.gaps, job);
      }
    }
  }

  /** No run of a job goes back behind the progress it finds: from an empty queue, whatever the runs of that job send
      lies at the stored progress or beyond. */
  lemma {:induction false} ResumedSendsFrom(w: World, t: Target, events: seq<Event>, id: nat, lo: nat)
    requires LegalCampaign(w, t, events) && OnlyJob(events, id) && id in w.jobs && lo <= w.jobs[id].progress
    requires SentFrom(w, t, lo)
    ensures SentFrom(Play(w, t, events), t, lo)
    decreases |events|
  {
    if events != [] {
      StepSendsFrom(w, t, events[0], id, lo);
      ResumedSendsFrom(Apply(w, t, events[0]), t, events[1..], id, lo);
    }
  }

  /** A completed job has no later runs. */
  lemma {:induction false} CompletedHasNoRuns(w: World, t: Target, events: seq<Event>, id: nat)
    requires LegalCampaign(w, t, events) && OnlyJob(events, id) && id in w.jobs && w.jobs[id].status == Completed
    ensures (forall k :: 0 <= k < |events| ==> !events[k].Walk?) && Play(w, t, events).sent == w.sent
    decreases |events|
  {
    if events != [] {
      CompletedHasNoRuns(Apply(w, t, events[0]), t, events[1..], id);
    }
  }

  lemma {:induction false} PayloadRecent(t: Target, log: Timeline, lo: nat, hi: nat, gaps: set<nat>)
    requires lo == hi || lo < hi <= |log|
    requires Chronological(log) && lo < |log| && exists s :: 0 <= s <= lo && AtLeast(log, s, t.since)
    ensures forall job :: job in Payload(t.info, log, lo, hi, gaps) ==>
            job.log == t.info && job.entry.timestampMs >= t.since
  {
    if lo != hi {
      PayloadRecent(t, log, lo, hi - 1, gaps);
      var s :| 0 <= s <= lo && AtLeast(log, s, t.since);
    }
  }

  /** Nothing older than `since` is ever sent, and nothing under another log's name. */
  lemma {:induction false} CampaignSendsRecent(w: World, t: Target, events: seq<Event>)
    requires Inv(w, t) && LegalCampaign(w, t, events)
    ensures w.sent <= Play(w, t, events).sent
    ensures forall k :: |w.sent| <= k < |Play(w, t, events).sent| ==>
            Play(w, t, events).sent[k].log == t.info && Play(w, t, events).sent[k].entry.timestampMs >= t.since
    decreases |events|
  {
    CampaignExtends(w, t, events);
    if events != [] {
      var e := events[0];
      var w' := Apply(w, t, e);
      if e.Walk? && e.from < e.heard {
        StartIsFirst(w.log, e.treeSize, t.since, e.start);
        if e.id in w.jobs {
          ResumedStart(w, t, e);
        }
        PayloadRecent(t, w.log, e.from, e.heard, e.gaps);
      }
      StepKeepsInv(w, t, e);
      CampaignExtends(w', t, events[1..]);
      CampaignSendsRecent(w', t, events[1..]);
    }
  }

  /** Completeness: a run that completes its job stops at the last index or just past it, unless an earlier run
      of the job had seen a larger tree and got further. Of the entries at or after `since` below the tree head
      everything has been sent except, perhaps, the last entry and indices the log answered with an empty reply. */
  lemma CompletedRunCovers(w: World, t: Target, e: Event)
    requires Inv(w, t) && Legal(w, t, e) && e.Walk? && e.done
    ensures e.treeSize - 1 <= e.progress && (e.progress <= e.treeSize || (e.from == e.progress && e.treeSize < w.head))
    ensures var w' := Apply(w, t, e);
            forall i :: 0 <= i < e.treeSize && AtLeast(w.log, i, t.since) && i !in w'.skipped && i !in w'.unheard &&
                        (i == e.treeSize - 1 ==> e.progress >= e.treeSize)
              ==> Delivered(t.info, w.log, i, w'.sent)
  {
    WalkCovers(w, t, e);
  }

  lemma MulAtLeast(x: int, b: nat)
    requires x >= 1
    ensures x * b >= b
  {
    assert x * b == (x - 1) * b + b;
  }

  lemma RemainderUnique(q: int, r: int, q': int, r': int, b: nat)
    requires 0 <= r < b && 0 <= r' < b && q * b + r == q' * b + r'
    ensures r == r'
  {
    assert (q - q') * b == r' - r && (q' - q) * b == r - r';
    if q > q' {
      MulAtLeast(q - q', b);
    } else if q < q' {
      MulAtLeast(q' - q, b);
    }
  }

  lemma ModStep(d: nat, b: nat)
    requires 0 < b <= d
    ensures (d - b) % b == d % b
  {
    assert d == (d / b) * b + d % b && d - b == ((d - b) / b) * b + (d - b) % b;
    assert ((d - b) / b + 1) * b == ((d - b) / b) * b + b;
    RemainderUnique(d / b, d % b, (d - b) / b + 1, (d - b) % b, b);
  }

  /** With regular replies the walk reaches past the last entry exactly when the distance is no multiple of their
      length. */
  lemma {:induction false} WalkEndExact(cursor: nat, end: nat, step: nat)
    requires step > 0 && cursor <= end
    ensures WalkEnd(cursor, end, step) == if (end - cursor) % step == 0 then end else end + 1
    decreases end - cursor
  {
    if cursor < end {
      if cursor + step <= end {
        ModStep(end - cursor, step);
        WalkEndExact(cursor + step, end, step);
      } else {
        assert (end - cursor) % step == end - cursor;
      }
    }
  }

  /** "Walk forward to the current STH": against a log that caps its replies at `cap`, the newest entry is left out
      exactly when the smaller of the batch size and the cap divides the distance the run had to cover. */
  lemma LastEntryFetched(e: Event, batchSize: nat, cap: pos)
    requires batchSize > 0 && e.Walk? && e.done && e.progress == e.reached && e.treeSize > 0
    requires e.from <= e.treeSize - 1 && e.progress == WalkEnd(e.from, e.treeSize - 1, Min(batchSize, cap))
    ensures e.treeSize - 1 < e.reached <==> (e.treeSize - 1 - e.from) % Min(batchSize, cap) != 0
  {
    WalkEndExact(e.from, e.treeSize - 1, Min(batchSize, cap));
  }

  /** So the batch size alone does not decide it: a batch size of three does not divide four, and yet a log of five
      entries that answers two at a time completes without its newest entry. */
  lemma CapMissesNewest(info: LogInfo, older: DecodedEntry, newer: DecodedEntry) returns (w: World, e: Event)
    requires older.timestampMs <= newer.timestampMs && older != newer
    ensures w.log == [Some(older), Some(older), Some(older), Some(older), Some(newer)]
    ensures Fresh(w) && Legal(w, Target(info, 0), e) && e.Walk? && e.done && e.treeSize == |w.log|
    ensures e.progress == WalkEnd(0, 4, Min(3, 2)) && 4 % 3 != 0
    ensures !Delivered(info, w.log, 4, Apply(w, Target(info, 0), e).sent)
  {
    var log := [Some(older), Some(older), Some(older), Some(older), Some(newer)];
    w := World(log, map[], 0, [], {}, {}, 0);
    e := Walk(0, 5, 0, 0, 4, 4, 4, {}, true);
    WalkEndExact(0, 4, 2);
    PayloadOfOlder(info, log, 4, WriterJob(info, older));
  }

  lemma {:induction false} PayloadOfOlder(info: LogInfo, log: Timeline, hi: nat, job: WriterJob)
    requires hi <= |log| && forall i :: 0 <= i < hi ==> JobsAt(info, log, i) == [job]
    ensures forall j :: j in Payload(info, log, 0, hi, {}) ==> j == job
  {
    if hi > 0 {
      PayloadOfOlder(info, log, hi - 1, job);
    }
  }

  /** A completed target is not remembered: the next run that finds anything to do opens a new job and
      sends from the start index again. */
  lemma CompletedTargetStartsOver(w: World, t: Target, e: Event, e': Event)
    requires Inv(w, t) && Legal(w, t, e) && e.Walk? && e.done
    requires Legal(Apply(w, t, e), t, e') && e'.Walk?
    ensures e'.id !in Apply(w, t, e).jobs && e'.from == e'.start == e.start
  {
    StartIsFirst(w.log, e.treeSize, t.since, e.start);
    StartIsFirst(w.log, e'.treeSize, t.since, e'.start);
    FirstUnique(w.log, t.since, e.start, e'.start);
  }

  /** The log as the next run of a completed target sees it. */
  ghost function Later(w: World, t: Target, e: Event, more: Timeline): World
    requires Legal(w, t, e) && e.Walk? && Chronological(w.log + more)
  {
    Apply(Apply(w, t, e), t, Grow(more))
  }

  /** The run after a completed one, against a tree of `n` entries, completed in its turn. */
  function Rerun(w: World, n: nat, start: nat): Event {
    Walk(w.nextId, n, start, start, n, n, n, {}, true)
  }

  /** It is possible whenever the tree reaches two entries past the start, and it sends everything again. */
  lemma RerunSendsAgain(w: World, t: Target, e: Event, more: Timeline, n: nat)
    requires Inv(w, t) && Legal(w, t, e) && e.Walk? && e.done && Chronological(w.log + more)
    requires e.start + 1 < n <= |w.log + more|
    ensures var w' := Later(w, t, e, more); var e' := Rerun(w', n, e.start);
      && Legal(w', t, e')
      && Apply(w', t, e').sent == w'.sent + Payload(t.info, w'.log, e.start, n, {})
  {
    StepKeepsInv(w, t, e);
    StartIsFirst(w.log, e.treeSize, t.since, e.start);
    FirstStable(w.log, w.log + more, t.since, e.start);
    var w' := Later(w, t, e, more);
    assert e.start > 0 ==> !AtLeast(w'.log, e.start - 1, t.since);
    assert e.start > 0 ==> w'.log[e.start - 1] == w.log[e.start - 1];
  }

  lemma FirstIs(log: Timeline, n: nat, target: nat, i: nat)
    requires n <= |log| && IsFirst(log, target, i)
    ensures FirstAtLeast(log, n, target) == if i < n then i else n
  {
    var f := FirstAtLeast(log, n, target);
    assert f < n ==> f >= i;
  }

  /** "A no-op for completed ones": a re-run against a tree of `n` entries has nothing to do if and only if the tree
      ends at most one entry behind the start. The completed run had seen more than that, so with a tree head no
      older than its own a re-run never is a no-op. */
  lemma RerunExact(w: World, t: Target, e: Event, more: Timeline, n: nat)
    requires Inv(w, t) && Legal(w, t, e) && e.Walk? && e.done && Chronological(w.log + more) && n <= |w.log + more|
    ensures var w' := Later(w, t, e, more);
      && (Idle(w'.log, n, t.since) <==> n <= e.start + 1)
      && ((exists e' :: Legal(w', t, e') && e'.Walk? && e'.treeSize == n) <==> e.start + 1 < n)
    ensures e.treeSize <= n ==> e.start + 1 < n
  {
    StartIsFirst(w.log, e.treeSize, t.since, e.start);
    FirstStable(w.log, w.log + more, t.since, e.start);
    FirstIs(w.log + more, n, t.since, e.start);
    var w' := Later(w, t, e, more);
    if e.start + 1 < n {
      RerunSendsAgain(w, t, e, more, n);
      assert Legal(w', t, Rerun(w', n, e.start));
    }
    forall e' | Legal(w', t, e') && e'.Walk? && e'.treeSize == n
      ensures e.start + 1 < n
    {
      StartIsFirst(w'.log, n, t.since, e'.start);
      FirstUnique(w'.log, t.since, e'.start, e.start);
    }
  }

  lemma TwoEntries(info: LogInfo, a: DecodedEntry, b: DecodedEntry)
    ensures Payload(info, [Some(a), Some(b)], 0, 2, {}) == [WriterJob(info, a), WriterJob(info, b)]
  {
    assert Payload(info, [Some(a), Some(b)], 0, 1, {}) == [WriterJob(info, a)];
  }

  /** A completed run over two entries, from an empty job table. */
  lemma OneCompletedRun(info: LogInfo, a: DecodedEntry, b: DecodedEntry) returns (w: World, e: Event)
    requires a.timestampMs <= b.timestampMs
    ensures Fresh(w) && Inv(w, Target(info, 0)) && w.log == [Some(a), Some(b)] && Chronological(w.log + [])
    ensures Legal(w, Target(info, 0), e) && e == Walk(0, 2, 0, 0, 2, 2, 2, {}, true)
    ensures Apply(w, Target(info, 0), e).sent == [WriterJob(info, a), WriterJob(info, b)]
    ensures w == World([Some(a), Some(b)], map[], 0, [], {}, {}, 0)
  {
    w := World([Some(a), Some(b)], map[], 0, [], {}, {}, 0);
    e := Walk(0, 2, 0, 0, 2, 2, 2, {}, true);
    TwoEntries(info, a, b);
    assert w.log + [] == w.log;
  }

  lemma OneAfterAnother(w: World, t: Target, e: Event, e': Event)
    requires Legal(w, t, e) && e.Walk? && Legal(Apply(w, t, e), t, e')
    ensures LegalCampaign(w, t, [e, e']) && Play(w, t, [e, e']) == Apply(Apply(w, t, e), t, e')
  {
    hide Legal, Apply;
    assert [e, e'][1..] == [e'] && [e'][1..] == [];
    assert LegalCampaign(Apply(w, t, e), t, [e']);
    assert Play(w, t, [e, e']) == Play(Apply(w, t, e), t, [e']);
  }

  /** A campaign of two completed runs of one target over the same two entries: both are sent twice. */
  lemma TwoCompletedRuns(info: LogInfo, a: DecodedEntry, b: DecodedEntry) returns (w: World, events: seq<Event>)
    requires a.timestampMs <= b.timestampMs
    ensures Fresh(w) && w.log == [Some(a), Some(b)]
    ensures LegalCampaign(w, Target(info, 0), events) && |events| == 2
    ensures forall k :: 0 <= k < 2 ==> events[k].Walk? && events[k].done && events[k].treeSize == 2
    ensures var ja, jb := WriterJob(info, a), WriterJob(info, b);
            Play(w, Target(info, 0), events).sent == [ja, jb, ja, jb]
  {
    hide Legal, Inv, Fresh, Payload, LegalCampaign, Play, Chronological;
    var e0;
    w, e0 := OneCompletedRun(info, a, b);
    var t := Target(info, 0);
    var w1 := Apply(w, t, e0);
    var e1 := Rerun(w1, 2, 0);
    RerunSendsAgain(w, t, e0, [], 2);
    assert Later(w, t, e0, []) == w1;
    TwoEntries(info, a, b);
    OneAfterAnother(w, t, e0, e1);
    events := [e0, e1];
  }

  // ---------------------------------------------------------------------------------------------
  // What the writer hears when it may go away
  // ---------------------------------------------------------------------------------------------

  /** All entries decode, and no two are the same. */
  ghost predicate AllDistinct(log: Timeline) {
    AllDecode(log, 0, |log|) && forall i, j :: 0 <= i < j < |log| ==> log[i] != log[j]
  }

  /** The run offers index `i` while its writer is there. */
  predicate Hears(e: Event, i: nat) {
    e.Walk? && e.from <= i < e.heard && i !in e.gaps
  }

  lemma StepHears(w: World, t: Target, e: Event, i: nat)
    requires Legal(w, t, e) && AllDistinct(Apply(w, t, e).log) && i < |Apply(w, t, e).log|
    ensures var w' := Apply(w, t, e); var job := WriterJob(t.info, w'.log[i].value);
            job in w'.sent <==> job in w.sent || Hears(e, i)
  {
    var w' := Apply(w, t, e);
    var job := WriterJob(t.info, w'.log[i].value);
    if e.Walk? {
      var payload := Payload(t.info, w.log, e.from, e.heard, e.gaps);
      if job in payload {
        PayloadInRange(t.info, w.log, e.from, e.heard, e.gaps, job);
      }
      if Hears(e, i) {
        PayloadCovers(t.info, w.log, e.from, e.heard, e.gaps, i);
      }
    }
  }

  /** Exactly which indices a campaign sends, if no two entries are the same and the queue was empty: those that some
      run offered while its writer was there. Progress, and completion, do not ask for that. */
  lemma {:induction false} SentExact(w: World, t: Target, events: seq<Event>, i: nat)
    requires LegalCampaign(w, t, events) && AllDistinct(Play(w, t, events).log) && i < |Play(w, t, events).log|
    ensures var w' := Play(w, t, events); var job := WriterJob(t.info, w'.log[i].value);
            job in w'.sent <==> job in w.sent || exists k :: 0 <= k < |events| && Hears(events[k], i)
    decreases |events|
  {
    if events != [] {
      var rest, mid := events[1..], Apply(w, t, events[0]);
      var job := WriterJob(t.info, Play(w, t, events).log[i].value);
      SentExact(mid, t, rest, i);
      CampaignExtends(mid, t, rest);
      if i < |mid.log| {
        DistinctPrefix(mid.log, Play(w, t, events).log);
        StepHears(w, t, events[0], i);
      } else {
        HearsWithin(w, t, events[0], i, job, Play(w, t, events).log);
      }
      assert forall k :: 0 <= k < |rest| ==> rest[k] == events[k + 1];
      assert (exists k :: 0 <= k < |events| && Hears(events[k], i)) <==>
             Hears(events[0], i) || exists k :: 0 <= k < |rest| && Hears(rest[k], i);
    }
  }

  lemma DistinctPrefix(log: Timeline, log': Timeline)
    requires log <= log' && AllDistinct(log')
    ensures AllDistinct(log)
  {
  }

  /** An entry the log does not hold yet is not sent. */
  lemma HearsWithin(w: World, t: Target, e: Event, i: nat, job: WriterJob, log: Timeline)
    requires Legal(w, t, e) && Apply(w, t, e).log <= log && AllDistinct(log)
    requires |Apply(w, t, e).log| <= i < |log| && job == WriterJob(t.info, log[i].value)
    ensures !Hears(e, i) && (job in Apply(w, t, e).sent <==> job in w.sent)
  {
    if e.Walk? {
      forall j | j in Payload(t.info, w.log, e.from, e.heard, e.gaps)
        ensures j != job
      {
        PayloadInRange(t.info, w.log, e.from, e.heard, e.gaps, j);
        var k :| e.from <= k < e.heard <= |w.log| && w.log[k].Some? && j == WriterJob(t.info, w.log[k].value);
        assert w.log[k] == log[k] && log[k] != log[i];
      }
    }
  }

  /** A run whose writer has gone before the first send completes its job all the same, with nothing sent. */
  lemma DeafRunCompletes(info: LogInfo, a: DecodedEntry, b: DecodedEntry) returns (w: World, e: Event)
    requires a.timestampMs <= b.timestampMs
    ensures Fresh(w) && w.log == [Some(a), Some(b)]
    ensures Legal(w, Target(info, 0), e) && e.Walk? && e.done
    ensures var w' := Apply(w, Target(info, 0), e);
            w'.sent == [] && e.id in w'.jobs && w'.jobs[e.id].status == Completed && w'.jobs[e.id].progress == 2
  {
    w := World([Some(a), Some(b)], map[], 0, [], {}, {}, 0);
    e := Walk(0, 2, 0, 0, 2, 2, 0, {}, true);
  }
}
