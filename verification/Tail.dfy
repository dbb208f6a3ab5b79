/** Live tailing of one log. Any number of workers may share the log's cursor row; the machine below lets
    their database, network and channel steps interleave freely and lets any of them give up anywhere. */
module Tail {
  import opened Wrappers
  import opened Entry
  import opened CtLog
  import opened Cursors
  import opened Sets

  // ---------------------------------------------------------------------------------------------
  // The machine
  // ---------------------------------------------------------------------------------------------

  /** Where a worker is in its `tick`. */
  datatype Phase =
    | Idle
    | Polled(cursor: nat)
    | Skipping(treeSize: nat)
    | Asking(cursor: nat, treeSize: nat)
    | Sending(start: nat, count: nat, next: nat)

  /** `head` is the largest tree size any worker has seen, `skipped` the indices jumped over on a first
      run, `first` the position at which the cursor left zero. */
  datatype State = State(
    info: LogInfo, log: Timeline, cursor: nat, sent: seq<WriterJob>, workers: map<nat, Phase>,
    head: nat, skipped: set<nat>, first: nat)

  datatype Event =
    | Grow(more: Timeline)
    | Spawn(w: nat)
    | ReadCursor(w: nat)
    | GetSth(w: nat, treeSize: nat)
    | SkipToHead(w: nat)
    | GetEntries(w: nat, count: nat)
    | Send(w: nat)
    | Advance(w: nat)
    /** an error return, a crash, or an entry that does not decode */
    | Abandon(w: nat)

  ghost predicate Enabled(s: State, batchSize: nat, e: Event) {
    match e
    case Grow(_) => true
    case Spawn(w) => w !in s.workers
    case ReadCursor(w) => w in s.workers && s.workers[w].Idle?
    case GetSth(w, treeSize) => w in s.workers && s.workers[w].Polled? && treeSize <= |s.log|
    case SkipToHead(w) => w in s.workers && s.workers[w].Skipping?
    case GetEntries(w, count) =>
      && w in s.workers && s.workers[w].Asking?
      && count <= batchSize && s.workers[w].cursor + count <= s.workers[w].treeSize
    case Send(w) =>
      && w in s.workers && s.workers[w].Sending? && s.workers[w].next < s.workers[w].count
      && s.workers[w].start + s.workers[w].next < |s.log| && s.log[s.workers[w].start + s.workers[w].next].Some?
    case Advance(w) => w in s.workers && s.workers[w].Sending? && s.workers[w].next == s.workers[w].count
    case Abandon(w) => w in s.workers
  }

  /** The guarded update of the cursor row. */
  function Raise(cursor: nat, to: nat): nat {
    if cursor < to then to else cursor
  }

  ghost function At(s: State, w: nat, phase: Phase): State {
    s.(workers := s.workers[w := phase])
  }

  ghost function Next(s: State, batchSize: nat, e: Event): State
    requires Enabled(s, batchSize, e)
  {
    match e
    case Grow(more) => s.(log := s.log + more)
    case Spawn(w) => At(s, w, Idle)
    case ReadCursor(w) => At(s, w, Polled(s.cursor))
    case GetSth(w, treeSize) =>
      var cursor := s.workers[w].cursor;
      var phase := if cursor == 0 && treeSize > 0 then Skipping(treeSize)
                   else if treeSize <= cursor then Idle
                   else Asking(cursor, treeSize);
      At(s, w, phase).(head := Max(s.head, treeSize))
    case SkipToHead(w) =>
      var treeSize := s.workers[w].treeSize;
      At(s, w, Idle).(
        cursor := Raise(s.cursor, treeSize),
        skipped := s.skipped + Range(s.cursor, treeSize),
        first := if s.cursor == 0 then treeSize else s.first)
    case GetEntries(w, count) =>
      At(s, w, if count == 0 then Idle else Sending(s.workers[w].cursor, count, 0))
    case Send(w) =>
      var Sending(start, count, next) := s.workers[w];
      At(s, w, Sending(start, count, next + 1)).(sent := s.sent + [WriterJob(s.info, s.log[start + next].value)])
    case Advance(w) =>
      At(s, w, Idle).(cursor := Raise(s.cursor, s.workers[w].start + s.workers[w].count))
    case Abandon(w) => At(s, w, Idle)
  }

  /** A run is a sequence of events, each enabled where the ones before it lead. */
  ghost predicate Legal(s: State, batchSize: nat, run: seq<Event>)
    decreases |run|, 0
  {
    run == [] ||
    (Legal(s, batchSize, run[..|run| - 1]) && Enabled(Play(s, batchSize, run[..|run| - 1]), batchSize, run[|run| - 1]))
  }

  ghost function Play(s: State, batchSize: nat, run: seq<Event>): State
    requires Legal(s, batchSize, run)
    decreases |run|, 1
  {
    if run == [] then s else Next(Play(s, batchSize, run[..|run| - 1]), batchSize, run[|run| - 1])
  }

  lemma Extend(s: State, batchSize: nat, run: seq<Event>, e: Event)
    requires Legal(s, batchSize, run) && Enabled(Play(s, batchSize, run), batchSize, e)
    ensures Legal(s, batchSize, run + [e])
    ensures Play(s, batchSize, run + [e]) == Next(Play(s, batchSize, run), batchSize, e)
  {
    assert (run + [e])[..|run|] == run;
  }

  // ---------------------------------------------------------------------------------------------
  // Safety of every interleaving
  // ---------------------------------------------------------------------------------------------

  ghost predicate DecodedAndSent(s: State, i: nat) {
    i < |s.log| && s.log[i].Some? && WriterJob(s.info, s.log[i].value) in s.sent
  }

  ghost predicate PhaseInv(s: State, c0: nat, phase: Phase) {
    match phase
    case Idle => true
    case Polled(cursor) => c0 <= cursor <= s.cursor
    case Skipping(treeSize) => c0 == 0 && treeSize <= s.head
    case Asking(cursor, treeSize) => c0 <= cursor <= s.cursor && cursor < treeSize <= s.head
    case Sending(start, count, next) =>
      && c0 <= start <= s.cursor && next <= count && start + count <= s.head
      && forall i :: start <= i < start + next ==> DecodedAndSent(s, i)
  }

  ghost predicate Inv(s: State, c0: nat) {
    && c0 <= s.cursor <= Max(c0, s.head)
    && s.head <= |s.log|
    && (forall i :: c0 <= i < s.cursor ==> i in s.skipped || DecodedAndSent(s, i))
    && (forall w :: w in s.workers ==> PhaseInv(s, c0, s.workers[w]))
    && (c0 > 0 ==> s.skipped == {})
  }

  /** The tail as the process starts: cursor c0, no worker holding a reading of it. */
  ghost predicate Start(s: State, c0: nat) {
    && s.cursor == c0 && s.head <= |s.log| && s.skipped == {} && s.first == c0
    && forall w :: w in s.workers ==> s.workers[w].Idle?
  }

  lemma SentStays(s: State, s': State, c0: nat, phase: Phase)
    requires PhaseInv(s, c0, phase)
    requires s.info == s'.info && s.log <= s'.log && s.sent <= s'.sent && s.cursor <= s'.cursor && s.head <= s'.head
    ensures PhaseInv(s', c0, phase)
  {
    forall i | DecodedAndSent(s, i)
      ensures DecodedAndSent(s', i)
    {
    }
  }

  lemma StepKeepsPhase(s: State, batchSize: nat, e: Event, c0: nat, w: nat)
    requires Inv(s, c0) && Enabled(s, batchSize, e) && w in Next(s, batchSize, e).workers
    ensures PhaseInv(Next(s, batchSize, e), c0, Next(s, batchSize, e).workers[w])
  {
    hide Range;
    if w in s.workers {
      SentStays(s, Next(s, batchSize, e), c0, s.workers[w]);
    }
  }

  /** A step behind the cursor changes nothing, and what a step moves the cursor over is accounted for. */
  lemma StepKeepsCursor(s: State, batchSize: nat, e: Event, c0: nat)
    requires Inv(s, c0) && Enabled(s, batchSize, e)
    ensures var s' := Next(s, batchSize, e);
      && s.cursor <= s'.cursor <= Max(c0, s'.head) && s'.head <= |s'.log| && (c0 > 0 ==> s'.skipped == {})
      && forall i :: c0 <= i < s'.cursor ==> i in s'.skipped || DecodedAndSent(s', i)
  {
    hide Range;
    var s' := Next(s, batchSize, e);
    forall i | DecodedAndSent(s, i)
      ensures DecodedAndSent(s', i)
    {
    }
  }

  lemma StepKeepsInv(s: State, batchSize: nat, e: Event, c0: nat)
    requires Inv(s, c0) && Enabled(s, batchSize, e)
    ensures Inv(Next(s, batchSize, e), c0)
    ensures s.cursor <= Next(s, batchSize, e).cursor
  {
    hide Next, Enabled, PhaseInv;
    StepKeepsCursor(s, batchSize, e, c0);
    forall w | w in Next(s, batchSize, e).workers
      ensures PhaseInv(Next(s, batchSize, e), c0, Next(s, batchSize, e).workers[w])
    {
      StepKeepsPhase(s, batchSize, e, c0, w);
    }
  }

  lemma {:induction false} RunKeepsInv(s: State, batchSize: nat, run: seq<Event>, c0: nat)
    requires Inv(s, c0) && Legal(s, batchSize, run)
    ensures Inv(Play(s, batchSize, run), c0)
    decreases |run|
  {
    if run != [] {
      RunKeepsInv(s, batchSize, run[..|run| - 1], c0);
      StepKeepsInv(Play(s, batchSize, run[..|run| - 1]), batchSize, run[|run| - 1], c0);
    }
  }

  /** Safety under interleaving. From any position, with any number of workers: the cursor never falls, it
      stays within the largest tree seen, and every index it has passed was decoded and sent at least once
      or jumped over on a first run. From a non-zero position nothing is jumped over. */
  lemma TailSafe(s: State, batchSize: nat, run: seq<Event>, c0: nat)
    requires Start(s, c0) && Legal(s, batchSize, run)
    ensures var s' := Play(s, batchSize, run);
            && c0 <= s'.cursor <= Max(c0, s'.head)
            && s'.head <= |s'.log|
            && (forall i :: c0 <= i < s'.cursor ==> i in s'.skipped || DecodedAndSent(s', i))
            && (c0 > 0 ==> s'.skipped == {})
  {
    RunKeepsInv(s, batchSize, run, c0);
  }

  /** The cursor is monotone between any two points of a run. */
  lemma {:induction false} CursorMonotone(s: State, batchSize: nat, run: seq<Event>, k: nat)
    requires Legal(s, batchSize, run) && k <= |run|
    ensures Legal(s, batchSize, run[..k])
    ensures Play(s, batchSize, run[..k]).cursor <= Play(s, batchSize, run).cursor
    decreases |run|
  {
    if k == |run| {
      assert run[..k] == run;
    } else {
      var before := run[..|run| - 1];
      CursorMonotone(s, batchSize, before, k);
      assert before[..k] == run[..k];
    }
  }

  /** What was sent beyond the first `n` jobs comes from index `c0` on. */
  ghost predicate SentFrom(s: State, c0: nat, n: nat) {
    n <= |s.sent| && forall k :: n <= k < |s.sent| ==> JobFrom(s.info, s.log, c0, s.sent[k])
  }

  lemma StepKeepsSentFrom(s: State, batchSize: nat, e: Event, c0: nat, n: nat)
    requires Inv(s, c0) && SentFrom(s, c0, n) && Enabled(s, batchSize, e)
    ensures SentFrom(Next(s, batchSize, e), c0, n)
  {
    hide Range;
    var s' := Next(s, batchSize, e);
    forall k | n <= k < |s'.sent|
      ensures JobFrom(s'.info, s'.log, c0, s'.sent[k])
    {
      if k < |s.sent| {
        assert JobFrom(s.info, s.log, c0, s.sent[k]);
        var i :| c0 <= i < |s.log| && s.log[i].Some? && s.sent[k] == WriterJob(s.info, s.log[i].value);
        assert s'.log[i] == s.log[i];
      } else {
        var i := s.workers[e.w].start + s.workers[e.w].next;
        assert s'.log[i].Some?;
      }
    }
  }

  /** No worker ever goes back: whatever is sent in a run from position c0 lies at c0 or beyond. */
  lemma {:induction false} SentFromStart(s: State, batchSize: nat, run: seq<Event>, c0: nat)
    requires Start(s, c0) && Legal(s, batchSize, run)
    ensures SentFrom(Play(s, batchSize, run), c0, |s.sent|)
    decreases |run|
  {
    if run != [] {
      SentFromStart(s, batchSize, run[..|run| - 1], c0);
      RunKeepsInv(s, batchSize, run[..|run| - 1], c0);
      StepKeepsSentFrom(Play(s, batchSize, run[..|run| - 1]), batchSize, run[|run| - 1], c0, |s.sent|);
    }
  }

  /** One entry that does not decode holds the cursor back for good. */
  lemma PoisonEntryBlocks(s: State, batchSize: nat, run: seq<Event>, c0: nat, i: nat)
    requires Start(s, c0) && c0 > 0 && Legal(s, batchSize, run)
    requires c0 <= i < |Play(s, batchSize, run).log| && Play(s, batchSize, run).log[i].None?
    ensures Play(s, batchSize, run).cursor <= i
  {
    TailSafe(s, batchSize, run, c0);
    assert !DecodedAndSent(Play(s, batchSize, run), i);
  }

  /** Once the cursor has left zero, no worker reads or sends below the first position; before, nothing is sent. */
  ghost predicate AtOrAfterFirst(s: State, n: nat) {
    && s.first <= s.cursor && (s.cursor > 0 ==> s.first > 0)
    && (s.first == 0 ==> |s.sent| == n)
    && forall w :: w in s.workers ==>
      match s.workers[w]
      case Polled(cursor) => cursor == 0 || (0 < s.first <= cursor)
      case Asking(cursor, _) => 0 < s.first <= cursor
      case Sending(start, _, _) => 0 < s.first <= start
      case _ => true
  }

  lemma StepKeepsFirst(s: State, batchSize: nat, e: Event, n: nat)
    requires Inv(s, 0) && AtOrAfterFirst(s, n) && SentFrom(s, s.first, n) && Enabled(s, batchSize, e)
    ensures AtOrAfterFirst(Next(s, batchSize, e), n)
    ensures SentFrom(Next(s, batchSize, e), Next(s, batchSize, e).first, n)
  {
    hide Range;
    var s' := Next(s, batchSize, e);
    forall k | n <= k < |s'.sent|
      ensures JobFrom(s'.info, s'.log, s'.first, s'.sent[k])
    {
      if k < |s.sent| {
        var i :| s.first <= i < |s.log| && s.log[i].Some? && s.sent[k] == WriterJob(s.info, s.log[i].value);
        assert s'.log[i] == s.log[i];
      } else {
        var i := s.workers[e.w].start + s.workers[e.w].next;
        assert s'.log[i].Some?;
      }
    }
  }

  /** A tail from scratch never sends an index below its first position. */
  lemma {:induction false} SentSinceFirst(s: State, batchSize: nat, run: seq<Event>)
    requires Start(s, 0) && Legal(s, batchSize, run)
    ensures AtOrAfterFirst(Play(s, batchSize, run), |s.sent|)
    ensures SentFrom(Play(s, batchSize, run), Play(s, batchSize, run).first, |s.sent|)
    decreases |run|
  {
    if run != [] {
      SentSinceFirst(s, batchSize, run[..|run| - 1]);
      RunKeepsInv(s, batchSize, run[..|run| - 1], 0);
      StepKeepsFirst(Play(s, batchSize, run[..|run| - 1]), batchSize, run[|run| - 1], |s.sent|);
    }
  }

  // ---------------------------------------------------------------------------------------------
  // First runs: when a fresh log loses entries
  // ---------------------------------------------------------------------------------------------

  /** A worker that read cursor 0 jumps to its tree head after another one has already set the cursor. */
  ghost predicate LateSkip(s: State, e: Event) {
    e.SkipToHead? && e.w in s.workers && s.workers[e.w].Skipping? && 0 < s.cursor < s.workers[e.w].treeSize
  }

  ghost predicate HasLateSkip(s: State, batchSize: nat, run: seq<Event>)
    requires Legal(s, batchSize, run)
    decreases |run|
  {
    run != [] && (HasLateSkip(s, batchSize, run[..|run| - 1])
                  || LateSkip(Play(s, batchSize, run[..|run| - 1]), run[|run| - 1]))
  }

  /** The tail has passed index `i` since its first position without ever sending it. */
  ghost predicate Lost(s: State, i: nat) {
    s.first <= i < s.cursor && !DecodedAndSent(s, i)
  }

  ghost predicate NothingLost(s: State) {
    forall i :: s.first <= i < s.cursor ==> !Lost(s, i)
  }

  /** What a log tailed from scratch jumps over lies below its first position unless a late skip happens. */
  lemma {:induction false} JumpsExact(s: State, batchSize: nat, run: seq<Event>)
    requires Start(s, 0) && Legal(s, batchSize, run)
    ensures var s' := Play(s, batchSize, run);
            && s'.first <= s'.cursor
            && (s'.cursor == 0 ==> s'.skipped == {})
            && ((exists i :: i in s'.skipped && i >= s'.first) <==> HasLateSkip(s, batchSize, run))
    decreases |run|
  {
    if run != [] {
      var before := Play(s, batchSize, run[..|run| - 1]);
      var e := run[|run| - 1];
      JumpsExact(s, batchSize, run[..|run| - 1]);
      StepGrows(before, batchSize, e);
      if LateSkip(before, e) {
        assert before.cursor in Play(s, batchSize, run).skipped;
      }
    }
  }

  lemma StepGrows(s: State, batchSize: nat, e: Event)
    requires Enabled(s, batchSize, e)
    ensures s.cursor <= Next(s, batchSize, e).cursor
    ensures s.workers.Keys <= Next(s, batchSize, e).workers.Keys
  {
  }

  /** Only a late skip loses anything: a lost index was jumped over by one, and without one every index from the
      first position to the cursor was decoded and sent. */
  lemma LossNeedsLateSkip(s: State, batchSize: nat, run: seq<Event>)
    requires Start(s, 0) && Legal(s, batchSize, run)
    ensures forall i :: Lost(Play(s, batchSize, run), i) ==> i in Play(s, batchSize, run).skipped
    ensures !HasLateSkip(s, batchSize, run) ==> NothingLost(Play(s, batchSize, run))
  {
    JumpsExact(s, batchSize, run);
    TailSafe(s, batchSize, run, 0);
  }

  /** A lone worker never skips late, so it loses nothing. */
  lemma LoneWorkerLosesNothing(s: State, batchSize: nat, run: seq<Event>)
    requires Start(s, 0) && Legal(s, batchSize, run)
    requires |Play(s, batchSize, run).workers| <= 1
    ensures !HasLateSkip(s, batchSize, run)
    ensures NothingLost(Play(s, batchSize, run))
    ensures forall i :: i in Play(s, batchSize, run).skipped ==> i < Play(s, batchSize, run).first
  {
    LoneWorkerReadings(s, batchSize, run);
    JumpsExact(s, batchSize, run);
    LossNeedsLateSkip(s, batchSize, run);
  }

  lemma {:induction false} LoneWorkerReadings(s: State, batchSize: nat, run: seq<Event>)
    requires Start(s, 0) && Legal(s, batchSize, run)
    requires |Play(s, batchSize, run).workers| <= 1
    ensures var s' := Play(s, batchSize, run);
            forall w :: w in s'.workers && (s'.workers[w].Skipping? || s'.workers[w] == Polled(0)) ==> s'.cursor == 0
    ensures !HasLateSkip(s, batchSize, run)
    decreases |run|
  {
    if run != [] {
      var before, after := Play(s, batchSize, run[..|run| - 1]), Play(s, batchSize, run);
      var e := run[|run| - 1];
      StepGrows(before, batchSize, e);
      SubsetSize(before.workers.Keys, after.workers.Keys);
      LoneWorkerReadings(s, batchSize, run[..|run| - 1]);
      forall w, v | w in after.workers && v in after.workers
        ensures w == v
      {
        SubsetSize({w, v}, after.workers.Keys);
      }
    }
  }

  /** Two workers have read cursor 0. */
  lemma TwoReadZero(info: LogInfo, entry: DecodedEntry, batchSize: nat)
    returns (s: State, run: seq<Event>, now: State)
    ensures Start(s, 0) && Legal(s, batchSize, run) && now == Play(s, batchSize, run)
    ensures now == State(info, [Some(entry)], 0, [], map[1 := Polled(0), 2 := Polled(0)], 0, {}, 0)
  {
    s := State(info, [Some(entry)], 0, [], map[], 0, {}, 0);
    run, now := [], s;
    run, now := Then(s, batchSize, run, now, Spawn(1));
    run, now := Then(s, batchSize, run, now, Spawn(2));
    run, now := Then(s, batchSize, run, now, ReadCursor(1));
    run, now := Then(s, batchSize, run, now, ReadCursor(2));
  }

  /** Then the first one sets the cursor to its tree head, another entry arrives, and the second one sees a tree
      of two. */
  lemma RaceToTheHead(info: LogInfo, entry: DecodedEntry, batchSize: nat)
    returns (s: State, run: seq<Event>, now: State)
    ensures Start(s, 0) && Legal(s, batchSize, run) && now == Play(s, batchSize, run)
    ensures now == State(info, [Some(entry), Some(entry)], 1, [], map[1 := Idle, 2 := Skipping(2)], 2, {0}, 1)
  {
    hide Start, Legal, Play;
    s, run, now := TwoReadZero(info, entry, batchSize);
    run, now := Then(s, batchSize, run, now, GetSth(1, 1));
    run, now := Then(s, batchSize, run, now, SkipToHead(1));
    run, now := Then(s, batchSize, run, now, Grow([Some(entry)]));
    run, now := Then(s, batchSize, run, now, GetSth(2, 2));
  }

  /** The second worker skips in its turn. */
  lemma SecondSkip(s: State, batchSize: nat, run: seq<Event>, now: State) returns (run': seq<Event>, now': State)
    requires Legal(s, batchSize, run) && Play(s, batchSize, run) == now
    requires now.cursor == 1 && |now.log| == 2 && now.workers == map[1 := Idle, 2 := Skipping(2)]
    ensures Legal(s, batchSize, run') && now' == Play(s, batchSize, run') && HasLateSkip(s, batchSize, run')
    ensures now'.log == now.log && now'.sent == now.sent && now'.info == now.info && now'.first == now.first
    ensures now'.cursor == 2 && |now'.workers| == 2
  {
    assert LateSkip(now, SkipToHead(2));
    run', now' := Then(s, batchSize, run, now, SkipToHead(2));
    assert run'[..|run'| - 1] == run;
  }

  /** Two workers starting on one fresh log can lose an entry: the second jumps over what arrived between
      the two tree heads, and the cursor is past it. */
  lemma TwoFreshWorkersLoseAnEntry(info: LogInfo, entry: DecodedEntry, batchSize: nat)
    returns (s: State, run: seq<Event>)
    ensures Start(s, 0) && Legal(s, batchSize, run)
    ensures var s' := Play(s, batchSize, run);
            && s'.first == 1 && s'.cursor == 2 && s'.log == [Some(entry), Some(entry)] && s'.sent == []
            && |s'.workers| == 2
  {
    var now;
    s, run, now := RaceToTheHead(info, entry, batchSize);
    run, now := SecondSkip(s, batchSize, run, now);
  }

  /** A late skip need not lose anything: the other worker may have sent what is jumped over. */
  lemma LateSkipMayBeHarmless(info: LogInfo, entry: DecodedEntry, batchSize: nat) returns (s: State, run: seq<Event>)
    requires batchSize > 0
    ensures Start(s, 0) && Legal(s, batchSize, run) && HasLateSkip(s, batchSize, run)
    ensures var s' := Play(s, batchSize, run); s'.first == 1 && s'.cursor == 2 && NothingLost(s')
  {
    hide Next, Enabled, Legal, Play, HasLateSkip, Start;
    var now;
    s, run, now := RaceToTheHead(info, entry, batchSize);
    run, now := Poll(s, batchSize, run, now, 1);
    run, now := SeeHead(s, batchSize, run, now, 1, 2);
    run, now := Fetch(s, batchSize, run, now, 1, 1);
    run, now := SendOne(s, batchSize, run, now, 1);
    run, now := GiveUp(s, batchSize, run, now, 1);
    run, now := SecondSkip(s, batchSize, run, now);
    assert now.sent == [WriterJob(now.info, entry)] && DecodedAndSent(now, 1);
  }

  /** No run of at most `n` workers on a fresh log loses anything. */
  ghost predicate FreshIsSafe(n: nat, batchSize: nat) {
    forall s, run :: Start(s, 0) && Legal(s, batchSize, run) && |Play(s, batchSize, run).workers| <= n
      ==> NothingLost(Play(s, batchSize, run))
  }

  /** A fresh log is tailed without loss, whatever happens, if and only if there is never a second worker. */
  lemma LossExact(n: nat, batchSize: nat)
    ensures FreshIsSafe(n, batchSize) <==> n <= 1
  {
    if n <= 1 {
      forall s, run | Start(s, 0) && Legal(s, batchSize, run) && |Play(s, batchSize, run).workers| <= n
        ensures NothingLost(Play(s, batchSize, run))
      {
        LoneWorkerLosesNothing(s, batchSize, run);
      }
    } else {
      var s, run := TwoFreshWorkersLoseAnEntry(LogInfo([], [], []), DecodedEntry(0, FinalCert([]), None), batchSize);
      assert Lost(Play(s, batchSize, run), 1);
    }
  }

  lemma Then(s: State, batchSize: nat, run: seq<Event>, now: State, e: Event) returns (run': seq<Event>, now': State)
    requires Legal(s, batchSize, run) && Play(s, batchSize, run) == now && Enabled(now, batchSize, e)
    ensures run' == run + [e] && Legal(s, batchSize, run')
    ensures now' == Next(now, batchSize, e) == Play(s, batchSize, run')
  {
    Extend(s, batchSize, run, e);
    run', now' := run + [e], Next(now, batchSize, e);
  }

  // ---------------------------------------------------------------------------------------------
  // One tick of one worker is a run of the machine
  // ---------------------------------------------------------------------------------------------

  ghost predicate Holds(s: State, server: CtServer, cursors: CursorTable, writer: WriterChannel)
    reads server, cursors, writer
  {
    && s.log == TimelineOf(server.entries)
    && s.info.logId in cursors.rows && s.cursor == cursors.rows[s.info.logId].lastTreeSize
    && s.sent == writer.sent
  }

  datatype TickError = CursorError(error: DbError) | NetworkError | BadEntry(decode: DecodeError) | WriterGone

  lemma NoSteps(s: State, batchSize: nat)
    ensures Legal(s, batchSize, []) && Play(s, batchSize, []) == s
  {
  }

  /** The steps of one worker, as far as a tick needs them. */
  lemma Poll(s: State, batchSize: nat, run: seq<Event>, now: State, w: nat) returns (run': seq<Event>, now': State)
    requires Legal(s, batchSize, run) && Play(s, batchSize, run) == now && w in now.workers && now.workers[w].Idle?
    ensures Legal(s, batchSize, run') && now' == At(now, w, Polled(now.cursor)) == Play(s, batchSize, run')
  {
    run', now' := Then(s, batchSize, run, now, ReadCursor(w));
  }

  lemma SeeHead(s: State, batchSize: nat, run: seq<Event>, now: State, w: nat, treeSize: nat)
    returns (run': seq<Event>, now': State)
    requires Legal(s, batchSize, run) && Play(s, batchSize, run) == now
    requires w in now.workers && now.workers[w] == Polled(now.cursor) && treeSize <= |now.log|
    ensures w in now'.workers
    ensures Legal(s, batchSize, run')
         && now' == Play(s, batchSize, run') == At(now, w, now'.workers[w]).(head := now'.head)
    ensures now'.workers[w] == if now.cursor == 0 && treeSize > 0 then Skipping(treeSize)
            else if treeSize <= now.cursor then Idle else Asking(now.cursor, treeSize)
  {
    run', now' := Then(s, batchSize, run, now, Event.GetSth(w, treeSize));
  }

  lemma Skip(s: State, batchSize: nat, run: seq<Event>, now: State, w: nat) returns (run': seq<Event>, now': State)
    requires Legal(s, batchSize, run) && Play(s, batchSize, run) == now && w in now.workers && now.workers[w].Skipping?
    ensures Legal(s, batchSize, run') && now' == Play(s, batchSize, run')
    ensures now' == At(now, w, Idle).(cursor := Raise(now.cursor, now.workers[w].treeSize),
                                      skipped := now'.skipped, first := now'.first)
  {
    run', now' := Then(s, batchSize, run, now, SkipToHead(w));
  }

  lemma GiveUp(s: State, batchSize: nat, run: seq<Event>, now: State, w: nat) returns (run': seq<Event>, now': State)
    requires Legal(s, batchSize, run) && Play(s, batchSize, run) == now && w in now.workers
    ensures Legal(s, batchSize, run') && now' == At(now, w, Idle) == Play(s, batchSize, run')
  {
    run', now' := Then(s, batchSize, run, now, Abandon(w));
  }

  lemma Fetch(s: State, batchSize: nat, run: seq<Event>, now: State, w: nat, count: nat)
    returns (run': seq<Event>, now': State)
    requires Legal(s, batchSize, run) && Play(s, batchSize, run) == now && w in now.workers && now.workers[w].Asking?
    requires count <= batchSize && now.workers[w].cursor + count <= now.workers[w].treeSize
    ensures Legal(s, batchSize, run')
    ensures now' == At(now, w, if count == 0 then Idle else Sending(now.workers[w].cursor, count, 0))
         == Play(s, batchSize, run')
  {
    run', now' := Then(s, batchSize, run, now, Event.GetEntries(w, count));
  }

  lemma Finish(s: State, batchSize: nat, run: seq<Event>, now: State, w: nat) returns (run': seq<Event>, now': State)
    requires Legal(s, batchSize, run) && Play(s, batchSize, run) == now && w in now.workers
    requires now.workers[w].Sending? && now.workers[w].next == now.workers[w].count
    ensures Legal(s, batchSize, run') && now' == Play(s, batchSize, run')
    ensures now' == At(now, w, Idle).(cursor := Raise(now.cursor, now.workers[w].start + now.workers[w].count))
  {
    run', now' := Then(s, batchSize, run, now, Event.Advance(w));
  }

  lemma SendOne(s: State, batchSize: nat, run: seq<Event>, now: State, w: nat) returns (run': seq<Event>, now': State)
    requires Legal(s, batchSize, run) && Play(s, batchSize, run) == now && w in now.workers && now.workers[w].Sending?
    requires var Sending(start, count, next) := now.workers[w];
             next < count && start + next < |now.log| && now.log[start + next].Some?
    ensures Legal(s, batchSize, run') && now' == Play(s, batchSize, run')
    ensures var Sending(start, count, next) := now.workers[w];
            now' == At(now, w, Sending(start, count, next + 1)).(
                      sent := now.sent + [WriterJob(now.info, now.log[start + next].value)])
  {
    run', now' := Then(s, batchSize, run, now, Event.Send(w));
  }

  /** Nothing outside the worker gets in its way. */
  predicate Healthy(server: CtServer, cursors: CursorTable, writer: WriterChannel)
    reads writer
  {
    server.reachable && server.regular && cursors.available && writer.open
  }

  /** The end of the range that a reply of at most `step` entries brings. */
  function RangeEnd(cursor: nat, step: nat, treeSize: nat): nat {
    if cursor + step < treeSize then cursor + step else treeSize
  }

  /** With nothing in its way the range is sent and the cursor moved to its end exactly when all of it decodes. */
  ghost predicate HealthyFetch(r: Result<bool, TickError>, log: Timeline, lo: nat, hi: nat, cursor: nat) {
    if AllDecode(log, lo, hi) then r == Ok(true) && cursor == hi else r.Err? && r.error.BadEntry? && cursor == lo
  }

  /** A tick with nothing in its way: a first run moves to the tree head, a worker that is caught up rests, and
      any other tick sends its range. */
  ghost predicate HealthyTick(r: Result<bool, TickError>, step: nat, now: State, cursor: nat) {
    var treeSize := |now.log|;
    if now.cursor == 0 && treeSize > 0 then r == Ok(false) && cursor == treeSize
    else if treeSize <= now.cursor then r == Ok(false) && cursor == now.cursor
    else HealthyFetch(r, now.log, now.cursor, RangeEnd(now.cursor, step, treeSize), cursor)
  }

  method SendAll(server: CtServer, cursors: CursorTable, writer: WriterChannel, info: LogInfo, entries: seq<RawEntry>,
                 ghost w: nat, ghost s: State, ghost batchSize: nat, ghost run: seq<Event>, ghost start: nat)
    returns (r: Result<(), TickError>, ghost run': seq<Event>)
    requires Legal(s, batchSize, run) && Holds(Play(s, batchSize, run), server, cursors, writer) && s.info == info
    requires var now := Play(s, batchSize, run);
      && now.info == info && w in now.workers && now.workers[w] == Sending(start, |entries|, 0)
      && Reads(entries, now.log, start)
    modifies writer
    ensures writer.open ==> old(writer.open)
    ensures Legal(s, batchSize, run') && Holds(Play(s, batchSize, run'), server, cursors, writer)
    ensures var now, now' := Play(s, batchSize, run), Play(s, batchSize, run');
      && now'.info == info && now'.cursor == now.cursor && (r.Ok? ==> |now'.sent| == |now.sent| + |entries|)
      && now'.workers == now.workers[w := if r.Ok? then Sending(start, |entries|, |entries|) else Idle]
      && (writer.open ==> if AllDecode(now.log, start, start + |entries|) then r.Ok? else r.Err? && r.error.BadEntry?)
  {
    hide Decode, TimelineOf, Legal, Play, Next, Enabled;
    ghost var now := Play(s, batchSize, run);
    ghost var workers := now.workers;
    run' := run;
    for i := 0 to |entries|
      invariant writer.open ==> old(writer.open)
      invariant Legal(s, batchSize, run') && Play(s, batchSize, run') == now && Holds(now, server, cursors, writer)
      invariant now.info == info && now.log == TimelineOf(server.entries)
      invariant now.cursor == Play(s, batchSize, run).cursor && |now.sent| == |Play(s, batchSize, run).sent| + i
      invariant now.workers == workers[w := Sending(start, |entries|, i)]
      invariant now.log == Play(s, batchSize, run).log && AllDecode(now.log, start, start + i)
    {
      var decoded := DecodeLeaf(entries[i].leafInput, entries[i].extraData);
      assert now.log[start + i] == Meaning(entries[i]);
      if decoded.Err? {
        run', now := GiveUp(s, batchSize, run', now, w);
        return Err(BadEntry(decoded.error)), run';
      }
      var ok := writer.Send(WriterJob(info, decoded.value));
      if !ok {
        run', now := GiveUp(s, batchSize, run', now, w);
        return Err(WriterGone), run';
      }
      run', now := SendOne(s, batchSize, run', now, w);
    }
    r := Ok(());
  }

  /** What the result of a tick says: progress is by as many entries as were sent, being caught up sends
      nothing and moves the cursor only away from zero, and an error leaves the cursor alone. */
  ghost predicate Outcome(r: Result<bool, TickError>, batchSize: nat, now: State, now': State) {
    match r
    case Ok(true) => 0 < now'.cursor - now.cursor == |now'.sent| - |now.sent| <= batchSize
    case Ok(false) => now'.sent == now.sent && (now'.cursor == now.cursor || now.cursor == 0)
    case Err(_) => now'.cursor == now.cursor
  }

  /** The second half of a tick: ask for the next range, send it, then move the cursor past it. */
  method FetchAndAdvance(server: CtServer, cursors: CursorTable, writer: WriterChannel, info: LogInfo, batchSize: nat,
                         cursor: nat, treeSize: nat, ghost w: nat, ghost s: State, ghost before: seq<Event>)
    returns (r: Result<bool, TickError>, ghost run: seq<Event>)
    requires batchSize > 0 && s.info == info
    requires Legal(s, batchSize, before) && Holds(Play(s, batchSize, before), server, cursors, writer)
    requires var now := Play(s, batchSize, before);
      && now.info == info && now.cursor == cursor && w in now.workers && now.workers[w] == Asking(cursor, treeSize)
      && cursor < treeSize <= |now.log|
    modifies cursors, writer
    ensures writer.open ==> old(writer.open)
    ensures Legal(s, batchSize, run) && Holds(Play(s, batchSize, run), server, cursors, writer)
    ensures Play(s, batchSize, run).workers == Play(s, batchSize, before).workers[w := Idle]
    ensures Outcome(r, batchSize, Play(s, batchSize, before), Play(s, batchSize, run))
    ensures Healthy(server, cursors, writer) ==>
            HealthyFetch(r, Play(s, batchSize, before).log, cursor,
                         RangeEnd(cursor, Min(batchSize, server.cap), treeSize),
                         Play(s, batchSize, run).cursor)
  {
    hide TimelineOf, Legal, Play, Next, Enabled;
    ghost var now := Play(s, batchSize, before);
    run := before;
    var last := if cursor + batchSize - 1 < treeSize - 1 then cursor + batchSize - 1 else treeSize - 1;
    var reply := server.GetEntries(cursor, last);
    if reply.Err? {
      run, now := GiveUp(s, batchSize, run, now, w);
      return Err(NetworkError), run;
    }
    run, now := Fetch(s, batchSize, run, now, w, |reply.value|);
    if reply.value == [] {
      return Ok(false), run;
    }
    var sent;
    sent, run := SendAll(server, cursors, writer, info, reply.value, w, s, batchSize, run, cursor);
    now := Play(s, batchSize, run);
    if sent.Err? {
      return Err(sent.error), run;
    }
    var advanced := cursors.Advance(info.logId, cursor + |reply.value|);
    if advanced.Err? {
      run, now := GiveUp(s, batchSize, run, now, w);
      return Err(CursorError(advanced.error)), run;
    }
    run, now := Finish(s, batchSize, run, now, w);
    return Ok(true), run;
  }

  /** `Ok(true)` is progress, `Ok(false)` is being caught up (or the skip of a first run). */
  method Tick(server: CtServer, cursors: CursorTable, writer: WriterChannel, info: LogInfo, batchSize: nat,
              ghost w: nat, ghost s: State)
    returns (r: Result<bool, TickError>, ghost run: seq<Event>)
    requires batchSize > 0
    requires s.info == info && w in s.workers && s.workers[w].Idle? && Holds(s, server, cursors, writer)
    modifies cursors, writer
    ensures writer.open ==> old(writer.open)
    ensures Legal(s, batchSize, run) && Holds(Play(s, batchSize, run), server, cursors, writer)
    ensures Play(s, batchSize, run).workers == s.workers
    ensures Outcome(r, batchSize, s, Play(s, batchSize, run))
    ensures Healthy(server, cursors, writer) ==>
            HealthyTick(r, Min(batchSize, server.cap), s, Play(s, batchSize, run).cursor)
  {
    hide TimelineOf, Legal, Play, Next, Enabled, AllDecode;
    NoSteps(s, batchSize);
    ghost var now := s;
    run := [];
    var current := cursors.Current(info.logId);
    if current.Err? {
      return Err(CursorError(current.error)), run;
    }
    var cursor := current.value;
    run, now := Poll(s, batchSize, run, now, w);
    var sth := server.GetSth();
    if sth.Err? {
      run, now := GiveUp(s, batchSize, run, now, w);
      return Err(NetworkError), run;
    }
    var treeSize := sth.value;
    run, now := SeeHead(s, batchSize, run, now, w, treeSize);

    if cursor == 0 && treeSize > 0 {
      var skipped := cursors.Advance(info.logId, treeSize);
      if skipped.Err? {
        run, now := GiveUp(s, batchSize, run, now, w);
        return Err(CursorError(skipped.error)), run;
      }
      run, now := Skip(s, batchSize, run, now, w);
      return Ok(false), run;
    }
    if treeSize <= cursor {
      return Ok(false), run;
    }
    r, run := FetchAndAdvance(server, cursors, writer, info, batchSize, cursor, treeSize, w, s, run);
  }

  // ---------------------------------------------------------------------------------------------
  // Catching up
  // ---------------------------------------------------------------------------------------------

  lemma {:induction false} RunsCompose(s: State, batchSize: nat, a: seq<Event>, b: seq<Event>)
    requires Legal(s, batchSize, a) && Legal(Play(s, batchSize, a), batchSize, b)
    ensures Legal(s, batchSize, a + b)
    ensures Play(s, batchSize, a + b) == Play(Play(s, batchSize, a), batchSize, b)
    decreases |b|
  {
    if b == [] {
      assert a + b == a;
    } else {
      hide Enabled, Next;
      RunsCompose(s, batchSize, a, b[..|b| - 1]);
      assert (a + b)[..|a + b| - 1] == a + b[..|b| - 1];
    }
  }

  /** Where that many ticks of at most `step` entries lead. */
  function CursorAfter(cursor: nat, step: nat, treeSize: nat, ticks: nat): nat
    decreases ticks
  {
    if ticks == 0 || treeSize <= cursor then cursor
    else CursorAfter(RangeEnd(cursor, step, treeSize), step, treeSize, ticks - 1)
  }

  /** A lone worker has caught up if and only if it has had ceil((n - c) / step) ticks. */
  lemma {:induction false} CatchUpExact(cursor: nat, step: nat, treeSize: nat, ticks: nat)
    requires step > 0 && cursor <= treeSize
    ensures CursorAfter(cursor, step, treeSize, ticks) <= treeSize
    ensures CursorAfter(cursor, step, treeSize, ticks) == treeSize <==> treeSize - cursor <= ticks * step
    decreases ticks
  {
    if ticks > 0 && cursor < treeSize {
      var next := RangeEnd(cursor, step, treeSize);
      CatchUpExact(next, step, treeSize, ticks - 1);
      assert ticks * step == (ticks - 1) * step + step;
      assert 0 <= (ticks - 1) * step;
    } else {
      assert 0 <= ticks * step;
    }
  }

  /** `run`, for that many ticks; errors are passed over. With nothing in its way and every entry decodable the
      worker ends where CursorAfter says. */
  method Run(server: CtServer, cursors: CursorTable, writer: WriterChannel, info: LogInfo, batchSize: nat,
             ticks: nat, ghost w: nat, ghost s: State)
    returns (ghost run: seq<Event>)
    requires batchSize > 0
    requires s.info == info && w in s.workers && s.workers[w].Idle? && Holds(s, server, cursors, writer)
    modifies cursors, writer
    ensures writer.open ==> old(writer.open)
    ensures Legal(s, batchSize, run) && Holds(Play(s, batchSize, run), server, cursors, writer)
    ensures Play(s, batchSize, run).workers == s.workers && s.cursor <= Play(s, batchSize, run).cursor
    ensures Healthy(server, cursors, writer) && 0 < s.cursor && AllDecode(s.log, s.cursor, |s.log|) ==>
            Play(s, batchSize, run).cursor
              == CursorAfter(s.cursor, Min(batchSize, server.cap), |s.log|, ticks)
  {
    hide Legal, Play, Next, Enabled, TimelineOf, CursorAfter;
    NoSteps(s, batchSize);
    run := [];
    ghost var now, step := s, Min(batchSize, server.cap);
    for i := 0 to ticks
      invariant Legal(s, batchSize, run) && now == Play(s, batchSize, run) && Holds(now, server, cursors, writer)
      invariant now.workers == s.workers && now.info == s.info && now.log == s.log && s.cursor <= now.cursor
      invariant writer.open ==> old(writer.open)
      invariant Healthy(server, cursors, writer) && 0 < s.cursor && AllDecode(s.log, s.cursor, |s.log|) ==>
        CursorAfter(now.cursor, step, |s.log|, ticks - i) == CursorAfter(s.cursor, step, |s.log|, ticks)
    {
      var _, more := Tick(server, cursors, writer, info, batchSize, w, now);
      RunsCompose(s, batchSize, run, more);
      TickMoves(now, batchSize, more, step, ticks - i);
      run, now := run + more, Play(now, batchSize, more);
    }
    CursorStays(now.cursor, step, |s.log|);
  }

  /** What a run of the machine leaves alone, and one unfolding of CursorAfter. */
  lemma TickMoves(s: State, batchSize: nat, run: seq<Event>, step: nat, ticks: nat)
    requires Legal(s, batchSize, run) && ticks > 0
    ensures Play(s, batchSize, run).info == s.info && s.cursor <= Play(s, batchSize, run).cursor
    ensures CursorAfter(s.cursor, step, |s.log|, ticks)
         == if |s.log| <= s.cursor then s.cursor
            else CursorAfter(RangeEnd(s.cursor, step, |s.log|), step, |s.log|, ticks - 1)
    ensures |s.log| <= s.cursor ==> CursorAfter(s.cursor, step, |s.log|, ticks - 1) == s.cursor
  {
    KeepsInfo(s, batchSize, run);
    CursorMonotone(s, batchSize, run, 0);
    assert run[..0] == [];
  }

  lemma {:induction false} KeepsInfo(s: State, batchSize: nat, run: seq<Event>)
    requires Legal(s, batchSize, run)
    ensures Play(s, batchSize, run).info == s.info
    decreases |run|
  {
    if run != [] {
      KeepsInfo(s, batchSize, run[..|run| - 1]);
    }
  }

  lemma CursorStays(cursor: nat, step: nat, treeSize: nat)
    ensures CursorAfter(cursor, step, treeSize, 0) == cursor
  {
  }
}
