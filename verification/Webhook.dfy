/** The webhook dispatcher: one loop that POSTs due outbox rows and marks them, while rows are enqueued and
    redelivered around it at any point and the process may die anywhere. */
module Webhook {
  import opened Wrappers
  import opened CertData
  import opened Outbox
  import opened Sets

  /** Where a row goes after its last attempt. */
  const PARK := 3650 * DAY
  const WINDOW: nat := 50

  function Pow4(k: nat): (p: nat)
    ensures p > 0
  {
    if k == 0 then 1 else 4 * Pow4(k - 1)
  }

  /** The wait after the k-th failure, in seconds. */
  function Delay(k: nat): (d: nat)
    ensures d > 0
  {
    Pow4(if k < 7 then k else 7)
  }

  /** `schedule_retry`: the next attempt of a row read with `attempts` attempts. */
  function RetryAt(maxAttempts: nat, attempts: nat, now: int): (t: int)
    ensures t > now
  {
    if attempts + 1 >= maxAttempts then now + PARK else now + Delay(attempts + 1) * SECOND
  }

  /** The waits in seconds after the first failures; later ones are like the last. */
  const WAITS: seq<nat> := [4, 16, 64, 256, 1_024, 4_096, 16_384]

  lemma DelayIs(k: nat)
    requires k >= 1
    ensures Delay(k) == WAITS[if k < 7 then k - 1 else 6]
  {
    assert Pow4(2) == 16 && Pow4(4) == 256 && Pow4(6) == 4_096;
  }

  predicate Success(status: nat) {
    200 <= status < 300
  }

  // ---------------------------------------------------------------------------------------------
  // The machine
  // ---------------------------------------------------------------------------------------------

  /** A POST: what was sent, and the status of the answer, 0 standing for no answer. */
  datatype Delivery = Delivery(row: DueRow, status: nat)

  /** What has happened to one row: how often it was selected into a window, POSTed, redelivered, POSTed without
      its mark being stored (`lost`), and selected but never POSTed because of a crash (`dropped`). */
  datatype History = History(selected: nat, posts: nat, redelivered: nat, lost: nat, dropped: nat)

  /** The history of a row of which nothing has been seen yet. */
  const UNSEEN := History(0, 0, 0, 0, 0)

  /** `queue` is the rest of the current window and `posted` the answer to the POST of its first row, if that
      has been made. `wire` is all that has been POSTed. `h` is the history of the row with id `watched`, any row
      one likes; `ticks` counts the windows so far and `waste` the selections that ended without a stored mark, of
      any row. */
  datatype State = State(
    rows: seq<Row>, now: int, queue: seq<DueRow>, posted: Option<nat>, wire: seq<Delivery>,
    watched: nat, h: History, ticks: nat, waste: nat)

  datatype Event =
    | Enqueue(eventId: nat, body: Message)
    | Redeliver(id: nat)
    | Pass(d: nat)
    | Tick(window: seq<DueRow>)
    | Post(status: nat)
    | Mark
    | MarkFails
    | Crash

  ghost predicate Enabled(s: State, e: Event) {
    match e
    case Enqueue(eventId, _) => Unused(s.rows, eventId)
    case Redeliver(id) => id < |s.rows|
    case Pass(_) => true
    case Tick(window) => s.queue == [] && s.posted.None? && IsWindow(s.rows, s.now, WINDOW, window)
    case Post(_) => s.queue != [] && s.posted.None?
    case Mark => s.queue != [] && s.posted.Some? && s.queue[0].id < |s.rows|
    case MarkFails => s.queue != [] && s.posted.Some?
    case Crash => s.posted.Some? ==> s.queue != []
  }

  function MarkedRow(maxAttempts: nat, row: Row, snapshot: DueRow, status: nat, now: int): Row {
    if Success(status) then Delivered(row, status, now)
    else Attempted(row, status, RetryAt(maxAttempts, snapshot.attempts, now), now)
  }

  /** 1 if the watched row has been POSTed and not yet marked, else 0. */
  ghost function InFlight(s: State): nat {
    if s.posted.Some? && s.queue != [] && s.queue[0].id == s.watched then 1 else 0
  }

  /** The rows of the window still to be POSTed. */
  ghost function Waiting(s: State): seq<DueRow> {
    if s.posted.Some? && s.queue != [] then s.queue[1..] else s.queue
  }

  function Occurs(id: nat, window: seq<DueRow>): nat {
    if exists k :: 0 <= k < |window| && window[k].id == id then 1 else 0
  }

  ghost function Next(s: State, maxAttempts: nat, e: Event): State
    requires Enabled(s, e)
  {
    match e
    case Enqueue(eventId, body) => s.(rows := s.rows + [NewRow(eventId, body, s.now)])
    case Redeliver(id) =>
      s.(rows := s.rows[id := Redelivered(s.rows[id], s.now)],
         h := if id == s.watched then s.h.(redelivered := s.h.redelivered + 1) else s.h)
    case Pass(d) => s.(now := s.now + d)
    case Tick(window) =>
      s.(queue := window, ticks := s.ticks + 1, h := s.h.(selected := s.h.selected + Occurs(s.watched, window)))
    case Post(status) =>
      s.(posted := Some(status), wire := s.wire + [Delivery(s.queue[0], status)],
         h := if s.queue[0].id == s.watched then s.h.(posts := s.h.posts + 1) else s.h)
    case Mark =>
      var id := s.queue[0].id;
      s.(rows := s.rows[id := MarkedRow(maxAttempts, s.rows[id], s.queue[0], s.posted.value, s.now)],
         queue := s.queue[1..], posted := None)
    case MarkFails =>
      s.(queue := s.queue[1..], posted := None, waste := s.waste + 1, h := s.h.(lost := s.h.lost + InFlight(s)))
    case Crash =>
      s.(queue := [], posted := None, waste := s.waste + |s.queue|,
         h := s.h.(lost := s.h.lost + InFlight(s), dropped := s.h.dropped + Occurs(s.watched, Waiting(s))))
  }

  ghost predicate Legal(s: State, maxAttempts: nat, run: seq<Event>)
    decreases |run|, 0
  {
    run == [] ||
    (Legal(s, maxAttempts, run[..|run| - 1]) && Enabled(Play(s, maxAttempts, run[..|run| - 1]), run[|run| - 1]))
  }

  ghost function Play(s: State, maxAttempts: nat, run: seq<Event>): State
    requires Legal(s, maxAttempts, run)
    decreases |run|, 1
  {
    if run == [] then s else Next(Play(s, maxAttempts, run[..|run| - 1]), maxAttempts, run[|run| - 1])
  }

  lemma Then(s: State, maxAttempts: nat, run: seq<Event>, now: State, e: Event) returns (run': seq<Event>, now': State)
    requires Legal(s, maxAttempts, run) && Play(s, maxAttempts, run) == now && Enabled(now, e)
    ensures run' == run + [e] && Legal(s, maxAttempts, run')
    ensures now' == Next(now, maxAttempts, e) == Play(s, maxAttempts, run')
  {
    run', now' := run + [e], Next(now, maxAttempts, e);
    assert run'[..|run|] == run;
  }

  // ---------------------------------------------------------------------------------------------
  // What every reachable state satisfies
  // ---------------------------------------------------------------------------------------------

  /** The window holds different pending rows, each due and as it was read. */
  ghost predicate QueueInv(s: State) {
    && (s.posted.Some? ==> s.queue != [])
    && (forall k :: 0 <= k < |s.queue| ==>
          ReadFrom(s.rows, s.queue[k]) && IsDue(s.rows[s.queue[k].id], s.now))
    && (forall j, k :: 0 <= j < k < |s.queue| ==> s.queue[j].id != s.queue[k].id)
  }

  /** How many of these POSTs were of the row. */
  function PostsOf(wire: seq<Delivery>, id: nat): nat {
    if wire == [] then 0
    else PostsOf(wire[..|wire| - 1], id) + if wire[|wire| - 1].row.id == id then 1 else 0
  }

  /** What has been POSTed are rows of the table, each with the event id and the body that it still has; the last of
      it is the row in flight. */
  ghost predicate WireInv(s: State) {
    && (forall j :: 0 <= j < |s.wire| ==>
          && s.wire[j].row.id < |s.rows|
          && s.wire[j].row.eventId == s.rows[s.wire[j].row.id].eventId
          && s.wire[j].row.body == s.rows[s.wire[j].row.id].body)
    && (s.posted.Some? && s.queue != [] ==>
          s.wire != [] && s.wire[|s.wire| - 1] == Delivery(s.queue[0], s.posted.value))
  }

  /** What a row says of its attempts: nothing before the first; then the time of the last one that was marked, and the
      answer to it, which was 2xx if the row is delivered. */
  ghost predicate Tells(row: Row, id: nat, wire: seq<Delivery>, now: int) {
    && row.createdAt <= now
    && (row.attempts == 0 ==> row.lastAttempt.None? && row.lastStatus.None? && row.deliveredAt.None?)
    && (row.attempts > 0 ==>
          && row.lastAttempt.Some? && row.lastStatus.Some? && row.createdAt <= row.lastAttempt.value <= now
          && exists j :: 0 <= j < |wire| && wire[j].row.id == id && wire[j].row.attempts == row.attempts - 1
                         && wire[j].status == row.lastStatus.value)
    && (row.deliveredAt.Some? ==>
          row.deliveredAt == row.lastAttempt && row.lastStatus.Some? && 200 <= row.lastStatus.value < 300)
  }

  ghost predicate RowsInv(s: State) {
    forall i :: 0 <= i < |s.rows| ==> Tells(s.rows[i], i, s.wire, s.now)
  }

  /** Every POST of a row is marked on the row, lost, or in flight; every selection is POSTed, waiting or dropped. */
  ghost predicate HistoryInv(s: State) {
    PostsInv(s) && SelectedInv(s) && s.h.posts == PostsOf(s.wire, s.watched)
  }

  ghost predicate SelectedInv(s: State) {
    s.h.selected == s.h.posts + Occurs(s.watched, Waiting(s)) + s.h.dropped
  }

  ghost predicate PostsInv(s: State) {
    && s.h.posts == (if s.watched < |s.rows| then s.rows[s.watched].attempts else 0) + s.h.lost + InFlight(s)
    && (s.watched >= |s.rows| ==> s.h == UNSEEN)
  }

  /** A row that was never redelivered is pending unless its last answer was 2xx. It is due at once, then 4, 16, 64 ...
      seconds after its last attempt, and ten years after it once it has had as many as there may be. */
  ghost predicate OnSchedule(row: Row, maxAttempts: nat) {
    && (row.attempts == 0 ==> row.nextAttempt == row.createdAt)
    && (row.attempts > 0 ==>
          && row.lastAttempt.Some? && row.lastStatus.Some?
          && (row.deliveredAt.None? <==> !(200 <= row.lastStatus.value < 300))
          && (row.deliveredAt.None? ==>
                row.nextAttempt == row.lastAttempt.value
                  + if row.attempts >= maxAttempts then 3650 * 86_400 * 1_000_000
                    else WAITS[if row.attempts < 7 then row.attempts - 1 else 6] * 1_000_000))
  }

  ghost predicate ScheduleInv(s: State, maxAttempts: nat) {
    s.watched < |s.rows| && s.h.redelivered == 0 ==> OnSchedule(s.rows[s.watched], maxAttempts)
  }

  ghost predicate RecordInv(s: State) {
    WireInv(s) && RowsInv(s)
  }

  ghost predicate Inv(s: State, maxAttempts: nat) {
    UniqueEvents(s.rows) && QueueInv(s) && HistoryInv(s) && ScheduleInv(s, maxAttempts) && RecordInv(s)
  }

  /** A dispatcher starting on an empty outbox. */
  ghost predicate Start(s: State) {
    s == State([], s.now, [], None, [], s.watched, UNSEEN, 0, 0)
  }

  lemma StepKeepsQueueInv(s: State, maxAttempts: nat, e: Event)
    requires QueueInv(s) && Enabled(s, e)
    ensures QueueInv(Next(s, maxAttempts, e))
  {
    hide RetryAt;
  }

  lemma StepKeepsPostsInv(s: State, maxAttempts: nat, e: Event)
    requires QueueInv(s) && PostsInv(s) && Enabled(s, e)
    ensures PostsInv(Next(s, maxAttempts, e))
  {
    assert e.Tick? ==> forall k :: 0 <= k < |e.window| ==> Ids(e.window)[k] < |s.rows|;
  }

  lemma StepKeepsSelectedInv(s: State, maxAttempts: nat, e: Event)
    requires QueueInv(s) && SelectedInv(s) && Enabled(s, e)
    ensures SelectedInv(Next(s, maxAttempts, e))
  {
    if e.Post? {
      assert s.queue == [s.queue[0]] + s.queue[1..];
    }
  }

  lemma PostsNext(wire: seq<Delivery>, d: Delivery, id: nat)
    ensures PostsOf(wire + [d], id) == PostsOf(wire, id) + if d.row.id == id then 1 else 0
  {
    assert (wire + [d])[..|wire|] == wire;
  }

  lemma StepKeepsHistoryInv(s: State, maxAttempts: nat, e: Event)
    requires QueueInv(s) && HistoryInv(s) && Enabled(s, e)
    ensures HistoryInv(Next(s, maxAttempts, e))
  {
    hide PostsInv, SelectedInv, PostsOf, Picks, RetryAt;
    StepKeepsPostsInv(s, maxAttempts, e);
    StepKeepsSelectedInv(s, maxAttempts, e);
    if e.Post? {
      PostsNext(s.wire, Delivery(s.queue[0], e.status), s.watched);
    }
  }

  lemma StepKeepsWireInv(s: State, maxAttempts: nat, e: Event)
    requires QueueInv(s) && WireInv(s) && Enabled(s, e)
    ensures WireInv(Next(s, maxAttempts, e))
  {
    hide Picks, RetryAt;
  }

  /** A mark stores the answer of the POST in flight. */
  lemma MarkTells(maxAttempts: nat, row: Row, id: nat, wire: seq<Delivery>, now: int)
    requires Tells(row, id, wire, now) && row.deliveredAt.None?
    requires wire != [] && wire[|wire| - 1].row.id == id && wire[|wire| - 1].row.attempts == row.attempts
    ensures var last := wire[|wire| - 1]; Tells(MarkedRow(maxAttempts, row, last.row, last.status, now), id, wire, now)
  {
    hide RetryAt;
  }

  lemma TellsStays(row: Row, id: nat, wire: seq<Delivery>, now: int, wire': seq<Delivery>, now': int)
    requires Tells(row, id, wire, now) && wire <= wire' && now <= now'
    ensures Tells(row, id, wire', now')
  {
    if row.attempts > 0 {
      var j :| 0 <= j < |wire| && wire[j].row.id == id && wire[j].row.attempts == row.attempts - 1
               && wire[j].status == row.lastStatus.value;
      assert wire'[j] == wire[j];
    }
  }

  lemma StepKeepsRowsInv(s: State, maxAttempts: nat, e: Event)
    requires QueueInv(s) && WireInv(s) && RowsInv(s) && Enabled(s, e)
    ensures RowsInv(Next(s, maxAttempts, e))
  {
    hide Picks, Tells, MarkedRow;
    var s' := Next(s, maxAttempts, e);
    forall i | 0 <= i < |s'.rows|
      ensures Tells(s'.rows[i], i, s'.wire, s'.now)
    {
      if i < |s.rows| {
        TellsStays(s.rows[i], i, s.wire, s.now, s'.wire, s'.now);
        if e.Mark? && s.queue[0].id == i {
          assert ReadFrom(s.rows, s.queue[0]);
          MarkTells(maxAttempts, s.rows[i], i, s.wire, s.now);
        } else if e.Redeliver? {
          RedeliveredTells(s.rows[i], i, s.wire, s.now);
        }
      } else {
        NewRowTells(e.eventId, e.body, i, s.wire, s.now);
      }
    }
  }

  lemma RedeliveredTells(row: Row, id: nat, wire: seq<Delivery>, now: int)
    requires Tells(row, id, wire, now)
    ensures Tells(Redelivered(row, now), id, wire, now)
  {
  }

  lemma NewRowTells(eventId: nat, body: Message, id: nat, wire: seq<Delivery>, now: int)
    ensures Tells(NewRow(eventId, body, now), id, wire, now)
  {
  }

  /** A failure is followed by the wait that the table has for it. */
  lemma MarkOnSchedule(maxAttempts: nat, row: Row, snapshot: DueRow, status: nat, now: int)
    requires snapshot.attempts == row.attempts && row.deliveredAt.None?
    ensures OnSchedule(MarkedRow(maxAttempts, row, snapshot, status, now), maxAttempts)
  {
    hide Delay;
    DelayIs(row.attempts + 1);
  }

  lemma StepKeepsScheduleInv(s: State, maxAttempts: nat, e: Event)
    requires QueueInv(s) && HistoryInv(s) && ScheduleInv(s, maxAttempts) && Enabled(s, e)
    ensures ScheduleInv(Next(s, maxAttempts, e), maxAttempts)
  {
    hide Picks, MarkedRow, SelectedInv, PostsOf;
    if e.Mark? {
      assert ReadFrom(s.rows, s.queue[0]);
      MarkOnSchedule(maxAttempts, s.rows[s.queue[0].id], s.queue[0], s.posted.value, s.now);
    }
  }

  lemma StepKeepsInv(s: State, maxAttempts: nat, e: Event)
    requires Inv(s, maxAttempts) && Enabled(s, e)
    ensures Inv(Next(s, maxAttempts, e), maxAttempts)
  {
    hide HistoryInv, ScheduleInv, WireInv, RowsInv, QueueInv, Picks;
    StepKeepsQueueInv(s, maxAttempts, e);
    StepKeepsHistoryInv(s, maxAttempts, e);
    StepKeepsScheduleInv(s, maxAttempts, e);
    StepKeepsWireInv(s, maxAttempts, e);
    StepKeepsRowsInv(s, maxAttempts, e);
  }

  lemma StartInv(s: State, maxAttempts: nat)
    requires Start(s)
    ensures Inv(s, maxAttempts)
  {
  }

  lemma {:induction false} RunKeepsInv(s: State, maxAttempts: nat, run: seq<Event>)
    requires Inv(s, maxAttempts) && Legal(s, maxAttempts, run)
    ensures Inv(Play(s, maxAttempts, run), maxAttempts)
    decreases |run|
  {
    if run != [] {
      RunKeepsInv(s, maxAttempts, run[..|run| - 1]);
      StepKeepsInv(Play(s, maxAttempts, run[..|run| - 1]), maxAttempts, run[|run| - 1]);
    }
  }

  /** What no step takes back. */
  ghost predicate Grows(s: State, s': State) {
    && s.watched == s'.watched && s.now <= s'.now && s.ticks <= s'.ticks
    && 0 <= s'.h.dropped - s.h.dropped <= s'.waste - s.waste
    && s.h.selected <= s'.h.selected && s.h.redelivered <= s'.h.redelivered
    && RowsKept(s.rows, s'.rows) && s.wire <= s'.wire
  }

  /** No row disappears, and event ids and bodies stay as enqueued. */
  ghost predicate RowsKept(rows: seq<Row>, rows': seq<Row>) {
    && |rows| <= |rows'|
    && forall i :: 0 <= i < |rows| ==>
         rows[i].eventId == rows'[i].eventId && rows[i].body == rows'[i].body && rows[i].attempts <= rows'[i].attempts
  }

  lemma StepGrows(s: State, maxAttempts: nat, e: Event)
    requires Enabled(s, e)
    ensures Grows(s, Next(s, maxAttempts, e))
  {
    hide Picks, RetryAt;
  }

  lemma {:induction false} RunGrows(s: State, maxAttempts: nat, run: seq<Event>)
    requires Legal(s, maxAttempts, run)
    ensures Grows(s, Play(s, maxAttempts, run))
    decreases |run|
  {
    hide Next, Enabled;
    if run != [] {
      RunGrows(s, maxAttempts, run[..|run| - 1]);
      StepGrows(Play(s, maxAttempts, run[..|run| - 1]), maxAttempts, run[|run| - 1]);
    }
  }

  /** At least once: in every reachable state what has been POSTed of a row are its stored attempts, plus marks that
      were lost, plus one if in flight; it was POSTed, and answered with 2xx, if it reads delivered. */
  lemma AtLeastOnce(s: State, maxAttempts: nat, run: seq<Event>)
    requires Start(s) && Legal(s, maxAttempts, run)
    ensures var s' := Play(s, maxAttempts, run);
            s'.watched < |s'.rows| ==>
              && s'.h.posts == PostsOf(s'.wire, s'.watched)
              && s'.h.posts == s'.rows[s'.watched].attempts + s'.h.lost + InFlight(s')
              && s'.h.selected == s'.h.posts + Occurs(s'.watched, Waiting(s')) + s'.h.dropped
              && (s'.rows[s'.watched].deliveredAt.Some? ==>
                    exists j :: 0 <= j < |s'.wire| && s'.wire[j].row.id == s'.watched && 200 <= s'.wire[j].status < 300)
  {
    RunKeepsInv(s, maxAttempts, run);
    var s' := Play(s, maxAttempts, run);
    if s'.watched < |s'.rows| {
      assert Tells(s'.rows[s'.watched], s'.watched, s'.wire, s'.now);
    }
  }

  /** Nothing is mixed up: whatever has ever been POSTed under the id of a row is that row's event id and body. */
  lemma PostedIsEnqueued(s: State, maxAttempts: nat, run: seq<Event>, j: nat)
    requires Start(s) && Legal(s, maxAttempts, run) && j < |Play(s, maxAttempts, run).wire|
    ensures var s' := Play(s, maxAttempts, run); var sent := s'.wire[j].row;
      sent.id < |s'.rows| && sent.eventId == s'.rows[sent.id].eventId && sent.body == s'.rows[sent.id].body
  {
    RunKeepsInv(s, maxAttempts, run);
  }

  /** What the table says of a row is what happened: before its first attempt nothing; then the time of its last stored
      attempt and the status a POST of it was answered with, and it reads delivered only if that was 2xx, since that
      attempt. */
  lemma RowsTell(s: State, maxAttempts: nat, run: seq<Event>, id: nat)
    requires Start(s) && Legal(s, maxAttempts, run) && id < |Play(s, maxAttempts, run).rows|
    ensures var s' := Play(s, maxAttempts, run); var row := s'.rows[id];
      && row.createdAt <= s'.now
      && (row.attempts == 0 ==> row.lastAttempt.None? && row.lastStatus.None? && row.deliveredAt.None?)
      && (row.attempts > 0 ==>
            && row.lastAttempt.Some? && row.lastStatus.Some? && row.createdAt <= row.lastAttempt.value <= s'.now
            && exists j :: 0 <= j < |s'.wire| && s'.wire[j].row.id == id && s'.wire[j].row.attempts == row.attempts - 1
                           && s'.wire[j].status == row.lastStatus.value)
      && (row.deliveredAt.Some? ==> row.deliveredAt == row.lastAttempt && 200 <= row.lastStatus.value < 300)
  {
    hide Inv, Legal, Play, Start;
    InvTells(s, maxAttempts, run, id);
  }

  lemma InvTells(s: State, maxAttempts: nat, run: seq<Event>, id: nat)
    requires Start(s) && Legal(s, maxAttempts, run) && id < |Play(s, maxAttempts, run).rows|
    ensures var s' := Play(s, maxAttempts, run); Tells(s'.rows[id], id, s'.wire, s'.now)
  {
    RunKeepsInv(s, maxAttempts, run);
  }

  /** A mark that fails, or a crash before it, leaves the POSTed row pending and due. */
  lemma LostMarkStaysDue(s: State, maxAttempts: nat, e: Event)
    requires Inv(s, maxAttempts) && Enabled(s, e) && s.posted.Some? && (e.MarkFails? || e.Crash?)
    ensures var s' := Next(s, maxAttempts, e); IsDue(s'.rows[s.queue[0].id], s'.now) && s'.rows == s.rows
  {
    hide HistoryInv, ScheduleInv, RecordInv, Picks, MarkedRow, Occurs;
    assert ReadFrom(s.rows, s.queue[0]);
  }

  // ---------------------------------------------------------------------------------------------
  // Bound on the attempts
  // ---------------------------------------------------------------------------------------------

  function Max(a: int, b: int): int {
    if a < b then b else a
  }

  /** How many more POSTs a row may get before `horizon` without being redelivered. */
  function Remaining(row: Row, maxAttempts: nat, horizon: int): int {
    if !Pending(row) || row.nextAttempt >= horizon then 0 else Max(1, maxAttempts - row.attempts)
  }

  ghost predicate Budget(s: State, maxAttempts: nat, horizon: int) {
    s.watched < |s.rows| ==>
      s.rows[s.watched].attempts + Remaining(s.rows[s.watched], maxAttempts, horizon)
        <= Max(maxAttempts, 1) + s.h.redelivered
  }

  lemma StepKeepsBudget(s: State, maxAttempts: nat, e: Event, horizon: int)
    requires QueueInv(s) && HistoryInv(s) && Enabled(s, e)
    requires s.now < horizon <= s.now + PARK && Budget(s, maxAttempts, horizon)
    ensures Budget(Next(s, maxAttempts, e), maxAttempts, horizon)
  {
    hide Picks, Delay;
  }

  lemma PostsWithinBudget(s: State, maxAttempts: nat, horizon: int)
    requires QueueInv(s) && HistoryInv(s) && Budget(s, maxAttempts, horizon) && s.now < horizon
    ensures s.h.posts <= Max(maxAttempts, 1) + s.h.redelivered + s.h.lost
  {
  }

  lemma {:induction false} RunKeepsBudget(s: State, maxAttempts: nat, run: seq<Event>)
    requires Start(s) && Legal(s, maxAttempts, run)
    requires Play(s, maxAttempts, run).now < s.now + PARK
    ensures Budget(Play(s, maxAttempts, run), maxAttempts, s.now + PARK)
    decreases |run|
  {
    hide Next, Enabled, QueueInv, HistoryInv, ScheduleInv, RowsKept;
    if run != [] {
      var before := Play(s, maxAttempts, run[..|run| - 1]);
      StartInv(s, maxAttempts);
      RunKeepsInv(s, maxAttempts, run[..|run| - 1]);
      RunGrows(s, maxAttempts, run[..|run| - 1]);
      StepGrows(before, maxAttempts, run[|run| - 1]);
      RunKeepsBudget(s, maxAttempts, run[..|run| - 1]);
      StepKeepsBudget(before, maxAttempts, run[|run| - 1], s.now + PARK);
    }
  }

  /** A row is POSTed at most max(M, 1) times, once more for every redelivery, and once more for every mark that
      was not stored, in any run shorter than the park. */
  lemma AttemptBound(s: State, maxAttempts: nat, run: seq<Event>)
    requires Start(s) && Legal(s, maxAttempts, run)
    requires Play(s, maxAttempts, run).now < s.now + 3650 * 86_400 * 1_000_000
    ensures var h := Play(s, maxAttempts, run).h; h.posts <= Max(maxAttempts, 1) + h.redelivered + h.lost
  {
    StartInv(s, maxAttempts);
    RunKeepsInv(s, maxAttempts, run);
    RunKeepsBudget(s, maxAttempts, run);
    PostsWithinBudget(Play(s, maxAttempts, run), maxAttempts, s.now + PARK);
  }

  // ---------------------------------------------------------------------------------------------
  // The retry schedule
  // ---------------------------------------------------------------------------------------------

  /** The waits before the k-th attempt, in seconds. */
  function TotalDelay(k: nat): nat {
    if k <= 1 then 0 else TotalDelay(k - 1) + Delay(k - 1)
  }

  /** Geometric up to the eighth attempt, linear after. */
  lemma {:induction false} TotalDelayClosed(k: nat)
    requires k >= 1
    ensures k <= 8 ==> 3 * TotalDelay(k) == Pow4(k) - 4
    ensures k >= 8 ==> TotalDelay(k) == 21_844 + (k - 8) * 16_384
  {
    if k > 1 {
      TotalDelayClosed(k - 1);
      DelayIs(k - 1);
      DelayIs(7);
    }
  }

  /** The next attempt of a row that was never redelivered comes no earlier than the waits before it add up to. */
  ghost predicate NotEarly(s: State, maxAttempts: nat) {
    s.watched < |s.rows| && s.h.redelivered == 0 && s.rows[s.watched].attempts <= maxAttempts ==>
      var row := s.rows[s.watched];
      && (Pending(row) && row.attempts < Max(maxAttempts, 1) ==>
            row.nextAttempt >= row.createdAt + TotalDelay(row.attempts + 1) * SECOND)
      && (row.attempts > 0 ==>
            row.lastAttempt.Some? && row.lastAttempt.value >= row.createdAt + TotalDelay(row.attempts) * SECOND)
  }

  lemma StepKeepsNotEarly(s: State, maxAttempts: nat, e: Event)
    requires QueueInv(s) && HistoryInv(s) && NotEarly(s, maxAttempts) && Enabled(s, e)
    ensures NotEarly(Next(s, maxAttempts, e), maxAttempts)
  {
    hide Picks, Delay;
  }

  lemma {:induction false} RunKeepsNotEarly(s: State, maxAttempts: nat, run: seq<Event>)
    requires Start(s) && Legal(s, maxAttempts, run)
    ensures NotEarly(Play(s, maxAttempts, run), maxAttempts)
    decreases |run|
  {
    if run != [] {
      RunKeepsInv(s, maxAttempts, run[..|run| - 1]);
      RunKeepsNotEarly(s, maxAttempts, run[..|run| - 1]);
      StepKeepsNotEarly(Play(s, maxAttempts, run[..|run| - 1]), maxAttempts, run[|run| - 1]);
    }
  }

  /** The schedule, over every run, for a row that was never redelivered. It is pending until an attempt is answered
      with 2xx. After the k-th failure it waits for 4^min(k, 7) seconds, neither more nor less, and after the M-th for
      ten years; so no attempt comes sooner after it was enqueued than the waits before it add up to. */
  lemma ScheduleKept(s: State, maxAttempts: nat, run: seq<Event>)
    requires Start(s) && Legal(s, maxAttempts, run)
    requires var s' := Play(s, maxAttempts, run); s'.watched < |s'.rows| && s'.h.redelivered == 0
    ensures var s' := Play(s, maxAttempts, run); var row := s'.rows[s'.watched];
      && (row.attempts == 0 ==> row.deliveredAt.None? && row.nextAttempt == row.createdAt)
      && (row.attempts > 0 ==>
            && row.lastAttempt.Some? && row.lastStatus.Some?
            && (row.deliveredAt.None? <==> !(200 <= row.lastStatus.value < 300))
            && (row.deliveredAt.None? ==>
                  row.nextAttempt == row.lastAttempt.value
                    + if row.attempts >= maxAttempts then 3650 * 86_400 * 1_000_000
                      else WAITS[if row.attempts < 7 then row.attempts - 1 else 6] * 1_000_000)
            && (row.attempts <= maxAttempts ==>
                  row.lastAttempt.value >= row.createdAt + TotalDelay(row.attempts) * 1_000_000))
  {
    StartInv(s, maxAttempts);
    RunKeepsInv(s, maxAttempts, run);
    RunGrows(s, maxAttempts, run);
    RunKeepsNotEarly(s, maxAttempts, run);
    InvTells(s, maxAttempts, run, Play(s, maxAttempts, run).watched);
  }

  // ---------------------------------------------------------------------------------------------
  // The bound is attained
  // ---------------------------------------------------------------------------------------------

  /** The only row of this outbox has been POSTed `k` times, and was answered with 500 each time. */
  ghost predicate Failed(s: State, createdAt: int, k: nat) {
    && |s.rows| == 1 && s.watched == 0 && s.queue == [] && s.posted.None?
    && s.rows[0].deliveredAt.None? && s.rows[0].attempts == k && s.rows[0].createdAt == createdAt
    && s.h.posts == k && s.h.redelivered == 0 && s.h.lost == 0
    && |s.wire| == k && forall j :: 0 <= j < k ==> s.wire[j].row.id == 0 && s.wire[j].status == 500
  }

  lemma OnlyRowIsWindow(s: State)
    requires |s.rows| == 1 && IsDue(s.rows[0], s.now)
    ensures IsWindow(s.rows, s.now, WINDOW, [Snapshot(s.rows, 0)])
  {
    assert Ids([Snapshot(s.rows, 0)]) == [0];
  }

  /** It is due, and fails once more. */
  lemma FailOnce(s: State, maxAttempts: nat, run: seq<Event>, now: State, createdAt: int, k: nat)
    returns (run': seq<Event>, now': State)
    requires Legal(s, maxAttempts, run) && Play(s, maxAttempts, run) == now
    requires Failed(now, createdAt, k) && now.rows[0].nextAttempt <= now.now
    ensures Legal(s, maxAttempts, run') && Play(s, maxAttempts, run') == now'
    ensures Failed(now', createdAt, k + 1) && now'.now == now.now
    ensures now'.rows[0].lastAttempt == Some(now.now) && now'.rows[0].nextAttempt == RetryAt(maxAttempts, k, now.now)
  {
    hide RetryAt, IsWindow;
    OnlyRowIsWindow(now);
    run', now' := Then(s, maxAttempts, run, now, Tick([Snapshot(now.rows, 0)]));
    run', now' := Then(s, maxAttempts, run', now', Post(500));
    run', now' := Then(s, maxAttempts, run', now', Mark);
  }

  /** And so on, as soon as it is due each time, until there are no more attempts. */
  lemma {:induction false} FailUntilParked(s: State, maxAttempts: nat, run: seq<Event>, now: State, createdAt: int,
                                          k: nat)
    returns (run': seq<Event>, now': State)
    requires Legal(s, maxAttempts, run) && Play(s, maxAttempts, run) == now
    requires Failed(now, createdAt, k) && k < Max(maxAttempts, 1)
    requires now.rows[0].nextAttempt <= now.now == createdAt + TotalDelay(k + 1) * SECOND
    ensures Legal(s, maxAttempts, run') && Play(s, maxAttempts, run') == now'
    ensures var n := Max(maxAttempts, 1);
      && Failed(now', createdAt, n) && now'.now == createdAt + TotalDelay(n) * SECOND
      && now'.rows[0].lastAttempt == Some(now'.now)
    decreases Max(maxAttempts, 1) - k
  {
    hide Legal, Play, Delay;
    run', now' := FailOnce(s, maxAttempts, run, now, createdAt, k);
    if k + 1 < Max(maxAttempts, 1) {
      run', now' := Then(s, maxAttempts, run', now', Pass(Delay(k + 1) * SECOND));
      run', now' := FailUntilParked(s, maxAttempts, run', now', createdAt, k + 1);
    }
  }

  /** The bound on the POSTs is no smaller: a row that always fails is POSTed max(M, 1) times, the last time once
      exactly the waits between them have passed. */
  lemma BoundAttained(s: State, maxAttempts: nat, eventId: nat, body: Message) returns (run: seq<Event>)
    requires Start(s) && s.watched == 0
    ensures Legal(s, maxAttempts, run)
    ensures var s', n := Play(s, maxAttempts, run), Max(maxAttempts, 1);
      && s'.h.posts == |s'.wire| == n && s'.h.redelivered == 0 && s'.h.lost == 0
      && (forall j :: 0 <= j < n ==> s'.wire[j].row.id == 0 && s'.wire[j].status == 500)
      && |s'.rows| == 1 && s'.rows[0].createdAt == s.now
      && s'.now == s.now + TotalDelay(n) * 1_000_000 && s'.rows[0].lastAttempt == Some(s'.now)
  {
    NoSteps(s, maxAttempts);
    var now := s;
    run, now := Then(s, maxAttempts, [], now, Enqueue(eventId, body));
    run, now := FailUntilParked(s, maxAttempts, run, now, s.now, 0);
  }

  /** In every run that is shorter than ten years, without redeliveries and with all marks stored, a row is POSTed at
      most `n` times. */
  ghost predicate PostsAtMost(maxAttempts: nat, n: nat) {
    forall s, run :: Start(s) && Legal(s, maxAttempts, run) &&
                     Play(s, maxAttempts, run).now < s.now + 3650 * 86_400 * 1_000_000 &&
                     Play(s, maxAttempts, run).h.redelivered == 0 && Play(s, maxAttempts, run).h.lost == 0
      ==> Play(s, maxAttempts, run).h.posts <= n
  }

  /** So max(M, 1) is the exact bound, as long as the schedule itself is shorter than that. */
  lemma AttemptBoundExact(maxAttempts: nat, n: nat)
    requires TotalDelay(Max(maxAttempts, 1)) < 3650 * 86_400
    ensures PostsAtMost(maxAttempts, n) <==> n >= Max(maxAttempts, 1)
  {
    hide Legal, Play, TotalDelay;
    if n >= Max(maxAttempts, 1) {
      forall s, run | Start(s) && Legal(s, maxAttempts, run) &&
                      Play(s, maxAttempts, run).now < s.now + 3650 * 86_400 * 1_000_000 &&
                      Play(s, maxAttempts, run).h.redelivered == 0 && Play(s, maxAttempts, run).h.lost == 0
        ensures Play(s, maxAttempts, run).h.posts <= n
      {
        AttemptBound(s, maxAttempts, run);
      }
    } else {
      var row := CertRow([], [], "", 0, 0, [], []);
      var s := State([], 0, [], None, [], 0, UNSEEN, 0, 0);
      var run := BoundAttained(s, maxAttempts, 0, Message(0, Alert(0, [], row)));
    }
  }

  // ---------------------------------------------------------------------------------------------
  // Bounded wait
  // ---------------------------------------------------------------------------------------------

  /** The other undelivered rows that come at or before `key`. */
  ghost function Ahead(rows: seq<Row>, id: nat, key: int): set<nat> {
    set i: nat | i < |rows| && i != id && Pending(rows[i]) && rows[i].nextAttempt <= key
  }

  function Elements(ids: seq<nat>): set<nat> {
    set i | i in ids
  }

  /** Those of them that the current window does not hold. */
  ghost function Outside(s: State, key: int): set<nat> {
    Ahead(s.rows, s.watched, key) - Elements(Ids(s.queue))
  }

  /** While the watched row is due and has not been selected, every window takes WINDOW rows from those ahead
      of it, and only unmarked selections come back. */
  ghost predicate WaitInv(s: State, key: int, ahead: nat, ticks: nat, waste: nat) {
    && s.watched < |s.rows| && Pending(s.rows[s.watched]) && s.rows[s.watched].nextAttempt == key < s.now
    && s.watched !in Ids(s.queue)
    && |Outside(s, key)| + WINDOW * (s.ticks - ticks) <= ahead + (s.waste - waste)
  }

  lemma {:induction false} ElementsSize(ids: seq<nat>)
    ensures |Elements(ids)| <= |ids|
    ensures (forall j, k :: 0 <= j < k < |ids| ==> ids[j] != ids[k]) ==> |Elements(ids)| == |ids|
  {
    if ids != [] {
      ElementsSize(ids[1..]);
      assert Elements(ids) == Elements(ids[1..]) + {ids[0]};
    }
  }

  lemma WindowTakesFromAhead(s: State, maxAttempts: nat, window: seq<DueRow>, key: int, ahead: nat,
                             ticks: nat, waste: nat)
    requires WaitInv(s, key, ahead, ticks, waste) && Enabled(s, Tick(window)) && s.watched !in Ids(window)
    ensures WaitInv(Next(s, maxAttempts, Tick(window)), key, ahead, ticks, waste)
  {
    var a, w := Ahead(s.rows, s.watched, key), Elements(Ids(window));
    assert IsDue(s.rows[s.watched], s.now) && |window| == WINDOW;
    ElementsSize(Ids(window));
    assert w <= a;
    assert Elements(Ids(s.queue)) == {} && Outside(s, key) == a;
    assert |a - w| == |a| - |w|;
  }

  lemma TickSelects(s: State, maxAttempts: nat, window: seq<DueRow>)
    requires Enabled(s, Tick(window)) && s.watched in Ids(window)
    ensures Next(s, maxAttempts, Tick(window)).h.selected == s.h.selected + 1
  {
    var k :| 0 <= k < |window| && Ids(window)[k] == s.watched;
    assert window[k].id == s.watched;
  }

  /** What a step other than a tick may bring back in front of the watched row. */
  ghost function Returned(s: State, e: Event): set<nat> {
    match e
    case MarkFails => if s.queue == [] then {} else {s.queue[0].id}
    case Crash => Elements(Ids(s.queue))
    case _ => {}
  }

  lemma AheadShrinks(s: State, maxAttempts: nat, e: Event, key: int, i: nat)
    requires Enabled(s, e) && !e.Tick? && key < s.now
    requires i in Ahead(Next(s, maxAttempts, e).rows, s.watched, key)
    ensures i in Ahead(s.rows, s.watched, key) && (e.Mark? ==> i != s.queue[0].id)
  {
    hide Picks;
  }

  lemma LeavesQueue(s: State, maxAttempts: nat, e: Event, i: nat)
    requires Enabled(s, e) && !e.Tick? && i in Ids(s.queue) && i !in Ids(Next(s, maxAttempts, e).queue)
    ensures i in Returned(s, e) || (e.Mark? && i == s.queue[0].id)
  {
    hide Picks, RetryAt;
    if e.Mark? || e.MarkFails? {
      assert Ids(s.queue) == [s.queue[0].id] + Ids(s.queue[1..]);
    }
  }

  lemma StepOutside(s: State, maxAttempts: nat, e: Event, key: int, i: nat)
    requires Enabled(s, e) && !e.Tick? && key < s.now
    requires i in Outside(Next(s, maxAttempts, e), key)
    ensures i in Outside(s, key) || i in Returned(s, e)
  {
    StepGrows(s, maxAttempts, e);
    hide Next, Ahead, Enabled, RowsKept, Returned;
    AheadShrinks(s, maxAttempts, e, key, i);
    if i in Ids(s.queue) {
      LeavesQueue(s, maxAttempts, e, i);
    }
  }

  /** The watched row keeps its place, and what returns in front of it counts as waste. */
  lemma StepKeepsPlace(s: State, maxAttempts: nat, e: Event)
    requires QueueInv(s) && Enabled(s, e) && !e.Tick? && e != Redeliver(s.watched)
    requires s.watched < |s.rows| && s.watched !in Ids(s.queue)
    ensures var s' := Next(s, maxAttempts, e);
      && s'.watched == s.watched < |s'.rows| && s'.rows[s.watched] == s.rows[s.watched] && s.now <= s'.now
      && s'.watched !in Ids(s'.queue)
      && s'.ticks == s.ticks && s'.waste - s.waste >= |Returned(s, e)|
  {
    ElementsSize(Ids(s.queue));
    if s.queue != [] {
      assert Ids(s.queue) == [s.queue[0].id] + Ids(s.queue[1..]);
    }
  }

  lemma StepKeepsWaitInv(s: State, maxAttempts: nat, e: Event, key: int, ahead: nat, ticks: nat, waste: nat)
    requires QueueInv(s) && WaitInv(s, key, ahead, ticks, waste) && Enabled(s, e) && !e.Tick?
             && e != Redeliver(s.watched)
    ensures WaitInv(Next(s, maxAttempts, e), key, ahead, ticks, waste)
  {
    hide QueueInv, Enabled, Next, Outside, Returned;
    var s' := Next(s, maxAttempts, e);
    forall i | i in Outside(s', key)
      ensures i in Outside(s, key) || i in Returned(s, e)
    {
      StepOutside(s, maxAttempts, e, key, i);
    }
    SubsetSize(Outside(s', key), Outside(s, key) + Returned(s, e));
    StepKeepsPlace(s, maxAttempts, e);
  }

  /** Bounded wait. Take a due row whose time has strictly passed and that the current window does not hold, the
      `ahead` other rows in front of it outside that window, and any run in which it is not redelivered itself.
      However many rows are enqueued, retried or redelivered meanwhile, either it is selected into a window or the
      windows have only worked off the rows in front of it: fifty a window, less those that came back unmarked. */
  lemma {:induction false} BoundedWait(s: State, maxAttempts: nat, run: seq<Event>)
    requires Inv(s, maxAttempts) && Legal(s, maxAttempts, run) && s.watched !in Ids(s.queue)
    requires s.watched < |s.rows| && Pending(s.rows[s.watched]) && s.rows[s.watched].nextAttempt < s.now
    requires Redeliver(s.watched) !in run
    ensures var s', key := Play(s, maxAttempts, run), s.rows[s.watched].nextAttempt;
            var ahead := |Outside(s, key)|;
            || s'.h.selected > s.h.selected
            || (WaitInv(s', key, ahead, s.ticks, s.waste)
                && 50 * (s'.ticks - s.ticks) <= ahead + (s'.waste - s.waste))
    decreases |run|
  {
    var key := s.rows[s.watched].nextAttempt;
    var ahead := |Outside(s, key)|;
    hide Outside, Ahead, Next, QueueInv, HistoryInv, ScheduleInv, RowsKept, Picks;
    if run != [] {
      var before, e := Play(s, maxAttempts, run[..|run| - 1]), run[|run| - 1];
      BoundedWait(s, maxAttempts, run[..|run| - 1]);
      RunKeepsInv(s, maxAttempts, run[..|run| - 1]);
      RunGrows(s, maxAttempts, run[..|run| - 1]);
      StepGrows(before, maxAttempts, e);
      if before.h.selected == s.h.selected {
        if e.Tick? {
          if s.watched in Ids(e.window) {
            TickSelects(before, maxAttempts, e.window);
          } else {
            WindowTakesFromAhead(before, maxAttempts, e.window, key, ahead, s.ticks, s.waste);
          }
        } else {
          StepKeepsWaitInv(before, maxAttempts, e, key, ahead, s.ticks, s.waste);
        }
      }
    }
  }

  lemma WaitsInQueue(s: State)
    requires InFlight(s) == 0 && s.watched in Ids(s.queue)
    ensures Occurs(s.watched, Waiting(s)) == 1
  {
    var k :| 0 <= k < |s.queue| && Ids(s.queue)[k] == s.watched;
    assert s.posted.Some? ==> k > 0 && s.queue[1..][k - 1].id == s.watched;
  }

  /** Without crashes and lost marks, a row that is not in flight and has `ahead` rows in front of it outside the
      current window has been POSTed once ahead / 50 + 1 windows have been worked through, and at the end of the
      current one if that holds it. */
  lemma PostedWithinWindows(s: State, maxAttempts: nat, run: seq<Event>)
    requires Inv(s, maxAttempts) && Legal(s, maxAttempts, run) && InFlight(s) == 0
    requires s.watched < |s.rows| && Pending(s.rows[s.watched]) && s.rows[s.watched].nextAttempt < s.now
    requires Redeliver(s.watched) !in run
    requires var s', ahead := Play(s, maxAttempts, run), |Outside(s, s.rows[s.watched].nextAttempt)|;
             && s'.queue == [] && s'.waste == s.waste
             && (s.watched in Ids(s.queue) || s'.ticks - s.ticks > ahead / 50)
    ensures var s' := Play(s, maxAttempts, run);
      && s'.h.posts > s.h.posts
      && exists j :: |s.wire| <= j < |s'.wire| && s'.wire[j].row.id == s.watched
                     && s'.wire[j].row.eventId == s.rows[s.watched].eventId
                     && s'.wire[j].row.body == s.rows[s.watched].body
  {
    if s.watched in Ids(s.queue) {
      WaitsInQueue(s);
    } else {
      BoundedWait(s, maxAttempts, run);
    }
    RunKeepsInv(s, maxAttempts, run);
    RunGrows(s, maxAttempts, run);
    NewPostOf(s, Play(s, maxAttempts, run), maxAttempts);
  }

  lemma {:induction false} MorePosts(wire: seq<Delivery>, wire': seq<Delivery>, id: nat) returns (j: nat)
    requires wire <= wire' && PostsOf(wire', id) > PostsOf(wire, id)
    ensures |wire| <= j < |wire'| && wire'[j].row.id == id
  {
    assert |wire| == |wire'| ==> wire == wire';
    j := |wire'| - 1;
    if wire'[j].row.id != id {
      j := MorePosts(wire, wire'[..j], id);
    }
  }

  /** Where the watched row has been POSTed more often, there is a new POST, of its event id and body. */
  lemma NewPostOf(s: State, s': State, maxAttempts: nat)
    requires Inv(s, maxAttempts) && Inv(s', maxAttempts) && Grows(s, s') && s.watched < |s.rows|
    requires s'.h.posts > s.h.posts
    ensures exists j :: |s.wire| <= j < |s'.wire| && s'.wire[j].row.id == s.watched
                        && s'.wire[j].row.eventId == s.rows[s.watched].eventId
                        && s'.wire[j].row.body == s.rows[s.watched].body
  {
    hide PostsInv, SelectedInv, QueueInv, ScheduleInv, RowsInv, PostsOf;
    var j := MorePosts(s.wire, s'.wire, s.watched);
  }

  /** Redelivering a row that is already due sends it to the back: every other due row is then in front of it. */
  lemma RedeliveryLosesItsPlace(s: State, maxAttempts: nat)
    requires s.watched < |s.rows| && IsDue(s.rows[s.watched], s.now)
    ensures var s' := Next(s, maxAttempts, Redeliver(s.watched));
            && s'.rows[s.watched].nextAttempt == s.now
            && Ahead(s.rows, s.watched, s.rows[s.watched].nextAttempt) <= Ahead(s'.rows, s.watched, s.now)
            && forall i :: 0 <= i < |s.rows| && i != s.watched && IsDue(s.rows[i], s.now) ==>
               i in Ahead(s'.rows, s.watched, s.now)
  {
    assert Enabled(s, Redeliver(s.watched));
  }

  // ---------------------------------------------------------------------------------------------
  // A row that is redelivered again and again need never be POSTed
  // ---------------------------------------------------------------------------------------------

  /** Row WINDOW is watched. The WINDOW rows before it wait since `t` after `a` attempts; of these the first `j` have
      been POSTed in the current window, have failed, and wait until `t'`. */
  ghost predicate Crowd(s: State, a: nat, t: int, j: nat, t': int) {
    && j <= WINDOW && |s.rows| == WINDOW + 1 && s.watched == WINDOW && s.posted.None? && s.h.posts == 0
    && Pending(s.rows[WINDOW])
    && (forall i :: 0 <= i < j ==>
          Pending(s.rows[i]) && s.rows[i].attempts == a + 1 && s.rows[i].nextAttempt == t')
    && (forall i :: j <= i < WINDOW ==>
          Pending(s.rows[i]) && s.rows[i].attempts == a && s.rows[i].nextAttempt == t)
  }

  ghost predicate Queued(s: State, a: nat, j: nat) {
    && j <= WINDOW && |s.queue| == WINDOW - j
    && forall k :: 0 <= k < |s.queue| ==> s.queue[k].id == j + k && s.queue[k].attempts == a
  }

  /** Between two windows, with the watched row due and every other row in front of it. */
  ghost predicate Crowded(s: State, a: nat, t: int) {
    Crowd(s, a, t, 0, t) && s.queue == [] && t < s.rows[WINDOW].nextAttempt <= s.now
  }

  /** The window then is all the others. */
  lemma CrowdTakesWindow(s: State, maxAttempts: nat, a: nat, t: int) returns (window: seq<DueRow>)
    requires Crowded(s, a, t)
    ensures Enabled(s, Tick(window))
    ensures var s' := Next(s, maxAttempts, Tick(window));
      && Crowd(s', a, t, 0, t) && Queued(s', a, 0)
      && s'.now == s.now && s'.ticks == s.ticks + 1 && s'.waste == s.waste
      && s'.h.redelivered == s.h.redelivered
  {
    window := seq(WINDOW, i requires 0 <= i < WINDOW => Snapshot(s.rows, i));
    assert forall k :: 0 <= k < WINDOW ==> Ids(window)[k] == k;
  }

  /** The first row of the window is POSTed and fails. */
  lemma CrowdFailsOne(s: State, maxAttempts: nat, run: seq<Event>, now: State, a: nat, t: int, j: nat, t': int)
    returns (run': seq<Event>, now': State)
    requires Legal(s, maxAttempts, run) && Play(s, maxAttempts, run) == now
    requires Crowd(now, a, t, j, t') && Queued(now, a, j) && j < WINDOW && t' == RetryAt(maxAttempts, a, now.now)
    ensures Legal(s, maxAttempts, run') && Play(s, maxAttempts, run') == now'
    ensures Crowd(now', a, t, j + 1, t') && Queued(now', a, j + 1)
    ensures now'.now == now.now && now'.ticks == now.ticks && now'.waste == now.waste
    ensures now'.h.redelivered == now.h.redelivered
  {
    hide RetryAt;
    run', now' := Then(s, maxAttempts, run, now, Post(0));
    run', now' := Then(s, maxAttempts, run', now', Mark);
  }

  lemma {:induction false} CrowdFails(s: State, maxAttempts: nat, run: seq<Event>, now: State, a: nat, t: int,
                                     j: nat, t': int)
    returns (run': seq<Event>, now': State)
    requires Legal(s, maxAttempts, run) && Play(s, maxAttempts, run) == now
    requires Crowd(now, a, t, j, t') && Queued(now, a, j) && t' == RetryAt(maxAttempts, a, now.now)
    ensures Legal(s, maxAttempts, run') && Play(s, maxAttempts, run') == now'
    ensures Crowd(now', a, t, WINDOW, t') && now'.queue == []
    ensures now'.now == now.now && now'.ticks == now.ticks && now'.waste == now.waste
    ensures now'.h.redelivered == now.h.redelivered
    decreases WINDOW - j
  {
    hide Legal, Play, Crowd, RetryAt;
    run', now' := run, now;
    if j < WINDOW {
      run', now' := CrowdFailsOne(s, maxAttempts, run, now, a, t, j, t');
      run', now' := CrowdFails(s, maxAttempts, run', now', a, t, j + 1, t');
    }
  }

  /** When all of them are due again, the watched row is redelivered, and stands behind them once more. */
  lemma CrowdReturns(s: State, maxAttempts: nat, run: seq<Event>, now: State, a: nat, t: int, t': int)
    returns (run': seq<Event>, now': State)
    requires Legal(s, maxAttempts, run) && Play(s, maxAttempts, run) == now
    requires Crowd(now, a, t, WINDOW, t') && now.queue == [] && now.now < t'
    ensures Legal(s, maxAttempts, run') && Play(s, maxAttempts, run') == now'
    ensures Crowded(now', a + 1, t') && now'.ticks == now.ticks && now'.waste == now.waste
    ensures now'.h.redelivered == now.h.redelivered + 1
  {
    run', now' := Then(s, maxAttempts, run, now, Pass(t' - now.now + 1));
    run', now' := Then(s, maxAttempts, run', now', Redeliver(WINDOW));
  }

  /** One window: the others are POSTed and fail. */
  lemma CrowdRound(s: State, maxAttempts: nat, run: seq<Event>, now: State, a: nat, t: int)
    returns (run': seq<Event>, now': State, t': int)
    requires Legal(s, maxAttempts, run) && Play(s, maxAttempts, run) == now && Crowded(now, a, t)
    ensures Legal(s, maxAttempts, run') && Play(s, maxAttempts, run') == now'
    ensures Crowd(now', a, t, WINDOW, t') && now'.queue == [] && now'.now < t'
    ensures now'.ticks == now.ticks + 1 && now'.waste == now.waste && now'.h.redelivered == now.h.redelivered
  {
    hide Legal, Play, Next, Enabled, Crowd, RetryAt;
    var window := CrowdTakesWindow(now, maxAttempts, a, t);
    run', now' := Then(s, maxAttempts, run, now, Tick(window));
    t' := RetryAt(maxAttempts, a, now.now);
    CrowdUntouched(now', a, t, t');
    run', now' := CrowdFails(s, maxAttempts, run', now', a, t, 0, t');
  }

  lemma {:induction false} CrowdStarves(s: State, maxAttempts: nat, run: seq<Event>, now: State, a: nat, t: int, n: nat)
    returns (run': seq<Event>, a': nat, t': int)
    requires Legal(s, maxAttempts, run) && Play(s, maxAttempts, run) == now && Crowded(now, a, t)
    ensures Legal(s, maxAttempts, run')
    ensures var now' := Play(s, maxAttempts, run');
      Crowded(now', a', t') && now'.ticks == now.ticks + n && now'.waste == now.waste
    decreases n
  {
    hide Legal, Play, Next, Enabled, Crowd, RetryAt;
    run', a', t' := run, a, t;
    if n > 0 {
      var now';
      run', now', t' := CrowdRound(s, maxAttempts, run, now, a, t);
      run', now' := CrowdReturns(s, maxAttempts, run', now', a, t, t');
      run', a', t' := CrowdStarves(s, maxAttempts, run', now', a + 1, t', n - 1);
    }
  }

  lemma CrowdUntouched(s: State, a: nat, t: int, t': int)
    requires Crowd(s, a, t, 0, t)
    ensures Crowd(s, a, t, 0, t')
  {
  }

  /** Fifty new rows in front of another one. */
  function CrowdRows(body: Message): (rows: seq<Row>)
    ensures |rows| == WINDOW + 1
    ensures forall i :: 0 <= i <= WINDOW ==> rows[i] == NewRow(i, body, if i < WINDOW then 0 else 1)
  {
    seq(WINDOW + 1, i requires 0 <= i <= WINDOW => NewRow(i, body, if i < WINDOW then 0 else 1))
  }

  function CrowdState(body: Message): State {
    State(CrowdRows(body), 2, [], None, [], WINDOW, UNSEEN, 0, 0)
  }

  lemma CrowdInv(body: Message, maxAttempts: nat)
    ensures Inv(CrowdState(body), maxAttempts)
  {
    hide CrowdRows, RetryAt;
  }

  lemma CrowdAhead(body: Message)
    ensures Outside(CrowdState(body), 1) == Range(0, WINDOW)
  {
    hide CrowdRows, Range;
    assert Ids([]) == [] && Elements([]) == {};
  }

  lemma CrowdExists(body: Message, maxAttempts: nat) returns (s: State)
    ensures Inv(s, maxAttempts) && Crowded(s, 0, 0) && s.rows[WINDOW].nextAttempt < s.now && s.h.redelivered == 0
    ensures |Outside(s, s.rows[WINDOW].nextAttempt)| == WINDOW && s.ticks == 0 && s.waste == 0
  {
    hide Inv, Outside, CrowdRows, Range;
    s := CrowdState(body);
    CrowdInv(body, maxAttempts);
    CrowdAhead(body);
  }

  /** With fifty rows in front of it a due row would be POSTed within two windows, but if it is redelivered after each
      window, then after any number of windows, none of them wasted, it may still be due and never POSTed. */
  lemma RedeliveryStarves(body: Message, maxAttempts: nat, n: nat) returns (s: State, run: seq<Event>)
    ensures Inv(s, maxAttempts) && s.queue == [] && s.watched < |s.rows| && IsDue(s.rows[s.watched], s.now)
    ensures Legal(s, maxAttempts, run)
    ensures var s' := Play(s, maxAttempts, run);
      && s'.ticks == s.ticks + n && s'.waste == s.waste
      && s'.watched < |s'.rows| && IsDue(s'.rows[s'.watched], s'.now) && s'.h.posts == 0
  {
    s := CrowdExists(body, maxAttempts);
    NoSteps(s, maxAttempts);
    var a, t;
    run, a, t := CrowdStarves(s, maxAttempts, [], s, 0, 0, n);
  }

  /** One own redelivery is enough to be passed over by two windows. */
  lemma OneRedeliveryDelays(body: Message, maxAttempts: nat) returns (s: State, run: seq<Event>)
    ensures Inv(s, maxAttempts) && Legal(s, maxAttempts, run)
    ensures Awaits(s) && WorkedThrough(s, Play(s, maxAttempts, run))
    ensures Play(s, maxAttempts, run).h.redelivered == s.h.redelivered + 1
    ensures Play(s, maxAttempts, run).h.posts == s.h.posts
  {
    hide Legal, Play, Inv, Ahead;
    s := CrowdExists(body, maxAttempts);
    NoSteps(s, maxAttempts);
    var now, t;
    run, now, t := CrowdRound(s, maxAttempts, [], s, 0, 0);
    run, now := CrowdReturns(s, maxAttempts, run, now, 0, 0, t);
    var t';
    run, now, t' := CrowdRound(s, maxAttempts, run, now, 1, t);
  }

  /** The watched row is due, strictly, and not in flight. */
  ghost predicate Awaits(s: State) {
    InFlight(s) == 0 && s.watched < |s.rows| && Pending(s.rows[s.watched]) && s.rows[s.watched].nextAttempt < s.now
  }

  /** Enough windows have been worked through for the row to have had its turn, and none was wasted. */
  ghost predicate WorkedThrough(s: State, s': State)
    requires s.watched < |s.rows|
  {
    && s'.queue == [] && s'.waste == s.waste
    && (s.watched in Ids(s.queue) || s'.ticks - s.ticks > |Outside(s, s.rows[s.watched].nextAttempt)| / 50)
  }

  /** In every run with at most `r` own redeliveries a waiting row is POSTed within its windows. */
  ghost predicate WindowBound(maxAttempts: nat, r: nat) {
    forall s, run ::
      Inv(s, maxAttempts) && Legal(s, maxAttempts, run) && Awaits(s) && WorkedThrough(s, Play(s, maxAttempts, run))
      && Play(s, maxAttempts, run).h.redelivered <= s.h.redelivered + r
      ==> Play(s, maxAttempts, run).h.posts > s.h.posts
  }

  lemma {:induction false} RedeliveriesCounted(s: State, maxAttempts: nat, run: seq<Event>)
    requires Legal(s, maxAttempts, run) && Redeliver(s.watched) in run
    ensures Play(s, maxAttempts, run).h.redelivered > s.h.redelivered
    decreases |run|
  {
    hide Enabled;
    var before, e := run[..|run| - 1], run[|run| - 1];
    RunGrows(s, maxAttempts, before);
    StepGrows(Play(s, maxAttempts, before), maxAttempts, e);
    if e != Redeliver(s.watched) {
      RedeliveriesCounted(s, maxAttempts, before);
    }
  }

  /** The bound on the windows holds if and only if the row itself is never redelivered. */
  lemma WindowBoundExact(maxAttempts: nat, r: nat)
    ensures WindowBound(maxAttempts, r) <==> r == 0
  {
    hide Inv, Legal, Play;
    if r == 0 {
      forall s, run | Inv(s, maxAttempts) && Legal(s, maxAttempts, run) && Awaits(s)
                      && WorkedThrough(s, Play(s, maxAttempts, run))
                      && Play(s, maxAttempts, run).h.redelivered <= s.h.redelivered
        ensures Play(s, maxAttempts, run).h.posts > s.h.posts
      {
        if Redeliver(s.watched) in run {
          RedeliveriesCounted(s, maxAttempts, run);
        }
        PostedWithinWindows(s, maxAttempts, run);
      }
    } else {
      var row := CertRow([], [], "", 0, 0, [], []);
      var s, run := OneRedeliveryDelays(Message(0, Alert(0, [], row)), maxAttempts);
      assert Play(s, maxAttempts, run).h.redelivered <= s.h.redelivered + r;
    }
  }

  // ---------------------------------------------------------------------------------------------
  // Rows that a writer appends, and the ids of their bodies
  // ---------------------------------------------------------------------------------------------

  /** Any rows appended to the outbox while the clock goes on are a run of the machine. */
  lemma {:induction false} AppendIsRun(s: State, maxAttempts: nat, rows: seq<Row>, to: int) returns (run: seq<Event>)
    requires Appended(s.rows, rows, s.now, to) && UniqueEvents(rows)
    ensures Legal(s, maxAttempts, run) && Play(s, maxAttempts, run) == s.(rows := rows, now := to)
    decreases |rows|
  {
    hide Legal, Play, Next, Enabled, Appended, UniqueEvents;
    NoSteps(s, maxAttempts);
    run := [];
    var now := s;
    AppendedForward(s.rows, rows, s.now, to);
    if rows == s.rows {
      AfterPass(now, maxAttempts, to - s.now);
      run, now := Then(s, maxAttempts, run, now, Pass(to - s.now));
    } else {
      AppendedLast(s.rows, rows, s.now, to);
      var before, last := rows[..|rows| - 1], rows[|rows| - 1];
      run := AppendIsRun(s, maxAttempts, before, last.createdAt);
      now := s.(rows := before, now := last.createdAt);
      AfterEnqueue(now, maxAttempts, last);
      run, now := Then(s, maxAttempts, run, now, Enqueue(last.eventId, last.body));
      AfterPass(now, maxAttempts, to - last.createdAt);
      run, now := Then(s, maxAttempts, run, now, Pass(to - last.createdAt));
    }
  }

  lemma AfterEnqueue(s: State, maxAttempts: nat, row: Row)
    requires UniqueEvents(s.rows + [row]) && row == NewRow(row.eventId, row.body, s.now)
    ensures Enabled(s, Enqueue(row.eventId, row.body))
    ensures Next(s, maxAttempts, Enqueue(row.eventId, row.body)) == s.(rows := s.rows + [row])
  {
    var all := s.rows + [row];
    forall i | 0 <= i < |s.rows|
      ensures s.rows[i].eventId != row.eventId
    {
      assert all[i] == s.rows[i] && all[|s.rows|] == row;
    }
  }

  /** The history may be begun for any row that does not exist yet. */
  lemma WatchNext(s: State, maxAttempts: nat, id: nat)
    requires Inv(s, maxAttempts) && |s.rows| <= id
    ensures Inv(s.(watched := id, h := UNSEEN), maxAttempts)
  {
    NeverPosted(s.wire, id);
  }

  lemma {:induction false} NeverPosted(wire: seq<Delivery>, id: nat)
    requires forall j :: 0 <= j < |wire| ==> wire[j].row.id != id
    ensures PostsOf(wire, id) == 0
  {
    if wire != [] {
      NeverPosted(wire[..|wire| - 1], id);
    }
  }

  /** Each event enqueued in the run has two ids of its own, for its row and for its body. */
  ghost predicate EnqueuesApart(s: State, maxAttempts: nat, run: seq<Event>)
    requires Legal(s, maxAttempts, run)
    decreases |run|
  {
    run == [] ||
    (EnqueuesApart(s, maxAttempts, run[..|run| - 1])
     && (run[|run| - 1].Enqueue? ==>
           IdsFresh(Play(s, maxAttempts, run[..|run| - 1]).rows, run[|run| - 1].eventId, run[|run| - 1].body.eventId)))
  }

  /** In every state a run reaches, no body carries the id of a row if and only if all that was enqueued had two ids of
      its own: nothing else in the life of a row, redelivery included, changes them. */
  lemma {:induction false} IdsApartExact(s: State, maxAttempts: nat, run: seq<Event>)
    requires Start(s) && Legal(s, maxAttempts, run)
    ensures IdsApart(Play(s, maxAttempts, run).rows) <==> EnqueuesApart(s, maxAttempts, run)
    decreases |run|
  {
    if run != [] {
      var before, e := Play(s, maxAttempts, run[..|run| - 1]), run[|run| - 1];
      IdsApartExact(s, maxAttempts, run[..|run| - 1]);
      StepApart(before, maxAttempts, e);
    }
  }

  lemma StepApart(s: State, maxAttempts: nat, e: Event)
    requires Enabled(s, e)
    ensures IdsApart(Next(s, maxAttempts, e).rows) <==>
            IdsApart(s.rows) && (e.Enqueue? ==> IdsFresh(s.rows, e.eventId, e.body.eventId))
  {
    if e.Enqueue? {
      AppendApart(s.rows, NewRow(e.eventId, e.body, s.now));
    } else {
      StepGrows(s, maxAttempts, e);
      SameIdsApart(s.rows, Next(s, maxAttempts, e).rows);
    }
  }

  // ---------------------------------------------------------------------------------------------
  // One tick of the dispatcher is a run of the machine
  // ---------------------------------------------------------------------------------------------

  /** The receiver of the webhook: it is sent a row and answers with a status, or not at all. */
  class Endpoint {
    var log: seq<Delivery>

    method Post(row: DueRow) returns (status: nat)
      modifies this
      ensures log == old(log) + [Delivery(row, status)]
    {
      status :| true;
      log := log + [Delivery(row, status)];
    }
  }

  ghost predicate Holds(s: State, outbox: OutboxTable, clock: Clock)
    reads outbox, clock
  {
    s.rows == outbox.rows && s.now == clock.now
  }

  /** The k-th failure is followed by a wait of 4^min(k, 7) seconds, and the last one by ten years. */
  method ScheduleRetry(outbox: OutboxTable, maxAttempts: nat, id: nat, attempts: nat, status: nat, now: int)
    returns (r: Result<(), DbError>)
    modifies outbox
    ensures outbox.available ==> r.Ok?
    ensures r.Err? || id >= |old(outbox.rows)| ==> outbox.rows == old(outbox.rows)
    ensures r.Ok? && id < |old(outbox.rows)| ==>
      outbox.rows == old(outbox.rows)[id := old(outbox.rows)[id].(
        attempts := old(outbox.rows)[id].attempts + 1, lastAttempt := Some(now), lastStatus := Some(status),
        nextAttempt := now + if attempts + 1 >= maxAttempts then 3650 * 86_400 * 1_000_000
                             else WAITS[if attempts < 6 then attempts else 6] * 1_000_000)]
  {
    DelayIs(attempts + 1);
    var nextAttempts := attempts + 1;
    if nextAttempts >= maxAttempts {
      r := outbox.MarkAttempt(id, status, now + 3650 * DAY, now);
      return;
    }
    var delaySecs := Pow4(if nextAttempts < 7 then nextAttempts else 7);
    r := outbox.MarkAttempt(id, status, now + delaySecs * SECOND, now);
  }

  lemma ThenInv(s: State, maxAttempts: nat, run: seq<Event>, now: State, e: Event)
    returns (run': seq<Event>, now': State)
    requires Legal(s, maxAttempts, run) && Play(s, maxAttempts, run) == now && Enabled(now, e) && Inv(now, maxAttempts)
    ensures Legal(s, maxAttempts, run') && now' == Next(now, maxAttempts, e) == Play(s, maxAttempts, run')
    ensures Inv(now', maxAttempts)
  {
    hide Inv, Enabled, Next;
    run', now' := Then(s, maxAttempts, run, now, e);
    StepKeepsInv(now, maxAttempts, e);
  }

  lemma HeadIsRow(s: State, maxAttempts: nat)
    requires Inv(s, maxAttempts) && s.queue != []
    ensures s.queue[0].id < |s.rows|
  {
  }

  lemma NoSteps(s: State, maxAttempts: nat)
    ensures Legal(s, maxAttempts, []) && Play(s, maxAttempts, []) == s && Occurs(s.watched, []) == 0
  {
  }

  lemma AllPosted(s: State, maxAttempts: nat)
    requires Inv(s, maxAttempts) && s.queue == []
    ensures s.posted.None? && s.h.selected == s.h.posts + s.h.dropped
  {
  }

  ghost predicate SameWindow(s: State, s': State) {
    && s'.watched == s.watched && s'.ticks == s.ticks && s.waste <= s'.waste
    && s'.h.selected == s.h.selected && s'.h.dropped == s.h.dropped
  }

  /** The three steps of one delivery: the POST, the time it takes, and the mark or its failure. */
  lemma Deliver(s: State, maxAttempts: nat, run: seq<Event>, now: State, status: nat, d: nat, marked: bool)
    returns (run': seq<Event>, now': State)
    requires Legal(s, maxAttempts, run) && Play(s, maxAttempts, run) == now && Inv(now, maxAttempts)
    requires now.posted.None? && now.queue != []
    ensures Legal(s, maxAttempts, run') && now' == Play(s, maxAttempts, run') && Inv(now', maxAttempts)
    ensures now'.now == now.now + d && now'.posted.None? && now'.queue == now.queue[1..] && SameWindow(now, now')
    ensures marked ==> now'.waste == now.waste
    ensures now'.wire == now.wire + [Delivery(now.queue[0], status)]
    ensures var row := now.queue[0];
      && row.id < |now.rows|
      && now'.rows == if marked
                      then now.rows[row.id := MarkedRow(maxAttempts, now.rows[row.id], row, status, now.now + d)]
                      else now.rows
  {
    hide Inv, Legal, Play, Next, Enabled;
    HeadIsRow(now, maxAttempts);
    AfterPost(now, maxAttempts, status);
    run', now' := ThenInv(s, maxAttempts, run, now, Post(status));
    assert Enabled(now', Pass(d)) && Next(now', maxAttempts, Pass(d)) == now'.(now := now'.now + d) by {
      AfterPass(now', maxAttempts, d);
    }
    run', now' := ThenInv(s, maxAttempts, run', now', Pass(d));
    AfterMark(now', maxAttempts, marked);
    run', now' := ThenInv(s, maxAttempts, run', now', if marked then Mark else MarkFails);
  }

  lemma AfterPost(s: State, maxAttempts: nat, status: nat)
    requires s.posted.None? && s.queue != []
    ensures Enabled(s, Post(status))
    ensures var s' := Next(s, maxAttempts, Post(status));
            && s' == s.(posted := Some(status), wire := s.wire + [Delivery(s.queue[0], status)], h := s'.h)
            && SameWindow(s, s') && s'.waste == s.waste
  {
  }

  lemma AfterPass(s: State, maxAttempts: nat, d: nat)
    ensures Enabled(s, Pass(d)) && Next(s, maxAttempts, Pass(d)) == s.(now := s.now + d)
  {
  }

  lemma AfterTick(s: State, maxAttempts: nat, window: seq<DueRow>)
    requires s.queue == [] && s.posted.None? && IsWindow(s.rows, s.now, WINDOW, window)
    ensures Enabled(s, Tick(window))
    ensures Next(s, maxAttempts, Tick(window))
         == s.(queue := window, ticks := s.ticks + 1, h := s.h.(selected := s.h.selected + Occurs(s.watched, window)))
  {
  }

  lemma AfterMark(s: State, maxAttempts: nat, marked: bool)
    requires s.posted.Some? && s.queue != [] && s.queue[0].id < |s.rows|
    ensures var e := if marked then Mark else MarkFails;
      && Enabled(s, e)
      && var s' := Next(s, maxAttempts, e);
      && s'.now == s.now && s'.posted.None? && s'.queue == s.queue[1..] && s'.wire == s.wire && SameWindow(s, s')
      && (marked ==> s'.waste == s.waste)
      && var id := s.queue[0].id;
         s'.rows == if marked then s.rows[id := MarkedRow(maxAttempts, s.rows[id], s.queue[0], s.posted.value, s.now)]
                    else s.rows
  {
  }

  /** The row after a stored answer to a POST of it, `at` being the time of that. */
  ghost predicate Answered(maxAttempts: nat, row: Row, status: nat, at: int, row': Row) {
    && row'.eventId == row.eventId && row'.body == row.body && row'.createdAt == row.createdAt
    && row'.attempts == row.attempts + 1 && row'.lastAttempt == Some(at) && row'.lastStatus == Some(status)
    && if 200 <= status < 300 then row'.deliveredAt == Some(at) && row'.nextAttempt == row.nextAttempt
       else && row'.deliveredAt == row.deliveredAt
            && row'.nextAttempt == at + if row.attempts + 1 >= maxAttempts then 3650 * 86_400 * 1_000_000
                                        else WAITS[if row.attempts < 6 then row.attempts else 6] * 1_000_000
  }

  lemma MarkAnswers(maxAttempts: nat, row: Row, snapshot: DueRow, status: nat, now: int)
    requires snapshot.attempts == row.attempts
    ensures Answered(maxAttempts, row, status, now, MarkedRow(maxAttempts, row, snapshot, status, now))
  {
    DelayIs(row.attempts + 1);
  }

  lemma HeadIsRead(s: State, maxAttempts: nat)
    requires Inv(s, maxAttempts) && s.queue != []
    ensures ReadFrom(s.rows, s.queue[0])
  {
  }

  /** One POST of the row; the mark follows its answer, but may not reach the table. */
  method DeliverOne(outbox: OutboxTable, clock: Clock, endpoint: Endpoint, maxAttempts: nat, row: DueRow,
                    ghost s: State, ghost run: seq<Event>, ghost now: State)
    returns (ghost run': seq<Event>, ghost now': State)
    requires Legal(s, maxAttempts, run) && now == Play(s, maxAttempts, run)
    requires Inv(now, maxAttempts) && Holds(now, outbox, clock) && now.posted.None?
             && now.queue != [] && now.queue[0] == row
    modifies outbox, clock, endpoint
    ensures |endpoint.log| == |old(endpoint.log)| + 1 && endpoint.log[..|old(endpoint.log)|] == old(endpoint.log)
    ensures endpoint.log[|endpoint.log| - 1].row == row
    ensures row.id < |old(outbox.rows)| == |outbox.rows|
    ensures row.eventId == outbox.rows[row.id].eventId && row.body == outbox.rows[row.id].body
    ensures outbox.rows == old(outbox.rows)[row.id := outbox.rows[row.id]]
    ensures || (outbox.rows == old(outbox.rows) && !outbox.available)
            || Answered(maxAttempts, old(outbox.rows)[row.id], endpoint.log[|endpoint.log| - 1].status, clock.now,
                        outbox.rows[row.id])
    ensures Legal(s, maxAttempts, run') && now' == Play(s, maxAttempts, run')
    ensures Inv(now', maxAttempts) && Holds(now', outbox, clock) && now'.posted.None? && now'.queue == now.queue[1..]
    ensures now'.wire == now.wire + [endpoint.log[|endpoint.log| - 1]]
    ensures SameWindow(now, now') && now.now <= now'.now && (outbox.available ==> now'.waste == now.waste)
  {
    hide Legal, Play, Inv, RetryAt, Next, Enabled, Answered, Pow4;
    HeadIsRead(now, maxAttempts);
    DelayIs(row.attempts + 1);
    var status := endpoint.Post(row);
    var t := clock.Read();
    MarkAnswers(maxAttempts, now.rows[row.id], row, status, t);
    var marked;
    if 200 <= status < 300 {
      marked := outbox.MarkDelivered(row.id, status, t);
    } else {
      marked := ScheduleRetry(outbox, maxAttempts, row.id, row.attempts, status, t);
    }
    run', now' := Deliver(s, maxAttempts, run, now, status, t - now.now, marked.Ok?);
  }

  function Posted(log: seq<Delivery>): (rows: seq<DueRow>)
    ensures |rows| == |log| && forall i :: 0 <= i < |log| ==> rows[i] == log[i].row
  {
    seq(|log|, i requires 0 <= i < |log| => log[i].row)
  }

  /** The answer has been marked on the row, unless the mark was not stored. */
  ghost predicate Marked(maxAttempts: nat, row: Row, status: nat, row': Row, available: bool, from: int, to: int) {
    || (row' == row && !available)
    || exists at :: from <= at <= to && Answered(maxAttempts, row, status, at, row')
  }

  /** The rows of these POSTs have each been read, answered and marked, if the mark was stored, which each is when the
      database is `available`; no other row has changed. */
  ghost predicate Handled(rows: seq<Row>, rows': seq<Row>, maxAttempts: nat, sent: seq<Delivery>, available: bool,
                          from: int, to: int) {
    && |rows'| == |rows|
    && (forall k :: 0 <= k < |sent| ==>
          && ReadFrom(rows, sent[k].row)
          && Marked(maxAttempts, rows[sent[k].row.id], sent[k].status, rows'[sent[k].row.id], available, from, to))
    && (forall i :: 0 <= i < |rows| && rows'[i] != rows[i] ==> exists k :: 0 <= k < |sent| && sent[k].row.id == i)
  }

  lemma HandledNothing(rows: seq<Row>, maxAttempts: nat, available: bool, from: int, to: int)
    ensures Handled(rows, rows, maxAttempts, [], available, from, to)
  {
  }

  lemma MarkedLater(maxAttempts: nat, row: Row, status: nat, row': Row, available: bool, from: int, mid: int, to: int)
    requires Marked(maxAttempts, row, status, row', available, from, mid) && mid <= to
    ensures Marked(maxAttempts, row, status, row', available, from, to)
  {
  }

  lemma HandledNext(rows: seq<Row>, rows': seq<Row>, rows'': seq<Row>, maxAttempts: nat, sent: seq<Delivery>,
                    available: bool, from: int, mid: int, at: int, d: Delivery)
    requires Handled(rows, rows', maxAttempts, sent, available, from, mid) && from <= mid <= at
    requires ReadFrom(rows, d.row) && forall k :: 0 <= k < |sent| ==> sent[k].row.id != d.row.id
    requires |rows''| == |rows| && rows'' == rows'[d.row.id := rows''[d.row.id]]
    requires || (rows'' == rows' && !available)
             || Answered(maxAttempts, rows'[d.row.id], d.status, at, rows''[d.row.id])
    ensures Handled(rows, rows'', maxAttempts, sent + [d], available, from, at)
  {
    var sent' := sent + [d];
    assert rows'[d.row.id] == rows[d.row.id];
    assert Marked(maxAttempts, rows[d.row.id], d.status, rows''[d.row.id], available, from, at);
    hide Answered, Marked;
    forall k | 0 <= k < |sent'|
      ensures ReadFrom(rows, sent'[k].row)
      ensures Marked(maxAttempts, rows[sent'[k].row.id], sent'[k].status, rows''[sent'[k].row.id], available, from, at)
    {
      if k < |sent| {
        var id := sent[k].row.id;
        assert sent'[k] == sent[k] && ReadFrom(rows, sent[k].row) && rows''[id] == rows'[id];
        MarkedLater(maxAttempts, rows[id], sent[k].status, rows'[id], available, from, mid, at);
      }
    }
    forall i | 0 <= i < |rows| && rows''[i] != rows[i]
      ensures exists k :: 0 <= k < |sent'| && sent'[k].row.id == i
    {
      if i == d.row.id {
        assert sent'[|sent|].row.id == i;
      } else {
        var k :| 0 <= k < |sent| && sent[k].row.id == i;
        assert sent'[k].row.id == i;
      }
    }
  }

  lemma HandledMeans(rows: seq<Row>, rows': seq<Row>, maxAttempts: nat, sent: seq<Delivery>, available: bool,
                     from: int, to: int)
    requires Handled(rows, rows', maxAttempts, sent, available, from, to)
    ensures forall k :: 0 <= k < |sent| ==>
      && sent[k].row.id < |rows'|
      && sent[k].row.eventId == rows'[sent[k].row.id].eventId && sent[k].row.body == rows'[sent[k].row.id].body
  {
    forall k | 0 <= k < |sent|
      ensures && sent[k].row.id < |rows'|
              && sent[k].row.eventId == rows'[sent[k].row.id].eventId
              && sent[k].row.body == rows'[sent[k].row.id].body
    {
      assert ReadFrom(rows, sent[k].row);
    }
  }

  lemma WindowIsRead(rows: seq<Row>, now: int, limit: nat, window: seq<DueRow>)
    requires IsWindow(rows, now, limit, window)
    ensures |window| <= limit && forall k :: 0 <= k < |window| ==> ReadFrom(rows, window[k])
    ensures forall j, k :: 0 <= j < k < |window| ==> window[j].id != window[k].id
  {
    assert forall k :: 0 <= k < |window| ==> Ids(window)[k] == window[k].id;
  }

  /** A tick reads one window of at most fifty rows, if the database answers, and POSTs them one after another, each
      once, each with the event id and the body of its row. Every answer is marked on its row, unless the database
      fails. */
  method DispatchTick(outbox: OutboxTable, clock: Clock, endpoint: Endpoint, maxAttempts: nat, ghost s: State)
    returns (ghost run: seq<Event>, ghost window: seq<DueRow>)
    requires Inv(s, maxAttempts) && Holds(s, outbox, clock) && s.queue == []
    modifies outbox, clock, endpoint
    ensures old(endpoint.log) <= endpoint.log && Posted(endpoint.log[|old(endpoint.log)|..]) == window
    ensures |window| <= 50
    ensures forall k :: |old(endpoint.log)| <= k < |endpoint.log| ==>
      && var sent := endpoint.log[k].row;
      && sent.id < |outbox.rows|
      && sent.eventId == outbox.rows[sent.id].eventId && sent.body == outbox.rows[sent.id].body
    ensures Handled(old(outbox.rows), outbox.rows, maxAttempts, endpoint.log[|old(endpoint.log)|..], outbox.available,
                    old(clock.now), clock.now)
    ensures Legal(s, maxAttempts, run)
    ensures var s' := Play(s, maxAttempts, run);
      && Inv(s', maxAttempts) && Holds(s', outbox, clock) && s'.queue == [] && s'.h.dropped == s.h.dropped
      && s'.wire == s.wire + endpoint.log[|old(endpoint.log)|..]
      && s'.h.posts == s.h.posts + Occurs(s.watched, window)
      && (outbox.available ==> s'.ticks == s.ticks + 1 && s'.waste == s.waste)
      && (s'.ticks == s.ticks + 1 || (s'.ticks == s.ticks && window == [] && s'.rows == s.rows))
      && (s'.ticks == s.ticks + 1 ==> exists t: int :: s.now <= t <= s'.now && IsWindow(s.rows, t, 50, window))
  {
    hide Legal, Play, Enabled, Next, Occurs, IsWindow, Inv, Handled, ReadFrom, Answered, Marked;
    NoSteps(s, maxAttempts);
    AllPosted(s, maxAttempts);
    run, window := [], [];
    ghost var now, log0 := s, endpoint.log;
    ghost var before := clock.now;
    var t := clock.Read();
    HandledNothing(s.rows, maxAttempts, outbox.available, before, t);
    HandledMeans(s.rows, s.rows, maxAttempts, [], outbox.available, before, t);
    AfterPass(now, maxAttempts, t - before);
    run, now := ThenInv(s, maxAttempts, run, now, Pass(t - before));
    var due := outbox.Due(t, 50);
    if due.Err? {
      AllPosted(now, maxAttempts);
      return;
    }
    window := due.value;
    WindowIsRead(s.rows, t, WINDOW, window);
    AfterTick(now, maxAttempts, window);
    run, now := ThenInv(s, maxAttempts, run, now, Tick(window));
    ghost var ticked, sent := now, [];
    for i := 0 to |due.value|
      invariant Legal(s, maxAttempts, run) && Play(s, maxAttempts, run) == now
      invariant Inv(now, maxAttempts) && Holds(now, outbox, clock) && now.posted.None?
      invariant now.queue == window[i..] && SameWindow(ticked, now) && t <= now.now
      invariant outbox.available ==> now.waste == s.waste
      invariant endpoint.log == log0 + sent && now.wire == s.wire + sent && |outbox.rows| == |s.rows|
      invariant |sent| == i && forall k :: 0 <= k < i ==> sent[k].row == window[k]
      invariant Handled(s.rows, outbox.rows, maxAttempts, sent, outbox.available, before, clock.now)
    {
      ghost var rows, mid := outbox.rows, clock.now;
      run, now := DeliverOne(outbox, clock, endpoint, maxAttempts, due.value[i], s, run, now);
      ghost var last := endpoint.log[|endpoint.log| - 1];
      HandledNext(s.rows, rows, outbox.rows, maxAttempts, sent, outbox.available, before, mid, clock.now, last);
      assert endpoint.log == log0 + (sent + [last]);
      sent := sent + [last];
    }
    HandledMeans(s.rows, outbox.rows, maxAttempts, sent, outbox.available, before, clock.now);
    assert endpoint.log[|log0|..] == sent;
    AllPosted(now, maxAttempts);
  }

  /** Redelivery asked for with the id that the body of a row shows. After a run in which every event had two ids of
      its own it finds nothing and changes nothing. */
  method RedeliverByBody(outbox: OutboxTable, j: nat, now: int, maxAttempts: nat, ghost s: State, ghost run: seq<Event>)
    returns (r: Result<bool, DbError>)
    requires Start(s) && Legal(s, maxAttempts, run) && outbox.rows == Play(s, maxAttempts, run).rows
    requires j < |outbox.rows|
    modifies outbox
    ensures outbox.available ==> r.Ok?
    ensures r.Ok? ==> (r.value <==> !Unused(old(outbox.rows), old(outbox.rows)[j].body.eventId))
    ensures EnqueuesApart(s, maxAttempts, run) ==> outbox.rows == old(outbox.rows) && (r.Ok? ==> !r.value)
  {
    hide Inv, EnqueuesApart, Legal, Play;
    RunIsUnique(s, maxAttempts, run);
    IdsApartExact(s, maxAttempts, run);
    BodyIdsFindNothing(outbox.rows);
    r := outbox.ForceRedeliver(outbox.rows[j].body.eventId, now);
  }

  lemma RunIsUnique(s: State, maxAttempts: nat, run: seq<Event>)
    requires Start(s) && Legal(s, maxAttempts, run)
    ensures UniqueEvents(Play(s, maxAttempts, run).rows)
  {
    StartInv(s, maxAttempts);
    RunKeepsInv(s, maxAttempts, run);
  }
}
