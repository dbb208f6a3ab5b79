/** The table `webhook_outbox`. Rows are never deleted, so a row's id is its index. Times are in
    microseconds. */
module Outbox {
  import opened Wrappers
  import opened CertData
  import opened Sets

  datatype Row = Row(
    eventId: nat, body: Message, createdAt: int, attempts: nat, lastAttempt: Option<int>, lastStatus: Option<nat>,
    deliveredAt: Option<int>, nextAttempt: int)

  datatype DueRow = DueRow(id: nat, eventId: nat, body: Message, attempts: nat)

  predicate Pending(row: Row) {
    row.deliveredAt.None?
  }

  predicate IsDue(row: Row, now: int) {
    Pending(row) && row.nextAttempt <= now
  }

  function NewRow(eventId: nat, body: Message, now: int): Row {
    Row(eventId, body, now, 0, None, None, None, now)
  }

  function Attempted(row: Row, status: nat, nextAttempt: int, now: int): Row {
    row.(attempts := row.attempts + 1, lastAttempt := Some(now), lastStatus := Some(status), nextAttempt := nextAttempt)
  }

  function Delivered(row: Row, status: nat, now: int): Row {
    row.(attempts := row.attempts + 1, lastAttempt := Some(now), lastStatus := Some(status), deliveredAt := Some(now))
  }

  function Redelivered(row: Row, now: int): Row {
    row.(deliveredAt := None, nextAttempt := now)
  }

  function Snapshot(rows: seq<Row>, id: nat): DueRow
    requires id < |rows|
  {
    DueRow(id, rows[id].eventId, rows[id].body, rows[id].attempts)
  }

  ghost function PendingIds(rows: seq<Row>): set<nat> {
    set i: nat | i < |rows| && Pending(rows[i])
  }

  ghost function DeliveredIds(rows: seq<Row>): set<nat> {
    set i: nat | i < |rows| && !Pending(rows[i])
  }

  ghost predicate UniqueEvents(rows: seq<Row>) {
    forall i, j :: 0 <= i < |rows| && 0 <= j < |rows| && rows[i].eventId == rows[j].eventId ==> i == j
  }

  /** A random UUID is taken to be one that no row has. */
  predicate Unused(rows: seq<Row>, eventId: nat) {
    forall i :: 0 <= i < |rows| ==> rows[i].eventId != eventId
  }

  /** An id that neither a row nor a body has, nor any number beyond it. */
  lemma {:induction false} UnusedExists(rows: seq<Row>) returns (eventId: nat)
    ensures forall i :: 0 <= i < |rows| ==> rows[i].eventId < eventId && rows[i].body.eventId < eventId
  {
    eventId := 0;
    if rows != [] {
      var last := rows[|rows| - 1];
      var before := UnusedExists(rows[..|rows| - 1]);
      eventId := before + last.eventId + last.body.eventId + 1;
      assert forall i :: 0 <= i < |rows| - 1 ==> rows[..|rows| - 1][i] == rows[i];
    }
  }

  /** No body carries the id of a row. */
  ghost predicate IdsApart(rows: seq<Row>) {
    forall i, j :: 0 <= i < |rows| && 0 <= j < |rows| ==> rows[i].eventId != rows[j].body.eventId
  }

  /** The two ids of a new event are different, and neither is that of another row or body in the other's place. */
  predicate IdsFresh(rows: seq<Row>, eventId: nat, bodyId: nat) {
    eventId != bodyId && forall i :: 0 <= i < |rows| ==> rows[i].eventId != bodyId && rows[i].body.eventId != eventId
  }

  lemma FreshExists(rows: seq<Row>, bodyId: nat) returns (eventId: nat)
    requires Unused(rows, bodyId)
    ensures Unused(rows, eventId) && IdsFresh(rows, eventId, bodyId)
  {
    eventId := UnusedExists(rows);
    eventId := if eventId == bodyId then eventId + 1 else eventId;
  }

  lemma AppendApart(rows: seq<Row>, row: Row)
    ensures IdsApart(rows + [row]) <==> IdsApart(rows) && IdsFresh(rows, row.eventId, row.body.eventId)
  {
    var all := rows + [row];
    assert all[|rows|] == row && forall i :: 0 <= i < |rows| ==> all[i] == rows[i];
  }

  lemma SameIdsApart(rows: seq<Row>, rows': seq<Row>)
    requires |rows| == |rows'|
    requires forall i :: 0 <= i < |rows| ==> rows[i].eventId == rows'[i].eventId && rows[i].body == rows'[i].body
    ensures IdsApart(rows') <==> IdsApart(rows)
  {
  }

  /** New rows have been appended between two readings of the clock, in its order. */
  ghost predicate Appended(rows: seq<Row>, rows': seq<Row>, from: int, to: int) {
    && from <= to && rows <= rows'
    && (forall i :: |rows| <= i < |rows'| ==>
          from <= rows'[i].createdAt <= to && rows'[i] == NewRow(rows'[i].eventId, rows'[i].body, rows'[i].createdAt))
    && (forall i, j :: |rows| <= i < j < |rows'| ==> rows'[i].createdAt <= rows'[j].createdAt)
  }

  lemma AppendedNothing(rows: seq<Row>, from: int, to: int)
    requires from <= to
    ensures Appended(rows, rows, from, to)
  {
  }

  lemma AppendedForward(rows: seq<Row>, rows': seq<Row>, from: int, to: int)
    requires Appended(rows, rows', from, to)
    ensures from <= to && rows <= rows'
  {
  }

  lemma AppendedLast(rows: seq<Row>, rows': seq<Row>, from: int, to: int)
    requires Appended(rows, rows', from, to) && UniqueEvents(rows') && rows' != rows
    ensures rows' != []
    ensures var before, last := rows'[..|rows'| - 1], rows'[|rows'| - 1];
      && before + [last] == rows' && Appended(rows, before, from, last.createdAt) && UniqueEvents(before)
      && last == NewRow(last.eventId, last.body, last.createdAt) && last.createdAt <= to
  {
    var before := rows'[..|rows'| - 1];
    assert forall i :: 0 <= i < |before| ==> before[i] == rows'[i];
  }

  lemma AppendedNext(rows: seq<Row>, rows': seq<Row>, rows'': seq<Row>, from: int, mid: int, to: int)
    requires Appended(rows, rows', from, mid) && Appended(rows', rows'', mid, to)
    ensures Appended(rows, rows'', from, to)
  {
  }

  /** The table after a forced redelivery. */
  function RedeliveredRows(rows: seq<Row>, eventId: nat, now: int): seq<Row> {
    seq(|rows|, i requires 0 <= i < |rows| => if rows[i].eventId == eventId then Redelivered(rows[i], now) else rows[i])
  }

  /** Whoever asks for redelivery with the id that a body shows reaches no row, of this event or any other, if and
      only if bodies and rows have no id in common. */
  lemma BodyIdsFindNothing(rows: seq<Row>)
    ensures (forall j :: 0 <= j < |rows| ==> Unused(rows, rows[j].body.eventId)) <==> IdsApart(rows)
    ensures IdsApart(rows) ==>
            forall j, now :: 0 <= j < |rows| ==> RedeliveredRows(rows, rows[j].body.eventId, now) == rows
  {
  }

  function Ids(window: seq<DueRow>): (ids: seq<nat>)
    ensures |ids| == |window| && forall k :: 0 <= k < |ids| ==> ids[k] == window[k].id
  {
    seq(|window|, k requires 0 <= k < |window| => window[k].id)
  }

  /** `ids` is what `ORDER BY next_attempt LIMIT limit` may pick: due rows without repetition, in order,
      and whatever due row is missing comes no earlier than all of a full window. */
  ghost predicate Picks(rows: seq<Row>, now: int, limit: nat, ids: seq<nat>) {
    && |ids| <= limit
    && (forall k :: 0 <= k < |ids| ==> ids[k] < |rows| && IsDue(rows[ids[k]], now))
    && (forall j, k :: 0 <= j < k < |ids| ==> ids[j] != ids[k] && rows[ids[j]].nextAttempt <= rows[ids[k]].nextAttempt)
    && (forall i :: 0 <= i < |rows| && IsDue(rows[i], now) && i !in ids ==>
          |ids| == limit && forall k :: 0 <= k < |ids| ==> rows[ids[k]].nextAttempt <= rows[i].nextAttempt)
  }

  /** What is read of a row is its own id, event id, body and attempts. */
  predicate ReadFrom(rows: seq<Row>, d: DueRow) {
    && d.id < |rows|
    && d.eventId == rows[d.id].eventId && d.body == rows[d.id].body && d.attempts == rows[d.id].attempts
  }

  ghost predicate IsWindow(rows: seq<Row>, now: int, limit: nat, window: seq<DueRow>) {
    && Picks(rows, now, limit, Ids(window))
    && forall k :: 0 <= k < |window| ==> ReadFrom(rows, window[k])
  }

  /** Rows are either pending or delivered, so the two counts add up to the table. */
  lemma PendingPlusDelivered(rows: seq<Row>)
    ensures |PendingIds(rows)| + |DeliveredIds(rows)| == |rows|
  {
    assert PendingIds(rows) + DeliveredIds(rows) == Range(0, |rows|);
    assert PendingIds(rows) * DeliveredIds(rows) == {};
  }

  lemma {:induction false} EarliestExists(rows: seq<Row>, ids: set<nat>) returns (m: nat)
    requires ids != {} && forall i :: i in ids ==> i < |rows|
    ensures m in ids && forall i :: i in ids ==> rows[m].nextAttempt <= rows[i].nextAttempt
  {
    m :| m in ids;
    if ids != {m} {
      var other := EarliestExists(rows, ids - {m});
      if rows[other].nextAttempt < rows[m].nextAttempt {
        m := other;
      }
    }
  }

  method PickDue(rows: seq<Row>, now: int, limit: nat) returns (ids: seq<nat>)
    ensures Picks(rows, now, limit, ids)
  {
    var due := set i: nat | i < |rows| && IsDue(rows[i], now);
    ids := PickEarliest(rows, due, limit);
  }

  method PickEarliest(rows: seq<Row>, due: set<nat>, limit: nat) returns (ids: seq<nat>)
    requires forall i :: i in due ==> i < |rows|
    ensures |ids| <= limit && forall k :: 0 <= k < |ids| ==> ids[k] in due
    ensures forall j, k :: 0 <= j < k < |ids| ==>
              ids[j] != ids[k] && rows[ids[j]].nextAttempt <= rows[ids[k]].nextAttempt
    ensures forall i :: i in due && i !in ids ==>
              |ids| == limit && forall k :: 0 <= k < |ids| ==> rows[ids[k]].nextAttempt <= rows[i].nextAttempt
  {
    ids := [];
    var left := due;
    while |ids| < limit && left != {}
      invariant |ids| <= limit && left <= due
      invariant forall k :: 0 <= k < |ids| ==> ids[k] in due && ids[k] !in left
      invariant forall i :: i in due ==> i in left || i in ids
      invariant forall j, k :: 0 <= j < k < |ids| ==>
                  ids[j] != ids[k] && rows[ids[j]].nextAttempt <= rows[ids[k]].nextAttempt
      invariant forall k, i :: 0 <= k < |ids| && i in left ==> rows[ids[k]].nextAttempt <= rows[i].nextAttempt
      decreases left
    {
      ghost var m := EarliestExists(rows, left);
      var id :| id in left && forall i :: i in left ==> rows[id].nextAttempt <= rows[i].nextAttempt;
      left := left - {id};
      ids := ids + [id];
    }
  }

  class OutboxTable {
    var rows: seq<Row>
    /** whether the database never fails a statement */
    const available: bool

    method Enqueue(eventId: nat, body: Message, now: int) returns (r: Result<(), DbError>)
      requires UniqueEvents(rows)
      modifies this
      ensures UniqueEvents(rows)
      ensures !Unused(old(rows), eventId) ==> r.Err?
      ensures available && Unused(old(rows), eventId) ==> r.Ok?
      ensures rows == if r.Ok? then old(rows) + [Row(eventId, body, now, 0, None, None, None, now)] else old(rows)
    {
      if i :| 0 <= i < |rows| && rows[i].eventId == eventId {
        return Err(UniqueViolation);
      }
      if !available {
        if * {
          return Err(DbUnavailable);
        }
      }
      rows := rows + [Row(eventId, body, now, 0, None, None, None, now)];
      return Ok(());
    }

    method Due(now: int, limit: nat) returns (r: Result<seq<DueRow>, DbError>)
      ensures available ==> r.Ok?
      ensures r.Ok? ==> IsWindow(rows, now, limit, r.value) && |r.value| <= limit
      ensures r.Ok? ==> forall k :: 0 <= k < |r.value| ==>
        && var row := r.value[k];
        && row.id < |rows| && rows[row.id].deliveredAt.None? && rows[row.id].nextAttempt <= now
        && row.eventId == rows[row.id].eventId && row.body == rows[row.id].body
        && row.attempts == rows[row.id].attempts
    {
      if !available {
        if * {
          return Err(DbUnavailable);
        }
      }
      var ids := PickDue(rows, now, limit);
      var table := rows;
      var window := seq(|ids|, k requires 0 <= k < |ids| && ids[k] < |table| =>
        DueRow(ids[k], table[ids[k]].eventId, table[ids[k]].body, table[ids[k]].attempts));
      assert Ids(window) == ids;
      return Ok(window);
    }

    method MarkAttempt(id: nat, status: nat, nextAttempt: int, now: int) returns (r: Result<(), DbError>)
      modifies this
      ensures available ==> r.Ok?
      ensures rows == if r.Ok? && id < |old(rows)|
              then old(rows)[id := old(rows)[id].(attempts := old(rows)[id].attempts + 1, lastAttempt := Some(now),
                                                  lastStatus := Some(status), nextAttempt := nextAttempt)]
              else old(rows)
    {
      if !available {
        if * {
          return Err(DbUnavailable);
        }
      }
      if id < |rows| {
        rows := rows[id := rows[id].(attempts := rows[id].attempts + 1, lastAttempt := Some(now),
                                     lastStatus := Some(status), nextAttempt := nextAttempt)];
      }
      return Ok(());
    }

    method MarkDelivered(id: nat, status: nat, now: int) returns (r: Result<(), DbError>)
      modifies this
      ensures available ==> r.Ok?
      ensures rows == if r.Ok? && id < |old(rows)|
              then old(rows)[id := old(rows)[id].(attempts := old(rows)[id].attempts + 1, lastAttempt := Some(now),
                                                  lastStatus := Some(status), deliveredAt := Some(now))]
              else old(rows)
    {
      if !available {
        if * {
          return Err(DbUnavailable);
        }
      }
      if id < |rows| {
        rows := rows[id := rows[id].(attempts := rows[id].attempts + 1, lastAttempt := Some(now),
                                     lastStatus := Some(status), deliveredAt := Some(now))];
      }
      return Ok(());
    }

    /** Makes a row due again, delivered or not; its attempts are kept. */
    method ForceRedeliver(eventId: nat, now: int) returns (r: Result<bool, DbError>)
      requires UniqueEvents(rows)
      modifies this
      ensures UniqueEvents(rows) && |rows| == |old(rows)|
      ensures available ==> r.Ok?
      ensures r.Err? ==> rows == old(rows)
      ensures r.Ok? ==> (r.value <==> !Unused(old(rows), eventId))
      ensures r.Ok? ==> rows == RedeliveredRows(old(rows), eventId, now)
      ensures r.Ok? ==> forall i :: 0 <= i < |rows| ==>
        rows[i] == if old(rows)[i].eventId == eventId then old(rows)[i].(deliveredAt := None, nextAttempt := now)
                   else old(rows)[i]
    {
      if !available {
        if * {
          return Err(DbUnavailable);
        }
      }
      if id :| 0 <= id < |rows| && rows[id].eventId == eventId {
        rows := rows[id := rows[id].(deliveredAt := None, nextAttempt := now)];
        return Ok(true);
      }
      return Ok(false);
    }

    method PendingCount() returns (n: nat)
      ensures n == |PendingIds(rows)|
    {
      n := 0;
      ghost var seen: set<nat> := {};
      for i := 0 to |rows|
        invariant n == |seen|
        invariant seen == set k: nat | k < i && Pending(rows[k])
      {
        if Pending(rows[i]) {
          n := n + 1;
          seen := seen + {i};
        }
      }
    }
  }
}
