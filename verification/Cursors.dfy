/** The table `ingest_cursors`; every method is one SQL statement, which may also fail unless
    the database is `available`. */
module Cursors {
  import opened Wrappers
  import opened Entry
  import opened CtLog

  datatype Cursor = Cursor(url: string, operator: string, lastTreeSize: nat)

  class CursorTable {
    var rows: map<bytes, Cursor>
    const available: bool

    /** A known log keeps its position. */
    method Upsert(info: LogInfo) returns (r: Result<(), DbError>)
      modifies this
      ensures available ==> r.Ok?
      ensures r.Err? ==> rows == old(rows)
      ensures r.Ok? ==> rows == old(rows)[info.logId := Cursor(info.url, info.operator,
                          if info.logId in old(rows) then old(rows)[info.logId].lastTreeSize else 0)]
    {
      if !available {
        if * {
          return Err(DbUnavailable);
        }
      }
      var position := if info.logId in rows then rows[info.logId].lastTreeSize else 0;
      rows := rows[info.logId := Cursor(info.url, info.operator, position)];
      return Ok(());
    }

    /** `current_cursor`: the row has to exist. */
    method Current(logId: bytes) returns (r: Result<nat, DbError>)
      ensures available ==> (r.Ok? <==> logId in rows)
      ensures r.Ok? ==> logId in rows && r.value == rows[logId].lastTreeSize
    {
      if !available {
        if * {
          return Err(DbUnavailable);
        }
      }
      if logId !in rows {
        return Err(RowNotFound);
      }
      return Ok(rows[logId].lastTreeSize);
    }

    /** Moves the cursor forward only. */
    method Advance(logId: bytes, newTreeSize: nat) returns (r: Result<(), DbError>)
      modifies this
      ensures available ==> r.Ok?
      ensures rows == if r.Ok? && logId in old(rows) && old(rows)[logId].lastTreeSize < newTreeSize
                      then old(rows)[logId := old(rows)[logId].(lastTreeSize := newTreeSize)] else old(rows)
    {
      if !available {
        if * {
          return Err(DbUnavailable);
        }
      }
      if logId in rows && rows[logId].lastTreeSize < newTreeSize {
        rows := rows[logId := rows[logId].(lastTreeSize := newTreeSize)];
      }
      return Ok(());
    }
  }
}
