/** The world outside an ingest worker: a remote log that only grows, and the channel to the writer. */
module CtLog {
  import opened Wrappers
  import opened Entry

  datatype RawEntry = RawEntry(leafInput: bytes, extraData: bytes)
  datatype LogInfo = LogInfo(logId: bytes, url: string, operator: string)
  datatype WriterJob = WriterJob(log: LogInfo, entry: DecodedEntry)
  datatype RequestError = RequestFailed

  type pos = n: nat | n > 0 witness 1

  /** What a log says: for each index the entry it decodes to, or None if it does not decode. */
  type Timeline = seq<Option<DecodedEntry>>

  function Meaning(raw: RawEntry): Option<DecodedEntry> {
    match Decode(raw.leafInput, raw.extraData)
    case Ok(e) => Some(e)
    case Err(_) => None
  }

  function TimelineOf(entries: seq<RawEntry>): (log: Timeline)
    ensures |log| == |entries| && forall i :: 0 <= i < |log| ==> log[i] == Meaning(entries[i])
  {
    seq(|entries|, i requires 0 <= i < |entries| => Meaning(entries[i]))
  }

  /** The entries are those of the log from `start` on. */
  ghost predicate Reads(entries: seq<RawEntry>, log: Timeline, start: nat) {
    start + |entries| <= |log| && forall i :: 0 <= i < |entries| ==> Meaning(entries[i]) == log[start + i]
  }

  ghost predicate AllDecode(log: Timeline, lo: nat, hi: nat) {
    hi <= |log| && forall i :: lo <= i < hi ==> log[i].Some?
  }

  /** What index `i` owes the writer: its job if it decodes, nothing otherwise. */
  function JobsAt(info: LogInfo, log: Timeline, i: nat): seq<WriterJob>
    requires i < |log|
  {
    match log[i]
    case Some(e) => [WriterJob(info, e)]
    case None => []
  }

  ghost predicate Delivered(info: LogInfo, log: Timeline, i: nat, sent: seq<WriterJob>)
    requires i < |log|
  {
    log[i].Some? ==> WriterJob(info, log[i].value) in sent
  }

  /** The job is that of some index from `lo` on. */
  ghost predicate JobFrom(info: LogInfo, log: Timeline, lo: nat, job: WriterJob) {
    exists i :: lo <= i < |log| && log[i].Some? && job == WriterJob(info, log[i].value)
  }

  /** A log server as RFC 6962 sections 4.3 and 4.6 let a client see it: requests may fail, a tree
      head may be stale, and a reply is a run of entries beginning at `start` and no longer than
      asked, possibly empty. A server that is `regular` cuts a reply short only to keep it to `cap`
      entries; one that is `reachable` never fails a request and shows its latest tree head. */
  class CtServer {
    var entries: seq<RawEntry>
    const regular: bool
    const cap: pos
    const reachable: bool

    method GetSth() returns (r: Result<nat, RequestError>)
      ensures r.Ok? ==> r.value <= |entries|
      ensures reachable ==> r == Ok(|entries|)
    {
      if reachable {
        return Ok(|entries|);
      }
      if * {
        return Err(RequestFailed);
      }
      var treeSize :| 0 <= treeSize <= |entries|;
      return Ok(treeSize);
    }

    method GetEntries(start: nat, end: nat) returns (r: Result<seq<RawEntry>, RequestError>)
      ensures end < start ==> r.Err?
      ensures reachable && start <= end ==> r.Ok?
      ensures r.Ok? ==> |r.value| <= end + 1 - start && start + |r.value| <= Max(start, |entries|)
      ensures r.Ok? && r.value != [] ==> r.value == entries[start..start + |r.value|]
      ensures r.Ok? && start <= |entries| ==> Reads(r.value, TimelineOf(entries), start)
      ensures r.Ok? && regular && end < |entries| ==> |r.value| == Min(end + 1 - start, cap)
    {
      hide Meaning;
      if end < start {
        return Err(RequestFailed);
      }
      if !reachable {
        if * {
          return Err(RequestFailed);
        }
      }
      var last := if end < |entries| then end + 1 else |entries|;
      if start >= last {
        return Ok([]);
      }
      var k: nat := Min(last - start, cap);
      if !regular {
        k :| 0 <= k <= last - start;
      }
      return Ok(entries[start..start + k]);
    }
  }

  function Min(a: nat, b: nat): nat {
    if a < b then a else b
  }

  function Max(a: nat, b: nat): nat {
    if a < b then b else a
  }

  /** The sending half of the writer's queue. Once the receiver is gone a send fails and the job is lost. */
  class WriterChannel {
    var sent: seq<WriterJob>
    var open: bool

    /** The receiver may go at any moment; it does not come back. */
    method Send(job: WriterJob) returns (ok: bool)
      modifies this
      ensures ok == open && (open ==> old(open))
      ensures sent == if open then old(sent) + [job] else old(sent)
    {
      if * {
        open := false;
      }
      if open {
        sent := sent + [job];
      }
      return open;
    }
  }
}
