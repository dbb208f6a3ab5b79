/** The single writer: it batches what the ingest workers send, stores new certificates, counts names,
    enqueues watchlist alerts, and keeps the counters. */
module Writer {
  import opened Wrappers
  import opened Entry
  import opened CtLog
  import opened CertData
  import opened Certs
  import Names
  import Outbox
  import Stats

  datatype Parsed = Parsed(
    issuerHash: bytes, issuerCn: string, notBefore: int, notAfter: int,
    sans: seq<string>, registeredDomains: seq<string>)

  /** The libraries the writer calls: SHA-256, the X.509 parser, the Public Suffix List and the watchlist. */
  datatype Lib = Lib(sha256: bytes -> bytes, parse: bytes -> Option<Parsed>, regdom: RegDom, watched: string -> bool)

  // ---------------------------------------------------------------------------------------------
  // What a batch asks for
  // ---------------------------------------------------------------------------------------------

  /** Only precerts are kept, and of them their DER. */
  function PrecertDer(job: WriterJob): Option<bytes> {
    if job.entry.kind.Precert? then job.entry.precertDer else None
  }

  function RowOf(lib: Lib, der: bytes, parsed: Parsed): CertRow {
    CertRow(lib.sha256(der), parsed.issuerHash, parsed.issuerCn, parsed.notBefore, parsed.notAfter,
            parsed.sans, parsed.registeredDomains)
  }

  datatype Verdict = Ignored | Stale | Accepted(row: CertRow)

  function Judge(lib: Lib, cutoff: int, job: WriterJob): Verdict {
    match PrecertDer(job)
    case None => Ignored
    case Some(der) =>
      match lib.parse(der)
      case None => Ignored
      case Some(parsed) => if parsed.notBefore < cutoff then Stale else Accepted(RowOf(lib, der, parsed))
  }

  function Rows(lib: Lib, cutoff: int, jobs: seq<WriterJob>): seq<CertRow> {
    if jobs == [] then []
    else
      var rest := Rows(lib, cutoff, jobs[..|jobs| - 1]);
      match Judge(lib, cutoff, jobs[|jobs| - 1])
      case Accepted(row) => rest + [row]
      case _ => rest
  }

  function StaleCount(lib: Lib, cutoff: int, jobs: seq<WriterJob>): nat {
    if jobs == [] then 0
    else StaleCount(lib, cutoff, jobs[..|jobs| - 1]) + if Judge(lib, cutoff, jobs[|jobs| - 1]).Stale? then 1 else 0
  }

  function NamesOf(lib: Lib, row: CertRow, n: nat): seq<Names.Event>
    requires n <= |row.sans|
  {
    if n == 0 then []
    else NamesOf(lib, row, n - 1) + [Names.Seen(row.sans[n - 1], DomainOf(lib.regdom, row.sans[n - 1]), row.notBefore)]
  }

  /** One observation for every name of every accepted row, new or not. */
  function Observations(lib: Lib, rows: seq<CertRow>): seq<Names.Event> {
    if rows == [] then []
    else
      var row := rows[|rows| - 1];
      Observations(lib, rows[..|rows| - 1]) + NamesOf(lib, row, |row.sans|)
  }

  function Matches(watched: string -> bool, domains: seq<string>): seq<string> {
    if domains == [] then []
    else
      var d := domains[|domains| - 1];
      Matches(watched, domains[..|domains| - 1]) + if watched(d) then [d] else []
  }

  function Alerts(lib: Lib, now: int, rows: seq<CertRow>): seq<Alert> {
    if rows == [] then []
    else
      var row := rows[|rows| - 1];
      var matches := Matches(lib.watched, row.registeredDomains);
      Alerts(lib, now, rows[..|rows| - 1]) + if matches == [] then [] else [Alert(now, matches, row)]
  }

  function Inserted(lib: Lib, t: Tables, rows: seq<CertRow>): nat {
    GrowthExact(lib.regdom, t, rows);
    |InsertAll(lib.regdom, t, rows).certs| - |t.certs|
  }

  /** Alerts go out for every matching row as soon as one row of the batch is new. */
  function BatchAlerts(lib: Lib, t: Tables, now: int, rows: seq<CertRow>): seq<Alert> {
    if Inserted(lib, t, rows) == 0 then [] else Alerts(lib, now, rows)
  }

  /** The certificate tables and the counters. */
  datatype Core = Core(tables: Tables, certs: nat, dups: nat, watchlist: nat, streamSent: nat)

  /** One flush: its batch, its clock reading, whether the insert transaction was committed, and for its
      observations and its alerts, one after another, whether each was stored. Where the process died before it
      came to one of them, the list is short. */
  datatype Cut = Cut(batch: seq<WriterJob>, now: int, stored: bool, observed: seq<bool>, enqueued: seq<bool>)

  /** The elements whose mark is set; those without a mark are left out. */
  function Pick<T>(s: seq<T>, marks: seq<bool>): seq<T> {
    if s == [] || marks == [] then [] else (if marks[0] then [s[0]] else []) + Pick(s[1..], marks[1..])
  }

  function CutoffOf(retentionDays: nat, now: int): int {
    now - retentionDays * DAY
  }

  lemma CutoffIs(retentionDays: nat, now: int)
    ensures CutoffOf(retentionDays, now) == now - retentionDays * 86_400 * 1_000_000
  {
  }

  function FlushCore(lib: Lib, retentionDays: nat, core: Core, cut: Cut): Core {
    var cutoff := CutoffOf(retentionDays, cut.now);
    var rows, stale := Rows(lib, cutoff, cut.batch), StaleCount(lib, cutoff, cut.batch);
    if !cut.stored then core.(dups := core.dups + stale)
    else
      var inserted := Inserted(lib, core.tables, rows);
      GrowthExact(lib.regdom, core.tables, rows);
      Core(InsertAll(lib.regdom, core.tables, rows),
           core.certs + inserted,
           core.dups + stale + (|rows| - inserted),
           core.watchlist + |BatchAlerts(lib, core.tables, cut.now, rows)|,
           core.streamSent + |rows|)
  }

  function RowsOf(lib: Lib, retentionDays: nat, cut: Cut): seq<CertRow> {
    Rows(lib, CutoffOf(retentionDays, cut.now), cut.batch)
  }

  /** The observations a flush stores. */
  function Heard(lib: Lib, retentionDays: nat, cut: Cut): seq<Names.Event> {
    if !cut.stored then [] else Pick(Observations(lib, RowsOf(lib, retentionDays, cut)), cut.observed)
  }

  /** The alerts a flush enqueues. */
  function Raised(lib: Lib, retentionDays: nat, t: Tables, cut: Cut): seq<Alert> {
    if !cut.stored then [] else Pick(BatchAlerts(lib, t, cut.now, RowsOf(lib, retentionDays, cut)), cut.enqueued)
  }

  /** The first `n` marks are there and set. */
  predicate AllSet(marks: seq<bool>, n: nat) {
    n <= |marks| && forall j :: 0 <= j < n ==> marks[j]
  }

  /** A committed flush stored all of its observations. */
  ghost predicate NamesComplete(lib: Lib, retentionDays: nat, cut: Cut) {
    cut.stored ==> AllSet(cut.observed, |Observations(lib, RowsOf(lib, retentionDays, cut))|)
  }

  /** A committed flush against these tables enqueued all of its alerts. */
  ghost predicate AlertsComplete(lib: Lib, retentionDays: nat, t: Tables, cut: Cut) {
    cut.stored ==> AllSet(cut.enqueued, |BatchAlerts(lib, t, cut.now, RowsOf(lib, retentionDays, cut))|)
  }

  function Bodies(rows: seq<Outbox.Row>): seq<Alert> {
    seq(|rows|, i requires 0 <= i < |rows| => rows[i].body.alert)
  }

  // ---------------------------------------------------------------------------------------------
  // A run of the writer: one flush after another
  // ---------------------------------------------------------------------------------------------

  function Joined(cuts: seq<Cut>): seq<WriterJob> {
    if cuts == [] then [] else Joined(cuts[..|cuts| - 1]) + cuts[|cuts| - 1].batch
  }

  function FlushAll(lib: Lib, retentionDays: nat, core: Core, cuts: seq<Cut>): Core {
    if cuts == [] then core
    else FlushCore(lib, retentionDays, FlushAll(lib, retentionDays, core, cuts[..|cuts| - 1]), cuts[|cuts| - 1])
  }

  function HeardAll(lib: Lib, retentionDays: nat, cuts: seq<Cut>): seq<Names.Event> {
    if cuts == [] then []
    else HeardAll(lib, retentionDays, cuts[..|cuts| - 1]) + Heard(lib, retentionDays, cuts[|cuts| - 1])
  }

  function RaisedAll(lib: Lib, retentionDays: nat, core: Core, cuts: seq<Cut>): seq<Alert> {
    if cuts == [] then []
    else
      var before := cuts[..|cuts| - 1];
      RaisedAll(lib, retentionDays, core, before)
        + Raised(lib, retentionDays, FlushAll(lib, retentionDays, core, before).tables, cuts[|cuts| - 1])
  }

  /** Of a run, the first `n` flushes enqueued all of their alerts. */
  ghost predicate AllComplete(lib: Lib, retentionDays: nat, core: Core, cuts: seq<Cut>, n: nat)
    requires n <= |cuts|
  {
    forall k :: 0 <= k < n ==>
      AlertsComplete(lib, retentionDays, FlushAll(lib, retentionDays, core, cuts[..k]).tables, cuts[k])
  }

  lemma CompleteNext(lib: Lib, retentionDays: nat, core: Core, cuts: seq<Cut>, cut: Cut)
    requires AllComplete(lib, retentionDays, core, cuts, |cuts|)
    ensures AllComplete(lib, retentionDays, core, cuts + [cut], |cuts|)
    ensures AlertsComplete(lib, retentionDays, FlushAll(lib, retentionDays, core, cuts).tables, cut) ==>
            AllComplete(lib, retentionDays, core, cuts + [cut], |cuts| + 1)
  {
    hide FlushAll, AlertsComplete;
    assert forall k :: 0 <= k <= |cuts| ==> (cuts + [cut])[..k] == cuts[..k];
    assert cuts[..|cuts|] == cuts;
  }

  lemma CompletePrefix(lib: Lib, retentionDays: nat, core: Core, cuts: seq<Cut>)
    ensures AllComplete(lib, retentionDays, core, [], 0)
    ensures AllComplete(lib, retentionDays, core, cuts, |cuts|) ==>
            forall n :: 0 <= n <= |cuts| ==> AllComplete(lib, retentionDays, core, cuts, n)
  {
  }

  lemma NoFlush(lib: Lib, retentionDays: nat, core: Core)
    ensures FlushAll(lib, retentionDays, core, []) == core && Joined([]) == []
    ensures HeardAll(lib, retentionDays, []) == [] && RaisedAll(lib, retentionDays, core, []) == []
  {
  }

  lemma FlushNext(lib: Lib, retentionDays: nat, core: Core, cuts: seq<Cut>, cut: Cut)
    ensures FlushAll(lib, retentionDays, core, cuts + [cut])
         == FlushCore(lib, retentionDays, FlushAll(lib, retentionDays, core, cuts), cut)
    ensures Joined(cuts + [cut]) == Joined(cuts) + cut.batch
    ensures HeardAll(lib, retentionDays, cuts + [cut])
         == HeardAll(lib, retentionDays, cuts) + Heard(lib, retentionDays, cut)
    ensures RaisedAll(lib, retentionDays, core, cuts + [cut])
         == RaisedAll(lib, retentionDays, core, cuts)
            + Raised(lib, retentionDays, FlushAll(lib, retentionDays, core, cuts).tables, cut)
  {
    assert (cuts + [cut])[..|cuts|] == cuts;
  }

  /** What a run of flushes has made of the tables, the names and the outbox, between two readings of the clock. */
  ghost predicate Recorded(lib: Lib, retentionDays: nat, core: Core, names: map<string, Names.NameRow>,
                           rows: seq<Outbox.Row>, from: int, cuts: seq<Cut>,
                           t': Tables, names': map<string, Names.NameRow>, rows': seq<Outbox.Row>, to: int) {
    && t' == FlushAll(lib, retentionDays, core, cuts).tables
    && names' == Names.Replay(names, HeardAll(lib, retentionDays, cuts))
    && Bodies(rows') == Bodies(rows) + RaisedAll(lib, retentionDays, core, cuts)
    && Outbox.Appended(rows, rows', from, to)
    && forall k :: 0 <= k < |cuts| ==> 1 <= |cuts[k].batch| <= 100 && from <= cuts[k].now <= to
  }

  lemma RecordedNothing(lib: Lib, retentionDays: nat, core: Core, names: map<string, Names.NameRow>,
                        rows: seq<Outbox.Row>, now: int)
    ensures Recorded(lib, retentionDays, core, names, rows, now, [], core.tables, names, rows, now)
  {
    ReplayNothing(names);
    NoFlush(lib, retentionDays, core);
  }

  lemma RecordedMeans(lib: Lib, retentionDays: nat, core: Core, names: map<string, Names.NameRow>,
                      rows: seq<Outbox.Row>, from: int, cuts: seq<Cut>,
                      t': Tables, names': map<string, Names.NameRow>, rows': seq<Outbox.Row>, to: int)
    requires Recorded(lib, retentionDays, core, names, rows, from, cuts, t', names', rows', to)
    ensures t' == FlushAll(lib, retentionDays, core, cuts).tables
    ensures names' == Names.Replay(names, HeardAll(lib, retentionDays, cuts))
    ensures Bodies(rows') == Bodies(rows) + RaisedAll(lib, retentionDays, core, cuts)
    ensures Outbox.Appended(rows, rows', from, to)
    ensures forall k :: 0 <= k < |cuts| ==> 1 <= |cuts[k].batch| <= 100 && from <= cuts[k].now <= to
  {
  }

  lemma RecordedNext(lib: Lib, retentionDays: nat, core: Core, names: map<string, Names.NameRow>,
                     rows: seq<Outbox.Row>, from: int, cuts: seq<Cut>,
                     t': Tables, names': map<string, Names.NameRow>, rows': seq<Outbox.Row>, to: int,
                     cut: Cut, t'': Tables, names'': map<string, Names.NameRow>, rows'': seq<Outbox.Row>)
    requires Recorded(lib, retentionDays, core, names, rows, from, cuts, t', names', rows', to)
    requires to <= cut.now && 1 <= |cut.batch| <= 100
    requires t'' == FlushCore(lib, retentionDays, FlushAll(lib, retentionDays, core, cuts), cut).tables
    requires names'' == Names.Replay(names', Heard(lib, retentionDays, cut))
    requires Bodies(rows'') == Bodies(rows') + Raised(lib, retentionDays, t', cut)
    requires Outbox.Appended(rows', rows'', cut.now, cut.now)
    ensures Recorded(lib, retentionDays, core, names, rows, from, cuts + [cut], t'', names'', rows'', cut.now)
  {
    hide FlushCore, FlushAll, HeardAll, RaisedAll, Heard, Raised, Names.Replay, Bodies;
    FlushNext(lib, retentionDays, core, cuts, cut);
    Names.ReplaySplits(names, HeardAll(lib, retentionDays, cuts), Heard(lib, retentionDays, cut));
    Outbox.AppendedNothing(rows', to, cut.now);
    Outbox.AppendedNext(rows, rows', rows', from, to, cut.now);
    Outbox.AppendedNext(rows, rows', rows'', from, cut.now, cut.now);
  }

  /** `recv` one job, then `try_recv` more while there are any, a hundred in all. */
  method TakeBatch(received: seq<WriterJob>, from: nat) returns (batch: seq<WriterJob>)
    requires from < |received|
    ensures 1 <= |batch| <= 100 && from + |batch| <= |received| && batch == received[from..from + |batch|]
  {
    batch := [received[from]];
    var more := true;
    while more && from + |batch| < |received|
      invariant 1 <= |batch| <= 100 && from + |batch| <= |received| && batch == received[from..from + |batch|]
      invariant more ==> |batch| < 100
      decreases |received| - |batch|, more
    {
      if * {
        more := false;
      } else {
        batch := batch + [received[from + |batch|]];
        if |batch| >= 100 {
          more := false;
        }
      }
    }
  }

  lemma BodiesAppend(rows: seq<Outbox.Row>, row: Outbox.Row)
    ensures Bodies(rows + [row]) == Bodies(rows) + [row.body.alert]
  {
  }

  lemma {:induction false} PickConcat<T>(a: seq<T>, ka: seq<bool>, b: seq<T>, kb: seq<bool>)
    requires |ka| == |a|
    ensures Pick(a + b, ka + kb) == Pick(a, ka) + Pick(b, kb)
  {
    if a == [] {
      assert a + b == b && ka + kb == kb;
    } else {
      PickConcat(a[1..], ka[1..], b, kb);
      assert (a + b)[1..] == a[1..] + b && (ka + kb)[1..] == ka[1..] + kb;
    }
  }

  lemma PickNext<T>(a: seq<T>, ka: seq<bool>, x: T, k: bool)
    requires |ka| == |a|
    ensures Pick(a + [x], ka + [k]) == Pick(a, ka) + if k then [x] else []
  {
    PickConcat(a, ka, [x], [k]);
    assert [x][1..] == [] && [k][1..] == [];
  }

  lemma {:induction false} NamesOfGrow(lib: Lib, row: CertRow, j: nat, n: nat)
    requires j <= n <= |row.sans|
    ensures NamesOf(lib, row, j) <= NamesOf(lib, row, n)
  {
    if j < n {
      NamesOfGrow(lib, row, j, n - 1);
    }
  }

  lemma {:induction false} ObservationsGrow(lib: Lib, rows: seq<CertRow>, i: nat)
    requires i <= |rows|
    ensures Observations(lib, rows[..i]) <= Observations(lib, rows)
  {
    if i < |rows| {
      ObservationsGrow(lib, rows[..|rows| - 1], i);
      assert rows[..|rows| - 1][..i] == rows[..i];
    } else {
      assert rows[..i] == rows;
    }
  }

  lemma {:induction false} AlertsGrow(lib: Lib, now: int, rows: seq<CertRow>, i: nat)
    requires i <= |rows|
    ensures Alerts(lib, now, rows[..i]) <= Alerts(lib, now, rows)
  {
    if i < |rows| {
      AlertsGrow(lib, now, rows[..|rows| - 1], i);
      assert rows[..|rows| - 1][..i] == rows[..i];
    } else {
      assert rows[..i] == rows;
    }
  }

  lemma AlertsNext(lib: Lib, now: int, rows: seq<CertRow>, i: nat)
    requires i < |rows|
    ensures var before, matches := Alerts(lib, now, rows[..i]), Matches(lib.watched, rows[i].registeredDomains);
            Alerts(lib, now, rows[..i + 1]) == if matches == [] then before else before + [Alert(now, matches, rows[i])]
  {
    assert rows[..i + 1][..i] == rows[..i];
  }

  lemma NoAlerts(lib: Lib, now: int)
    ensures Alerts(lib, now, []) == []
  {
  }

  lemma PickNothing<T>(s: seq<T>)
    ensures Pick(s, []) == []
  {
  }

  lemma {:induction false} PickAll<T>(s: seq<T>, marks: seq<bool>)
    requires AllSet(marks, |s|)
    ensures Pick(s, marks) == s
  {
    if s != [] {
      PickAll(s[1..], marks[1..]);
      assert s == [s[0]] + s[1..];
    }
  }

  /** Marks that end early pick from what they cover. */
  lemma {:induction false} PickShort<T>(a: seq<T>, s: seq<T>, marks: seq<bool>)
    requires a <= s && |marks| <= |a|
    ensures Pick(s, marks) == Pick(a, marks)
  {
    if marks != [] {
      PickShort(a[1..], s[1..], marks[1..]);
    }
  }

  lemma ReplayNothing(rows: map<string, Names.NameRow>)
    ensures Names.Replay(rows, []) == rows
  {
  }

  // ---------------------------------------------------------------------------------------------
  // The writer task
  // ---------------------------------------------------------------------------------------------

  /** `Partial`: the certificates were stored but a name or an alert was not. `Died`: the process ended during the
      flush. */
  datatype FlushResult = InsertFailed | Partial | Clean | Died

  class Writer {
    const lib: Lib
    const retentionDays: nat
    const store: CertStore
    const names: Names.NamesTable
    const outbox: Outbox.OutboxTable
    const counters: Stats.Counters
    /** whether the process may end at any moment */
    const mayDie: bool

    constructor (lib: Lib, retentionDays: nat, store: CertStore, names: Names.NamesTable, outbox: Outbox.OutboxTable,
                 counters: Stats.Counters, mayDie: bool)
      ensures this.lib == lib && this.retentionDays == retentionDays && this.store == store && this.names == names
      ensures this.outbox == outbox && this.counters == counters && this.mayDie == mayDie
    {
      this.mayDie := mayDie;
      this.lib, this.retentionDays := lib, retentionDays;
      this.store, this.names, this.outbox, this.counters := store, names, outbox, counters;
    }

    ghost function CoreNow(): Core
      reads store, counters
    {
      Core(store.Contents(), counters.certs, counters.dups, counters.watchlist, counters.streamSent)
    }

    lemma CoreHolds()
      ensures CoreNow().tables == store.Contents()
    {
    }

    method JudgeBatch(batch: seq<WriterJob>, cutoff: int) returns (rows: seq<CertRow>)
      modifies counters
      ensures rows == Rows(lib, cutoff, batch)
      ensures AreRowsOf(lib, cutoff, batch, rows)
      ensures CoreNow() == old(CoreNow()).(dups := old(CoreNow()).dups + StaleCount(lib, cutoff, batch))
    {
      rows := [];
      for i := 0 to |batch|
        invariant rows == Rows(lib, cutoff, batch[..i])
        invariant CoreNow() == old(CoreNow()).(dups := old(CoreNow()).dups + StaleCount(lib, cutoff, batch[..i]))
      {
        assert batch[..i + 1][..i] == batch[..i];
        var entry := batch[i].entry;
        if !(entry.kind.Precert? && entry.precertDer.Some?) {
          continue;
        }
        var der := entry.precertDer.value;
        var parse := lib.parse(der);
        if parse.None? {
          continue;
        }
        var parsed := parse.value;
        if parsed.notBefore < cutoff {
          counters.dups := counters.dups + 1;
          continue;
        }
        rows := rows + [CertRow(lib.sha256(der), parsed.issuerHash, parsed.issuerCn, parsed.notBefore, parsed.notAfter,
                                parsed.sans, parsed.registeredDomains)];
      }
      assert batch[..|batch|] == batch;
      RowsExact(lib, cutoff, batch);
    }

    /** Tells of each name of the row whether its statement succeeded. */
    method ObserveRow(row: CertRow) returns (alive: bool, clean: bool, ghost observed: seq<bool>)
      modifies names
      ensures |observed| <= |row.sans| && (alive ==> |observed| == |row.sans|) && (mayDie || alive)
      ensures names.rows == Names.Replay(old(names.rows), Pick(NamesOf(lib, row, |row.sans|), observed))
      ensures clean ==> AllSet(observed, |observed|)
      ensures names.available ==> clean
    {
      hide Names.Replay, Names.Step, Pick;
      ReplayNothing(names.rows);
      PickNothing<Names.Event>(NamesOf(lib, row, 0));
      alive, clean, observed := true, true, [];
      for j := 0 to |row.sans|
        invariant alive && |observed| == j == |NamesOf(lib, row, j)|
        invariant names.rows == Names.Replay(old(names.rows), Pick(NamesOf(lib, row, j), observed))
        invariant clean ==> AllSet(observed, |observed|)
        invariant names.available ==> clean
      {
        if mayDie {
          if * {
            NamesOfGrow(lib, row, j, |row.sans|);
            PickShort(NamesOf(lib, row, j), NamesOf(lib, row, |row.sans|), observed);
            return false, clean, observed;
          }
        }
        var name := row.sans[j];
        var found := lib.regdom(name);
        var domain := if found.Some? then found.value else name;
        ghost var heard := Pick(NamesOf(lib, row, j), observed);
        var upserted := names.Upsert(name, domain, row.notBefore);
        clean := clean && upserted.Ok?;
        Names.ReplayNext(old(names.rows), heard, Names.Seen(name, domain, row.notBefore));
        PickNext(NamesOf(lib, row, j), observed, Names.Seen(name, domain, row.notBefore), upserted.Ok?);
        assert heard + [] == heard;
        observed := observed + [upserted.Ok?];
      }
    }

    method ObserveNames(rows: seq<CertRow>) returns (alive: bool, clean: bool, ghost observed: seq<bool>)
      modifies names
      ensures names.rows == Names.Replay(old(names.rows), Pick(Observations(lib, rows), observed))
      ensures (alive ==> |observed| == |Observations(lib, rows)|) && (mayDie || alive)
      ensures clean ==> AllSet(observed, |observed|)
      ensures names.available ==> clean
    {
      hide Names.Replay, Pick, NamesOf;
      ReplayNothing(names.rows);
      PickNothing<Names.Event>([]);
      alive, clean, observed := true, true, [];
      for i := 0 to |rows|
        invariant alive && |observed| == |Observations(lib, rows[..i])|
        invariant names.rows == Names.Replay(old(names.rows), Pick(Observations(lib, rows[..i]), observed))
        invariant clean ==> AllSet(observed, |observed|)
        invariant names.available ==> clean
      {
        assert rows[..i + 1][..i] == rows[..i];
        ghost var before, all := Observations(lib, rows[..i]), NamesOf(lib, rows[i], |rows[i].sans|);
        var rowClean;
        ghost var rowObserved;
        alive, rowClean, rowObserved := ObserveRow(rows[i]);
        clean := clean && rowClean;
        Names.ReplaySplits(old(names.rows), Pick(before, observed), Pick(all, rowObserved));
        PickConcat(before, observed, all, rowObserved);
        RowSeen(lib, rows[i], |rows[i].sans|);
        observed := observed + rowObserved;
        if !alive {
          ObservationsGrow(lib, rows, i + 1);
          PickShort(before + all, Observations(lib, rows), observed);
          return;
        }
      }
      assert rows[..|rows|] == rows;
    }

    /** The two random ids of an alert: one goes into the body, the other to the row. */
    method FreshIds() returns (bodyId: nat, eventId: nat)
      ensures Outbox.Unused(outbox.rows, eventId) && Outbox.IdsFresh(outbox.rows, eventId, bodyId)
    {
      ghost var some := Outbox.UnusedExists(outbox.rows);
      assert Outbox.Unused(outbox.rows, some);
      bodyId :| Outbox.Unused(outbox.rows, bodyId);
      ghost var other := Outbox.FreshExists(outbox.rows, bodyId);
      eventId :| Outbox.Unused(outbox.rows, eventId) && Outbox.IdsFresh(outbox.rows, eventId, bodyId);
    }

    /** One alert, under two ids of its own. */
    method EnqueueAlert(alert: Alert, now: int) returns (ok: bool)
      requires Outbox.UniqueEvents(outbox.rows)
      modifies outbox
      ensures Outbox.UniqueEvents(outbox.rows) && (outbox.available ==> ok)
      ensures Bodies(outbox.rows) == old(Bodies(outbox.rows)) + if ok then [alert] else []
      ensures Outbox.Appended(old(outbox.rows), outbox.rows, now, now)
      ensures old(Outbox.IdsApart(outbox.rows)) ==> Outbox.IdsApart(outbox.rows)
    {
      hide Bodies, Outbox.IdsApart, Outbox.UniqueEvents;
      var bodyId, eventId := FreshIds();
      ghost var newRow := Outbox.NewRow(eventId, Message(bodyId, alert), now);
      BodiesAppend(outbox.rows, newRow);
      Outbox.AppendApart(outbox.rows, newRow);
      assert Bodies(outbox.rows) + [] == Bodies(outbox.rows);
      var result := outbox.Enqueue(eventId, Message(bodyId, alert), now);
      return result.Ok?;
    }

    method EnqueueAlerts(rows: seq<CertRow>, inserted: nat, now: int)
      returns (alive: bool, clean: bool, ghost enqueued: seq<bool>)
      requires Outbox.UniqueEvents(outbox.rows)
      modifies outbox, counters`watchlist
      ensures Outbox.UniqueEvents(outbox.rows)
      ensures var all := if inserted == 0 then [] else Alerts(lib, now, rows);
        && Bodies(outbox.rows) == old(Bodies(outbox.rows)) + Pick(all, enqueued)
        && (alive ==> counters.watchlist == old(counters.watchlist) + |all|)
        && (alive ==> |enqueued| == |all|)
      ensures clean ==> AllSet(enqueued, |enqueued|)
      ensures (outbox.available ==> clean) && (mayDie || alive)
      ensures Outbox.Appended(old(outbox.rows), outbox.rows, now, now)
      ensures old(Outbox.IdsApart(outbox.rows)) ==> Outbox.IdsApart(outbox.rows)
    {
      hide Pick, Matches, Alerts, Bodies, Outbox.IdsApart, Outbox.UniqueEvents, Outbox.Appended;
      Outbox.AppendedNothing(outbox.rows, now, now);
      NoAlerts(lib, now);
      PickNothing<Alert>([]);
      alive, clean, enqueued := true, true, [];
      for i := 0 to |rows|
        invariant alive && Outbox.UniqueEvents(outbox.rows)
        invariant inserted == 0 ==> i == 0
        invariant |enqueued| == |Alerts(lib, now, rows[..i])|
        invariant counters.watchlist == old(counters.watchlist) + |Alerts(lib, now, rows[..i])|
        invariant Bodies(outbox.rows) == old(Bodies(outbox.rows)) + Pick(Alerts(lib, now, rows[..i]), enqueued)
        invariant clean ==> AllSet(enqueued, |enqueued|)
        invariant Outbox.Appended(old(outbox.rows), outbox.rows, now, now)
        invariant old(Outbox.IdsApart(outbox.rows)) ==> Outbox.IdsApart(outbox.rows)
        invariant outbox.available ==> clean
      {
        if inserted == 0 {
          break;
        }
        if mayDie {
          if * {
            AlertsGrow(lib, now, rows, i);
            PickShort(Alerts(lib, now, rows[..i]), Alerts(lib, now, rows), enqueued);
            return false, clean, enqueued;
          }
        }
        AlertsNext(lib, now, rows, i);
        var matches := Matches(lib.watched, rows[i].registeredDomains);
        if matches != [] {
          counters.watchlist := counters.watchlist + 1;
          var alert := Alert(now, matches, rows[i]);
          ghost var rowsBefore := outbox.rows;
          var ok := EnqueueAlert(alert, now);
          Outbox.AppendedNext(old(outbox.rows), rowsBefore, outbox.rows, now, now, now);
          clean := clean && ok;
          ghost var raised := Pick(Alerts(lib, now, rows[..i]), enqueued);
          assert raised + [] == raised;
          assert old(Bodies(outbox.rows)) + (raised + [alert]) == old(Bodies(outbox.rows)) + raised + [alert];
          PickNext(Alerts(lib, now, rows[..i]), enqueued, alert, ok);
          enqueued := enqueued + [ok];
        }
      }
      assert rows[..|rows|] == rows;
    }

    /** The insert transaction and what the counters make of it: the rows that are not new count as duplicates. */
    method StoreRows(rows: seq<CertRow>) returns (r: Result<nat, DbError>)
      modifies store, counters`certs, counters`dups
      ensures store.available ==> r.Ok?
      ensures r.Err? ==> CoreNow() == old(CoreNow())
      ensures r.Ok? ==>
        && r.value == Inserted(lib, old(store.Contents()), rows) <= |rows|
        && CoreNow() == old(CoreNow()).(tables := InsertAll(lib.regdom, old(store.Contents()), rows),
                                        certs := old(CoreNow()).certs + r.value,
                                        dups := old(CoreNow()).dups + (|rows| - r.value))
    {
      hide InsertAll, IndexAgrees;
      GrowthExact(lib.regdom, store.Contents(), rows);
      r := store.InsertBatch(lib.regdom, rows);
      if r.Ok? {
        counters.certs := counters.certs + r.value;
        counters.dups := counters.dups + if |rows| >= r.value then |rows| - r.value else 0;
      }
    }

    /** `cut` records the flush; whatever happens, the tables, names and alerts are what it says. */
    method FlushBatch(batch: seq<WriterJob>, now: int) returns (r: FlushResult, ghost cut: Cut)
      requires Outbox.UniqueEvents(outbox.rows)
      modifies store, names, outbox, counters
      ensures Outbox.UniqueEvents(outbox.rows)
      ensures cut.batch == batch && cut.now == now
      ensures (r.InsertFailed? ==> !cut.stored) && (r.Clean? || r.Partial? ==> cut.stored)
      ensures store.Contents() == FlushCore(lib, retentionDays, old(CoreNow()), cut).tables
      ensures !r.Died? ==> CoreNow() == FlushCore(lib, retentionDays, old(CoreNow()), cut)
      ensures names.rows == Names.Replay(old(names.rows), Heard(lib, retentionDays, cut))
      ensures Bodies(outbox.rows)
           == old(Bodies(outbox.rows)) + Raised(lib, retentionDays, old(store.Contents()), cut)
      ensures r.Clean? ==> var rows := RowsOf(lib, retentionDays, cut);
        && Heard(lib, retentionDays, cut) == Observations(lib, rows)
        && Raised(lib, retentionDays, old(store.Contents()), cut) == BatchAlerts(lib, old(store.Contents()), now, rows)
      ensures (store.available ==> !r.InsertFailed?) && (names.available && outbox.available ==> !r.Partial?)
      ensures mayDie || !r.Died?
      ensures !r.Died? && names.available ==> NamesComplete(lib, retentionDays, cut)
      ensures !r.Died? && outbox.available ==> AlertsComplete(lib, retentionDays, old(store.Contents()), cut)
      ensures Outbox.Appended(old(outbox.rows), outbox.rows, now, now)
      ensures old(Outbox.IdsApart(outbox.rows)) ==> Outbox.IdsApart(outbox.rows)
    {
      hide Rows, StaleCount, Alerts, Inserted, InsertAll, Names.Replay, Observations, CutoffOf, Pick, AllSet;
      hide AreRowsOf, IndexAgrees, Outbox.IdsApart, Outbox.UniqueEvents, Outbox.Appended, Bodies, CertStore.Contents;
      Outbox.AppendedNothing(outbox.rows, now, now);
      ReplayNothing(names.rows);
      PickNothing<Names.Event>(Observations(lib, Rows(lib, CutoffOf(retentionDays, now), batch)));
      CutoffIs(retentionDays, now);
      var rows := JudgeBatch(batch, now - retentionDays * DAY);
      ghost var t := store.Contents();
      PickNothing(BatchAlerts(lib, t, now, rows));
      cut := Cut(batch, now, false, [], []);
      if mayDie {
        if * {
          return Died, cut;
        }
      }
      var result := StoreRows(rows);
      if result.Err? {
        return InsertFailed, cut;
      }
      var inserted := result.value;
      var alive, namesClean;
      ghost var observed;
      alive, namesClean, observed := ObserveNames(rows);
      cut := Cut(batch, now, true, observed, []);
      if !alive {
        return Died, cut;
      }
      var alertsClean;
      ghost var enqueued;
      alive, alertsClean, enqueued := EnqueueAlerts(rows, inserted, now);
      cut := Cut(batch, now, true, observed, enqueued);
      if !alive {
        return Died, cut;
      }
      counters.streamSent := counters.streamSent + |rows|;
      if namesClean {
        PickAll(Observations(lib, rows), observed);
      }
      if alertsClean {
        PickAll(BatchAlerts(lib, t, now, rows), enqueued);
      }
      return if namesClean && alertsClean then Clean else Partial, cut;
    }

    /** The loop of the task over what it receives, until all is flushed or the process dies. A batch that cannot be
        stored is given up. */
    method Drain(received: seq<WriterJob>, clock: Clock) returns (alive: bool, ghost cuts: seq<Cut>)
      requires Outbox.UniqueEvents(outbox.rows)
      modifies store, names, outbox, counters, clock
      ensures Outbox.UniqueEvents(outbox.rows)
      ensures Joined(cuts) <= received && (alive ==> Joined(cuts) == received) && (mayDie || alive)
      ensures forall k :: 0 <= k < |cuts| ==> 1 <= |cuts[k].batch| <= 100
      ensures store.Contents() == FlushAll(lib, retentionDays, old(CoreNow()), cuts).tables
      ensures alive ==> CoreNow() == FlushAll(lib, retentionDays, old(CoreNow()), cuts)
      ensures names.rows == Names.Replay(old(names.rows), HeardAll(lib, retentionDays, cuts))
      ensures Bodies(outbox.rows) == old(Bodies(outbox.rows)) + RaisedAll(lib, retentionDays, old(CoreNow()), cuts)
      ensures var n := if alive || cuts == [] then |cuts| else |cuts| - 1;
        && (store.available ==> forall k :: 0 <= k < n ==> cuts[k].stored)
        && (names.available ==> forall k :: 0 <= k < n ==> NamesComplete(lib, retentionDays, cuts[k]))
        && (outbox.available ==> AllComplete(lib, retentionDays, old(CoreNow()), cuts, n))
      ensures alive && outbox.available ==>
              OwedAreAlerted(lib, old(store.Contents()), store.Contents(), Bodies(outbox.rows))
      ensures Outbox.Appended(old(outbox.rows), outbox.rows, old(clock.now), clock.now)
      ensures forall k :: 0 <= k < |cuts| ==> old(clock.now) <= cuts[k].now <= clock.now
      ensures old(Outbox.IdsApart(outbox.rows)) ==> Outbox.IdsApart(outbox.rows)
    {
      hide FlushCore, FlushAll, Joined, Recorded, CoreNow, CertStore.Contents;
      hide NamesComplete, AlertsComplete, AllComplete, OwedAreAlerted, Outbox.IdsApart;
      hide HeardAll, RaisedAll, Heard, Raised, Names.Replay, Bodies, Observations, BatchAlerts, RowsOf;
      hide Outbox.UniqueEvents, Outbox.Appended;
      ghost var core, names0, rows0, from := CoreNow(), names.rows, outbox.rows, clock.now;
      NoFlush(lib, retentionDays, core);
      CompletePrefix(lib, retentionDays, core, []);
      RecordedNothing(lib, retentionDays, core, names0, rows0, from);
      CoreHolds();
      alive, cuts := true, [];
      var done: nat := 0;
      while alive && done < |received|
        invariant done <= |received| && Outbox.UniqueEvents(outbox.rows) && (mayDie || alive)
        invariant Joined(cuts) == received[..done]
        invariant Recorded(lib, retentionDays, core, names0, rows0, from, cuts,
                           store.Contents(), names.rows, outbox.rows, clock.now)
        invariant alive ==> CoreNow() == FlushAll(lib, retentionDays, core, cuts)
        invariant var n := if alive || cuts == [] then |cuts| else |cuts| - 1;
          && (store.available ==> forall k :: 0 <= k < n ==> cuts[k].stored)
          && (names.available ==> forall k :: 0 <= k < n ==> NamesComplete(lib, retentionDays, cuts[k]))
          && (outbox.available ==> AllComplete(lib, retentionDays, core, cuts, n))
        invariant old(Outbox.IdsApart(outbox.rows)) ==> Outbox.IdsApart(outbox.rows)
        decreases |received| - done, alive
      {
        var dies := false;
        if mayDie {
          dies := *;
        }
        if dies {
          CompletePrefix(lib, retentionDays, core, cuts);
          alive := false;
        } else {
          CoreHolds();
          var batch := TakeBatch(received, done);
          ghost var t, namesBefore, rowsBefore, before := store.Contents(), names.rows, outbox.rows, clock.now;
          var now := clock.Read();
          var result;
          ghost var cut;
          result, cut := FlushBatch(batch, now);
          CoreHolds();
          RecordedNext(lib, retentionDays, core, names0, rows0, from, cuts, t, namesBefore, rowsBefore, before,
                       cut, store.Contents(), names.rows, outbox.rows);
          FlushNext(lib, retentionDays, core, cuts, cut);
          if outbox.available {
            CompleteNext(lib, retentionDays, core, cuts, cut);
          }
          cuts := cuts + [cut];
          done := done + |batch|;
          alive := !result.Died?;
        }
      }
      RecordedMeans(lib, retentionDays, core, names0, rows0, from, cuts,
                    store.Contents(), names.rows, outbox.rows, clock.now);
      if alive && outbox.available {
        CompleteKeepsPromise(lib, retentionDays, core, cuts);
        OwedAmongMore(lib, old(store.Contents()), store.Contents(), Bodies(rows0),
                      RaisedAll(lib, retentionDays, core, cuts));
      }
    }
  }

  // ---------------------------------------------------------------------------------------------
  // Batching, order and repetition do not matter
  // ---------------------------------------------------------------------------------------------

  lemma {:induction false} RowsSplit(lib: Lib, cutoff: int, a: seq<WriterJob>, b: seq<WriterJob>)
    ensures Rows(lib, cutoff, a + b) == Rows(lib, cutoff, a) + Rows(lib, cutoff, b)
    ensures ParsedCount(lib, a + b) == ParsedCount(lib, a) + ParsedCount(lib, b)
  {
    if b == [] {
      assert a + b == a;
    } else {
      assert (a + b)[..|a + b| - 1] == a + b[..|b| - 1];
      RowsSplit(lib, cutoff, a, b[..|b| - 1]);
    }
  }

  /** The precert jobs whose DER parses. */
  function ParsedCount(lib: Lib, jobs: seq<WriterJob>): nat {
    if jobs == [] then 0
    else
      var entry := jobs[|jobs| - 1].entry;
      ParsedCount(lib, jobs[..|jobs| - 1])
        + if entry.kind.Precert? && entry.precertDer.Some? && lib.parse(entry.precertDer.value).Some? then 1 else 0
  }

  lemma {:induction false} ParsedIsRowsPlusStale(lib: Lib, cutoff: int, jobs: seq<WriterJob>)
    ensures |Rows(lib, cutoff, jobs)| + StaleCount(lib, cutoff, jobs) == ParsedCount(lib, jobs)
  {
    if jobs != [] {
      ParsedIsRowsPlusStale(lib, cutoff, jobs[..|jobs| - 1]);
    }
  }

  /** The jobs of the committed flushes. */
  function Committed(cuts: seq<Cut>): seq<WriterJob> {
    if cuts == [] then []
    else Committed(cuts[..|cuts| - 1]) + if cuts[|cuts| - 1].stored then cuts[|cuts| - 1].batch else []
  }

  /** The rows given up with a batch that could not be stored. */
  function GivenUp(lib: Lib, retentionDays: nat, cuts: seq<Cut>): nat {
    if cuts == [] then 0
    else GivenUp(lib, retentionDays, cuts[..|cuts| - 1])
           + if cuts[|cuts| - 1].stored then 0 else |RowsOf(lib, retentionDays, cuts[|cuts| - 1])|
  }

  /** The rows of the committed flushes, each judged at its own cutoff. */
  function CommittedRows(lib: Lib, retentionDays: nat, cuts: seq<Cut>): seq<CertRow> {
    if cuts == [] then []
    else CommittedRows(lib, retentionDays, cuts[..|cuts| - 1])
           + if cuts[|cuts| - 1].stored then RowsOf(lib, retentionDays, cuts[|cuts| - 1]) else []
  }

  /** However the loop cuts what it receives into batches, and whenever it flushes them, the certificates are those of
      one big batch of what the committed flushes accept. */
  lemma {:induction false} BatchingIrrelevant(lib: Lib, retentionDays: nat, core: Core, cuts: seq<Cut>)
    ensures FlushAll(lib, retentionDays, core, cuts).tables
         == InsertAll(lib.regdom, core.tables, CommittedRows(lib, retentionDays, cuts))
  {
    if cuts != [] {
      var before, last := cuts[..|cuts| - 1], cuts[|cuts| - 1];
      BatchingIrrelevant(lib, retentionDays, core, before);
      if last.stored {
        InsertAllSplits(lib.regdom, core.tables, CommittedRows(lib, retentionDays, before),
                        RowsOf(lib, retentionDays, last));
      } else {
        assert CommittedRows(lib, retentionDays, before) + [] == CommittedRows(lib, retentionDays, before);
      }
    }
  }

  ghost predicate OneCutoff(retentionDays: nat, cuts: seq<Cut>, cutoff: int) {
    forall k :: 0 <= k < |cuts| ==> CutoffOf(retentionDays, cuts[k].now) == cutoff
  }

  /** At one cutoff these are the rows of the committed jobs, wherever the cuts are. */
  lemma {:induction false} OneCutoffRows(lib: Lib, retentionDays: nat, cuts: seq<Cut>, cutoff: int)
    requires OneCutoff(retentionDays, cuts, cutoff)
    ensures CommittedRows(lib, retentionDays, cuts) == Rows(lib, cutoff, Committed(cuts))
  {
    if cuts != [] {
      var before, last := cuts[..|cuts| - 1], cuts[|cuts| - 1];
      OneCutoffRows(lib, retentionDays, before, cutoff);
      RowsSplit(lib, cutoff, Committed(before), if last.stored then last.batch else []);
    }
  }

  /** The job is a precert, its DER is `der`, and that parses and is not past retention. */
  predicate AcceptsAs(lib: Lib, cutoff: int, job: WriterJob, der: bytes) {
    && job.entry.kind.Precert? && job.entry.precertDer == Some(der)
    && lib.parse(der).Some? && cutoff <= lib.parse(der).value.notBefore
  }

  /** The row holds the hash of the DER and what the parser says of it. */
  predicate IsRowOf(lib: Lib, der: bytes, row: CertRow) {
    && lib.parse(der).Some?
    && var parsed := lib.parse(der).value;
    && row.certHash == lib.sha256(der) && row.issuerHash == parsed.issuerHash && row.issuerCn == parsed.issuerCn
    && row.notBefore == parsed.notBefore && row.notAfter == parsed.notAfter
    && row.sans == parsed.sans && row.registeredDomains == parsed.registeredDomains
  }

  /** What becomes of one job: a precert that parses is a row, or stale by its not_before; anything else is ignored. */
  lemma JudgeExact(lib: Lib, cutoff: int, job: WriterJob)
    ensures var entry, verdict := job.entry, Judge(lib, cutoff, job);
      if entry.kind.Precert? && entry.precertDer.Some? && lib.parse(entry.precertDer.value).Some? then
        if lib.parse(entry.precertDer.value).value.notBefore < cutoff then verdict == Stale
        else verdict.Accepted? && IsRowOf(lib, entry.precertDer.value, verdict.row)
      else verdict == Ignored
  {
  }

  ghost predicate AcceptedDer(lib: Lib, cutoff: int, jobs: seq<WriterJob>, der: bytes) {
    exists job :: job in jobs && AcceptsAs(lib, cutoff, job, der)
  }

  lemma {:induction false} RowIsOfDer(lib: Lib, cutoff: int, jobs: seq<WriterJob>, row: CertRow) returns (der: bytes)
    requires row in Rows(lib, cutoff, jobs)
    ensures AcceptedDer(lib, cutoff, jobs, der) && IsRowOf(lib, der, row)
  {
    hide Judge;
    var last := jobs[|jobs| - 1];
    JudgeExact(lib, cutoff, last);
    if Judge(lib, cutoff, last) == Accepted(row) {
      der := last.entry.precertDer.value;
      assert AcceptsAs(lib, cutoff, last, der);
    } else {
      der := RowIsOfDer(lib, cutoff, jobs[..|jobs| - 1], row);
      var job :| job in jobs[..|jobs| - 1] && AcceptsAs(lib, cutoff, job, der);
      assert job in jobs;
    }
  }

  lemma {:induction false} DerHasRow(lib: Lib, cutoff: int, jobs: seq<WriterJob>, der: bytes) returns (row: CertRow)
    requires AcceptedDer(lib, cutoff, jobs, der)
    ensures row in Rows(lib, cutoff, jobs) && IsRowOf(lib, der, row)
  {
    hide Judge;
    var last := jobs[|jobs| - 1];
    JudgeExact(lib, cutoff, last);
    if AcceptsAs(lib, cutoff, last, der) {
      row := Judge(lib, cutoff, last).row;
    } else {
      assert AcceptedDer(lib, cutoff, jobs[..|jobs| - 1], der);
      row := DerHasRow(lib, cutoff, jobs[..|jobs| - 1], der);
    }
  }

  /** The rows are those of the precerts of the batch that parse and are not past retention. */
  ghost predicate AreRowsOf(lib: Lib, cutoff: int, jobs: seq<WriterJob>, rows: seq<CertRow>) {
    forall row :: row in rows <==> exists der :: AcceptedDer(lib, cutoff, jobs, der) && IsRowOf(lib, der, row)
  }

  lemma RowsExact(lib: Lib, cutoff: int, jobs: seq<WriterJob>)
    ensures AreRowsOf(lib, cutoff, jobs, Rows(lib, cutoff, jobs))
  {
    hide Rows, AcceptedDer;
    forall row
      ensures row in Rows(lib, cutoff, jobs) <==>
              exists der :: AcceptedDer(lib, cutoff, jobs, der) && IsRowOf(lib, der, row)
    {
      if row in Rows(lib, cutoff, jobs) {
        var der := RowIsOfDer(lib, cutoff, jobs, row);
      }
      if der :| AcceptedDer(lib, cutoff, jobs, der) && IsRowOf(lib, der, row) {
        var other := DerHasRow(lib, cutoff, jobs, der);
        assert other == row;
      }
    }
  }

  /** Some committed flush accepts the precert `der` at its cutoff. */
  ghost predicate AcceptedIn(lib: Lib, retentionDays: nat, cuts: seq<Cut>, der: bytes) {
    exists k :: 0 <= k < |cuts| && cuts[k].stored
                && AcceptedDer(lib, cuts[k].now - retentionDays * 86_400 * 1_000_000, cuts[k].batch, der)
  }

  lemma AcceptedInNext(lib: Lib, retentionDays: nat, cuts: seq<Cut>, der: bytes)
    requires cuts != []
    ensures var before, last := cuts[..|cuts| - 1], cuts[|cuts| - 1];
      AcceptedIn(lib, retentionDays, cuts, der) <==>
        || AcceptedIn(lib, retentionDays, before, der)
        || (last.stored && AcceptedDer(lib, last.now - retentionDays * 86_400 * 1_000_000, last.batch, der))
  {
    hide AcceptedDer;
    assert forall k :: 0 <= k < |cuts| - 1 ==> cuts[..|cuts| - 1][k] == cuts[k];
  }

  lemma {:induction false} CommittedRowIsOfDer(lib: Lib, retentionDays: nat, cuts: seq<Cut>, row: CertRow)
    returns (der: bytes)
    requires row in CommittedRows(lib, retentionDays, cuts)
    ensures AcceptedIn(lib, retentionDays, cuts, der) && IsRowOf(lib, der, row)
  {
    var before, last := cuts[..|cuts| - 1], cuts[|cuts| - 1];
    if row in CommittedRows(lib, retentionDays, before) {
      der := CommittedRowIsOfDer(lib, retentionDays, before, row);
    } else {
      der := RowIsOfDer(lib, CutoffOf(retentionDays, last.now), last.batch, row);
    }
    AcceptedInNext(lib, retentionDays, cuts, der);
  }

  lemma {:induction false} DerHasCommittedRow(lib: Lib, retentionDays: nat, cuts: seq<Cut>, der: bytes)
    returns (row: CertRow)
    requires AcceptedIn(lib, retentionDays, cuts, der)
    ensures row in CommittedRows(lib, retentionDays, cuts) && IsRowOf(lib, der, row)
  {
    AcceptedInNext(lib, retentionDays, cuts, der);
    if AcceptedIn(lib, retentionDays, cuts[..|cuts| - 1], der) {
      row := DerHasCommittedRow(lib, retentionDays, cuts[..|cuts| - 1], der);
    } else {
      var last := cuts[|cuts| - 1];
      row := DerHasRow(lib, CutoffOf(retentionDays, last.now), last.batch, der);
    }
  }

  ghost predicate SameDers(lib: Lib, retentionDays: nat, a: seq<Cut>, b: seq<Cut>) {
    forall der :: AcceptedIn(lib, retentionDays, a, der) <==> AcceptedIn(lib, retentionDays, b, der)
  }

  ghost predicate NoCollision(lib: Lib, retentionDays: nat, cuts: seq<Cut>) {
    forall d, d' :: AcceptedIn(lib, retentionDays, cuts, d) && AcceptedIn(lib, retentionDays, cuts, d')
                    && lib.sha256(d) == lib.sha256(d')
                    ==> d == d'
  }

  lemma RowsOfSameDers(lib: Lib, retentionDays: nat, a: seq<Cut>, b: seq<Cut>, row: CertRow)
    requires SameDers(lib, retentionDays, a, b) && row in CommittedRows(lib, retentionDays, a)
    ensures row in CommittedRows(lib, retentionDays, b)
  {
    var der := CommittedRowIsOfDer(lib, retentionDays, a, row);
    var same := DerHasCommittedRow(lib, retentionDays, b, der);
  }

  lemma RowsConsistent(lib: Lib, retentionDays: nat, cuts: seq<Cut>)
    requires NoCollision(lib, retentionDays, cuts)
    ensures Consistent(CommittedRows(lib, retentionDays, cuts))
  {
    var rows := CommittedRows(lib, retentionDays, cuts);
    forall r, r' | r in rows && r' in rows && KeyOf(r) == KeyOf(r')
      ensures r == r'
    {
      var d := CommittedRowIsOfDer(lib, retentionDays, cuts, r);
      var d' := CommittedRowIsOfDer(lib, retentionDays, cuts, r');
      assert lib.sha256(d) == lib.sha256(d');
    }
  }

  /** Writer confluence: two runs whose committed flushes accept the same precerts, in whatever batches, order and
      number, and at whatever times, leave the same certificates and the same name index, as long as no two of those
      precerts share a hash. */
  lemma WriterConfluent(lib: Lib, retentionDays: nat, core: Core, core': Core, a: seq<Cut>, b: seq<Cut>)
    requires core.tables == core'.tables && IndexAgrees(lib.regdom, core.tables)
    requires SameDers(lib, retentionDays, a, b) && NoCollision(lib, retentionDays, a)
    ensures FlushAll(lib, retentionDays, core, a).tables == FlushAll(lib, retentionDays, core', b).tables
  {
    BatchingIrrelevant(lib, retentionDays, core, a);
    BatchingIrrelevant(lib, retentionDays, core', b);
    var ra, rb := CommittedRows(lib, retentionDays, a), CommittedRows(lib, retentionDays, b);
    forall row
      ensures row in ra <==> row in rb
    {
      if row in ra {
        RowsOfSameDers(lib, retentionDays, a, b, row);
      }
      if row in rb {
        RowsOfSameDers(lib, retentionDays, b, a, row);
      }
    }
    RowsConsistent(lib, retentionDays, a);
    Confluent(lib.regdom, core.tables, ra, rb);
  }

  lemma {:induction false} InJoined(cuts: seq<Cut>, k: nat, job: WriterJob)
    requires k < |cuts| && job in cuts[k].batch
    ensures job in Joined(cuts)
  {
    if k < |cuts| - 1 {
      InJoined(cuts[..|cuts| - 1], k, job);
    }
  }

  /** Nothing but precerts is stored: whatever a run adds to the table it has been sent, as a precert with a DER that
      parses; the certificate stands under the hash of that DER and is what the parser says of it. */
  lemma AddedIsPrecert(lib: Lib, retentionDays: nat, core: Core, cuts: seq<Cut>, key: Key)
    requires key in FlushAll(lib, retentionDays, core, cuts).tables.certs && key !in core.tables.certs
    ensures exists job, der ::
      && job in Joined(cuts) && job.entry.kind.Precert? && job.entry.precertDer == Some(der)
      && lib.parse(der).Some? && key == Key(lib.sha256(der), lib.parse(der).value.notBefore)
      && IsRowOf(lib, der, FlushAll(lib, retentionDays, core, cuts).tables.certs[key])
  {
    var rows := CommittedRows(lib, retentionDays, cuts);
    BatchingIrrelevant(lib, retentionDays, core, cuts);
    InsertAllExact(lib.regdom, core.tables, rows, key);
    var der := CommittedRowIsOfDer(lib, retentionDays, cuts, InsertAll(lib.regdom, core.tables, rows).certs[key]);
    var k :| 0 <= k < |cuts| && cuts[k].stored
             && AcceptedDer(lib, cuts[k].now - retentionDays * 86_400 * 1_000_000, cuts[k].batch, der);
    var job :| job in cuts[k].batch && AcceptsAs(lib, cuts[k].now - retentionDays * 86_400 * 1_000_000, job, der);
    InJoined(cuts, k, job);
  }

  /** What is left of the jobs without the final certificates. */
  function Precerts(jobs: seq<WriterJob>): seq<WriterJob> {
    if jobs == [] then []
    else
      var last := jobs[|jobs| - 1];
      Precerts(jobs[..|jobs| - 1]) + if last.entry.kind.FinalCert? then [] else [last]
  }

  function WithoutFinals(cuts: seq<Cut>): (rest: seq<Cut>)
    ensures |rest| == |cuts|
    ensures forall k :: 0 <= k < |cuts| ==> rest[k] == cuts[k].(batch := Precerts(cuts[k].batch))
  {
    seq(|cuts|, k requires 0 <= k < |cuts| => cuts[k].(batch := Precerts(cuts[k].batch)))
  }

  lemma {:induction false} RowsOfPrecerts(lib: Lib, cutoff: int, jobs: seq<WriterJob>)
    ensures Rows(lib, cutoff, Precerts(jobs)) == Rows(lib, cutoff, jobs)
    ensures StaleCount(lib, cutoff, Precerts(jobs)) == StaleCount(lib, cutoff, jobs)
  {
    if jobs != [] {
      var before, last := jobs[..|jobs| - 1], jobs[|jobs| - 1];
      RowsOfPrecerts(lib, cutoff, before);
      JudgeExact(lib, cutoff, last);
      if last.entry.kind.FinalCert? {
        assert Precerts(jobs) == Precerts(before);
      } else {
        assert Precerts(jobs) == Precerts(before) + [last];
        assert (Precerts(before) + [last])[..|Precerts(before)|] == Precerts(before);
      }
    }
  }

  /** Final certificates make no difference: taken out of every batch of a run, they are missed in no table, name, alert
      or counter. */
  lemma {:induction false} FinalCertsIrrelevant(lib: Lib, retentionDays: nat, core: Core, cuts: seq<Cut>)
    ensures var rest := WithoutFinals(cuts);
      && FlushAll(lib, retentionDays, core, rest) == FlushAll(lib, retentionDays, core, cuts)
      && HeardAll(lib, retentionDays, rest) == HeardAll(lib, retentionDays, cuts)
      && RaisedAll(lib, retentionDays, core, rest) == RaisedAll(lib, retentionDays, core, cuts)
  {
    if cuts != [] {
      hide Rows, StaleCount, Pick, InsertAll, Observations, Alerts, Precerts;
      var before, last := cuts[..|cuts| - 1], cuts[|cuts| - 1];
      FinalCertsIrrelevant(lib, retentionDays, core, before);
      RowsOfPrecerts(lib, CutoffOf(retentionDays, last.now), last.batch);
      assert WithoutFinals(cuts)[..|cuts| - 1] == WithoutFinals(before);
    }
  }

  /** The key under which the precert `der` is stored. */
  ghost predicate IsKeyOfDer(lib: Lib, der: bytes, key: Key) {
    lib.parse(der).Some? && key == Key(lib.sha256(der), lib.parse(der).value.notBefore)
  }

  /** One row per precert: although the primary key holds not_before too, no two rows of a table that began empty
      share a hash, as long as no two of the precerts accepted do. */
  lemma OneRowPerHash(lib: Lib, retentionDays: nat, core: Core, cuts: seq<Cut>, key: Key, key': Key)
    requires core.tables.certs == map[] && NoCollision(lib, retentionDays, cuts)
    requires var t := FlushAll(lib, retentionDays, core, cuts).tables; key in t.certs && key' in t.certs
    requires key.certHash == key'.certHash
    ensures key == key'
  {
    var t, rows := FlushAll(lib, retentionDays, core, cuts).tables, CommittedRows(lib, retentionDays, cuts);
    BatchingIrrelevant(lib, retentionDays, core, cuts);
    InsertAllExact(lib.regdom, core.tables, rows, key);
    InsertAllExact(lib.regdom, core.tables, rows, key');
    var d := CommittedRowIsOfDer(lib, retentionDays, cuts, t.certs[key]);
    var d' := CommittedRowIsOfDer(lib, retentionDays, cuts, t.certs[key']);
  }

  // ---------------------------------------------------------------------------------------------
  // Index, counters, replay, alerts
  // ---------------------------------------------------------------------------------------------

  /** Over any run, with any batches failing, the index agrees with the certificates and the ingested counter
      grows as the table does. */
  lemma {:induction false} RunKeepsIndex(lib: Lib, retentionDays: nat, core: Core, cuts: seq<Cut>)
    requires IndexAgrees(lib.regdom, core.tables)
    ensures var core' := FlushAll(lib, retentionDays, core, cuts);
            IndexAgrees(lib.regdom, core'.tables)
            && core'.certs - core.certs == |core'.tables.certs| - |core.tables.certs|
  {
    if cuts != [] {
      var before, last := cuts[..|cuts| - 1], cuts[|cuts| - 1];
      RunKeepsIndex(lib, retentionDays, core, before);
      InsertAllKeepsIndex(lib.regdom, FlushAll(lib, retentionDays, core, before).tables,
                          Rows(lib, CutoffOf(retentionDays, last.now), last.batch));
    }
  }

  /** Counter conservation: every precert that parses is counted once, as ingested or as a duplicate, or is given up
      with a batch that could not be stored. */
  lemma {:induction false} CountersConserved(lib: Lib, retentionDays: nat, core: Core, cuts: seq<Cut>)
    ensures var core' := FlushAll(lib, retentionDays, core, cuts);
            core'.certs + core'.dups + GivenUp(lib, retentionDays, cuts)
              == core.certs + core.dups + ParsedCount(lib, Joined(cuts))
  {
    if cuts != [] {
      var before, last := cuts[..|cuts| - 1], cuts[|cuts| - 1];
      CountersConserved(lib, retentionDays, core, before);
      ParsedIsRowsPlusStale(lib, CutoffOf(retentionDays, last.now), last.batch);
      RowsSplit(lib, 0, Joined(before), last.batch);
    }
  }

  /** The other two counters: what went to the event stream are the rows of the committed flushes, and the watchlist
      counter counts at least the alerts enqueued, and just these if none was left out. */
  lemma {:induction false} AlertsCounted(lib: Lib, retentionDays: nat, core: Core, cuts: seq<Cut>)
    ensures var core', alerts := FlushAll(lib, retentionDays, core, cuts), RaisedAll(lib, retentionDays, core, cuts);
      && core'.streamSent == core.streamSent + |CommittedRows(lib, retentionDays, cuts)|
      && core'.watchlist >= core.watchlist + |alerts|
      && (AllComplete(lib, retentionDays, core, cuts, |cuts|) ==> core'.watchlist == core.watchlist + |alerts|)
  {
    if cuts != [] {
      hide Rows, StaleCount, InsertAll, Alerts, Pick, AllSet;
      var before, last := cuts[..|cuts| - 1], cuts[|cuts| - 1];
      var t := FlushAll(lib, retentionDays, core, before).tables;
      AlertsCounted(lib, retentionDays, core, before);
      assert forall k :: 0 <= k < |before| ==> before[..k] == cuts[..k];
      var all := BatchAlerts(lib, t, last.now, RowsOf(lib, retentionDays, last));
      PickAtMost(all, last.enqueued);
      if last.stored && AllSet(last.enqueued, |all|) {
        PickAll(all, last.enqueued);
      }
    }
  }

  lemma {:induction false} PickAtMost<T>(s: seq<T>, marks: seq<bool>)
    ensures |Pick(s, marks)| <= |s|
  {
    if s != [] && marks != [] {
      PickAtMost(s[1..], marks[1..]);
    }
  }

  function CountIn(sans: seq<string>, name: string): nat {
    if sans == [] then 0
    else CountIn(sans[..|sans| - 1], name) + if sans[|sans| - 1] == name then 1 else 0
  }

  /** How often a name occurs in the rows, over all their SANs. */
  function NameCount(rows: seq<CertRow>, name: string): nat {
    if rows == [] then 0
    else NameCount(rows[..|rows| - 1], name) + CountIn(rows[|rows| - 1].sans, name)
  }

  lemma {:induction false} OccurrencesSplit(a: seq<Names.Event>, b: seq<Names.Event>, name: string)
    ensures Names.Occurrences(a + b, name) == Names.Occurrences(a, name) + Names.Occurrences(b, name)
  {
    if b == [] {
      assert a + b == a;
    } else {
      assert (a + b)[..|a + b| - 1] == a + b[..|b| - 1];
      OccurrencesSplit(a, b[..|b| - 1], name);
    }
  }

  lemma {:induction false} RowSeen(lib: Lib, row: CertRow, n: nat)
    requires n <= |row.sans|
    ensures |NamesOf(lib, row, n)| == n && forall i :: 0 <= i < n ==> NamesOf(lib, row, n)[i].Seen?
  {
    if n > 0 {
      RowSeen(lib, row, n - 1);
    }
  }

  lemma CountNext(sans: seq<string>, n: nat, name: string)
    requires 0 < n <= |sans|
    ensures CountIn(sans[..n], name) == CountIn(sans[..n - 1], name) + if sans[n - 1] == name then 1 else 0
  {
    assert sans[..n][..n - 1] == sans[..n - 1];
  }

  lemma OccursNext(before: seq<Names.Event>, last: Names.Event, name: string)
    ensures Names.Occurrences(before + [last], name)
         == Names.Occurrences(before, name) + if last.Seen? && last.name == name then 1 else 0
  {
    assert (before + [last])[..|before|] == before;
  }

  lemma {:induction false} RowOccurrences(lib: Lib, row: CertRow, n: nat, name: string)
    requires n <= |row.sans|
    ensures Names.Occurrences(NamesOf(lib, row, n), name) == CountIn(row.sans[..n], name)
  {
    hide Names.Occurrences, CountIn;
    if n == 0 {
      NoOccurrences(name);
    } else {
      RowOccurrences(lib, row, n - 1, name);
      CountNext(row.sans, n, name);
      var last := row.sans[n - 1];
      OccursNext(NamesOf(lib, row, n - 1), Names.Seen(last, DomainOf(lib.regdom, last), row.notBefore), name);
    }
  }

  lemma NoOccurrences(name: string)
    ensures Names.Occurrences([], name) == 0 && CountIn([], name) == 0
  {
  }

  lemma {:induction false} ObservationsCount(lib: Lib, rows: seq<CertRow>, name: string)
    ensures Names.Occurrences(Observations(lib, rows), name) == NameCount(rows, name)
    ensures forall i :: 0 <= i < |Observations(lib, rows)| ==> Observations(lib, rows)[i].Seen?
  {
    if rows != [] {
      var row := rows[|rows| - 1];
      ObservationsCount(lib, rows[..|rows| - 1], name);
      RowSeen(lib, row, |row.sans|);
      RowOccurrences(lib, row, |row.sans|, name);
      OccurrencesSplit(Observations(lib, rows[..|rows| - 1]), NamesOf(lib, row, |row.sans|), name);
      assert row.sans[..|row.sans|] == row.sans;
    }
  }

  /** An observation that comes from a row is of one of its names, under what the lookup gives for that or else under
      the name itself, at the not_before of the row. */
  ghost predicate SeenIn(lib: Lib, row: CertRow, e: Names.Event) {
    && e.Seen? && e.name in row.sans && e.at == row.notBefore
    && e.domain == if lib.regdom(e.name).Some? then lib.regdom(e.name).value else e.name
  }

  lemma {:induction false} NamesAreSeen(lib: Lib, row: CertRow, n: nat, e: Names.Event)
    requires n <= |row.sans| && e in NamesOf(lib, row, n)
    ensures SeenIn(lib, row, e)
  {
    if e in NamesOf(lib, row, n - 1) {
      NamesAreSeen(lib, row, n - 1, e);
    }
  }

  lemma {:induction false} ObservedFromRow(lib: Lib, rows: seq<CertRow>, e: Names.Event) returns (row: CertRow)
    requires e in Observations(lib, rows)
    ensures row in rows && SeenIn(lib, row, e)
  {
    row := rows[|rows| - 1];
    if e in Observations(lib, rows[..|rows| - 1]) {
      row := ObservedFromRow(lib, rows[..|rows| - 1], e);
    } else {
      NamesAreSeen(lib, row, |row.sans|, e);
    }
  }

  lemma {:induction false} HeardFromRow(lib: Lib, retentionDays: nat, cuts: seq<Cut>, e: Names.Event)
    returns (row: CertRow)
    requires e in HeardAll(lib, retentionDays, cuts)
    ensures row in CommittedRows(lib, retentionDays, cuts) && SeenIn(lib, row, e)
  {
    hide Observations, Pick, Rows, SeenIn;
    var before, last := cuts[..|cuts| - 1], cuts[|cuts| - 1];
    if e in HeardAll(lib, retentionDays, before) {
      row := HeardFromRow(lib, retentionDays, before, e);
    } else {
      PickMember(Observations(lib, RowsOf(lib, retentionDays, last)), last.observed, e);
      row := ObservedFromRow(lib, RowsOf(lib, retentionDays, last), e);
    }
  }

  /** What the name table says after a run that began with none: a name stands under what the lookup gives for it, or
      under itself, and was first and last seen at the not_before of certificates that carry it and were committed. */
  lemma ObservedTells(lib: Lib, retentionDays: nat, cuts: seq<Cut>, name: string)
    returns (first: CertRow, last: CertRow)
    requires name in Names.Replay(map[], HeardAll(lib, retentionDays, cuts))
    ensures var row, rows := Names.Replay(map[], HeardAll(lib, retentionDays, cuts))[name],
                             CommittedRows(lib, retentionDays, cuts);
      && (match lib.regdom(name)
          case Some(domain) => row.registeredDomain == domain
          case None => row.registeredDomain == name)
      && first in rows && name in first.sans && row.firstSeen == first.notBefore
      && last in rows && name in last.sans && row.lastSeen == last.notBefore
  {
    hide HeardAll, CommittedRows, Names.Replay;
    var history := HeardAll(lib, retentionDays, cuts);
    var live := Names.Live(history, name);
    Names.RowIsFold(history, name);
    Names.LiveAmong(history, name, 0);
    Names.LiveAmong(history, name, |live| - 1);
    first := HeardFromRow(lib, retentionDays, cuts, live[0]);
    last := HeardFromRow(lib, retentionDays, cuts, live[|live| - 1]);
  }

  lemma {:induction false} NameCountSplit(a: seq<CertRow>, b: seq<CertRow>, name: string)
    ensures NameCount(a + b, name) == NameCount(a, name) + NameCount(b, name)
  {
    if b == [] {
      assert a + b == a;
    } else {
      assert (a + b)[..|a + b| - 1] == a + b[..|b| - 1];
      NameCountSplit(a, b[..|b| - 1], name);
    }
  }

  lemma {:induction false} HeardCounted(lib: Lib, retentionDays: nat, cuts: seq<Cut>, name: string)
    requires forall k :: 0 <= k < |cuts| ==> NamesComplete(lib, retentionDays, cuts[k])
    ensures var history := HeardAll(lib, retentionDays, cuts);
      && (forall i :: 0 <= i < |history| ==> history[i].Seen?)
      && Names.Occurrences(history, name) == NameCount(CommittedRows(lib, retentionDays, cuts), name)
  {
    hide Observations, Pick, Rows, AllSet, Names.Occurrences, NameCount;
    if cuts == [] {
      NothingCounted(name);
    } else {
      var before, last := cuts[..|cuts| - 1], cuts[|cuts| - 1];
      var rows := RowsOf(lib, retentionDays, last);
      HeardCounted(lib, retentionDays, before, name);
      if last.stored {
        PickAll(Observations(lib, rows), last.observed);
        ObservationsCount(lib, rows, name);
        OccurrencesSplit(HeardAll(lib, retentionDays, before), Observations(lib, rows), name);
        NameCountSplit(CommittedRows(lib, retentionDays, before), rows, name);
      } else {
        assert HeardAll(lib, retentionDays, before) + [] == HeardAll(lib, retentionDays, before);
        assert CommittedRows(lib, retentionDays, before) + [] == CommittedRows(lib, retentionDays, before);
      }
    }
  }

  lemma NothingCounted(name: string)
    ensures Names.Occurrences([], name) == 0 && NameCount([], name) == 0
  {
  }

  /** And it counts, if no observation was left out, how often the committed certificates carry the name. */
  lemma ObservedCount(lib: Lib, retentionDays: nat, cuts: seq<Cut>, name: string)
    requires forall k :: 0 <= k < |cuts| ==> NamesComplete(lib, retentionDays, cuts[k])
    ensures var names, n := Names.Replay(map[], HeardAll(lib, retentionDays, cuts)),
                            NameCount(CommittedRows(lib, retentionDays, cuts), name);
            if n == 0 then name !in names else name in names && names[name].certCount == n
  {
    hide HeardAll, CommittedRows, NameCount, Names.Replay, Names.Occurrences, NamesComplete;
    HeardCounted(lib, retentionDays, cuts, name);
    Names.CountGrowsBy(map[], HeardAll(lib, retentionDays, cuts), name);
  }

  ghost predicate AllKnown(t: Tables, rows: seq<CertRow>) {
    forall i :: 0 <= i < |rows| ==> KeyOf(rows[i]) in t.certs
  }

  /** Replay: a batch whose rows are all there leaves tables, alerts and the ingested counter alone and counts
      every precert of it as a duplicate; each of its names is counted once more per occurrence. */
  lemma ReplayIsQuiet(lib: Lib, retentionDays: nat, core: Core, cut: Cut,
                      names: map<string, Names.NameRow>, name: string)
    requires var rows := Rows(lib, CutoffOf(retentionDays, cut.now), cut.batch);
             cut.stored && AllKnown(core.tables, rows)
    ensures var rows := Rows(lib, CutoffOf(retentionDays, cut.now), cut.batch);
      && FlushCore(lib, retentionDays, core, cut)
           == core.(dups := core.dups + ParsedCount(lib, cut.batch), streamSent := core.streamSent + |rows|)
      && BatchAlerts(lib, core.tables, cut.now, rows) == []
      && (name in names ==>
            var names' := Names.Replay(names, Observations(lib, rows));
            name in names' && names'[name].certCount == names[name].certCount + NameCount(rows, name))
  {
    hide Rows, StaleCount, ParsedCount, InsertAll, Observations, NameCount, Names.Replay, Names.Occurrences;
    var cutoff := CutoffOf(retentionDays, cut.now);
    var rows := Rows(lib, cutoff, cut.batch);
    InsertKnown(lib.regdom, core.tables, rows);
    ParsedIsRowsPlusStale(lib, cutoff, cut.batch);
    ObservationsCount(lib, rows, name);
    Names.CountGrowsBy(names, Observations(lib, rows), name);
  }

  /** A stored batch flushed again, right away or after any further run, is a replay as long as it is cut off at
      the same time: its rows stay known. */
  lemma FlushedStaysKnown(lib: Lib, retentionDays: nat, core: Core, cut: Cut, later: seq<Cut>)
    requires cut.stored
    ensures AllKnown(FlushAll(lib, retentionDays, FlushCore(lib, retentionDays, core, cut), later).tables,
                     Rows(lib, CutoffOf(retentionDays, cut.now), cut.batch))
  {
    var rows := Rows(lib, CutoffOf(retentionDays, cut.now), cut.batch);
    var after := FlushCore(lib, retentionDays, core, cut);
    forall i | 0 <= i < |rows|
      ensures KeyOf(rows[i]) in FlushAll(lib, retentionDays, after, later).tables.certs
    {
      InsertAllExact(lib.regdom, core.tables, rows, KeyOf(rows[i]));
      CertStays(lib, retentionDays, after, later, KeyOf(rows[i]));
    }
  }

  lemma {:induction false} CertStays(lib: Lib, retentionDays: nat, core: Core, cuts: seq<Cut>, key: Key)
    requires key in core.tables.certs
    ensures key in FlushAll(lib, retentionDays, core, cuts).tables.certs
    ensures FlushAll(lib, retentionDays, core, cuts).tables.certs[key] == core.tables.certs[key]
  {
    if cuts != [] {
      var before, last := cuts[..|cuts| - 1], cuts[|cuts| - 1];
      CertStays(lib, retentionDays, core, before, key);
      InsertAllExact(lib.regdom, FlushAll(lib, retentionDays, core, before).tables,
                     Rows(lib, CutoffOf(retentionDays, last.now), last.batch), key);
    }
  }

  /** The i-th row is one that the batch actually inserts. */
  ghost predicate IsNew(lib: Lib, t: Tables, rows: seq<CertRow>, i: nat)
    requires i < |rows|
  {
    KeyOf(rows[i]) !in InsertAll(lib.regdom, t, rows[..i]).certs
  }

  /** Some registered domain of the certificate is on the watchlist. */
  ghost predicate IsWatched(lib: Lib, row: CertRow) {
    exists d :: d in row.registeredDomains && lib.watched(d)
  }

  lemma {:induction false} MatchesSplit(watched: string -> bool, a: seq<string>, b: seq<string>)
    ensures Matches(watched, a + b) == Matches(watched, a) + Matches(watched, b)
  {
    if b == [] {
      assert a + b == a;
    } else {
      assert (a + b)[..|a + b| - 1] == a + b[..|b| - 1];
      MatchesSplit(watched, a, b[..|b| - 1]);
    }
  }

  /** What an alert matches are the domains on the watchlist, each as often as the certificate has it, in its order. */
  lemma {:induction false} MatchesExact(watched: string -> bool, domains: seq<string>, k: nat, d: string)
    requires k < |domains|
    ensures Matches(watched, domains) == Matches(watched, domains[..k])
              + (if watched(domains[k]) then [domains[k]] else []) + Matches(watched, domains[k + 1..])
    ensures d in Matches(watched, domains) <==> d in domains && watched(d)
  {
    hide Matches;
    MatchesMember(watched, domains, d);
    MatchesOne(watched, domains[k]);
    var before, one, rest := domains[..k], [domains[k]], domains[k + 1..];
    MatchesSplit(watched, before, one);
    MatchesSplit(watched, before + one, rest);
    assert before + one + rest == domains;
  }

  lemma MatchesOne(watched: string -> bool, d: string)
    ensures Matches(watched, [d]) == if watched(d) then [d] else []
  {
    assert [d][..0] == [];
  }

  lemma {:induction false} MatchesMember(watched: string -> bool, domains: seq<string>, d: string)
    ensures d in Matches(watched, domains) <==> d in domains && watched(d)
  {
    if domains != [] {
      MatchesMember(watched, domains[..|domains| - 1], d);
      assert d in domains <==> d in domains[..|domains| - 1] || d == domains[|domains| - 1];
    }
  }

  lemma WatchedMatches(lib: Lib, row: CertRow)
    ensures IsWatched(lib, row) <==> Matches(lib.watched, row.registeredDomains) != []
  {
    hide Matches;
    var matches := Matches(lib.watched, row.registeredDomains);
    forall d
      ensures d in matches <==> d in row.registeredDomains && lib.watched(d)
    {
      MatchesMember(lib.watched, row.registeredDomains, d);
    }
    assert matches != [] ==> matches[0] in matches;
  }

  /** The alerts for newly inserted rows only, as the writer's comment has it. */
  ghost function NewRowAlerts(lib: Lib, t: Tables, now: int, rows: seq<CertRow>): seq<Alert> {
    if rows == [] then []
    else
      var row := rows[|rows| - 1];
      NewRowAlerts(lib, t, now, rows[..|rows| - 1])
        + if IsNew(lib, t, rows, |rows| - 1) && IsWatched(lib, row)
          then [Alert(now, Matches(lib.watched, row.registeredDomains), row)] else []
  }

  ghost predicate WatchedAreNew(lib: Lib, t: Tables, rows: seq<CertRow>) {
    forall i :: 0 <= i < |rows| && IsWatched(lib, rows[i]) ==> IsNew(lib, t, rows, i)
  }

  lemma WatchedPrefix(lib: Lib, t: Tables, rows: seq<CertRow>)
    requires rows != []
    ensures var last := |rows| - 1;
      WatchedAreNew(lib, t, rows) <==>
        WatchedAreNew(lib, t, rows[..last]) && (IsWatched(lib, rows[last]) ==> IsNew(lib, t, rows, last))
  {
    var before := rows[..|rows| - 1];
    assert forall i :: 0 <= i < |before| ==> before[..i] == rows[..i];
    assert forall i :: 0 <= i < |before| ==> (IsNew(lib, t, before, i) <==> IsNew(lib, t, rows, i));
  }

  lemma {:induction false} NewRowAlertsExact(lib: Lib, t: Tables, now: int, rows: seq<CertRow>)
    ensures |NewRowAlerts(lib, t, now, rows)| <= |Alerts(lib, now, rows)|
    ensures |NewRowAlerts(lib, t, now, rows)| == |Alerts(lib, now, rows)| <==> WatchedAreNew(lib, t, rows)
    ensures WatchedAreNew(lib, t, rows) ==> NewRowAlerts(lib, t, now, rows) == Alerts(lib, now, rows)
  {
    if rows != [] {
      NewRowAlertsExact(lib, t, now, rows[..|rows| - 1]);
      WatchedMatches(lib, rows[|rows| - 1]);
      WatchedPrefix(lib, t, rows);
    }
  }

  lemma {:induction false} NoneNew(lib: Lib, t: Tables, now: int, rows: seq<CertRow>)
    requires AllKnown(t, rows)
    ensures NewRowAlerts(lib, t, now, rows) == []
  {
    if rows != [] {
      NoneNew(lib, t, now, rows[..|rows| - 1]);
      InsertKnown(lib.regdom, t, rows[..|rows| - 1]);
    }
  }

  /** Alerts are those of the newly inserted rows exactly when the batch holds nothing new at all, or no watched
      row in it is a duplicate. */
  lemma AlertsOnlyForNewRows(lib: Lib, t: Tables, now: int, rows: seq<CertRow>)
    ensures BatchAlerts(lib, t, now, rows) == NewRowAlerts(lib, t, now, rows) <==>
            AllKnown(t, rows) || WatchedAreNew(lib, t, rows)
  {
    GrowthExact(lib.regdom, t, rows);
    NewRowAlertsExact(lib, t, now, rows);
    if AllKnown(t, rows) {
      NoneNew(lib, t, now, rows);
    }
  }

  /** Otherwise a duplicate fires again: a watched certificate that is already stored is alerted because of an
      unrelated new one behind it. */
  lemma DuplicateFiresAgain(lib: Lib, t: Tables, now: int, known: CertRow, novel: CertRow)
    requires KeyOf(known) in t.certs && IsWatched(lib, known) && KeyOf(novel) !in t.certs && !IsWatched(lib, novel)
    ensures BatchAlerts(lib, t, now, [known, novel])
         == [Alert(now, Matches(lib.watched, known.registeredDomains), known)]
    ensures NewRowAlerts(lib, t, now, [known, novel]) == []
  {
    hide Matches;
    var rows := [known, novel];
    GrowthExact(lib.regdom, t, rows);
    WatchedMatches(lib, known);
    WatchedMatches(lib, novel);
    assert rows[1] == novel;
    assert rows[..1] == [known] && [known][..0] == [];
    assert Alerts(lib, now, [known]) == [Alert(now, Matches(lib.watched, known.registeredDomains), known)];
    assert NewRowAlerts(lib, t, now, [known]) == [];
  }

  // ---------------------------------------------------------------------------------------------
  // Alerts over a run
  // ---------------------------------------------------------------------------------------------

  lemma {:induction false} PickMember<T>(s: seq<T>, marks: seq<bool>, x: T)
    ensures x in Pick(s, marks) <==> exists j :: 0 <= j < |s| && j < |marks| && marks[j] && s[j] == x
  {
    if s != [] && marks != [] {
      PickMember(s[1..], marks[1..], x);
      assert forall j :: 0 < j < |s| ==> s[j] == s[1..][j - 1];
      assert forall j :: 0 < j < |marks| ==> marks[j] == marks[1..][j - 1];
      if j :| 0 <= j < |s| - 1 && j < |marks| - 1 && marks[1..][j] && s[1..][j] == x {
        assert marks[j + 1] && s[j + 1] == x;
      }
    }
  }

  ghost predicate Alerted(alerts: seq<Alert>, row: CertRow) {
    exists a :: a in alerts && a.cert == row
  }

  /** The place of the alert for the i-th row among those of the batch. */
  function AlertPlace(lib: Lib, now: int, rows: seq<CertRow>, i: nat): nat
    requires i < |rows|
  {
    |Alerts(lib, now, rows[..i])|
  }

  lemma AlertAt(lib: Lib, now: int, rows: seq<CertRow>, i: nat)
    requires i < |rows| && IsWatched(lib, rows[i])
    ensures AlertPlace(lib, now, rows, i) < |Alerts(lib, now, rows)|
    ensures Alerts(lib, now, rows)[AlertPlace(lib, now, rows, i)].cert == rows[i]
  {
    hide Alerts, Matches;
    WatchedMatches(lib, rows[i]);
    AlertsNext(lib, now, rows, i);
    AlertsGrow(lib, now, rows, i + 1);
  }

  lemma {:induction false} AlertOf(lib: Lib, now: int, rows: seq<CertRow>, j: nat) returns (i: nat)
    requires j < |Alerts(lib, now, rows)|
    ensures i < |rows| && IsWatched(lib, rows[i]) && AlertPlace(lib, now, rows, i) == j
    ensures Alerts(lib, now, rows)[j].cert == rows[i]
  {
    hide Matches, IsWatched;
    var last := |rows| - 1;
    i := last;
    WatchedMatches(lib, rows[last]);
    if j < |Alerts(lib, now, rows[..last])| {
      i := AlertOf(lib, now, rows[..last], j);
      assert rows[..last][..i] == rows[..i];
    }
  }

  /** A flush against these tables alerts the row: it is committed, it accepts the row, which is watched, it brings
      some new certificate, this one or another, and the statement for this alert succeeds. */
  ghost predicate AlertedBy(lib: Lib, retentionDays: nat, t: Tables, cut: Cut, row: CertRow) {
    var rows := RowsOf(lib, retentionDays, cut);
    && cut.stored && IsWatched(lib, row) && !AllKnown(t, rows)
    && exists i :: 0 <= i < |rows| && rows[i] == row
                   && AlertPlace(lib, cut.now, rows, i) < |cut.enqueued|
                   && cut.enqueued[AlertPlace(lib, cut.now, rows, i)]
  }

  lemma RaisedExact(lib: Lib, retentionDays: nat, t: Tables, cut: Cut, row: CertRow)
    ensures Alerted(Raised(lib, retentionDays, t, cut), row) <==> AlertedBy(lib, retentionDays, t, cut, row)
  {
    var rows := RowsOf(lib, retentionDays, cut);
    var alerts := Alerts(lib, cut.now, rows);
    hide Rows, Alerts, Pick, InsertAll;
    GrowthExact(lib.regdom, t, rows);
    if a :| a in Raised(lib, retentionDays, t, cut) && a.cert == row {
      PickMember(BatchAlerts(lib, t, cut.now, rows), cut.enqueued, a);
      var j :| 0 <= j < |alerts| && j < |cut.enqueued| && cut.enqueued[j] && alerts[j] == a;
      var i := AlertOf(lib, cut.now, rows, j);
      assert AlertPlace(lib, cut.now, rows, i) == j;
    }
    if AlertedBy(lib, retentionDays, t, cut, row) {
      var i :| 0 <= i < |rows| && rows[i] == row && AlertPlace(lib, cut.now, rows, i) < |cut.enqueued|
               && cut.enqueued[AlertPlace(lib, cut.now, rows, i)];
      AlertAt(lib, cut.now, rows, i);
      PickMember(alerts, cut.enqueued, alerts[AlertPlace(lib, cut.now, rows, i)]);
    }
  }

  ghost predicate AlertedIn(lib: Lib, retentionDays: nat, core: Core, cuts: seq<Cut>, row: CertRow) {
    exists k :: 0 <= k < |cuts| &&
      AlertedBy(lib, retentionDays, FlushAll(lib, retentionDays, core, cuts[..k]).tables, cuts[k], row)
  }

  lemma AlertedInNext(lib: Lib, retentionDays: nat, core: Core, cuts: seq<Cut>, row: CertRow)
    requires cuts != []
    ensures var before, last := cuts[..|cuts| - 1], cuts[|cuts| - 1];
      AlertedIn(lib, retentionDays, core, cuts, row) <==>
        || AlertedIn(lib, retentionDays, core, before, row)
        || AlertedBy(lib, retentionDays, FlushAll(lib, retentionDays, core, before).tables, last, row)
  {
    hide AlertedBy, FlushAll;
    var before := cuts[..|cuts| - 1];
    assert forall k :: 0 <= k < |before| ==> before[k] == cuts[k] && before[..k] == cuts[..k];
  }

  /** Whether a certificate is ever alerted, crashes and failed statements included: exactly if it is watched and
      some flush that accepts it is committed, brings something new, and stores its alert. */
  lemma {:induction false} AlertedExact(lib: Lib, retentionDays: nat, core: Core, cuts: seq<Cut>, row: CertRow)
    ensures Alerted(RaisedAll(lib, retentionDays, core, cuts), row) <==> AlertedIn(lib, retentionDays, core, cuts, row)
  {
    if cuts != [] {
      var before, last := cuts[..|cuts| - 1], cuts[|cuts| - 1];
      var t := FlushAll(lib, retentionDays, core, before).tables;
      AlertedExact(lib, retentionDays, core, before, row);
      AlertedInNext(lib, retentionDays, core, cuts, row);
      RaisedExact(lib, retentionDays, t, last, row);
      AlertedConcat(RaisedAll(lib, retentionDays, core, before), Raised(lib, retentionDays, t, last), row);
    }
  }

  lemma AlertedConcat(a: seq<Alert>, b: seq<Alert>, row: CertRow)
    ensures Alerted(a + b, row) <==> Alerted(a, row) || Alerted(b, row)
  {
    forall x: Alert
      ensures x in a + b <==> x in a || x in b
    {
    }
  }

  lemma {:induction false} AlertMeans(lib: Lib, now: int, rows: seq<CertRow>, a: Alert)
    requires a in Alerts(lib, now, rows)
    ensures a.matchedAt == now && a.cert in rows && a.matches != []
    ensures a.matches == Matches(lib.watched, a.cert.registeredDomains)
  {
    if a in Alerts(lib, now, rows[..|rows| - 1]) {
      AlertMeans(lib, now, rows[..|rows| - 1], a);
    }
  }

  lemma RaisedMeans(lib: Lib, retentionDays: nat, t: Tables, cut: Cut, a: Alert)
    requires a in Raised(lib, retentionDays, t, cut)
    ensures cut.stored && a.matchedAt == cut.now && a.matches != []
    ensures a.matches == Matches(lib.watched, a.cert.registeredDomains)
    ensures a.cert in Rows(lib, cut.now - retentionDays * 86_400 * 1_000_000, cut.batch)
  {
    hide Rows, Alerts, Pick, Matches, InsertAll;
    PickMember(BatchAlerts(lib, t, cut.now, RowsOf(lib, retentionDays, cut)), cut.enqueued, a);
    AlertMeans(lib, cut.now, RowsOf(lib, retentionDays, cut), a);
  }

  lemma {:induction false} RaisedInCut(lib: Lib, retentionDays: nat, core: Core, cuts: seq<Cut>, a: Alert)
    returns (k: nat)
    requires a in RaisedAll(lib, retentionDays, core, cuts)
    ensures k < |cuts| && a in Raised(lib, retentionDays, FlushAll(lib, retentionDays, core, cuts[..k]).tables, cuts[k])
  {
    hide FlushAll, Raised;
    k := |cuts| - 1;
    if a !in Raised(lib, retentionDays, FlushAll(lib, retentionDays, core, cuts[..k]).tables, cuts[k]) {
      var before := cuts[..k];
      k := RaisedInCut(lib, retentionDays, core, before, a);
      assert before[..k] == cuts[..k];
    }
  }

  /** What an alert says is so, over any run: it matches the registered domains of its certificate that are on the
      watchlist, all of them, in order, and no others; and the certificate is that of a precert which a committed flush
      accepted at the time the alert gives. */
  lemma AlertTells(lib: Lib, retentionDays: nat, core: Core, cuts: seq<Cut>, a: Alert) returns (k: nat, der: bytes)
    requires a in RaisedAll(lib, retentionDays, core, cuts)
    ensures a.matches != [] && a.matches == Matches(lib.watched, a.cert.registeredDomains)
    ensures forall d :: d in a.matches <==> d in a.cert.registeredDomains && lib.watched(d)
    ensures k < |cuts| && cuts[k].stored && a.matchedAt == cuts[k].now && IsRowOf(lib, der, a.cert)
    ensures exists job :: job in cuts[k].batch && job.entry.kind.Precert? && job.entry.precertDer == Some(der)
                          && a.cert.notBefore >= cuts[k].now - retentionDays * 86_400 * 1_000_000
  {
    hide Raised, RaisedAll, Rows, Matches;
    k := RaisedInCut(lib, retentionDays, core, cuts, a);
    RaisedMeans(lib, retentionDays, FlushAll(lib, retentionDays, core, cuts[..k]).tables, cuts[k], a);
    var cutoff := cuts[k].now - retentionDays * 86_400 * 1_000_000;
    der := RowIsOfDer(lib, cutoff, cuts[k].batch, a.cert);
    var job :| job in cuts[k].batch && AcceptsAs(lib, cutoff, job, der);
    forall d
      ensures d in a.matches <==> d in a.cert.registeredDomains && lib.watched(d)
    {
      MatchesMember(lib.watched, a.cert.registeredDomains, d);
    }
  }

  /** Replays raise nothing: from tables that hold every row of every committed flush, no alert comes any more. */
  lemma {:induction false} ReplaysRaiseNothing(lib: Lib, retentionDays: nat, core: Core, cuts: seq<Cut>)
    requires forall k :: 0 <= k < |cuts| && cuts[k].stored ==>
             AllKnown(core.tables, RowsOf(lib, retentionDays, cuts[k]))
    ensures RaisedAll(lib, retentionDays, core, cuts) == []
  {
    if cuts != [] {
      var before, last := cuts[..|cuts| - 1], cuts[|cuts| - 1];
      ReplaysRaiseNothing(lib, retentionDays, core, before);
      var rows := RowsOf(lib, retentionDays, last);
      if last.stored {
        forall i | 0 <= i < |rows|
          ensures KeyOf(rows[i]) in FlushAll(lib, retentionDays, core, before).tables.certs
        {
          CertStays(lib, retentionDays, core, before, KeyOf(rows[i]));
        }
        GrowthExact(lib.regdom, FlushAll(lib, retentionDays, core, before).tables, rows);
      }
    }
  }

  /** Each certificate that is in `t'`, was not in `t`, and is watched, has an alert. */
  ghost predicate OwedAreAlerted(lib: Lib, t: Tables, t': Tables, alerts: seq<Alert>) {
    forall key :: key in t'.certs && key !in t.certs && IsWatched(lib, t'.certs[key]) ==> Alerted(alerts, t'.certs[key])
  }

  /** Over a run that is: exactly if for each of them some flush that accepts it is committed, brings something new,
      and stores its alert. */
  lemma OwedExact(lib: Lib, retentionDays: nat, core: Core, cuts: seq<Cut>)
    ensures var t' := FlushAll(lib, retentionDays, core, cuts).tables;
      OwedAreAlerted(lib, core.tables, t', RaisedAll(lib, retentionDays, core, cuts)) <==>
        forall key :: key in t'.certs && key !in core.tables.certs && IsWatched(lib, t'.certs[key]) ==>
          AlertedIn(lib, retentionDays, core, cuts, t'.certs[key])
  {
    hide Alerted, AlertedIn, FlushAll, RaisedAll;
    forall row
      ensures Alerted(RaisedAll(lib, retentionDays, core, cuts), row) <==>
              AlertedIn(lib, retentionDays, core, cuts, row)
    {
      AlertedExact(lib, retentionDays, core, cuts, row);
    }
  }

  lemma OwedAmongMore(lib: Lib, t: Tables, t': Tables, a: seq<Alert>, b: seq<Alert>)
    requires OwedAreAlerted(lib, t, t', b)
    ensures OwedAreAlerted(lib, t, t', a + b)
  {
    forall row
      ensures Alerted(a + b, row) <==> Alerted(a, row) || Alerted(b, row)
    {
      AlertedConcat(a, b, row);
    }
  }

  lemma FlushAlertsNew(lib: Lib, retentionDays: nat, core: Core, cut: Cut, key: Key)
    requires AlertsComplete(lib, retentionDays, core.tables, cut) && key !in core.tables.certs
    requires var t' := FlushCore(lib, retentionDays, core, cut).tables;
             key in t'.certs && IsWatched(lib, t'.certs[key])
    ensures Alerted(Raised(lib, retentionDays, core.tables, cut),
                    FlushCore(lib, retentionDays, core, cut).tables.certs[key])
  {
    var rows, row := RowsOf(lib, retentionDays, cut), FlushCore(lib, retentionDays, core, cut).tables.certs[key];
    InsertAllExact(lib.regdom, core.tables, rows, key);
    GrowthExact(lib.regdom, core.tables, rows);
    var i :| 0 <= i < |rows| && rows[i] == row;
    AlertAt(lib, cut.now, rows, i);
    PickAll(BatchAlerts(lib, core.tables, cut.now, rows), cut.enqueued);
    var alert := Alerts(lib, cut.now, rows)[AlertPlace(lib, cut.now, rows, i)];
    assert alert in Raised(lib, retentionDays, core.tables, cut);
  }

  /** At least once: if no committed flush leaves an alert out, every watched certificate that the run adds to the
      table is alerted. */
  lemma {:induction false} CompleteKeepsPromise(lib: Lib, retentionDays: nat, core: Core, cuts: seq<Cut>)
    requires AllComplete(lib, retentionDays, core, cuts, |cuts|)
    ensures OwedAreAlerted(lib, core.tables, FlushAll(lib, retentionDays, core, cuts).tables,
                           RaisedAll(lib, retentionDays, core, cuts))
  {
    if cuts != [] {
      var before, last := cuts[..|cuts| - 1], cuts[|cuts| - 1];
      var mid := FlushAll(lib, retentionDays, core, before);
      var t' := FlushAll(lib, retentionDays, core, cuts).tables;
      assert forall k :: 0 <= k < |before| ==> before[..k] == cuts[..k];
      CompleteKeepsPromise(lib, retentionDays, core, before);
      forall key | key in t'.certs && key !in core.tables.certs && IsWatched(lib, t'.certs[key])
        ensures Alerted(RaisedAll(lib, retentionDays, core, cuts), t'.certs[key])
      {
        AlertedConcat(RaisedAll(lib, retentionDays, core, before), Raised(lib, retentionDays, mid.tables, last),
                      t'.certs[key]);
        InsertAllExact(lib.regdom, mid.tables, RowsOf(lib, retentionDays, last), key);
        if key !in mid.tables.certs {
          FlushAlertsNew(lib, retentionDays, mid, last, key);
        }
      }
    }
  }

  /** The committed flushes of a run that leave an alert out, because the process died or a statement failed. */
  ghost function Interrupted(lib: Lib, retentionDays: nat, core: Core, cuts: seq<Cut>): nat {
    if cuts == [] then 0
    else
      var before := cuts[..|cuts| - 1];
      Interrupted(lib, retentionDays, core, before)
        + if AlertsComplete(lib, retentionDays, FlushAll(lib, retentionDays, core, before).tables, cuts[|cuts| - 1])
          then 0 else 1
  }

  lemma {:induction false} UninterruptedIsComplete(lib: Lib, retentionDays: nat, core: Core, cuts: seq<Cut>)
    requires Interrupted(lib, retentionDays, core, cuts) == 0
    ensures AllComplete(lib, retentionDays, core, cuts, |cuts|)
  {
    hide FlushAll, AlertsComplete, AllComplete;
    if cuts == [] {
      CompletePrefix(lib, retentionDays, core, []);
    } else {
      var before, last := cuts[..|cuts| - 1], cuts[|cuts| - 1];
      assert before + [last] == cuts;
      UninterruptedIsComplete(lib, retentionDays, core, before);
      CompleteNext(lib, retentionDays, core, before, last);
    }
  }

  /** In every run in which at most `n` committed flushes are interrupted, each watched certificate that is added to
      the table is alerted. */
  ghost predicate AlertsAtLeastOnce(lib: Lib, retentionDays: nat, n: nat) {
    forall core, cuts :: Interrupted(lib, retentionDays, core, cuts) <= n ==>
      OwedAreAlerted(lib, core.tables, FlushAll(lib, retentionDays, core, cuts).tables,
                     RaisedAll(lib, retentionDays, core, cuts))
  }

  /** A batch of one watched precert whose flush dies after the commit: the certificate is stored, and its alert is
      owed and not raised. */
  lemma OwedAndLost(lib: Lib, retentionDays: nat, job: WriterJob, now: int) returns (core: Core, cuts: seq<Cut>)
    requires var verdict := Judge(lib, CutoffOf(retentionDays, now), job);
             verdict.Accepted? && IsWatched(lib, verdict.row)
    ensures |cuts| == 1 && Interrupted(lib, retentionDays, core, cuts) <= 1
    ensures RaisedAll(lib, retentionDays, core, cuts) == []
    ensures var row := Judge(lib, CutoffOf(retentionDays, now), job).row;
            var t' := FlushAll(lib, retentionDays, core, cuts).tables;
            KeyOf(row) !in core.tables.certs && KeyOf(row) in t'.certs && t'.certs[KeyOf(row)] == row
    ensures !OwedAreAlerted(lib, core.tables, FlushAll(lib, retentionDays, core, cuts).tables,
                            RaisedAll(lib, retentionDays, core, cuts))
  {
    hide IsWatched, Matches, Judge, Rows, InsertAll, IndexAgrees;
    core := Core(Tables(map[], map[]), 0, 0, 0, 0);
    var cut := Cut([job], now, true, [], []);
    cuts := [cut];
    var row := Judge(lib, CutoffOf(retentionDays, now), job).row;
    OneRow(lib, CutoffOf(retentionDays, now), job);
    InsertAllExact(lib.regdom, core.tables, [row], KeyOf(row));
    FlushNext(lib, retentionDays, core, [], cut);
    assert [] + [cut] == [cut];
    PickNothing(BatchAlerts(lib, core.tables, now, [row]));
    assert [row][0] == row;
  }

  lemma OneRow(lib: Lib, cutoff: int, job: WriterJob)
    requires Judge(lib, cutoff, job).Accepted?
    ensures Rows(lib, cutoff, [job]) == [Judge(lib, cutoff, job).row]
  {
    assert [job][..0] == [];
  }

  /** Alerts are at-least-once, whatever else happens, if and only if no committed flush is ever interrupted before
      its last alert: with an available database, if and only if the process does not die there. */
  lemma AtLeastOnceExact(lib: Lib, retentionDays: nat, n: nat, job: WriterJob, now: int)
    requires var verdict := Judge(lib, CutoffOf(retentionDays, now), job);
             verdict.Accepted? && IsWatched(lib, verdict.row)
    ensures AlertsAtLeastOnce(lib, retentionDays, n) <==> n == 0
  {
    if n == 0 {
      forall core, cuts | Interrupted(lib, retentionDays, core, cuts) <= n
        ensures OwedAreAlerted(lib, core.tables, FlushAll(lib, retentionDays, core, cuts).tables,
                               RaisedAll(lib, retentionDays, core, cuts))
      {
        UninterruptedIsComplete(lib, retentionDays, core, cuts);
        CompleteKeepsPromise(lib, retentionDays, core, cuts);
      }
    } else {
      var core, cuts := OwedAndLost(lib, retentionDays, job, now);
      assert Interrupted(lib, retentionDays, core, cuts) <= n;
    }
  }

  lemma {:induction false} RunSplits(lib: Lib, retentionDays: nat, core: Core, a: seq<Cut>, b: seq<Cut>)
    ensures var mid := FlushAll(lib, retentionDays, core, a);
      && FlushAll(lib, retentionDays, core, a + b) == FlushAll(lib, retentionDays, mid, b)
      && RaisedAll(lib, retentionDays, core, a + b)
           == RaisedAll(lib, retentionDays, core, a) + RaisedAll(lib, retentionDays, mid, b)
  {
    hide FlushAll, RaisedAll, FlushCore, Raised;
    var mid := FlushAll(lib, retentionDays, core, a);
    if b == [] {
      assert a + b == a;
      NoFlush(lib, retentionDays, mid);
      assert RaisedAll(lib, retentionDays, core, a) + [] == RaisedAll(lib, retentionDays, core, a);
    } else {
      var before, last := b[..|b| - 1], b[|b| - 1];
      RunSplits(lib, retentionDays, core, a, before);
      FlushNext(lib, retentionDays, core, a + before, last);
      FlushNext(lib, retentionDays, mid, before, last);
      assert a + b == a + before + [last] && before + [last] == b;
    }
  }

  /** A later cutoff accepts no other rows. */
  lemma {:induction false} RowsShrink(lib: Lib, cutoff: int, later: int, jobs: seq<WriterJob>)
    requires cutoff <= later
    ensures forall row :: row in Rows(lib, later, jobs) ==> row in Rows(lib, cutoff, jobs)
  {
    if jobs != [] {
      RowsShrink(lib, cutoff, later, jobs[..|jobs| - 1]);
    }
  }

  /** What becomes of an owed alert when the process dies between the commit of a batch and its first alert. For any
      watched row the batch would have added: it is stored, and after any further run it is alerted if and only if
      some later flush accepts it together with something new, and stores its alert. Replays of the batch alone, at
      any later time, alert nothing. */
  lemma {:induction false} CrashLosesAlerts(lib: Lib, retentionDays: nat, core: Core, batch: seq<WriterJob>, now: int,
                                            observed: seq<bool>, row: CertRow, later: seq<Cut>)
    requires row in Rows(lib, CutoffOf(retentionDays, now), batch) && IsWatched(lib, row)
    requires KeyOf(row) !in core.tables.certs
    ensures var crashed := Cut(batch, now, true, observed, []);
            var after := FlushCore(lib, retentionDays, core, crashed);
      && KeyOf(row) in FlushAll(lib, retentionDays, core, [crashed] + later).tables.certs
      && (Alerted(RaisedAll(lib, retentionDays, core, [crashed] + later), row)
          <==> AlertedIn(lib, retentionDays, after, later, row))
      && ((forall k :: 0 <= k < |later| ==> later[k].batch == batch && now <= later[k].now)
          ==> RaisedAll(lib, retentionDays, core, [crashed] + later) == [])
  {
    var crashed := Cut(batch, now, true, observed, []);
    var after := FlushCore(lib, retentionDays, core, crashed);
    var rows := RowsOf(lib, retentionDays, crashed);
    FlushNext(lib, retentionDays, core, [], crashed);
    assert [] + [crashed] == [crashed];
    PickNothing(BatchAlerts(lib, core.tables, now, rows));
    RunSplits(lib, retentionDays, core, [crashed], later);
    AlertedExact(lib, retentionDays, after, later, row);
    assert [] + RaisedAll(lib, retentionDays, after, later) == RaisedAll(lib, retentionDays, after, later);
    FlushedStaysKnown(lib, retentionDays, core, crashed, later);
    var i :| 0 <= i < |rows| && rows[i] == row;
    if forall k :: 0 <= k < |later| ==> later[k].batch == batch && now <= later[k].now {
      ReplaysAreKnown(lib, retentionDays, core, crashed, later);
      ReplaysRaiseNothing(lib, retentionDays, after, later);
    }
  }

  /** Flushing the batch of a committed flush again at a later time brings only rows that are known. */
  lemma ReplaysAreKnown(lib: Lib, retentionDays: nat, core: Core, cut: Cut, replays: seq<Cut>)
    requires cut.stored && forall k :: 0 <= k < |replays| ==> replays[k].batch == cut.batch && cut.now <= replays[k].now
    ensures forall k :: 0 <= k < |replays| ==>
            AllKnown(FlushCore(lib, retentionDays, core, cut).tables, RowsOf(lib, retentionDays, replays[k]))
  {
    FlushedStaysKnown(lib, retentionDays, core, cut, []);
    var rows, after := RowsOf(lib, retentionDays, cut), FlushCore(lib, retentionDays, core, cut);
    forall k | 0 <= k < |replays|
      ensures AllKnown(after.tables, RowsOf(lib, retentionDays, replays[k]))
    {
      RowsShrink(lib, CutoffOf(retentionDays, cut.now), CutoffOf(retentionDays, replays[k].now), cut.batch);
      var again := RowsOf(lib, retentionDays, replays[k]);
      forall i | 0 <= i < |again|
        ensures KeyOf(again[i]) in after.tables.certs
      {
        assert again[i] in again;
        var j :| 0 <= j < |rows| && rows[j] == again[i];
      }
    }
  }

  /** The loss need not last: a new certificate, watched or not, in one batch with the lost one brings its alert. */
  lemma NoveltyBringsAlert(lib: Lib, retentionDays: nat, t: Tables, lost: WriterJob, novel: WriterJob, now: int)
    requires var a := Judge(lib, CutoffOf(retentionDays, now), lost);
             var b := Judge(lib, CutoffOf(retentionDays, now), novel);
      && a.Accepted? && IsWatched(lib, a.row) && KeyOf(a.row) in t.certs
      && b.Accepted? && KeyOf(b.row) !in t.certs
    ensures AlertedBy(lib, retentionDays, t, Cut([lost, novel], now, true, [], [true]),
                      Judge(lib, CutoffOf(retentionDays, now), lost).row)
  {
    var cutoff := CutoffOf(retentionDays, now);
    var a, b := Judge(lib, cutoff, lost).row, Judge(lib, cutoff, novel).row;
    OneRow(lib, cutoff, lost);
    assert [lost, novel][..1] == [lost];
    var rows := Rows(lib, cutoff, [lost, novel]);
    assert rows == [a, b] && rows[1] == b && rows[0] == a && rows[..0] == [];
    assert AlertPlace(lib, now, rows, 0) == 0;
  }

  // ---------------------------------------------------------------------------------------------
  // A second writer without a watchlist
  // ---------------------------------------------------------------------------------------------

  /** What the writer of the backfill command works with: an empty watchlist. */
  function Unwatching(lib: Lib): Lib {
    lib.(watched := (d: string) => false)
  }

  lemma {:induction false} NoMatches(domains: seq<string>)
    ensures Matches((d: string) => false, domains) == []
  {
    if domains != [] {
      NoMatches(domains[..|domains| - 1]);
    }
  }

  lemma {:induction false} UnwatchedRaiseNothing(lib: Lib, now: int, rows: seq<CertRow>)
    ensures Alerts(Unwatching(lib), now, rows) == []
  {
    if rows != [] {
      UnwatchedRaiseNothing(lib, now, rows[..|rows| - 1]);
      NoMatches(rows[|rows| - 1].registeredDomains);
    }
  }

  lemma {:induction false} SameRowsUnwatched(lib: Lib, cutoff: int, jobs: seq<WriterJob>)
    ensures Rows(Unwatching(lib), cutoff, jobs) == Rows(lib, cutoff, jobs)
  {
    if jobs != [] {
      SameRowsUnwatched(lib, cutoff, jobs[..|jobs| - 1]);
    }
  }

  /** The promise of alerts is one writer's. If the writer of a backfill is the first to store a watched certificate, it
      does so without an alert, nothing being interrupted; and the writer that has the watchlist then alerts it if and
      only if it gets it again together with something new. Replays of the batch alone alert nothing. */
  lemma {:induction false} SecondWriterSilences(lib: Lib, retentionDays: nat, core: Core, batch: seq<WriterJob>,
                                                now: int, observed: seq<bool>, row: CertRow, later: seq<Cut>)
    requires row in Rows(lib, CutoffOf(retentionDays, now), batch) && IsWatched(lib, row)
    requires KeyOf(row) !in core.tables.certs
    ensures var cut := Cut(batch, now, true, observed, []);
            var after := FlushCore(Unwatching(lib), retentionDays, core, cut);
      && AlertsComplete(Unwatching(lib), retentionDays, core.tables, cut)
      && Raised(Unwatching(lib), retentionDays, core.tables, cut) == []
      && KeyOf(row) in after.tables.certs
      && (Alerted(RaisedAll(lib, retentionDays, after, later), row)
          <==> AlertedIn(lib, retentionDays, after, later, row))
      && ((forall k :: 0 <= k < |later| ==> later[k].batch == batch && now <= later[k].now)
          ==> RaisedAll(lib, retentionDays, after, later) == [])
  {
    var cut := Cut(batch, now, true, observed, []);
    var after := FlushCore(Unwatching(lib), retentionDays, core, cut);
    var rows := RowsOf(lib, retentionDays, cut);
    SameRowsUnwatched(lib, CutoffOf(retentionDays, now), batch);
    UnwatchedRaiseNothing(lib, now, rows);
    InsertAllExact(lib.regdom, core.tables, rows, KeyOf(row));
    var i :| 0 <= i < |rows| && rows[i] == row;
    AlertedExact(lib, retentionDays, after, later, row);
    if forall k :: 0 <= k < |later| ==> later[k].batch == batch && now <= later[k].now {
      ReplaysAreKnown(lib, retentionDays, core, cut, later);
      ReplaysRaiseNothing(lib, retentionDays, after, later);
    }
  }
}
