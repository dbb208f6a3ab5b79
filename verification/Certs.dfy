/** The tables `certs` and `cert_names`: certificates by (hash, not_before), and the index of their names. */
module Certs {
  import opened Wrappers
  import opened Entry
  import opened CertData

  datatype Key = Key(certHash: bytes, notBefore: int)
  datatype NameKey = NameKey(name: string, certHash: bytes, notBefore: int)

  /** `names` maps a row's primary key to its registered_domain. */
  datatype Tables = Tables(certs: map<Key, CertRow>, names: map<NameKey, string>)

  /** The Public Suffix List lookup. */
  type RegDom = string -> Option<string>

  function KeyOf(row: CertRow): Key {
    Key(row.certHash, row.notBefore)
  }

  function NameKeyOf(name: string, row: CertRow): NameKey {
    NameKey(name, row.certHash, row.notBefore)
  }

  function DomainOf(regdom: RegDom, name: string): string {
    match regdom(name)
    case Some(domain) => domain
    case None => name
  }

  /** The index after the first `n` names of a row have been inserted, each with ON CONFLICT DO NOTHING. */
  function AddNames(regdom: RegDom, names: map<NameKey, string>, row: CertRow, n: nat): map<NameKey, string>
    requires n <= |row.sans|
  {
    if n == 0 then names
    else
      var before := AddNames(regdom, names, row, n - 1);
      var key := NameKeyOf(row.sans[n - 1], row);
      if key in before then before else before[key := DomainOf(regdom, row.sans[n - 1])]
  }

  function InsertRow(regdom: RegDom, t: Tables, row: CertRow): Tables {
    if KeyOf(row) in t.certs then t
    else Tables(t.certs[KeyOf(row) := row], AddNames(regdom, t.names, row, |row.sans|))
  }

  function InsertAll(regdom: RegDom, t: Tables, rows: seq<CertRow>): Tables {
    if rows == [] then t
    else InsertRow(regdom, InsertAll(regdom, t, rows[..|rows| - 1]), rows[|rows| - 1])
  }

  class CertStore {
    var certs: map<Key, CertRow>
    var names: map<NameKey, string>
    const available: bool

    ghost function Contents(): Tables
      reads this
    {
      Tables(certs, names)
    }

    /** One transaction: any statement may fail unless the database is `available`, and then nothing has happened.
        Returns how many rows are new. */
    method InsertBatch(regdom: RegDom, rows: seq<CertRow>) returns (r: Result<nat, DbError>)
      modifies this
      ensures available ==> r.Ok?
      ensures r.Err? ==> Contents() == old(Contents())
      ensures r.Ok? ==> Contents() == InsertAll(regdom, old(Contents()), rows)
      ensures r.Ok? ==> |old(certs)| + r.value == |certs|
      ensures r.Ok? ==> forall row :: row in rows ==> Key(row.certHash, row.notBefore) in certs
      ensures r.Ok? ==> forall k :: k in names && k !in old(names) ==>
              names[k] == if regdom(k.name).Some? then regdom(k.name).value else k.name
      ensures r.Ok? && IndexAgrees(regdom, old(Contents())) ==> IndexAgrees(regdom, Contents())
    {
      hide IndexAgrees;
      if |rows| == 0 {
        return Ok(0);
      }
      var txCerts, txNames, inserted := certs, names, 0;
      for i := 0 to |rows|
        invariant Contents() == old(Contents())
        invariant Tables(txCerts, txNames) == InsertAll(regdom, old(Contents()), rows[..i])
        invariant |old(certs)| + inserted == |txCerts|
      {
        if !available {
          if * {
            return Err(DbUnavailable);
          }
        }
        var row := rows[i];
        assert rows[..i + 1][..i] == rows[..i];
        var certKey := Key(row.certHash, row.notBefore);
        if certKey !in txCerts {
          ghost var index := txNames;
          txCerts := txCerts[certKey := row];
          inserted := inserted + 1;
          for j := 0 to |row.sans|
            invariant Contents() == old(Contents())
            invariant txNames == AddNames(regdom, index, row, j)
          {
            if !available {
              if * {
                return Err(DbUnavailable);
              }
            }
            var name := row.sans[j];
            var found := regdom(name);
            var key := NameKey(name, row.certHash, row.notBefore);
            if key !in txNames {
              txNames := txNames[key := if found.Some? then found.value else name];
            }
          }
        }
      }
      if !available {
        if * {
          return Err(DbUnavailable);
        }
      }
      assert rows[..|rows|] == rows;
      BatchInserted(regdom, Contents(), rows);
      certs, names := txCerts, txNames;
      return Ok(inserted);
    }
  }

  // ---------------------------------------------------------------------------------------------
  // The index agrees with the certificates
  // ---------------------------------------------------------------------------------------------

  /** Each certificate stands under its hash and its not_before. There is one index row for each name of each
      certificate, and nothing else; it holds what the lookup gives for the name, or the name itself if that gives
      nothing. */
  ghost predicate IndexAgrees(regdom: RegDom, t: Tables) {
    && (forall key :: key in t.certs ==>
          t.certs[key].certHash == key.certHash && t.certs[key].notBefore == key.notBefore)
    && (forall k :: k in t.names <==>
          Key(k.certHash, k.notBefore) in t.certs && k.name in t.certs[Key(k.certHash, k.notBefore)].sans)
    && (forall k :: k in t.names ==>
          match regdom(k.name)
          case Some(domain) => t.names[k] == domain
          case None => t.names[k] == k.name)
  }

  lemma {:induction false} AddNamesExact(regdom: RegDom, names: map<NameKey, string>, row: CertRow, n: nat, k: NameKey)
    requires n <= |row.sans|
    ensures var after := AddNames(regdom, names, row, n);
      && (k in after <==> k in names || (Key(k.certHash, k.notBefore) == KeyOf(row) && k.name in row.sans[..n]))
      && (k in names ==> after[k] == names[k])
      && (k in after && k !in names ==> after[k] == DomainOf(regdom, k.name))
  {
    if n > 0 {
      AddNamesExact(regdom, names, row, n - 1, k);
      assert row.sans[..n] == row.sans[..n - 1] + [row.sans[n - 1]];
    }
  }

  lemma InsertRowKeepsIndex(regdom: RegDom, t: Tables, row: CertRow)
    requires IndexAgrees(regdom, t)
    ensures IndexAgrees(regdom, InsertRow(regdom, t, row))
  {
    var t' := InsertRow(regdom, t, row);
    if KeyOf(row) !in t.certs {
      assert row.sans[..|row.sans|] == row.sans;
      forall k
        ensures k in t'.names <==>
          Key(k.certHash, k.notBefore) in t'.certs && k.name in t'.certs[Key(k.certHash, k.notBefore)].sans
        ensures k in t'.names ==> t'.names[k] == if regdom(k.name).Some? then regdom(k.name).value else k.name
      {
        AddNamesExact(regdom, t.names, row, |row.sans|, k);
      }
    }
  }

  /** Name index agreement, whatever the batch holds. */
  lemma {:induction false} InsertAllKeepsIndex(regdom: RegDom, t: Tables, rows: seq<CertRow>)
    requires IndexAgrees(regdom, t)
    ensures IndexAgrees(regdom, InsertAll(regdom, t, rows))
  {
    if rows != [] {
      InsertAllKeepsIndex(regdom, t, rows[..|rows| - 1]);
      InsertRowKeepsIndex(regdom, InsertAll(regdom, t, rows[..|rows| - 1]), rows[|rows| - 1]);
    }
  }

  /** What a batch adds to the index it adds under what the lookup gives, whatever the index held before. */
  lemma {:induction false} NewNamesDomain(regdom: RegDom, t: Tables, rows: seq<CertRow>, k: NameKey)
    requires k in InsertAll(regdom, t, rows).names && k !in t.names
    ensures InsertAll(regdom, t, rows).names[k] == if regdom(k.name).Some? then regdom(k.name).value else k.name
  {
    var before, row := InsertAll(regdom, t, rows[..|rows| - 1]), rows[|rows| - 1];
    AddNamesExact(regdom, before.names, row, |row.sans|, k);
    if k in before.names {
      NewNamesDomain(regdom, t, rows[..|rows| - 1], k);
    }
  }

  lemma BatchInserted(regdom: RegDom, t: Tables, rows: seq<CertRow>)
    ensures var t' := InsertAll(regdom, t, rows);
      && (forall row :: row in rows ==> Key(row.certHash, row.notBefore) in t'.certs)
      && (forall k :: k in t'.names && k !in t.names ==>
            t'.names[k] == if regdom(k.name).Some? then regdom(k.name).value else k.name)
      && (IndexAgrees(regdom, t) ==> IndexAgrees(regdom, t'))
  {
    hide InsertAll, IndexAgrees;
    var t' := InsertAll(regdom, t, rows);
    forall row | row in rows
      ensures Key(row.certHash, row.notBefore) in t'.certs
    {
      InsertAllExact(regdom, t, rows, Key(row.certHash, row.notBefore));
      var i :| 0 <= i < |rows| && rows[i] == row;
    }
    forall k | k in t'.names && k !in t.names
      ensures t'.names[k] == if regdom(k.name).Some? then regdom(k.name).value else k.name
    {
      NewNamesDomain(regdom, t, rows, k);
    }
    if IndexAgrees(regdom, t) {
      InsertAllKeepsIndex(regdom, t, rows);
    }
  }

  // ---------------------------------------------------------------------------------------------
  // What the tables depend on
  // ---------------------------------------------------------------------------------------------

  lemma {:induction false} InsertAllSplits(regdom: RegDom, t: Tables, a: seq<CertRow>, b: seq<CertRow>)
    ensures InsertAll(regdom, t, a + b) == InsertAll(regdom, InsertAll(regdom, t, a), b)
  {
    if b == [] {
      assert a + b == a;
    } else {
      assert (a + b)[..|a + b| - 1] == a + b[..|b| - 1];
      InsertAllSplits(regdom, t, a, b[..|b| - 1]);
    }
  }

  /** A certificate already there stays; a new key gets one of the batch's rows for it. */
  lemma {:induction false} InsertAllExact(regdom: RegDom, t: Tables, rows: seq<CertRow>, key: Key)
    ensures var t' := InsertAll(regdom, t, rows);
      && (key in t'.certs <==>
            || key in t.certs
            || exists i :: 0 <= i < |rows| && rows[i].certHash == key.certHash && rows[i].notBefore == key.notBefore)
      && (key in t.certs ==> t'.certs[key] == t.certs[key])
      && (key in t'.certs && key !in t.certs ==>
            t'.certs[key] in rows
            && t'.certs[key].certHash == key.certHash && t'.certs[key].notBefore == key.notBefore)
  {
    if rows != [] {
      InsertAllExact(regdom, t, rows[..|rows| - 1], key);
    }
  }

  /** No two different rows claim one key. */
  ghost predicate Consistent(rows: seq<CertRow>) {
    forall r, r' :: r in rows && r' in rows && KeyOf(r) == KeyOf(r') ==> r == r'
  }

  ghost predicate SameRows(a: seq<CertRow>, b: seq<CertRow>) {
    forall r :: r in a <==> r in b
  }

  lemma SameCert(regdom: RegDom, t: Tables, a: seq<CertRow>, b: seq<CertRow>, key: Key)
    requires SameRows(a, b) && Consistent(a)
    ensures var ta, tb := InsertAll(regdom, t, a).certs, InsertAll(regdom, t, b).certs;
            (key in ta <==> key in tb) && (key in ta ==> ta[key] == tb[key])
  {
    hide InsertAll;
    InsertAllExact(regdom, t, a, key);
    InsertAllExact(regdom, t, b, key);
    forall i | 0 <= i < |a|
      ensures a[i] in b
    {
      assert a[i] in a;
    }
    forall i | 0 <= i < |b|
      ensures b[i] in a
    {
      assert b[i] in b;
    }
  }

  lemma SameIndex(regdom: RegDom, t: Tables, t': Tables)
    requires IndexAgrees(regdom, t) && IndexAgrees(regdom, t') && t.certs == t'.certs
    ensures t == t'
  {
    assert forall k :: k in t.names <==> k in t'.names;
  }

  /** Confluence: order and repetition of the rows do not matter. */
  lemma Confluent(regdom: RegDom, t: Tables, a: seq<CertRow>, b: seq<CertRow>)
    requires IndexAgrees(regdom, t) && SameRows(a, b) && Consistent(a)
    ensures InsertAll(regdom, t, a) == InsertAll(regdom, t, b)
  {
    var ta, tb := InsertAll(regdom, t, a), InsertAll(regdom, t, b);
    forall key
      ensures (key in ta.certs <==> key in tb.certs) && (key in ta.certs ==> ta.certs[key] == tb.certs[key])
    {
      SameCert(regdom, t, a, b, key);
    }
    assert ta.certs == tb.certs;
    InsertAllKeepsIndex(regdom, t, a);
    InsertAllKeepsIndex(regdom, t, b);
    SameIndex(regdom, ta, tb);
  }

  /** Consistency is what confluence needs: two rows can be swapped exactly when they do not compete for a
      new key with different contents. */
  lemma SwapExact(regdom: RegDom, t: Tables, r: CertRow, r': CertRow)
    requires IndexAgrees(regdom, t)
    ensures InsertAll(regdom, t, [r, r']) == InsertAll(regdom, t, [r', r]) <==>
            KeyOf(r) != KeyOf(r') || r == r' || KeyOf(r) in t.certs
  {
    if KeyOf(r) != KeyOf(r') || r == r' {
      SameTwo(r, r');
      Confluent(regdom, t, [r, r'], [r', r]);
    } else {
      Pair(regdom, t, r, r');
      Pair(regdom, t, r', r);
      hide AddNames, IndexAgrees, InsertAll;
      assert KeyOf(r) !in t.certs ==> InsertRow(regdom, InsertRow(regdom, t, r), r').certs[KeyOf(r)] == r;
      assert KeyOf(r) !in t.certs ==> InsertRow(regdom, InsertRow(regdom, t, r'), r).certs[KeyOf(r)] == r';
    }
  }

  lemma SameTwo(r: CertRow, r': CertRow)
    requires KeyOf(r) != KeyOf(r') || r == r'
    ensures Consistent([r, r']) && SameRows([r, r'], [r', r])
  {
  }

  lemma Pair(regdom: RegDom, t: Tables, r: CertRow, r': CertRow)
    ensures InsertAll(regdom, t, [r, r']) == InsertRow(regdom, InsertRow(regdom, t, r), r')
  {
    hide InsertRow;
    assert [r, r'][..1] == [r] && [r][..0] == [];
    assert InsertAll(regdom, t, [r]) == InsertRow(regdom, InsertAll(regdom, t, []), r);
  }

  /** Rows whose keys are all there change nothing. */
  lemma {:induction false} InsertKnown(regdom: RegDom, t: Tables, rows: seq<CertRow>)
    requires forall i :: 0 <= i < |rows| ==> KeyOf(rows[i]) in t.certs
    ensures InsertAll(regdom, t, rows) == t
  {
    if rows != [] {
      InsertKnown(regdom, t, rows[..|rows| - 1]);
    }
  }

  /** The number of new certificates is positive exactly when some row has a new key, and never more than the rows. */
  lemma {:induction false} GrowthExact(regdom: RegDom, t: Tables, rows: seq<CertRow>)
    ensures var n := |InsertAll(regdom, t, rows).certs| - |t.certs|;
            0 <= n <= |rows| && (n > 0 <==> exists i :: 0 <= i < |rows| && KeyOf(rows[i]) !in t.certs)
  {
    if rows != [] {
      var before := InsertAll(regdom, t, rows[..|rows| - 1]);
      GrowthExact(regdom, t, rows[..|rows| - 1]);
      InsertAllExact(regdom, t, rows[..|rows| - 1], KeyOf(rows[|rows| - 1]));
    }
  }
}
