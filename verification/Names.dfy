/** The table `names_observed`: when each name was seen, and in how many certificates. */
module Names {
  import opened Wrappers

  datatype NameRow = NameRow(registeredDomain: string, firstSeen: int, lastSeen: int, certCount: nat)

  datatype Event =
    | Seen(name: string, domain: string, at: int)
    | Pruned(cutoff: int)

  function Step(rows: map<string, NameRow>, e: Event): map<string, NameRow> {
    match e
    case Seen(name, domain, at) =>
      if name in rows then rows[name := rows[name].(lastSeen := at, certCount := rows[name].certCount + 1)]
      else rows[name := NameRow(domain, at, at, 1)]
    case Pruned(cutoff) => map name | name in rows && rows[name].lastSeen >= cutoff :: rows[name]
  }

  function Replay(rows: map<string, NameRow>, history: seq<Event>): map<string, NameRow> {
    if history == [] then rows else Step(Replay(rows, history[..|history| - 1]), history[|history| - 1])
  }

  lemma ReplayNext(rows: map<string, NameRow>, history: seq<Event>, e: Event)
    ensures Replay(rows, history + [e]) == Step(Replay(rows, history), e)
  {
    assert (history + [e])[..|history|] == history;
  }

  class NamesTable {
    var rows: map<string, NameRow>
    const available: bool

    method Upsert(name: string, domain: string, at: int) returns (r: Result<(), DbError>)
      modifies this
      ensures available ==> r.Ok?
      ensures rows == if r.Ok? then Step(old(rows), Seen(name, domain, at)) else old(rows)
    {
      if !available {
        if * {
          return Err(DbUnavailable);
        }
      }
      if name in rows {
        rows := rows[name := rows[name].(lastSeen := at, certCount := rows[name].certCount + 1)];
      } else {
        rows := rows[name := NameRow(domain, at, at, 1)];
      }
      return Ok(());
    }

    method PruneOlderThan(cutoff: int) returns (r: Result<nat, DbError>)
      modifies this
      ensures available ==> r.Ok?
      ensures rows == if r.Ok? then Step(old(rows), Pruned(cutoff)) else old(rows)
      ensures r.Ok? ==> |rows| + r.value == |old(rows)|
    {
      if !available {
        if * {
          return Err(DbUnavailable);
        }
      }
      var kept := map name | name in rows && rows[name].lastSeen >= cutoff :: rows[name];
      assert kept.Keys <= rows.Keys;
      assert |rows.Keys - kept.Keys| + |kept.Keys| == |rows.Keys|;
      r := Ok(|rows| - |kept|);
      rows := kept;
    }
  }

  /** The observations of one name since it was last removed, oldest first: a prune removes the name if the
      latest of them is older than the cutoff. */
  function Live(history: seq<Event>, name: string): seq<Event> {
    if history == [] then []
    else
      var before := Live(history[..|history| - 1], name);
      match history[|history| - 1]
      case Seen(n, domain, at) => if n == name then before + [Seen(n, domain, at)] else before
      case Pruned(cutoff) =>
        if before != [] && before[|before| - 1].Seen? && before[|before| - 1].at < cutoff then [] else before
  }

  /** Observation table refinement: a row is the fold of the name's live observations. */
  lemma {:induction false} RowIsFold(history: seq<Event>, name: string)
    ensures var rows, live := Replay(map[], history), Live(history, name);
      && (forall i :: 0 <= i < |live| ==> live[i].Seen?)
      && (name in rows <==> live != [])
      && (name in rows ==>
            rows[name] == NameRow(live[0].domain, live[0].at, live[|live| - 1].at, |live|))
  {
    if history != [] {
      RowIsFold(history[..|history| - 1], name);
    }
  }

  lemma {:induction false} LiveAmong(history: seq<Event>, name: string, i: nat)
    requires i < |Live(history, name)|
    ensures Live(history, name)[i] in history && Live(history, name)[i].Seen? && Live(history, name)[i].name == name
  {
    if i < |Live(history[..|history| - 1], name)| {
      LiveAmong(history[..|history| - 1], name, i);
    }
  }

  /** A name's span is in order exactly when its latest live observation is no older than its first: the
      certificates of a name may arrive in any order of validity. */
  lemma SpanInOrder(history: seq<Event>, name: string)
    requires name in Replay(map[], history)
    ensures var row, live := Replay(map[], history)[name], Live(history, name);
            |live| > 0 && live[0].Seen? && live[|live| - 1].Seen? &&
            (row.firstSeen <= row.lastSeen <==> live[0].at <= live[|live| - 1].at)
  {
    RowIsFold(history, name);
  }

  predicate InOrder(rows: map<string, NameRow>, name: string) {
    name in rows ==> rows[name].firstSeen <= rows[name].lastSeen
  }

  /** No observation of the name is older than the first_seen of the row it finds. */
  ghost predicate NoneOlder(history: seq<Event>, name: string) {
    forall i :: 0 <= i < |history| && history[i].Seen? && history[i].name == name && name in Replay(map[], history[..i])
      ==> Replay(map[], history[..i])[name].firstSeen <= history[i].at
  }

  /** A name's span is in order all along its history if and only if every upsert that finds a row brings a time no
      older than its first_seen. */
  lemma SpanAlwaysInOrder(history: seq<Event>, name: string)
    ensures (forall n :: 0 <= n <= |history| ==> InOrder(Replay(map[], history[..n]), name))
            <==> NoneOlder(history, name)
  {
    forall n | 0 <= n < |history|
      ensures Replay(map[], history[..n + 1]) == Step(Replay(map[], history[..n]), history[n])
    {
      assert history[..n + 1][..n] == history[..n];
    }
    if NoneOlder(history, name) {
      OrderFollows(history, name, |history|);
    }
    if i :| 0 <= i < |history| && history[i].Seen? && history[i].name == name && name in Replay(map[], history[..i])
            && history[i].at < Replay(map[], history[..i])[name].firstSeen {
      assert !InOrder(Replay(map[], history[..i + 1]), name);
    }
  }

  lemma {:induction false} OrderFollows(history: seq<Event>, name: string, n: nat)
    requires NoneOlder(history, name) && n <= |history|
    ensures forall m :: 0 <= m <= n ==> InOrder(Replay(map[], history[..m]), name)
  {
    if n > 0 {
      OrderFollows(history, name, n - 1);
      assert history[..n][..n - 1] == history[..n - 1];
    }
  }

  lemma SpanOutOfOrder(name: string, domain: string)
    ensures var row := Replay(map[], [Seen(name, domain, 2), Seen(name, domain, 1)]);
            name in row && row[name].lastSeen < row[name].firstSeen
  {
    var history := [Seen(name, domain, 2), Seen(name, domain, 1)];
    assert history[..1] == [Seen(name, domain, 2)];
    assert Replay(map[], history[..1]) == Step(map[], history[0]);
  }

  function Occurrences(history: seq<Event>, name: string): nat {
    if history == [] then 0
    else
      var e := history[|history| - 1];
      Occurrences(history[..|history| - 1], name) + if e.Seen? && e.name == name then 1 else 0
  }

  /** Without pruning, a count grows by the number of times the name occurs, and what was first seen stays. */
  lemma {:induction false} CountGrowsBy(rows: map<string, NameRow>, history: seq<Event>, name: string)
    requires forall i :: 0 <= i < |history| ==> history[i].Seen?
    ensures var rows' := Replay(rows, history);
      && (name in rows ==> name in rows' && rows'[name].certCount == rows[name].certCount + Occurrences(history, name)
                           && rows'[name].firstSeen == rows[name].firstSeen)
      && (name !in rows ==> if Occurrences(history, name) == 0 then name !in rows'
                            else name in rows' && rows'[name].certCount == Occurrences(history, name))
  {
    if history != [] {
      CountGrowsBy(rows, history[..|history| - 1], name);
    }
  }

  lemma {:induction false} ReplaySplits(rows: map<string, NameRow>, a: seq<Event>, b: seq<Event>)
    ensures Replay(rows, a + b) == Replay(Replay(rows, a), b)
  {
    if b == [] {
      assert a + b == a;
    } else {
      assert (a + b)[..|a + b| - 1] == a + b[..|b| - 1];
      ReplaySplits(rows, a, b[..|b| - 1]);
    }
  }
}
