/** Tail and backfill together: what a fresh install has sent once both have run. */
module Coverage {
  import opened Wrappers
  import opened Entry
  import opened CtLog
  import Backfill
  import Tail

  /** The index was sent by the backfill or by the tail. */
  ghost predicate Covered(log: Timeline, i: nat, w: Backfill.World, s: Tail.State)
    requires i < |log|
  {
    Delivered(s.info, log, i, w.sent) || Delivered(s.info, log, i, s.sent)
  }

  /** A tail from scratch and a completed backfill of the same log, whose final state is `log`. */
  ghost predicate Pair(ts: Tail.State, batchSize: nat, run: seq<Tail.Event>, w: Backfill.World, t: Backfill.Target,
                       e: Backfill.Event, log: Timeline) {
    && Tail.Start(ts, 0) && Tail.Legal(ts, batchSize, run) && Tail.NothingLost(Tail.Play(ts, batchSize, run))
    && Backfill.Inv(w, t) && Backfill.Legal(w, t, e) && e.Walk? && e.done && t.info == ts.info
    && Tail.Play(ts, batchSize, run).log <= log && w.log <= log && Tail.Play(ts, batchSize, run).info == ts.info
  }

  /** If the backfill got as far as the position at which the tail began, the two leave no hole. */
  lemma JointCoverage(ts: Tail.State, batchSize: nat, run: seq<Tail.Event>, w: Backfill.World, t: Backfill.Target,
                      e: Backfill.Event, log: Timeline)
    requires Pair(ts, batchSize, run, w, t, e, log)
    requires Tail.Play(ts, batchSize, run).first <= e.progress
    ensures var s', w' := Tail.Play(ts, batchSize, run), Backfill.Apply(w, t, e);
      && s'.cursor <= |log|
      && forall i :: e.start <= i < s'.cursor && i !in w'.skipped && i !in w'.unheard ==> Covered(log, i, w', s')
  {
    var s', w' := Tail.Play(ts, batchSize, run), Backfill.Apply(w, t, e);
    Tail.TailSafe(ts, batchSize, run, 0);
    Backfill.WalkCovers(w, t, e);
    Backfill.StartIsFirst(w.log, e.treeSize, t.since, e.start);
    if e.id in w.jobs {
      Backfill.ResumedStart(w, t, e);
    }
    forall i | e.start <= i < s'.cursor && i !in w'.skipped && i !in w'.unheard
      ensures Covered(log, i, w', s')
    {
      if i < e.progress {
        assert Delivered(t.info, w.log, i, w'.sent) && log[i] == w.log[i];
      } else {
        assert !Tail.Lost(s', i);
      }
    }
  }

  /** What the two leave out otherwise: the indices from where the backfill stopped to where the tail began. */
  lemma HoleIsLeft(ts: Tail.State, batchSize: nat, run: seq<Tail.Event>, w: Backfill.World, t: Backfill.Target,
                   e: Backfill.Event, log: Timeline, i: nat)
    requires Pair(ts, batchSize, run, w, t, e, log) && ts.sent == [] && Backfill.Fresh(w) && Backfill.AllDistinct(log)
    requires e.progress <= i < Tail.Play(ts, batchSize, run).first
    ensures i < Tail.Play(ts, batchSize, run).cursor && i < |log|
    ensures !Covered(log, i, Backfill.Apply(w, t, e), Tail.Play(ts, batchSize, run))
  {
    var s', w' := Tail.Play(ts, batchSize, run), Backfill.Apply(w, t, e);
    Tail.TailSafe(ts, batchSize, run, 0);
    Tail.SentSinceFirst(ts, batchSize, run);
    var job := WriterJob(ts.info, log[i].value);
    forall j | j in w'.sent
      ensures j != job
    {
      Backfill.PayloadInRange(t.info, w.log, e.from, e.heard, e.gaps, j);
      var k :| e.from <= k < e.heard <= |w.log| && w.log[k].Some? && j == WriterJob(t.info, w.log[k].value);
      assert log[k] == w.log[k] && log[k] != log[i];
    }
    forall n | 0 <= n < |s'.sent|
      ensures s'.sent[n] != job
    {
      assert JobFrom(s'.info, s'.log, s'.first, s'.sent[n]);
      var k :| s'.first <= k < |s'.log| && s'.log[k].Some? && s'.sent[n] == WriterJob(s'.info, s'.log[k].value);
      assert log[k] == s'.log[k] && log[i] != log[k];
    }
  }

  /** Together, exactly: on a fresh install the tail and a completed backfill leave no hole if and only if the
      backfill reached the position at which the tail began. */
  lemma JointExact(ts: Tail.State, batchSize: nat, run: seq<Tail.Event>, w: Backfill.World, t: Backfill.Target,
                   e: Backfill.Event, log: Timeline)
    requires Pair(ts, batchSize, run, w, t, e, log) && ts.sent == [] && Backfill.Fresh(w) && Backfill.AllDistinct(log)
    requires e.gaps == {} && e.heard == e.reached
    ensures var s', w' := Tail.Play(ts, batchSize, run), Backfill.Apply(w, t, e);
      && s'.cursor <= |log|
      && ((forall i :: e.start <= i < s'.cursor ==> Covered(log, i, w', s')) <==> s'.first <= e.progress)
  {
    var s', w' := Tail.Play(ts, batchSize, run), Backfill.Apply(w, t, e);
    Tail.TailSafe(ts, batchSize, run, 0);
    if s'.first <= e.progress {
      JointCoverage(ts, batchSize, run, w, t, e, log);
    } else {
      HoleIsLeft(ts, batchSize, run, w, t, e, log, e.progress);
    }
  }

  lemma FreshWalk(ts: Tail.State, batchSize: nat, run: seq<Tail.Event>, w: Backfill.World, t: Backfill.Target,
                  e: Backfill.Event, log: Timeline)
    requires Pair(ts, batchSize, run, w, t, e, log) && Backfill.Fresh(w)
    ensures Tail.Legal(ts, batchSize, run) && Backfill.Legal(w, t, e) && e.from == e.start < e.treeSize - 1
  {
  }

  /** When both saw the same tree head, and the log caps its replies at `cap`, the hole is the entry before the head,
      and there is none exactly when the smaller of batch size and cap does not divide the distance walked. */
  lemma SameHeadExact(ts: Tail.State, batchSize: nat, run: seq<Tail.Event>, w: Backfill.World, t: Backfill.Target,
                      e: Backfill.Event, log: Timeline, walkBatch: pos, cap: pos)
    requires Pair(ts, batchSize, run, w, t, e, log) && ts.sent == [] && Backfill.Fresh(w) && Backfill.AllDistinct(log)
    requires e.gaps == {} && e.heard == e.reached && Tail.Play(ts, batchSize, run).first == e.treeSize
    requires e.progress == Backfill.WalkEnd(e.from, e.treeSize - 1, Min(walkBatch, cap))
    ensures var s', w' := Tail.Play(ts, batchSize, run), Backfill.Apply(w, t, e);
      && s'.cursor <= |log|
      && ((forall i :: e.start <= i < s'.cursor ==> Covered(log, i, w', s'))
          <==> (e.treeSize - 1 - e.start) % Min(walkBatch, cap) != 0)
  {
    FreshWalk(ts, batchSize, run, w, t, e, log);
    hide Pair, Backfill.AllDistinct, Covered, Backfill.Fresh, Backfill.Legal, Tail.Play;
    JointExact(ts, batchSize, run, w, t, e, log);
    Backfill.WalkEndExact(e.from, e.treeSize - 1, Min(walkBatch, cap));
  }

  /** A fresh install that does leave one out: the tail skips to the head of a tree of three entries, the backfill
      walks towards the same head two at a time, and the last entry is sent by neither. */
  lemma EntryInNeither(info: LogInfo, a: DecodedEntry, b: DecodedEntry, c: DecodedEntry)
    returns (ts: Tail.State, run: seq<Tail.Event>, w: Backfill.World, e: Backfill.Event, log: Timeline)
    requires a.timestampMs <= b.timestampMs <= c.timestampMs && a != b && b != c && a != c
    ensures log == [Some(a), Some(b), Some(c)]
    ensures Pair(ts, 2, run, w, Backfill.Target(info, 0), e, log) && ts.sent == [] && Backfill.Fresh(w)
    ensures Tail.Play(ts, 2, run).first == e.treeSize == 3 && Tail.Play(ts, 2, run).cursor == 3
    ensures !Covered(log, 2, Backfill.Apply(w, Backfill.Target(info, 0), e), Tail.Play(ts, 2, run))
  {
    log := [Some(a), Some(b), Some(c)];
    ts, run := SkipToThree(info, log);
    w, e := WalkToTwo(info, log);
    HoleIsLeft(ts, 2, run, w, Backfill.Target(info, 0), e, log, 2);
  }

  lemma SkipToThree(info: LogInfo, log: Timeline) returns (s: Tail.State, run: seq<Tail.Event>)
    requires |log| == 3
    ensures Tail.Start(s, 0) && s.info == info && s.sent == [] && Tail.Legal(s, 2, run)
    ensures var s' := Tail.Play(s, 2, run);
      s'.info == info && s'.log == log && s'.first == 3 && s'.cursor == 3 && Tail.NothingLost(s')
  {
    s := Tail.State(info, log, 0, [], map[], 0, {}, 0);
    var now := s;
    run := [];
    run, now := Tail.Then(s, 2, run, now, Tail.Spawn(1));
    run, now := Tail.Then(s, 2, run, now, Tail.ReadCursor(1));
    run, now := Tail.Then(s, 2, run, now, Tail.GetSth(1, 3));
    run, now := Tail.Then(s, 2, run, now, Tail.SkipToHead(1));
  }

  lemma WalkToTwo(info: LogInfo, log: Timeline) returns (w: Backfill.World, e: Backfill.Event)
    requires |log| == 3 && Backfill.Chronological(log) && log[0].Some?
    ensures Backfill.Fresh(w) && Backfill.Inv(w, Backfill.Target(info, 0)) && w.log == log
    ensures Backfill.Legal(w, Backfill.Target(info, 0), e) && e == Backfill.Walk(0, 3, 0, 0, 2, 2, 2, {}, true)
  {
    w := Backfill.World(log, map[], 0, [], {}, {}, 0);
    e := Backfill.Walk(0, 3, 0, 0, 2, 2, 2, {}, true);
  }
}
