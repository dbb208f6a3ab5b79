/** The process counters, and the ring buffers from which their rates are read. Instants are microseconds
    since the clock's origin. */
module Stats {
  class Counters {
    var certs: nat
    var dups: nat
    var watchlist: nat
    var streamSent: nat
  }

  datatype Sample = Sample(at: nat, value: nat)

  function LastOf<T>(s: seq<T>, n: nat): seq<T> {
    if |s| <= n then s else s[|s| - n..]
  }

  /** The instant lies no further back than the window; a window that reaches back before the clock's origin is cut to
      nothing. */
  predicate Within(at: nat, window: nat, now: nat) {
    if window <= now then at + window >= now else at >= now
  }

  function SumWithin(samples: seq<Sample>, window: nat, now: nat): nat {
    if samples == [] then 0
    else
      var last := samples[|samples| - 1];
      SumWithin(samples[..|samples| - 1], window, now) + if Within(last.at, window, now) then last.value else 0
  }

  class RingBuf {
    var samples: seq<Sample>
    const capacity: nat

    ghost predicate Valid()
      reads this
    {
      0 < capacity && |samples| <= capacity
    }

    constructor (capacity: nat)
      requires capacity > 0
      ensures Valid() && samples == [] && this.capacity == capacity
    {
      this.capacity := capacity;
      samples := [];
    }

    method Push(value: nat, now: nat)
      requires Valid()
      modifies this
      ensures Valid() && samples == LastOf(old(samples) + [Sample(now, value)], capacity)
    {
      if |samples| == capacity {
        samples := samples[1..];
      }
      samples := samples + [Sample(now, value)];
    }

    /** The sum in the window over its length in seconds. */
    method RatePerSec(window: nat, now: nat) returns (rate: real)
      requires window > 0
      ensures rate == SumWithin(samples, window, now) as real / (window as real / 1_000_000.0)
    {
      var cutoff := if now >= window then now - window else now;
      var inWindow := 0;
      for i := 0 to |samples|
        invariant inWindow == SumWithin(samples[..i], window, now)
      {
        assert samples[..i + 1][..i] == samples[..i];
        if samples[i].at >= cutoff {
          inWindow := inWindow + samples[i].value;
        }
      }
      assert samples[..|samples|] == samples;
      return inWindow as real / (window as real / 1_000_000.0);
    }
  }

  // ---------------------------------------------------------------------------------------------
  // The ticker
  // ---------------------------------------------------------------------------------------------

  /** What the counter read at a tick. */
  datatype Reading = Reading(at: nat, counter: nat)

  function CounterBefore(history: seq<Reading>, i: nat): nat
    requires i <= |history|
  {
    if i == 0 then 0 else history[i - 1].counter
  }

  function SaturatingSub(a: nat, b: nat): nat {
    if a >= b then a - b else 0
  }

  function Deltas(history: seq<Reading>): (d: seq<Sample>)
    ensures |d| == |history|
  {
    if history == [] then []
    else
      var n := |history| - 1;
      Deltas(history[..n]) + [Sample(history[n].at, SaturatingSub(history[n].counter, CounterBefore(history, n)))]
  }

  /** One of the three counters of `spawn_ticker` with its ring; `history` is every reading so far. */
  class Ticker {
    const ring: RingBuf
    var last: nat
    ghost var history: seq<Reading>

    ghost predicate Valid()
      reads this, ring
    {
      && ring.Valid()
      && last == CounterBefore(history, |history|)
      && ring.samples == LastOf(Deltas(history), ring.capacity)
    }

    constructor (capacity: nat)
      requires capacity > 0
      ensures Valid() && history == [] && ring.capacity == capacity
    {
      ring := new RingBuf(capacity);
      last, history := 0, [];
    }

    /** The ring keeps the last `capacity` deltas, in time order. */
    method Tick(counter: nat, now: nat)
      requires Valid()
      modifies this, ring
      ensures Valid() && history == old(history) + [Reading(now, counter)]
      ensures ring.samples == LastOf(old(ring.samples) + [Sample(now, if counter >= old(last) then counter - old(last)
                                                                     else 0)], ring.capacity)
    {
      ring.Push(if counter >= last then counter - last else 0, now);
      assert (history + [Reading(now, counter)])[..|history|] == history;
      last, history := counter, history + [Reading(now, counter)];
    }
  }

  ghost predicate Monotone(history: seq<Reading>) {
    forall i, j :: 0 <= i < j < |history| ==> history[i].at <= history[j].at && history[i].counter <= history[j].counter
  }

  lemma {:induction false} SumOfDeltas(history: seq<Reading>, lo: nat, j: nat, window: nat, now: nat)
    requires Monotone(history) && lo <= j <= |history|
    requires forall i :: lo <= i < j ==> !Within(history[i].at, window, now)
    requires j < |history| ==> Within(history[j].at, window, now)
    ensures SumWithin(Deltas(history)[lo..], window, now) ==
            if j == |history| then 0 else history[|history| - 1].counter - CounterBefore(history, j)
  {
    var n := |history|;
    if lo < n {
      var before := history[..n - 1];
      SumOfDeltas(before, lo, if j == n then n - 1 else j, window, now);
      LastDelta(history, lo, window, now);
      assert CounterBefore(history, n - 1) <= history[n - 1].counter;
    }
  }

  lemma LastDelta(history: seq<Reading>, lo: nat, window: nat, now: nat)
    requires lo < |history|
    ensures var n := |history| - 1;
      SumWithin(Deltas(history)[lo..], window, now) == SumWithin(Deltas(history[..n])[lo..], window, now)
        + if Within(history[n].at, window, now) then SaturatingSub(history[n].counter, CounterBefore(history, n)) else 0
  {
    var tail := Deltas(history)[lo..];
    assert tail[..|tail| - 1] == Deltas(history[..|history| - 1])[lo..];
  }

  /** Rate ring refinement. What a tick contributes counts if and only if the tick lies no further back than the window;
      with `j` the first such tick that the ring still holds, the windowed sum is the counter at the last tick minus
      the counter just before tick `j`. */
  lemma WindowTelescopes(history: seq<Reading>, capacity: nat, window: nat, now: nat, j: nat)
    requires capacity > 0 && Monotone(history) && window <= now
    requires var kept := if |history| <= capacity then 0 else |history| - capacity;
      && kept <= j <= |history|
      && (forall i :: kept <= i < j ==> history[i].at + window < now)
      && (j < |history| ==> history[j].at + window >= now)
    ensures SumWithin(LastOf(Deltas(history), capacity), window, now) ==
            if j == |history| then 0
            else history[|history| - 1].counter - if j == 0 then 0 else history[j - 1].counter
  {
    SumOfDeltas(history, if |history| <= capacity then 0 else |history| - capacity, j, window, now);
  }

  /** Before the clock has run for as long as the window, what happened before `now` counts for nothing. */
  lemma EarlyWindowIsEmpty(history: seq<Reading>, capacity: nat, window: nat, now: nat)
    requires capacity > 0 && Monotone(history) && now < window
    requires forall i :: 0 <= i < |history| ==> history[i].at < now
    ensures SumWithin(LastOf(Deltas(history), capacity), window, now) == 0
  {
    SumOfDeltas(history, if |history| <= capacity then 0 else |history| - capacity, |history|, window, now);
  }
}
