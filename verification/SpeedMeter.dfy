/**
 * The rolling throughput meter (src/measure/speed/index.js): a pruned map of per-second totals that
 * must answer as if every chunk ever seen were still on record.
 */
module SpeedMeter {

  const AVERAGE_DURATION: nat := 5

  datatype Chunk = Chunk(second: nat, size: nat)

  // ---------------------------------------------------------------- the full log

  /** Bytes of the chunks seen from second `from` on, and before second `to`. */
  function BytesBetween(log: seq<Chunk>, from: int, to: int): nat {
    if log == [] then 0
    else
      var last := log[|log| - 1];
      BytesBetween(log[..|log| - 1], from, to) + (if from <= last.second < to then last.size else 0)
  }

  /** What the meter should say at second `now`: the window's bytes over its duration. */
  function Speed(log: seq<Chunk>, now: nat): real {
    BytesBetween(log, now - 5, now + 1) as real / 5.0
  }

  /** That is what a sum over the log is: one chunk counts in full inside the span, and logs add up. */
  lemma {:induction false} BytesAdditive(log: seq<Chunk>, more: seq<Chunk>, chunk: Chunk, from: int, to: int)
    ensures BytesBetween([], from, to) == 0
    ensures BytesBetween([chunk], from, to) == if from <= chunk.second < to then chunk.size else 0
    ensures BytesBetween(log + more, from, to) == BytesBetween(log, from, to) + BytesBetween(more, from, to)
    decreases |more|
  {
    assert [chunk][..0] == [];
    if more == [] {
      assert log + more == log;
    } else {
      var init := more[..|more| - 1];
      BytesAdditive(log, init, chunk, from, to);
      assert (log + more)[..|log + more| - 1] == log + init;
    }
  }

  lemma {:induction false} BytesSplit(log: seq<Chunk>, from: int, mid: int, to: int)
    requires from <= mid <= to
    ensures BytesBetween(log, from, to) == BytesBetween(log, from, mid) + BytesBetween(log, mid, to)
    decreases |log|
  {
    if log != [] {
      BytesSplit(log[..|log| - 1], from, mid, to);
    }
  }

  // ---------------------------------------------------------------- the pruned map

  function Bucket(m: map<nat, nat>, t: int): nat {
    if t >= 0 && t in m then m[t] else 0
  }

  /** The buckets of n consecutive seconds. */
  function Buckets(m: map<nat, nat>, from: int, n: nat): nat {
    if n == 0 then 0 else Buckets(m, from, n - 1) + Bucket(m, from + n - 1)
  }

  lemma {:induction false} BucketAdded(m: map<nat, nat>, t: nat, v: nat, from: int, n: nat)
    requires t !in m
    ensures Buckets(m[t := v], from, n) == Buckets(m, from, n) + (if from <= t < from + n then v else 0)
    decreases n
  {
    if n > 0 {
      BucketAdded(m, t, v, from, n - 1);
    }
  }

  /** The map holds, for each second it covers, exactly the log's bytes of that second. */
  ghost predicate Summarises(m: map<nat, nat>, log: seq<Chunk>, since: int) {
    && (forall t :: t in m ==> m[t] == BytesBetween(log, t, t + 1))
    && (forall i :: 0 <= i < |log| && log[i].second >= since ==> log[i].second in m)
  }

  lemma {:induction false} SilentSecond(log: seq<Chunk>, t: int)
    requires forall i :: 0 <= i < |log| ==> log[i].second != t
    ensures BytesBetween(log, t, t + 1) == 0
    decreases |log|
  {
    if log != [] {
      SilentSecond(log[..|log| - 1], t);
    }
  }

  lemma {:induction false} EmptySpan(log: seq<Chunk>, at: int)
    ensures BytesBetween(log, at, at) == 0
    decreases |log|
  {
    if log != [] {
      EmptySpan(log[..|log| - 1], at);
    }
  }

  /** So over a covered span the buckets add up to the log. */
  lemma {:induction false} BucketsAreBytes(m: map<nat, nat>, log: seq<Chunk>, from: int, n: nat)
    requires Summarises(m, log, from)
    ensures Buckets(m, from, n) == BytesBetween(log, from, from + n)
    decreases n
  {
    if n == 0 {
      EmptySpan(log, from);
    } else {
      var t := from + n - 1;
      BucketsAreBytes(m, log, from, n - 1);
      BytesSplit(log, from, t, t + 1);
      if t < 0 || t !in m {
        SilentSecond(log, t);
      }
    }
  }

  lemma {:induction false} FewKeys(keys: set<nat>, from: int, n: nat)
    requires forall t :: t in keys ==> from <= t < from + n
    ensures |keys| <= n
    decreases n
  {
    if n == 0 {
      assert keys == {};
    } else {
      var t := from + n - 1;
      if t >= 0 {
        FewKeys(keys - {t}, from, n - 1);
      } else {
        assert keys == {};
      }
    }
  }

  function Pruned(m: map<nat, nat>, now: nat): map<nat, nat> {
    map t | t in m && t >= now - AVERAGE_DURATION :: m[t]
  }

  // ---------------------------------------------------------------- the code

  /** The reduce over the map's entries, in whatever order they come. */
  method Total(m: map<nat, nat>, ghost from: int, ghost n: nat) returns (sum: nat)
    requires forall t :: t in m ==> from <= t < from + n
    ensures sum == Buckets(m, from, n)
  {
    var todo := m.Keys;
    sum := 0;
    ghost var seen: map<nat, nat> := map[];
    NoBuckets(from, n);
    while todo != {}
      invariant todo <= m.Keys
      invariant seen == map t | t in m && t !in todo :: m[t]
      invariant sum == Buckets(seen, from, n)
      decreases |todo|
    {
      var cur :| cur in todo;
      todo := todo - {cur};
      BucketAdded(seen, cur, m[cur], from, n);
      seen := seen[cur := m[cur]];
      sum := sum + m[cur];
    }
    assert seen == m;
  }

  lemma {:induction false} NoBuckets(from: int, n: nat)
    ensures Buckets(map[], from, n) == 0
    decreases n
  {
    if n > 0 {
      NoBuckets(from, n - 1);
    }
  }

  lemma OverWindow(log: seq<Chunk>, now: nat, sum: nat)
    requires sum == BytesBetween(log, now - AVERAGE_DURATION, now + 1)
    ensures sum as real / AVERAGE_DURATION as real == Speed(log, now)
  {
    assert AVERAGE_DURATION as real == 5.0;
  }

  /** Counting a chunk under its second keeps the buckets true to the log. */
  lemma ChunkCounted(m: map<nat, nat>, log: seq<Chunk>, chunk: Chunk, since: int)
    requires Summarises(m, log, since) && since <= chunk.second
    ensures Summarises(m[chunk.second := Bucket(m, chunk.second) + chunk.size], log + [chunk], since)
  {
    var t, more := chunk.second, log + [chunk];
    assert more[..|more| - 1] == log;
    if t !in m {
      SilentSecond(log, t);
    }
  }

  class Meter {
    var measurements: map<nat, nat>

    /** Every chunk seen, and the last reading of the clock, which never runs backwards. */
    ghost var log: seq<Chunk>
    ghost var clock: nat

    ghost predicate Valid()
      reads this
    {
      && Summarises(measurements, log, clock - AVERAGE_DURATION)
      && (forall t :: t in measurements ==> clock - AVERAGE_DURATION <= t <= clock)
      && (forall i :: 0 <= i < |log| ==> log[i].second <= clock)
    }

    constructor ()
      ensures Valid() && log == []
    {
      measurements, log, clock := map[], [], 0;
    }

    method Prune(now: nat)
      requires Valid() && now >= clock
      modifies this`measurements, this`clock
      ensures Valid() && clock == now && measurements == Pruned(old(measurements), now)
    {
      var todo := measurements.Keys;
      while todo != {}
        invariant todo <= old(measurements).Keys
        invariant measurements == map t | t in old(measurements) && (t in todo || t >= now - AVERAGE_DURATION)
                                          :: old(measurements)[t]
        decreases |todo|
      {
        var time :| time in todo;
        todo := todo - {time};
        if time < now - AVERAGE_DURATION {
          measurements := measurements - {time};
        }
      }
      clock := now;
    }

    /** getSpeed() */
    method GetSpeed(now: nat) returns (speed: real)
      requires Valid() && now >= clock
      modifies this`measurements, this`clock
      ensures Valid() && clock == now && |measurements| <= 6
      ensures speed == Speed(log, now)
    {
      Prune(now);
      var sum := Total(measurements, now - AVERAGE_DURATION, AVERAGE_DURATION + 1);
      BucketsAreBytes(measurements, log, now - AVERAGE_DURATION, AVERAGE_DURATION + 1);
      FewKeys(measurements.Keys, now - AVERAGE_DURATION, AVERAGE_DURATION + 1);
      speed := sum as real / AVERAGE_DURATION as real;
      OverWindow(log, now, sum);
    }

    /** A chunk passes: it is counted under the second `now`, and the speed at `later` is emitted. */
    method Transform(size: nat, now: nat, later: nat) returns (emitted: real)
      requires Valid() && clock <= now <= later
      modifies this
      ensures Valid() && clock == later && |measurements| <= 6
      ensures log == old(log) + [Chunk(now, size)]
      ensures emitted == Speed(log, later)
    {
      Prune(now);
      ChunkCounted(measurements, log, Chunk(now, size), now - AVERAGE_DURATION);
      if now !in measurements {
        measurements := measurements[now := 0];
      }
      measurements := measurements[now := measurements[now] + size];
      log := log + [Chunk(now, size)];
      emitted := GetSpeed(later);
    }
  }
}
