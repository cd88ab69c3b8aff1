/** The expiring cache (internal/cacher/cacher.go): its atomic meaning, the
    sequential code, the bounds any history satisfies, and the machine in which
    any number of goroutines run the code step by step under the lock. */
module TimedMap {
  import opened Basics

  type Key = string
  type Value = string
  type Time = int      // a reading of the monotonic clock
  type Duration = int

  datatype Entry = Entry(value: Value, timestamp: Time)

  type Contents = map<Key, Entry>

  function Lookup(m: Contents, k: Key): Option<Value> {
    if k in m then Some(m[k].value) else None
  }

  /** What one sweep leaves: everything not strictly older than the cutoff. */
  function Evict(m: Contents, cutoff: Time): Contents {
    map k | k in m && m[k].timestamp >= cutoff :: m[k]
  }

  /** One atomic operation: a Set with the time it stamped, a sweep with the
      time it read, or a Get with its answer and the time it looked. */
  datatype Event =
    | Stored(k: Key, v: Value, at: Time)
    | Swept(at: Time)
    | Got(k: Key, res: Option<Value>, at: Time)

  function Apply(m: Contents, e: Event, expiration: Duration): Contents {
    match e
    case Stored(k, v, at) => m[k := Entry(v, at)]
    case Swept(at) => Evict(m, at - expiration)
    case Got(_, _, _) => m
  }

  function Replay(log: seq<Event>, expiration: Duration): Contents {
    if log == [] then map[]
    else Apply(Replay(log[..|log| - 1], expiration), log[|log| - 1], expiration)
  }

  /** Every Get answered what the atomic map held. */
  predicate Consistent(log: seq<Event>, expiration: Duration) {
    forall i :: 0 <= i < |log| && log[i].Got? ==> log[i].res == Lookup(Replay(log[..i], expiration), log[i].k)
  }

  predicate Ordered(log: seq<Event>, start: Time) {
    && (forall i :: 0 <= i < |log| ==> start <= log[i].at)
    && (forall i, j :: 0 <= i < j < |log| ==> log[i].at <= log[j].at)
  }

  function Gets(log: seq<Event>): nat {
    if log == [] then 0 else Gets(log[..|log| - 1]) + if log[|log| - 1].Got? then 1 else 0
  }

  lemma Extend(log: seq<Event>, e: Event, expiration: Duration)
    requires Consistent(log, expiration)
    requires e.Got? ==> e.res == Lookup(Replay(log, expiration), e.k)
    ensures Consistent(log + [e], expiration)
    ensures Replay(log + [e], expiration) == Apply(Replay(log, expiration), e, expiration)
    ensures Gets(log + [e]) == Gets(log) + if e.Got? then 1 else 0
  {
    var l := log + [e];
    assert l[..|log|] == log;
    forall i | 0 <= i < |l| && l[i].Got? ensures l[i].res == Lookup(Replay(l[..i], expiration), l[i].k) {
      if i < |log| { assert l[..i] == log[..i] && l[i] == log[i]; }
    }
  }

  // ------------------------------------------------------- history and freshness

  /** The position of the latest Set of a key, or -1. */
  function LatestSet(log: seq<Event>, k: Key): (j: int)
    ensures -1 <= j < |log|
    ensures j >= 0 ==> log[j].Stored? && log[j].k == k
    ensures forall i :: j < i < |log| && log[i].Stored? ==> log[i].k != k
  {
    if log == [] then -1
    else if log[|log| - 1].Stored? && log[|log| - 1].k == k then |log| - 1
    else
      var j := LatestSet(log[..|log| - 1], k);
      assert forall i :: 0 <= i < |log| - 1 ==> log[..|log| - 1][i] == log[i];
      j
  }

  /** Some sweep after position j had a cutoff strictly later than that Set. */
  predicate SweptAway(log: seq<Event>, j: nat, expiration: Duration)
    requires j < |log|
  {
    exists m :: j < m < |log| && log[m].Swept? && log[m].at - expiration > log[j].at
  }

  /** The map at the end of any history: a key is present exactly when its
      latest Set has not been swept away, with that Set's value and time. */
  lemma {:induction false} HoldsLatest(log: seq<Event>, k: Key, expiration: Duration)
    ensures var m, j := Replay(log, expiration), LatestSet(log, k);
            && (k in m <==> j >= 0 && !SweptAway(log, j, expiration))
            && (k in m ==> m[k] == Entry(log[j].v, log[j].at))
  {
    if log == [] {
    } else {
      var n := |log| - 1;
      var front := log[..n];
      HoldsLatest(front, k, expiration);
      var j := LatestSet(log, k);
      if 0 <= j < n {
        assert j == LatestSet(front, k);
        if SweptAway(front, j, expiration) {
          var m :| j < m < n && front[m].Swept? && front[m].at - expiration > front[j].at;
          assert log[m] == front[m];
        }
        if SweptAway(log, j, expiration) && !(log[n].Swept? && log[n].at - expiration > log[j].at) {
          var m :| j < m < |log| && log[m].Swept? && log[m].at - expiration > log[j].at;
          assert front[m] == log[m];
        }
      }
    }
  }

  /** A Get hits exactly when the latest Set of its key has not been followed
      by a sweep with a strictly later cutoff, and then returns that value. */
  lemma HitIff(log: seq<Event>, i: nat, expiration: Duration)
    requires Consistent(log, expiration) && i < |log| && log[i].Got?
    ensures var j := LatestSet(log[..i], log[i].k);
            log[i].res == if j >= 0 && !SweptAway(log[..i], j, expiration) then Some(log[j].v) else None
  {
    HoldsLatest(log[..i], log[i].k, expiration);
  }

  /** A Get within the expiration of the latest Set returns that value. */
  lemma FreshHits(log: seq<Event>, i: nat, start: Time, expiration: Duration)
    requires Consistent(log, expiration) && Ordered(log, start) && i < |log| && log[i].Got?
    requires LatestSet(log[..i], log[i].k) >= 0
    requires log[i].at <= log[LatestSet(log[..i], log[i].k)].at + expiration
    ensures log[i].res == Some(log[LatestSet(log[..i], log[i].k)].v)
  {
    HitIff(log, i, expiration);
    var j := LatestSet(log[..i], log[i].k);
    assert forall m :: j < m < i ==> log[..i][m] == log[m] && log[m].at <= log[i].at;
  }

  // ------------------------------------------------------------------- staleness

  /** The time of the last sweep, or of the start when there was none. */
  function LastSweep(log: seq<Event>, start: Time): Time {
    if log == [] then start
    else if log[|log| - 1].Swept? then log[|log| - 1].at
    else LastSweep(log[..|log| - 1], start)
  }

  lemma {:induction false} SweepFloor(log: seq<Event>, start: Time, expiration: Duration, k: Key)
    requires Ordered(log, start)
    requires k in Replay(log, expiration)
    ensures Replay(log, expiration)[k].timestamp >= LastSweep(log, start) - if expiration > 0 then expiration else 0
    ensures start <= LastSweep(log, start)
  {
    var n := |log| - 1;
    var front := log[..n];
    if log[n].Swept? {
    } else {
      LastSweepBound(front, start);
      assert front == [] || front[|front| - 1] == log[n - 1];
      if log[n].Stored? && log[n].k == k {
      } else {
        SweepFloor(front, start, expiration, k);
      }
    }
  }

  lemma {:induction false} LastSweepBound(log: seq<Event>, start: Time)
    requires Ordered(log, start)
    ensures start <= LastSweep(log, start)
    ensures log != [] ==> LastSweep(log, start) <= log[|log| - 1].at
    ensures log == [] ==> LastSweep(log, start) == start
  {
    if log != [] && !log[|log| - 1].Swept? {
      LastSweepBound(log[..|log| - 1], start);
    }
  }

  /** No sweep comes after the last one. */
  lemma {:induction false} LastSweepIsLast(log: seq<Event>, m: nat, start: Time)
    requires Ordered(log, start) && m < |log| && log[m].Swept?
    ensures log[m].at <= LastSweep(log, start)
  {
    if log[|log| - 1].Swept? {
    } else {
      LastSweepIsLast(log[..|log| - 1], m, start);
    }
  }

  /** When the last sweep, or the start, is at most `period` before a hit, the
      entry it returns is no older than the expiration plus the period. A
      negative expiration counts as zero. */
  lemma StalenessBound(log: seq<Event>, i: nat, start: Time, expiration: Duration, period: Duration)
    requires Consistent(log, expiration) && Ordered(log, start)
    requires i < |log| && log[i].Got? && log[i].res.Some?
    requires log[i].at - LastSweep(log[..i], start) <= period
    ensures var j := LatestSet(log[..i], log[i].k);
            && j >= 0 && log[i].res == Some(log[j].v)
            && log[i].at - log[j].at <= period + if expiration > 0 then expiration else 0
  {
    HitIff(log, i, expiration);
    HoldsLatest(log[..i], log[i].k, expiration);
    assert Ordered(log[..i], start);
    SweepFloor(log[..i], start, expiration, log[i].k);
  }

  /** The bound is attained: an entry exactly that old can be returned. */
  lemma StalenessIsTight(k: Key, v: Value, expiration: Duration, period: Duration)
    requires expiration >= 0 && period >= 0
    ensures var end := expiration + period;
            var log := [Stored(k, v, 0), Swept(expiration), Got(k, Some(v), end)];
            && Consistent(log, expiration) && Ordered(log, 0)
            && end - LastSweep(log[..2], 0) == period
  {
  }
}

/** The code as one goroutine runs it while it holds the lock. */
module CacheObject {
  import opened Basics
  import opened TimedMap

  class Cache {
    var cache: Contents
    var hits: nat
    var misses: nat
    const expiration: Duration
    ghost var log: seq<Event>

    ghost predicate Valid()
      reads this
    {
      && cache == Replay(log, expiration)
      && Consistent(log, expiration)
      && hits + misses == Gets(log)
    }

    constructor (expiration: Duration)
      ensures Valid() && log == [] && cache == map[] && this.expiration == expiration
      ensures hits == misses == 0
    {
      this.expiration := expiration;
      cache, hits, misses, log := map[], 0, 0, [];
    }

    method Get(key: Key, ghost now: Time) returns (value: Value, ok: bool)
      requires Valid()
      modifies this`hits, this`misses, this`log
      ensures Valid()
      ensures ok == (key in cache) && value == if ok then cache[key].value else ""
      ensures hits == old(hits) + (if ok then 1 else 0) && misses == old(misses) + if ok then 0 else 1
      ensures log == old(log) + [Got(key, if ok then Some(value) else None, now)]
    {
      if key in cache {
        hits := hits + 1;
        value, ok := cache[key].value, true;
      } else {
        misses := misses + 1;
        value, ok := "", false;
      }
      Record(Got(key, if ok then Some(value) else None, now));
    }

    method Set(key: Key, value: Value, now: Time)
      requires Valid()
      modifies this`cache, this`log
      ensures Valid() && log == old(log) + [Stored(key, value, now)]
      ensures cache == old(cache)[key := Entry(value, now)]
    {
      cache := cache[key := Entry(value, now)];
      Record(Stored(key, value, now));
    }

    /** Ranges over the map in an arbitrary order, deleting as it goes. */
    method Sweep(now: Time)
      requires Valid()
      modifies this`cache, this`log
      ensures Valid() && log == old(log) + [Swept(now)]
      ensures cache == Evict(old(cache), now - expiration)
    {
      var cutoff := now - expiration;
      var todo := cache.Keys;
      ghost var before := cache;
      while todo != {}
        invariant todo <= cache.Keys
        invariant cache == map k | k in before && (k in todo || before[k].timestamp >= cutoff) :: before[k]
        modifies this`cache
        decreases todo
      {
        var k :| k in todo;
        todo := todo - {k};
        if cache[k].timestamp < cutoff {
          cache := cache - {k};
        }
      }
      assert cache == Evict(before, cutoff);
      Record(Swept(now));
    }

    ghost method Record(e: Event)
      requires Consistent(log, expiration)
      requires e.Got? ==> e.res == Lookup(Replay(log, expiration), e.k)
      modifies this`log
      ensures log == old(log) + [e] && Consistent(log, expiration)
      ensures Replay(log, expiration) == Apply(Replay(old(log), expiration), e, expiration)
      ensures Gets(log) == Gets(old(log)) + if e.Got? then 1 else 0
    {
      Extend(log, e, expiration);
      log := log + [e];
    }
  }
}
