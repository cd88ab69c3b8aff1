/** Any number of goroutines over one cache, one step at a time: taking and
    releasing the RWMutex, reading the clock, storing, visiting one key of a
    sweep, looking up, counting (internal/cacher/cacher.go, lines 41-84). */
module CacheMachine {
  import opened Basics
  import opened TimedMap

  type Tid = nat

  datatype Request = GetReq(k: Key) | SetReq(k: Key, v: Value) | SweepReq

  /** Where a goroutine stands in its operation. `since` is the length of the
      log when the operation was called, `acquired` the clock when it took the
      lock, `idx` the position of its event. */
  datatype PC =
    | Idle
    | Waiting(q: Request, since: nat)                           // before Lock or RLock
    | Holding(q: Request, since: nat, acquired: Time)           // lock taken, nothing done yet
    // Set has read the clock
    | Stamped(k: Key, v: Value, since: nat, acquired: Time, at: Time)
    // Set has stored the entry
    | Written(k: Key, v: Value, since: nat, acquired: Time, idx: nat)
    // the sweep's loop
    | Ranging(since: nat, acquired: Time, idx: nat, cutoff: Time, todo: set<Key>)
    // Get has looked up
    | Found(k: Key, res: Option<Value>, since: nat, acquired: Time, idx: nat)
    // Get has incremented a counter
    | Counted(k: Key, res: Option<Value>, since: nat, acquired: Time, idx: nat)

  predicate HasEvent(pc: PC) { pc.Written? || pc.Ranging? || pc.Found? || pc.Counted? }

  predicate ReadLocked(pc: PC) { (pc.Holding? && pc.q.GetReq?) || pc.Found? || pc.Counted? }

  predicate WriteLocked(pc: PC) { (pc.Holding? && !pc.q.GetReq?) || pc.Stamped? || pc.Written? || pc.Ranging? }

  predicate Locked(pc: PC) { ReadLocked(pc) || WriteLocked(pc) }

  /** A finished operation: what was asked, what a Get was told, the length of
      the log at its call and at its return, and the clock when it took and when
      it released the lock. */
  datatype Completed = Completed(
    q: Request,
    res: Option<Value>,
    since: nat,
    until: nat,
    acquiredAt: Time,
    releasedAt: Time)

  /** `log` records each operation at the step that takes effect; `done` files
      finished operations under the position of their event. */
  datatype State = State(
    cache: Contents,
    readers: set<Tid>,
    writer: Option<Tid>,
    now: Time,
    hits: nat,
    misses: nat,
    returned: nat,
    pcs: map<Tid, PC>,
    log: seq<Event>,
    done: map<nat, Completed>)

  function Pc(s: State, t: Tid): PC { if t in s.pcs then s.pcs[t] else Idle }

  function Init(start: Time): State {
    State(map[], {}, None, start, 0, 0, 0, map[], [], map[])
  }

  datatype Action =
    | Advance(d: nat)           // the clock moves on
    | Call(t: Tid, q: Request)
    | Acquire(t: Tid)
    | Stamp(t: Tid)
    | Store(t: Tid)
    | Visit(t: Tid, k: Key)
    | Look(t: Tid)
    | Count(t: Tid)
    | Release(t: Tid)

  predicate Enabled(s: State, a: Action) {
    match a
    case Advance(_) => true
    case Call(t, _) => Pc(s, t).Idle?
    case Acquire(t) => Pc(s, t).Waiting? && s.writer.None? && (Pc(s, t).q.GetReq? || s.readers == {})
    case Stamp(t) => Pc(s, t).Holding? && !Pc(s, t).q.GetReq?
    case Store(t) => Pc(s, t).Stamped?
    case Visit(t, k) => Pc(s, t).Ranging? && k in Pc(s, t).todo
    case Look(t) => Pc(s, t).Holding? && Pc(s, t).q.GetReq?
    case Count(t) => Pc(s, t).Found?
    case Release(t) => Pc(s, t).Counted? || Pc(s, t).Written? || (Pc(s, t).Ranging? && Pc(s, t).todo == {})
  }

  function Next(s: State, a: Action, expiration: Duration): State
    requires Enabled(s, a)
  {
    match a
    case Advance(d) => s.(now := s.now + d)
    case Call(t, q) => s.(pcs := s.pcs[t := Waiting(q, |s.log|)])
    case Acquire(t) =>
      var s1 := s.(pcs := s.pcs[t := Holding(Pc(s, t).q, Pc(s, t).since, s.now)]);
      if Pc(s, t).q.GetReq? then s1.(readers := s.readers + {t}) else s1.(writer := Some(t))
    case Stamp(t) =>
      var pc := Pc(s, t);
      if pc.q.SetReq? then s.(pcs := s.pcs[t := Stamped(pc.q.k, pc.q.v, pc.since, pc.acquired, s.now)])
      else s.(pcs := s.pcs[t := Ranging(pc.since, pc.acquired, |s.log|, s.now - expiration, s.cache.Keys)],
              log := s.log + [Swept(s.now)])
    case Store(t) =>
      var pc := Pc(s, t);
      s.(cache := s.cache[pc.k := Entry(pc.v, pc.at)],
         pcs := s.pcs[t := Written(pc.k, pc.v, pc.since, pc.acquired, |s.log|)],
         log := s.log + [Stored(pc.k, pc.v, pc.at)])
    case Visit(t, k) =>
      var pc := Pc(s, t);
      s.(cache := if k in s.cache && s.cache[k].timestamp < pc.cutoff then s.cache - {k} else s.cache,
         pcs := s.pcs[t := pc.(todo := pc.todo - {k})])
    case Look(t) =>
      var pc := Pc(s, t);
      var res := Lookup(s.cache, pc.q.k);
      s.(pcs := s.pcs[t := Found(pc.q.k, res, pc.since, pc.acquired, |s.log|)],
         log := s.log + [Got(pc.q.k, res, s.now)])
    case Count(t) =>
      var pc := Pc(s, t);
      var s1 := s.(pcs := s.pcs[t := Counted(pc.k, pc.res, pc.since, pc.acquired, pc.idx)]);
      if pc.res.Some? then s1.(hits := s.hits + 1) else s1.(misses := s.misses + 1)
    case Release(t) =>
      var pc := Pc(s, t);
      var s1 := s.(pcs := s.pcs - {t}, done := s.done[pc.idx := Finish(pc, |s.log|, s.now)]);
      if pc.Counted? then s1.(readers := s.readers - {t}, returned := s.returned + 1) else s1.(writer := None)
  }

  function Finish(pc: PC, until: nat, now: Time): Completed
    requires HasEvent(pc)
  {
    var (q, res) :=
      match pc
      case Written(k, v, _, _, _) => (SetReq(k, v), None)
      case Ranging(_, _, _, _, _) => (SweepReq, None)
      case _ => (GetReq(pc.k), pc.res);
    Completed(q, res, pc.since, until, pc.acquired, now)
  }

  /** The event is the atomic form of the finished operation. */
  predicate Matches(c: Completed, e: Event) {
    match c.q
    case GetReq(k) => e.Got? && e.k == k && e.res == c.res
    case SetReq(k, v) => e.Stored? && e.k == k && e.v == v
    case SweepReq => e.Swept?
  }

  // ------------------------------------------------------------------ invariants

  /** The lock is held by exactly the goroutines that think so, and a writer
      holds it alone. */
  ghost predicate LocksOk(s: State) {
    && (forall t: Tid :: t in s.readers <==> ReadLocked(Pc(s, t)))
    && (forall t: Tid :: s.writer == Some(t) <==> WriteLocked(Pc(s, t)))
    && (s.writer.Some? ==> s.readers == {})
  }

  /** The atomic map that the state stands for: during a sweep, the map that
      the sweep will leave. */
  function Abstract(s: State): Contents {
    if s.writer.Some? && Pc(s, s.writer.value).Ranging? then Evict(s.cache, Pc(s, s.writer.value).cutoff) else s.cache
  }

  function LastTime(log: seq<Event>, start: Time): Time {
    if log == [] then start else log[|log| - 1].at
  }

  ghost predicate ThreadOk(s: State, pc: PC, start: Time) {
    && (pc.Waiting? || pc.Holding? || pc.Stamped? ==> pc.since <= |s.log|)
    && (pc.Stamped? ==> LastTime(s.log, start) <= pc.at <= s.now)
    && (pc.Ranging? ==>
          && pc.todo <= s.cache.Keys
          && forall k :: k in s.cache && k !in pc.todo ==> s.cache[k].timestamp >= pc.cutoff)
    && (HasEvent(pc) ==> pc.since <= pc.idx < |s.log| && pc.idx !in s.done && Matches(Finish(pc, 0, 0), s.log[pc.idx]))
  }

  ghost predicate DataOk(s: State, start: Time, expiration: Duration) {
    && Abstract(s) == Replay(s.log, expiration)
    && Consistent(s.log, expiration)
    && Ordered(s.log, start)
    && start <= LastTime(s.log, start) <= s.now
  }

  ghost predicate ThreadsOk(s: State, start: Time) {
    && (forall t :: t in s.pcs ==> ThreadOk(s, s.pcs[t], start))
    && (forall t, u :: t in s.pcs && u in s.pcs && t != u && HasEvent(s.pcs[t]) && HasEvent(s.pcs[u]) ==>
          s.pcs[t].idx != s.pcs[u].idx)
  }

  ghost predicate DoneOk(s: State) {
    forall i :: i in s.done ==>
      var c := s.done[i]; c.since <= i < c.until <= |s.log| && Matches(c, s.log[i])
  }

  /** The i-th event belongs to a finished operation, or to one in progress. */
  ghost predicate Owned(s: State, i: nat) {
    i in s.done || exists t :: t in s.pcs && HasEvent(s.pcs[t]) && s.pcs[t].idx == i
  }

  ghost predicate LogOwned(s: State) { forall i :: 0 <= i < |s.log| ==> Owned(s, i) }

  /** The finished Gets that were told a value, or those that were not. */
  function FinishedGets(done: map<nat, Completed>, hit: bool): set<nat> {
    set i | i in done && done[i].q.GetReq? && done[i].res.Some? == hit
  }

  /** The Gets with that answer which have counted and still hold the lock. */
  function CountedThreads(s: State, hit: bool): set<Tid> {
    set t | t in s.pcs && CountedAs(s.pcs[t], hit)
  }

  predicate CountedAs(pc: PC, hit: bool) { pc.Counted? && pc.res.Some? == hit }

  ghost predicate CountersOk(s: State) {
    && s.hits == |FinishedGets(s.done, true)| + |CountedThreads(s, true)|
    && s.misses == |FinishedGets(s.done, false)| + |CountedThreads(s, false)|
    && s.returned == |FinishedGets(s.done, true)| + |FinishedGets(s.done, false)|
  }

  /** The clock readings of an operation lie in order: lock taken, event, and
      (for a finished one) lock released. */
  predicate TimelyThread(s: State, pc: PC) {
    && (Locked(pc) ==> pc.acquired <= s.now)
    && (pc.Stamped? ==> pc.acquired <= pc.at <= s.now)
    && (HasEvent(pc) ==> pc.idx < |s.log| && pc.acquired <= s.log[pc.idx].at <= s.now)
  }

  ghost predicate TimesOk(s: State) {
    && (forall t :: t in s.pcs ==> TimelyThread(s, s.pcs[t]))
    && (forall i :: i in s.done ==>
          i < |s.log| && s.done[i].acquiredAt <= s.log[i].at <= s.done[i].releasedAt)
  }

  /** While a writer holds the lock, its event is the last one. */
  ghost predicate WriterLast(s: State) {
    forall t :: t in s.pcs && WriteLocked(s.pcs[t]) && HasEvent(s.pcs[t]) ==> s.pcs[t].idx == |s.log| - 1
  }

  ghost predicate Inv(s: State, start: Time, expiration: Duration) {
    && LocksOk(s) && DataOk(s, start, expiration) && ThreadsOk(s, start)
    && DoneOk(s) && LogOwned(s) && CountersOk(s) && TimesOk(s) && WriterLast(s)
  }

  lemma InitInv(start: Time, expiration: Duration)
    ensures Inv(Init(start), start, expiration)
  {
  }

  /** Writers exclude readers and each other, whatever is scheduled. */
  lemma LocksStep(s: State, a: Action, expiration: Duration)
    requires LocksOk(s) && Enabled(s, a)
    ensures LocksOk(Next(s, a, expiration))
  {
    var s' := Next(s, a, expiration);
    if a.Advance? {
      assert forall t: Tid :: Pc(s', t) == Pc(s, t);
    } else {
      var before, after := Pc(s, a.t), Pc(s', a.t);
      if a.Acquire? || a.Release? {
      } else {
        assert ReadLocked(after) == ReadLocked(before) && WriteLocked(after) == WriteLocked(before);
        assert s'.readers == s.readers && s'.writer == s.writer;
      }
      forall t: Tid
        ensures t in s'.readers <==> ReadLocked(Pc(s', t))
        ensures s'.writer == Some(t) <==> WriteLocked(Pc(s', t))
      {
        if t != a.t { assert Pc(s', t) == Pc(s, t); }
        assert s.writer == Some(t) <==> WriteLocked(Pc(s, t));
        assert s.writer == Some(a.t) <==> WriteLocked(Pc(s, a.t));
      }
    }
  }

  /** The step from s to s' is the atomic operation e on the abstract map. */
  predicate AtomicStep(s: State, s': State, e: Event, start: Time, expiration: Duration) {
    && s'.log == s.log + [e] && Abstract(s') == TimedMap.Apply(Abstract(s), e, expiration)
    && LastTime(s.log, start) <= e.at <= s'.now
    && (e.Got? ==> e.res == Lookup(Abstract(s), e.k))
  }

  predicate Stutters(s: State, s': State) { s'.log == s.log && Abstract(s') == Abstract(s) }

  lemma StampRefines(s: State, t: Tid, start: Time, expiration: Duration)
    requires LocksOk(s) && DataOk(s, start, expiration) && Enabled(s, Stamp(t))
    ensures var s' := Next(s, Stamp(t), expiration);
            if Pc(s, t).q.SetReq? then Stutters(s, s') else AtomicStep(s, s', Swept(s.now), start, expiration)
  {
  }

  lemma StoreRefines(s: State, t: Tid, start: Time, expiration: Duration)
    requires LocksOk(s) && ThreadsOk(s, start) && Enabled(s, Store(t))
    ensures var pc := Pc(s, t);
            AtomicStep(s, Next(s, Store(t), expiration), Event.Stored(pc.k, pc.v, pc.at), start, expiration)
  {
  }

  lemma LookRefines(s: State, t: Tid, start: Time, expiration: Duration)
    requires LocksOk(s) && DataOk(s, start, expiration) && Enabled(s, Look(t))
    ensures var k := Pc(s, t).q.k;
            AtomicStep(s, Next(s, Look(t), expiration), Got(k, Lookup(s.cache, k), s.now), start, expiration)
  {
  }

  lemma VisitRefines(s: State, t: Tid, k: Key, expiration: Duration)
    requires LocksOk(s) && Enabled(s, Visit(t, k))
    ensures Stutters(s, Next(s, Visit(t, k), expiration))
  {
  }

  lemma ReleaseRefines(s: State, t: Tid, start: Time, expiration: Duration)
    requires LocksOk(s) && ThreadsOk(s, start) && Enabled(s, Release(t))
    ensures Stutters(s, Next(s, Release(t), expiration))
  {
  }

  lemma OthersStutter(s: State, a: Action, expiration: Duration)
    requires LocksOk(s) && Enabled(s, a) && (a.Advance? || a.Call? || a.Acquire? || a.Count?)
    ensures Stutters(s, Next(s, a, expiration))
  {
  }

  /** Every step is a stutter or one atomic operation on the abstract map. */
  lemma RefinesAtomicMap(s: State, a: Action, start: Time, expiration: Duration)
    requires Inv(s, start, expiration) && Enabled(s, a)
    ensures var s' := Next(s, a, expiration);
            Stutters(s, s') || exists e :: AtomicStep(s, s', e, start, expiration)
  {
    match a
    case Stamp(t) => StampRefines(s, t, start, expiration);
    case Store(t) => StoreRefines(s, t, start, expiration);
    case Look(t) => LookRefines(s, t, start, expiration);
    case Visit(t, k) => VisitRefines(s, t, k, expiration);
    case Release(t) => ReleaseRefines(s, t, start, expiration);
    case _ => OthersStutter(s, a, expiration);
  }

  lemma LogStep(log: seq<Event>, e: Event, start: Time, expiration: Duration)
    requires Consistent(log, expiration) && Ordered(log, start) && start <= LastTime(log, start) <= e.at
    requires e.Got? ==> e.res == Lookup(Replay(log, expiration), e.k)
    ensures Consistent(log + [e], expiration) && Ordered(log + [e], start)
    ensures Replay(log + [e], expiration) == TimedMap.Apply(Replay(log, expiration), e, expiration)
    ensures LastTime(log + [e], start) == e.at
  {
    Extend(log, e, expiration);
    assert forall i :: 0 <= i < |log| ==> log[i].at <= LastTime(log, start);
  }

  lemma DataStep(s: State, a: Action, start: Time, expiration: Duration)
    requires Inv(s, start, expiration) && Enabled(s, a)
    ensures DataOk(Next(s, a, expiration), start, expiration)
  {
    var s' := Next(s, a, expiration);
    assert s.now <= s'.now;
    RefinesAtomicMap(s, a, start, expiration);
    if !Stutters(s, s') {
      var e :| AtomicStep(s, s', e, start, expiration);
      LogStep(s.log, e, start, expiration);
    }
  }

  /** The step that takes effect: its event is new, hence unfiled. */
  lemma EffectThreadStep(s: State, a: Action, start: Time, expiration: Duration)
    requires ThreadsOk(s, start) && DoneOk(s) && DataOk(s, start, expiration)
    requires Enabled(s, a) && (a.Stamp? || a.Store? || a.Look?)
    ensures ThreadOk(Next(s, a, expiration), Pc(Next(s, a, expiration), a.t), start)
    ensures Next(s, a, expiration).done == s.done
  {
  }

  lemma VisitThreadStep(s: State, a: Action, start: Time, expiration: Duration)
    requires ThreadsOk(s, start) && Enabled(s, a) && a.Visit?
    ensures ThreadOk(Next(s, a, expiration), Pc(Next(s, a, expiration), a.t), start)
  {
  }

  lemma QuietThreadStep(s: State, a: Action, start: Time, expiration: Duration)
    requires ThreadsOk(s, start) && Enabled(s, a) && (a.Call? || a.Acquire? || a.Count? || a.Release?)
    ensures ThreadOk(Next(s, a, expiration), Pc(Next(s, a, expiration), a.t), start)
  {
  }

  lemma ActingThreadStep(s: State, a: Action, start: Time, expiration: Duration)
    requires Inv(s, start, expiration) && Enabled(s, a) && !a.Advance?
    ensures ThreadOk(Next(s, a, expiration), Pc(Next(s, a, expiration), a.t), start)
  {
    if a.Visit? { VisitThreadStep(s, a, start, expiration); }
    else if a.Stamp? || a.Store? || a.Look? { EffectThreadStep(s, a, start, expiration); }
    else { QuietThreadStep(s, a, start, expiration); }
  }

  /** While a writer is past its stamp, no other goroutine can touch the data. */
  lemma WriterIsAlone(s: State, a: Action, u: Tid, expiration: Duration)
    requires LocksOk(s) && Enabled(s, a)
    requires WriteLocked(Pc(s, u)) && !Pc(s, u).Holding?
    requires a.Advance? || u != a.t
    ensures var s' := Next(s, a, expiration);
            s'.log == s.log && s'.cache == s.cache && s'.done == s.done
  {
    assert s.writer == Some(u) && s.readers == {};
    if !a.Advance? {
      assert !WriteLocked(Pc(s, a.t)) && !ReadLocked(Pc(s, a.t));
    }
  }

  lemma OtherThreadStep(s: State, a: Action, u: Tid, start: Time, expiration: Duration)
    requires LocksOk(s) && ThreadsOk(s, start) && DoneOk(s) && Enabled(s, a)
    requires u in s.pcs && (a.Advance? || u != a.t)
    ensures var s' := Next(s, a, expiration);
            u in s'.pcs && s'.pcs[u] == s.pcs[u] && ThreadOk(s', s.pcs[u], start)
  {
    var s', pc := Next(s, a, expiration), s.pcs[u];
    assert ThreadOk(s, pc, start) && pc == Pc(s, u);
    assert s.now <= s'.now && s.log <= s'.log;
    if pc.Stamped? || pc.Ranging? {
      WriterIsAlone(s, a, u, expiration);
    } else if a.Release? {
      assert s'.log == s.log && s'.done.Keys == s.done.Keys + {s.pcs[a.t].idx};
    } else {
      assert s'.done == s.done;
    }
  }

  /** Two goroutines never claim the same event. */
  lemma EventsAreApart(s: State, a: Action, t: Tid, u: Tid, start: Time, expiration: Duration)
    requires ThreadsOk(s, start) && Enabled(s, a)
    requires var s' := Next(s, a, expiration);
             t != u && t in s'.pcs && u in s'.pcs && HasEvent(s'.pcs[t]) && HasEvent(s'.pcs[u])
             && (a.Advance? || u != a.t)
    ensures Next(s, a, expiration).pcs[t].idx != Next(s, a, expiration).pcs[u].idx
  {
    var s' := Next(s, a, expiration);
    assert s'.pcs[u] == s.pcs[u] && ThreadOk(s, s.pcs[u], start);
    if a.Advance? || t != a.t {
      assert s'.pcs[t] == s.pcs[t];
    } else if a.Stamp? || a.Store? || a.Look? {
      assert s'.pcs[t].idx == |s.log|;
    } else if a.Visit? || a.Count? {
      assert HasEvent(s.pcs[t]) && s'.pcs[t].idx == s.pcs[t].idx;
    }
  }

  lemma ThreadsStep(s: State, a: Action, start: Time, expiration: Duration)
    requires Inv(s, start, expiration) && Enabled(s, a)
    ensures ThreadsOk(Next(s, a, expiration), start)
  {
    var s' := Next(s, a, expiration);
    forall u | u in s'.pcs ensures ThreadOk(s', s'.pcs[u], start) {
      if !a.Advance? && u == a.t { ActingThreadStep(s, a, start, expiration); }
      else { OtherThreadStep(s, a, u, start, expiration); }
    }
    forall t, u | t in s'.pcs && u in s'.pcs && t != u && HasEvent(s'.pcs[t]) && HasEvent(s'.pcs[u])
      ensures s'.pcs[t].idx != s'.pcs[u].idx
    {
      if a.Advance? || u != a.t { EventsAreApart(s, a, t, u, start, expiration); }
      else { EventsAreApart(s, a, u, t, start, expiration); }
    }
  }

  lemma ReleaseFiles(s: State, t: Tid, start: Time, expiration: Duration)
    requires ThreadsOk(s, start) && DoneOk(s) && Enabled(s, Release(t))
    ensures DoneOk(Next(s, Release(t), expiration))
  {
    assert ThreadOk(s, s.pcs[t], start);
  }

  lemma DoneStep(s: State, a: Action, start: Time, expiration: Duration)
    requires ThreadsOk(s, start) && DoneOk(s) && Enabled(s, a)
    ensures DoneOk(Next(s, a, expiration))
  {
    var s' := Next(s, a, expiration);
    if a.Release? {
      ReleaseFiles(s, a.t, start, expiration);
    } else {
      assert s'.done == s.done && s.log <= s'.log;
    }
  }

  /** A new event belongs to the goroutine that made it; an old one keeps its
      owner, or is filed. */
  lemma OwnedStep(s: State, a: Action, expiration: Duration)
    requires LogOwned(s) && Enabled(s, a)
    ensures LogOwned(Next(s, a, expiration))
  {
    var s' := Next(s, a, expiration);
    forall i | 0 <= i < |s'.log| ensures Owned(s', i) {
      if i < |s.log| {
        OwnerStays(s, a, i, expiration);
      } else {
        assert s'.pcs[a.t].idx == i;
      }
    }
  }

  lemma OwnerStays(s: State, a: Action, i: nat, expiration: Duration)
    requires Owned(s, i) && Enabled(s, a)
    ensures Owned(Next(s, a, expiration), i)
  {
    var s' := Next(s, a, expiration);
    if i !in s.done {
      var t :| t in s.pcs && HasEvent(s.pcs[t]) && s.pcs[t].idx == i;
      if a.Release? && a.t == t {
        assert i in s'.done;
      } else {
        assert t in s'.pcs && HasEvent(s'.pcs[t]) && s'.pcs[t].idx == i;
      }
    }
  }

  lemma WithAndWithout(ts: set<Tid>, t: Tid)
    ensures |ts| == |ts - {t}| + if t in ts then 1 else 0
  {
    if t in ts { assert ts == ts - {t} + {t}; } else { assert ts == ts - {t}; }
  }

  /** A step moves at most the acting goroutine into or out of the counted ones. */
  lemma CountedMoves(s: State, s': State, t: Tid, hit: bool)
    requires forall u: Tid :: u != t ==> Pc(s', u) == Pc(s, u)
    ensures |CountedThreads(s', hit)| + (if CountedAs(Pc(s, t), hit) then 1 else 0)
         == |CountedThreads(s, hit)| + (if CountedAs(Pc(s', t), hit) then 1 else 0)
  {
    forall u: Tid ensures u in CountedThreads(s', hit) - {t} <==> u in CountedThreads(s, hit) - {t} {
      assert u != t ==> Pc(s', u) == Pc(s, u);
    }
    assert CountedThreads(s', hit) - {t} == CountedThreads(s, hit) - {t};
    WithAndWithout(CountedThreads(s, hit), t);
    WithAndWithout(CountedThreads(s', hit), t);
  }

  lemma CountedStep(s: State, a: Action, hit: bool, expiration: Duration)
    requires Enabled(s, a)
    ensures |CountedThreads(Next(s, a, expiration), hit)|
         == |CountedThreads(s, hit)|
            + (if a.Count? && Pc(s, a.t).res.Some? == hit then 1 else 0)
            - (if a.Release? && CountedAs(Pc(s, a.t), hit) then 1 else 0)
  {
    var s' := Next(s, a, expiration);
    if a.Advance? {
      assert s'.pcs == s.pcs;
    } else {
      CountedMoves(s, s', a.t, hit);
    }
  }

  lemma Filed(done: map<nat, Completed>, i: nat, c: Completed, hit: bool)
    requires i !in done
    ensures |FinishedGets(done[i := c], hit)|
         == |FinishedGets(done, hit)| + if c.q.GetReq? && c.res.Some? == hit then 1 else 0
  {
    var before := FinishedGets(done, hit);
    if c.q.GetReq? && c.res.Some? == hit {
      assert FinishedGets(done[i := c], hit) == before + {i};
    } else {
      assert FinishedGets(done[i := c], hit) == before;
    }
  }

  /** Returning from a Get finishes one, whose event was not filed yet. */
  lemma FinishedStep(s: State, a: Action, hit: bool, start: Time, expiration: Duration)
    requires ThreadsOk(s, start) && Enabled(s, a)
    ensures |FinishedGets(Next(s, a, expiration).done, hit)|
         == |FinishedGets(s.done, hit)| + if a.Release? && CountedAs(Pc(s, a.t), hit) then 1 else 0
  {
    if a.Release? {
      var pc := s.pcs[a.t];
      assert pc.idx !in s.done;
      Filed(s.done, pc.idx, Finish(pc, |s.log|, s.now), hit);
    } else {
      assert Next(s, a, expiration).done == s.done;
    }
  }

  lemma CountersStep(s: State, a: Action, start: Time, expiration: Duration)
    requires ThreadsOk(s, start) && CountersOk(s) && Enabled(s, a)
    ensures CountersOk(Next(s, a, expiration))
  {
    CountedStep(s, a, true, expiration);
    CountedStep(s, a, false, expiration);
    FinishedStep(s, a, true, start, expiration);
    FinishedStep(s, a, false, start, expiration);
  }

  lemma ActingTimes(s: State, a: Action, expiration: Duration)
    requires TimesOk(s) && Enabled(s, a) && !a.Advance?
    ensures var s' := Next(s, a, expiration);
            a.t in s'.pcs ==> TimelyThread(s', s'.pcs[a.t])
  {
    if a.t in s.pcs { assert TimelyThread(s, s.pcs[a.t]); }
  }

  lemma DoneTimes(s: State, a: Action, expiration: Duration)
    requires TimesOk(s) && Enabled(s, a)
    ensures var s' := Next(s, a, expiration);
            forall i :: i in s'.done ==>
              i < |s'.log| && s'.done[i].acquiredAt <= s'.log[i].at <= s'.done[i].releasedAt
  {
    var s' := Next(s, a, expiration);
    if a.Release? {
      assert TimelyThread(s, s.pcs[a.t]);
    } else {
      assert s'.done == s.done && s.log <= s'.log;
    }
  }

  lemma TimesStep(s: State, a: Action, expiration: Duration)
    requires TimesOk(s) && Enabled(s, a)
    ensures TimesOk(Next(s, a, expiration))
  {
    var s' := Next(s, a, expiration);
    assert s.now <= s'.now && s.log <= s'.log;
    forall t | t in s'.pcs ensures TimelyThread(s', s'.pcs[t]) {
      if !a.Advance? && t == a.t {
        ActingTimes(s, a, expiration);
      } else {
        assert s'.pcs[t] == s.pcs[t] && TimelyThread(s, s.pcs[t]);
      }
    }
    DoneTimes(s, a, expiration);
  }

  lemma WriterLastStep(s: State, a: Action, expiration: Duration)
    requires LocksOk(s) && WriterLast(s) && Enabled(s, a)
    ensures WriterLast(Next(s, a, expiration))
  {
    var s' := Next(s, a, expiration);
    forall t | t in s'.pcs && WriteLocked(s'.pcs[t]) && HasEvent(s'.pcs[t])
      ensures s'.pcs[t].idx == |s'.log| - 1
    {
      if a.Advance? || t != a.t {
        assert s'.pcs[t] == s.pcs[t];
        WriterIsAlone(s, a, t, expiration);
      }
    }
  }

  lemma InvStep(s: State, a: Action, start: Time, expiration: Duration)
    requires Inv(s, start, expiration) && Enabled(s, a)
    ensures Inv(Next(s, a, expiration), start, expiration)
  {
    LocksStep(s, a, expiration);
    DataStep(s, a, start, expiration);
    ThreadsStep(s, a, start, expiration);
    DoneStep(s, a, start, expiration);
    OwnedStep(s, a, expiration);
    CountersStep(s, a, start, expiration);
    TimesStep(s, a, expiration);
    WriterLastStep(s, a, expiration);
  }

  // ------------------------------------------------------------------ whole runs

  /** The state after any schedule, or None when it asks for a blocked step. */
  function Run(acts: seq<Action>, start: Time, expiration: Duration): Option<State> {
    if acts == [] then Some(Init(start))
    else
      match Run(acts[..|acts| - 1], start, expiration)
      case None => None
      case Some(s) =>
        var a := acts[|acts| - 1];
        if Enabled(s, a) then Some(Next(s, a, expiration)) else None
  }

  lemma {:induction false} RunInv(acts: seq<Action>, start: Time, expiration: Duration)
    requires Run(acts, start, expiration).Some?
    ensures Inv(Run(acts, start, expiration).value, start, expiration)
  {
    if acts == [] {
      InitInv(start, expiration);
    } else {
      RunInv(acts[..|acts| - 1], start, expiration);
      InvStep(Run(acts[..|acts| - 1], start, expiration).value, acts[|acts| - 1], start, expiration);
    }
  }

  /** How many operations a schedule finishes. */
  function Releases(acts: seq<Action>): nat {
    if acts == [] then 0 else Releases(acts[..|acts| - 1]) + if acts[|acts| - 1].Release? then 1 else 0
  }

  /** No two finished operations are filed under one event. */
  lemma {:induction false} EachIsFiled(acts: seq<Action>, start: Time, expiration: Duration)
    requires Run(acts, start, expiration).Some?
    ensures |Run(acts, start, expiration).value.done| == Releases(acts)
  {
    if acts == [] {
    } else {
      var front, a := acts[..|acts| - 1], acts[|acts| - 1];
      EachIsFiled(front, start, expiration);
      RunInv(front, start, expiration);
      FilesOnce(Run(front, start, expiration).value, a, start, expiration);
    }
  }

  lemma FilesOnce(s: State, a: Action, start: Time, expiration: Duration)
    requires ThreadsOk(s, start) && Enabled(s, a)
    ensures |Next(s, a, expiration).done| == |s.done| + if a.Release? then 1 else 0
  {
    if a.Release? {
      assert s.pcs[a.t].idx !in s.done;
    } else {
      assert Next(s, a, expiration).done == s.done;
    }
  }

  /** An operation that has taken effect but not returned has an event of its
      own, made after its call, and filed for no finished operation. */
  ghost predicate PendingApart(s: State) {
    && (forall t :: t in s.pcs && HasEvent(s.pcs[t]) ==>
          var pc := s.pcs[t];
          pc.since <= pc.idx < |s.log| && pc.idx !in s.done && Matches(Finish(pc, 0, 0), s.log[pc.idx]))
    && (forall t, u :: t in s.pcs && u in s.pcs && t != u && HasEvent(s.pcs[t]) && HasEvent(s.pcs[u]) ==>
          s.pcs[t].idx != s.pcs[u].idx)
  }

  lemma PendingIsApart(s: State, start: Time)
    requires ThreadsOk(s, start)
    ensures PendingApart(s)
  {
    forall t | t in s.pcs && HasEvent(s.pcs[t])
      ensures var pc := s.pcs[t];
              pc.since <= pc.idx < |s.log| && pc.idx !in s.done && Matches(Finish(pc, 0, 0), s.log[pc.idx])
    {
      assert ThreadOk(s, s.pcs[t], start);
    }
  }

  /** Every schedule is linearizable: the log of effects is a history of the
      atomic timed map in clock order; every finished operation is one event of
      it, placed between its call and its return, so that operations that do not
      overlap keep their order; no two share an event; and every event is that of
      a finished operation or of one still in progress. */
  lemma Linearizable(acts: seq<Action>, start: Time, expiration: Duration)
    requires Run(acts, start, expiration).Some?
    ensures var s := Run(acts, start, expiration).value;
            && Consistent(s.log, expiration) && Ordered(s.log, start)
            && (forall i :: i in s.done ==>
                  var c := s.done[i]; c.since <= i < c.until <= |s.log| && Matches(c, s.log[i]))
            && (forall i, j :: i in s.done && j in s.done && s.done[i].until <= s.done[j].since ==> i < j)
            && |s.done| == Releases(acts)
            && PendingApart(s) && LogOwned(s)
  {
    RunInv(acts, start, expiration);
    EachIsFiled(acts, start, expiration);
    PendingIsApart(Run(acts, start, expiration).value, start);
  }

  // -------------------------------------------------------------- no deadlock

  /** Neither time nor new operations. */
  predicate Quiet(acts: seq<Action>) { forall i :: 0 <= i < |acts| ==> !acts[i].Advance? && !acts[i].Call? }

  lemma OneMore(acts: seq<Action>, a: Action, start: Time, expiration: Duration)
    requires Run(acts, start, expiration).Some? && Enabled(Run(acts, start, expiration).value, a)
    ensures Run(acts + [a], start, expiration) == Some(Next(Run(acts, start, expiration).value, a, expiration))
  {
    assert (acts + [a])[..|acts|] == acts;
  }

  /** These steps, all enabled in turn, go from s to end. */
  predicate Leads(s: State, acts: seq<Action>, end: State, expiration: Duration)
    decreases acts
  {
    if acts == [] then s == end
    else Enabled(s, acts[0]) && Leads(Next(s, acts[0], expiration), acts[1..], end, expiration)
  }

  predicate NobodyIdle(s: State) { forall t :: t in s.pcs ==> !s.pcs[t].Idle? }

  function Stage(pc: PC): nat { if pc.Holding? then 3 else if pc.Stamped? || pc.Ranging? || pc.Found? then 2 else 1 }

  function TodoOf(pc: PC): set<Key> { if pc.Ranging? then pc.todo else {} }

  /** The next step of a goroutine that holds the lock. */
  ghost function StepOf(t: Tid, pc: PC): (a: Action)
    requires Locked(pc)
    ensures !a.Advance? && !a.Call? && !a.Acquire? && a.t == t
  {
    match pc
    case Holding(q, _, _) => if q.GetReq? then Look(t) else Stamp(t)
    case Stamped(_, _, _, _, _) => Store(t)
    case Ranging(_, _, _, _, todo) =>
      if todo == {} then Release(t)
      else
        var k :| k in todo;
        Visit(t, k)
    case Found(_, _, _, _, _) => Count(t)
    case _ => Release(t)
  }

  lemma HolderSteps(s: State, t: Tid, expiration: Duration)
    requires Locked(Pc(s, t))
    ensures var a := StepOf(t, Pc(s, t));
            && Enabled(s, a)
            && var s' := Next(s, a, expiration);
               && s'.pcs - {t} == s.pcs - {t}
               && if a.Release? then t !in s'.pcs
                  else t in s'.pcs && Locked(s'.pcs[t])
                       && (Stage(s'.pcs[t]) < Stage(s.pcs[t])
                           || (Stage(s'.pcs[t]) == Stage(s.pcs[t]) && TodoOf(s'.pcs[t]) < TodoOf(s.pcs[t])))
  {
  }

  /** Whoever holds the lock can go on alone until it has returned. */
  lemma {:induction false} HolderReturns(s: State, t: Tid, expiration: Duration) returns (more: seq<Action>, end: State)
    requires Locked(Pc(s, t))
    ensures Quiet(more) && Leads(s, more, end, expiration) && end.pcs == s.pcs - {t}
    decreases Stage(Pc(s, t)), TodoOf(Pc(s, t))
  {
    var a := StepOf(t, Pc(s, t));
    HolderSteps(s, t, expiration);
    var s1 := Next(s, a, expiration);
    if a.Release? {
      more, end := [a], s1;
      assert Leads(s1, [], s1, expiration);
    } else {
      more, end := HolderReturns(s1, t, expiration);
      more := [a] + more;
    }
  }

  lemma {:induction false} NobodyIdles(acts: seq<Action>, start: Time, expiration: Duration)
    requires Run(acts, start, expiration).Some?
    ensures NobodyIdle(Run(acts, start, expiration).value)
  {
    if acts == [] {
    } else {
      NobodyIdles(acts[..|acts| - 1], start, expiration);
      LastStep(acts, start, expiration);
    }
  }

  lemma LockHolders(s: State)
    requires LocksOk(s)
    ensures s.writer.Some? ==> WriteLocked(Pc(s, s.writer.value))
    ensures forall u: Tid :: u in s.readers ==> ReadLocked(Pc(s, u))
  {
  }

  /** When nobody holds the lock, anyone waiting can take it. */
  lemma AnyoneAcquires(s: State, t: Tid)
    requires LocksOk(s) && t in s.pcs && s.pcs[t].Waiting?
    requires forall u :: u in s.pcs ==> !Locked(s.pcs[u])
    ensures Enabled(s, Acquire(t))
  {
    LockHolders(s);
    assert s.readers == {};
  }

  lemma RunLocks(acts: seq<Action>, start: Time, expiration: Duration)
    requires Run(acts, start, expiration).Some?
    ensures LocksOk(Run(acts, start, expiration).value)
  {
    RunInv(acts, start, expiration);
  }

  /** While operations are in progress, someone holds the lock or can take it,
      and can then return. */
  lemma OneReturns(s: State, expiration: Duration) returns (more: seq<Action>, t: Tid, end: State)
    requires LocksOk(s) && NobodyIdle(s) && s.pcs != map[]
    ensures Quiet(more) && Leads(s, more, end, expiration)
    ensures t in s.pcs && end.pcs == s.pcs - {t}
  {
    if u :| u in s.pcs && Locked(s.pcs[u]) {
      t := u;
      more, end := HolderReturns(s, t, expiration);
    } else {
      t :| t in s.pcs;
      AnyoneAcquires(s, t);
      more, end := HolderReturns(Next(s, Acquire(t), expiration), t, expiration);
      more := [Acquire(t)] + more;
    }
  }

  lemma Fewer(pcs: map<Tid, PC>, t: Tid)
    requires t in pcs
    ensures |pcs - {t}| < |pcs|
  {
    assert (pcs - {t}).Keys == pcs.Keys - {t};
  }

  lemma {:induction false} LeadsKeepsLocks(s: State, acts: seq<Action>, end: State, expiration: Duration)
    requires LocksOk(s) && Leads(s, acts, end, expiration)
    ensures LocksOk(end)
    decreases acts
  {
    if acts == [] {
    } else {
      LocksStep(s, acts[0], expiration);
      LeadsKeepsLocks(Next(s, acts[0], expiration), acts[1..], end, expiration);
    }
  }

  lemma {:induction false} LeadsOn(s: State, p: seq<Action>, t: State, q: seq<Action>, u: State, expiration: Duration)
    requires Leads(s, p, t, expiration) && Leads(t, q, u, expiration)
    ensures Leads(s, p + q, u, expiration)
    decreases p
  {
    if p == [] {
      assert p + q == q;
    } else {
      LeadsOn(Next(s, p[0], expiration), p[1..], t, q, u, expiration);
      assert (p + q)[1..] == p[1..] + q;
    }
  }

  lemma {:induction false} AllReturn(s: State, expiration: Duration) returns (more: seq<Action>, end: State)
    requires LocksOk(s) && NobodyIdle(s)
    ensures Quiet(more) && Leads(s, more, end, expiration) && end.pcs == map[]
    decreases |s.pcs|
  {
    if s.pcs == map[] {
      more, end := [], s;
    } else {
      var one, t, s1 := OneReturns(s, expiration);
      Fewer(s.pcs, t);
      LeadsKeepsLocks(s, one, s1, expiration);
      more, end := AllReturn(s1, expiration);
      LeadsOn(s, one, s1, more, end, expiration);
      more := one + more;
    }
  }

  lemma {:induction false} RunOn(acts: seq<Action>, more: seq<Action>, end: State, start: Time, expiration: Duration)
    requires Run(acts, start, expiration).Some?
    requires Leads(Run(acts, start, expiration).value, more, end, expiration)
    ensures Run(acts + more, start, expiration) == Some(end)
    decreases more
  {
    if more == [] {
      assert acts + more == acts;
    } else {
      OneMore(acts, more[0], start, expiration);
      RunOn(acts + [more[0]], more[1..], end, start, expiration);
      assert acts + more == acts + [more[0]] + more[1..];
    }
  }

  /** No deadlock: from every reachable state all operations in progress can
      return, without any new operation and without waiting for the clock. */
  lemma EveryoneCanReturn(acts: seq<Action>, start: Time, expiration: Duration)
    requires Run(acts, start, expiration).Some?
    ensures exists more :: Quiet(more) && Run(acts + more, start, expiration).Some?
                           && Run(acts + more, start, expiration).value.pcs == map[]
  {
    RunLocks(acts, start, expiration);
    NobodyIdles(acts, start, expiration);
    var more, end := AllReturn(Run(acts, start, expiration).value, expiration);
    RunOn(acts, more, end, start, expiration);
  }

  /** Any goroutine that is not in an operation can start any, and it and all
      others can then return. */
  lemma AnyoneCanStart(acts: seq<Action>, t: Tid, q: Request, start: Time, expiration: Duration)
    requires Run(acts, start, expiration).Some? && t !in Run(acts, start, expiration).value.pcs
    ensures exists more :: Quiet(more) && Run(acts + [Call(t, q)] + more, start, expiration).Some?
                           && Run(acts + [Call(t, q)] + more, start, expiration).value.pcs == map[]
  {
    OneMore(acts, Call(t, q), start, expiration);
    EveryoneCanReturn(acts + [Call(t, q)], start, expiration);
  }

  /** Two Gets that wait while nobody writes can hold the lock together. */
  lemma GetsShareTheLock(acts: seq<Action>, t: Tid, u: Tid, start: Time, expiration: Duration)
    requires Run(acts, start, expiration).Some? && t != u
    requires var s := Run(acts, start, expiration).value;
             && Pc(s, t).Waiting? && Pc(s, t).q.GetReq? && Pc(s, u).Waiting? && Pc(s, u).q.GetReq?
             && forall v: Tid :: !WriteLocked(Pc(s, v))
    ensures var both := Run(acts + [Acquire(t), Acquire(u)], start, expiration);
            both.Some? && ReadLocked(Pc(both.value, t)) && ReadLocked(Pc(both.value, u))
  {
    RunLocks(acts, start, expiration);
    var s := Run(acts, start, expiration).value;
    LockHolders(s);
    OneMore(acts, Acquire(t), start, expiration);
    OneMore(acts + [Acquire(t)], Acquire(u), start, expiration);
    assert acts + [Acquire(t), Acquire(u)] == acts + [Acquire(t)] + [Acquire(u)];
  }

  /** Whenever no sweep is running the shared map is the atomic one; while one
      runs, no reader holds the lock. */
  lemma NoHalfSweep(acts: seq<Action>, t: Tid, start: Time, expiration: Duration)
    requires Run(acts, start, expiration).Some?
    ensures var s := Run(acts, start, expiration).value;
            && (ReadLocked(Pc(s, t)) ==> s.writer.None? && s.cache == Replay(s.log, expiration))
            && (WriteLocked(Pc(s, t)) ==> s.readers == {} && forall u: Tid :: WriteLocked(Pc(s, u)) ==> u == t)
  {
    RunInv(acts, start, expiration);
    var s := Run(acts, start, expiration).value;
    if WriteLocked(Pc(s, t)) { assert s.writer == Some(t); }
  }

  /** The hit counter is the number of Gets that were told a value, the miss
      counter the number of those that were not, each with the Gets that have
      counted and not yet released the lock; with no reader left, exactly the
      finished ones. */
  lemma CountersAgree(acts: seq<Action>, start: Time, expiration: Duration)
    requires Run(acts, start, expiration).Some?
    ensures var s := Run(acts, start, expiration).value;
            && s.hits == |FinishedGets(s.done, true)| + |CountedThreads(s, true)|
            && s.misses == |FinishedGets(s.done, false)| + |CountedThreads(s, false)|
            && s.returned == |FinishedGets(s.done, true)| + |FinishedGets(s.done, false)|
            && (s.readers == {} ==> s.hits == |FinishedGets(s.done, true)| && s.misses == |FinishedGets(s.done, false)|)
  {
    RunInv(acts, start, expiration);
    var s := Run(acts, start, expiration).value;
    CountedHoldLock(s, true);
    CountedHoldLock(s, false);
    if s.readers == {} {
      assert CountedThreads(s, true) == {} && CountedThreads(s, false) == {};
    }
  }

  lemma CountedHoldLock(s: State, hit: bool)
    requires LocksOk(s)
    ensures CountedThreads(s, hit) <= s.readers
  {
    forall t | t in CountedThreads(s, hit) ensures t in s.readers {
      assert ReadLocked(Pc(s, t));
    }
  }

  /** The clock after a schedule: the start plus every advance. */
  function Clock(acts: seq<Action>, start: Time): Time {
    if acts == [] then start
    else Clock(acts[..|acts| - 1], start) + if acts[|acts| - 1].Advance? then acts[|acts| - 1].d else 0
  }

  /** The length of the log after a schedule. */
  function LogLength(acts: seq<Action>, start: Time, expiration: Duration): nat {
    var s := Run(acts, start, expiration);
    if s.Some? then |s.value.log| else 0
  }

  /** The steps of one operation of goroutine t: positions in a schedule. */
  datatype Trail = Trail(t: Tid, call: nat, acquire: nat, read: nat, release: nat)

  /** t was called with q at w.call, and has not returned since. */
  predicate Called(acts: seq<Action>, w: Trail, q: Request) {
    && w.call < |acts| && acts[w.call] == Call(w.t, q)
    && forall b :: w.call < b < |acts| ==> acts[b] != Release(w.t)
  }

  predicate TookLock(acts: seq<Action>, w: Trail) {
    w.call < w.acquire < |acts| && acts[w.acquire] == Acquire(w.t)
  }

  /** t read the clock (for a Set or a sweep) or looked up (for a Get). */
  predicate TookEffect(acts: seq<Action>, w: Trail) {
    w.acquire < w.read < |acts| && (acts[w.read] == Stamp(w.t) || acts[w.read] == Look(w.t))
  }

  function RequestOf(pc: PC): Request
    requires !pc.Idle?
  {
    match pc
    case Waiting(q, _) => q
    case Holding(q, _, _) => q
    case Stamped(k, v, _, _, _) => SetReq(k, v)
    case Written(k, v, _, _, _) => SetReq(k, v)
    case Ranging(_, _, _, _, _) => SweepReq
    case Found(k, _, _, _, _) => GetReq(k)
    case Counted(k, _, _, _, _) => GetReq(k)
  }

  /** The time that an operation past its reading carries. */
  function ReadingOf(s: State, pc: PC): Option<Time> {
    if pc.Stamped? then Some(pc.at)
    else if HasEvent(pc) && pc.idx < |s.log| then Some(s.log[pc.idx].at) else None
  }

  /** Whatever an operation in progress carries is what these steps gave it. */
  ghost predicate Fits(acts: seq<Action>, s: State, w: Trail, pc: PC, start: Time, expiration: Duration) {
    && !pc.Idle? && Called(acts, w, RequestOf(pc)) && pc.since == LogLength(acts[..w.call], start, expiration)
    && (Locked(pc) ==> TookLock(acts, w) && pc.acquired == Clock(acts[..w.acquire], start))
    && (Locked(pc) && !pc.Holding? ==>
          TookEffect(acts, w) && ReadingOf(s, pc) == Some(Clock(acts[..w.read], start)))
  }

  /** Step r of the schedule is the one that filed i. */
  ghost predicate FiledBy(acts: seq<Action>, i: nat, r: nat, start: Time, expiration: Duration) {
    && r < |acts|
    && Run(acts[..r], start, expiration).Some? && Run(acts[..r + 1], start, expiration).Some?
    && i !in Run(acts[..r], start, expiration).value.done
    && i in Run(acts[..r + 1], start, expiration).value.done
  }

  /** A finished operation carries the clock and the length of the log as they
      were at these steps of its own. */
  ghost predicate Carries(acts: seq<Action>, c: Completed, at: Time, w: Trail, start: Time, expiration: Duration) {
    && w.release < |acts| && acts[w.release] == Release(w.t)
    && Called(acts[..w.release], w, c.q) && TookLock(acts[..w.release], w) && TookEffect(acts[..w.release], w)
    && c.since == LogLength(acts[..w.call], start, expiration)
    && c.until == LogLength(acts[..w.release], start, expiration)
    && c.acquiredAt == Clock(acts[..w.acquire], start) && c.releasedAt == Clock(acts[..w.release], start)
    && at == Clock(acts[..w.read], start)
  }

  /** The finished operation filed under i is the one that took these steps. */
  ghost predicate Operation(
    acts: seq<Action>, i: nat, c: Completed, at: Time, w: Trail, start: Time, expiration: Duration)
  {
    FiledBy(acts, i, w.release, start, expiration) && Carries(acts, c, at, w, start, expiration)
  }

  ghost predicate Traced(acts: seq<Action>, s: State, t: Tid, pc: PC, start: Time, expiration: Duration) {
    exists w: Trail :: w.t == t && Fits(acts, s, w, pc, start, expiration)
  }

  ghost predicate AllTraced(acts: seq<Action>, s: State, start: Time, expiration: Duration) {
    forall t :: t in s.pcs ==> Traced(acts, s, t, s.pcs[t], start, expiration)
  }

  ghost predicate IsOperation(acts: seq<Action>, i: nat, c: Completed, at: Time, start: Time, expiration: Duration) {
    exists w :: Operation(acts, i, c, at, w, start, expiration)
  }

  ghost predicate DoneReal(
    acts: seq<Action>, done: map<nat, Completed>, log: seq<Event>, start: Time, expiration: Duration)
  {
    forall i :: i in done ==> i < |log| && IsOperation(acts, i, done[i], log[i].at, start, expiration)
  }

  /** What the clock and the recorded readings have to do with the schedule. */
  ghost predicate ClockOk(acts: seq<Action>, s: State, start: Time, expiration: Duration) {
    && s.now == Clock(acts, start)
    && AllTraced(acts, s, start, expiration) && DoneReal(acts, s.done, s.log, start, expiration)
  }

  lemma CalledStill(acts: seq<Action>, a: Action, w: Trail, q: Request)
    requires Called(acts, w, q) && a != Release(w.t)
    ensures Called(acts + [a], w, q) && (acts + [a])[..w.call] == acts[..w.call]
  {
  }

  lemma TookStill(acts: seq<Action>, a: Action, w: Trail)
    ensures TookLock(acts, w) ==> TookLock(acts + [a], w) && (acts + [a])[..w.acquire] == acts[..w.acquire]
    ensures TookEffect(acts, w) ==> TookEffect(acts + [a], w) && (acts + [a])[..w.read] == acts[..w.read]
  {
  }

  /** A step that does not change what an operation carries keeps its trail. */
  lemma FitsStill(acts: seq<Action>, s: State, s': State, a: Action, w: Trail, pc: PC, pc': PC,
                  start: Time, expiration: Duration)
    requires Fits(acts, s, w, pc, start, expiration) && a != Release(w.t)
    requires !pc'.Idle? && RequestOf(pc') == RequestOf(pc) && pc'.since == pc.since
    requires Locked(pc') ==> Locked(pc) && pc'.acquired == pc.acquired
    requires Locked(pc') && !pc'.Holding? ==> !pc.Holding? && ReadingOf(s', pc') == ReadingOf(s, pc)
    ensures Fits(acts + [a], s', w, pc', start, expiration)
  {
    CalledStill(acts, a, w, RequestOf(pc));
    TookStill(acts, a, w);
  }

  lemma CallFits(acts: seq<Action>, s: State, t: Tid, q: Request, since: nat, start: Time, expiration: Duration)
    requires since == LogLength(acts, start, expiration)
    ensures Traced(acts + [Call(t, q)], s, t, Waiting(q, since), start, expiration)
  {
    var longer, w := acts + [Call(t, q)], Trail(t, |acts|, 0, 0, 0);
    assert longer[..|acts|] == acts;
    assert Fits(longer, s, w, Waiting(q, since), start, expiration);
  }

  lemma AcquireFits(acts: seq<Action>, s: State, s': State, w: Trail, pc: PC, start: Time, expiration: Duration)
    requires Fits(acts, s, w, pc, start, expiration) && pc.Waiting?
    ensures Traced(acts + [Acquire(w.t)], s', w.t, Holding(pc.q, pc.since, Clock(acts, start)), start, expiration)
  {
    var longer, w' := acts + [Acquire(w.t)], w.(acquire := |acts|);
    CalledStill(acts, Acquire(w.t), w, pc.q);
    assert Called(longer, w', pc.q) && longer[..|acts|] == acts;
    assert Fits(longer, s', w', Holding(pc.q, pc.since, Clock(acts, start)), start, expiration);
  }

  lemma ReadFits(acts: seq<Action>, s: State, s': State, a: Action, w: Trail, pc: PC, pc': PC,
                 start: Time, expiration: Duration)
    requires Fits(acts, s, w, pc, start, expiration) && pc.Holding? && (a == Stamp(w.t) || a == Look(w.t))
    requires Locked(pc') && !pc'.Holding? && RequestOf(pc') == pc.q && pc'.since == pc.since
    requires pc'.acquired == pc.acquired && ReadingOf(s', pc') == Some(Clock(acts, start))
    ensures Fits(acts + [a], s', w.(read := |acts|), pc', start, expiration)
  {
    var longer, w' := acts + [a], w.(read := |acts|);
    CalledStill(acts, a, w, pc.q);
    TookStill(acts, a, w);
    assert Called(longer, w', pc.q) && longer[..|acts|] == acts;
  }

  /** What the acting goroutine carries after its step. */
  lemma ActorCarries(s: State, a: Action, start: Time, expiration: Duration)
    requires ThreadsOk(s, start) && Enabled(s, a) && (a.Stamp? || a.Look? || a.Store? || a.Visit? || a.Count?)
    ensures var s', pc := Next(s, a, expiration), s.pcs[a.t];
            && !pc.Idle? && Locked(pc) && a.t in s'.pcs
            && var pc' := s'.pcs[a.t];
               && Locked(pc') && !pc'.Holding? && RequestOf(pc') == RequestOf(pc)
               && pc'.since == pc.since && pc'.acquired == pc.acquired
               && if a.Stamp? || a.Look? then pc.Holding? && ReadingOf(s', pc') == Some(s.now)
                  else !pc.Holding? && ReadingOf(s', pc') == ReadingOf(s, pc)
  {
    assert ThreadOk(s, s.pcs[a.t], start);
  }

  lemma EntrantIsTraced(acts: seq<Action>, s: State, a: Action, start: Time, expiration: Duration)
    requires |s.log| == LogLength(acts, start, expiration)
    requires s.now == Clock(acts, start) && AllTraced(acts, s, start, expiration)
    requires Enabled(s, a) && (a.Call? || a.Acquire?)
    ensures var s' := Next(s, a, expiration);
            a.t in s'.pcs && Traced(acts + [a], s', a.t, s'.pcs[a.t], start, expiration)
  {
    var s', t := Next(s, a, expiration), a.t;
    if a.Call? {
      CallFits(acts, s', t, a.q, |s.log|, start, expiration);
    } else {
      assert Traced(acts, s, t, s.pcs[t], start, expiration);
      var w: Trail :| w.t == t && Fits(acts, s, w, s.pcs[t], start, expiration);
      AcquireFits(acts, s, s', w, s.pcs[t], start, expiration);
    }
  }

  lemma ActorStaysTraced(acts: seq<Action>, s: State, a: Action, start: Time, expiration: Duration)
    requires ThreadsOk(s, start) && s.now == Clock(acts, start) && AllTraced(acts, s, start, expiration)
    requires Enabled(s, a) && (a.Stamp? || a.Look? || a.Store? || a.Visit? || a.Count?)
    ensures var s' := Next(s, a, expiration);
            a.t in s'.pcs && Traced(acts + [a], s', a.t, s'.pcs[a.t], start, expiration)
  {
    var s', t := Next(s, a, expiration), a.t;
    assert Traced(acts, s, t, s.pcs[t], start, expiration);
    var w: Trail :| w.t == t && Fits(acts, s, w, s.pcs[t], start, expiration);
    ActorCarries(s, a, start, expiration);
    if a.Stamp? || a.Look? {
      ReadFits(acts, s, s', a, w, s.pcs[t], s'.pcs[t], start, expiration);
    } else {
      FitsStill(acts, s, s', a, w, s.pcs[t], s'.pcs[t], start, expiration);
    }
  }

  lemma OtherStaysTraced(acts: seq<Action>, s: State, a: Action, t: Tid, start: Time, expiration: Duration)
    requires ThreadsOk(s, start) && AllTraced(acts, s, start, expiration)
    requires Enabled(s, a) && t in s.pcs && (a.Advance? || t != a.t)
    ensures Traced(acts + [a], Next(s, a, expiration), t, s.pcs[t], start, expiration)
  {
    var s', pc := Next(s, a, expiration), s.pcs[t];
    assert ThreadOk(s, pc, start) && Traced(acts, s, t, pc, start, expiration);
    assert s.log <= s'.log && ReadingOf(s', pc) == ReadingOf(s, pc);
    var w: Trail :| w.t == t && Fits(acts, s, w, pc, start, expiration);
    FitsStill(acts, s, s', a, w, pc, pc, start, expiration);
  }

  lemma OthersStand(s: State, a: Action, expiration: Duration)
    requires Enabled(s, a)
    ensures var s' := Next(s, a, expiration);
            && (forall t :: t in s'.pcs && (a.Advance? || t != a.t) ==> t in s.pcs && s'.pcs[t] == s.pcs[t])
            && (a.Release? ==> a.t !in s'.pcs)
  {
  }

  lemma StaysTraced(acts: seq<Action>, s: State, a: Action, t: Tid, start: Time, expiration: Duration)
    requires |s.log| == LogLength(acts, start, expiration)
    requires ThreadsOk(s, start) && s.now == Clock(acts, start) && AllTraced(acts, s, start, expiration)
    requires Enabled(s, a) && t in Next(s, a, expiration).pcs
    ensures var s' := Next(s, a, expiration); Traced(acts + [a], s', t, s'.pcs[t], start, expiration)
  {
    OthersStand(s, a, expiration);
    if a.Advance? || t != a.t {
      OtherStaysTraced(acts, s, a, t, start, expiration);
    } else if a.Call? || a.Acquire? {
      EntrantIsTraced(acts, s, a, start, expiration);
    } else {
      ActorStaysTraced(acts, s, a, start, expiration);
    }
  }

  lemma AllStayTraced(acts: seq<Action>, s: State, a: Action, start: Time, expiration: Duration)
    requires |s.log| == LogLength(acts, start, expiration)
    requires ThreadsOk(s, start) && s.now == Clock(acts, start) && AllTraced(acts, s, start, expiration)
    requires Enabled(s, a)
    ensures AllTraced(acts + [a], Next(s, a, expiration), start, expiration)
  {
    var s' := Next(s, a, expiration);
    forall t | t in s'.pcs ensures Traced(acts + [a], s', t, s'.pcs[t], start, expiration) {
      StaysTraced(acts, s, a, t, start, expiration);
    }
  }

  lemma StillFiled(acts: seq<Action>, a: Action, i: nat, r: nat, start: Time, expiration: Duration)
    requires FiledBy(acts, i, r, start, expiration)
    ensures FiledBy(acts + [a], i, r, start, expiration)
  {
    assert (acts + [a])[..r] == acts[..r] && (acts + [a])[..r + 1] == acts[..r + 1];
  }

  lemma StillCarries(acts: seq<Action>, a: Action, c: Completed, at: Time, w: Trail, start: Time, expiration: Duration)
    requires Carries(acts, c, at, w, start, expiration)
    ensures Carries(acts + [a], c, at, w, start, expiration)
  {
    var longer := acts + [a];
    assert longer[..w.call] == acts[..w.call] && longer[..w.acquire] == acts[..w.acquire];
    assert longer[..w.read] == acts[..w.read] && longer[..w.release] == acts[..w.release];
  }

  lemma StillReal(acts: seq<Action>, a: Action, i: nat, c: Completed, at: Time, start: Time, expiration: Duration)
    requires IsOperation(acts, i, c, at, start, expiration)
    ensures IsOperation(acts + [a], i, c, at, start, expiration)
  {
    var w :| Operation(acts, i, c, at, w, start, expiration);
    StillFiled(acts, a, i, w.release, start, expiration);
    StillCarries(acts, a, c, at, w, start, expiration);
    assert Operation(acts + [a], i, c, at, w, start, expiration);
  }

  lemma ReturnIsReal(acts: seq<Action>, s: State, w: Trail, pc: PC, start: Time, expiration: Duration)
    requires Fits(acts, s, w, pc, start, expiration) && HasEvent(pc) && pc.idx < |s.log|
    requires FiledBy(acts + [Release(w.t)], pc.idx, |acts|, start, expiration)
    ensures var c := Finish(pc, LogLength(acts, start, expiration), Clock(acts, start));
            IsOperation(acts + [Release(w.t)], pc.idx, c, s.log[pc.idx].at, start, expiration)
  {
    var longer, n := acts + [Release(w.t)], |acts|;
    assert longer[..n] == acts;
    assert longer[..w.call] == acts[..w.call] && longer[..w.acquire] == acts[..w.acquire];
    assert longer[..w.read] == acts[..w.read];
    var c := Finish(pc, LogLength(acts, start, expiration), Clock(acts, start));
    assert Operation(longer, pc.idx, c, s.log[pc.idx].at, w.(release := n), start, expiration);
  }

  lemma ReturnFiles(acts: seq<Action>, s: State, t: Tid, start: Time, expiration: Duration)
    requires Run(acts, start, expiration) == Some(s)
    requires Enabled(s, Release(t)) && s.pcs[t].idx !in s.done
    ensures FiledBy(acts + [Release(t)], s.pcs[t].idx, |acts|, start, expiration)
  {
    var longer := acts + [Release(t)];
    OneMore(acts, Release(t), start, expiration);
    assert longer[..|acts|] == acts && longer[..|acts| + 1] == longer;
  }

  lemma FilingIsReal(acts: seq<Action>, s: State, t: Tid, start: Time, expiration: Duration)
    requires Run(acts, start, expiration) == Some(s)
    requires ThreadsOk(s, start) && s.now == Clock(acts, start) && AllTraced(acts, s, start, expiration)
    requires Enabled(s, Release(t))
    ensures var pc := s.pcs[t];
            && pc.idx < |s.log|
            && IsOperation(acts + [Release(t)], pc.idx, Finish(pc, |s.log|, s.now), s.log[pc.idx].at, start, expiration)
  {
    var pc := s.pcs[t];
    assert ThreadOk(s, pc, start) && Traced(acts, s, t, pc, start, expiration);
    var w: Trail :| w.t == t && Fits(acts, s, w, pc, start, expiration);
    ReturnFiles(acts, s, t, start, expiration);
    ReturnIsReal(acts, s, w, pc, start, expiration);
  }

  lemma OldDoneStaysReal(acts: seq<Action>, done: map<nat, Completed>, log: seq<Event>, longer: seq<Event>,
                         a: Action, start: Time, expiration: Duration)
    requires DoneReal(acts, done, log, start, expiration) && log <= longer
    ensures DoneReal(acts + [a], done, longer, start, expiration)
  {
    forall i | i in done
      ensures i < |longer| && IsOperation(acts + [a], i, done[i], longer[i].at, start, expiration)
    {
      StillReal(acts, a, i, done[i], log[i].at, start, expiration);
    }
  }

  lemma NextFiles(s: State, a: Action, expiration: Duration)
    requires Enabled(s, a)
    ensures var s' := Next(s, a, expiration);
            && s.log <= s'.log
            && (if a.Release? then
                  s'.log == s.log && s'.done == s.done[s.pcs[a.t].idx := Finish(s.pcs[a.t], |s.log|, s.now)]
                else s'.done == s.done)
  {
  }

  lemma DoneStaysReal(acts: seq<Action>, s: State, a: Action, start: Time, expiration: Duration)
    requires Run(acts, start, expiration) == Some(s)
    requires ThreadsOk(s, start) && ClockOk(acts, s, start, expiration) && Enabled(s, a)
    ensures var s' := Next(s, a, expiration); DoneReal(acts + [a], s'.done, s'.log, start, expiration)
  {
    NextFiles(s, a, expiration);
    OldDoneStaysReal(acts, s.done, s.log, Next(s, a, expiration).log, a, start, expiration);
    if a.Release? {
      var pc := s.pcs[a.t];
      FilingIsReal(acts, s, a.t, start, expiration);
      FiledIsReal(acts + [a], s.done, s.log, pc.idx, Finish(pc, |s.log|, s.now), start, expiration);
    }
  }

  lemma FiledIsReal(acts: seq<Action>, done: map<nat, Completed>, log: seq<Event>, i: nat, c: Completed,
                    start: Time, expiration: Duration)
    requires DoneReal(acts, done, log, start, expiration)
    requires i < |log| && IsOperation(acts, i, c, log[i].at, start, expiration)
    ensures DoneReal(acts, done[i := c], log, start, expiration)
  {
  }

  lemma ClockStep(acts: seq<Action>, s: State, a: Action, start: Time, expiration: Duration)
    requires Run(acts, start, expiration) == Some(s)
    requires ThreadsOk(s, start) && ClockOk(acts, s, start, expiration) && Enabled(s, a)
    ensures ClockOk(acts + [a], Next(s, a, expiration), start, expiration)
  {
    assert (acts + [a])[..|acts|] == acts;
    AllStayTraced(acts, s, a, start, expiration);
    DoneStaysReal(acts, s, a, start, expiration);
  }

  lemma InitClock(start: Time, expiration: Duration)
    ensures ClockOk([], Init(start), start, expiration)
  {
  }

  lemma RunThreads(acts: seq<Action>, start: Time, expiration: Duration)
    requires Run(acts, start, expiration).Some?
    ensures ThreadsOk(Run(acts, start, expiration).value, start)
  {
    RunInv(acts, start, expiration);
  }

  lemma LastStep(acts: seq<Action>, start: Time, expiration: Duration)
    requires acts != [] && Run(acts, start, expiration).Some?
    ensures var front, a := acts[..|acts| - 1], acts[|acts| - 1];
            && acts == front + [a] && Run(front, start, expiration).Some?
            && Enabled(Run(front, start, expiration).value, a)
            && Run(acts, start, expiration) == Some(Next(Run(front, start, expiration).value, a, expiration))
  {
  }

  lemma {:induction false} RunClock(acts: seq<Action>, start: Time, expiration: Duration)
    requires Run(acts, start, expiration).Some?
    ensures ClockOk(acts, Run(acts, start, expiration).value, start, expiration)
  {
    if acts == [] {
      InitClock(start, expiration);
    } else {
      var front, a := acts[..|acts| - 1], acts[|acts| - 1];
      LastStep(acts, start, expiration);
      RunClock(front, start, expiration);
      RunThreads(front, start, expiration);
      ClockStep(front, Run(front, start, expiration).value, a, start, expiration);
    }
  }

  /** Under every schedule the clock is the start plus the advances; and each
      finished operation is that of a goroutine which was called with this
      request, took the lock, read the clock or looked up, and returned, in this
      order, and it carries the clock and the length of the log of those steps. */
  lemma OperationsAreReal(acts: seq<Action>, start: Time, expiration: Duration)
    requires Run(acts, start, expiration).Some?
    ensures var s := Run(acts, start, expiration).value;
            && s.now == Clock(acts, start)
            && (forall i :: i in s.done ==>
                  && i < |s.log| && s.done[i].acquiredAt <= s.log[i].at <= s.done[i].releasedAt
                  && exists w :: Operation(acts, i, s.done[i], s.log[i].at, w, start, expiration))
  {
    RunInv(acts, start, expiration);
    RunClock(acts, start, expiration);
    var s := Run(acts, start, expiration).value;
    forall i | i in s.done
      ensures exists w :: Operation(acts, i, s.done[i], s.log[i].at, w, start, expiration)
    {
      assert IsOperation(acts, i, s.done[i], s.log[i].at, start, expiration);
    }
  }

  lemma {:induction false} LogGrows(acts: seq<Action>, n: nat, start: Time, expiration: Duration)
    requires Run(acts, start, expiration).Some? && n <= |acts|
    ensures LogLength(acts[..n], start, expiration) <= LogLength(acts, start, expiration)
  {
    if n == |acts| {
      assert acts[..n] == acts;
    } else {
      var front := acts[..|acts| - 1];
      LastStep(acts, start, expiration);
      LogGrows(front, n, start, expiration);
      assert front[..n] == acts[..n];
      NextFiles(Run(front, start, expiration).value, acts[|acts| - 1], expiration);
    }
  }

  lemma {:induction false} RunPrefix(acts: seq<Action>, n: nat, start: Time, expiration: Duration)
    requires Run(acts, start, expiration).Some? && n <= |acts|
    ensures Run(acts[..n], start, expiration).Some?
  {
    if n == |acts| {
      assert acts[..n] == acts;
    } else {
      LastStep(acts, start, expiration);
      RunPrefix(acts[..|acts| - 1], n, start, expiration);
      assert acts[..|acts| - 1][..n] == acts[..n];
    }
  }

  lemma DonePlaced(acts: seq<Action>, start: Time, expiration: Duration)
    requires Run(acts, start, expiration).Some?
    ensures var s := Run(acts, start, expiration).value;
            forall i :: i in s.done ==> s.done[i].since <= i < s.done[i].until <= |s.log|
  {
    RunInv(acts, start, expiration);
  }

  /** Real time: an operation that returned before another was called comes
      before it in the history. */
  lemma RealTimeOrder(acts: seq<Action>, i: nat, j: nat, v: Trail, w: Trail, start: Time, expiration: Duration)
    requires Run(acts, start, expiration).Some?
    requires var s := Run(acts, start, expiration).value;
             && i in s.done && i < |s.log| && Operation(acts, i, s.done[i], s.log[i].at, v, start, expiration)
             && j in s.done && j < |s.log| && Operation(acts, j, s.done[j], s.log[j].at, w, start, expiration)
    requires v.release < w.call
    ensures i < j
  {
    DonePlaced(acts, start, expiration);
    var before := acts[..w.call];
    RunPrefix(acts, w.call, start, expiration);
    LogGrows(before, v.release, start, expiration);
    assert before[..v.release] == acts[..v.release];
  }

  /** A Set that a finished Get comes after has finished too. */
  lemma SetHasReturned(s: State, i: nat, j: nat)
    requires i in s.done && i < |s.log| && j < i && s.log[j].Stored?
    requires LogOwned(s) && WriterLast(s) && PendingApart(s)
    ensures j in s.done
  {
    assert Owned(s, j);
    if j !in s.done {
      var t :| t in s.pcs && HasEvent(s.pcs[t]) && s.pcs[t].idx == j;
      assert WriteLocked(s.pcs[t]);
    }
  }

  /** The goroutine that ran event i released its lock at most `period` after
      the start, or after some sweep before it took the lock. */
  ghost predicate SweptWithin(s: State, i: nat, start: Time, period: Duration)
    requires i in s.done
  {
    || s.done[i].releasedAt - start <= period
    || exists m :: m in s.done && m < i && s.done[m].q.SweepReq?
                   && s.done[i].releasedAt - s.done[m].acquiredAt <= period
  }

  lemma SweptWithinOnLog(s: State, i: nat, start: Time, expiration: Duration, period: Duration)
    requires DataOk(s, start, expiration) && DoneOk(s) && TimesOk(s)
    requires i in s.done && SweptWithin(s, i, start, period)
    ensures i < |s.log| && s.log[i].at - LastSweep(s.log[..i], start) <= period
  {
    assert Ordered(s.log[..i], start);
    LastSweepBound(s.log[..i], start);
    if s.done[i].releasedAt - start > period {
      var m :| m in s.done && m < i && s.done[m].q.SweepReq?
               && s.done[i].releasedAt - s.done[m].acquiredAt <= period;
      assert Matches(s.done[m], s.log[m]);
      LastSweepIsLast(s.log[..i], m, start);
    }
  }

  /** The Set whose value a finished Get is about has itself finished. */
  lemma SetBeforeGet(s: State, i: nat, start: Time, expiration: Duration)
    requires Inv(s, start, expiration) && i in s.done && s.done[i].q.GetReq?
    requires i < |s.log| && LatestSet(s.log[..i], s.done[i].q.k) >= 0
    ensures var j := LatestSet(s.log[..i], s.done[i].q.k);
            j in s.done && s.done[j].q == SetReq(s.done[i].q.k, s.log[j].v)
  {
    var j := LatestSet(s.log[..i], s.done[i].q.k);
    PendingIsApart(s, start);
    SetHasReturned(s, i, j);
    assert Matches(s.done[j], s.log[j]);
  }

  /** The answer of every finished Get, under every schedule: a hit exactly
      when the latest Set before it was not swept away; and, by the clock at
      which the operations took and released the lock, a hit whenever it ends
      within the expiration of that Set's beginning, and never a value older
      than the expiration plus the time since the beginning of any earlier
      sweep or the start. */
  lemma GetGuarantees(acts: seq<Action>, i: nat, start: Time, expiration: Duration, period: Duration)
    requires Run(acts, start, expiration).Some?
    requires var s := Run(acts, start, expiration).value;
             i in s.done && s.done[i].q.GetReq?
    ensures i < |Run(acts, start, expiration).value.log|
    ensures var s := Run(acts, start, expiration).value;
            var c, j := s.done[i], LatestSet(s.log[..i], s.done[i].q.k);
            && c.res == (if j >= 0 && !SweptAway(s.log[..i], j, expiration) then Some(s.log[j].v) else None)
            && (j >= 0 ==>
                  && j in s.done && s.done[j].q == SetReq(c.q.k, s.log[j].v)
                  && s.done[j].acquiredAt <= s.log[j].at <= s.done[j].releasedAt
                  && (s.log[i].at <= s.log[j].at + expiration ==> c.res == Some(s.log[j].v))
                  && (c.releasedAt <= s.done[j].acquiredAt + expiration ==> c.res == Some(s.log[j].v)))
            && (c.res.Some? && s.log[i].at - LastSweep(s.log[..i], start) <= period ==>
                  s.log[i].at - s.log[j].at <= period + if expiration > 0 then expiration else 0)
            && (c.res.Some? && SweptWithin(s, i, start, period) ==>
                  c.acquiredAt - s.done[j].releasedAt <= period + if expiration > 0 then expiration else 0)
  {
    RunInv(acts, start, expiration);
    var s := Run(acts, start, expiration).value;
    assert Matches(s.done[i], s.log[i]);
    HitIff(s.log, i, expiration);
    var j := LatestSet(s.log[..i], s.done[i].q.k);
    if j >= 0 { SetBeforeGet(s, i, start, expiration); }
    if j >= 0 && s.log[i].at <= s.log[j].at + expiration { FreshHits(s.log, i, start, expiration); }
    if SweptWithin(s, i, start, period) { SweptWithinOnLog(s, i, start, expiration, period); }
    if s.done[i].res.Some? && s.log[i].at - LastSweep(s.log[..i], start) <= period {
      StalenessBound(s.log, i, start, expiration, period);
    }
  }
}
