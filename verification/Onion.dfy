/** Handlers built by wrapping, and what a request does on its way through
    them (internal/server/router/router.go, lines 66-80, and the middleware
    files for the possible behaviours). */
module Onion {

  type Mw = nat

  /** A handler value: middleware closures around one innermost handler. */
  datatype Handler<B> = Core(core: B) | Wrap(mw: Mw, next: Handler<B>)

  /** The result of `h = mw(h)` over a chain read backwards. */
  function WrapAll<B>(chain: seq<Mw>, h: Handler<B>): Handler<B> {
    if chain == [] then h else Wrap(chain[0], WrapAll(chain[1..], h))
  }

  lemma {:induction false} WrapAllAppend<B>(a: seq<Mw>, b: seq<Mw>, h: Handler<B>)
    ensures WrapAll(a + b, h) == WrapAll(a, WrapAll(b, h))
  {
    if a == [] {
      assert a + b == b;
    } else {
      WrapAllAppend(a[1..], b, h);
      assert (a + b)[1..] == a[1..] + b;
    }
  }

  /** What one middleware does with one request. */
  datatype Behavior =
    | PassThrough   // calls next, then returns (RealIP, RealHost, AccessLog)
    | ShortCircuit  // answers without calling next (SecretKeyHeader, refused)
    | PanicBefore   // panics before calling next
    | PanicAfter    // panics after next has returned (AccessLog, label refused)
    | Recovering    // calls next under a deferred recover (Recover)

  datatype Event<!E> = Enter(mw: Mw) | Exit(mw: Mw) | Rescue(mw: Mw) | Inner(e: E)

  /** The events in order, and whether control leaves by a panic. */
  datatype Result<!E> = Result(trace: seq<Event<E>>, panics: bool)

  function Serve<B, E>(h: Handler<B>, beh: Mw -> Behavior, inner: Result<E>): Result<E> {
    match h
    case Core(_) => inner
    case Wrap(m, next) =>
      match beh(m)
      case ShortCircuit => Result([Enter(m), Exit(m)], false)
      case PanicBefore => Result([Enter(m)], true)
      case PassThrough =>
        var r := Serve(next, beh, inner);
        Result([Enter(m)] + r.trace + (if r.panics then [] else [Exit(m)]), r.panics)
      case PanicAfter =>
        var r := Serve(next, beh, inner);
        Result([Enter(m)] + r.trace, true)
      case Recovering =>
        var r := Serve(next, beh, inner);
        Result([Enter(m)] + r.trace + [if r.panics then Rescue(m) else Exit(m)], false)
  }

  function CoreOf<B>(h: Handler<B>): B {
    match h case Core(b) => b case Wrap(_, next) => CoreOf(next)
  }

  lemma {:induction false} CoreOfWrapAll<B>(chain: seq<Mw>, h: Handler<B>)
    ensures CoreOf(WrapAll(chain, h)) == CoreOf(h)
  {
    if chain == [] {
    } else {
      CoreOfWrapAll(chain[1..], h);
    }
  }

  /** Serving a handler whose innermost handler is itself a wrapped handler. */
  lemma {:induction false} ServeNested<B, C, E>(
    chain: seq<Mw>, b: B, h: Handler<C>, beh: Mw -> Behavior, inner: Result<E>)
    ensures Serve(WrapAll(chain, Core(b)), beh, Serve(h, beh, inner)) == Serve(WrapAll(chain, h), beh, inner)
  {
    if chain == [] {
    } else {
      ServeNested(chain[1..], b, h, beh, inner);
    }
  }

  // --------------------------------------------------- the trace, read by index

  predicate Stops(b: Behavior) { b.ShortCircuit? || b.PanicBefore? }

  /** How many of chain[i..] are entered: up to the first that does not call next. */
  function Entered(chain: seq<Mw>, beh: Mw -> Behavior, i: nat): (n: nat)
    requires i <= |chain|
    ensures i <= n <= |chain|
    ensures forall j :: i <= j < n - 1 ==> !Stops(beh(chain[j]))
    ensures n < |chain| ==> i < n && Stops(beh(chain[n - 1]))
    decreases |chain| - i
  {
    if i == |chain| then i
    else if Stops(beh(chain[i])) then i + 1
    else Entered(chain, beh, i + 1)
  }

  /** The innermost handler runs exactly when nothing stops the request. */
  predicate Reached(chain: seq<Mw>, beh: Mw -> Behavior) {
    forall j :: 0 <= j < |chain| ==> !Stops(beh(chain[j]))
  }

  /** A panic starts at position i: at a middleware that was entered, or, for
      i == |chain|, in the innermost handler. */
  predicate PanicStarts(chain: seq<Mw>, beh: Mw -> Behavior, innerPanics: bool, i: nat)
    requires i <= |chain|
  {
    if i == |chain| then Reached(chain, beh) && innerPanics
    else i < Entered(chain, beh, 0) && (beh(chain[i]).PanicBefore? || beh(chain[i]).PanicAfter?)
  }

  /** No Recover sits strictly between positions lo and hi. */
  predicate NoRecoverBetween(chain: seq<Mw>, beh: Mw -> Behavior, lo: nat, hi: nat)
    requires hi <= |chain|
  {
    forall l :: lo < l < hi ==> !beh(chain[l]).Recovering?
  }

  /** The call that chain[j] makes to its next handler unwinds by a panic. */
  ghost predicate NextPanics(chain: seq<Mw>, beh: Mw -> Behavior, innerPanics: bool, j: nat)
    requires j < |chain|
  {
    exists i :: j < i <= |chain| && PanicStarts(chain, beh, innerPanics, i) && NoRecoverBetween(chain, beh, j, i)
  }

  /** The event with which a middleware closes, if it closes at all. */
  function CloseOf<E>(m: Mw, b: Behavior, nextPanics: bool): seq<Event<E>> {
    match b
    case ShortCircuit => [Exit(m)]
    case PassThrough => if nextPanics then [] else [Exit(m)]
    case Recovering => [if nextPanics then Rescue(m) else Exit(m)]
    case PanicBefore => []
    case PanicAfter => []
  }

  ghost function Closing<E>(chain: seq<Mw>, beh: Mw -> Behavior, innerPanics: bool, j: nat): seq<Event<E>>
    requires j < |chain|
  {
    CloseOf(chain[j], beh(chain[j]), NextPanics(chain, beh, innerPanics, j))
  }

  function Entries<E>(chain: seq<Mw>, i: nat, n: nat): (t: seq<Event<E>>)
    requires i <= n <= |chain|
    ensures |t| == n - i && forall k :: 0 <= k < n - i ==> t[k] == Enter(chain[i + k])
    decreases n - i
  {
    if i == n then [] else [Enter(chain[i])] + Entries(chain, i + 1, n)
  }

  /** Closing events of positions n-1 down to i. */
  ghost function Closings<E>(chain: seq<Mw>, beh: Mw -> Behavior, innerPanics: bool, i: nat, n: nat): seq<Event<E>>
    requires i <= n <= |chain|
    decreases n - i
  {
    if i == n then [] else Closings(chain, beh, innerPanics, i + 1, n) + Closing(chain, beh, innerPanics, i)
  }

  /** The panic that leaves the part of the chain from position i on. */
  ghost predicate Escapes(chain: seq<Mw>, beh: Mw -> Behavior, innerPanics: bool, i: nat)
    requires i <= |chain|
  {
    exists k :: i <= k <= |chain| && PanicStarts(chain, beh, innerPanics, k)
                && (forall l :: i <= l < k ==> !beh(chain[l]).Recovering?)
  }

  lemma EscapesIsNextPanics(chain: seq<Mw>, beh: Mw -> Behavior, innerPanics: bool, i: nat)
    requires i < |chain|
    ensures Escapes(chain, beh, innerPanics, i + 1) <==> NextPanics(chain, beh, innerPanics, i)
  {
  }

  lemma EscapesStep(chain: seq<Mw>, beh: Mw -> Behavior, innerPanics: bool, i: nat)
    requires i < |chain|
    ensures Escapes(chain, beh, innerPanics, i) <==>
            PanicStarts(chain, beh, innerPanics, i) ||
            (!beh(chain[i]).Recovering? && Escapes(chain, beh, innerPanics, i + 1))
  {
  }

  lemma EnteredSuffix(chain: seq<Mw>, beh: Mw -> Behavior, i: nat, j: nat)
    requires i <= j <= |chain|
    requires forall l :: i <= l < j ==> !Stops(beh(chain[l]))
    ensures Entered(chain, beh, i) == Entered(chain, beh, j)
  {
  }

  /** A panic leaves the part of the chain from position i on exactly when one
      starts there with no Recover around it. */
  lemma {:induction false} PanicsFrom<B, E>(
    chain: seq<Mw>, h: Handler<B>, beh: Mw -> Behavior, inner: Result<E>, i: nat)
    requires h.Core?
    requires i <= |chain|
    requires forall l :: 0 <= l < i ==> !Stops(beh(chain[l]))
    ensures Serve(WrapAll(chain[i..], h), beh, inner).panics == Escapes(chain, beh, inner.panics, i)
    decreases |chain| - i
  {
    EnteredSuffix(chain, beh, 0, i);
    if i == |chain| {
      assert PanicStarts(chain, beh, inner.panics, i) == inner.panics;
    } else {
      assert chain[i..][1..] == chain[i + 1..];
      EscapesStep(chain, beh, inner.panics, i);
      if Stops(beh(chain[i])) {
        StoppedEscape(chain, beh, inner.panics, i);
      } else {
        PanicsFrom(chain, h, beh, inner, i + 1);
      }
    }
  }

  /** The events that the whole chain contributes from position i on. */
  ghost function TraceAt<E>(chain: seq<Mw>, beh: Mw -> Behavior, inner: Result<E>, i: nat): seq<Event<E>>
    requires i <= |chain|
  {
    var n := Entered(chain, beh, i);
    Entries(chain, i, n) + (if Reached(chain, beh) then inner.trace else []) + Closings(chain, beh, inner.panics, i, n)
  }

  lemma TraceAtStep<E>(chain: seq<Mw>, beh: Mw -> Behavior, inner: Result<E>, i: nat)
    requires i < |chain| && !Stops(beh(chain[i]))
    ensures TraceAt(chain, beh, inner, i)
            == [Enter(chain[i])] + TraceAt(chain, beh, inner, i + 1) + Closing(chain, beh, inner.panics, i)
  {
  }

  lemma TraceAtStop<E>(chain: seq<Mw>, beh: Mw -> Behavior, inner: Result<E>, i: nat)
    requires i < |chain| && Stops(beh(chain[i]))
    requires Entered(chain, beh, 0) == i + 1
    ensures TraceAt(chain, beh, inner, i) == [Enter(chain[i])] + Closing(chain, beh, inner.panics, i)
  {
    StoppedEscape(chain, beh, inner.panics, i);
    assert Closings<E>(chain, beh, inner.panics, i + 1, i + 1) == [];
    assert Entries<E>(chain, i, i + 1) == [Enter(chain[i])];
  }

  lemma ServeStep<B, E>(m: Mw, next: Handler<B>, beh: Mw -> Behavior, inner: Result<E>)
    ensures var r := Serve(next, beh, inner);
            Serve(Wrap(m, next), beh, inner).trace ==
            if Stops(beh(m)) then [Enter(m)] + CloseOf(m, beh(m), false)
            else [Enter(m)] + r.trace + CloseOf(m, beh(m), r.panics)
  {
  }

  lemma {:induction false} TraceFrom<B, E>(chain: seq<Mw>, h: Handler<B>, beh: Mw -> Behavior, inner: Result<E>, i: nat)
    requires h.Core?
    requires i <= |chain|
    requires forall l :: 0 <= l < i ==> !Stops(beh(chain[l]))
    ensures Serve(WrapAll(chain[i..], h), beh, inner).trace == TraceAt(chain, beh, inner, i)
    decreases |chain| - i
  {
    if i == |chain| {
      TraceAtEnd(chain, beh, inner);
    } else {
      var next := WrapAll(chain[i + 1..], h);
      assert WrapAll(chain[i..], h) == Wrap(chain[i], next) by { assert chain[i..][1..] == chain[i + 1..]; }
      ServeStep(chain[i], next, beh, inner);
      if Stops(beh(chain[i])) {
        EnteredSuffix(chain, beh, 0, i);
        TraceAtStop(chain, beh, inner, i);
      } else {
        TraceFrom(chain, h, beh, inner, i + 1);
        PanicsFrom(chain, h, beh, inner, i + 1);
        EscapesIsNextPanics(chain, beh, inner.panics, i);
        TraceAtStep(chain, beh, inner, i);
      }
    }
  }

  lemma TraceAtEnd<E>(chain: seq<Mw>, beh: Mw -> Behavior, inner: Result<E>)
    requires Reached(chain, beh)
    ensures TraceAt(chain, beh, inner, |chain|) == inner.trace
  {
  }

  lemma StoppedEscape(chain: seq<Mw>, beh: Mw -> Behavior, innerPanics: bool, i: nat)
    requires i < |chain| && Stops(beh(chain[i])) && Entered(chain, beh, 0) == i + 1
    ensures !Escapes(chain, beh, innerPanics, i + 1)
    ensures !Reached(chain, beh)
  {
  }

  /** The whole trace: entries in registration order up to the first middleware
      that does not call next, the innermost handler if nothing stopped the
      request, then closings in reverse order, where a panic drops exactly the
      exits between where it starts and the nearest Recover around it. */
  lemma WellNested<B, E>(chain: seq<Mw>, h: Handler<B>, beh: Mw -> Behavior, inner: Result<E>)
    requires h.Core?
    ensures var r := Serve(WrapAll(chain, h), beh, inner);
            var n := Entered(chain, beh, 0);
            && r.trace == Entries(chain, 0, n) + (if Reached(chain, beh) then inner.trace else [])
                          + Closings(chain, beh, inner.panics, 0, n)
            && r.panics == Escapes(chain, beh, inner.panics, 0)
  {
    assert chain[0..] == chain;
    TraceFrom(chain, h, beh, inner, 0);
    PanicsFrom(chain, h, beh, inner, 0);
  }

  // ---------------------------------------------------------- the server's stack

  const RECOVER: Mw := 0
  const REAL_IP: Mw := 1
  const REAL_HOST: Mw := 2
  const ACCESS_LOG: Mw := 3

  /** The middleware NewServer installs. */
  function GlobalStack(accessLog: bool): seq<Mw> {
    [RECOVER, REAL_IP, REAL_HOST] + if accessLog then [ACCESS_LOG] else []
  }

  /** How each of them behaves; AccessLog panics after the handler when the
      metrics library refuses a label. */
  predicate ServerBehavior(beh: Mw -> Behavior) {
    && beh(RECOVER).Recovering?
    && beh(REAL_IP).PassThrough? && beh(REAL_HOST).PassThrough?
    && (beh(ACCESS_LOG).PassThrough? || beh(ACCESS_LOG).PanicAfter?)
  }

  function WithAccessLog<B>(accessLog: bool, h: Handler<B>): Handler<B> {
    if accessLog then Wrap(ACCESS_LOG, h) else h
  }

  lemma StackHandler<B>(accessLog: bool, h: Handler<B>)
    ensures WrapAll(GlobalStack(accessLog), h)
         == Wrap(RECOVER, Wrap(REAL_IP, Wrap(REAL_HOST, WithAccessLog(accessLog, h))))
  {
    var last := if accessLog then [ACCESS_LOG] else [];
    assert WrapAll(last, h) == WithAccessLog(accessLog, h);
    assert ([REAL_HOST] + last)[1..] == last;
    assert ([REAL_IP, REAL_HOST] + last)[1..] == [REAL_HOST] + last;
    assert WrapAll([REAL_IP, REAL_HOST] + last, h) == Wrap(REAL_IP, WrapAll([REAL_HOST] + last, h));
    assert GlobalStack(accessLog)[1..] == [REAL_IP, REAL_HOST] + last;
  }

  lemma ThroughAccessLog<B, E>(accessLog: bool, h: Handler<B>, beh: Mw -> Behavior, inner: Result<E>)
    requires ServerBehavior(beh)
    ensures var below := Serve(h, beh, inner);
            var panics := below.panics || (accessLog && beh(ACCESS_LOG).PanicAfter?);
            Serve(WithAccessLog(accessLog, h), beh, inner) ==
            Result((if accessLog then [Enter(ACCESS_LOG)] else []) + below.trace
                   + (if accessLog && !panics then [Exit(ACCESS_LOG)] else []), panics)
  {
  }

  lemma ThroughOne<B, E>(m: Mw, h: Handler<B>, beh: Mw -> Behavior, inner: Result<E>)
    requires beh(m).PassThrough?
    ensures var r := Serve(h, beh, inner);
            Serve(Wrap(m, h), beh, inner)
            == Result([Enter(m)] + r.trace + (if r.panics then [] else [Exit(m)]), r.panics)
  {
  }

  lemma ThroughOuter<B, E>(h: Handler<B>, beh: Mw -> Behavior, inner: Result<E>)
    requires ServerBehavior(beh)
    ensures var r := Serve(h, beh, inner);
            Serve(Wrap(RECOVER, Wrap(REAL_IP, Wrap(REAL_HOST, h))), beh, inner) ==
            Result([Enter(RECOVER), Enter(REAL_IP), Enter(REAL_HOST)] + r.trace
                   + (if r.panics then [Rescue(RECOVER)] else [Exit(REAL_HOST), Exit(REAL_IP), Exit(RECOVER)]), false)
  {
    ThroughOne(REAL_HOST, h, beh, inner);
    ThroughOne(REAL_IP, Wrap(REAL_HOST, h), beh, inner);
  }

  /** Under the installed stack, with or without AccessLog, no panic leaves the
      server, and a request is either finished by every middleware or rescued by
      Recover, never both. */
  lemma ServerStack<B, E>(accessLog: bool, h: Handler<B>, beh: Mw -> Behavior, inner: Result<E>)
    requires ServerBehavior(beh)
    ensures var below := Serve(h, beh, inner);
            var panics := below.panics || (accessLog && beh(ACCESS_LOG).PanicAfter?);
            Serve(WrapAll(GlobalStack(accessLog), h), beh, inner) ==
            Result([Enter(RECOVER), Enter(REAL_IP), Enter(REAL_HOST)]
                   + ((if accessLog then [Enter(ACCESS_LOG)] else []) + below.trace
                      + (if accessLog && !panics then [Exit(ACCESS_LOG)] else []))
                   + (if panics then [Rescue(RECOVER)] else [Exit(REAL_HOST), Exit(REAL_IP), Exit(RECOVER)]), false)
  {
    StackHandler(accessLog, h);
    ThroughAccessLog(accessLog, h, beh, inner);
    ThroughOuter(WithAccessLog(accessLog, h), beh, inner);
  }
}
