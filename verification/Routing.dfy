/** The routers that share one mux, as values: what each call does to them,
    and the lexical reading of a whole registration history
    (internal/server/router/router.go). */
module Routing {
  import opened Onion

  type Pattern = string
  type Name = nat        // a handler function
  type ErrHandler = nat  // an error-handler function
  type RouterId = nat    // a *Router: its position in the list of routers created

  const ROOT: RouterId := 0
  const DEFAULT_ERROR_HANDLER: ErrHandler := 0

  /** The innermost handler of a route: a plain http.Handler, or a HandlerFunc
      wrapped by wrapHandlerFunc, which remembers the router it was called on. */
  datatype Endpoint = Plain(name: Name) | Fallible(name: Name, owner: RouterId)

  datatype RouterState = RouterState(
    globalChain: seq<Mw>,
    routeChain: seq<Mw>,
    isSubRouter: bool,
    errorHandler: ErrHandler)

  datatype State = State(routers: seq<RouterState>, mux: map<Pattern, Handler<Endpoint>>)

  datatype Op =
    | Use(r: RouterId, mws: seq<Mw>)
    | Group(r: RouterId)
    | SetErrorHandler(r: RouterId, eh: ErrHandler)
    | Handle(r: RouterId, pattern: Pattern, name: Name)
    | HandleFunc(r: RouterId, pattern: Pattern, name: Name)

  const INIT := State([RouterState([], [], false, DEFAULT_ERROR_HANDLER)], map[])

  predicate Registers(op: Op) { op.Handle? || op.HandleFunc? }

  function EndpointOf(op: Op): Endpoint
    requires Registers(op)
  {
    if op.Handle? then Plain(op.name) else Fallible(op.name, op.r)
  }

  /** One call. A pattern that is already registered makes the mux panic
      before it stores anything. */
  function Step(s: State, op: Op): State
    requires op.r < |s.routers|
  {
    var me := s.routers[op.r];
    match op
    case Use(r, mws) =>
      s.(routers := s.routers[r := if me.isSubRouter then me.(routeChain := me.routeChain + mws)
                                   else me.(globalChain := me.globalChain + mws)])
    case Group(_) =>
      s.(routers := s.routers + [RouterState([], me.routeChain, true, me.errorHandler)])
    case SetErrorHandler(r, eh) =>
      s.(routers := s.routers[r := me.(errorHandler := eh)])
    case _ =>
      if op.pattern in s.mux then s
      else s.(mux := s.mux[op.pattern := WrapAll(me.routeChain, Core(EndpointOf(op)))])
  }

  function Front(ops: seq<Op>): seq<Op>
    requires ops != []
  {
    ops[..|ops| - 1]
  }

  function Last(ops: seq<Op>): Op
    requires ops != []
  {
    ops[|ops| - 1]
  }

  function RouterCount(ops: seq<Op>): (n: nat)
    ensures n >= 1
  {
    if ops == [] then 1 else RouterCount(Front(ops)) + if Last(ops).Group? then 1 else 0
  }

  /** Every call is made on a router that exists by then. */
  predicate WellFormed(ops: seq<Op>) {
    ops != [] ==> WellFormed(Front(ops)) && Last(ops).r < RouterCount(Front(ops))
  }

  function Run(ops: seq<Op>): (s: State)
    requires WellFormed(ops)
    ensures |s.routers| == RouterCount(ops)
  {
    if ops == [] then INIT else Step(Run(Front(ops)), Last(ops))
  }

  // --------------------------------------------------------- the lexical reading

  /** The call that created router r. */
  function CreatedAt(ops: seq<Op>, r: RouterId): (k: nat)
    requires WellFormed(ops) && 0 < r < RouterCount(ops)
    ensures k < |ops| && ops[k].Group? && WellFormed(ops[..k]) && RouterCount(ops[..k]) == r
    ensures ops[k].r < r
  {
    if Last(ops).Group? && RouterCount(Front(ops)) == r then |ops| - 1
    else
      var k := CreatedAt(Front(ops), r);
      assert ops[..k] == Front(ops)[..k];
      k
  }

  /** Everything added to router r in this stretch of calls, in order. */
  function UsesOf(ops: seq<Op>, r: RouterId): seq<Mw> {
    if ops == [] then []
    else UsesOf(Front(ops), r) + if Last(ops).Use? && Last(ops).r == r then Last(ops).mws else []
  }

  /** Route middleware in scope at router r: what was in scope at the Group
      call that made it, then what was added to it since. */
  function ScopeOf(ops: seq<Op>, r: RouterId): seq<Mw>
    requires WellFormed(ops) && r < RouterCount(ops)
    decreases |ops|
  {
    if r == ROOT then []
    else
      var k := CreatedAt(ops, r);
      ScopeOf(ops[..k], ops[k].r) + UsesOf(ops[k + 1..], r)
  }

  /** The last handler set on router r in this stretch of calls. */
  function LastSet(ops: seq<Op>, r: RouterId, otherwise: ErrHandler): ErrHandler {
    if ops == [] then otherwise
    else if Last(ops).SetErrorHandler? && Last(ops).r == r then Last(ops).eh
    else LastSet(Front(ops), r, otherwise)
  }

  /** The handler that router r's errors go to: the last one set on it, or the
      one its parent had at the moment of the Group call. */
  function ErrorScopeOf(ops: seq<Op>, r: RouterId): ErrHandler
    requires WellFormed(ops) && r < RouterCount(ops)
    decreases |ops|
  {
    if r == ROOT then LastSet(ops, r, DEFAULT_ERROR_HANDLER)
    else
      var k := CreatedAt(ops, r);
      LastSet(ops[k + 1..], r, ErrorScopeOf(ops[..k], ops[k].r))
  }

  lemma FrontOfParts(ops: seq<Op>, k: nat)
    requires k + 1 < |ops|
    ensures ops[..k] == Front(ops)[..k] && ops[k] == Front(ops)[k]
    ensures Front(ops[k + 1..]) == Front(ops)[k + 1..] && Last(ops[k + 1..]) == Last(ops)
  {
  }

  lemma CreationIsFixed(ops: seq<Op>, r: RouterId)
    requires WellFormed(ops) && ops != [] && 0 < r < RouterCount(Front(ops))
    ensures var k := CreatedAt(ops, r);
            && k == CreatedAt(Front(ops), r)
            && ops[..k] == Front(ops)[..k] && ops[k] == Front(ops)[k]
            && Front(ops[k + 1..]) == Front(ops)[k + 1..] && Last(ops[k + 1..]) == Last(ops)
  {
    FrontOfParts(ops, CreatedAt(Front(ops), r));
  }

  lemma UsesStep(ops: seq<Op>, r: RouterId, k: nat)
    requires k < |ops|
    requires Front(ops[k..]) == Front(ops)[k..] && Last(ops[k..]) == Last(ops)
    ensures UsesOf(ops[k..], r)
         == UsesOf(Front(ops)[k..], r) + if Last(ops).Use? && Last(ops).r == r then Last(ops).mws else []
  {
  }

  lemma ScopeUnfolds(ops: seq<Op>, r: RouterId)
    requires WellFormed(ops) && 0 < r < RouterCount(ops)
    ensures var k := CreatedAt(ops, r);
            ScopeOf(ops, r) == ScopeOf(ops[..k], ops[k].r) + UsesOf(ops[k + 1..], r)
  {
  }

  lemma Associative(a: seq<Mw>, b: seq<Mw>, c: seq<Mw>)
    ensures a + (b + c) == a + b + c
  {
  }

  lemma ScopeStep(ops: seq<Op>, r: RouterId)
    requires WellFormed(ops) && ops != [] && 0 < r < RouterCount(Front(ops))
    ensures ScopeOf(ops, r) ==
            ScopeOf(Front(ops), r) + if Last(ops).Use? && Last(ops).r == r then Last(ops).mws else []
  {
    CreationIsFixed(ops, r);
    var front, k := Front(ops), CreatedAt(ops, r);
    var before, parent := ops[..k], ops[k].r;
    var added := if Last(ops).Use? && Last(ops).r == r then Last(ops).mws else [];
    var outer := ScopeOf(before, parent);
    UsesStep(ops, r, k + 1);
    ScopeUnfolds(ops, r);
    ScopeUnfolds(front, r);
    Associative(outer, UsesOf(front[k + 1..], r), added);
  }

  lemma ErrorScopeStep(ops: seq<Op>, r: RouterId)
    requires WellFormed(ops) && ops != [] && 0 < r < RouterCount(Front(ops))
    ensures ErrorScopeOf(ops, r) ==
            if Last(ops).SetErrorHandler? && Last(ops).r == r then Last(ops).eh else ErrorScopeOf(Front(ops), r)
  {
    CreationIsFixed(ops, r);
    var k := CreatedAt(ops, r);
    var outer := ErrorScopeOf(ops[..k], ops[k].r);
    assert ErrorScopeOf(ops, r) == LastSet(ops[k + 1..], r, outer);
    assert ErrorScopeOf(Front(ops), r) == LastSet(Front(ops)[k + 1..], r, outer);
  }

  lemma HistoryOfNewRouter(ops: seq<Op>)
    requires WellFormed(ops) && ops != [] && Last(ops).Group?
    ensures var r := RouterCount(Front(ops));
            && ScopeOf(ops, r) == ScopeOf(Front(ops), Last(ops).r)
            && ErrorScopeOf(ops, r) == ErrorScopeOf(Front(ops), Last(ops).r)
  {
  }

  /** Every field of every router, read off the history of calls. */
  lemma {:induction false} RoutersAreLexical(ops: seq<Op>, r: RouterId)
    requires WellFormed(ops) && r < RouterCount(ops)
    ensures Run(ops).routers[r] ==
            RouterState(if r == ROOT then UsesOf(ops, ROOT) else [], ScopeOf(ops, r), r != ROOT, ErrorScopeOf(ops, r))
    decreases |ops|
  {
    if ops == [] {
    } else {
      if r == RouterCount(Front(ops)) {
        RoutersAreLexical(Front(ops), Last(ops).r);
        HistoryOfNewRouter(ops);
      } else {
        RoutersAreLexical(Front(ops), r);
        if r != ROOT { ScopeStep(ops, r); ErrorScopeStep(ops, r); }
      }
    }
  }

  /** The call that put a pattern into the mux: the first to register it. */
  function RegisteredAt(ops: seq<Op>, p: Pattern): (k: int)
    requires WellFormed(ops)
    ensures -1 <= k < |ops|
    ensures k == -1 <==> forall j :: 0 <= j < |ops| && Registers(ops[j]) ==> ops[j].pattern != p
    ensures k >= 0 ==> Registers(ops[k]) && ops[k].pattern == p && WellFormed(ops[..k])
    ensures k >= 0 ==> ops[k].r < RouterCount(ops[..k]) <= RouterCount(ops)
    ensures k >= 0 ==> forall j :: 0 <= j < k && Registers(ops[j]) ==> ops[j].pattern != p
  {
    if ops == [] then -1
    else
      var front := Front(ops);
      var k := RegisteredAt(front, p);
      assert ops == front + [Last(ops)];
      assert k >= 0 ==> ops[..k] == front[..k];
      if k >= 0 then k
      else if Registers(Last(ops)) && Last(ops).pattern == p then |ops| - 1
      else -1
  }

  lemma RegisteredStep(ops: seq<Op>, p: Pattern)
    requires WellFormed(ops) && ops != []
    ensures var front, last := Front(ops), Last(ops);
            var k := RegisteredAt(front, p);
            && ops[..|front|] == front && ops[|front|] == last
            && (k >= 0 ==> RegisteredAt(ops, p) == k && ops[..k] == front[..k] && ops[k] == front[k])
            && (k == -1 ==> RegisteredAt(ops, p) == if Registers(last) && last.pattern == p then |front| else -1)
  {
  }

  /** The mux holds, for each registered pattern, the route wrapped in exactly
      the middleware in scope at the call that registered it: a plain handler
      for Handle; for HandleFunc one that reports its errors to the router it
      was called on. */
  lemma {:induction false} MuxIsLexical(ops: seq<Op>, p: Pattern)
    requires WellFormed(ops)
    ensures var k := RegisteredAt(ops, p);
            && (p in Run(ops).mux <==> k >= 0)
            && (k >= 0 ==>
                  var e := if ops[k].HandleFunc? then Fallible(ops[k].name, ops[k].r) else Plain(ops[k].name);
                  Run(ops).mux[p] == WrapAll(ScopeOf(ops[..k], ops[k].r), Core(e)))
  {
    if ops == [] {
    } else {
      var front, last := Front(ops), Last(ops);
      MuxIsLexical(front, p);
      var k := RegisteredAt(front, p);
      RegisteredStep(ops, p);
      if k == -1 && Registers(last) && last.pattern == p {
        RoutersAreLexical(front, last.r);
        assert Run(ops).mux[p] == WrapAll(Run(front).routers[last.r].routeChain, Core(EndpointOf(last)));
      } else {
        assert p in Run(ops).mux <==> p in Run(front).mux;
        assert k >= 0 ==> Run(ops).mux[p] == Run(front).mux[p];
      }
    }
  }

  // --------------------------------------------------------------------- serving

  datatype Outcome = Ok | Fail | Panic

  /** One request: the pattern it matches, what each middleware and handler
      does with it, and whether an error handler panics on it. */
  datatype Request = Request(path: Pattern, beh: Mw -> Behavior, outcome: Name -> Outcome, ehPanics: ErrHandler -> bool)

  datatype Call = Called(name: Name) | ErrorTo(eh: ErrHandler) | NotFoundPage

  datatype MuxRef = MuxRef

  /** The innermost handler; `eh` is the handler its owner has at that moment. */
  function RunEndpoint(e: Endpoint, eh: ErrHandler, req: Request): Result<Call> {
    match req.outcome(e.name)
    case Ok => Result([Inner(Called(e.name))], false)
    case Panic => Result([Inner(Called(e.name))], true)
    case Fail =>
      if e.Plain? then Result([Inner(Called(e.name))], false)
      else Result([Inner(Called(e.name)), Inner(ErrorTo(eh))], req.ehPanics(eh))
  }

  /** Late read through the captured router pointer. */
  function HandlerNow(s: State, e: Endpoint): ErrHandler {
    if e.Fallible? && e.owner < |s.routers| then s.routers[e.owner].errorHandler else DEFAULT_ERROR_HANDLER
  }

  function ServeMux(s: State, req: Request): Result<Call> {
    if req.path in s.mux then
      var route := s.mux[req.path];
      Serve(route, req.beh, RunEndpoint(CoreOf(route), HandlerNow(s, CoreOf(route)), req))
    else Result([Inner(NotFoundPage)], false)
  }

  /** Global middleware is wrapped around the mux afresh for every request. */
  function ServeHTTP(s: State, r: RouterId, req: Request): Result<Call>
    requires r < |s.routers|
  {
    Serve(WrapAll(s.routers[r].globalChain, Core(MuxRef)), req.beh, ServeMux(s, req))
  }

  /** The simple interpreter: it reads the history alone, keeps no router
      state and wraps nothing early. A matched request passes all global
      middleware ever added, then the middleware in scope where its route was
      registered, then the handler, whose error goes to the handler its router
      has at the end of the history. */
  function ServeLexically(ops: seq<Op>, r: RouterId, req: Request): Result<Call>
    requires WellFormed(ops) && r < RouterCount(ops)
  {
    var global := if r == ROOT then UsesOf(ops, ROOT) else [];
    var k := RegisteredAt(ops, req.path);
    if k == -1 then Serve(WrapAll(global, Core(MuxRef)), req.beh, Result([Inner(NotFoundPage)], false))
    else
      var e := if ops[k].HandleFunc? then Fallible(ops[k].name, ops[k].r) else Plain(ops[k].name);
      var inner := RunEndpoint(e, ErrorScopeOf(ops, ops[k].r), req);
      Serve(WrapAll(global + ScopeOf(ops[..k], ops[k].r), Core(e)), req.beh, inner)
  }

  /** Eager wrapping at registration followed by wrapping at each request
      serves every request as the lexical interpreter does. */
  lemma ServesLexically(ops: seq<Op>, r: RouterId, req: Request)
    requires WellFormed(ops) && r < RouterCount(ops)
    ensures ServeHTTP(Run(ops), r, req) == ServeLexically(ops, r, req)
  {
    var s := Run(ops);
    var global := if r == ROOT then UsesOf(ops, ROOT) else [];
    var k := RegisteredAt(ops, req.path);
    assert s.routers[r].globalChain == global by { RoutersAreLexical(ops, r); }
    MuxIsLexical(ops, req.path);
    if k >= 0 {
      var e := EndpointOf(ops[k]);
      assert s.routers[ops[k].r].errorHandler == ErrorScopeOf(ops, ops[k].r) by { RoutersAreLexical(ops, ops[k].r); }
      EagerThenLate(s, global, ScopeOf(ops[..k], ops[k].r), e, ErrorScopeOf(ops, ops[k].r), req);
    }
  }

  lemma EagerThenLate(s: State, global: seq<Mw>, scope: seq<Mw>, e: Endpoint, eh: ErrHandler, req: Request)
    requires req.path in s.mux && s.mux[req.path] == WrapAll(scope, Core(e))
    requires e.Fallible? ==> eh == HandlerNow(s, e)
    ensures Serve(WrapAll(global, Core(MuxRef)), req.beh, ServeMux(s, req))
            == Serve(WrapAll(global + scope, Core(e)), req.beh, RunEndpoint(e, eh, req))
  {
    var route := WrapAll(scope, Core(e));
    var inner := RunEndpoint(e, eh, req);
    assert inner == RunEndpoint(e, HandlerNow(s, e), req);
    CoreOfWrapAll(scope, Core(e));
    ServeNested(global, MuxRef, route, req.beh, inner);
    WrapAllAppend(global, scope, Core(e));
  }

  /** Middleware added after a route: on the root it still wraps the route, on
      a group it no longer does. */
  lemma UseAfterRoute(ops: seq<Op>, r: RouterId, mws: seq<Mw>, req: Request)
    requires WellFormed(ops) && r < RouterCount(ops) && RegisteredAt(ops, req.path) >= 0
    ensures WellFormed(ops + [Use(r, mws)])
    ensures var k := RegisteredAt(ops, req.path);
            var e := if ops[k].HandleFunc? then Fallible(ops[k].name, ops[k].r) else Plain(ops[k].name);
            var chain := UsesOf(ops, ROOT) + (if r == ROOT then mws else []) + ScopeOf(ops[..k], ops[k].r);
            ServeHTTP(Run(ops + [Use(r, mws)]), ROOT, req)
            == Serve(WrapAll(chain, Core(e)), req.beh, RunEndpoint(e, ErrorScopeOf(ops, ops[k].r), req))
  {
    var later := ops + [Use(r, mws)];
    assert Front(later) == ops;
    ServesLexically(later, ROOT, req);
    var k := RegisteredAt(ops, req.path);
    assert RegisteredAt(later, req.path) == k && later[..k] == ops[..k] && later[k] == ops[k];
    assert UsesOf(later, ROOT) == UsesOf(ops, ROOT) + if r == ROOT then mws else [];
    assert ErrorScopeOf(later, ops[k].r) == ErrorScopeOf(ops, ops[k].r) by {
      if ops[k].r != ROOT { ErrorScopeStep(later, ops[k].r); }
    }
  }

  /** What the route of a matched request does once it is reached: the handler
      runs; an error of a HandleFunc route goes to the error handler given. */
  lemma ReachedRoute(op: Op, eh: ErrHandler, req: Request)
    requires Registers(op)
    ensures var fails := op.HandleFunc? && req.outcome(op.name).Fail?;
            RunEndpoint(EndpointOf(op), eh, req) ==
            Result(if fails then [Inner(Called(op.name)), Inner(ErrorTo(eh))] else [Inner(Called(op.name))],
                   req.outcome(op.name).Panic? || (fails && req.ehPanics(eh)))
  {
  }

  /** The whole trace of any request on the root router: it enters, in order,
      the global middleware and, when it matches a route, the middleware in
      scope at the call that registered it, up to the first that does not call
      next. If none stops it the handler runs, and an error of a HandleFunc
      route goes to the handler that its router has now; without a match the
      mux answers. Then the entered middleware closes in reverse order. */
  lemma RequestTrace(ops: seq<Op>, req: Request)
    requires WellFormed(ops)
    ensures var k := RegisteredAt(ops, req.path);
            var scope := if k == -1 then [] else ScopeOf(ops[..k], ops[k].r);
            var chain := UsesOf(ops, ROOT) + scope;
            var n := Entered(chain, req.beh, 0);
            var fails := k >= 0 && ops[k].HandleFunc? && req.outcome(ops[k].name).Fail?;
            var inner :=
              if k == -1 then [Inner(NotFoundPage)]
              else if fails then [Inner(Called(ops[k].name)), Inner(ErrorTo(ErrorScopeOf(ops, ops[k].r)))]
              else [Inner(Called(ops[k].name))];
            var panics := k >= 0 && (req.outcome(ops[k].name).Panic?
                                     || (fails && req.ehPanics(ErrorScopeOf(ops, ops[k].r))));
            && ServeHTTP(Run(ops), ROOT, req).trace ==
                 Entries(chain, 0, n) + (if Reached(chain, req.beh) then inner else [])
                 + Closings(chain, req.beh, panics, 0, n)
            && (ServeHTTP(Run(ops), ROOT, req).panics <==> Escapes(chain, req.beh, panics, 0))
  {
    ServesLexically(ops, ROOT, req);
    var k := RegisteredAt(ops, req.path);
    if k == -1 {
      assert UsesOf(ops, ROOT) + [] == UsesOf(ops, ROOT);
      WellNested(UsesOf(ops, ROOT), Core(MuxRef), req.beh, Result([Inner(NotFoundPage)], false));
    } else {
      var e, eh := EndpointOf(ops[k]), ErrorScopeOf(ops, ops[k].r);
      ReachedRoute(ops[k], eh, req);
      WellNested(UsesOf(ops, ROOT) + ScopeOf(ops[..k], ops[k].r), Core(e), req.beh, RunEndpoint(e, eh, req));
    }
  }
}
