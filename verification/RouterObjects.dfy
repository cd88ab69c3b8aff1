/** The routers of internal/server/router/router.go as objects whose chains are
    slices, and the proof that they behave as the values of Routing. */
module RouterObjects {
  import opened Onion
  import opened Routing
  import opened GoSlice

  /** http.ServeMux, reduced to its table of patterns. */
  class Mux {
    var table: map<Pattern, Handler<Endpoint>>

    constructor ()
      ensures table == map[]
    {
      table := map[];
    }

    /** Panics, and stores nothing, when the pattern is taken. */
    method Handle(pattern: Pattern, h: Handler<Endpoint>) returns (panics: bool)
      modifies this
      ensures panics == (pattern in old(table))
      ensures table == if panics then old(table) else old(table)[pattern := h]
    {
      panics := pattern in table;
      if !panics { table := table[pattern := h]; }
    }
  }

  class Router {
    var globalChain: Slice<Mw>
    var routeChain: Slice<Mw>
    var errorHandler: ErrHandler
    const isSubRouter: bool
    const mux: Mux
    const id: RouterId  // stands for the pointer that wrapHandlerFunc captures

    predicate Valid()
      reads this
    {
      globalChain.Tight() && routeChain.Tight()
      && if isSubRouter then globalChain.cap == 0 else routeChain.cap == 0
    }

    /** The slice that Use appends to. */
    function Chain(): Slice<Mw>
      reads this
    {
      if isSubRouter then routeChain else globalChain
    }

    ghost predicate Is(s: RouterState)
      reads this, globalChain.arr, routeChain.arr
    {
      Valid() && s == RouterState(globalChain.Contents(), routeChain.Contents(), isSubRouter, errorHandler)
    }

    constructor New()
      ensures Valid() && fresh(mux) && mux.table == map[] && id == ROOT && !isSubRouter
      ensures fresh(globalChain.arr) && fresh(routeChain.arr) && globalChain.cap == 0
      ensures Is(INIT.routers[0])
    {
      var none := new Mw[0];
      globalChain, routeChain := Slice(none, 0, 0), Slice(none, 0, 0);
      isSubRouter, id := false, ROOT;
      mux := new Mux();
      errorHandler := DEFAULT_ERROR_HANDLER;
    }

    constructor Sub(routeChain: Slice<Mw>, mux: Mux, errorHandler: ErrHandler, id: RouterId)
      requires routeChain.Tight()
      ensures Valid() && this.mux == mux && this.id == id && isSubRouter && this.routeChain == routeChain
      ensures fresh(globalChain.arr)
      ensures Is(RouterState([], routeChain.Contents(), true, errorHandler))
    {
      var none := new Mw[0];
      this.globalChain, this.routeChain := Slice(none, 0, 0), routeChain;
      this.isSubRouter, this.mux, this.id := true, mux, id;
      this.errorHandler := errorHandler;
    }

    method SetErrorHandler(eh: ErrHandler)
      requires Valid()
      modifies this`errorHandler
      ensures Valid() && errorHandler == eh
    {
      errorHandler := eh;
    }

    method Use(mws: seq<Mw>)
      requires Valid()
      modifies this, if Chain().cap > 0 then {Chain().arr} else {}
      ensures Valid() && errorHandler == old(errorHandler)
      ensures Chain().Contents() == old(Chain().Contents()) + mws
      ensures isSubRouter ==> globalChain == old(globalChain)
      ensures !isSubRouter ==> routeChain == old(routeChain)
      ensures Chain().arr == old(Chain().arr) || fresh(Chain().arr)
      ensures fresh(Chain().arr) || Chain().cap == old(Chain().cap)
    {
      if isSubRouter {
        routeChain := Append(routeChain, mws);
      } else {
        globalChain := Append(globalChain, mws);
      }
    }

    /** The sub-router that Group hands to its callback. */
    method Group(newId: RouterId) returns (sub: Router)
      requires Valid()
      ensures fresh(sub) && sub.Valid() && sub.mux == mux && sub.id == newId && sub.isSubRouter
      ensures fresh(sub.globalChain.arr)
      ensures fresh(sub.routeChain.arr) || (sub.routeChain.arr == routeChain.arr && sub.routeChain.cap == 0)
      ensures sub.Is(RouterState([], routeChain.Contents(), true, errorHandler))
    {
      var chain := Clone(routeChain);
      sub := new Router.Sub(chain, mux, errorHandler, newId);
    }

    function WrapHandlerFunc(name: Name): Endpoint { Fallible(name, id) }

    method HandleFunc(pattern: Pattern, name: Name) returns (panics: bool)
      requires Valid()
      modifies mux
      ensures panics == (pattern in old(mux.table))
      ensures mux.table == if panics then old(mux.table)
                           else old(mux.table)[pattern := WrapAll(routeChain.Contents(), Core(Fallible(name, id)))]
    {
      panics := Handle(pattern, WrapHandlerFunc(name));
    }

    method Handle(pattern: Pattern, e: Endpoint) returns (panics: bool)
      requires Valid()
      modifies mux
      ensures panics == (pattern in old(mux.table))
      ensures mux.table == if panics then old(mux.table)
                           else old(mux.table)[pattern := WrapAll(routeChain.Contents(), Core(e))]
    {
      var h := Core(e);
      var i := routeChain.len;
      while i > 0
        invariant 0 <= i <= routeChain.len
        invariant h == WrapAll(routeChain.arr[i..routeChain.len], Core(e))
      {
        i := i - 1;
        h := Wrap(routeChain.arr[i], h);
        assert routeChain.arr[i..routeChain.len][1..] == routeChain.arr[i + 1..routeChain.len];
      }
      assert routeChain.arr[0..routeChain.len] == routeChain.Contents();
      panics := mux.Handle(pattern, h);
    }

    /** The handler that ServeHTTP builds for one request. */
    method BuildForRequest() returns (h: Handler<MuxRef>)
      requires Valid()
      ensures h == WrapAll(globalChain.Contents(), Core(MuxRef))
    {
      h := Core(MuxRef);
      var i := globalChain.len;
      while i > 0
        invariant 0 <= i <= globalChain.len
        invariant h == WrapAll(globalChain.arr[i..globalChain.len], Core(MuxRef))
      {
        i := i - 1;
        h := Wrap(globalChain.arr[i], h);
        assert globalChain.arr[i..globalChain.len][1..] == globalChain.arr[i + 1..globalChain.len];
      }
      assert globalChain.arr[0..globalChain.len] == globalChain.Contents();
    }
  }

  /** All routers over one mux, in the order of their creation. */
  class Site {
    var routers: seq<Router>
    const mux: Mux
    ghost var Repr: set<object>
    ghost var writer: map<array<Mw>, RouterId>

    /** The i-th router: its objects are part of the site, and only it may
        write to the array of its chain. */
    ghost predicate Owns(r: Router, i: RouterId)
      reads this, Repr
    {
      && r in Repr && r.globalChain.arr in Repr && r.routeChain.arr in Repr
      && r.Valid() && r.mux == mux && r.id == i
      && (r.Chain().cap > 0 ==> r.Chain().arr in writer && writer[r.Chain().arr] == i)
    }

    /** Two routers whose chains, where they can be written to, lie in two arrays. */
    predicate Apart(a: Router, b: Router)
      reads a, b
    {
      a.Chain().cap > 0 && b.Chain().cap > 0 ==> a.Chain().arr != b.Chain().arr
    }

    ghost predicate Valid()
      reads this, Repr
    {
      && this in Repr && mux in Repr && |routers| > 0
      && forall i :: 0 <= i < |routers| ==> Owns(routers[i], i)
    }

    /** Two routers share a backing array only when neither of them, nor anyone
        else, could write to it: it is empty. */
    lemma ChainsAreSeparate(i: RouterId, j: RouterId, c: Slice<Mw>, d: Slice<Mw>)
      requires Valid() && i < j < |routers|
      requires c == routers[i].globalChain || c == routers[i].routeChain
      requires d == routers[j].globalChain || d == routers[j].routeChain
      ensures c.arr == d.arr ==> c.cap == d.cap == c.arr.Length == 0
    {
      assert Owns(routers[i], i) && Owns(routers[j], j);
    }

    ghost predicate Represents(s: State)
      reads this, mux, routers, set r | r in routers :: r.globalChain.arr, set r | r in routers :: r.routeChain.arr
    {
      && |routers| == |s.routers| && mux.table == s.mux
      && forall i :: 0 <= i < |routers| ==> routers[i].Is(s.routers[i])
    }

    constructor ()
      ensures Valid() && fresh(Repr)
      ensures Represents(INIT)
    {
      var root := new Router.New();
      routers := [root];
      mux := root.mux;
      writer := map[];
      new;
      Repr := {this, root, root.mux, root.globalChain.arr, root.routeChain.arr};
    }

    /** Records the arrays of the one router whose slices are new. */
    ghost method Adopt(r: RouterId)
      requires this in Repr && mux in Repr && r < |routers|
      requires routers[r].Valid() && routers[r].mux == mux && routers[r].id == r
      requires forall i :: 0 <= i < |routers| && i != r ==>
                 Owns(routers[i], i) && Apart(routers[i], routers[r])
      modifies this`Repr, this`writer
      ensures Valid()
      ensures Repr == old(Repr) + {routers[r], routers[r].globalChain.arr, routers[r].routeChain.arr}
    {
      var me := routers[r];
      Repr := Repr + {me, me.globalChain.arr, me.routeChain.arr};
      writer := if me.Chain().cap > 0 then writer[me.Chain().arr := r] else writer;
      forall i | 0 <= i < |routers| ensures Owns(routers[i], i) {
        assert i != r ==> old(Owns(routers[i], i));
      }
    }

    /** The append itself: every other router keeps its state. */
    method UseOn(r: RouterId, mws: seq<Mw>, ghost s: State)
      requires Valid() && Represents(s) && r < |routers|
      modifies routers[r], if routers[r].Chain().cap > 0 then {routers[r].Chain().arr} else {}
      ensures var me := routers[r];
              && me.Is(Step(s, Op.Use(r, mws)).routers[r])
              && (fresh(me.globalChain.arr) || me.globalChain.arr == old(me.globalChain.arr))
              && (fresh(me.routeChain.arr) || me.routeChain.arr == old(me.routeChain.arr))
      ensures forall i :: 0 <= i < |routers| && i != r ==>
                routers[i].Is(s.routers[i]) && Owns(routers[i], i) && Apart(routers[i], routers[r])
    {
      var me := routers[r];
      assert Owns(me, r);
      me.Use(mws);
      forall i | 0 <= i < |routers| && i != r
        ensures routers[i].Is(s.routers[i]) && Owns(routers[i], i) && Apart(routers[i], me)
      {
        var o := routers[i];
        assert old(Owns(o, i)) && o != me;
        assert o.globalChain.Contents() == old(o.globalChain.Contents());
        assert o.routeChain.Contents() == old(o.routeChain.Contents());
      }
    }

    method Use(r: RouterId, mws: seq<Mw>, ghost s: State)
      requires Valid() && Represents(s) && r < |routers|
      modifies Repr
      ensures Valid() && fresh(Repr - old(Repr))
      ensures Represents(Step(s, Op.Use(r, mws)))
    {
      assert Owns(routers[r], r);
      UseOn(r, mws, s);
      Adopt(r);
    }

    /** Puts a new router, whose chain no other router can write to, at the end. */
    method Add(sub: Router, ghost s: State, ghost st: RouterState)
      requires Valid() && Represents(s) && sub.Is(st)
      requires sub.mux == mux && sub.id == |routers|
      requires sub.Chain().cap > 0 ==> sub.Chain().arr !in Repr
      modifies this
      ensures Valid() && Represents(s.(routers := s.routers + [st]))
      ensures Repr == old(Repr) + {sub, sub.globalChain.arr, sub.routeChain.arr}
    {
      forall i | 0 <= i < |routers| ensures routers[i].Chain().arr in Repr {
        assert Owns(routers[i], i);
      }
      routers := routers + [sub];
      forall i | 0 <= i < |routers| - 1 ensures Owns(routers[i], i) && routers[i].Is(s.routers[i]) {
        assert old(Owns(routers[i], i));
      }
      Adopt(|routers| - 1);
    }

    method Group(r: RouterId, ghost s: State)
      requires Valid() && Represents(s) && r < |routers|
      modifies Repr
      ensures Valid() && fresh(Repr - old(Repr))
      ensures Represents(Step(s, Op.Group(r)))
    {
      assert Owns(routers[r], r);
      var sub := routers[r].Group(|routers|);
      Add(sub, s, RouterState([], s.routers[r].routeChain, true, s.routers[r].errorHandler));
    }

    method SetErrorHandler(r: RouterId, eh: ErrHandler, ghost s: State)
      requires Valid() && Represents(s) && r < |routers|
      modifies Repr
      ensures Valid() && fresh(Repr - old(Repr))
      ensures Represents(Step(s, Op.SetErrorHandler(r, eh)))
    {
      routers[r].SetErrorHandler(eh);
      forall i | 0 <= i < |routers| && i != r
        ensures routers[i].Is(s.routers[i])
      {
        assert routers[i] != routers[r];
      }
    }

    method Register(r: RouterId, op: Op, ghost s: State)
      requires Registers(op) && op.r == r
      requires Valid() && Represents(s) && r < |routers|
      modifies Repr
      ensures Valid() && fresh(Repr - old(Repr))
      ensures Represents(Step(s, op))
    {
      var panics: bool;
      if op.Handle? {
        panics := routers[r].Handle(op.pattern, Plain(op.name));
      } else {
        panics := routers[r].HandleFunc(op.pattern, op.name);
      }
    }

    /** One call on one router, on the heap, does what Routing.Step does. */
    method Perform(op: Op, ghost s: State)
      requires Valid() && Represents(s) && op.r < |routers|
      modifies Repr
      ensures Valid() && fresh(Repr - old(Repr))
      ensures Represents(Step(s, op))
    {
      match op
      case Use(r, mws) => Use(r, mws, s);
      case Group(r) => Group(r, s);
      case SetErrorHandler(r, eh) => SetErrorHandler(r, eh, s);
      case _ => Register(op.r, op, s);
    }

    /** Serves a request on one router's heap state. */
    method ServeHTTP(r: RouterId, req: Request, ghost s: State) returns (result: Result<Call>)
      requires Valid() && Represents(s) && r < |routers|
      ensures result == Routing.ServeHTTP(s, r, req)
    {
      var h := routers[r].BuildForRequest();
      assert routers[r].Is(s.routers[r]);
      var inner := Result([Inner(NotFoundPage)], false);
      if req.path in mux.table {
        var route := mux.table[req.path];
        var e := CoreOf(route);
        var eh := if e.Fallible? && e.owner < |routers| then routers[e.owner].errorHandler else DEFAULT_ERROR_HANDLER;
        inner := Serve(route, req.beh, RunEndpoint(e, eh, req));
        assert e.Fallible? && e.owner < |routers| ==> routers[e.owner].Is(s.routers[e.owner]);
      }
      result := Serve(h, req.beh, inner);
    }
  }

  /** Performs any sequence of calls on any routers. */
  method Execute(ops: seq<Op>) returns (site: Site)
    requires WellFormed(ops)
    ensures fresh(site) && fresh(site.Repr) && site.Valid() && site.Represents(Run(ops))
    decreases |ops|
  {
    if ops == [] {
      site := new Site();
    } else {
      site := Execute(Front(ops));
      site.Perform(Last(ops), Run(Front(ops)));
    }
  }

  /** Two groups of one router, made with slices.Clone: each keeps its own
      middleware, whatever capacity the parent's slice has to spare. */
  method SiblingsWithClone(scope: seq<Mw>, spare: nat, a: Mw, b: Mw) returns (first: seq<Mw>, second: seq<Mw>)
    ensures first == scope + [a] && second == scope + [b]
  {
    var parent := SliceOf(scope, spare);
    var c1 := Clone(parent);
    var c2 := Clone(parent);
    var s1 := Append(c1, [a]);
    var s2 := Append(c2, [b]);
    first, second := s1.arr[..s1.len], s2.arr[..s2.len];
  }

  /** The same without the clone: as soon as the parent's slice has spare
      capacity, the second group's middleware replaces the first group's. */
  method SiblingsWithoutClone(scope: seq<Mw>, spare: nat, a: Mw, b: Mw) returns (first: seq<Mw>, second: seq<Mw>)
    ensures second == scope + [b]
    ensures first == scope + [if spare > 0 then b else a]
  {
    var parent := SliceOf(scope, spare);
    var s1 := Append(parent, [a]);
    var s2 := Append(parent, [b]);
    first, second := s1.arr[..s1.len], s2.arr[..s2.len];
  }

  method SliceOf(xs: seq<Mw>, spare: nat) returns (s: Slice<Mw>)
    ensures s.Valid() && fresh(s.arr) && s.Contents() == xs
    ensures s.len == |xs| && s.cap == |xs| + spare
  {
    var arr := new Mw[|xs| + spare];
    forall i | 0 <= i < |xs| { arr[i] := xs[i]; }
    s := Slice(arr, |xs|, |xs| + spare);
  }
}
