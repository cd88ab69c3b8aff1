/** The run function of main.go (lines 129-289): main, signals and up to three
    listener goroutines, one step at a time. */
module Lifecycle {
  import opened Basics

  datatype Server = MainServer | MetricsServer | PprofServer

  /** The two functions the variable `cancel` holds over time. */
  datatype CancelFunc = StopSignals | CancelShutdown

  /** What run defers, in the order of the defer statements. */
  datatype Deferred = Cancels(f: CancelFunc) | ClosesDatabase

  datatype Setup = Metrics | Notifications | Database | HttpClient | Mailer | Handler

  datatype Config = Config(mailEnabled: bool, metricsListener: bool, pprofListener: bool, timeout: nat)

  predicate Has(cfg: Config, srv: Server) {
    match srv
    case MainServer => true
    case MetricsServer => cfg.metricsListener
    case PprofServer => cfg.pprofListener
  }

  /** Where main stands. */
  datatype PC =
    | Preparing(next: Setup)
    | Starting(srv: Server)          // line 201, 227 or 256 comes next
    | WaitingForSignal               // line 269
    | BeforeShutdown                 // line 272 comes next
    | ShuttingDown(srv: Server)      // the call for srv comes next
    | InShutdown(srv: Server)        // inside the call for srv
    | Returning                      // running the deferred calls
    | Finished

  /** A listener goroutine; a failed one first reads `cancel`, then calls it. */
  datatype Listener = NotStarted | Serving | Failed | Loaded(f: CancelFunc) | Ended

  datatype Effect =
    | ShutdownCalled(srv: Server, deadline: int)
    | Cancelled(f: CancelFunc)
    | DatabaseClosed

  /** What main alone writes; `cancel` is the variable of lines 130 and 272. */
  datatype Main = Main(
    pc: PC,
    erring: bool,
    failedAt: Setup,                    // the step whose error is being returned
    dbOpen: bool,
    cancel: CancelFunc,
    deadline: int,                      // of the context of line 272
    defers: seq<Deferred>,
    effects: seq<Effect>)

  datatype State = State(
    main: Main,
    now: int,
    listeners: map<Server, Listener>,
    signalled: bool,
    ctxDone: bool,                      // the context of line 130
    shutdownCancelled: bool,            // the context of line 272, before its deadline
    drained: set<Server>,               // Shutdown calls that returned with no request in flight
    cutShort: set<Server>,              // Shutdown calls that returned the context's error
    earlyFailures: set<Server>,         // listener failures that called the first cancel
    lateFailures: set<Server>)          // listener failures that called the reassigned one

  const MAIN_INIT := Main(Preparing(Metrics), false, Metrics, false, StopSignals, 0, [Cancels(StopSignals)], [])

  function Init(now: int): State {
    State(MAIN_INIT, now, map[], false, false, false, {}, {}, {}, {})
  }

  datatype Action =
    | Tick(d: nat)
    | Signal
    | SetupOk
    | SetupFails
    | StartListener
    | LeaveWait
    | Reassign
    | CallShutdown
    | ShutdownReturns(graceful: bool)
    | RunDeferred
    | ListenFails(srv: Server)
    | ReadCancel(srv: Server)
    | CallCancel(srv: Server)

  function AfterSetup(cfg: Config, step: Setup): PC {
    match step
    case Metrics => Preparing(Notifications)
    case Notifications => Preparing(Database)
    case Database => Preparing(HttpClient)
    case HttpClient => Preparing(if cfg.mailEnabled then Mailer else Handler)
    case Mailer => Preparing(Handler)
    case Handler => Starting(MainServer)
  }

  /** The next configured server after srv, in the order of the code. */
  function NextServer(cfg: Config, srv: Server): seq<Server> {
    match srv
    case MainServer => if cfg.metricsListener then [MetricsServer] else if cfg.pprofListener then [PprofServer] else []
    case MetricsServer => if cfg.pprofListener then [PprofServer] else []
    case PprofServer => []
  }

  function ListenerOf(s: State, srv: Server): Listener {
    if srv in s.listeners then s.listeners[srv] else NotStarted
  }

  predicate ShutdownDone(m: Main, srv: Server) {
    exists i :: 0 <= i < |m.effects| && m.effects[i].ShutdownCalled? && m.effects[i].srv == srv
  }

  predicate Enabled(s: State, a: Action) {
    match a
    case Tick(_) => true
    case Signal => true
    case SetupOk => s.main.pc.Preparing?
    case SetupFails => s.main.pc.Preparing?
    case StartListener => s.main.pc.Starting?
    case LeaveWait => s.main.pc.WaitingForSignal? && s.ctxDone
    case Reassign => s.main.pc.BeforeShutdown?
    case CallShutdown => s.main.pc.ShuttingDown?
    case ShutdownReturns(graceful) =>
      s.main.pc.InShutdown? && (graceful || s.shutdownCancelled || s.now >= s.main.deadline)
    case RunDeferred => s.main.pc.Returning?
    // once Shutdown has been called, ListenAndServe returns ErrServerClosed
    case ListenFails(srv) => ListenerOf(s, srv).Serving? && !ShutdownDone(s.main, srv)
    case ReadCancel(srv) => ListenerOf(s, srv).Failed?
    case CallCancel(srv) => ListenerOf(s, srv).Loaded?
  }

  /** Main's step; the other actions leave it alone. */
  function NextMain(cfg: Config, m: Main, now: int, a: Action): Main {
    match a
    case SetupOk =>
      if !m.pc.Preparing? then m
      else
        m.(pc := AfterSetup(cfg, m.pc.next),
           dbOpen := m.dbOpen || m.pc.next.Database?,
           defers := m.defers + if m.pc.next.Database? then [ClosesDatabase] else [])
    case SetupFails =>
      if m.pc.Preparing? then m.(pc := Returning, erring := true, failedAt := m.pc.next) else m
    case StartListener =>
      if !m.pc.Starting? then m
      else
        var rest := NextServer(cfg, m.pc.srv);
        m.(pc := if rest == [] then WaitingForSignal else Starting(rest[0]))
    case LeaveWait => m.(pc := BeforeShutdown)
    case Reassign =>
      m.(pc := ShuttingDown(MainServer), cancel := CancelShutdown, deadline := now + cfg.timeout,
         defers := m.defers + [Cancels(CancelShutdown)])
    case CallShutdown =>
      if m.pc.ShuttingDown? then
        m.(pc := InShutdown(m.pc.srv), effects := m.effects + [ShutdownCalled(m.pc.srv, m.deadline)])
      else m
    case ShutdownReturns(_) =>
      if !m.pc.InShutdown? then m
      else
        var rest := NextServer(cfg, m.pc.srv);
        m.(pc := if rest == [] then Returning else ShuttingDown(rest[0]))
    case RunDeferred =>
      if m.defers == [] then m.(pc := Finished)
      else
        var d := m.defers[|m.defers| - 1];
        m.(defers := m.defers[..|m.defers| - 1],
           dbOpen := m.dbOpen && !d.ClosesDatabase?,
           effects := m.effects + [EffectOf(d)])
    case _ => m
  }

  function EffectOf(d: Deferred): Effect {
    if d.ClosesDatabase? then DatabaseClosed else Cancelled(d.f)
  }

  function Next(cfg: Config, s: State, a: Action): State
    requires Enabled(s, a)
  {
    var s1 := s.(main := NextMain(cfg, s.main, s.now, a));
    match a
    case Tick(d) => s1.(now := s.now + d)
    case Signal => s1.(signalled := true, ctxDone := true)
    case StartListener => s1.(listeners := s.listeners[s.main.pc.srv := Serving])
    case ShutdownReturns(graceful) =>
      if graceful then s1.(drained := s.drained + {s.main.pc.srv}) else s1.(cutShort := s.cutShort + {s.main.pc.srv})
    case RunDeferred =>
      if s.main.defers == [] || s.main.defers[|s.main.defers| - 1].ClosesDatabase? then s1
      else Cancel(s1, s.main.defers[|s.main.defers| - 1].f)
    case ListenFails(srv) => s1.(listeners := s.listeners[srv := Failed])
    case ReadCancel(srv) => s1.(listeners := s.listeners[srv := Loaded(s.main.cancel)])
    case CallCancel(srv) =>
      var f := s.listeners[srv].f;
      var s2 := s1.(listeners := s.listeners[srv := Ended]);
      Cancel(if f.CancelShutdown? then s2.(lateFailures := s.lateFailures + {srv})
             else s2.(earlyFailures := s.earlyFailures + {srv}), f)
    case _ => s1
  }

  function Cancel(s: State, f: CancelFunc): State {
    if f.StopSignals? then s.(ctxDone := true) else s.(shutdownCancelled := true)
  }

  /** The state after any schedule, or None when it asks for a blocked step. */
  function Run(cfg: Config, acts: seq<Action>, now: int): Option<State> {
    if acts == [] then Some(Init(now))
    else
      match Run(cfg, acts[..|acts| - 1], now)
      case None => None
      case Some(s) =>
        var a := acts[|acts| - 1];
        if Enabled(s, a) then Some(Next(cfg, s, a)) else None
  }

  // ----------------------------------------------------------------- the effects

  /** One Shutdown for each configured server, in order, all with one deadline. */
  function Shutdowns(cfg: Config, deadline: int): seq<Effect> {
    [ShutdownCalled(MainServer, deadline)]
    + (if cfg.metricsListener then [ShutdownCalled(MetricsServer, deadline)] else [])
    + (if cfg.pprofListener then [ShutdownCalled(PprofServer, deadline)] else [])
  }

  predicate OpensDatabaseBefore(step: Setup) { step.HttpClient? || step.Mailer? || step.Handler? }

  /** Everything run does to the outside, for each way it can end. */
  function AllEffects(cfg: Config, m: Main): seq<Effect> {
    if m.erring then
      (if OpensDatabaseBefore(m.failedAt) then [DatabaseClosed] else []) + [Cancelled(StopSignals)]
    else
      Shutdowns(cfg, m.deadline) + [Cancelled(CancelShutdown), DatabaseClosed, Cancelled(StopSignals)]
  }

  // ------------------------------------------------------------------ invariants

  function Position(srv: Server): nat {
    match srv case MainServer => 0 case MetricsServer => 1 case PprofServer => 2
  }

  /** The Shutdown calls for the servers before srv. */
  function ShutdownsBefore(cfg: Config, srv: Server, deadline: int): seq<Effect> {
    (if Position(srv) > 0 then [ShutdownCalled(MainServer, deadline)] else [])
    + if Position(srv) > 1 && cfg.metricsListener then [ShutdownCalled(MetricsServer, deadline)] else []
  }

  /** What the deferred calls still to run will do, last deferred first. */
  function DeferredEffects(defers: seq<Deferred>): seq<Effect> {
    if defers == [] then []
    else [EffectOf(defers[|defers| - 1])] + DeferredEffects(defers[..|defers| - 1])
  }

  const ALL_DEFERS: seq<Deferred> := [Cancels(StopSignals), ClosesDatabase, Cancels(CancelShutdown)]

  predicate Reassigned(m: Main) { m.cancel.CancelShutdown? }

  /** Main's own progress: how many calls it has deferred (or still has to run),
      and what it has done. */
  predicate MainOk(cfg: Config, m: Main) {
    && m.defers <= ALL_DEFERS
    && m.dbOpen == (|m.defers| >= 2)
    && (m.erring ==> m.pc.Returning? || m.pc.Finished?)
    && match m.pc
       case Preparing(step) =>
         m.effects == [] && !Reassigned(m) && |m.defers| == if OpensDatabaseBefore(step) then 2 else 1
       case Starting(srv) =>
         m.effects == [] && !Reassigned(m) && |m.defers| == 2 && Has(cfg, srv)
       case ShuttingDown(srv) =>
         && m.effects == ShutdownsBefore(cfg, srv, m.deadline) && Reassigned(m) && |m.defers| == 3
         && Has(cfg, srv)
       case InShutdown(srv) =>
         && m.effects == ShutdownsBefore(cfg, srv, m.deadline) + [ShutdownCalled(srv, m.deadline)]
         && Reassigned(m) && |m.defers| == 3 && Has(cfg, srv)
       case Returning =>
         && m.effects + DeferredEffects(m.defers) == AllEffects(cfg, m) && Reassigned(m) == !m.erring
         && (!m.erring ==> Shutdowns(cfg, m.deadline) <= m.effects)
       case Finished =>
         m.effects == AllEffects(cfg, m) && m.defers == [] && Reassigned(m) == !m.erring
       case _ => m.effects == [] && !Reassigned(m) && |m.defers| == 2
  }

  lemma {:induction false} FinalDefers(defers: seq<Deferred>)
    requires defers <= ALL_DEFERS
    ensures DeferredEffects(defers) ==
            match |defers|
            case 0 => []
            case 1 => [Cancelled(StopSignals)]
            case 2 => [DatabaseClosed, Cancelled(StopSignals)]
            case _ => [Cancelled(CancelShutdown), DatabaseClosed, Cancelled(StopSignals)]
  {
    if defers == [] {
    } else {
      var front := defers[..|defers| - 1];
      assert front <= ALL_DEFERS && defers[|defers| - 1] == ALL_DEFERS[|defers| - 1];
      FinalDefers(front);
    }
  }

  lemma SetupStep(cfg: Config, m: Main, now: int, a: Action)
    requires MainOk(cfg, m) && m.pc.Preparing? && (a.SetupOk? || a.SetupFails?)
    ensures MainOk(cfg, NextMain(cfg, m, now, a))
  {
    FinalDefers(m.defers);
    assert m.defers == ALL_DEFERS[..|m.defers|];
  }

  lemma ShutdownReturnStep(cfg: Config, m: Main, now: int, a: Action)
    requires MainOk(cfg, m) && m.pc.InShutdown? && a.ShutdownReturns?
    ensures MainOk(cfg, NextMain(cfg, m, now, a))
  {
    FinalDefers(m.defers);
    if NextServer(cfg, m.pc.srv) == [] {
      assert m.effects == Shutdowns(cfg, m.deadline);
    }
  }

  lemma DeferStep(cfg: Config, m: Main, now: int)
    requires MainOk(cfg, m) && m.pc.Returning?
    ensures MainOk(cfg, NextMain(cfg, m, now, RunDeferred))
  {
    if m.defers != [] {
      var n := NextMain(cfg, m, now, RunDeferred);
      assert m.defers[|m.defers| - 1] == ALL_DEFERS[|m.defers| - 1];
      assert n.effects + DeferredEffects(n.defers) == m.effects + DeferredEffects(m.defers);
    }
  }

  lemma MainStep(cfg: Config, s: State, a: Action)
    requires MainOk(cfg, s.main) && Enabled(s, a)
    ensures MainOk(cfg, NextMain(cfg, s.main, s.now, a))
  {
    match a
    case RunDeferred => DeferStep(cfg, s.main, s.now);
    case ShutdownReturns(_) => ShutdownReturnStep(cfg, s.main, s.now, a);
    case SetupOk => SetupStep(cfg, s.main, s.now, a);
    case SetupFails => SetupStep(cfg, s.main, s.now, a);
    case Reassign => assert s.main.defers == ALL_DEFERS[..2];
    case _ =>
  }

  /** When main has started the listener of a configured server. */
  predicate MainStarted(m: Main, srv: Server) {
    !m.pc.Preparing? && !m.erring && (m.pc.Starting? ==> Position(srv) < Position(m.pc.srv))
  }

  /** Whether a listener goroutine exists, and what it can have read. */
  predicate ListenerOk(cfg: Config, m: Main, l: Listener, srv: Server) {
    (!l.NotStarted? <==> MainStarted(m, srv) && Has(cfg, srv)) && (l == Loaded(CancelShutdown) ==> Reassigned(m))
  }

  predicate PastWait(m: Main) {
    m.pc.BeforeShutdown? || m.pc.ShuttingDown? || m.pc.InShutdown? || ((m.pc.Returning? || m.pc.Finished?) && !m.erring)
  }

  /** Why each context was cancelled. */
  predicate CausesOk(s: State) {
    && (s.ctxDone ==> s.signalled || s.earlyFailures != {} || s.main.pc.Returning? || s.main.pc.Finished?)
    && (PastWait(s.main) ==> s.signalled || s.earlyFailures != {})
    && (s.shutdownCancelled ==> s.lateFailures != {} || s.main.pc.Returning? || s.main.pc.Finished?)
    && (s.lateFailures != {} ==> Reassigned(s.main))
    && (!Reassigned(s.main) ==> s.cutShort == {})
    && (s.cutShort != {} ==> s.lateFailures != {} || s.now >= s.main.deadline)
  }

  ghost predicate ListenersOk(cfg: Config, s: State) {
    forall srv: Server ::
      && ListenerOk(cfg, s.main, ListenerOf(s, srv), srv)
      && (srv in s.earlyFailures || srv in s.lateFailures ==> ListenerOf(s, srv).Ended?)
  }

  /** The Shutdown call for a configured server has returned. */
  predicate Returned(cfg: Config, m: Main, srv: Server) {
    Has(cfg, srv) && !m.erring &&
    match m.pc
    case ShuttingDown(next) => Position(srv) < Position(next)
    case InShutdown(next) => Position(srv) < Position(next)
    case Returning => true
    case Finished => true
    case _ => false
  }

  /** Every Shutdown that has returned is filed in one of the two ways. */
  ghost predicate ReturnsOk(cfg: Config, s: State) {
    forall srv: Server ::
      && (srv in s.drained || srv in s.cutShort <==> Returned(cfg, s.main, srv))
      && !(srv in s.drained && srv in s.cutShort)
  }

  ghost predicate Inv(cfg: Config, s: State) {
    MainOk(cfg, s.main) && ListenersOk(cfg, s) && CausesOk(s) && ReturnsOk(cfg, s)
  }

  /** Main's step keeps a listener it does not start as it should be. */
  lemma ListenerFrame(cfg: Config, s: State, a: Action, srv: Server)
    requires MainOk(cfg, s.main) && Enabled(s, a)
    ensures Reassigned(s.main) ==> Reassigned(NextMain(cfg, s.main, s.now, a))
    ensures !(a.StartListener? && s.main.pc.srv == srv) ==>
              (MainStarted(NextMain(cfg, s.main, s.now, a), srv) && Has(cfg, srv)
               <==> MainStarted(s.main, srv) && Has(cfg, srv))
  {
  }

  predicate OfListener(a: Action) { a.ListenFails? || a.ReadCancel? || a.CallCancel? }

  lemma ListenersByListener(cfg: Config, s: State, a: Action)
    requires ListenersOk(cfg, s) && Enabled(s, a) && OfListener(a)
    ensures ListenersOk(cfg, Next(cfg, s, a))
  {
    var s' := Next(cfg, s, a);
    assert s'.main == s.main;
    assert ListenerOk(cfg, s.main, ListenerOf(s, a.srv), a.srv);
    forall srv: Server | srv != a.srv
      ensures ListenerOk(cfg, s.main, ListenerOf(s', srv), srv)
      ensures srv in s'.earlyFailures || srv in s'.lateFailures ==> ListenerOf(s', srv).Ended?
    {
      assert ListenerOf(s', srv) == ListenerOf(s, srv);
    }
  }

  lemma ListenerByOther(cfg: Config, s: State, a: Action, srv: Server)
    requires MainOk(cfg, s.main) && ListenerOk(cfg, s.main, ListenerOf(s, srv), srv) && Enabled(s, a) && !OfListener(a)
    ensures var s' := Next(cfg, s, a);
            && ListenerOk(cfg, s'.main, ListenerOf(s', srv), srv)
            && (ListenerOf(s', srv) == ListenerOf(s, srv) || ListenerOf(s, srv).NotStarted?)
  {
    if a.StartListener? {
      ListenerStarts(cfg, s, srv);
    } else {
      NextIsNextMain(cfg, s, a);
      ListenerFrame(cfg, s, a, srv);
    }
  }

  lemma NextIsNextMain(cfg: Config, s: State, a: Action)
    requires Enabled(s, a)
    ensures Next(cfg, s, a).main == NextMain(cfg, s.main, s.now, a)
    ensures !OfListener(a) && !a.StartListener? ==> Next(cfg, s, a).listeners == s.listeners
  {
  }

  lemma ListenerStarts(cfg: Config, s: State, srv: Server)
    requires MainOk(cfg, s.main) && ListenerOk(cfg, s.main, ListenerOf(s, srv), srv) && Enabled(s, StartListener)
    ensures var s' := Next(cfg, s, StartListener);
            && ListenerOk(cfg, s'.main, ListenerOf(s', srv), srv)
            && (ListenerOf(s', srv) == ListenerOf(s, srv) || ListenerOf(s, srv).NotStarted?)
  {
  }

  lemma ListenersByOther(cfg: Config, s: State, a: Action)
    requires MainOk(cfg, s.main) && ListenersOk(cfg, s) && Enabled(s, a) && !OfListener(a)
    ensures ListenersOk(cfg, Next(cfg, s, a))
  {
    var s' := Next(cfg, s, a);
    assert s'.earlyFailures == s.earlyFailures && s'.lateFailures == s.lateFailures;
    forall srv: Server
      ensures ListenerOk(cfg, s'.main, ListenerOf(s', srv), srv)
      ensures ListenerOf(s', srv) == ListenerOf(s, srv) || ListenerOf(s, srv).NotStarted?
    {
      ListenerByOther(cfg, s, a, srv);
    }
  }

  lemma CausesByCancel(cfg: Config, s: State, srv: Server)
    requires ListenersOk(cfg, s) && CausesOk(s) && Enabled(s, CallCancel(srv))
    ensures CausesOk(Next(cfg, s, CallCancel(srv)))
  {
    assert ListenerOk(cfg, s.main, ListenerOf(s, srv), srv);
    assert NextMain(cfg, s.main, s.now, CallCancel(srv)) == s.main;
  }

  lemma CausesByListener(cfg: Config, s: State, a: Action)
    requires ListenersOk(cfg, s) && CausesOk(s) && Enabled(s, a) && OfListener(a)
    ensures CausesOk(Next(cfg, s, a))
  {
    if a.CallCancel? {
      CausesByCancel(cfg, s, a.srv);
    } else {
      assert Next(cfg, s, a) == s.(listeners := Next(cfg, s, a).listeners);
    }
  }

  lemma CausesByDeferred(cfg: Config, s: State)
    requires CausesOk(s) && Enabled(s, RunDeferred)
    ensures CausesOk(Next(cfg, s, RunDeferred))
  {
  }

  lemma CausesByReturn(cfg: Config, s: State, graceful: bool)
    requires MainOk(cfg, s.main) && CausesOk(s) && Enabled(s, ShutdownReturns(graceful))
    ensures CausesOk(Next(cfg, s, ShutdownReturns(graceful)))
  {
  }

  lemma CausesByOther(cfg: Config, s: State, a: Action)
    requires MainOk(cfg, s.main) && CausesOk(s) && Enabled(s, a) && !OfListener(a)
    ensures CausesOk(Next(cfg, s, a))
  {
    if a.RunDeferred? {
      CausesByDeferred(cfg, s);
    } else if a.ShutdownReturns? {
      CausesByReturn(cfg, s, a.graceful);
    } else {
      var s' := Next(cfg, s, a);
      assert s'.lateFailures == s.lateFailures && s'.earlyFailures == s.earlyFailures && s'.cutShort == s.cutShort;
    }
  }

  /** Only ShutdownReturns files a server, the one main was waiting for. */
  lemma ReturnedStep(cfg: Config, s: State, a: Action, srv: Server)
    requires MainOk(cfg, s.main) && Enabled(s, a)
    ensures Returned(cfg, NextMain(cfg, s.main, s.now, a), srv) <==>
              Returned(cfg, s.main, srv) || (a.ShutdownReturns? && srv == s.main.pc.srv)
  {
  }

  lemma ReturnsStep(cfg: Config, s: State, a: Action)
    requires MainOk(cfg, s.main) && ReturnsOk(cfg, s) && Enabled(s, a)
    ensures ReturnsOk(cfg, Next(cfg, s, a))
  {
    var s' := Next(cfg, s, a);
    forall srv: Server
      ensures srv in s'.drained || srv in s'.cutShort <==> Returned(cfg, s'.main, srv)
      ensures !(srv in s'.drained && srv in s'.cutShort)
    {
      ReturnedStep(cfg, s, a, srv);
      if a.ShutdownReturns? {
        assert !Returned(cfg, s.main, s.main.pc.srv);
      } else {
        assert s'.drained == s.drained && s'.cutShort == s.cutShort;
      }
    }
  }

  lemma InvStep(cfg: Config, s: State, a: Action)
    requires Inv(cfg, s) && Enabled(s, a)
    ensures Inv(cfg, Next(cfg, s, a))
  {
    MainStep(cfg, s, a);
    ReturnsStep(cfg, s, a);
    NextIsNextMain(cfg, s, a);
    if OfListener(a) {
      ListenersByListener(cfg, s, a);
      CausesByListener(cfg, s, a);
    } else {
      ListenersByOther(cfg, s, a);
      CausesByOther(cfg, s, a);
    }
  }

  lemma {:induction false} RunInv(cfg: Config, acts: seq<Action>, now: int)
    requires Run(cfg, acts, now).Some?
    ensures Inv(cfg, Run(cfg, acts, now).value)
  {
    if acts == [] {
    } else {
      RunInv(cfg, acts[..|acts| - 1], now);
      InvStep(cfg, Run(cfg, acts[..|acts| - 1], now).value, acts[|acts| - 1]);
    }
  }

  // ----------------------------------------------- what a run owes to its schedule

  /** The clock after a schedule: the start plus every tick. */
  function Clock(acts: seq<Action>, now: int): int {
    if acts == [] then now
    else Clock(acts[..|acts| - 1], now) + if acts[|acts| - 1].Tick? then acts[|acts| - 1].d else 0
  }

  /** The setup steps of a configuration, in order. */
  function SetupSteps(cfg: Config): seq<Setup> {
    [Metrics, Notifications, Database, HttpClient] + (if cfg.mailEnabled then [Mailer] else []) + [Handler]
  }

  function SetupOks(acts: seq<Action>): nat {
    if acts == [] then 0 else SetupOks(acts[..|acts| - 1]) + if acts[|acts| - 1].SetupOk? then 1 else 0
  }

  /** The step main is at, or has failed at, follows those that succeeded. */
  predicate SetupAt(cfg: Config, m: Main, oks: nat) {
    if m.pc.Preparing? then oks < |SetupSteps(cfg)| && m.pc.next == SetupSteps(cfg)[oks]
    else if m.erring then oks < |SetupSteps(cfg)| && m.failedAt == SetupSteps(cfg)[oks]
    else oks == |SetupSteps(cfg)|
  }

  lemma SetupAtStep(cfg: Config, s: State, a: Action, oks: nat)
    requires MainOk(cfg, s.main) && SetupAt(cfg, s.main, oks) && Enabled(s, a)
    ensures SetupAt(cfg, NextMain(cfg, s.main, s.now, a), oks + if a.SetupOk? then 1 else 0)
  {
  }

  predicate ReassignedIn(acts: seq<Action>) { exists j :: 0 <= j < |acts| && acts[j].Reassign? }

  /** Where `cancel` was reassigned, and the deadline it got there. */
  ghost predicate DeadlineOk(cfg: Config, acts: seq<Action>, now: int, m: Main) {
    && (Reassigned(m) <==> ReassignedIn(acts))
    && forall j :: 0 <= j < |acts| && acts[j].Reassign? ==> m.deadline == Clock(acts[..j], now) + cfg.timeout
  }

  lemma DeadlineStep(cfg: Config, acts: seq<Action>, now: int, s: State, a: Action)
    requires MainOk(cfg, s.main) && DeadlineOk(cfg, acts, now, s.main) && s.now == Clock(acts, now) && Enabled(s, a)
    ensures DeadlineOk(cfg, acts + [a], now, NextMain(cfg, s.main, s.now, a))
  {
    var longer, m' := acts + [a], NextMain(cfg, s.main, s.now, a);
    assert longer[|acts|] == a && longer[..|acts|] == acts;
    assert forall j :: 0 <= j < |acts| ==> longer[j] == acts[j] && longer[..j] == acts[..j];
    if !a.Reassign? {
      assert m'.deadline == s.main.deadline && Reassigned(m') == Reassigned(s.main);
      assert ReassignedIn(longer) <==> ReassignedIn(acts);
    }
  }

  /** Listener srv read `cancel` at step k, after (or before) the reassignment. */
  predicate ReadsCancel(acts: seq<Action>, srv: Server, late: bool, k: nat) {
    k < |acts| && acts[k] == ReadCancel(srv) && ReassignedIn(acts[..k]) == late
  }

  /** Listener srv read `cancel` and later called what it had read. */
  ghost predicate CallsCancel(acts: seq<Action>, srv: Server, late: bool) {
    exists k: nat, l: nat :: ReadsCancel(acts, srv, late, k) && k < l < |acts| && acts[l] == CallCancel(srv)
  }

  /** Listener srv has read `cancel` at some step. */
  ghost predicate HasRead(acts: seq<Action>, srv: Server, late: bool) {
    exists k: nat :: ReadsCancel(acts, srv, late, k)
  }

  /** The listeners recorded as having called the reassigned, or first, cancel. */
  function Failures(s: State, late: bool): set<Server> { if late then s.lateFailures else s.earlyFailures }

  function CancelRead(late: bool): CancelFunc { if late then CancelShutdown else StopSignals }

  /** A listener holds what it has read, until it has called it. */
  predicate Tracks(s: State, srv: Server, late: bool, read: bool, called: bool) {
    && (ListenerOf(s, srv) == Loaded(CancelRead(late)) ==> read)
    && (read ==> ListenerOf(s, srv) == Loaded(CancelRead(late)) || srv in Failures(s, late))
    && (srv in Failures(s, late) <==> called)
  }

  ghost predicate ListenerCaused(acts: seq<Action>, s: State, srv: Server, late: bool) {
    Tracks(s, srv, late, HasRead(acts, srv, late), CallsCancel(acts, srv, late))
  }

  /** What signals and listeners are recorded to have done, they did. */
  ghost predicate CausedOk(acts: seq<Action>, s: State) {
    && (s.signalled <==> Signal in acts)
    && (s.lateFailures != {} ==> s.shutdownCancelled)
    && (s.signalled || s.earlyFailures != {} ==> s.ctxDone)
    && (forall srv: Server, late: bool :: ListenerCaused(acts, s, srv, late))
    && forall srv: Server :: HasFailed(ListenerOf(s, srv)) <==> ListenFails(srv) in acts
  }

  predicate HasFailed(l: Listener) { !l.NotStarted? && !l.Serving? }

  /** One more step reads only if it is a read, and calls only if it is a call
      after a read. */
  lemma ReadsExtend(acts: seq<Action>, a: Action, srv: Server, late: bool)
    ensures HasRead(acts + [a], srv, late) <==>
              HasRead(acts, srv, late) || (a == ReadCancel(srv) && ReassignedIn(acts) == late)
  {
    var longer := acts + [a];
    assert longer[..|acts|] == acts;
    forall k: nat | k < |acts| ensures ReadsCancel(longer, srv, late, k) <==> ReadsCancel(acts, srv, late, k) {
      assert longer[..k] == acts[..k];
    }
    if a == ReadCancel(srv) && ReassignedIn(acts) == late { assert ReadsCancel(longer, srv, late, |acts|); }
  }

  lemma CallsExtend(acts: seq<Action>, a: Action, srv: Server, late: bool)
    ensures CallsCancel(acts + [a], srv, late) <==>
              CallsCancel(acts, srv, late) || (a == CallCancel(srv) && HasRead(acts, srv, late))
  {
    var longer := acts + [a];
    forall k: nat | k < |acts| ensures ReadsCancel(longer, srv, late, k) <==> ReadsCancel(acts, srv, late, k) {
      assert longer[..k] == acts[..k];
    }
    if CallsCancel(acts, srv, late) {
      var k: nat, l: nat :| ReadsCancel(acts, srv, late, k) && k < l < |acts| && acts[l] == CallCancel(srv);
      assert ReadsCancel(longer, srv, late, k) && longer[l] == CallCancel(srv);
    }
    if a == CallCancel(srv) && HasRead(acts, srv, late) {
      var k: nat :| ReadsCancel(acts, srv, late, k);
      assert ReadsCancel(longer, srv, late, k) && longer[|acts|] == CallCancel(srv);
    }
  }

  lemma TracksCall(cfg: Config, s: State, srv: Server, late: bool, read: bool, called: bool)
    requires srv in Failures(s, late) ==> ListenerOf(s, srv).Ended?
    requires Tracks(s, srv, late, read, called) && Enabled(s, CallCancel(srv))
    ensures Tracks(Next(cfg, s, CallCancel(srv)), srv, late, read, called || read)
  {
  }

  lemma TracksRead(cfg: Config, s: State, srv: Server, late: bool, read: bool, called: bool)
    requires srv in Failures(s, late) ==> ListenerOf(s, srv).Ended?
    requires Tracks(s, srv, late, read, called) && Enabled(s, ReadCancel(srv))
    ensures Tracks(Next(cfg, s, ReadCancel(srv)), srv, late, read || Reassigned(s.main) == late, called)
  {
  }

  lemma FailuresStay(cfg: Config, s: State, a: Action, srv: Server, late: bool)
    requires Enabled(s, a) && a != CallCancel(srv)
    ensures srv in Failures(Next(cfg, s, a), late) <==> srv in Failures(s, late)
  {
    if a.CallCancel? {
      assert a.srv != srv;
    } else {
      assert Failures(Next(cfg, s, a), late) == Failures(s, late);
    }
  }

  lemma ListenerStays(cfg: Config, s: State, a: Action, srv: Server)
    requires ListenerOk(cfg, s.main, ListenerOf(s, srv), srv)
    requires Enabled(s, a) && a != CallCancel(srv) && a != ReadCancel(srv)
    ensures var before, after := ListenerOf(s, srv), ListenerOf(Next(cfg, s, a), srv);
            if a == ListenFails(srv) then before.Serving? && after.Failed?
            else after == before || (before.NotStarted? && after.Serving?)
  {
    if !OfListener(a) && !a.StartListener? {
      NextIsNextMain(cfg, s, a);
    }
  }

  lemma TracksStep(cfg: Config, s: State, a: Action, srv: Server, late: bool, read: bool, called: bool)
    requires ListenerOk(cfg, s.main, ListenerOf(s, srv), srv)
    requires srv in Failures(s, late) ==> ListenerOf(s, srv).Ended?
    requires Tracks(s, srv, late, read, called) && Enabled(s, a)
    ensures Tracks(Next(cfg, s, a), srv, late, read || (a == ReadCancel(srv) && Reassigned(s.main) == late),
                   called || (a == CallCancel(srv) && read))
  {
    if a == CallCancel(srv) {
      TracksCall(cfg, s, srv, late, read, called);
    } else if a == ReadCancel(srv) {
      TracksRead(cfg, s, srv, late, read, called);
    } else {
      FailuresStay(cfg, s, a, srv, late);
      ListenerStays(cfg, s, a, srv);
    }
  }

  lemma CausedListenerStep(cfg: Config, acts: seq<Action>, s: State, a: Action, srv: Server, late: bool)
    requires ListenersOk(cfg, s) && ListenerCaused(acts, s, srv, late)
    requires (Reassigned(s.main) <==> ReassignedIn(acts)) && Enabled(s, a)
    ensures ListenerCaused(acts + [a], Next(cfg, s, a), srv, late)
  {
    ReadsExtend(acts, a, srv, late);
    CallsExtend(acts, a, srv, late);
    TracksStep(cfg, s, a, srv, late, HasRead(acts, srv, late), CallsCancel(acts, srv, late));
  }

  lemma FailsOnce(cfg: Config, s: State, a: Action, srv: Server)
    requires ListenersOk(cfg, s) && Enabled(s, a)
    ensures HasFailed(ListenerOf(Next(cfg, s, a), srv)) <==> HasFailed(ListenerOf(s, srv)) || a == ListenFails(srv)
  {
    assert ListenerOk(cfg, s.main, ListenerOf(s, srv), srv);
    if a == CallCancel(srv) || a == ReadCancel(srv) {
      CancelsAfterFailing(cfg, s, srv);
    } else {
      ListenerStays(cfg, s, a, srv);
    }
  }

  lemma CancelsAfterFailing(cfg: Config, s: State, srv: Server)
    ensures Enabled(s, ReadCancel(srv)) ==> ListenerOf(Next(cfg, s, ReadCancel(srv)), srv).Loaded?
    ensures Enabled(s, CallCancel(srv)) ==> ListenerOf(Next(cfg, s, CallCancel(srv)), srv).Ended?
  {
  }

  lemma CausedStep(cfg: Config, acts: seq<Action>, s: State, a: Action)
    requires ListenersOk(cfg, s) && CausedOk(acts, s) && (Reassigned(s.main) <==> ReassignedIn(acts)) && Enabled(s, a)
    ensures CausedOk(acts + [a], Next(cfg, s, a))
  {
    var s' := Next(cfg, s, a);
    assert s'.signalled <==> s.signalled || a == Signal;
    forall srv: Server, late: bool ensures ListenerCaused(acts + [a], s', srv, late) {
      CausedListenerStep(cfg, acts, s, a, srv, late);
    }
    forall srv: Server ensures HasFailed(ListenerOf(s', srv)) <==> ListenFails(srv) in acts + [a] {
      FailsOnce(cfg, s, a, srv);
    }
  }

  /** All that a reachable state says about the schedule that led to it. */
  ghost predicate ScheduleOk(cfg: Config, acts: seq<Action>, now: int, s: State) {
    && s.now == Clock(acts, now) && SetupAt(cfg, s.main, SetupOks(acts))
    && DeadlineOk(cfg, acts, now, s.main) && CausedOk(acts, s)
  }

  lemma InitSchedule(cfg: Config, now: int)
    ensures ScheduleOk(cfg, [], now, Init(now))
  {
  }

  lemma CountsExtend(acts: seq<Action>, now: int, a: Action)
    ensures Clock(acts + [a], now) == Clock(acts, now) + if a.Tick? then a.d else 0
    ensures SetupOks(acts + [a]) == SetupOks(acts) + if a.SetupOk? then 1 else 0
  {
    assert (acts + [a])[..|acts|] == acts;
  }

  lemma NextClock(cfg: Config, s: State, a: Action)
    requires Enabled(s, a)
    ensures Next(cfg, s, a).now == s.now + if a.Tick? then a.d else 0
  {
  }

  lemma ScheduleStep(cfg: Config, acts: seq<Action>, now: int, s: State, a: Action)
    requires MainOk(cfg, s.main) && ListenersOk(cfg, s) && ScheduleOk(cfg, acts, now, s) && Enabled(s, a)
    ensures ScheduleOk(cfg, acts + [a], now, Next(cfg, s, a))
  {
    CountsExtend(acts, now, a);
    NextIsNextMain(cfg, s, a);
    NextClock(cfg, s, a);
    SetupAtStep(cfg, s, a, SetupOks(acts));
    DeadlineStep(cfg, acts, now, s, a);
    CausedStep(cfg, acts, s, a);
  }

  lemma LastStep(cfg: Config, acts: seq<Action>, now: int)
    requires acts != [] && Run(cfg, acts, now).Some?
    ensures var front, a := acts[..|acts| - 1], acts[|acts| - 1];
            && acts == front + [a] && Run(cfg, front, now).Some?
            && Enabled(Run(cfg, front, now).value, a)
            && Run(cfg, acts, now) == Some(Next(cfg, Run(cfg, front, now).value, a))
  {
  }

  lemma {:induction false} RunSchedule(cfg: Config, acts: seq<Action>, now: int)
    requires Run(cfg, acts, now).Some?
    ensures ScheduleOk(cfg, acts, now, Run(cfg, acts, now).value)
  {
    if acts == [] {
      InitSchedule(cfg, now);
    } else {
      var front, a := acts[..|acts| - 1], acts[|acts| - 1];
      LastStep(cfg, acts, now);
      RunSchedule(cfg, front, now);
      RunInv(cfg, front, now);
      ScheduleStep(cfg, front, now, Run(cfg, front, now).value, a);
    }
  }

  // --------------------------------------------------------------------- results

  /** Setup runs its steps in order, and the first that fails is the last that
      is tried; a run past its setup has done them all. */
  lemma SetupInOrder(cfg: Config, acts: seq<Action>, now: int)
    requires Run(cfg, acts, now).Some?
    ensures var m, oks, steps := Run(cfg, acts, now).value.main, SetupOks(acts), SetupSteps(cfg);
            && (m.pc.Preparing? ==> oks < |steps| && m.pc.next == steps[oks])
            && (m.erring ==> oks < |steps| && m.failedAt == steps[oks])
            && (!m.pc.Preparing? && !m.erring ==> oks == |steps|)
  {
    RunSchedule(cfg, acts, now);
    RunInv(cfg, acts, now);
  }

  /** All that run has done, read off the schedule. After a failed setup: the
      database closed once if it had been opened (three steps succeeded), and
      the signal context released. Otherwise each configured server shut down
      once, in order and with one deadline, the configured time after the
      reassignment of `cancel`; and then the shutdown context, the database and
      the signal context released, in that order. */
  ghost predicate DidAll(cfg: Config, acts: seq<Action>, now: int, m: Main) {
    && m.effects == AllEffects(cfg, m)
    && (m.erring <==> SetupOks(acts) < |SetupSteps(cfg)|)
    && (m.erring ==> m.effects == (if SetupOks(acts) >= 3 then [DatabaseClosed] else []) + [Cancelled(StopSignals)])
    && (!m.erring ==> ReassignedIn(acts))
    && forall j :: 0 <= j < |acts| && acts[j].Reassign? ==>
         m.effects == Shutdowns(cfg, Clock(acts[..j], now) + cfg.timeout)
                      + [Cancelled(CancelShutdown), DatabaseClosed, Cancelled(StopSignals)]
  }

  /** Whatever signals and listeners do, when run has returned it has done all
      this, the database is closed, and the listeners of the configured servers
      were started, or none after a failed setup. */
  lemma EffectsOfRun(cfg: Config, acts: seq<Action>, now: int)
    requires Run(cfg, acts, now).Some? && Run(cfg, acts, now).value.main.pc.Finished?
    ensures var s := Run(cfg, acts, now).value;
            && DidAll(cfg, acts, now, s.main) && !s.main.dbOpen
            && forall srv: Server :: ListenerOf(s, srv) != NotStarted <==> !s.main.erring && Has(cfg, srv)
  {
    RunInv(cfg, acts, now);
    RunSchedule(cfg, acts, now);
    var s := Run(cfg, acts, now).value;
    FinalEffects(cfg, acts, now, s.main);
    FinalListeners(cfg, s);
  }

  lemma FinalListeners(cfg: Config, s: State)
    requires MainOk(cfg, s.main) && ListenersOk(cfg, s) && s.main.pc.Finished?
    ensures !s.main.dbOpen
    ensures forall srv: Server :: ListenerOf(s, srv) != NotStarted <==> !s.main.erring && Has(cfg, srv)
  {
    forall srv: Server ensures ListenerOf(s, srv) != NotStarted <==> !s.main.erring && Has(cfg, srv) {
      assert ListenerOk(cfg, s.main, ListenerOf(s, srv), srv);
    }
  }

  lemma FinalEffects(cfg: Config, acts: seq<Action>, now: int, m: Main)
    requires MainOk(cfg, m) && m.pc.Finished? && SetupAt(cfg, m, SetupOks(acts)) && DeadlineOk(cfg, acts, now, m)
    ensures DidAll(cfg, acts, now, m)
  {
    if m.erring { OpensThird(cfg, SetupOks(acts)); }
    assert forall j :: 0 <= j < |acts| && acts[j].Reassign? ==> Reassigned(m);
  }

  lemma OpensThird(cfg: Config, oks: nat)
    requires oks < |SetupSteps(cfg)|
    ensures OpensDatabaseBefore(SetupSteps(cfg)[oks]) <==> oks >= 3
  {
  }

  /** Every Shutdown call ever made carries the clock at the reassignment of
      `cancel` plus the configured timeout. */
  lemma ShutdownDeadlines(cfg: Config, acts: seq<Action>, now: int, i: nat, j: nat)
    requires Run(cfg, acts, now).Some?
    requires i < |Run(cfg, acts, now).value.main.effects| && Run(cfg, acts, now).value.main.effects[i].ShutdownCalled?
    ensures ReassignedIn(acts)
    ensures j < |acts| && acts[j].Reassign? ==>
              Run(cfg, acts, now).value.main.effects[i].deadline == Clock(acts[..j], now) + cfg.timeout
  {
    RunInv(cfg, acts, now);
    RunSchedule(cfg, acts, now);
    OneDeadline(cfg, Run(cfg, acts, now).value.main, i);
  }

  lemma OneDeadline(cfg: Config, m: Main, i: nat)
    requires MainOk(cfg, m) && i < |m.effects| && m.effects[i].ShutdownCalled?
    ensures Reassigned(m) && m.effects[i].deadline == m.deadline
  {
    if m.pc.Returning? { assert m.effects[i] == AllEffects(cfg, m)[i]; }
  }

  /** Main can pass its wait exactly when a signal has come, or a listener has
      read `cancel` before its reassignment and called it. */
  lemma LeavesWaitIff(cfg: Config, acts: seq<Action>, now: int)
    requires Run(cfg, acts, now).Some? && Run(cfg, acts, now).value.main.pc.WaitingForSignal?
    ensures Run(cfg, acts + [LeaveWait], now).Some? <==>
              Signal in acts || exists srv :: CallsCancel(acts, srv, false)
  {
    RunInv(cfg, acts, now);
    RunSchedule(cfg, acts, now);
    assert (acts + [LeaveWait])[..|acts|] == acts;
    var s := Run(cfg, acts, now).value;
    FailuresAre(acts, s, false);
  }

  lemma FailuresAre(acts: seq<Action>, s: State, late: bool)
    requires CausedOk(acts, s)
    ensures Failures(s, late) != {} <==> exists srv :: CallsCancel(acts, srv, late)
  {
    forall srv: Server ensures srv in Failures(s, late) <==> CallsCancel(acts, srv, late) {
      assert ListenerCaused(acts, s, srv, late);
    }
    if Failures(s, late) != {} {
      var srv :| srv in Failures(s, late);
      assert CallsCancel(acts, srv, late);
    }
  }

  /** Main goes past its wait only after a signal, or after a listener of a
      configured server failed and called the first cancel. */
  lemma LeavesWaitOnlyOnCause(cfg: Config, acts: seq<Action>, now: int)
    requires Run(cfg, acts, now).Some? && PastWait(Run(cfg, acts, now).value.main)
    ensures var s := Run(cfg, acts, now).value;
            Signal in acts ||
            exists srv :: CallsCancel(acts, srv, false) && srv in s.earlyFailures
                          && Has(cfg, srv) && ListenerOf(s, srv).Ended?
  {
    RunInv(cfg, acts, now);
    RunSchedule(cfg, acts, now);
    var s := Run(cfg, acts, now).value;
    if s.earlyFailures != {} {
      var srv :| srv in s.earlyFailures;
      assert ListenerOk(cfg, s.main, ListenerOf(s, srv), srv);
      assert ListenerCaused(acts, s, srv, false);
    }
  }

  /** The time that Shutdown calls were given has passed. */
  ghost predicate GraceIsOver(cfg: Config, acts: seq<Action>, now: int) {
    exists j :: 0 <= j < |acts| && acts[j].Reassign? && Clock(acts, now) >= Clock(acts[..j], now) + cfg.timeout
  }

  lemma GraceIsDeadline(cfg: Config, acts: seq<Action>, now: int, m: Main)
    requires DeadlineOk(cfg, acts, now, m) && Reassigned(m)
    ensures GraceIsOver(cfg, acts, now) <==> Clock(acts, now) >= m.deadline
  {
  }

  /** A Shutdown call can give up exactly when the configured time has passed
      since the reassignment of `cancel`, or a listener has read `cancel` after
      it and called it. */
  lemma GivesUpIff(cfg: Config, acts: seq<Action>, now: int)
    requires Run(cfg, acts, now).Some? && Run(cfg, acts, now).value.main.pc.InShutdown?
    ensures Run(cfg, acts + [ShutdownReturns(false)], now).Some? <==>
              GraceIsOver(cfg, acts, now) || exists srv :: CallsCancel(acts, srv, true)
  {
    RunInv(cfg, acts, now);
    RunSchedule(cfg, acts, now);
    assert (acts + [ShutdownReturns(false)])[..|acts|] == acts;
    var s := Run(cfg, acts, now).value;
    FailuresAre(acts, s, true);
    GraceIsDeadline(cfg, acts, now, s.main);
  }

  /** Any Shutdown call that has given up did so for one of these causes: such
      a listener can shorten the time, and by EffectsOfRun can do nothing else. */
  lemma CutShortOnlyOnCause(cfg: Config, acts: seq<Action>, now: int)
    requires Run(cfg, acts, now).Some? && Run(cfg, acts, now).value.cutShort != {}
    ensures var s := Run(cfg, acts, now).value;
            GraceIsOver(cfg, acts, now) ||
            exists srv :: CallsCancel(acts, srv, true) && srv in s.lateFailures
                          && Has(cfg, srv) && ListenerOf(s, srv).Ended?
  {
    RunInv(cfg, acts, now);
    RunSchedule(cfg, acts, now);
    var s := Run(cfg, acts, now).value;
    GraceIsDeadline(cfg, acts, now, s.main);
    if s.lateFailures != {} {
      var srv :| srv in s.lateFailures;
      assert ListenerOk(cfg, s.main, ListenerOf(s, srv), srv);
      assert ListenerCaused(acts, s, srv, true);
    }
  }

  lemma OneMore(cfg: Config, acts: seq<Action>, now: int, a: Action)
    requires Run(cfg, acts, now).Some? && Enabled(Run(cfg, acts, now).value, a)
    ensures Run(cfg, acts + [a], now) == Some(Next(cfg, Run(cfg, acts, now).value, a))
  {
    assert (acts + [a])[..|acts|] == acts;
  }

  /** A listener that fails while another server is being shut down ends the
      grace of that Shutdown at once, whatever the clock says. */
  lemma LateFailureCutsShort(cfg: Config, acts: seq<Action>, now: int, srv: Server)
    requires Run(cfg, acts, now).Some?
    requires var s := Run(cfg, acts, now).value;
             s.main.pc.InShutdown? && ListenerOf(s, srv).Serving? && !ShutdownDone(s.main, srv)
    ensures var failed := acts + [ListenFails(srv)] + [ReadCancel(srv)] + [CallCancel(srv)];
            Run(cfg, failed + [ShutdownReturns(false)], now).Some?
  {
    RunInv(cfg, acts, now);
    OneMore(cfg, acts, now, ListenFails(srv));
    var failed := acts + [ListenFails(srv)];
    OneMore(cfg, failed, now, ReadCancel(srv));
    var read := failed + [ReadCancel(srv)];
    OneMore(cfg, read, now, CallCancel(srv));
    OneMore(cfg, read + [CallCancel(srv)], now, ShutdownReturns(false));
  }

  /** What the outside can do at any time: send a signal, make a setup step that
      is being tried fail, and make a listener fail once, from its start until
      its server is told to shut down. */
  lemma OutsideIsFree(cfg: Config, acts: seq<Action>, now: int, srv: Server)
    requires Run(cfg, acts, now).Some?
    ensures Run(cfg, acts + [Signal], now).Some?
    ensures Run(cfg, acts, now).value.main.pc.Preparing? ==> Run(cfg, acts + [SetupFails], now).Some?
    ensures var s := Run(cfg, acts, now).value;
            Run(cfg, acts + [ListenFails(srv)], now).Some? <==>
            && !ListenerOf(s, srv).NotStarted? && ListenFails(srv) !in acts
            && forall i :: 0 <= i < |s.main.effects| && s.main.effects[i].ShutdownCalled? ==>
                 s.main.effects[i].srv != srv
  {
    RunSchedule(cfg, acts, now);
    assert (acts + [Signal])[..|acts|] == acts;
    assert (acts + [SetupFails])[..|acts|] == acts;
    assert (acts + [ListenFails(srv)])[..|acts|] == acts;
  }

  // ------------------------------------------------------------------ run can end

  predicate Leads(cfg: Config, s: State, acts: seq<Action>, end: State)
    decreases acts
  {
    if acts == [] then s == end else Enabled(s, acts[0]) && Leads(cfg, Next(cfg, s, acts[0]), acts[1..], end)
  }

  /** Main's own next step; while it waits, the signal it waits for. */
  function StepOf(s: State): Action {
    match s.main.pc
    case Preparing(_) => SetupOk
    case Starting(_) => StartListener
    case WaitingForSignal => if s.ctxDone then LeaveWait else Signal
    case BeforeShutdown => Reassign
    case ShuttingDown(_) => CallShutdown
    case InShutdown(_) => ShutdownReturns(true)
    case Returning => RunDeferred
    case Finished => Tick(0)
  }

  function Phase(m: Main): nat {
    match m.pc
    case Preparing(_) => 6 case Starting(_) => 5 case WaitingForSignal => 4 case BeforeShutdown => 3
    case ShuttingDown(_) => 2 case InShutdown(_) => 2 case Returning => 1 case Finished => 0
  }

  /** Steps left in a phase, at most. */
  function Left(s: State): nat {
    match s.main.pc
    case Preparing(step) =>
      (match step case Metrics => 5 case Notifications => 4 case Database => 3
                  case HttpClient => 2 case Mailer => 1 case Handler => 0)
    case Starting(srv) => 3 - Position(srv)
    case WaitingForSignal => if s.ctxDone then 0 else 1
    case ShuttingDown(srv) => 7 - 2 * Position(srv)
    case InShutdown(srv) => 6 - 2 * Position(srv)
    case Returning => |s.main.defers|
    case _ => 0
  }

  /** Fewer steps are left in this phase, or it is over. */
  predicate Advances(s: State, s': State) {
    && s'.cutShort == s.cutShort
    && (Phase(s'.main) < Phase(s.main) || (Phase(s'.main) == Phase(s.main) && Left(s') < Left(s)))
  }

  lemma StartAdvances(cfg: Config, s: State)
    requires s.main.pc.Preparing? || s.main.pc.Starting?
    ensures Enabled(s, StepOf(s)) && Advances(s, Next(cfg, s, StepOf(s)))
  {
  }

  lemma ShutdownAdvances(cfg: Config, s: State)
    requires s.main.pc.ShuttingDown? || s.main.pc.InShutdown?
    ensures Enabled(s, StepOf(s)) && Advances(s, Next(cfg, s, StepOf(s)))
  {
  }

  lemma MainAdvances(cfg: Config, s: State)
    requires !s.main.pc.Finished?
    ensures Enabled(s, StepOf(s)) && Advances(s, Next(cfg, s, StepOf(s)))
  {
    if s.main.pc.Preparing? || s.main.pc.Starting? {
      StartAdvances(cfg, s);
    } else if s.main.pc.ShuttingDown? || s.main.pc.InShutdown? {
      ShutdownAdvances(cfg, s);
    }
  }

  lemma {:induction false} MainFinishes(cfg: Config, s: State) returns (more: seq<Action>, end: State)
    ensures Leads(cfg, s, more, end) && end.main.pc.Finished? && end.cutShort == s.cutShort
    decreases Phase(s.main), Left(s)
  {
    if s.main.pc.Finished? {
      more, end := [], s;
    } else {
      MainAdvances(cfg, s);
      more, end := MainFinishes(cfg, Next(cfg, s, StepOf(s)));
      more := [StepOf(s)] + more;
    }
  }

  lemma {:induction false} RunOn(cfg: Config, acts: seq<Action>, now: int, more: seq<Action>, end: State)
    requires Run(cfg, acts, now).Some? && Leads(cfg, Run(cfg, acts, now).value, more, end)
    ensures Run(cfg, acts + more, now) == Some(end)
    decreases more
  {
    if more == [] {
      assert acts + more == acts;
    } else {
      OneMore(cfg, acts, now, more[0]);
      RunOn(cfg, acts + [more[0]], now, more[1..], end);
      assert acts + more == acts + [more[0]] + more[1..];
    }
  }

  /** From every reachable state run can still return, without cutting any
      further Shutdown call short. */
  lemma RunCanFinish(cfg: Config, acts: seq<Action>, now: int)
    requires Run(cfg, acts, now).Some?
    ensures exists more ::
              && Run(cfg, acts + more, now).Some? && Run(cfg, acts + more, now).value.main.pc.Finished?
              && Run(cfg, acts + more, now).value.cutShort == Run(cfg, acts, now).value.cutShort
  {
    var more, end := MainFinishes(cfg, Run(cfg, acts, now).value);
    RunOn(cfg, acts, now, more, end);
  }

  /** Once a listener has been started, the database is open until run is
      returning and the Shutdown call of every configured server has returned:
      either with all its requests answered, or cut short, never both. So only
      a request on a server that was cut short can outlive the database, and
      CutShortOnlyOnCause says when that can be. */
  lemma DatabaseOutlivesListeners(cfg: Config, acts: seq<Action>, now: int, srv: Server)
    requires Run(cfg, acts, now).Some?
    requires var s := Run(cfg, acts, now).value; !ListenerOf(s, srv).NotStarted? && !s.main.dbOpen
    ensures var s := Run(cfg, acts, now).value;
            && Has(cfg, srv) && (s.main.pc.Returning? || s.main.pc.Finished?)
            && forall v: Server :: Has(cfg, v) ==>
                 ShutdownDone(s.main, v) && (v in s.drained <==> v !in s.cutShort)
  {
    RunInv(cfg, acts, now);
    var s := Run(cfg, acts, now).value;
    assert ListenerOk(cfg, s.main, ListenerOf(s, srv), srv);
    forall v: Server | Has(cfg, v) ensures ShutdownDone(s.main, v) && (v in s.drained <==> v !in s.cutShort) {
      ShutdownIn(cfg, s.main, v);
      assert Returned(cfg, s.main, v);
    }
  }

  lemma ShutdownIn(cfg: Config, m: Main, srv: Server)
    requires Has(cfg, srv) && Shutdowns(cfg, m.deadline) <= m.effects
    ensures ShutdownDone(m, srv)
  {
    var calls := Shutdowns(cfg, m.deadline);
    var i := if srv.MainServer? then 0 else if srv.MetricsServer? then 1 else |calls| - 1;
    assert m.effects[i] == calls[i] == ShutdownCalled(srv, m.deadline);
  }
}
