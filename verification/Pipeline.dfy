/** One request through Recover, AccessLog, the error handler and net/http's
    response (accesslog.go, recover.go, server.go lines 84-136, router.go lines
    54-60), on values. */
module Pipeline {
  import opened Basics

  const OK := 200
  const INTERNAL_SERVER_ERROR := 500
  const SWITCHING_PROTOCOLS := 101

  /** Codes net/http refuses with a panic. */
  predicate Invalid(code: int) { code < 100 || code > 999 }

  /** Informational codes, which leave the final status open (section 15.2 of
      RFC 9110); 101 is final for net/http. */
  predicate Interim(code: int) { 100 <= code <= 199 && code != SWITCHING_PROTOCOLS }

  predicate Final(code: int) { !Invalid(code) && !Interim(code) }

  // ------------------------------------------------------------ the two writers

  /** net/http's response: the committed status, interim codes sent, calls of
      its WriteHeader, and body bytes accepted. */
  datatype Wire = Wire(status: Option<int>, interim: seq<int>, calls: nat, body: nat)

  const FRESH := Wire(None, [], 0, 0)

  /** The writer after the call, and whether it panicked. */
  datatype Written<W> = Written(w: W, panics: bool)

  function WireHeader(w: Wire, code: int): Written<Wire> {
    var w1 := w.(calls := w.calls + 1);
    if w.status.Some? then Written(w1, false)
    else if Invalid(code) then Written(w1, true)
    else if Interim(code) then Written(w1.(interim := w.interim + [code]), false)
    else Written(w1.(status := Some(code)), false)
  }

  function WireWrite(w: Wire, accepted: nat): Wire {
    w.(status := if w.status.None? then Some(OK) else w.status, body := w.body + accepted)
  }

  /** The status the client gets once the server has finished the request. */
  function Committed(w: Wire): int { if w.status.Some? then w.status.value else OK }

  /** The recording writer of AccessLog around net/http's response. */
  datatype Recorder = Recorder(statusCode: int, written: bool, length: nat, wire: Wire)

  function NewRecorder(w: Wire): Recorder { Recorder(OK, false, 0, w) }

  function RecorderHeader(r: Recorder, code: int): Written<Recorder> {
    if r.written then Written(r, false)
    else
      var f := WireHeader(r.wire, code);
      Written(Recorder(code, true, r.length, f.w), f.panics)
  }

  function RecorderWrite(r: Recorder, accepted: nat): Written<Recorder> {
    var h := if r.written then Written(r, false) else RecorderHeader(r, OK);
    if h.panics then h
    else Written(h.w.(length := h.w.length + accepted, wire := WireWrite(h.w.wire, accepted)), false)
  }

  // ----------------------------------------------------------- handler programs

  /** A write carries the byte count the underlying writer accepts. */
  datatype Step = SetStatus(code: int) | Write(accepted: nat)

  /** Errors as errors.As walks them: an *HTTPError, a wrapper, a join. */
  datatype Err = Other | Http(code: int) | Wraps(inner: Err) | Joins(all: seq<Err>)

  function AsHTTPError(e: Err): Option<int>
    decreases e, 0
  {
    match e
    case Other => None
    case Http(code) => Some(code)
    case Wraps(inner) => AsHTTPError(inner)
    case Joins(all) => AsAny(all)
  }

  function AsAny(es: seq<Err>): Option<int>
    decreases es, 1
  {
    if es == [] then None
    else if AsHTTPError(es[0]).Some? then AsHTTPError(es[0])
    else AsAny(es[1..])
  }

  /** Every *HTTPError code in the tree, in depth-first order. */
  function HttpCodes(e: Err): seq<int>
    decreases e, 0
  {
    match e
    case Other => []
    case Http(code) => [code]
    case Wraps(inner) => HttpCodes(inner)
    case Joins(all) => CodesOfAll(all)
  }

  function CodesOfAll(es: seq<Err>): seq<int>
    decreases es, 1
  {
    if es == [] then [] else HttpCodes(es[0]) + CodesOfAll(es[1..])
  }

  /** The search stops at the first *HTTPError of the tree. */
  lemma {:induction false} FirstHttpCode(e: Err)
    ensures AsHTTPError(e) == if HttpCodes(e) == [] then None else Some(HttpCodes(e)[0])
    decreases e, 0
  {
    match e
    case Wraps(inner) => FirstHttpCode(inner);
    case Joins(all) => FirstOfAll(all);
    case _ =>
  }

  lemma {:induction false} FirstOfAll(es: seq<Err>)
    ensures AsAny(es) == if CodesOfAll(es) == [] then None else Some(CodesOfAll(es)[0])
    decreases es, 1
  {
    if es == [] {
    } else {
      FirstHttpCode(es[0]);
      FirstOfAll(es[1..]);
    }
  }

  datatype End = Return | Fail(err: Err) | Panic

  /** What the handler does with one request; how many bytes of an error page,
      or of Recover's text, the underlying writer accepts; and whether the
      metrics library refuses the host, or the path, as a label, with a panic. */
  datatype Request = Request(
    steps: seq<Step>,
    end: End,
    errorBytes: nat,
    panicBytes: nat,
    hostRefused: bool,
    pathRefused: bool)

  function ErrorCode(e: Err): int {
    if AsHTTPError(e).Some? then AsHTTPError(e).value else INTERNAL_SERVER_ERROR
  }

  /** http.Error: a status, then a body. */
  function HttpError(code: int, accepted: nat): seq<Step> { [SetStatus(code), Write(accepted)] }

  /** The error handler runs, and counts the error before anything else. */
  predicate ErrorCounted(req: Request) { req.end.Fail? && !req.hostRefused }

  /** The handler, continued by the error page when it returns an error. */
  function Program(req: Request): seq<Step> {
    req.steps + if ErrorCounted(req) then HttpError(ErrorCode(req.end.err), req.errorBytes) else []
  }

  /** After all steps comes a panic: the handler's own, that of the error counter
      or, past a handler that returned, that of AccessLog's request counter. */
  predicate EndsInPanic(accessLog: bool, req: Request) {
    || req.end.Panic? || (req.end.Fail? && req.hostRefused)
    || (accessLog && (req.hostRefused || req.pathRefused))
  }

  function OnWire(w: Wire, p: seq<Step>): Written<Wire>
    decreases p
  {
    if p == [] then Written(w, false)
    else
      var f := if p[0].SetStatus? then WireHeader(w, p[0].code) else Written(WireWrite(w, p[0].accepted), false);
      if f.panics then f else OnWire(f.w, p[1..])
  }

  function OnRecorder(r: Recorder, p: seq<Step>): Written<Recorder>
    decreases p
  {
    if p == [] then Written(r, false)
    else
      var f := if p[0].SetStatus? then RecorderHeader(r, p[0].code) else RecorderWrite(r, p[0].accepted);
      if f.panics then f else OnRecorder(f.w, p[1..])
  }

  datatype LogEntry = LogEntry(statusCode: int, length: nat)

  datatype Response = Response(wire: Wire, log: Option<LogEntry>, recovered: bool)

  /** Recover around AccessLog (when enabled) around the handler. */
  function Serve(accessLog: bool, req: Request): Response {
    var r := OnRecorder(NewRecorder(FRESH), Program(req));
    var d := OnWire(FRESH, Program(req));
    var w := if accessLog then r.w.wire else d.w;
    if (if accessLog then r.panics else d.panics) || EndsInPanic(accessLog, req) then
      Response(OnWire(w, HttpError(INTERNAL_SERVER_ERROR, req.panicBytes)).w, None, true)
    else
      Response(w, if accessLog then Some(LogEntry(r.w.statusCode, r.w.length)) else None, false)
  }

  // -------------------------------------------------------- what is recorded

  /** Bytes accepted over a whole program. */
  function Bytes(p: seq<Step>): nat {
    if p == [] then 0 else (if p[0].Write? then p[0].accepted else 0) + Bytes(p[1..])
  }

  /** The status the first step asks for; a write, or no step, asks for 200. */
  function FirstStatus(p: seq<Step>): int {
    if p != [] && p[0].SetStatus? then p[0].code else OK
  }

  predicate HasWrite(p: seq<Step>) { exists i :: 0 <= i < |p| && p[i].Write? }

  lemma {:induction false} AfterFirstHeader(r: Recorder, p: seq<Step>)
    requires r.written
    ensures var f := OnRecorder(r, p);
            && !f.panics && f.w.written
            && f.w.statusCode == r.statusCode
            && f.w.length == r.length + Bytes(p)
            && f.w.wire == Wire(if r.wire.status.None? && HasWrite(p) then Some(OK) else r.wire.status,
                                r.wire.interim, r.wire.calls, r.wire.body + Bytes(p))
    decreases p
  {
    if p == [] {
    } else {
      var q := p[1..];
      assert forall i :: 0 <= i < |q| ==> q[i] == p[i + 1];
      assert forall i :: 0 < i < |p| ==> p[i] == q[i - 1];
      var r1 := if p[0].SetStatus? then RecorderHeader(r, p[0].code).w else RecorderWrite(r, p[0].accepted).w;
      AfterFirstHeader(r1, q);
    }
  }

  /** The status that the recorder lets through. */
  function Forwarded(p: seq<Step>): Option<int> {
    if p == [] || Invalid(FirstStatus(p)) then None
    else if !Interim(FirstStatus(p)) then Some(FirstStatus(p))
    else if HasWrite(p) then Some(OK) else None
  }

  /** A whole program on a fresh recorder: the first status wins, is recorded,
      and is the only one forwarded; the rest of the program only adds bytes. */
  lemma RecorderOutcome(p: seq<Step>)
    ensures var f := OnRecorder(NewRecorder(FRESH), p);
            && (f.panics <==> Invalid(FirstStatus(p)))
            && f.w.wire.calls <= 1
            && f.w.statusCode == FirstStatus(p)
            && (!f.panics ==> f.w.length == f.w.wire.body == Bytes(p))
            && f.w.wire.status == Forwarded(p)
            && f.w.wire.interim == (if Interim(FirstStatus(p)) then [FirstStatus(p)] else [])
  {
    if p == [] {
    } else {
      var q := p[1..];
      var r := NewRecorder(FRESH);
      var f := if p[0].SetStatus? then RecorderHeader(r, p[0].code) else RecorderWrite(r, p[0].accepted);
      assert forall i :: 0 <= i < |q| ==> q[i] == p[i + 1];
      assert forall i :: 0 < i < |p| ==> p[i] == q[i - 1];
      if !f.panics { AfterFirstHeader(f.w, q); }
    }
  }

  /** For every request that does not panic, the logged status is the one the
      client gets exactly when the first status asked for is not an interim
      one; the logged length is always the bytes the client gets. */
  lemma LoggedIsCommitted(req: Request)
    requires Serve(true, req).log.Some?
    ensures var s := Serve(true, req);
            && (s.log.value.statusCode == Committed(s.wire) <==> !Interim(FirstStatus(Program(req))))
            && s.log.value.length == s.wire.body == Bytes(Program(req))
            && s.wire.calls <= 1
  {
    RecorderOutcome(Program(req));
  }

  // ------------------------------------------------------------ end to end

  /** How many interim statuses come first. */
  function LeadingInterim(p: seq<Step>): (k: nat)
    ensures k <= |p|
    ensures forall i :: 0 <= i < k ==> p[i].SetStatus? && Interim(p[i].code)
    ensures k < |p| ==> p[k].Write? || !Interim(p[k].code)
  {
    if p != [] && p[0].SetStatus? && Interim(p[0].code) then 1 + LeadingInterim(p[1..]) else 0
  }

  /** The status of the first step that decides it, if any; 500 when the step
      panics. */
  function Decided(p: seq<Step>): Option<int> {
    var k := LeadingInterim(p);
    if k == |p| then None
    else if p[k].Write? then Some(OK)
    else if Invalid(p[k].code) then Some(INTERNAL_SERVER_ERROR)
    else Some(p[k].code)
  }

  /** A refused status is the first to come after the interim ones. */
  predicate Refused(p: seq<Step>) {
    var k := LeadingInterim(p);
    k < |p| && p[k].SetStatus? && Invalid(p[k].code)
  }

  /** The interim statuses that come first. */
  function InterimCodes(p: seq<Step>): seq<int> {
    seq(LeadingInterim(p), i requires 0 <= i < LeadingInterim(p) => p[i].code)
  }

  lemma {:induction false} WireOutcome(w: Wire, p: seq<Step>)
    requires w.status.None?
    ensures var f := OnWire(w, p);
            && (f.panics <==> Refused(p))
            && f.w.status == (if Refused(p) then None else Decided(p))
            && f.w.body == w.body + (if Refused(p) then 0 else Bytes(p))
            && f.w.interim == w.interim + InterimCodes(p)
    decreases p
  {
    if p == [] {
    } else if p[0].SetStatus? && Interim(p[0].code) {
      WireOutcome(WireHeader(w, p[0].code).w, p[1..]);
      assert InterimCodes(p) == [p[0].code] + InterimCodes(p[1..]);
    } else {
      assert InterimCodes(p) == [];
      if p[0].Write? {
        CommittedStays(WireWrite(w, p[0].accepted), p[1..]);
      } else if !Invalid(p[0].code) {
        CommittedStays(WireHeader(w, p[0].code).w, p[1..]);
      }
    }
  }

  /** Once a status is committed nothing changes it, and nothing panics; the
      rest of the program only adds bytes. */
  lemma {:induction false} CommittedStays(w: Wire, p: seq<Step>)
    requires w.status.Some?
    ensures var f := OnWire(w, p);
            !f.panics && f.w.status == w.status && f.w.interim == w.interim && f.w.body == w.body + Bytes(p)
    decreases p
  {
    if p == [] {
    } else {
      CommittedStays(if p[0].SetStatus? then WireHeader(w, p[0].code).w else WireWrite(w, p[0].accepted), p[1..]);
    }
  }

  /** What Recover's answer does to the response. */
  lemma Rescued(w: Wire, accepted: nat)
    ensures var v := OnWire(w, HttpError(INTERNAL_SERVER_ERROR, accepted)).w;
            && v.status == Some(if w.status.Some? then w.status.value else INTERNAL_SERVER_ERROR)
            && v.interim == w.interim && v.body == w.body + accepted
  {
    var p := HttpError(INTERNAL_SERVER_ERROR, accepted);
    assert Bytes(p[1..]) == accepted && p[1..][1..] == [];
    if w.status.Some? {
      CommittedStays(w, p);
    } else {
      CommittedStays(WireHeader(w, INTERNAL_SERVER_ERROR).w, p[1..]);
    }
  }

  /** What is sent when no step has decided the status. */
  function Undecided(accessLog: bool, req: Request): int {
    if EndsInPanic(accessLog, req) then INTERNAL_SERVER_ERROR else OK
  }

  /** What the client gets, for every request and both configurations. Without
      AccessLog the first deciding step of the handler, or of the error page
      after it, decides; failing that a panic means 500 and a return 200. With
      AccessLog an interim first status uses up the only forwarded call, so that
      no later status counts. The page of a returned error carries the first
      *HTTPError code of its tree, or 500. */
  lemma EndToEndStatus(req: Request)
    ensures var page :=
              if !req.end.Fail? || req.hostRefused then []
              else if HttpCodes(req.end.err) == [] then [SetStatus(500), Write(req.errorBytes)]
              else [SetStatus(HttpCodes(req.end.err)[0]), Write(req.errorBytes)];
            var p := req.steps + page;
            var off := if req.end.Panic? || (req.end.Fail? && req.hostRefused) then 500 else 200;
            var on := if req.end.Panic? || req.hostRefused || req.pathRefused then 500 else 200;
            && p == Program(req)
            && Committed(Serve(false, req).wire) == (if Decided(p).Some? then Decided(p).value else off)
            && Committed(Serve(true, req).wire) ==
                 if Interim(FirstStatus(p)) then (if HasWrite(p) then 200 else on)
                 else if Decided(p).Some? then Decided(p).value else on
  {
    if req.end.Fail? { FirstHttpCode(req.end.err); }
    ServeWithout(req);
    ServeWith(req);
  }

  /** The status when the handler itself sends nothing. */
  lemma SilentHandler(accessLog: bool, req: Request)
    requires req.steps == []
    ensures var s := Serve(accessLog, req);
            match req.end
            case Panic => Committed(s.wire) == 500 && s.recovered
            case Return =>
              var refused := accessLog && (req.hostRefused || req.pathRefused);
              Committed(s.wire) == (if refused then 500 else 200) && s.recovered == refused
            case Fail(e) =>
              var code := if HttpCodes(e) == [] then 500 else HttpCodes(e)[0];
              Committed(s.wire) ==
              if req.hostRefused || code < 100 || code > 999 then 500
              else if code <= 199 && code != 101 then 200
              else code
  {
    EndToEndStatus(req);
    ServeWithout(req);
    ServeWith(req);
    if ErrorCounted(req) { PageDecides(Program(req)[0].code, req.errorBytes); }
  }

  lemma PageDecides(code: int, accepted: nat)
    ensures Decided(HttpError(code, accepted))
         == Some(if Invalid(code) then 500 else if Interim(code) then 200 else code)
    ensures HasWrite(HttpError(code, accepted))
  {
    var p := HttpError(code, accepted);
    assert p[1].Write? && p[1..][0] == p[1];
    assert LeadingInterim(p[1..]) == 0;
  }

  /** The status when the handler starts by sending something: a write means
      200, a refused status 500 and a final one itself, whatever comes later. An
      interim one means nothing without AccessLog, and with it that the status
      is 200, or 500 when a panic comes before any write. */
  lemma SpeakingHandler(accessLog: bool, req: Request)
    requires req.steps != []
    ensures var s, first, rest := Serve(accessLog, req), req.steps[0], req.(steps := req.steps[1..]);
            if first.Write? then Committed(s.wire) == 200
            else if first.code < 100 || first.code > 999 then Committed(s.wire) == 500 && s.recovered
            else if first.code >= 200 || first.code == 101 then Committed(s.wire) == first.code
            else if !accessLog then Committed(s.wire) == Committed(Serve(false, rest).wire)
            else
              var page := req.end.Fail? && !req.hostRefused;
              var writes := exists i :: 0 <= i < |req.steps| && req.steps[i].Write?;
              Committed(s.wire) ==
              if !page && !writes && (req.end.Panic? || req.hostRefused || req.pathRefused) then 500 else 200
  {
    var p, rest := Program(req), req.(steps := req.steps[1..]);
    EndToEndStatus(req);
    FirstStepOf(p);
    assert p[0] == req.steps[0] && p[1..] == Program(rest);
    if p[0].SetStatus? && Invalid(p[0].code) {
      ServeWithout(req);
      ServeWith(req);
    } else if p[0].SetStatus? && Interim(p[0].code) {
      if accessLog { WritesOf(req); } else { EndToEndStatus(rest); }
    }
  }

  /** What the first step of a program says about the status. */
  lemma FirstStepOf(p: seq<Step>)
    requires p != []
    ensures p[0].Write? ==> !Interim(FirstStatus(p)) && Decided(p) == Some(200)
    ensures p[0].SetStatus? ==> FirstStatus(p) == p[0].code
    ensures p[0].SetStatus? && Invalid(p[0].code) ==> Refused(p) && Decided(p) == Some(500)
    ensures p[0].SetStatus? && Final(p[0].code) ==> Decided(p) == Some(p[0].code)
    ensures p[0].SetStatus? && Interim(p[0].code) ==> Decided(p) == Decided(p[1..])
  {
  }

  lemma WritesOf(req: Request)
    ensures HasWrite(Program(req)) <==> ErrorCounted(req) || exists i :: 0 <= i < |req.steps| && req.steps[i].Write?
  {
    var p := Program(req);
    assert forall i :: 0 <= i < |req.steps| ==> p[i] == req.steps[i];
    if ErrorCounted(req) { assert p[|req.steps| + 1].Write?; }
  }

  /** The whole answer without AccessLog. */
  lemma ServeWithout(req: Request)
    ensures var p, s := Program(req), Serve(false, req);
            && s.recovered == (Refused(p) || EndsInPanic(false, req))
            && s.wire.status == (if Decided(p).Some? || !s.recovered then Decided(p)
                                 else Some(INTERNAL_SERVER_ERROR))
            && s.wire.interim == InterimCodes(p)
            && s.wire.body == (if Refused(p) then 0 else Bytes(p)) + (if s.recovered then req.panicBytes else 0)
  {
    WireOutcome(FRESH, Program(req));
    Rescued(OnWire(FRESH, Program(req)).w, req.panicBytes);
  }

  /** The whole answer with AccessLog. */
  lemma ServeWith(req: Request)
    ensures var p, s := Program(req), Serve(true, req);
            && s.recovered == (Invalid(FirstStatus(p)) || EndsInPanic(true, req))
            && s.wire.status == (if Forwarded(p).Some? || !s.recovered then Forwarded(p)
                                 else Some(INTERNAL_SERVER_ERROR))
            && s.wire.interim == (if Interim(FirstStatus(p)) then [FirstStatus(p)] else [])
            && s.wire.body == (if Invalid(FirstStatus(p)) then 0 else Bytes(p))
                              + (if s.recovered then req.panicBytes else 0)
            && s.log == (if s.recovered then None else Some(LogEntry(FirstStatus(p), Bytes(p))))
  {
    RecorderOutcome(Program(req));
    Rescued(OnRecorder(NewRecorder(FRESH), Program(req)).w.wire, req.panicBytes);
  }

  /** The everyday reading, when the first status asked for is not an interim
      one: the handler's first status if it did anything; else the code of the
      returned error; else 500 for a panic. An error or a panic after the first
      step never changes the status, and a refused code becomes 500. */
  lemma FinalCodesStatus(accessLog: bool, req: Request)
    requires !Interim(FirstStatus(Program(req)))
    ensures var on := accessLog && (req.hostRefused || req.pathRefused);
            var asked :=
              if req.steps != [] then FirstStatus(req.steps)
              else if req.end.Panic? || (req.end.Fail? && req.hostRefused) then 500
              else if req.end.Fail? then (if HttpCodes(req.end.err) == [] then 500 else HttpCodes(req.end.err)[0])
              else if on then 500 else 200;
            Committed(Serve(accessLog, req).wire) == if asked < 100 || asked > 999 then 500 else asked
  {
    EndToEndStatus(req);
    var p := Program(req);
    if req.steps != [] { assert p[0] == req.steps[0]; }
    assert LeadingInterim(p) == 0;
  }

  // ------------------------------------------------- what AccessLog changes

  /** The status is the same with and without AccessLog: nothing was decided
      and both end alike, or what was decided is what AccessLog lets through. */
  predicate StatusAgrees(req: Request) {
    var p := Program(req);
    if Interim(FirstStatus(p)) && HasWrite(p) then Decided(p) == Some(OK)
    else if Decided(p).None? then EndsInPanic(true, req) == EndsInPanic(false, req)
    else Interim(FirstStatus(p)) ==> Decided(p).value == Undecided(true, req)
  }

  /** Recover is needed with AccessLog exactly when it is without. */
  predicate RescueAgrees(req: Request) {
    var p := Program(req);
    Invalid(FirstStatus(p)) || EndsInPanic(true, req) <==> Refused(p) || EndsInPanic(false, req)
  }

  predicate SameAnswer(a: Response, b: Response) {
    && Committed(a.wire) == Committed(b.wire) && a.wire.interim == b.wire.interim
    && a.wire.body == b.wire.body && a.recovered == b.recovered
  }

  /** When AccessLog changes nothing, for every request: the status agrees, there
      is at most one interim status, and Recover is needed in both cases or in
      neither; the body then agrees too. */
  lemma AccessLogIsTransparent(req: Request)
    ensures var on, off := Serve(true, req), Serve(false, req);
            && (Committed(on.wire) == Committed(off.wire) <==> StatusAgrees(req))
            && (on.wire.interim == off.wire.interim <==> LeadingInterim(Program(req)) <= 1)
            && (on.recovered == off.recovered <==> RescueAgrees(req))
            && (SameAnswer(on, off) <==>
                  StatusAgrees(req) && LeadingInterim(Program(req)) <= 1 && RescueAgrees(req))
  {
    ServeWithout(req);
    ServeWith(req);
    FirstDecides(Program(req));
    if !HasWrite(Program(req)) { NoWritesNoBytes(Program(req)); }
  }

  lemma {:induction false} NoWritesNoBytes(p: seq<Step>)
    requires !HasWrite(p)
    ensures Bytes(p) == 0
  {
    if p == [] {
    } else {
      assert forall i :: 0 <= i < |p| - 1 ==> p[1..][i] == p[i + 1];
      NoWritesNoBytes(p[1..]);
    }
  }

  /** How the first status relates to the deciding one. */
  lemma FirstDecides(p: seq<Step>)
    ensures Interim(FirstStatus(p)) <==> LeadingInterim(p) > 0
    ensures !Interim(FirstStatus(p)) ==> Decided(p) == if Refused(p) then Some(INTERNAL_SERVER_ERROR) else Forwarded(p)
    ensures HasWrite(p) ==> Decided(p).Some?
    ensures Invalid(FirstStatus(p)) ==> Refused(p)
  {
  }

  /** For a request whose labels the metrics library takes, a first status that
      is not interim is enough: nothing on the wire but the count of calls of
      WriteHeader can differ. */
  lemma TransparentWhenFirstIsFinal(req: Request)
    requires !Interim(FirstStatus(Program(req))) && !req.hostRefused && !req.pathRefused
    ensures var on, off := Serve(true, req), Serve(false, req);
            on.recovered == off.recovered && on.wire.(calls := 0) == off.wire.(calls := 0)
  {
    ServeWithout(req);
    ServeWith(req);
    FirstDecides(Program(req));
  }

  /** A refused label, on a request that is otherwise answered as usual, costs
      the log line and appends Recover's text to the body; a handler that did
      nothing at all is answered 500 for 200. */
  lemma RefusedLabels(req: Request)
    requires Final(FirstStatus(Program(req))) && !EndsInPanic(false, req)
    requires req.hostRefused || req.pathRefused
    ensures var on, off := Serve(true, req), Serve(false, req);
            && on.log == None && on.recovered && !off.recovered
            && on.wire.body == off.wire.body + req.panicBytes
            && (Committed(on.wire) == Committed(off.wire) <==> Program(req) != [])
  {
    ServeWithout(req);
    ServeWith(req);
    FirstDecides(Program(req));
  }

  /** Early hints followed by 404: without AccessLog the client gets 404, with
      it 200, and the log says 103. */
  lemma InterimIsRecordedAsFinal()
    ensures var req := Request([SetStatus(103), SetStatus(404), Write(1)], Return, 0, 0, false, false);
            && Committed(Serve(false, req).wire) == 404
            && Committed(Serve(true, req).wire) == 200
            && Serve(true, req).log == Some(LogEntry(103, 1))
  {
  }
}
