/** The response writers and the request path as objects and methods, proved
    against Pipeline, and the counters over any sequence of requests. */
module PipelineObjects {
  import opened Basics
  import opened Pipeline

  /** net/http's response. */
  class HttpResponse {
    var status: Option<int>
    var interim: seq<int>
    var calls: nat
    var body: nat

    constructor ()
      ensures Value() == FRESH
    {
      status, interim, calls, body := None, [], 0, 0;
    }

    ghost function Value(): Wire
      reads this
    {
      Wire(status, interim, calls, body)
    }

    method WriteHeader(code: int) returns (panics: bool)
      modifies this
      ensures Written(Value(), panics) == WireHeader(old(Value()), code)
    {
      calls := calls + 1;
      if status.Some? { return false; }
      if Invalid(code) { return true; }
      if Interim(code) {
        interim := interim + [code];
      } else {
        status := Some(code);
      }
      return false;
    }

    method Write(accepted: nat)
      modifies this
      ensures Value() == WireWrite(old(Value()), accepted)
    {
      if status.None? { status := Some(OK); }
      body := body + accepted;
    }

    method Play(p: seq<Step>) returns (panics: bool)
      modifies this
      ensures Written(Value(), panics) == OnWire(old(Value()), p)
    {
      var i := 0;
      while i < |p|
        invariant 0 <= i <= |p|
        invariant OnWire(old(Value()), p) == OnWire(Value(), p[i..])
      {
        assert p[i..][1..] == p[i + 1..];
        if p[i].SetStatus? {
          var stop := WriteHeader(p[i].code);
          if stop { return true; }
        } else {
          Write(p[i].accepted);
        }
        i := i + 1;
      }
      return false;
    }

    /** http.Error. */
    method Error(code: int, accepted: nat) returns (panics: bool)
      modifies this
      ensures Written(Value(), panics) == OnWire(old(Value()), HttpError(code, accepted))
    {
      panics := Play([SetStatus(code), Step.Write(accepted)]);
    }
  }

  /** AccessLog's recording writer. */
  class ResponseWriter {
    const inner: HttpResponse
    var statusCode: int
    var written: bool
    var responseLength: nat

    constructor (w: HttpResponse)
      ensures inner == w && Value() == NewRecorder(w.Value())
    {
      inner := w;
      statusCode, written, responseLength := OK, false, 0;
    }

    ghost function Value(): Recorder
      reads this, inner
    {
      Recorder(statusCode, written, responseLength, inner.Value())
    }

    method WriteHeader(code: int) returns (panics: bool)
      modifies this, inner
      ensures Written(Value(), panics) == RecorderHeader(old(Value()), code)
    {
      if written { return false; }
      statusCode := code;
      written := true;
      panics := inner.WriteHeader(code);
    }

    method Write(accepted: nat) returns (panics: bool)
      modifies this, inner
      ensures Written(Value(), panics) == RecorderWrite(old(Value()), accepted)
    {
      if !written {
        panics := WriteHeader(OK);
        if panics { return; }
      }
      inner.Write(accepted);
      responseLength := responseLength + accepted;
      panics := false;
    }

    method Play(p: seq<Step>) returns (panics: bool)
      modifies this, inner
      ensures Written(Value(), panics) == OnRecorder(old(Value()), p)
    {
      var i := 0;
      while i < |p|
        invariant 0 <= i <= |p|
        invariant OnRecorder(old(Value()), p) == OnRecorder(Value(), p[i..])
      {
        assert p[i..][1..] == p[i + 1..];
        var stop: bool;
        if p[i].SetStatus? {
          stop := WriteHeader(p[i].code);
        } else {
          stop := Write(p[i].accepted);
        }
        if stop { return true; }
        i := i + 1;
      }
      return false;
    }
  }

  /** Requests that the error handler counts: the handler returned an error, no
      status it had asked for was refused with a panic, and the metrics library
      takes the host as a label. With AccessLog only its first status counts. */
  predicate ReturnsError(accessLog: bool, req: Request) {
    && req.end.Fail? && !req.hostRefused
    && if accessLog then !Invalid(FirstStatus(req.steps)) else !Refused(req.steps)
  }

  class Server {
    const accessLog: bool
    var requestCount: nat  // AccessLog's counter
    var recovered: nat     // panics Recover logged
    var errors: nat        // the error handler's counter
    ghost var served: seq<Request>
    ghost var responses: seq<Response>

    constructor (accessLog: bool)
      ensures this.accessLog == accessLog && served == [] && responses == [] && Valid()
    {
      this.accessLog := accessLog;
      requestCount, recovered, errors := 0, 0, 0;
      served, responses := [], [];
    }

    /** Every request was answered as Pipeline says, and is counted once: by
        AccessLog when it returned, by Recover when it panicked. */
    ghost predicate Valid()
      reads this
    {
      && |responses| == |served|
      && (forall i :: 0 <= i < |served| ==> responses[i] == Serve(accessLog, served[i]))
      && (if accessLog then requestCount + recovered == |served| else requestCount == 0)
      && recovered == |Rescues(responses)|
      && errors == Errors(accessLog, served)
    }

    /** The body of the error handler and of wrapHandlerFunc, through AccessLog. */
    method ThroughAccessLog(req: Request, w: HttpResponse) returns (panics: bool, log: Option<LogEntry>)
      requires w.Value() == FRESH
      modifies this`requestCount, this`errors, w
      ensures var r := OnRecorder(NewRecorder(FRESH), Program(req));
              && w.Value() == r.w.wire
              && panics == (r.panics || EndsInPanic(true, req))
              && log == if panics then None else Some(LogEntry(r.w.statusCode, r.w.length))
      ensures requestCount == old(requestCount) + (if panics then 0 else 1)
      ensures errors == old(errors) + if ReturnsError(true, req) then 1 else 0
    {
      var rw := new ResponseWriter(w);
      log := None;
      panics := rw.Play(req.steps);
      RecorderOutcome(req.steps);
      RecorderSplit(NewRecorder(FRESH), req.steps, Program(req)[|req.steps|..]);
      if panics || req.end.Panic? { return true, None; }
      if req.end.Fail? {
        if req.hostRefused { return true, None; }
        errors := errors + 1;
        panics := rw.Play(HttpError(ErrorCode(req.end.err), req.errorBytes));
        if panics { return true, None; }
      }
      if req.hostRefused || req.pathRefused { return true, None; }
      requestCount := requestCount + 1;
      log := Some(LogEntry(rw.statusCode, rw.responseLength));
    }

    method Direct(req: Request, w: HttpResponse) returns (panics: bool)
      requires w.Value() == FRESH
      modifies this`errors, w
      ensures var d := OnWire(FRESH, Program(req));
              w.Value() == d.w && panics == (d.panics || EndsInPanic(false, req))
      ensures errors == old(errors) + if ReturnsError(false, req) then 1 else 0
    {
      panics := w.Play(req.steps);
      WireOutcome(FRESH, req.steps);
      WireSplit(FRESH, req.steps, Program(req)[|req.steps|..]);
      if panics || req.end.Panic? { return true; }
      if req.end.Fail? {
        if req.hostRefused { return true; }
        errors := errors + 1;
        panics := w.Play(HttpError(ErrorCode(req.end.err), req.errorBytes));
      }
    }

    method ServeHTTP(req: Request) returns (status: int)
      requires Valid()
      modifies this
      ensures Valid() && served == old(served) + [req]
      ensures responses == old(responses) + [Serve(accessLog, req)]
      ensures status == Committed(Serve(accessLog, req).wire)
    {
      var w := new HttpResponse();
      var panics: bool;
      var log: Option<LogEntry> := None;
      if accessLog {
        panics, log := ThroughAccessLog(req, w);
      } else {
        panics := Direct(req, w);
      }
      if panics {
        recovered := recovered + 1;
        var again := w.Error(INTERNAL_SERVER_ERROR, req.panicBytes);
      }
      status := if w.status.Some? then w.status.value else OK;
      Account(req, Response(w.Value(), log, panics));
    }

    /** Files a request whose counters have been brought up to date. */
    ghost method Account(req: Request, res: Response)
      requires res == Serve(accessLog, req)
      requires |responses| == |served| && forall i :: 0 <= i < |served| ==> responses[i] == Serve(accessLog, served[i])
      requires if accessLog then requestCount + recovered == |served| + 1 else requestCount == 0
      requires recovered == |Rescues(responses)| + if res.recovered then 1 else 0
      requires errors == Errors(accessLog, served) + if ReturnsError(accessLog, req) then 1 else 0
      modifies this`served, this`responses
      ensures Valid() && served == old(served) + [req] && responses == old(responses) + [res]
    {
      RescuesExtend(responses, res);
      served, responses := served + [req], responses + [res];
      assert served[..|served| - 1] == old(served);
    }

    method ServeAll(reqs: seq<Request>)
      requires Valid()
      modifies this
      ensures Valid() && served == old(served) + reqs
    {
      var i := 0;
      while i < |reqs|
        invariant 0 <= i <= |reqs|
        invariant Valid() && served == old(served) + reqs[..i]
      {
        var status := ServeHTTP(reqs[i]);
        i := i + 1;
      }
    }
  }

  ghost function Rescues(rs: seq<Response>): set<nat> {
    set i: nat | i < |rs| && rs[i].recovered
  }

  lemma RescuesExtend(rs: seq<Response>, r: Response)
    ensures |Rescues(rs + [r])| == |Rescues(rs)| + if r.recovered then 1 else 0
  {
    assert Rescues(rs + [r]) == Rescues(rs) + if r.recovered then {|rs|} else {};
  }

  function Errors(accessLog: bool, reqs: seq<Request>): nat {
    if reqs == [] then 0
    else Errors(accessLog, reqs[..|reqs| - 1]) + if ReturnsError(accessLog, reqs[|reqs| - 1]) then 1 else 0
  }

  lemma {:induction false} RecorderSplit(r: Recorder, p: seq<Step>, q: seq<Step>)
    ensures OnRecorder(r, p + q) == var f := OnRecorder(r, p); if f.panics then f else OnRecorder(f.w, q)
    decreases p
  {
    if p == [] {
      assert p + q == q;
    } else {
      assert (p + q)[1..] == p[1..] + q;
      var f := if p[0].SetStatus? then RecorderHeader(r, p[0].code) else RecorderWrite(r, p[0].accepted);
      if !f.panics { RecorderSplit(f.w, p[1..], q); }
    }
  }

  lemma {:induction false} WireSplit(w: Wire, p: seq<Step>, q: seq<Step>)
    ensures OnWire(w, p + q) == var f := OnWire(w, p); if f.panics then f else OnWire(f.w, q)
    decreases p
  {
    if p == [] {
      assert p + q == q;
    } else {
      assert (p + q)[1..] == p[1..] + q;
      var f := if p[0].SetStatus? then WireHeader(w, p[0].code) else Written(WireWrite(w, p[0].accepted), false);
      if !f.panics { WireSplit(f.w, p[1..], q); }
    }
  }
}
