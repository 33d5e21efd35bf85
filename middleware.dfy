/**
  The middleware of internal/middleware/middleware.go: the fold that wraps a
  handler in a list of middlewares, the access logger with its status-capturing
  writer, and the panic recovery.

  A handler is abstract: the routed handler (the mux) is given by what it does
  for the request, its writer calls and whether it returned or panicked. The
  two middlewares are constructors wrapping the handler they decorate.
 */
module Middleware {
  import opened Wrappers
  import opened Http

  // ---------------------------------------------------------------------------
  // Chain

  /** The handler with the first-listed middleware outermost: m0(m1(...mn(h))). */
  function Nest<H>(middlewares: seq<H -> H>, h: H): H
    decreases |middlewares|
  {
    if middlewares == [] then h else middlewares[0](Nest(middlewares[1..], h))
  }

  /** Chain: applies the middlewares from the last one back to the first. */
  method Chain<H>(h: H, middlewares: seq<H -> H>) returns (r: H)
    ensures r == Nest(middlewares, h)
    ensures middlewares == [] ==> r == h
  {
    r := h;
    var i := |middlewares|;
    while i > 0
      invariant 0 <= i <= |middlewares|
      invariant r == Nest(middlewares[i..], h)
    {
      i := i - 1;
      assert middlewares[i..][1..] == middlewares[i + 1..];
      r := middlewares[i](r);
    }
  }

  /** Chaining in two stages is chaining once with the lists concatenated. */
  lemma {:induction false} NestAppend<H>(outer: seq<H -> H>, inner: seq<H -> H>, h: H)
    ensures Nest(outer + inner, h) == Nest(outer, Nest(inner, h))
    decreases |outer|
  {
    if outer == [] {
      assert outer + inner == inner;
    } else {
      assert (outer + inner)[1..] == outer[1..] + inner;
      NestAppend(outer[1..], inner, h);
    }
  }

  // ---------------------------------------------------------------------------
  // Handlers, outcomes and logs

  datatype Handler = Mux | Logged(next: Handler) | Recovered(next: Handler)

  /** The Logger middleware. */
  function Logger(next: Handler): Handler
  {
    Logged(next)
  }

  /** The Recover middleware. */
  function Recover(next: Handler): Handler
  {
    Recovered(next)
  }

  /** The handler the server runs: the mux chained with Logger, then Recover (cmd/web/main.go). */
  method ServerHandler() returns (h: Handler)
    ensures h == Logged(Recovered(Mux))
  {
    var middlewares: seq<Handler -> Handler> := [Logger, Recover];
    h := Chain(Mux, middlewares);
    assert middlewares[1..] == [Recover] && middlewares[1..][1..] == [];
    assert Nest(middlewares[1..], Mux) == Recover(Mux);
  }

  datatype Outcome = Returned | Panicked(reason: string)

  /** What the mux does for one request: its writer calls, in order, and how it ended. */
  datatype Run = Run(actions: seq<Action>, outcome: Outcome)

  /** A line written by `log.Printf`. Durations and stack traces are not modelled. */
  datatype LogEntry = Access(verb: string, path: string, status: int) | PanicReport(reason: string)

  /** What a wrapped handler did: the writer calls that reached the client's writer, how it ended, and its log. */
  datatype Served = Served(actions: seq<Action>, outcome: Outcome, log: seq<LogEntry>)

  // ---------------------------------------------------------------------------
  // The status-capturing writer

  /** The status a `responseWriter` holds after the calls, starting from `status`: every WriteHeader overwrites it. */
  function StatusAfter(status: int, actions: seq<Action>): int
    decreases |actions|
  {
    if actions == [] then status
    else StatusAfter(if actions[0].SetStatus? then actions[0].code else status, actions[1..])
  }

  /** The status Logger reads: 200 unless some WriteHeader came, the last code then. */
  function RecordedStatus(actions: seq<Action>): int
  {
    StatusAfter(STATUS_OK, actions)
  }

  lemma {:induction false} StatusAfterAppend(status: int, first: seq<Action>, second: seq<Action>)
    ensures StatusAfter(status, first + second) == StatusAfter(StatusAfter(status, first), second)
    decreases |first|
  {
    if first == [] {
      assert first + second == second;
    } else {
      assert (first + second)[1..] == first[1..] + second;
      StatusAfterAppend(if first[0].SetStatus? then first[0].code else status, first[1..], second);
    }
  }

  /**
    The recorded status is the code of the last WriteHeader call, or the
    starting status when there was none.
   */
  lemma {:induction false} StatusIsLastCode(status: int, actions: seq<Action>)
    ensures (forall k :: 0 <= k < |actions| ==> !actions[k].SetStatus?) ==> StatusAfter(status, actions) == status
    ensures forall k :: 0 <= k < |actions| && actions[k].SetStatus? &&
                        (forall j :: k < j < |actions| ==> !actions[j].SetStatus?) ==>
              StatusAfter(status, actions) == actions[k].code
    decreases |actions|
  {
    if actions != [] {
      var next := if actions[0].SetStatus? then actions[0].code else status;
      StatusIsLastCode(next, actions[1..]);
      assert forall k :: 1 <= k < |actions| ==> actions[1..][k - 1] == actions[k];
    }
  }

  /** The client's writer, seen as the calls it receives. */
  class Recorder {
    var calls: seq<Action>

    constructor ()
      ensures calls == []
    {
      calls := [];
    }

    method WriteHeader(code: int)
      modifies this
      ensures calls == old(calls) + [SetStatus(code)]
    {
      calls := calls + [SetStatus(code)];
    }

    method Write(text: string)
      modifies this
      ensures calls == old(calls) + [WriteBody(text)]
    {
      calls := calls + [WriteBody(text)];
    }
  }

  /** `responseWriter`: wraps a writer and remembers the status last set through it. */
  class StatusWriter {
    const inner: Recorder
    var status: int

    /** Logger's wrapper starts at 200, the status a response has when no WriteHeader comes. */
    constructor (w: Recorder)
      ensures inner == w && status == STATUS_OK
    {
      inner := w;
      status := STATUS_OK;
    }

    /** Records the code and forwards it unchanged. */
    method WriteHeader(code: int)
      modifies this, inner
      ensures status == code
      ensures inner.calls == old(inner.calls) + [SetStatus(code)]
    {
      status := code;
      inner.WriteHeader(code);
    }

    /** Write is the embedded writer's own: it goes straight through and leaves the status alone. */
    method Write(text: string)
      modifies inner
      ensures inner.calls == old(inner.calls) + [WriteBody(text)]
    {
      inner.Write(text);
    }
  }

  /** The inner handler making its writer calls, in order, on the wrapper it was given. */
  method Perform(w: StatusWriter, actions: seq<Action>)
    modifies w, w.inner
    ensures w.status == StatusAfter(old(w.status), actions)
    ensures w.inner.calls == old(w.inner.calls) + actions
  {
    var k := 0;
    while k < |actions|
      invariant 0 <= k <= |actions|
      invariant StatusAfter(old(w.status), actions) == StatusAfter(w.status, actions[k..])
      invariant w.inner.calls == old(w.inner.calls) + actions[..k]
    {
      assert actions[k..][1..] == actions[k + 1..];
      assert actions[..k + 1] == actions[..k] + [actions[k]];
      match actions[k] {
        case SetStatus(code) => w.WriteHeader(code);
        case WriteBody(text) => w.Write(text);
      }
      k := k + 1;
    }
    assert actions[..k] == actions;
  }

  /**
    Logger serving one request: wrap the writer, run the inner handler once
    through the wrapper, then log the method, the path and the status the
    wrapper holds. A panic in the inner handler leaves Logger before the log
    line (None here).
   */
  method LoggerServeHTTP(w: Recorder, req: Request, next: Run) returns (entry: Option<LogEntry>)
    modifies w
    ensures w.calls == old(w.calls) + next.actions
    ensures next.outcome.Panicked? ==> entry == None
    ensures !next.outcome.Panicked? ==> entry == Some(Access(req.verb, req.path, RecordedStatus(next.actions)))
  {
    var wrapped := new StatusWriter(w);
    Perform(wrapped, next.actions);
    if next.outcome.Panicked? {
      entry := None;
    } else {
      entry := Some(Access(req.verb, req.path, wrapped.status));
    }
  }

  // ---------------------------------------------------------------------------
  // What each middleware does to the result of the handler it wraps

  /** Logger: the inner calls pass through untouched; a returning request gets one access line. */
  function LoggerStep(req: Request, inner: Served): (r: Served)
    ensures r.actions == inner.actions && r.outcome == inner.outcome
    ensures inner.outcome.Panicked? ==> r.log == inner.log
    ensures !inner.outcome.Panicked? ==>
              r.log == inner.log + [Access(req.verb, req.path, RecordedStatus(inner.actions))]
  {
    if inner.outcome.Panicked? then inner
    else Served(inner.actions, inner.outcome, inner.log + [Access(req.verb, req.path, RecordedStatus(inner.actions))])
  }

  /** Recover: a panic becomes a logged report and a 500 "Internal Server Error" response; anything else passes. */
  function RecoverStep(inner: Served): (r: Served)
    ensures r.outcome == Returned
    ensures !inner.outcome.Panicked? ==> r == inner
    ensures inner.outcome.Panicked? ==>
              && r.actions == inner.actions + ErrorActions("Internal Server Error", STATUS_INTERNAL_SERVER_ERROR)
              && r.log == inner.log + [PanicReport(inner.outcome.reason)]
  {
    if inner.outcome.Panicked? then
      Served(inner.actions + ErrorActions("Internal Server Error", STATUS_INTERNAL_SERVER_ERROR),
             Returned, inner.log + [PanicReport(inner.outcome.reason)])
    else inner
  }

  /** Serving a request through a handler whose mux behaves as `mux`. */
  function Serve(h: Handler, req: Request, mux: Run): Served
  {
    match h
    case Mux => Served(mux.actions, mux.outcome, [])
    case Logged(next) => LoggerStep(req, Serve(next, req, mux))
    case Recovered(next) => RecoverStep(Serve(next, req, mux))
  }

  /** Recovering twice adds nothing. */
  lemma RecoverIdempotent(h: Handler, req: Request, mux: Run)
    ensures Serve(Recovered(Recovered(h)), req, mux) == Serve(Recovered(h), req, mux)
  {
  }

  /**
    With the server's order (Logger outside Recover) every request ends
    normally and is logged last, with 500 when the mux panicked and with the
    mux's own recorded status otherwise.
   */
  lemma ServerLogsEveryRequest(req: Request, mux: Run)
    ensures var r := Serve(Logged(Recovered(Mux)), req, mux);
            && r.outcome == Returned
            && |r.log| > 0
            && r.log[|r.log| - 1] == Access(req.verb, req.path,
                 if mux.outcome.Panicked? then STATUS_INTERNAL_SERVER_ERROR else RecordedStatus(mux.actions))
  {
    var recovered := Serve(Recovered(Mux), req, mux);
    assert Serve(Mux, req, mux) == Served(mux.actions, mux.outcome, []);
    assert recovered == RecoverStep(Serve(Mux, req, mux));
    if mux.outcome.Panicked? {
      var tail := ErrorActions("Internal Server Error", STATUS_INTERNAL_SERVER_ERROR);
      StatusAfterAppend(STATUS_OK, mux.actions, tail);
      var before := StatusAfter(STATUS_OK, mux.actions);
      assert tail[0] == SetStatus(STATUS_INTERNAL_SERVER_ERROR) && tail[1..][0].WriteBody? && tail[1..][1..] == [];
      assert StatusAfter(before, tail) == StatusAfter(STATUS_INTERNAL_SERVER_ERROR, tail[1..]);
    }
  }

  /**
    A handler answering with a bad request or not found reaches the client
    unchanged through the server's middleware, and its access line carries
    400 or 404.
   */
  lemma ServerLogsErrorStatus(req: Request, r: Response)
    requires r.BadRequest? || r.NotFound?
    ensures var served := Serve(Logged(Recovered(Mux)), req, Run(ErrorWrites(r), Returned));
            && served.actions == ErrorWrites(r)
            && served.log == [Access(req.verb, req.path, if r.BadRequest? then STATUS_BAD_REQUEST else STATUS_NOT_FOUND)]
  {
    var writes := ErrorWrites(r);
    var mux := Run(writes, Returned);
    assert Serve(Mux, req, mux) == Served(writes, Returned, []);
    assert Serve(Recovered(Mux), req, mux) == Served(writes, Returned, []);
    assert writes[1..][0].WriteBody? && writes[1..][1..] == [];
    var code := if r.BadRequest? then STATUS_BAD_REQUEST else STATUS_NOT_FOUND;
    assert writes[0] == SetStatus(code);
    assert StatusAfter(STATUS_OK, writes) == StatusAfter(code, writes[1..]);
    assert StatusAfter(code, writes[1..]) == StatusAfter(code, writes[1..][1..]);
    assert RecordedStatus(writes) == code;
    assert [] + [Access(req.verb, req.path, code)] == [Access(req.verb, req.path, code)];
  }

  /** In the opposite order a panicking request is answered with 500 but never gets an access line. */
  lemma ReverseOrderLosesPanicLog(req: Request, mux: Run)
    requires mux.outcome.Panicked?
    ensures var r := Serve(Recovered(Logged(Mux)), req, mux);
            r.outcome == Returned && r.log == [PanicReport(mux.outcome.reason)]
  {
    var base := Serve(Mux, req, mux);
    assert Serve(Logged(Mux), req, mux) == base;
    assert base.log == [];
  }
}
