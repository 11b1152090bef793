/**
 The response side of the middleware chain: internal/middleware/recorder.go, recovery.go
 and logging.go, put together as in internal/handlers/router.go.

 Wire is net/http's own ResponseWriter, given by its contract: one final status line, an
 implicit 200, informational 1xx lines that commit nothing, no body under some statuses,
 and a panic for a code outside 100 to 999. A handler is any finite script of writes.
 */
module Middleware {
  import opened Wrappers

  const STATUS_SWITCHING_PROTOCOLS := 101
  const STATUS_OK := 200
  const STATUS_NO_CONTENT := 204
  const STATUS_NOT_MODIFIED := 304
  const STATUS_BAD_REQUEST := 400
  const STATUS_INTERNAL_ERROR := 500

  predicate Sendable(code: int) { 100 <= code <= 999 }

  // A code that settles the response.
  predicate Final(code: int) {
    code == STATUS_SWITCHING_PROTOCOLS || 200 <= code <= 999
  }

  predicate BodyAllowed(code: int) {
    !(100 <= code <= 199) && code != STATUS_NO_CONTENT && code != STATUS_NOT_MODIFIED
  }

  // Who wrote: the handler, or the error page of Recoverer.
  datatype Origin = Handler | ErrorPage

  class Wire {
    var lines: seq<int>  // final status lines sent
    var sent: map<Origin, nat>  // body bytes accepted

    constructor ()
      ensures lines == [] && sent == map[Handler := 0, ErrorPage := 0]
    {
      lines, sent := [], map[Handler := 0, ErrorPage := 0];
    }

    method WriteHeader(code: int) returns (panicked: bool)
      modifies this
      ensures sent == old(sent)
      ensures panicked <==> old(lines) == [] && !Sendable(code)
      ensures lines == if old(lines) == [] && Final(code) then [code] else old(lines)
    {
      panicked := lines == [] && !Sendable(code);
      if lines == [] && Final(code) {
        lines := [code];
      }
    }

    // room is how much the connection would take.
    method Write(origin: Origin, room: nat) returns (n: nat)
      requires sent.Keys == {Handler, ErrorPage}
      modifies this
      ensures lines == if old(lines) == [] then [STATUS_OK] else old(lines)
      ensures n == if BodyAllowed(lines[0]) then room else 0
      ensures sent == old(sent)[origin := old(sent)[origin] + n]
    {
      if lines == [] {
        lines := [STATUS_OK];
      }
      n := if BodyAllowed(lines[0]) then room else 0;
      sent := sent[origin := sent[origin] + n];
    }
  }

  class ResponseRecorder {
    const wire: Wire
    var status: int
    var bytes: nat
    var wroteHeader: bool

    constructor (wire: Wire)
      ensures this.wire == wire && status == STATUS_OK && bytes == 0 && !wroteHeader
    {
      this.wire, status, bytes, wroteHeader := wire, STATUS_OK, 0, false;
    }

    method WriteHeader(code: int) returns (panicked: bool)
      modifies this, wire
      ensures wroteHeader && bytes == old(bytes) && wire.sent == old(wire.sent)
      ensures status == if old(wroteHeader) then old(status) else code
      ensures wire.lines ==
        if !old(wroteHeader) && old(wire.lines) == [] && Final(code) then [code] else old(wire.lines)
      ensures panicked <==> !old(wroteHeader) && old(wire.lines) == [] && !Sendable(code)
    {
      if wroteHeader {
        return false;
      }
      status := code;
      wroteHeader := true;
      panicked := wire.WriteHeader(code);
    }

    method Write(origin: Origin, room: nat) returns (n: nat)
      requires wire.sent.Keys == {Handler, ErrorPage}
      modifies this, wire
      ensures wroteHeader && status == if old(wroteHeader) then old(status) else STATUS_OK
      ensures wire.lines == if old(wire.lines) == [] then [STATUS_OK] else old(wire.lines)
      ensures n == if BodyAllowed(wire.lines[0]) then room else 0
      ensures bytes == old(bytes) + n
      ensures wire.sent == old(wire.sent)[origin := old(wire.sent)[origin] + n]
    {
      if !wroteHeader {
        var _ := WriteHeader(STATUS_OK);
      }
      n := wire.Write(origin, room);
      bytes := bytes + n;
    }
  }

  // ----- Handlers and what they should produce --------------------------------------

  datatype Op = SetStatus(code: int) | Send(room: nat)

  datatype End = Returns | Panics | Aborts

  datatype Script = Script(ops: seq<Op>, end: End)

  function Total(ops: seq<Op>): nat {
    if ops == [] then 0
    else Total(ops[..|ops| - 1]) + (match ops[|ops| - 1] case SetStatus(_) => 0 case Send(room) => room)
  }

  // The status the first write asks for.
  function FirstStatus(ops: seq<Op>): int {
    if ops != [] && ops[0].SetStatus? then ops[0].code else STATUS_OK
  }

  // How the handler really ends: asking for a code that cannot be sent is a panic.
  function EndOf(s: Script): End {
    if Sendable(FirstStatus(s.ops)) then s.end else Panics
  }

  // Nothing was written before the panic.
  predicate ErrorPageDue(s: Script) { s.ops == [] && s.end.Panics? }

  // The status the middleware believes was sent.
  function Intended(s: Script): int {
    if ErrorPageDue(s) then STATUS_INTERNAL_ERROR else FirstStatus(s.ops)
  }

  // The status line the client gets.
  function Effective(s: Script): int {
    if Final(Intended(s)) then Intended(s) else STATUS_OK
  }

  function HandlerBytes(s: Script): nat {
    if Sendable(FirstStatus(s.ops)) && BodyAllowed(Effective(s)) then Total(s.ops) else 0
  }

  // ----- The chain ------------------------------------------------------------------

  datatype Level = Info | Warn | Error

  function LevelForStatus(status: int): Level {
    if status >= STATUS_INTERNAL_ERROR then Error else if status >= STATUS_BAD_REQUEST then Warn else Info
  }

  datatype LogEntry = LogEntry(level: Level, status: int, bytes: nat)

  datatype Reply = Reply(lines: seq<int>, handlerBytes: nat, errorBytes: nat)

  // The recorder and the wire after i > 0 writes of a script that has not panicked.
  ghost predicate Written(r: ResponseRecorder, ops: seq<Op>, i: nat)
    requires 0 < i <= |ops|
    reads r, r.wire
  {
    var code := FirstStatus(ops);
    && r.wroteHeader && r.status == code
    && (Final(code) ==> r.wire.lines == [code])
    && (!Final(code) ==> r.wire.lines == [] || r.wire.lines == [STATUS_OK])
    && (!Final(code) && r.wire.lines == [] ==> Total(ops[..i]) == 0)
    && r.wire.sent == map[Handler := r.bytes, ErrorPage := 0]
    && r.bytes == (if BodyAllowed(if Final(code) then code else STATUS_OK) then Total(ops[..i]) else 0)
  }

  ghost predicate Untouched(r: ResponseRecorder)
    reads r, r.wire
  {
    !r.wroteHeader && r.status == STATUS_OK && r.bytes == 0
    && r.wire.lines == [] && r.wire.sent == map[Handler := 0, ErrorPage := 0]
  }

  method RunHandler(r: ResponseRecorder, s: Script) returns (end: End)
    requires Untouched(r)
    modifies r, r.wire
    ensures end == EndOf(s)
    ensures s.ops == [] ==> Untouched(r)
    ensures s.ops != [] && Sendable(FirstStatus(s.ops)) ==> Written(r, s.ops, |s.ops|)
    ensures s.ops != [] && !Sendable(FirstStatus(s.ops)) ==>
      r.wroteHeader && r.status == FirstStatus(s.ops) && r.bytes == 0
      && r.wire.lines == [] && r.wire.sent == map[Handler := 0, ErrorPage := 0]
  {
    var i := 0;
    while i < |s.ops|
      invariant 0 <= i <= |s.ops|
      invariant i == 0 ==> Untouched(r)
      invariant i > 0 ==> Sendable(FirstStatus(s.ops)) && Written(r, s.ops, i)
    {
      assert s.ops[..i + 1][..i] == s.ops[..i];
      match s.ops[i] {
        case SetStatus(code) =>
          var panicked := r.WriteHeader(code);
          if panicked {
            return Panics;
          }
        case Send(room) =>
          var _ := r.Write(Handler, room);
      }
      i := i + 1;
    }
    end := s.end;
  }

  // room is how much of the error page the connection takes.
  method Recoverer(r: ResponseRecorder, s: Script, room: nat) returns (aborted: bool, panicLogged: bool)
    requires Untouched(r)
    modifies r, r.wire
    ensures aborted <==> EndOf(s).Aborts?
    ensures panicLogged <==> EndOf(s).Panics?
    ensures s.ops == [] && s.end.Panics? ==>
      r.status == 500 && r.wire.lines == [500] && r.wire.sent == map[Handler := 0, ErrorPage := room]
    ensures !(s.ops == [] && s.end.Panics?) && !aborted ==> r.wire.sent == map[Handler := r.bytes, ErrorPage := 0]
    ensures !aborted ==>
      && r.status == Intended(s)
      && r.wire.lines in [[], [Effective(s)]]
      && (r.wire.lines == [] ==> Effective(s) == STATUS_OK)
      && r.wire.sent == map[Handler := HandlerBytes(s), ErrorPage := if ErrorPageDue(s) then room else 0]
      && r.bytes == r.wire.sent[Handler] + r.wire.sent[ErrorPage]
  {
    var end := RunHandler(r, s);
    assert s.ops[..|s.ops|] == s.ops;
    aborted, panicLogged := end.Aborts?, end.Panics?;
    if end.Panics? && !r.wroteHeader {
      var _ := r.WriteHeader(STATUS_INTERNAL_ERROR);
      var _ := r.Write(ErrorPage, room);
      assert map[Handler := 0, ErrorPage := 0][ErrorPage := room] == map[Handler := 0, ErrorPage := room];
    }
  }

  /**
   One request through the chain and out of the server, which sends a 200 for a handler
   that wrote nothing and drops the connection on an abort. The request is logged with
   the status asked for first and the bytes that were accepted.
   */
  method ServeHTTP(s: Script, room: nat) returns (reply: Option<Reply>, log: Option<LogEntry>, panicLogged: bool)
    ensures log.Some? <==> reply.Some?
    ensures s.ops == [] && s.end.Returns? ==> reply == Some(Reply([200], 0, 0)) && log == Some(LogEntry(Info, 200, 0))
    ensures s.ops == [] && s.end.Panics? ==>
      reply == Some(Reply([500], 0, room)) && log == Some(LogEntry(Error, 500, room))
    ensures !(s.ops == [] && s.end.Panics?) && reply.Some? ==> reply.value.errorBytes == 0
    ensures s.ops != [] && s.ops[0].Send? && reply.Some? ==>
      reply.value.lines == [200] && reply.value.handlerBytes == Total(s.ops) && log.value.status == 200
    ensures s.ops != [] && s.ops[0].SetStatus? && reply.Some? ==>
      var code := s.ops[0].code;
      && log.value.status == code
      && reply.value.lines == [if code == 101 || 200 <= code <= 999 then code else 200]
      && reply.value.handlerBytes ==
           if !(100 <= code <= 999) || code in {101, 204, 304} then 0 else Total(s.ops)
    ensures panicLogged <==>
      s.end.Panics? || (s.ops != [] && s.ops[0].SetStatus? && !(100 <= s.ops[0].code <= 999))
    ensures reply.None? <==> s.end.Aborts? && !panicLogged
    ensures log.Some? ==>
      && log.value.bytes == reply.value.handlerBytes + reply.value.errorBytes
      && (log.value.level == Error <==> log.value.status >= 500)
      && (log.value.level == Warn <==> 400 <= log.value.status < 500)
    ensures reply.Some? ==>
      && |reply.value.lines| == 1
      && (log.value.status == reply.value.lines[0] <==> log.value.status == 101 || 200 <= log.value.status <= 999)
  {
    var wire := new Wire();
    var recorder := new ResponseRecorder(wire);
    var aborted;
    aborted, panicLogged := Recoverer(recorder, s, room);
    if aborted {
      return None, None, panicLogged;
    }
    log := Some(LogEntry(LevelForStatus(recorder.status), recorder.status, recorder.bytes));
    if wire.lines == [] {
      var _ := wire.WriteHeader(STATUS_OK);
    }
    reply := Some(Reply(wire.lines, wire.sent[Handler], wire.sent[ErrorPage]));
  }

  /** A handler that asks for status 99 is logged with it, and its client gets an empty 200. */
  method UnsendableCode(room: nat) returns (reply: Option<Reply>, log: Option<LogEntry>)
    ensures reply == Some(Reply([200], 0, 0)) && log == Some(LogEntry(Info, 99, 0))
  {
    var panicLogged;
    reply, log, panicLogged := ServeHTTP(Script([SetStatus(99), Send(5)], Returns), room);
  }

  /** After a 103 a handler's own 404 is not sent, and the log says 103. */
  method InformationalStatus(room: nat) returns (reply: Option<Reply>, log: Option<LogEntry>)
    ensures reply == Some(Reply([200], 5, 0)) && log == Some(LogEntry(Info, 103, 5))
  {
    var panicLogged;
    var ops := [SetStatus(103), SetStatus(404), Send(5)];
    reply, log, panicLogged := ServeHTTP(Script(ops, Returns), room);
    assert ops[..2] == [SetStatus(103), SetStatus(404)] && ops[..2][..1] == [SetStatus(103)];
    assert Total([SetStatus(103)]) == 0;
  }
}
