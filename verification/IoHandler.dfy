/** The handler and the push functions on the heap. */
module IoHandler {
  import opened Wrappers
  import opened CStrings
  import opened KeyValue
  import opened HttpScan
  import opened HttpInPlace
  import opened HttpParser
  import opened IoSlots
  import B = StringBuffer
  import R = HttpResponse
  import HttpCorrectness

  /** A submission queue entry on the connection's descriptor, with the connection as its user data.
      into: the buffer a receive stores to. linked: IOSQE_IO_LINK. */
  datatype Sqe = Sqe(kind: Action, conn: Connection, into: array?<byte>, args: Args, linked: bool)

  class Ring {
    var sqes: seq<Sqe>

    constructor ()
      ensures sqes == []
    {
      sqes := [];
    }
  }

  /** struct server_connection with its coroutine's request, response and composed text. */
  class Connection {
    const fd: nat
    const buf: array<byte>
    const req: HttpRequest
    const queryPairs: array<KvPair>
    const headerPairs: array<KvPair>
    const final: B.StrBuf
    var action: Action
    var curSteps: int
    var totalSteps: int
    var prepared: bool
    var status: int
    var headers: seq<R.Header>
    var content: R.Content

    /** A zeroed connection over its parts. */
    constructor (fd: nat, buf: array<byte>, req: HttpRequest, final: B.StrBuf)
      requires req.Valid() && req.query.Contents() == NO_PAIRS == req.headers.Contents()
      requires req.mask == 0 && req.path == None && req.protocol == None
      requires final.Valid() && final.buf != buf && final.Value() == End && final.len == 0
      requires 64 <= buf.Length && buf[..] == Zeros(buf.Length)
      ensures Valid() && Repr() == {this, buf, final, final.buf} + req.Repr() && this.fd == fd
      ensures View() == Slot(NoAction, 0, 0, false, FRESH, Zeros(buf.Length))
    {
      hide B.StrBuf.Valid, B.StrBuf.Value;
      this.fd, this.buf, this.req, this.final := fd, buf, req, final;
      queryPairs, headerPairs := req.query.pairs, req.headers.pairs;
      action, curSteps, totalSteps, prepared := NoAction, 0, 0, false;
      status, headers, content := 0, [], R.Str([]);
    }

    /** What the connection owns but for the text buffer's bytes, which may move. */
    function Core(): set<object> {
      {this, buf, req, req.query, req.headers, queryPairs, headerPairs, final}
    }

    function Repr(): set<object>
      reads final
    {
      Core() + {final.buf}
    }

    ghost predicate Valid()
      reads this, req, req.query, req.headers, final, final.buf
    {
      && req.Valid() && req.query.pairs == queryPairs && req.headers.pairs == headerPairs
      && queryPairs.Length == 20 == headerPairs.Length && 64 <= buf.Length
      && final.Valid() && final.buf != buf
    }

    ghost function View(): Slot
      requires Valid()
      reads this, req, req.query, req.headers, queryPairs, headerPairs, buf, final, final.buf
    {
      Slot(action, curSteps, totalSteps, prepared,
           Session(req.mask, req.path, req.protocol, req.query.Contents(), req.headers.Contents(),
                   Scratch(status, headers, content, final.Value(), final.len)), buf[..])
    }
  }

  // io_uring_push_accept, io_uring_push_recv, io_uring_push_send, io_uring_push_splice

  method PushAccept(ring: Ring, c: Connection)
    modifies ring, c`action
    ensures ring.sqes == old(ring.sqes) + [Sqe(Accept, c, null, NoArgs, false)] && c.action == Accept
  {
    c.action := Accept;
    ring.sqes := ring.sqes + [Sqe(Accept, c, null, NoArgs, false)];
  }

  method PushRecv(ring: Ring, c: Connection)
    modifies ring, c`action
    ensures ring.sqes == old(ring.sqes) + [Sqe(Recv, c, c.buf, NoArgs, false)] && c.action == Recv
  {
    c.action := Recv;
    ring.sqes := ring.sqes + [Sqe(Recv, c, c.buf, NoArgs, false)];
  }

  method PushSend(ring: Ring, c: Connection, reply: Reply, more: bool, linked: bool)
    modifies ring, c`action, c`totalSteps
    ensures ring.sqes == old(ring.sqes) + [Sqe(Send, c, null, Bytes(reply, more), linked)]
    ensures c.action == Send && c.totalSteps == old(c.totalSteps) + 1
  {
    c.action := Send;
    c.totalSteps := c.totalSteps + 1;
    ring.sqes := ring.sqes + [Sqe(Send, c, null, Bytes(reply, more), linked)];
  }

  method PushSplice(ring: Ring, c: Connection, from: Peer, to: Peer, len: nat, linked: bool)
    modifies ring, c`action, c`totalSteps
    ensures ring.sqes == old(ring.sqes) + [Sqe(Splice, c, null, Between(from, to, len), linked)]
    ensures c.action == Splice && c.totalSteps == old(c.totalSteps) + 1
  {
    c.action := Splice;
    c.totalSteps := c.totalSteps + 1;
    ring.sqes := ring.sqes + [Sqe(Splice, c, null, Between(from, to, len), linked)];
  }

  /** file_fd: zero unless the content is an open file. */
  function FileFd(content: R.Content): int { if content.FileFd? then content.fd else 0 }

  /** file_sz as the 32-bit length of a splice. */
  function SpliceLen(content: R.Content): nat { if content.Str? then 0 else content.Length() % 0x1_0000_0000 }

  /** The answer to a request. */
  method Respond(c: Connection, ring: Ring, reply: Reply, chain: bool) returns (ghost pushed: seq<Action>)
    requires c.Valid() && ring !in c.Repr()
    modifies c`action, c`totalSteps, ring
    ensures c.Valid() && pushed == (if chain then [Send, Splice, Splice] else [Send])
    ensures var file := if c.content.FileFd? then c.content.fd else 0;
            var len := if c.content.Str? then 0 else c.content.Length() % 0x1_0000_0000;
            ring.sqes == old(ring.sqes) +
              (if pushed == [Send] then [Sqe(Send, c, null, Bytes(reply, false), false)]
               else [Sqe(Send, c, null, Bytes(reply, true), true),
                     Sqe(Splice, c, null, Between(FileOf(file), PipeWrite, len), true),
                     Sqe(Splice, c, null, Between(PipeRead, Socket(c.fd), len), false)])
    ensures Outcome(c.View(), pushed, reply, false) ==
            if chain then old(SendChain(c.View(), reply)) else old(SendOne(c.View(), reply))
  {
    if chain {
      PushSend(ring, c, reply, true, true);
      PushSplice(ring, c, FileOf(FileFd(c.content)), PipeWrite, SpliceLen(c.content), true);
      PushSplice(ring, c, PipeRead, Socket(c.fd), SpliceLen(c.content), false);
      pushed := [Send, Splice, Splice];
    } else {
      PushSend(ring, c, reply, false, false);
      pushed := [Send];
    }
  }

  /** The protocol's string is there for the composer. */
  lemma ProtocolThere(b: seq<byte>, tq: Table, th: Table, n: nat)
    requires Received(b, n)
    ensures var p := RunRequest(b, tq, th, n); p.Ok() ==> Terminated(p.rest.bytes, p.rest.protocol.value)
  {
    hide RunRequest;
    if RunRequest(b, tq, th, n).Ok() {
      HttpCorrectness.LineDelivered(b, tq, th, n);
    }
  }

  lemma StringThere(str: B.StrBuf)
    requires str.Valid()
    ensures Terminated(str.buf[..], 0) && str.Value() == CStr(str.buf[..], 0)
  {
  }

  /** A request that is there to be answered by the handler. */
  method Answering(c: Connection, ring: Ring, route: Route, watch: bool, grow: nat -> nat, junk: byte,
                   ghost p: HttpInPlace.Parsed, ghost before: Slot)
    returns (ghost pushed: seq<Action>, reply: Reply)
    requires c.Valid() && ring !in c.Repr() && c.final.Exact() && R.Grows(grow)
    requires p.Ok() && c.View() == AfterParse(before, p) && c.req.protocol == p.rest.protocol && c.buf[..] == p.rest.bytes
    requires Terminated(p.rest.bytes, p.rest.protocol.value)
    requires route.Handled? && !Refused(route)
    requires R.Printable(ResponseOf(p, route)) && R.AllFit(ResponseOf(p, route))
    modifies c, c.final, c.final.buf, ring
    ensures c.Valid() && fresh(c.Repr() - old(c.Repr()))
    ensures pushed == [Send] || pushed == [Send, Splice, Splice]
    ensures var file := if c.content.FileFd? then c.content.fd else 0;
            var len := if c.content.Str? then 0 else c.content.Length() % 0x1_0000_0000;
            ring.sqes == old(ring.sqes) +
              (if pushed == [Send] then [Sqe(Send, c, null, Bytes(reply, false), false)]
               else [Sqe(Send, c, null, Bytes(reply, true), true),
                     Sqe(Splice, c, null, Between(FileOf(file), PipeWrite, len), true),
                     Sqe(Splice, c, null, Between(PipeRead, Socket(c.fd), len), false)])
    ensures Outcome(c.View(), pushed, reply, false) == Answer(before, p, route, watch)
  {
    hide R.Print, R.Printable, R.AllFit, B.StrBuf.Valid, B.StrBuf.Exact, B.StrBuf.Value;
    c.status, c.headers, c.content := route.status, route.headers, route.content;
    var protocol := CStr(c.buf[..], c.req.protocol.value);
    var result := R.ComposeResponse(Some(protocol), c.status, c.headers, c.content, c.final, grow, junk);
    ghost var s := ComposedInto(Answered(AfterParse(before, p), route), ResponseOf(p, route));
    assert c.View() == s;
    StringThere(c.final);
    reply := Composed(CStr(c.final.buf[..], 0), c.final.len);
    pushed := Respond(c, ring, reply, watch);
  }

  /** The receive case for a request that fits into the buffer. route is what find_router and the
      handler answer, if they are asked. */
  method Serve(c: Connection, ring: Ring, n: nat, route: Route, watch: bool, grow: nat -> nat, junk: byte)
    returns (ghost pushed: seq<Action>, reply: Reply)
    requires c.Valid() && ring !in c.Repr() && Received(c.buf[..], n) && n > 0 && n < c.buf.Length
    requires c.action.Recv? && Prints(c.View(), n, route) && R.Grows(grow)
    requires c.req.mask == 0 && c.req.path == None && c.req.protocol == None && c.final.Exact()
    modifies c.Repr(), ring
    ensures c.Valid() && fresh(c.Repr() - old(c.Repr()))
    ensures pushed == [Send] || pushed == [Send, Splice, Splice]
    ensures var file := if c.content.FileFd? then c.content.fd else 0;
            var len := if c.content.Str? then 0 else c.content.Length() % 0x1_0000_0000;
            ring.sqes == old(ring.sqes) +
              (if pushed == [Send] then [Sqe(Send, c, null, Bytes(reply, false), false)]
               else [Sqe(Send, c, null, Bytes(reply, true), true),
                     Sqe(Splice, c, null, Between(FileOf(file), PipeWrite, len), true),
                     Sqe(Splice, c, null, Between(PipeRead, Socket(c.fd), len), false)])
    ensures Outcome(c.View(), pushed, reply, false) ==
            old(Answer(c.View(), RunRequest(c.buf[..], c.req.query.Contents(), c.req.headers.Contents(), n), route, watch))
  {
    hide RunRequest, Received, R.Printable, R.AllFit, B.StrBuf.Valid, B.StrBuf.Exact, B.StrBuf.Value, ComposedInto, R.Print;
    ghost var before := c.View();
    ghost var p := RunRequest(c.buf[..], c.req.query.Contents(), c.req.headers.Contents(), n);
    ProtocolThere(c.buf[..], c.req.query.Contents(), c.req.headers.Contents(), n);
    var ok, cursor := ParseRequest(c.req, c.buf, n);
    assert c.View() == AfterParse(before, p);
    if !ok {
      reply := Fixed(400);
      pushed := Respond(c, ring, Fixed(400), false);
    } else if route.NoRoute? {
      reply := Fixed(404);
      pushed := Respond(c, ring, Fixed(404), false);
    } else if route.err == HANDLER_ERR_FILE_NOT_FOUND || route.err == HANDLER_ERR_GENERAL {
      c.status, c.headers, c.content := route.status, route.headers, route.content;
      reply := Fixed(if route.err == HANDLER_ERR_FILE_NOT_FOUND then 404 else 500);
      pushed := Respond(c, ring, Fixed(if route.err == HANDLER_ERR_FILE_NOT_FOUND then 404 else 500), false);
    } else {
      pushed, reply := Answering(c, ring, route, watch, grow, junk, p, before);
    }
  }

  /** The table is empty and its buffer zeroed. */
  method ClearTable(kv: Kv)
    requires kv.Valid()
    modifies kv`size, kv.pairs
    ensures kv.Valid() && kv.Contents() == old(kv.Contents()).(pairs := [])
  {
    kv.size := 0;
    forall i | 0 <= i < kv.pairs.Length {
      kv.pairs[i] := KvPair(0, 0);
    }
  }

  method ClearBuffer(buf: array<byte>)
    modifies buf
    ensures buf[..] == Zeros(buf.Length)
  {
    forall i | 0 <= i < buf.Length {
      buf[i] := NUL;
    }
  }

  /** The request's pointers are null and its tables empty. */
  method ClearRequest(req: HttpRequest)
    requires req.Valid()
    modifies req.Repr()
    ensures req.Valid() && req.query.pairs == old(req.query.pairs) && req.headers.pairs == old(req.headers.pairs)
    ensures req.mask == 0 && req.path == None && req.protocol == None
    ensures req.query.Contents() == Table([], req.query.pairs.Length, false)
    ensures req.headers.Contents() == Table([], req.headers.pairs.Length, false)
  {
    req.mask, req.path, req.protocol := 0, None, None;
    ClearTable(req.headers);
    ClearTable(req.query);
  }

  /** RESET */
  method ResetConnection(c: Connection)
    requires c.Valid()
    modifies c.Repr()
    ensures c.Valid() && c.Repr() == old(c.Repr()) && c.final.Exact()
    ensures Outcome(c.View(), [], Silent, true) == old(IoSlots.Reset(c.View()))
  {
    hide B.StrBuf.Valid, B.StrBuf.Exact, B.StrBuf.Value;
    ghost var s := c.View();
    c.curSteps, c.totalSteps := 0, 0;
    c.status, c.headers, c.content := 0, [], R.Str([]);
    ClearRequest(c.req);
    ClearBuffer(c.buf);
    B.Reset(c.final);
    assert c.View().session == FRESH && c.View().buf == Zeros(|s.buf|);
  }

  /** One turn of io_uring_co_http_handler's loop, from a resume to the next yield. */
  method HandleTurn(c: Connection, ring: Ring, yielded: int, route: Route, watch: bool, grow: nat -> nat, junk: byte)
    returns (closed: bool, ghost pushed: seq<Action>, reply: Reply)
    requires c.Valid() && ring !in c.Repr() && R.Grows(grow)
    requires Ready(c.View(), yielded) && Prints(c.View(), yielded, route)
    requires c.action.Recv? ==> c.req.mask == 0 && c.req.path == None && c.req.protocol == None && c.final.Exact()
    modifies c.Repr(), ring
    ensures c.Valid() && fresh(c.Repr() - old(c.Repr()))
    ensures pushed == [] || pushed == [Send] || pushed == [Send, Splice, Splice]
    ensures var file := if c.content.FileFd? then c.content.fd else 0;
            var len := if c.content.Str? then 0 else c.content.Length() % 0x1_0000_0000;
            ring.sqes == old(ring.sqes) +
              (if pushed == [] then []
               else if pushed == [Send] then [Sqe(Send, c, null, Bytes(reply, false), false)]
               else [Sqe(Send, c, null, Bytes(reply, true), true),
                     Sqe(Splice, c, null, Between(FileOf(file), PipeWrite, len), true),
                     Sqe(Splice, c, null, Between(PipeRead, Socket(c.fd), len), false)])
    ensures Outcome(c.View(), pushed, reply, closed) == old(Handle(c.View(), yielded, route, watch))
  {
    hide RunRequest, Received, R.Printable, R.AllFit, B.StrBuf.Exact, B.StrBuf.Value;
    closed, pushed, reply := false, [], Silent;
    match c.action
    case Recv =>
      if yielded < 0 {
        return;
      }
      if yielded == 0 {
        ResetConnection(c);
        closed := true;
        return;
      }
      if yielded == c.buf.Length {
        reply := Fixed(413);
        pushed := Respond(c, ring, Fixed(413), false);
        return;
      }
      pushed, reply := Serve(c, ring, yielded, route, watch, grow, junk);
    case Send =>
      closed := Finished(c);
    case Splice =>
      closed := Finished(c);
    case _ =>
      ResetConnection(c);
      closed := true;
  }

  /** The send and splice cases. */
  method Finished(c: Connection) returns (closed: bool)
    requires c.Valid()
    modifies c.Repr()
    ensures c.Valid() && c.Repr() == old(c.Repr())
    ensures Outcome(c.View(), [], Silent, closed) == old(Step(c.View()))
  {
    hide B.StrBuf.Exact, B.StrBuf.Value;
    c.curSteps := c.curSteps + 1;
    closed := c.curSteps == c.totalSteps;
    if closed {
      ResetConnection(c);
    }
  }
}
