/** One connection slot and what its coroutine does each time it is resumed. */
module IoSlots {
  import opened Wrappers
  import opened CStrings
  import opened KeyValue
  import opened HttpScan
  import opened HttpInPlace
  import R = HttpResponse

  datatype Action = NoAction | Accept | Recv | Send | Splice

  /** The response: its status, headers and content, and what was composed of it, with the buffer's
      counted length. */
  datatype Scratch = Scratch(status: int, headers: seq<R.Header>, content: R.Content, composed: Text, len: nat)

  const NOTHING: Scratch := Scratch(0, [], R.Str([]), End, 0)

  const NO_PAIRS: Table := Table([], 20, false)

  /** The request and the response of the connection's coroutine. */
  datatype Session = Session(mask: int, path: Option<nat>, protocol: Option<nat>, query: Table, headers: Table, scratch: Scratch)

  const FRESH: Session := Session(0, None, None, NO_PAIRS, NO_PAIRS, NOTHING)

  /** struct server_connection, with what its coroutine keeps. */
  datatype Slot = Slot(action: Action, cur: int, total: int, prepared: bool, session: Session, buf: seq<byte>)

  /** find_router's and the handler's answer: no route, or an error code and what was filled in. */
  datatype Route = NoRoute | Handled(err: int, status: int, headers: seq<R.Header>, content: R.Content)

  const EAGAIN: int := 11

  const HANDLER_ERR_GENERAL: int := -2
  const HANDLER_ERR_FILE_NOT_FOUND: int := -8

  /** What a turn sends: nothing, one of the fixed status lines, or the composed text, as many bytes of
      its buffer as it counts. */
  datatype Reply = Silent | Fixed(code: nat) | Composed(text: Text, len: nat)

  /** What a splice reads from or writes to: an end of the server's pipe, a file from its start, or a
      connection. */
  datatype Peer = PipeRead | PipeWrite | FileOf(file: int) | Socket(fd: nat)

  /** What a queue entry says beside its connection: nothing, the bytes to send and MSG_MORE, or the
      ends of a splice and its length. */
  datatype Args = NoArgs | Bytes(reply: Reply, more: bool) | Between(from: Peer, to: Peer, len: nat)

  /** What is submitted for a slot. linked: IOSQE_IO_LINK. */
  datatype Order = Order(slot: nat, action: Action, args: Args, linked: bool)

  /** A turn of the handler: the slot it leaves, the operations it pushed, what the first of them sends,
      and whether it closed the connection's descriptor. */
  datatype Outcome = Outcome(slot: Slot, pushed: seq<Action>, reply: Reply, closed: bool)

  function Zeros(n: nat): (s: seq<byte>)
    ensures |s| == n && forall i :: 0 <= i < n ==> s[i] == NUL
  {
    seq(n, _ => NUL)
  }

  /** A buffer whose first bytes the kernel has stored to. */
  function Filled(buf: seq<byte>, data: seq<byte>): (r: seq<byte>)
    requires |data| <= |buf|
    ensures |r| == |buf|
  {
    data + buf[|data|..]
  }

  /** io_uring_push_recv, io_uring_push_send and io_uring_push_splice on the slot. */
  function Push(s: Slot, action: Action): Slot {
    s.(action := action, total := if action.Send? || action.Splice? then s.total + 1 else s.total)
  }

  /** An answer of fixed text, or a composed one of the single-send build. */
  function SendOne(s: Slot, reply: Reply): Outcome {
    Outcome(Push(s, Send), [Send], reply, false)
  }

  /** The linked chain of the WATCH_STATIC_FILES build. */
  function SendChain(s: Slot, reply: Reply): Outcome {
    Outcome(Push(Push(Push(s, Send), Splice), Splice), [Send, Splice, Splice], reply, false)
  }

  /** RESET */
  function Reset(s: Slot): Outcome {
    Outcome(s.(cur := 0, total := 0, session := FRESH, buf := Zeros(|s.buf|)), [], Silent, true)
  }

  /** What the parser leaves in the slot. */
  function AfterParse(s: Slot, p: HttpInPlace.Parsed): Slot {
    s.(session := Session(p.mask, p.path, p.rest.protocol, p.query, p.rest.headers, s.session.scratch),
       buf := p.rest.bytes)
  }

  /** What the handler filled in. */
  function Answered(s: Slot, route: Route): Slot
    requires route.Handled?
  {
    s.(session := s.session.(scratch :=
      s.session.scratch.(status := route.status, headers := route.headers, content := route.content)))
  }

  predicate Refused(route: Route) {
    route.Handled? && (route.err == HANDLER_ERR_FILE_NOT_FOUND || route.err == HANDLER_ERR_GENERAL)
  }

  /** The string at the request's protocol pointer. */
  ghost function ProtocolOf(p: HttpInPlace.Parsed): Text {
    if p.Ok() && Terminated(p.rest.bytes, p.rest.protocol.value) then CStr(p.rest.bytes, p.rest.protocol.value) else End
  }

  ghost function ResponseOf(p: HttpInPlace.Parsed, route: Route): R.Response
    requires route.Handled?
  {
    R.Response(ProtocolOf(p), route.status, route.headers, route.content)
  }

  /** What http_compose_response leaves in the slot. */
  function ComposedInto(s: Slot, r: R.Response): Slot {
    var text := s.session.scratch.composed.Then(R.Print(r, r.content.Sent()));
    var len := s.session.scratch.len + R.Print(r, End).Len() + |r.content.Bytes()|;
    s.(session := s.session.(scratch := s.session.scratch.(composed := text, len := len)))
  }

  /** What the parser needs of the buffer is there when a request arrived. */
  ghost predicate Ready(s: Slot, yielded: int) {
    s.action.Recv? ==> yielded <= |s.buf| && (0 < yielded < |s.buf| ==> Received(s.buf, yielded))
  }

  /** If a response is composed, its parts are strings and its lines fit where they are printed. */
  ghost predicate Prints(s: Slot, yielded: int, route: Route) {
    s.action.Recv? && 0 < yielded < |s.buf| && Received(s.buf, yielded) && route.Handled? && !Refused(route) ==>
      var p := RunRequest(s.buf, s.session.query, s.session.headers, yielded);
      p.Ok() ==> R.Printable(ResponseOf(p, route)) && R.AllFit(ResponseOf(p, route))
  }

  /** One turn of io_uring_co_http_handler's loop. */
  ghost function Handle(s: Slot, yielded: int, route: Route, watch: bool): (r: Outcome)
    requires Ready(s, yielded)
  {
    match s.action
    case Recv =>
      if yielded < 0 then Outcome(s, [], Silent, false)
      else if yielded == 0 then Reset(s)
      else if yielded == |s.buf| then SendOne(s, Fixed(413))
      else Answer(s, RunRequest(s.buf, s.session.query, s.session.headers, yielded), route, watch)
    case Send => Step(s)
    case Splice => Step(s)
    case _ => Reset(s)
  }

  /** A parsed request: refused, or routed and answered. */
  ghost function Answer(s: Slot, p: HttpInPlace.Parsed, route: Route, watch: bool): Outcome {
    var s1 := AfterParse(s, p);
    if !p.Ok() then SendOne(s1, Fixed(400))
    else if route.NoRoute? then SendOne(s1, Fixed(404))
    else if route.err == HANDLER_ERR_FILE_NOT_FOUND then SendOne(Answered(s1, route), Fixed(404))
    else if route.err == HANDLER_ERR_GENERAL then SendOne(Answered(s1, route), Fixed(500))
    else
      var s2 := ComposedInto(Answered(s1, route), ResponseOf(p, route));
      var reply := Composed(s2.session.scratch.composed, s2.session.scratch.len);
      if watch then SendChain(s2, reply) else SendOne(s2, reply)
  }

  /** A finished send or splice. */
  function Step(s: Slot): Outcome {
    var s1 := s.(cur := s.cur + 1);
    if s1.cur == s1.total then Reset(s1) else Outcome(s1, [], Silent, false)
  }

  /** Between connections: no steps, nothing of a request or a response, and a buffer of zeros. */
  ghost predicate Blank(s: Slot) {
    s.cur == 0 && s.total == 0 && s.session == FRESH && 64 <= |s.buf| && s.buf == Zeros(|s.buf|)
  }
}
