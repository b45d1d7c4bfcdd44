/** One ring, one thread and the kernel as a transition system: every slot's operations in flight or
    completed, the open descriptors, and the completions in any order. */
module IoSystem {
  import opened Wrappers
  import opened CStrings
  import opened IoSlots

  /** An operation whose user data is the slot: for which of the slot's connections it was pushed, and
      its result once the kernel has one. */
  datatype Op = Op(kind: Action, gen: nat, done: Option<int>)

  /** A slot, the number of connections it has had, and its operations. */
  datatype Cell = Cell(slot: Slot, gen: nat, pend: seq<Op>)

  /** conns: the descriptors of accepted connections that are open; others: all other open ones but the
      listening one. exited: the process gave up. */
  datatype World = World(cells: seq<Cell>, listen: nat, conns: set<nat>, others: set<nat>, exited: bool)

  datatype Event =
    | Complete(s: nat, k: nat, res: int, data: seq<byte>)
    | Process(s: nat, k: nat, route: Route, prepareOk: bool)
    | OpenOther(fd: nat)
    | CloseOther(fd: nat)

  function Without(pend: seq<Op>, k: nat): (r: seq<Op>)
    requires k < |pend|
    ensures |r| == |pend| - 1
  {
    pend[..k] + pend[k + 1..]
  }

  /** The operations a slot pushes, in flight. */
  function Pushed(kinds: seq<Action>, gen: nat): (r: seq<Op>)
    ensures |r| == |kinds| && forall i :: 0 <= i < |r| ==> r[i] == Op(kinds[i], gen, None)
  {
    seq(|kinds|, i requires 0 <= i < |kinds| => Op(kinds[i], gen, None))
  }

  /** The kernel may complete any operation that is in flight, with any result: a receive with at most
      a buffer full of bytes, an accept with any descriptor that is not open. */
  ghost predicate CanComplete(w: World, s: nat, k: nat, res: int, data: seq<byte>) {
    && s < |w.cells| && k < |w.cells[s].pend| && w.cells[s].pend[k].done == None
    && (w.cells[s].pend[k].kind.Recv? ==> |data| == (if res > 0 then res else 0) <= |w.cells[s].slot.buf|)
    && (w.cells[s].pend[k].kind.Accept? ==> data == [])
    && (w.cells[s].pend[k].kind.Accept? && 0 <= res ==>
          res < |w.cells| && res != w.listen && res !in w.conns && res !in w.others)
  }

  ghost predicate Enabled(w: World, e: Event) {
    && !w.exited
    && match e
       case Complete(s, k, res, data) => CanComplete(w, s, k, res, data)
       case Process(s, k, route, prepareOk) =>
         && s < |w.cells| && k < |w.cells[s].pend| && w.cells[s].pend[k].done.Some?
         && Prints(w.cells[s].slot, w.cells[s].pend[k].done.value, route)
       case OpenOther(fd) => fd != w.listen && fd !in w.conns && fd !in w.others && !Accepted(w, fd)
       case CloseOther(fd) => fd in w.others
  }

  /** fd was opened for an accept that is not processed yet. */
  ghost predicate Accepted(w: World, fd: nat) {
    w.listen < |w.cells| && exists k :: 0 <= k < |w.cells[w.listen].pend| && w.cells[w.listen].pend[k].done == Some(fd)
  }

  /** The slot's receive buffer takes the bytes in. */
  function Completed(c: Cell, k: nat, res: int, data: seq<byte>): Cell
    requires k < |c.pend|
  {
    var c1 := c.(pend := c.pend[k := c.pend[k].(done := Some(res))]);
    if c.pend[k].kind.Recv? && |data| <= |c.slot.buf| then c1.(slot := c.slot.(buf := Filled(c.slot.buf, data))) else c1
  }

  // The event loop.

  /** The slot's k-th operation is taken off the completion queue. */
  function Taken(cells: seq<Cell>, s: nat, k: nat): (r: seq<Cell>)
    requires s < |cells| && k < |cells[s].pend|
    ensures |r| == |cells|
  {
    cells[s := cells[s].(pend := Without(cells[s].pend, k))]
  }

  /** The handler is resumed with the result; o is its turn. */
  function Resumed(c: Cell, k: nat, o: Outcome): Cell
    requires k < |c.pend|
  {
    Cell(o.slot, c.gen, Without(c.pend, k) + Pushed(o.pushed, c.gen))
  }

  /** The receive of a new connection; the slot's first one prepares it. */
  function Opened(c: Cell): Cell {
    Cell(Push(c.slot.(prepared := true), Recv), c.gen + 1, c.pend + [Op(Recv, c.gen + 1, None)])
  }

  /** The accept that is pushed on the listening slot. */
  function Armed(c: Cell): Cell {
    c.(slot := Push(c.slot, Accept), pend := c.pend + [Op(Accept, c.gen, None)])
  }

  /** A completion on a slot whose action is accept. */
  function Accepting(w: World, s: nat, k: nat, prepareOk: bool): World
    requires s < |w.cells| && k < |w.cells[s].pend| && w.cells[s].pend[k].done.Some? && w.listen < |w.cells|
  {
    var res := w.cells[s].pend[k].done.value;
    var cells := Taken(w.cells, s, k);
    if res < 0 && res != -EAGAIN then w.(cells := cells, exited := true)
    else if res < 0 || res >= |cells| || (!cells[res].slot.prepared && !prepareOk) then
      w.(cells := cells[w.listen := Armed(cells[w.listen])])
    else
      var entered := cells[res := Opened(cells[res])];
      w.(cells := entered[w.listen := Armed(entered[w.listen])], conns := w.conns + {res})
  }

  /** A completion on any other slot; o is the handler's turn. */
  function Resuming(w: World, s: nat, k: nat, o: Outcome): World
    requires s < |w.cells| && k < |w.cells[s].pend|
  {
    w.(cells := w.cells[s := Resumed(w.cells[s], k, o)], conns := if o.closed then w.conns - {s} else w.conns)
  }

  /** The handler's turn of a completion, if the handler can read what it reads. */
  ghost predicate CanHandle(w: World, e: Event) {
    e.Process? && e.s < |w.cells| && e.k < |w.cells[e.s].pend| && w.cells[e.s].pend[e.k].done.Some? ==>
      w.listen < |w.cells| && Ready(w.cells[e.s].slot, w.cells[e.s].pend[e.k].done.value)
  }

  ghost function TurnOf(w: World, e: Event, watch: bool): Outcome
    requires e.Process? && Enabled(w, e) && CanHandle(w, e)
  {
    Handle(w.cells[e.s].slot, w.cells[e.s].pend[e.k].done.value, e.route, watch)
  }

  /** The switch on the slot's current action. */
  ghost function Next(w: World, e: Event, watch: bool): World
    requires Enabled(w, e) && CanHandle(w, e)
  {
    match e
    case Complete(s, k, res, data) => w.(cells := w.cells[s := Completed(w.cells[s], k, res, data)])
    case Process(s, k, _, prepareOk) =>
      if w.cells[s].slot.action.Accept? then Accepting(w, s, k, prepareOk) else Resuming(w, s, k, TurnOf(w, e, watch))
    case OpenOther(fd) => w.(others := w.others + {fd})
    case CloseOther(fd) => w.(others := w.others - {fd})
  }

  // What every run keeps.

  /** Nothing in flight and nothing left of earlier connections. */
  ghost predicate Free(c: Cell) {
    Blank(c.slot) && c.pend == []
  }

  /** After a failed receive: open for ever, with nothing in flight. */
  ghost predicate Stuck(c: Cell) {
    c.pend == [] && c.slot.action.Recv?
  }

  /** Exactly one receive, counters at zero, and a buffer of zeros but for what was received. */
  ghost predicate Receiving(c: Cell) {
    && |c.pend| == 1 && c.pend[0].kind.Recv? && c.pend[0].gen == c.gen && c.slot.action.Recv?
    && c.slot.cur == 0 && c.slot.total == 0 && c.slot.session == FRESH
    && match c.pend[0].done
       case None => c.slot.buf == Zeros(|c.slot.buf|)
       case Some(res) => res <= |c.slot.buf| && forall i :: 0 <= i < |c.slot.buf| && res <= i ==> c.slot.buf[i] == NUL
  }

  /** As many sends and splices as steps are missing. */
  ghost predicate Sending(c: Cell) {
    && |c.pend| > 0 && (c.slot.action.Send? || c.slot.action.Splice?)
    && c.slot.total - c.slot.cur == |c.pend|
    && forall k :: 0 <= k < |c.pend| ==> (c.pend[k].kind.Send? || c.pend[k].kind.Splice?) && c.pend[k].gen == c.gen
  }

  ghost predicate Connected(c: Cell) {
    c.slot.prepared && 64 <= |c.slot.buf| && (Stuck(c) || Receiving(c) || Sending(c))
  }

  /** Exactly one accept, and the descriptor it was given is no other's. */
  ghost predicate Listening(w: World) {
    && w.listen < |w.cells| && w.listen !in w.conns && w.listen !in w.others
    && var c := w.cells[w.listen];
    && (w.exited ==> c.pend == [])
    && (!w.exited ==>
          && c.slot.action.Accept? && |c.pend| == 1 && c.pend[0].kind.Accept?
          && forall fd: nat :: c.pend[0].done == Some(fd) ==>
               fd < |w.cells| && fd != w.listen && fd !in w.conns && fd !in w.others)
  }

  ghost predicate CellOk(w: World, i: nat)
    requires i < |w.cells|
  {
    i == w.listen || (if i in w.conns then Connected(w.cells[i]) else Free(w.cells[i]))
  }

  ghost predicate Inv(w: World) {
    && Listening(w) && w.conns !! w.others
    && (forall fd :: fd in w.conns ==> fd < |w.cells|)
    && (forall i :: 0 <= i < |w.cells| ==> CellOk(w, i))
  }

  /** A server that has just pushed its first accept. */
  ghost predicate Start(w: World) {
    && w.listen < |w.cells| && w.conns == {} && w.listen !in w.others && !w.exited
    && w.cells[w.listen].slot.action.Accept? && w.cells[w.listen].pend == [Op(Accept, 0, None)]
    && forall i :: 0 <= i < |w.cells| && i != w.listen ==> Free(w.cells[i])
  }

  lemma StartOk(w: World)
    requires Start(w)
    ensures Inv(w)
  {
  }
}
