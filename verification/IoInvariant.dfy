/** What every step of every run keeps, and what follows for dispatch, closing and reuse. */
module IoInvariant {
  import opened Wrappers
  import opened HttpScan
  import opened HttpInPlace
  import opened IoSlots
  import opened IoSystem
  import opened CStrings
  import K = KeyValue
  import R = HttpResponse

  /** What the handler needs when it is resumed. */
  lemma HandlerReady(w: World, e: Event)
    requires Inv(w) && Enabled(w, e)
    ensures CanHandle(w, e)
  {
    if e.Process? {
      assert CellOk(w, e.s);
      var c := w.cells[e.s];
      var res := c.pend[e.k].done.value;
      if c.slot.action.Recv? && e.s != w.listen && 0 < res < |c.slot.buf| {
        assert Receiving(c);
      }
    }
  }

  /** Dispatch: the slot's current action is of the class of the operation that completed, which
      belongs to the slot's current connection. */
  lemma Dispatch(w: World, e: Event)
    requires Inv(w) && Enabled(w, e) && e.Process?
    ensures var c := w.cells[e.s];
            var op := c.pend[e.k];
            && (c.slot.action.Accept? <==> op.kind.Accept?) && (c.slot.action.Accept? <==> e.s == w.listen)
            && (c.slot.action.Recv? <==> op.kind.Recv?)
            && (c.slot.action.Send? || c.slot.action.Splice? <==> op.kind.Send? || op.kind.Splice?)
            && (e.s != w.listen ==> e.s in w.conns && c.slot.prepared && op.gen == c.gen)
  {
    assert CellOk(w, e.s);
  }

  lemma CompleteKeeps(w: World, e: Event, watch: bool)
    requires Inv(w) && Enabled(w, e) && e.Complete? && CanHandle(w, e)
    ensures Inv(Next(w, e, watch))
  {
    var w' := Next(w, e, watch);
    var c, c' := w.cells[e.s], w'.cells[e.s];
    assert CellOk(w, e.s);
    if e.s != w.listen {
      assert Connected(c);
      if Sending(c) {
        assert Sending(c');
      } else {
        assert Receiving(c) && e.k == 0;
        assert Receiving(c');
      }
    }
    forall i | 0 <= i < |w'.cells|
      ensures CellOk(w', i)
    {
      assert CellOk(w, i);
    }
  }

  /** What a turn pushes, and what it leaves alone. */
  lemma TurnPushes(s: Slot, yielded: int, route: Route, watch: bool)
    requires Ready(s, yielded) && (s.action.Recv? || s.action.Send? || s.action.Splice?)
    ensures var o := Handle(s, yielded, route, watch);
            && (o.pushed == [] || o.pushed == [Send] || o.pushed == [Send, Splice, Splice])
            && (!s.action.Recv? ==> o.pushed == [])
            && (forall i :: 0 <= i < |o.pushed| ==> o.pushed[i].Send? || o.pushed[i].Splice?)
            && o.slot.prepared == s.prepared && |o.slot.buf| == |s.buf|
            && (!o.closed ==> o.slot.total == s.total + |o.pushed|)
            && (|o.pushed| > 0 ==> (o.slot.action.Send? || o.slot.action.Splice?) && o.slot.cur == s.cur)
            && (|o.pushed| == 0 && !o.closed ==> o.slot.action == s.action)
  {
    hide RunRequest, Received, ComposedInto, ResponseOf;
    if s.action.Recv? && 0 < yielded < |s.buf| {
      AnswerPushes(s, RunRequest(s.buf, s.session.query, s.session.headers, yielded), route, watch);
    }
  }

  lemma AnswerPushes(s: Slot, p: Parsed, route: Route, watch: bool)
    ensures var o := Answer(s, p, route, watch);
            && (o.pushed == [Send] || o.pushed == [Send, Splice, Splice]) && !o.closed && o.slot.total == s.total + |o.pushed| && o.slot.cur == s.cur
            && (forall i :: 0 <= i < |o.pushed| ==> o.pushed[i].Send? || o.pushed[i].Splice?)
            && o.slot.prepared == s.prepared && |o.slot.buf| == |p.rest.bytes|
            && (o.slot.action.Send? || o.slot.action.Splice?)
  {
    hide ProtocolOf, R.Print, Zeros;
  }

  /** When a turn closes: a receive of nothing, or the last step. */
  lemma TurnCloses(s: Slot, yielded: int, route: Route, watch: bool)
    requires Ready(s, yielded) && (s.action.Recv? || s.action.Send? || s.action.Splice?)
    ensures var o := Handle(s, yielded, route, watch);
            && (o.closed <==> if s.action.Recv? then yielded == 0 else s.cur + 1 == s.total)
            && (o.closed ==> o.slot.cur == 0 && o.slot.total == 0 && o.slot.session == FRESH && o.slot.buf == Zeros(|s.buf|))
            && (o.closed ==> o.pushed == [] && o.slot.action == s.action)
            && (!s.action.Recv? && !o.closed ==> o.slot.cur == s.cur + 1)
            && (s.action.Recv? && !o.closed ==> (o.pushed == [] <==> yielded < 0))
  {
    hide RunRequest, Received, ComposedInto, ResponseOf;
    if s.action.Recv? && 0 < yielded < |s.buf| {
      AnswerPushes(s, RunRequest(s.buf, s.session.query, s.session.headers, yielded), route, watch);
    }
  }

  /** A turn of a slot that waits for sends and splices: one step fewer, or closed and blank. */
  lemma SendingKeeps(c: Cell, k: nat, route: Route, watch: bool)
    requires Connected(c) && Sending(c) && k < |c.pend| && c.pend[k].done.Some? && Ready(c.slot, c.pend[k].done.value)
    ensures var o := Handle(c.slot, c.pend[k].done.value, route, watch);
            if o.closed then Free(Resumed(c, k, o)) else Sending(Resumed(c, k, o))
  {
    hide Handle, Ready;
    var res := c.pend[k].done.value;
    TurnPushes(c.slot, res, route, watch);
    TurnCloses(c.slot, res, route, watch);
    var c' := Resumed(c, k, Handle(c.slot, res, route, watch));
    assert forall i :: 0 <= i < |c'.pend| ==> c'.pend[i] == c.pend[if i < k then i else i + 1];
  }

  /** A turn of a slot that waits for its receive: stuck, closed and blank, or sending. */
  lemma ReceivingKeeps(c: Cell, k: nat, route: Route, watch: bool)
    requires Connected(c) && Receiving(c) && k < |c.pend| && c.pend[k].done.Some? && Ready(c.slot, c.pend[k].done.value)
    ensures var o := Handle(c.slot, c.pend[k].done.value, route, watch);
            var c' := Resumed(c, k, o);
            if o.closed then Free(c') else if c.pend[k].done.value < 0 then Stuck(c') else Sending(c')
  {
    hide Handle, Ready;
    var res := c.pend[k].done.value;
    TurnPushes(c.slot, res, route, watch);
    TurnCloses(c.slot, res, route, watch);
    var o := Handle(c.slot, res, route, watch);
    assert Without(c.pend, k) == [];
    assert Resumed(c, k, o).pend == Pushed(o.pushed, c.gen);
  }

  /** A handler's turn on a connection leaves it connected, or closes it with nothing left. */
  lemma TurnKeeps(c: Cell, k: nat, route: Route, watch: bool)
    requires Connected(c) && k < |c.pend| && c.pend[k].done.Some? && Ready(c.slot, c.pend[k].done.value)
    ensures var o := Handle(c.slot, c.pend[k].done.value, route, watch);
            if o.closed then Free(Resumed(c, k, o)) else Connected(Resumed(c, k, o))
  {
    hide Handle, Ready, Free, Stuck, Receiving, Sending;
    ActionOf(c, k);
    TurnPushes(c.slot, c.pend[k].done.value, route, watch);
    if Sending(c) {
      SendingKeeps(c, k, route, watch);
    } else {
      ReceivingKeeps(c, k, route, watch);
    }
  }

  lemma ActionOf(c: Cell, k: nat)
    requires Connected(c) && k < |c.pend|
    ensures (c.slot.action.Recv? || c.slot.action.Send? || c.slot.action.Splice?) && !Stuck(c)
  {
  }

  lemma ResumingKeeps(w: World, e: Event, watch: bool)
    requires Inv(w) && Enabled(w, e) && e.Process? && CanHandle(w, e) && e.s != w.listen
    ensures Inv(Next(w, e, watch))
  {
    hide Handle, Connected, Free;
    Dispatch(w, e);
    assert CellOk(w, e.s);
    TurnKeeps(w.cells[e.s], e.k, e.route, watch);
    var w' := Next(w, e, watch);
    forall i | 0 <= i < |w'.cells|
      ensures CellOk(w', i)
    {
      assert CellOk(w, i);
    }
  }

  /** A slot that is not in use takes a new connection. */
  lemma OpenedOk(c: Cell)
    requires Free(c)
    ensures Connected(Opened(c))
  {
    assert Receiving(Opened(c));
  }

  lemma AcceptingKeeps(w: World, e: Event, watch: bool)
    requires Inv(w) && Enabled(w, e) && e.Process? && CanHandle(w, e) && e.s == w.listen
    ensures Inv(Next(w, e, watch))
  {
    hide Handle, Connected, Free;
    var c, w' := w.cells[e.s], Next(w, e, watch);
    var res := c.pend[e.k].done.value;
    assert e.k == 0 && Without(c.pend, 0) == [];
    if 0 <= res {
      var fd: nat := res;
      assert c.pend[0].done == Some(fd);
      assert CellOk(w, fd);
      OpenedOk(w.cells[fd]);
    }
    forall i | 0 <= i < |w'.cells|
      ensures CellOk(w', i)
    {
      assert CellOk(w, i);
    }
  }

  lemma OtherKeeps(w: World, e: Event, watch: bool)
    requires Inv(w) && Enabled(w, e) && (e.OpenOther? || e.CloseOther?) && CanHandle(w, e)
    ensures Inv(Next(w, e, watch))
  {
    hide Handle, Connected, Free;
    var w' := Next(w, e, watch);
    forall i | 0 <= i < |w'.cells|
      ensures CellOk(w', i)
    {
      assert CellOk(w, i);
    }
  }

  /** The invariant holds after every step. */
  lemma NextKeeps(w: World, e: Event, watch: bool)
    requires Inv(w) && Enabled(w, e)
    ensures CanHandle(w, e) && Inv(Next(w, e, watch))
  {
    hide Inv, Next, Enabled;
    HandlerReady(w, e);
    match e
    case Complete(_, _, _, _) => CompleteKeeps(w, e, watch);
    case Process(s, _, _, _) =>
      if s == w.listen { AcceptingKeeps(w, e, watch); } else { ResumingKeeps(w, e, watch); }
    case OpenOther(_) => OtherKeeps(w, e, watch);
    case CloseOther(_) => OtherKeeps(w, e, watch);
  }

  // Closing and reuse.

  /** This step closes slot s's connection. */
  ghost predicate Closes(w: World, e: Event, watch: bool, s: nat)
    requires Enabled(w, e) && CanHandle(w, e)
  {
    e.Process? && e.s == s && !w.cells[s].slot.action.Accept? && TurnOf(w, e, watch).closed
  }

  /** A connection is closed exactly when its receive returned 0, or the last of its sends and splices
      is processed; its descriptor is open until then, and afterwards nothing of it is in flight and
      nothing of it is left in the slot. */
  lemma ClosesWhen(w: World, e: Event, watch: bool, s: nat)
    requires Inv(w) && Enabled(w, e) && CanHandle(w, e) && e.Process? && e.s == s && s != w.listen
    ensures var c := w.cells[s];
            var op := c.pend[e.k];
            && (Closes(w, e, watch, s) <==>
                  (op.kind.Recv? && op.done == Some(0)) || ((op.kind.Send? || op.kind.Splice?) && |c.pend| == 1))
            && (Closes(w, e, watch, s) ==> s in w.conns && s !in Next(w, e, watch).conns && Free(Next(w, e, watch).cells[s]))
            && (!Closes(w, e, watch, s) ==> s in Next(w, e, watch).conns)
  {
    hide Handle;
    Dispatch(w, e);
    assert CellOk(w, s);
    TurnKeeps(w.cells[s], e.k, e.route, watch);
    TurnCloses(w.cells[s].slot, w.cells[s].pend[e.k].done.value, e.route, watch);
  }

  /** What a close leaves in the slot: that it was prepared, and which operation it finished with. */
  lemma ClosedSlot(w: World, e: Event, watch: bool, s: nat)
    requires Inv(w) && Enabled(w, e) && CanHandle(w, e) && Closes(w, e, watch, s) && s < |w.cells|
    ensures |Next(w, e, watch).cells| == |w.cells|
    ensures var before, after := w.cells[s].slot, Next(w, e, watch).cells[s].slot;
            && after.action == before.action && after.prepared == before.prepared && after.cur == 0 == after.total
            && after.session == Session(0, None, None, K.Table([], 20, false), K.Table([], 20, false), Scratch(0, [], R.Str([]), End, 0))
            && |after.buf| == |before.buf| && forall i :: 0 <= i < |after.buf| ==> after.buf[i] == '\0'
  {
    hide Handle, Connected;
    Dispatch(w, e);
    assert CellOk(w, s);
    ActionOf(w.cells[s], e.k);
    TurnPushes(w.cells[s].slot, w.cells[s].pend[e.k].done.value, e.route, watch);
    TurnCloses(w.cells[s].slot, w.cells[s].pend[e.k].done.value, e.route, watch);
  }

  /** A connection is left with nothing in flight exactly when its receive failed. */
  lemma LeftIdle(w: World, e: Event, watch: bool)
    requires Inv(w) && Enabled(w, e) && CanHandle(w, e) && e.Process? && e.s != w.listen
    ensures var w', op := Next(w, e, watch), w.cells[e.s].pend[e.k];
            && |w'.cells| == |w.cells|
            && (e.s in w'.conns && w'.cells[e.s].pend == [] <==> op.kind.Recv? && op.done.value < 0)
  {
    hide Handle;
    Dispatch(w, e);
    assert CellOk(w, e.s);
    var c, res := w.cells[e.s], w.cells[e.s].pend[e.k].done.value;
    TurnCloses(c.slot, res, e.route, watch);
    if Sending(c) {
      SendingKeeps(c, e.k, e.route, watch);
    } else {
      ReceivingKeeps(c, e.k, e.route, watch);
    }
  }

  // Runs.

  ghost predicate Follows(worlds: seq<World>, events: seq<Event>, watch: bool, k: nat)
    requires k < |events| && |worlds| == |events| + 1
  {
    Enabled(worlds[k], events[k]) && CanHandle(worlds[k], events[k]) && worlds[k + 1] == Next(worlds[k], events[k], watch)
  }

  /** A run of the server from its start. That the handler can read what it reads is no restriction:
      HandlerReady gives it for every reachable world. */
  ghost predicate IsRun(worlds: seq<World>, events: seq<Event>, watch: bool) {
    |worlds| == |events| + 1 && Start(worlds[0]) && forall k :: 0 <= k < |events| ==> Follows(worlds, events, watch, k)
  }

  lemma {:induction false} RunKeeps(worlds: seq<World>, events: seq<Event>, watch: bool, k: nat)
    requires IsRun(worlds, events, watch) && k <= |events|
    ensures Inv(worlds[k])
    decreases k
  {
    hide Inv, Next, Enabled, CanHandle, Start;
    if k == 0 {
      StartOk(worlds[0]);
    } else {
      RunKeeps(worlds, events, watch, k - 1);
      assert Follows(worlds, events, watch, k - 1);
      NextKeeps(worlds[k - 1], events[k - 1], watch);
    }
  }
}
