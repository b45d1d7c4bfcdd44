/** The loop on the heap takes the steps of the transition system. */
module IoRefinement {
  import opened Wrappers
  import opened CStrings
  import opened IoSlots
  import opened IoSystem
  import opened IoInvariant
  import opened IoProperties
  import H = IoHandler
  import L = IoLoop

  function Project(w: World): (r: seq<Slot>)
    ensures |r| == |w.cells| && forall i :: 0 <= i < |r| ==> r[i] == w.cells[i].slot
  {
    seq(|w.cells|, i requires 0 <= i < |w.cells| => w.cells[i].slot)
  }

  ghost predicate Matches(v: L.Server, w: World) {
    v.slots == Project(w) && v.exited == w.exited
  }

  /** What the loop sees of an event: a queue entry, bytes that arrive, or nothing. */
  ghost function ItemOf(w: World, e: Event): L.Item
    requires Enabled(w, e)
  {
    match e
    case Process(s, k, route, prepareOk) => L.Take(L.Cqe(s, w.cells[s].pend[k].done.value, route, prepareOk))
    case Complete(s, k, _, data) => L.Arrive(s, if w.cells[s].pend[k].kind.Recv? then data else [])
    case _ => L.Arrive(w.listen, [])
  }

  /** What a step closes: the connection of a turn that ends it, or the descriptor of a connection that
      cannot be prepared. */
  ghost function ClosedBy(w: World, e: Event, watch: bool): seq<nat>
    requires Enabled(w, e) && CanHandle(w, e)
  {
    if Unprepared(w, e) then [w.cells[e.s].pend[e.k].done.value]
    else if e.Process? && Closes(w, e, watch, e.s) then [e.s]
    else []
  }

  /** In every world of a run the loop finds what it relies on. */
  lemma LoopExpects(v: L.Server, w: World, e: Event)
    requires Inv(w) && Enabled(w, e) && Matches(v, w)
    ensures L.Expected(v, w.listen, ItemOf(w, e))
  {
    hide Handle, Prints;
    HandlerReady(w, e);
    if e.Process? {
      Dispatch(w, e);
      assert CellOk(w, e.s);
      var res := w.cells[e.s].pend[e.k].done.value;
      if e.s == w.listen && 0 <= res {
        var fd: nat := res;
        assert w.cells[w.listen].pend[0].done == Some(fd);
      }
    }
  }

  /** The kinds of operations, in order. */
  function Kinds(pend: seq<Op>): seq<Action> {
    seq(|pend|, k requires 0 <= k < |pend| => pend[k].kind)
  }

  /** The kinds of the orders for slot i, in order. */
  function KindsFor(orders: seq<Order>, i: nat): seq<Action> {
    if orders == [] then []
    else
      var last := orders[|orders| - 1];
      KindsFor(orders[..|orders| - 1], i) + if last.slot == i then [last.action] else []
  }

  lemma {:induction false} KindsForBoth(a: seq<Order>, b: seq<Order>, i: nat)
    ensures KindsFor(a + b, i) == KindsFor(a, i) + KindsFor(b, i)
    decreases |b|
  {
    if b == [] {
      assert a + b == a;
    } else {
      assert (a + b)[..|a + b| - 1] == a + b[..|b| - 1];
      KindsForBoth(a, b[..|b| - 1], i);
    }
  }

  lemma KindsForOne(o: Order, i: nat)
    ensures KindsFor([o], i) == if o.slot == i then [o.action] else []
  {
    assert [o][..0] == [];
  }

  lemma KindsForTwo(o: Order, p: Order, i: nat)
    ensures KindsFor([o, p], i) ==
            (if o.slot == i then [o.action] else []) + (if p.slot == i then [p.action] else [])
  {
    assert [o] + [p] == [o, p];
    KindsForBoth([o], [p], i);
    KindsForOne(o, i);
    KindsForOne(p, i);
  }

  /** Slot i's operations beyond the ones it had: the completion that is processed goes, these come. */
  ghost predicate Grows(w: World, e: Event, w': World, i: nat, kinds: seq<Action>) {
    && e.Process? && e.s < |w.cells| && e.k < |w.cells[e.s].pend| && i < |w.cells| == |w'.cells|
    && var pend, pend' := w.cells[i].pend, w'.cells[i].pend;
    && var kept := if i == e.s then pend[..e.k] + pend[e.k + 1..] else pend;
    && kept <= pend' && Kinds(pend'[|kept|..]) == kinds
  }

  lemma AcceptSteps(v: L.Server, w: World, e: Event, watch: bool)
    requires Inv(w) && Enabled(w, e) && CanHandle(w, e) && e.Process? && Matches(v, w) && e.s == w.listen
    requires L.Expected(v, w.listen, ItemOf(w, e))
    ensures var v' := L.OnItem(v, w.listen, ItemOf(w, e), watch);
            && Matches(v', Next(w, e, watch))
            && |v'.pushed| == |v.pushed| + Pushes(w, e, watch)
            && v'.closed == v.closed + ClosedBy(w, e, watch)
  {
    hide Handle, Ready, Prints, CellOk;
    Dispatch(w, e);
    var v', w' := L.OnItem(v, w.listen, ItemOf(w, e), watch), Next(w, e, watch);
    assert v'.slots == Project(w');
  }

  /** What an accept that completed submits: nothing if the process exits, otherwise an accept on the
      listening slot again, behind the new connection's receive if there is one. */
  lemma AcceptOrders(v: L.Server, w: World, e: Event, watch: bool)
    requires Inv(w) && Enabled(w, e) && CanHandle(w, e) && e.Process? && Matches(v, w) && e.s == w.listen
    requires L.Expected(v, w.listen, ItemOf(w, e))
    ensures var res := w.cells[e.s].pend[e.k].done.value;
            && res < |w.cells| && res != w.listen < |w.cells|
            && L.OnItem(v, w.listen, ItemOf(w, e), watch).pushed == v.pushed +
               if res < 0 && res != -11 then []
               else if res < 0 || (!w.cells[res].slot.prepared && !e.prepareOk)
               then [Order(w.listen, Accept, NoArgs, false)]
               else [Order(res, Recv, NoArgs, false), Order(w.listen, Accept, NoArgs, false)]
  {
    hide Handle, Ready, Prints, CellOk;
    Dispatch(w, e);
  }

  lemma AcceptGrows(w: World, e: Event, watch: bool, i: nat)
    requires Inv(w) && Enabled(w, e) && CanHandle(w, e) && e.Process? && e.s == w.listen && i < |w.cells|
    ensures var res := w.cells[e.s].pend[e.k].done.value;
            res < |w.cells| &&
            Grows(w, e, Next(w, e, watch), i,
                  if res < 0 && res != -11 then []
                  else if res < 0 || (!w.cells[res].slot.prepared && !e.prepareOk)
                  then if w.listen == i then [Accept] else []
                  else (if res == i then [Recv] else []) + (if w.listen == i then [Accept] else []))
  {
    hide Handle, Ready, Prints, CellOk;
    Dispatch(w, e);
    var res := w.cells[e.s].pend[e.k].done.value;
    if 0 <= res {
      var fd: nat := res;
      assert w.cells[w.listen].pend[0].done == Some(fd);
    }
  }

  lemma AcceptAdds(v: L.Server, w: World, e: Event, watch: bool, i: nat)
    requires Inv(w) && Enabled(w, e) && CanHandle(w, e) && e.Process? && Matches(v, w) && e.s == w.listen
    requires L.Expected(v, w.listen, ItemOf(w, e)) && i < |w.cells|
    ensures var v' := L.OnItem(v, w.listen, ItemOf(w, e), watch);
            && v.pushed <= v'.pushed && |v'.pushed| == |v.pushed| + Pushes(w, e, watch)
            && Grows(w, e, Next(w, e, watch), i, KindsFor(v'.pushed[|v.pushed|..], i))
  {
    hide Handle, Ready, Prints, Inv, L.OnItem, L.Expected, Matches, KindsFor, Grows, Next, ItemOf;
    Dispatch(w, e);
    AcceptOrders(v, w, e, watch);
    AcceptGrows(w, e, watch, i);
    var orders := L.OnItem(v, w.listen, ItemOf(w, e), watch).pushed[|v.pushed|..];
    var res := w.cells[e.s].pend[e.k].done.value;
    var again := Order(w.listen, Accept, NoArgs, false);
    if res < 0 && res != -11 {
      KindsForNone(i);
      assert orders == [];
    } else if res < 0 || (!w.cells[res].slot.prepared && !e.prepareOk) {
      KindsForOne(again, i);
      assert orders == [again];
    } else {
      KindsForTwo(Order(res, Recv, NoArgs, false), again, i);
      assert orders == [Order(res, Recv, NoArgs, false), again];
    }
  }

  lemma KindsForNone(i: nat)
    ensures KindsFor([], i) == []
  {
  }

  lemma HandlerSteps(v: L.Server, w: World, e: Event, watch: bool)
    requires Inv(w) && Enabled(w, e) && CanHandle(w, e) && e.Process? && Matches(v, w) && e.s != w.listen
    requires L.Expected(v, w.listen, ItemOf(w, e))
    ensures var v' := L.OnItem(v, w.listen, ItemOf(w, e), watch);
            && Matches(v', Next(w, e, watch))
            && v'.pushed == v.pushed + L.Orders(e.s, TurnOf(w, e, watch))
            && v'.closed == v.closed + ClosedBy(w, e, watch)
  {
    hide Handle, Ready, Prints, CellOk;
    Dispatch(w, e);
    var v', w' := L.OnItem(v, w.listen, ItemOf(w, e), watch), Next(w, e, watch);
    assert v'.slots == Project(w');
  }

  /** What a finished receive submits: the reply that belongs to the received bytes, and if it is
      composed and files are watched, linked behind it the file into the pipe and the pipe into the
      connection, as many bytes both times. A receive of nothing, a failed one and a finished send or
      splice submit nothing. */
  lemma ReplyOrders(v: L.Server, w: World, e: Event, watch: bool)
    requires Inv(w) && Enabled(w, e) && CanHandle(w, e) && e.Process? && Matches(v, w) && e.s != w.listen
    requires L.Expected(v, w.listen, ItemOf(w, e))
    ensures var v', op := L.OnItem(v, w.listen, ItemOf(w, e), watch), w.cells[e.s].pend[e.k];
            if !op.kind.Recv? || op.done.value <= 0 then v'.pushed == v.pushed else
              var s, buf, n: nat := e.s, w.cells[e.s].slot.buf, op.done.value;
              && n <= |buf|
              && var reply := ReplyTo(buf, n, e.route);
                 if reply.Composed? && watch then
                   && e.route.Handled?
                   && var content := e.route.content;
                      var file := if content.FileFd? then content.fd else 0;
                      var len := if content.Str? then 0 else content.Length() % 0x1_0000_0000;
                      v'.pushed == v.pushed + [Order(s, Send, Bytes(reply, true), true),
                                               Order(s, Splice, Between(FileOf(file), PipeWrite, len), true),
                                               Order(s, Splice, Between(PipeRead, Socket(s), len), false)]
                 else v'.pushed == v.pushed + [Order(s, Send, Bytes(reply, false), false)]
  {
    hide Handle, Ready, Prints, Connected, L.OnItem, L.Expected, Matches, ReplyTo;
    Dispatch(w, e);
    HandlerSteps(v, w, e, watch);
    assert CellOk(w, e.s);
    ActionOf(w.cells[e.s], e.k);
    var op := w.cells[e.s].pend[e.k];
    if op.kind.Recv? && op.done.value > 0 {
      RepliesAre(w, e, watch);
    } else {
      TurnPushes(w.cells[e.s].slot, op.done.value, e.route, watch);
      TurnCloses(w.cells[e.s].slot, op.done.value, e.route, watch);
    }
  }

  lemma OrdersAre(s: nat, o: Outcome, i: nat)
    requires o.pushed == [] || o.pushed == [Send] || o.pushed == [Send, Splice, Splice]
    ensures |L.Orders(s, o)| == |o.pushed| && KindsFor(L.Orders(s, o), i) == if s == i then o.pushed else []
  {
    hide H.FileFd, H.SpliceLen;
    var orders := L.Orders(s, o);
    if o.pushed == [Send] {
      KindsForOne(orders[0], i);
    } else if o.pushed != [] {
      KindsForBoth(orders[..2], orders[2..], i);
      KindsForTwo(orders[0], orders[1], i);
      KindsForOne(orders[2], i);
      assert orders == orders[..2] + orders[2..];
      assert orders[..2] == [orders[0], orders[1]] && orders[2..] == [orders[2]];
    }
  }

  lemma HandlerAdds(v: L.Server, w: World, e: Event, watch: bool, i: nat)
    requires Inv(w) && Enabled(w, e) && CanHandle(w, e) && e.Process? && Matches(v, w) && e.s != w.listen
    requires L.Expected(v, w.listen, ItemOf(w, e)) && i < |w.cells|
    ensures var v' := L.OnItem(v, w.listen, ItemOf(w, e), watch);
            && v.pushed <= v'.pushed && |v'.pushed| == |v.pushed| + Pushes(w, e, watch)
            && Grows(w, e, Next(w, e, watch), i, KindsFor(v'.pushed[|v.pushed|..], i))
  {
    hide Handle, Ready, Prints, Connected, L.OnItem, L.Expected, Matches, KindsFor, L.Orders;
    Dispatch(w, e);
    HandlerSteps(v, w, e, watch);
    assert CellOk(w, e.s);
    ActionOf(w.cells[e.s], e.k);
    var o := TurnOf(w, e, watch);
    TurnPushes(w.cells[e.s].slot, w.cells[e.s].pend[e.k].done.value, e.route, watch);
    OrdersAre(e.s, o, i);
    assert L.OnItem(v, w.listen, ItemOf(w, e), watch).pushed[|v.pushed|..] == L.Orders(e.s, o);
    assert Kinds(Pushed(o.pushed, w.cells[e.s].gen)) == o.pushed;
  }

  lemma TurnAdds(v: L.Server, w: World, e: Event, watch: bool, i: nat)
    requires Inv(w) && Enabled(w, e) && CanHandle(w, e) && e.Process? && Matches(v, w)
    requires L.Expected(v, w.listen, ItemOf(w, e))
    ensures e.s < |w.cells| && e.k < |w.cells[e.s].pend|
    ensures var v' := L.OnItem(v, w.listen, ItemOf(w, e), watch);
            && v.pushed <= v'.pushed && |v'.pushed| == |v.pushed| + Pushes(w, e, watch)
            && (i < |w.cells| ==> Grows(w, e, Next(w, e, watch), i, KindsFor(v'.pushed[|v.pushed|..], i)))
  {
    hide Inv, CanHandle, Matches, L.Expected, L.OnItem, Next, Pushes, KindsFor, Grows;
    var any := if i < |w.cells| then i else e.s;
    if e.s == w.listen {
      AcceptAdds(v, w, e, watch, any);
    } else {
      HandlerAdds(v, w, e, watch, any);
    }
  }

  /** The loop's turn is the system's step: the same slots and exit, the same closes; and what the loop
      submits for a slot is, in order, what the slot waits for afterwards beside what it still waited for. */
  lemma TurnSteps(v: L.Server, w: World, e: Event, watch: bool)
    requires Inv(w) && Enabled(w, e) && CanHandle(w, e) && e.Process? && Matches(v, w)
    requires L.Expected(v, w.listen, ItemOf(w, e))
    ensures var v', w' := L.OnItem(v, w.listen, ItemOf(w, e), watch), Next(w, e, watch);
            && Matches(v', w') && v'.closed == v.closed + ClosedBy(w, e, watch)
            && v.pushed <= v'.pushed && |v'.pushed| == |v.pushed| + Pushes(w, e, watch) && |w'.cells| == |w.cells|
            && forall i: nat :: i < |w.cells| ==>
                 var pend, pend' := w.cells[i].pend, w'.cells[i].pend;
                 var kept := if i == e.s then pend[..e.k] + pend[e.k + 1..] else pend;
                 kept <= pend' && Kinds(pend'[|kept|..]) == KindsFor(v'.pushed[|v.pushed|..], i)
  {
    hide Inv, Enabled, CanHandle, Matches, L.Expected, L.OnItem, Next, Pushes, ClosedBy, ItemOf, KindsFor, Kinds;
    if e.s == w.listen {
      AcceptSteps(v, w, e, watch);
    } else {
      HandlerSteps(v, w, e, watch);
    }
    CellsKept(w, e, watch);
    TurnAdds(v, w, e, watch, 0);
    var v', w' := L.OnItem(v, w.listen, ItemOf(w, e), watch), Next(w, e, watch);
    forall i: nat | i < |w.cells|
      ensures var pend, pend' := w.cells[i].pend, w'.cells[i].pend;
              var kept := if i == e.s then pend[..e.k] + pend[e.k + 1..] else pend;
              kept <= pend' && Kinds(pend'[|kept|..]) == KindsFor(v'.pushed[|v.pushed|..], i)
    {
      TurnAdds(v, w, e, watch, i);
    }
  }

  lemma NothingArrives(buf: seq<byte>)
    ensures Filled(buf, []) == buf
  {
  }

  /** What the kernel does in between is what arrives. */
  lemma ArrivalSteps(v: L.Server, w: World, e: Event, watch: bool)
    requires Inv(w) && Enabled(w, e) && CanHandle(w, e) && !e.Process? && Matches(v, w)
    requires L.Expected(v, w.listen, ItemOf(w, e))
    ensures var v' := L.OnItem(v, w.listen, ItemOf(w, e), watch);
            && Matches(v', Next(w, e, watch)) && v'.pushed == v.pushed && v'.closed == v.closed
            && ClosedBy(w, e, watch) == []
  {
    hide Handle, Ready, Prints, Filled;
    var v', w' := L.OnItem(v, w.listen, ItemOf(w, e), watch), Next(w, e, watch);
    NothingArrives(w.cells[if e.Complete? then e.s else w.listen].slot.buf);
    assert v'.slots == Project(w');
  }

  /** What a step closes, by the completion: a new descriptor whose connection cannot be prepared, or a
      connection whose receive returned 0 or whose last send or splice finished. */
  lemma ClosedByIs(w: World, e: Event, watch: bool)
    requires Inv(w) && Enabled(w, e) && CanHandle(w, e) && e.Process?
    ensures var op := w.cells[e.s].pend[e.k];
            var res := op.done.value;
            && (e.s == w.listen ==> res < |w.cells| && res != w.listen)
            && ClosedBy(w, e, watch) ==
               if e.s == w.listen then if 0 <= res && !w.cells[res].slot.prepared && !e.prepareOk then [res] else []
               else if op.kind.Recv? then if res == 0 then [e.s] else []
               else if |w.cells[e.s].pend| == 1 then [e.s] else []
  {
    hide Handle, Connected;
    Dispatch(w, e);
    if e.s != w.listen {
      assert CellOk(w, e.s);
      ActionOf(w.cells[e.s], e.k);
      ClosesWhen(w, e, watch, e.s);
    } else if 0 <= w.cells[e.s].pend[e.k].done.value {
      var fd: nat := w.cells[e.s].pend[e.k].done.value;
      assert w.cells[w.listen].pend[0].done == Some(fd);
    }
  }

  /** The items of events j to j + |items| - 1. */
  ghost predicate ItemsOf(worlds: seq<World>, events: seq<Event>, j: nat, items: seq<L.Item>) {
    && j + |items| <= |events| && |worlds| == |events| + 1
    && forall i :: 0 <= i < |items| ==> ItemAt(worlds[j + i], events[j + i], items[i])
  }

  ghost predicate ItemAt(w: World, e: Event, item: L.Item) {
    Enabled(w, e) && item == ItemOf(w, e)
  }

  /** What events j to j + n - 1 close. */
  ghost function ClosedBetween(worlds: seq<World>, events: seq<Event>, watch: bool, j: nat, n: nat): seq<nat>
    requires IsRun(worlds, events, watch) && j + n <= |events|
    decreases n
  {
    if n == 0 then [] else
      assert Follows(worlds, events, watch, j + n - 1);
      ClosedBetween(worlds, events, watch, j, n - 1) + ClosedBy(worlds[j + n - 1], events[j + n - 1], watch)
  }

  /** The kinds of the operations that slot i has in w' and did not have in w, but for the completion
      that e processes. */
  function AddedBy(w: World, e: Event, w': World, i: nat): seq<Action>
    requires i < |w.cells| && i < |w'.cells|
  {
    var gone := if e.Process? && e.s == i then 1 else 0;
    var kept := |w.cells[i].pend| - gone;
    if 0 <= kept <= |w'.cells[i].pend| then Kinds(w'.cells[i].pend[kept..]) else []
  }

  /** What events j to j + n - 1 add to slot i. */
  function AddedBetween(worlds: seq<World>, events: seq<Event>, i: nat, j: nat, n: nat): seq<Action>
    requires j + n <= |events| && |worlds| == |events| + 1
    requires forall m :: 0 <= m < |worlds| ==> i < |worlds[m].cells|
    decreases n
  {
    if n == 0 then [] else
      AddedBetween(worlds, events, i, j, n - 1) + AddedBy(worlds[j + n - 1], events[j + n - 1], worlds[j + n], i)
  }

  lemma AddsKinds(w: World, e: Event, w': World, i: nat)
    requires e.Process? && e.s < |w.cells| && e.k < |w.cells[e.s].pend| && i < |w.cells| == |w'.cells|
    requires var kept := if i == e.s then w.cells[i].pend[..e.k] + w.cells[i].pend[e.k + 1..] else w.cells[i].pend;
             kept <= w'.cells[i].pend
    ensures var kept := if i == e.s then w.cells[i].pend[..e.k] + w.cells[i].pend[e.k + 1..] else w.cells[i].pend;
            AddedBy(w, e, w', i) == Kinds(w'.cells[i].pend[|kept|..])
  {
  }

  lemma AddsNothing(w: World, e: Event, watch: bool, i: nat)
    requires Enabled(w, e) && CanHandle(w, e) && !e.Process? && i < |w.cells| && i < |Next(w, e, watch).cells|
    ensures AddedBy(w, e, Next(w, e, watch), i) == []
  {
  }

  lemma CellsOfRun(worlds: seq<World>, events: seq<Event>, watch: bool)
    requires IsRun(worlds, events, watch)
    ensures forall m :: 0 <= m < |worlds| ==> |worlds[m].cells| == |worlds[0].cells|
  {
    hide Follows, Start;
    forall m | 0 <= m < |worlds|
      ensures |worlds[m].cells| == |worlds[0].cells|
    {
      SameCells(worlds, events, watch, m);
    }
  }

  /** One step of a run. */
  lemma ItemSteps(u: L.Server, w: World, e: Event, watch: bool, i: nat)
    requires Inv(w) && Enabled(w, e) && CanHandle(w, e) && Matches(u, w) && L.Expected(u, w.listen, ItemOf(w, e))
    requires i < |w.cells|
    ensures var u', w' := L.OnItem(u, w.listen, ItemOf(w, e), watch), Next(w, e, watch);
            && Matches(u', w') && |w'.cells| == |w.cells| && u.pushed <= u'.pushed
            && |u'.pushed| <= |u.pushed| + (if e.Process? then 3 else 0)
            && u'.closed == u.closed + ClosedBy(w, e, watch)
            && KindsFor(u'.pushed[|u.pushed|..], i) == AddedBy(w, e, w', i)
  {
    hide Inv, Matches, L.Expected, L.OnItem, Next, Pushes, ClosedBy, ItemOf, KindsFor, Kinds, CanHandle, AddedBy;
    CellsKept(w, e, watch);
    var u', w' := L.OnItem(u, w.listen, ItemOf(w, e), watch), Next(w, e, watch);
    if e.Process? {
      TurnSteps(u, w, e, watch);
      TurnAdds(u, w, e, watch, i);
      PushesAtMostThree(w, e, watch);
      AddsKinds(w, e, w', i);
    } else {
      ArrivalSteps(u, w, e, watch);
      AddsNothing(w, e, watch, i);
      KindsForNone(i);
      assert u'.pushed[|u.pushed|..] == [];
    }
  }

  /** In every run, a batch that the loop drains, whatever completes while it does, finds what it relies
      on at each item, leaves the slots as the system's steps do, closes what they close and submits for
      each slot what they add to it; c completions push at most 3c entries. */
  lemma {:induction false} LoopRuns(worlds: seq<World>, events: seq<Event>, watch: bool, j: nat,
                                    items: seq<L.Item>, v: L.Server, n: nat, i: nat)
    requires IsRun(worlds, events, watch) && ItemsOf(worlds, events, j, items) && Matches(v, worlds[j]) && n <= |items|
    requires i < |worlds[0].cells|
    ensures L.AllExpected(v, worlds[j].listen, items, n, watch)
    ensures forall m :: 0 <= m < |worlds| ==> i < |worlds[m].cells|
    ensures var u := L.Drained(v, worlds[j].listen, items, n, watch);
            && Matches(u, worlds[j + n]) && worlds[j + n].listen == worlds[j].listen
            && v.pushed <= u.pushed && |u.pushed| <= |v.pushed| + 3 * L.Completions(items, n)
            && u.closed == v.closed + ClosedBetween(worlds, events, watch, j, n)
            && KindsFor(u.pushed[|v.pushed|..], i) == AddedBetween(worlds, events, i, j, n)
    decreases n
  {
    hide Inv, Next, Start, CanHandle, Enabled, Matches, L.Expected, L.OnItem, ClosedBy, ItemOf, KindsFor, AddedBy, Kinds;
    CellsOfRun(worlds, events, watch);
    if n == 0 {
      KindsForNone(i);
      assert v.pushed[|v.pushed|..] == [];
    } else {
      LoopRuns(worlds, events, watch, j, items, v, n - 1, i);
      var u := L.Drained(v, worlds[j].listen, items, n - 1, watch);
      var w, e := worlds[j + n - 1], events[j + n - 1];
      assert ItemAt(worlds[j + (n - 1)], events[j + (n - 1)], items[n - 1]);
      RunKeeps(worlds, events, watch, j + n - 1);
      assert Follows(worlds, events, watch, j + n - 1);
      NotExited(u, w, e);
      LoopExpects(u, w, e);
      ItemIs(w, e);
      ItemSteps(u, w, e, watch, i);
      ListenStays(w, e, watch);
      var u' := L.OnItem(u, w.listen, items[n - 1], watch);
      assert u'.pushed[|v.pushed|..] == u.pushed[|v.pushed|..] + u'.pushed[|u.pushed|..];
      KindsForBoth(u.pushed[|v.pushed|..], u'.pushed[|u.pushed|..], i);
    }
  }

  lemma ItemGrows(v: L.Server, listen: nat, item: L.Item, watch: bool)
    requires L.Expected(v, listen, item)
    ensures v.pushed <= L.OnItem(v, listen, item, watch).pushed
  {
    hide Handle, Ready, Prints, L.Orders;
  }

  lemma {:induction false} DrainedGrows(v: L.Server, listen: nat, items: seq<L.Item>, m: nat, n: nat, watch: bool)
    requires m <= n <= |items| && L.AllExpected(v, listen, items, n, watch) && L.AllExpected(v, listen, items, m, watch)
    ensures L.Drained(v, listen, items, m, watch).pushed <= L.Drained(v, listen, items, n, watch).pushed
    decreases n
  {
    hide L.Expected, L.OnItem;
    if m < n {
      DrainedGrows(v, listen, items, m, n - 1, watch);
      var u := L.Drained(v, listen, items, n - 1, watch);
      if !u.exited {
        ItemGrows(u, listen, items[n - 1], watch);
      }
    }
  }

  lemma InBatch(worlds: seq<World>, events: seq<Event>, watch: bool, j: nat, items: seq<L.Item>, m: nat)
    requires IsRun(worlds, events, watch) && ItemsOf(worlds, events, j, items) && m < |items|
    ensures j + m < |events| && |worlds| == |events| + 1 && worlds[0].cells != []
    ensures Inv(worlds[j + m]) && ItemAt(worlds[j + m], events[j + m], items[m])
  {
    hide Follows, Start, Inv, ItemAt;
    CellsOfRun(worlds, events, watch);
    RunKeeps(worlds, events, watch, j + m);
    ListensSomewhere(worlds[j + m]);
  }

  lemma ListensSomewhere(w: World)
    requires Inv(w)
    ensures w.cells != []
  {
  }

  /** The entries that the loop made of the m-th item of a batch are in its ring when the batch is done. */
  lemma RingHolds(loop: L.EventLoop, v: L.Server, worlds: seq<World>, events: seq<Event>, watch: bool, j: nat,
                  items: seq<L.Item>, m: nat)
    requires IsRun(worlds, events, watch) && ItemsOf(worlds, events, j, items) && Matches(v, worlds[j]) && m < |items|
    requires Follows(worlds, events, watch, j + m) && worlds[0].cells != []
    requires L.AllExpected(v, worlds[j].listen, items, |items|, watch) && loop.Valid()
    requires loop.server == L.Drained(v, worlds[j].listen, items, |items|, watch)
    ensures L.AllExpected(v, worlds[j].listen, items, m, watch)
    ensures var u, w, e := L.Drained(v, worlds[j].listen, items, m, watch), worlds[j + m], events[j + m];
            && Matches(u, w) && L.Expected(u, w.listen, ItemOf(w, e))
            && L.OnItem(u, w.listen, ItemOf(w, e), watch).pushed <= loop.server.pushed
    ensures L.Entered(loop.conns, loop.ring.sqes, loop.server.pushed)
  {
    hide Inv, Next, Start, CanHandle, Enabled, Matches, L.Expected, L.OnItem, ItemOf, KindsFor, L.EventLoop.Mirrors, L.Entered;
    var listen := worlds[j].listen;
    LoopRuns(worlds, events, watch, j, items, v, m, 0);
    L.AllExpectedBefore(v, listen, items, m + 1, |items|, watch);
    var u, w, e := L.Drained(v, listen, items, m, watch), worlds[j + m], events[j + m];
    assert ItemAt(worlds[j + m], events[j + m], items[m]);
    RunKeeps(worlds, events, watch, j + m);
    NotExited(u, w, e);
    LoopExpects(u, w, e);
    DrainedGrows(v, listen, items, m + 1, |items|, watch);
  }

  /** What a client is sent, at the ring: in every batch of every run, the receive of n bytes that is the
      batch's m-th item leaves in the ring the send of the reply that belongs to these bytes, on the
      connection they came from, and behind a composed reply the splices of the handler's file into it. */
  lemma RingReplies(loop: L.EventLoop, v: L.Server, worlds: seq<World>, events: seq<Event>, watch: bool, j: nat,
                    items: seq<L.Item>, m: nat)
    requires IsRun(worlds, events, watch) && ItemsOf(worlds, events, j, items) && Matches(v, worlds[j]) && m < |items|
    requires Follows(worlds, events, watch, j + m) && events[j + m].Process?
    requires var op := worlds[j + m].cells[events[j + m].s].pend[events[j + m].k]; op.kind.Recv? && op.done.value > 0
    requires L.AllExpected(v, worlds[j].listen, items, |items|, watch) && loop.Valid()
    requires loop.server == L.Drained(v, worlds[j].listen, items, |items|, watch)
    ensures L.AllExpected(v, worlds[j].listen, items, m, watch)
    ensures var c, route, s := worlds[j + m].cells[events[j + m].s], events[j + m].route, events[j + m].s;
            var n: nat := c.pend[events[j + m].k].done.value;
            var sqes, p := loop.ring.sqes, |L.Drained(v, worlds[j].listen, items, m, watch).pushed|;
            && n <= |c.slot.buf| && s < |loop.conns| && p < |sqes|
            && var reply := ReplyTo(c.slot.buf, n, route);
               if reply.Composed? && watch then
                 && route.Handled? && p + 2 < |sqes|
                 && var content := route.content;
                    var file := if content.FileFd? then content.fd else 0;
                    var len := if content.Str? then 0 else content.Length() % 0x1_0000_0000;
                    && sqes[p] == H.Sqe(Send, loop.conns[s], null, Bytes(reply, true), true)
                    && sqes[p + 1] == H.Sqe(Splice, loop.conns[s], null, Between(FileOf(file), PipeWrite, len), true)
                    && sqes[p + 2] == H.Sqe(Splice, loop.conns[s], null, Between(PipeRead, Socket(s), len), false)
               else sqes[p] == H.Sqe(Send, loop.conns[s], null, Bytes(reply, false), false)
  {
    hide Inv, Next, Start, CanHandle, Matches, L.Expected, L.OnItem, ItemOf, L.AllExpected, L.Drained, L.EventLoop.Valid,
         ReplyTo, ItemsOf;
    InBatch(worlds, events, watch, j, items, m);
    RingHolds(loop, v, worlds, events, watch, j, items, m);
    var u, w, e := L.Drained(v, worlds[j].listen, items, m, watch), worlds[j + m], events[j + m];
    ReceivesApart(w, e);
    ReplyOrders(u, w, e, watch);
    L.EntriesAre(loop.conns, loop.ring.sqes, loop.server.pushed);
    assert loop.server.pushed[|u.pushed|].slot == e.s;
  }

  lemma ReceivesApart(w: World, e: Event)
    requires Inv(w) && Enabled(w, e) && e.Process? && w.cells[e.s].pend[e.k].kind.Recv?
    ensures e.s != w.listen
  {
    Dispatch(w, e);
  }

  /** And an accepted connection's receive, into its own buffer, and the next accept. */
  lemma RingAccepts(loop: L.EventLoop, v: L.Server, worlds: seq<World>, events: seq<Event>, watch: bool, j: nat,
                    items: seq<L.Item>, m: nat)
    requires IsRun(worlds, events, watch) && ItemsOf(worlds, events, j, items) && Matches(v, worlds[j]) && m < |items|
    requires Follows(worlds, events, watch, j + m) && events[j + m].Process? && events[j + m].s == worlds[j + m].listen
    requires var w, e := worlds[j + m], events[j + m];
             var res := w.cells[e.s].pend[e.k].done.value;
             0 <= res < |w.cells| && (w.cells[res].slot.prepared || e.prepareOk)
    requires L.AllExpected(v, worlds[j].listen, items, |items|, watch) && loop.Valid()
    requires loop.server == L.Drained(v, worlds[j].listen, items, |items|, watch)
    ensures L.AllExpected(v, worlds[j].listen, items, m, watch)
    ensures var w, e := worlds[j + m], events[j + m];
            var fd := w.cells[e.s].pend[e.k].done.value;
            var sqes, p := loop.ring.sqes, |L.Drained(v, worlds[j].listen, items, m, watch).pushed|;
            && p + 1 < |sqes| && fd < |loop.conns| && w.listen < |loop.conns|
            && sqes[p] == H.Sqe(Recv, loop.conns[fd], loop.conns[fd].buf, NoArgs, false)
            && sqes[p + 1] == H.Sqe(Accept, loop.conns[w.listen], null, NoArgs, false)
  {
    hide Inv, Next, Start, CanHandle, Matches, L.Expected, L.OnItem, ItemOf, L.AllExpected, L.Drained, L.EventLoop.Valid,
         ItemsOf;
    InBatch(worlds, events, watch, j, items, m);
    RingHolds(loop, v, worlds, events, watch, j, items, m);
    var u, w, e := L.Drained(v, worlds[j].listen, items, m, watch), worlds[j + m], events[j + m];
    AcceptOrders(u, w, e, watch);
    L.EntriesAre(loop.conns, loop.ring.sqes, loop.server.pushed);
    assert loop.server.pushed[|u.pushed|].slot == w.cells[e.s].pend[e.k].done.value;
    assert loop.server.pushed[|u.pushed| + 1].slot == w.listen;
  }

  lemma NotExited(u: L.Server, w: World, e: Event)
    requires Enabled(w, e) && Matches(u, w)
    ensures !u.exited
  {
  }

  lemma ItemIs(w: World, e: Event)
    requires Enabled(w, e)
    ensures ItemOf(w, e).Take? <==> e.Process?
  {
  }

  lemma ListenStays(w: World, e: Event, watch: bool)
    requires Enabled(w, e) && CanHandle(w, e)
    ensures Next(w, e, watch).listen == w.listen
  {
    hide Handle;
  }
}
