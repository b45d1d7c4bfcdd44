/** Close-once and safe reuse, fresh handling of every request, quiescence and submission bounds. */
module IoProperties {
  import opened Wrappers
  import opened CStrings
  import K = KeyValue
  import opened HttpScan
  import opened HttpInPlace
  import opened IoSlots
  import opened IoSystem
  import opened IoInvariant
  import HttpCorrectness
  import G = HttpGrammar
  import R = HttpResponse

  // Close-once.

  /** A slot counts its connections: the count goes up when one is accepted, and only then. */
  lemma GenStep(w: World, e: Event, watch: bool, s: nat)
    requires Inv(w) && Enabled(w, e) && CanHandle(w, e) && s < |w.cells|
    ensures var w' := Next(w, e, watch);
            && |w'.cells| == |w.cells|
            && w'.cells[s].gen == w.cells[s].gen + (if s in w'.conns && s !in w.conns then 1 else 0)
  {
    hide Handle;
    if e.Process? {
      Dispatch(w, e);
      assert CellOk(w, e.s);
    }
  }

  /** After a close the slot is unused, or it has another connection. */
  lemma {:induction false} AfterClose(worlds: seq<World>, events: seq<Event>, watch: bool, s: nat, j: nat, k: nat)
    requires IsRun(worlds, events, watch) && j < k <= |events| && s < |worlds[0].cells|
    requires Follows(worlds, events, watch, j) && Closes(worlds[j], events[j], watch, s)
    ensures |worlds[j].cells| == |worlds[k].cells| == |worlds[0].cells|
    ensures worlds[j].cells[s].gen <= worlds[k].cells[s].gen
    ensures s in worlds[k].conns ==> worlds[j].cells[s].gen < worlds[k].cells[s].gen
    decreases k
  {
    hide Inv, Next, Enabled, CanHandle, Closes, Start;
    SameCells(worlds, events, watch, j);
    SameCells(worlds, events, watch, k - 1);
    RunKeeps(worlds, events, watch, k - 1);
    assert Follows(worlds, events, watch, k - 1);
    GenStep(worlds[k - 1], events[k - 1], watch, s);
    if j + 1 < k {
      AfterClose(worlds, events, watch, s, j, k - 1);
    } else {
      ClosedIs(worlds[j], events[j], watch, s);
    }
  }

  lemma ClosedIs(w: World, e: Event, watch: bool, s: nat)
    requires Inv(w) && Enabled(w, e) && CanHandle(w, e) && Closes(w, e, watch, s)
    ensures s in w.conns && s !in Next(w, e, watch).conns
  {
    Dispatch(w, e);
    ClosesWhen(w, e, watch, s);
  }

  lemma {:induction false} SameCells(worlds: seq<World>, events: seq<Event>, watch: bool, k: nat)
    requires IsRun(worlds, events, watch) && k <= |events|
    ensures |worlds[k].cells| == |worlds[0].cells|
    decreases k
  {
    hide Inv, Next, Enabled, CanHandle, Start;
    if k > 0 {
      SameCells(worlds, events, watch, k - 1);
      RunKeeps(worlds, events, watch, k - 1);
      assert Follows(worlds, events, watch, k - 1);
      CellsKept(worlds[k - 1], events[k - 1], watch);
    }
  }

  lemma CellsKept(w: World, e: Event, watch: bool)
    requires Enabled(w, e) && CanHandle(w, e)
    ensures |Next(w, e, watch).cells| == |w.cells|
  {
    hide Handle;
  }

  /** Close-once: in every run, two closes of one descriptor close two different connections. */
  lemma ClosedOnce(worlds: seq<World>, events: seq<Event>, watch: bool, s: nat, j: nat, k: nat)
    requires IsRun(worlds, events, watch) && j < k < |events| && s < |worlds[0].cells|
    requires Follows(worlds, events, watch, j) && Closes(worlds[j], events[j], watch, s)
    requires Follows(worlds, events, watch, k) && Closes(worlds[k], events[k], watch, s)
    ensures |worlds[j].cells| == |worlds[k].cells| == |worlds[0].cells|
    ensures worlds[j].cells[s].gen < worlds[k].cells[s].gen
  {
    hide Inv, Next, Enabled, CanHandle, Closes, Start;
    AfterClose(worlds, events, watch, s, j, k);
    RunKeeps(worlds, events, watch, k);
    ClosedIs(worlds[k], events[k], watch, s);
  }

  /** Safe reuse: in every run, a completion that is processed belongs to the slot's connection of that
      moment, never to an earlier one. */
  lemma NoStaleCompletion(worlds: seq<World>, events: seq<Event>, watch: bool, k: nat)
    requires IsRun(worlds, events, watch) && k < |events| && events[k].Process? && Enabled(worlds[k], events[k])
    ensures events[k].s != worlds[k].listen ==>
              && events[k].s in worlds[k].conns
              && worlds[k].cells[events[k].s].pend[events[k].k].gen == worlds[k].cells[events[k].s].gen
  {
    RunKeeps(worlds, events, watch, k);
    Dispatch(worlds[k], events[k]);
  }

  // Fresh handling.

  /** A slot's first connection at the moment its first bytes arrived. */
  function NewSlot(capacity: nat, data: seq<byte>): Slot
    requires |data| <= capacity
  {
    var s := Slot(NoAction, 0, 0, true, FRESH, Zeros(capacity));
    Push(s, Recv).(buf := Filled(Zeros(capacity), data))
  }

  /** A receive that completes leaves its bytes at the start of the slot's buffer and its result in its
      operation, and nothing else changes. */
  lemma BytesArrive(w: World, e: Event, watch: bool)
    requires Inv(w) && Enabled(w, e) && CanHandle(w, e) && e.Complete? && w.cells[e.s].pend[e.k].kind.Recv?
    ensures var w' := Next(w, e, watch);
            && |w'.cells| == |w.cells| && w'.conns == w.conns && w'.others == w.others
            && forall i :: 0 <= i < |w.cells| && i != e.s ==> w'.cells[i] == w.cells[i]
    ensures var c, c' := w.cells[e.s], Next(w, e, watch).cells[e.s];
            && |c'.slot.buf| == |c.slot.buf| && |e.data| <= |c.slot.buf|
            && c'.slot.buf[..|e.data|] == e.data && c'.slot.buf[|e.data|..] == c.slot.buf[|e.data|..]
            && |c'.pend| == |c.pend| && c'.gen == c.gen && c'.pend[e.k].done == Some(e.res)
            && |e.data| == (if e.res > 0 then e.res else 0)
  {
    hide Handle;
  }

  /** Whenever received bytes are processed, the slot cannot be told from one that was never used: the
      n-th request is handled as the first one would be. */
  lemma FreshHandling(w: World, e: Event)
    requires Inv(w) && Enabled(w, e) && e.Process? && w.cells[e.s].pend[e.k].kind.Recv?
    requires w.cells[e.s].pend[e.k].done.value > 0
    ensures var c := w.cells[e.s];
            var res := c.pend[e.k].done.value;
            && res <= |c.slot.buf| && c.slot == NewSlot(|c.slot.buf|, c.slot.buf[..res])
            && (res < |c.slot.buf| ==> Received(c.slot.buf, res))
            && c.slot.action == Recv && c.slot.cur == 0 == c.slot.total && c.slot.prepared
            && c.slot.session == Session(0, None, None, K.Table([], 20, false), K.Table([], 20, false), Scratch(0, [], R.Str([]), End, 0))
            && forall i :: res <= i < |c.slot.buf| ==> c.slot.buf[i] == '\0'
  {
    Dispatch(w, e);
    assert CellOk(w, e.s);
    var c := w.cells[e.s];
    var res := c.pend[e.k].done.value;
    assert Receiving(c);
    assert c.slot.buf == Filled(Zeros(|c.slot.buf|), c.slot.buf[..res]);
  }

  /** So on every run the handler accepts exactly the requests the grammar has a reading for, and
      dispatches on the reading's method and path. */
  lemma RequestsAreRead(worlds: seq<World>, events: seq<Event>, watch: bool, k: nat)
    requires IsRun(worlds, events, watch) && k < |events| && events[k].Process? && Enabled(worlds[k], events[k])
    requires var op := worlds[k].cells[events[k].s].pend[events[k].k];
             op.kind.Recv? && 0 < op.done.value < |worlds[k].cells[events[k].s].slot.buf|
    ensures var c := worlds[k].cells[events[k].s];
            var n: nat := c.pend[events[k].k].done.value;
            && Received(c.slot.buf, n)
            && var r := RunRequest(c.slot.buf, c.slot.session.query, c.slot.session.headers, n);
               var m := G.Tokenize(Sub(c.slot.buf, 0, n));
            && (r.Ok() <==> m.Some?)
            && (r.Ok() ==> r.mask == m.value.mask && r.path.Some? && StringAt(r.rest.bytes, r.path.value, m.value.path))
  {
    hide RunRequest, G.Tokenize, Inv, Start;
    RunKeeps(worlds, events, watch, k);
    FreshHandling(worlds[k], events[k]);
    var slot := worlds[k].cells[events[k].s].slot;
    var n: nat := worlds[k].cells[events[k].s].pend[events[k].k].done.value;
    HttpCorrectness.AcceptsSame(slot.buf, slot.session.query, slot.session.headers, n);
    if RunRequest(slot.buf, slot.session.query, slot.session.headers, n).Ok() {
      HttpCorrectness.LineDelivered(slot.buf, slot.session.query, slot.session.headers, n);
    }
  }

  /** The composed text of an accepted request: the response's print and nothing else. */
  lemma ComposedIs(s: Slot, p: Parsed, protocol: Text, route: Route, watch: bool)
    requires s.session == FRESH && p.Ok() && StringAt(p.rest.bytes, p.rest.protocol.value, protocol)
    requires route.Handled? && !Refused(route)
    ensures var r := R.Response(protocol, route.status, route.headers, route.content);
            var o := Answer(s, p, route, watch);
            && o.reply == Composed(R.Print(r, route.content.Sent()), R.Print(r, End).Len() + |route.content.Bytes()|)
            && o.slot.session.scratch.content == route.content
  {
    hide R.Print;
    assert ProtocolOf(p) == protocol;
  }

  /** What a client is sent: 413 when the request fills the buffer, 400 when the grammar has no reading
      of it, 404 when there is no route or no file, 500 when the handler fails, and otherwise exactly
      the print of the request's protocol and the handler's response, with nothing of an earlier one; in
      the build with file watching with the two splices linked behind it. */
  lemma RepliesAre(w: World, e: Event, watch: bool)
    requires Inv(w) && Enabled(w, e) && CanHandle(w, e) && e.Process? && w.cells[e.s].pend[e.k].kind.Recv?
    requires w.cells[e.s].pend[e.k].done.value > 0
    ensures var buf, n: nat := w.cells[e.s].slot.buf, w.cells[e.s].pend[e.k].done.value;
            var o := TurnOf(w, e, watch);
            n <= |buf| && !o.closed && o.reply == ReplyTo(buf, n, e.route)
            && (o.pushed == if o.reply.Composed? && watch then [Send, Splice, Splice] else [Send])
            && (o.reply.Composed? ==> e.route.Handled? && o.slot.session.scratch.content == e.route.content)
  {
    hide RunRequest, G.Tokenize, Received, R.Print, StringAt;
    Dispatch(w, e);
    FreshHandling(w, e);
    var slot := w.cells[e.s].slot;
    var n: nat := w.cells[e.s].pend[e.k].done.value;
    if n < |slot.buf| {
      var p := RunRequest(slot.buf, slot.session.query, slot.session.headers, n);
      HttpCorrectness.AcceptsSame(slot.buf, slot.session.query, slot.session.headers, n);
      if p.Ok() {
        HttpCorrectness.LineDelivered(slot.buf, slot.session.query, slot.session.headers, n);
        var m := G.Tokenize(Sub(slot.buf, 0, n)).value;
        if e.route.Handled? && !Refused(e.route) {
          ComposedIs(slot, p, m.protocol, e.route, watch);
        }
      }
    }
  }

  /** On every run. */
  lemma EveryReply(worlds: seq<World>, events: seq<Event>, watch: bool, k: nat)
    requires IsRun(worlds, events, watch) && k < |events| && Enabled(worlds[k], events[k])
    requires CanHandle(worlds[k], events[k]) && events[k].Process?
    requires var op := worlds[k].cells[events[k].s].pend[events[k].k]; op.kind.Recv? && 0 < op.done.value
    ensures var c := worlds[k].cells[events[k].s];
            var n: nat := c.pend[events[k].k].done.value;
            n <= |c.slot.buf| && TurnOf(worlds[k], events[k], watch).reply == ReplyTo(c.slot.buf, n, events[k].route)
  {
    hide Inv, Start, TurnOf, ReplyTo;
    RunKeeps(worlds, events, watch, k);
    RepliesAre(worlds[k], events[k], watch);
  }

  /** The reply to the first n bytes of buf, when route is what find_router and the handler answer. */
  ghost function ReplyTo(buf: seq<byte>, n: nat, route: Route): Reply
    requires n <= |buf|
  {
    if n == |buf| then Fixed(413)
    else match G.Tokenize(Sub(buf, 0, n))
      case None => Fixed(400)
      case Some(m) =>
        match route
        case NoRoute => Fixed(404)
        case Handled(err, status, headers, content) =>
          var r := R.Response(m.protocol, status, headers, content);
          if err == -8 then Fixed(404)
          else if err == -2 then Fixed(500)
          else Composed(R.Print(r, content.Sent()), R.Print(r, End).Len() + |content.Bytes()|)
  }

  // Quiescence.

  function WeightOf(op: Op): nat {
    match op.kind
    case Recv => 4
    case Send => 1
    case Splice => 1
    case _ => 0
  }

  function PendWeight(pend: seq<Op>): nat {
    if |pend| == 0 then 0 else PendWeight(pend[..|pend| - 1]) + WeightOf(pend[|pend| - 1])
  }

  /** A receive weighs four, a send or splice one. */
  lemma Weighs(pend: seq<Op>, op: Op)
    ensures PendWeight([]) == 0
    ensures PendWeight(pend + [op]) == PendWeight(pend) + if op.kind.Recv? then 4 else if op.kind.Send? || op.kind.Splice? then 1 else 0
  {
    assert (pend + [op])[..|pend|] == pend;
  }

  /** The weight of the first n slots. */
  function Weight(cells: seq<Cell>, n: nat): nat
    requires n <= |cells|
  {
    if n == 0 then 0 else Weight(cells, n - 1) + PendWeight(cells[n - 1].pend)
  }

  lemma {:induction false} WeightChange(a: seq<Cell>, b: seq<Cell>, s: nat, n: nat)
    requires n <= |a| == |b| && s < |a| && forall i :: 0 <= i < |a| && i != s ==> a[i].pend == b[i].pend
    ensures Weight(a, n) - Weight(b, n) == if s < n then PendWeight(a[s].pend) - PendWeight(b[s].pend) else 0
    decreases n
  {
    if n > 0 {
      WeightChange(a, b, s, n - 1);
    }
  }

  lemma {:induction false} SendingWeight(pend: seq<Op>)
    requires forall k :: 0 <= k < |pend| ==> pend[k].kind.Send? || pend[k].kind.Splice?
    ensures PendWeight(pend) == |pend|
    decreases |pend|
  {
    if |pend| > 0 {
      SendingWeight(pend[..|pend| - 1]);
    }
  }

  /** A turn of the handler pushes at most three operations and lightens its slot. */
  lemma TurnLightens(c: Cell, k: nat, route: Route, watch: bool)
    requires Connected(c) && k < |c.pend| && c.pend[k].done.Some? && Ready(c.slot, c.pend[k].done.value)
    ensures var o := Handle(c.slot, c.pend[k].done.value, route, watch);
            |o.pushed| <= 3 && PendWeight(Resumed(c, k, o).pend) < PendWeight(c.pend)
  {
    hide Handle, Received, Ready, PendWeight;
    ActionOf(c, k);
    TurnPushes(c.slot, c.pend[k].done.value, route, watch);
    var o := Handle(c.slot, c.pend[k].done.value, route, watch);
    var pend := Resumed(c, k, o).pend;
    if Sending(c) {
      SendingWeight(c.pend);
      assert forall i :: 0 <= i < |pend| ==> pend[i] == c.pend[if i < k then i else i + 1];
      SendingWeight(pend);
    } else {
      OneWeighs(c.pend);
      assert pend == Pushed(o.pushed, c.gen);
      SendingWeight(pend);
    }
  }

  lemma OneWeighs(pend: seq<Op>)
    requires |pend| == 1
    ensures PendWeight(pend) == WeightOf(pend[0]) && Without(pend, 0) == []
  {
    assert pend[..0] == [];
  }

  /** Each completion the handler takes makes the total weight smaller. */
  lemma HandlingLightens(w: World, e: Event, watch: bool)
    requires Inv(w) && Enabled(w, e) && CanHandle(w, e) && e.Process? && e.s != w.listen
    ensures var w' := Next(w, e, watch);
            |w'.cells| == |w.cells| && Weight(w'.cells, |w.cells|) < Weight(w.cells, |w.cells|)
  {
    hide Handle, Connected;
    Dispatch(w, e);
    assert CellOk(w, e.s);
    TurnLightens(w.cells[e.s], e.k, e.route, watch);
    WeightChange(Next(w, e, watch).cells, w.cells, e.s, |w.cells|);
  }

  lemma {:induction false} KindsWeigh(a: seq<Op>, b: seq<Op>)
    requires |a| == |b| && forall i :: 0 <= i < |a| ==> a[i].kind == b[i].kind
    ensures PendWeight(a) == PendWeight(b)
    decreases |a|
  {
    if |a| > 0 {
      KindsWeigh(a[..|a| - 1], b[..|b| - 1]);
    }
  }

  /** Nothing but the processing of completions changes the weight. */
  lemma OthersWeighNothing(w: World, e: Event, watch: bool)
    requires Inv(w) && Enabled(w, e) && CanHandle(w, e) && !e.Process?
    ensures var w' := Next(w, e, watch);
            |w'.cells| == |w.cells| && Weight(w'.cells, |w.cells|) == Weight(w.cells, |w.cells|)
  {
    hide Handle;
    var w' := Next(w, e, watch);
    if e.Complete? {
      KindsWeigh(w.cells[e.s].pend, w'.cells[e.s].pend);
      WeightChange(w'.cells, w.cells, e.s, |w.cells|);
    } else if |w.cells| > 0 {
      WeightChange(w'.cells, w.cells, 0, |w.cells|);
    }
  }

  /** How many completions events j to k - 1 process. */
  function Processed(events: seq<Event>, j: nat, k: nat): nat
    requires j <= k <= |events|
    decreases k
  {
    if j == k then 0 else Processed(events, j, k - 1) + if events[k - 1].Process? then 1 else 0
  }

  /** Quiescence: while no accept completes, at most as many completions can be processed as the total
      weighs; each makes it smaller. */
  lemma {:induction false} GoesIdle(worlds: seq<World>, events: seq<Event>, watch: bool, j: nat, k: nat)
    requires IsRun(worlds, events, watch) && j <= k <= |events|
    requires forall m :: j <= m < k && events[m].Process? ==> events[m].s != worlds[m].listen
    ensures Processed(events, j, k) + Weight(worlds[k].cells, |worlds[k].cells|) <= Weight(worlds[j].cells, |worlds[j].cells|)
    decreases k
  {
    hide Inv, Next, Enabled, CanHandle, Start;
    if j < k {
      GoesIdle(worlds, events, watch, j, k - 1);
      RunKeeps(worlds, events, watch, k - 1);
      assert Follows(worlds, events, watch, k - 1);
      if events[k - 1].Process? {
        HandlingLightens(worlds[k - 1], events[k - 1], watch);
      } else {
        OthersWeighNothing(worlds[k - 1], events[k - 1], watch);
      }
    }
  }

  // Submissions.

  /** What a step pushes: an accept and at most one receive, or what the handler's turn pushes. */
  ghost function Pushes(w: World, e: Event, watch: bool): nat
    requires Enabled(w, e) && CanHandle(w, e)
  {
    if !e.Process? then 0
    else if !w.cells[e.s].slot.action.Accept? then |TurnOf(w, e, watch).pushed|
    else
      var res := w.cells[e.s].pend[e.k].done.value;
      if res < 0 && res != -EAGAIN then 0
      else if res < 0 || res >= |w.cells| || (!w.cells[res].slot.prepared && !e.prepareOk) then 1
      else 2
  }

  ghost function PushesBetween(worlds: seq<World>, events: seq<Event>, watch: bool, j: nat, k: nat): nat
    requires IsRun(worlds, events, watch) && j <= k <= |events|
    decreases k
  {
    if j == k then 0 else
      assert Follows(worlds, events, watch, k - 1);
      PushesBetween(worlds, events, watch, j, k - 1) + Pushes(worlds[k - 1], events[k - 1], watch)
  }

  lemma PushesAtMostThree(w: World, e: Event, watch: bool)
    requires Inv(w) && Enabled(w, e) && CanHandle(w, e)
    ensures Pushes(w, e, watch) <= if e.Process? then 3 else 0
  {
    if e.Process? && !w.cells[e.s].slot.action.Accept? {
      Dispatch(w, e);
      assert CellOk(w, e.s);
      TurnLightens(w.cells[e.s], e.k, e.route, watch);
    }
  }

  /** A batch of c completions pushes at most 3c submissions. */
  lemma {:induction false} BatchPushes(worlds: seq<World>, events: seq<Event>, watch: bool, j: nat, k: nat)
    requires IsRun(worlds, events, watch) && j <= k <= |events|
    ensures PushesBetween(worlds, events, watch, j, k) <= 3 * Processed(events, j, k)
    decreases k
  {
    hide Inv, Next, Enabled, CanHandle, Start, Pushes;
    if j < k {
      BatchPushes(worlds, events, watch, j, k - 1);
      RunKeeps(worlds, events, watch, k - 1);
      assert Follows(worlds, events, watch, k - 1);
      PushesAtMostThree(worlds[k - 1], events[k - 1], watch);
    }
  }

  /** After every accept completion the process has exited or exactly one accept is in flight. */
  lemma OneAccept(w: World, e: Event, watch: bool)
    requires Inv(w) && Enabled(w, e) && CanHandle(w, e) && e.Process? && e.s == w.listen
    ensures var w' := Next(w, e, watch);
            && w'.listen == w.listen < |w'.cells|
            && (w'.exited <==> w.cells[e.s].pend[e.k].done.value < 0 && w.cells[e.s].pend[e.k].done.value != -11)
            && (!w'.exited ==>
                  |w'.cells[w.listen].pend| == 1 && w'.cells[w.listen].pend[0].kind.Accept?
                  && w'.cells[w.listen].pend[0].done == None)
  {
    hide Handle;
    Dispatch(w, e);
    assert Without(w.cells[e.s].pend, e.k) == [];
    var res := w.cells[e.s].pend[e.k].done.value;
    if 0 <= res {
      var fd: nat := res;
      assert w.cells[w.listen].pend[0].done == Some(fd);
    }
  }

  // Connections that are left behind.

  /** A connection with nothing in flight is not touched by any step, and no accept is given its
      descriptor. */
  lemma StuckStays(w: World, e: Event, watch: bool, s: nat)
    requires Inv(w) && Enabled(w, e) && CanHandle(w, e) && s in w.conns && s < |w.cells| && w.cells[s].pend == []
    ensures var w' := Next(w, e, watch);
            s in w'.conns && s < |w'.cells| && w'.cells[s] == w.cells[s]
    ensures e.Complete? && w.cells[e.s].pend[e.k].kind.Accept? ==> e.res != s
  {
    hide Handle;
    if e.Process? {
      Dispatch(w, e);
      assert CellOk(w, e.s);
    }
    assert CellOk(w, s);
  }

  lemma {:induction false} StaysStuck(worlds: seq<World>, events: seq<Event>, watch: bool, s: nat, j: nat, k: nat)
    requires IsRun(worlds, events, watch) && j <= k <= |events|
    requires s in worlds[j].conns && s < |worlds[j].cells| && worlds[j].cells[s].pend == []
    ensures s in worlds[k].conns && s < |worlds[k].cells| && worlds[k].cells[s] == worlds[j].cells[s]
    decreases k
  {
    hide Inv, Next, Enabled, CanHandle, Start;
    if j < k {
      StaysStuck(worlds, events, watch, s, j, k - 1);
      RunKeeps(worlds, events, watch, k - 1);
      assert Follows(worlds, events, watch, k - 1);
      StuckStays(worlds[k - 1], events[k - 1], watch, s);
    }
  }

  /** When event j of a run processes a receive that failed, the connection is open with nothing in
      flight at every later moment k, its slot as event j left it, and event k is no close of it and no
      accept that is given its descriptor. */
  lemma FailedForEver(worlds: seq<World>, events: seq<Event>, watch: bool, j: nat, k: nat)
    requires IsRun(worlds, events, watch) && j < k < |events| && events[j].Process? && Enabled(worlds[j], events[j])
    requires var op := worlds[j].cells[events[j].s].pend[events[j].k]; op.kind.Recv? && op.done.value < 0
    requires Enabled(worlds[k], events[k]) && CanHandle(worlds[k], events[k])
    ensures var s := events[j].s;
            && s in worlds[k].conns && s < |worlds[k].cells| && s < |worlds[j + 1].cells|
            && worlds[k].cells[s] == worlds[j + 1].cells[s] && worlds[k].cells[s].pend == []
            && !Closes(worlds[k], events[k], watch, s)
            && (events[k].Complete? && worlds[k].cells[events[k].s].pend[events[k].k].kind.Accept? ==> events[k].res != s)
  {
    hide Inv, Next, Enabled, CanHandle, Start, Closes;
    RunKeeps(worlds, events, watch, j);
    RunKeeps(worlds, events, watch, k);
    assert Follows(worlds, events, watch, j);
    var s := events[j].s;
    FailedIsIdle(worlds[j], events[j], watch);
    StaysStuck(worlds, events, watch, s, j + 1, k);
    StuckStays(worlds[k], events[k], watch, s);
    IdleIsOpen(worlds[k], events[k], watch, s);
  }

  lemma FailedIsIdle(w: World, e: Event, watch: bool)
    requires Inv(w) && Enabled(w, e) && CanHandle(w, e) && e.Process?
    requires w.cells[e.s].pend[e.k].kind.Recv? && w.cells[e.s].pend[e.k].done.value < 0
    ensures var w' := Next(w, e, watch); e.s in w'.conns && e.s < |w'.cells| && w'.cells[e.s].pend == []
  {
    hide Handle;
    Dispatch(w, e);
    LeftIdle(w, e, watch);
  }

  lemma IdleIsOpen(w: World, e: Event, watch: bool, s: nat)
    requires Inv(w) && Enabled(w, e) && CanHandle(w, e) && s < |w.cells| && w.cells[s].pend == []
    ensures !Closes(w, e, watch, s)
  {
    hide Handle;
  }

  /** The descriptor of a connection that cannot be prepared is closed by the loop. It was open only for
      that accept, belongs to no connection, and is not open afterwards; its slot stays as it was. */
  lemma UnpreparedClosed(w: World, e: Event, watch: bool)
    requires Inv(w) && Enabled(w, e) && CanHandle(w, e) && Unprepared(w, e)
    ensures var fd: nat, w' := w.cells[e.s].pend[e.k].done.value, Next(w, e, watch);
            && e.s == w.listen && fd !in w.conns && fd !in w.others && Accepted(w, fd)
            && fd < |w'.cells| && fd !in w'.conns && fd !in w'.others && !Accepted(w', fd) && w'.cells[fd] == w.cells[fd]
  {
    hide Handle;
    Dispatch(w, e);
    var fd: nat := w.cells[e.s].pend[e.k].done.value;
    assert w.cells[w.listen].pend[0].done == Some(fd);
    assert Without(w.cells[e.s].pend, e.k) == [];
    OneAccept(w, e, watch);
  }

  /** This step gives up an accepted connection that could not be prepared. */
  predicate Unprepared(w: World, e: Event)
  {
    && e.Process? && e.s < |w.cells| && e.k < |w.cells[e.s].pend| && w.cells[e.s].slot.action.Accept?
    && match w.cells[e.s].pend[e.k].done
       case None => false
       case Some(res) => 0 <= res < |w.cells| && !w.cells[res].slot.prepared && !e.prepareOk
  }
}
