/** The event loop on the heap: one batch of completions, each dispatched on its slot's current
    action. */
module IoLoop {
  import opened Wrappers
  import opened CStrings
  import opened IoSlots
  import opened IoHandler
  import R = HttpResponse

  /** A completion queue entry, with what the route and the allocator will answer. */
  datatype Cqe = Cqe(slot: nat, res: int, route: Route, prepareOk: bool)

  /** What happens while a batch is drained: the loop takes a completion, or the kernel stores received
      bytes into a slot's buffer. */
  datatype Item = Take(cqe: Cqe) | Arrive(slot: nat, data: seq<byte>)

  /** The slots, what was pushed and what was closed since the batch began, and whether the process has
      exited. */
  datatype Server = Server(slots: seq<Slot>, pushed: seq<Order>, closed: seq<nat>, exited: bool)

  /** What the loop relies on: the slot exists, a new connection's slot is another one than the
      listening one, and the handler finds what it needs. */
  ghost predicate ExpectedCqe(v: Server, listen: nat, c: Cqe) {
    && c.slot < |v.slots| && listen < |v.slots|
    && var s := v.slots[c.slot];
    && (s.action.Accept? ==> c.res < |v.slots| && c.res != listen)
    && (!s.action.Accept? ==> Ready(s, c.res) && Prints(s, c.res, c.route))
    && (s.action.Recv? ==> s.session.mask == 0 && s.session.path == None && s.session.protocol == None)
    && (s.action.Recv? ==> s.session.scratch.composed.Len() == s.session.scratch.len)
  }

  ghost predicate Expected(v: Server, listen: nat, item: Item) {
    match item
    case Take(c) => ExpectedCqe(v, listen, c)
    case Arrive(i, data) => i < |v.slots| && |data| <= |v.slots[i].buf|
  }

  function PushOn(v: Server, i: nat, action: Action): Server
    requires i < |v.slots|
  {
    v.(slots := v.slots[i := Push(v.slots[i], action)], pushed := v.pushed + [Order(i, action, NoArgs, false)])
  }

  /** What a turn of slot i's handler submits: its reply, alone or with the file linked behind it. */
  function Orders(i: nat, o: Outcome): seq<Order> {
    var content := o.slot.session.scratch.content;
    if o.pushed == [] then []
    else if o.pushed == [Send] then [Order(i, Send, Bytes(o.reply, false), false)]
    else [Order(i, Send, Bytes(o.reply, true), true),
          Order(i, Splice, Between(FileOf(FileFd(content)), PipeWrite, SpliceLen(content)), true),
          Order(i, Splice, Between(PipeRead, Socket(i), SpliceLen(content)), false)]
  }

  /** An accept that completed: an error ends the process unless it is EAGAIN, a connection that cannot
      be prepared is closed, another one receives; and then there is an accept again. */
  function OnAccept(v: Server, listen: nat, res: int, prepareOk: bool): (r: Server)
    requires listen < |v.slots| && res < |v.slots|
    ensures |r.slots| == |v.slots|
  {
    if res < 0 && res != -EAGAIN then v.(exited := true)
    else if res < 0 then PushOn(v, listen, Accept)
    else if !v.slots[res].prepared && !prepareOk then PushOn(v.(closed := v.closed + [res]), listen, Accept)
    else PushOn(PushOn(v.(slots := v.slots[res := v.slots[res].(prepared := true)]), res, Recv), listen, Accept)
  }

  /** One turn of the loop over the batch. */
  ghost function OnCqe(v: Server, listen: nat, c: Cqe, watch: bool): (r: Server)
    requires ExpectedCqe(v, listen, c)
    ensures |r.slots| == |v.slots|
  {
    var s := v.slots[c.slot];
    if s.action.Accept? then OnAccept(v, listen, c.res, c.prepareOk)
    else
      var o := Handle(s, c.res, c.route, watch);
      v.(slots := v.slots[c.slot := o.slot], pushed := v.pushed + Orders(c.slot, o),
         closed := if o.closed then v.closed + [c.slot] else v.closed)
  }

  ghost function OnItem(v: Server, listen: nat, item: Item, watch: bool): (r: Server)
    requires Expected(v, listen, item)
    ensures |r.slots| == |v.slots|
  {
    match item
    case Take(c) => OnCqe(v, listen, c, watch)
    case Arrive(i, data) => v.(slots := v.slots[i := v.slots[i].(buf := Filled(v.slots[i].buf, data))])
  }

  /** The batch up to its n-th item is as expected; nothing follows an exit. */
  ghost predicate AllExpected(v: Server, listen: nat, items: seq<Item>, n: nat, watch: bool)
    requires n <= |items|
    decreases n, 0
  {
    n == 0 ||
    (AllExpected(v, listen, items, n - 1, watch) &&
     var u := Drained(v, listen, items, n - 1, watch);
     u.exited || Expected(u, listen, items[n - 1]))
  }

  ghost function Drained(v: Server, listen: nat, items: seq<Item>, n: nat, watch: bool): (r: Server)
    requires n <= |items| && AllExpected(v, listen, items, n, watch)
    ensures |r.slots| == |v.slots|
    decreases n, 1
  {
    if n == 0 then v else
      var u := Drained(v, listen, items, n - 1, watch);
      if u.exited then u else OnItem(u, listen, items[n - 1], watch)
  }

  /** How many of the first n items are completions. */
  function Completions(items: seq<Item>, n: nat): nat
    requires n <= |items|
  {
    if n == 0 then 0 else Completions(items, n - 1) + if items[n - 1].Take? then 1 else 0
  }

  /** All of the objects belong to connection i, and so to no other one. */
  ghost predicate Owns(owner: map<object, nat>, objects: set<object>, i: nat) {
    forall o :: o in objects ==> o in owner && owner[o] == i
  }

  /** The kernel's stores of what was received. */
  method Fill(buf: array<byte>, data: seq<byte>)
    requires |data| <= buf.Length
    modifies buf
    ensures buf[..] == Filled(old(buf[..]), data)
  {
    forall k | 0 <= k < |data| {
      buf[k] := data[k];
    }
  }

  /** The submission queue holds the entries of what was pushed, in order, each with its slot's
      connection; a receive stores to that connection's buffer. */
  ghost predicate Entered(conns: seq<Connection>, sqes: seq<Sqe>, pushed: seq<Order>) {
    && |sqes| == |pushed|
    && forall k :: 0 <= k < |sqes| ==> Entry(conns, sqes[k], pushed[k])
  }

  ghost predicate Entry(conns: seq<Connection>, sqe: Sqe, o: Order) {
    && o.slot < |conns|
    && sqe == Sqe(o.action, conns[o.slot], if o.action.Recv? then conns[o.slot].buf else null, o.args, o.linked)
  }

  lemma EnteredMore(conns: seq<Connection>, sqes: seq<Sqe>, pushed: seq<Order>, more: seq<Sqe>, orders: seq<Order>)
    requires Entered(conns, sqes, pushed) && Entered(conns, more, orders)
    ensures Entered(conns, sqes + more, pushed + orders)
  {
    hide Entry;
  }

  lemma EnteredPush(conns: seq<Connection>, sqes: seq<Sqe>, pushed: seq<Order>, sqe: Sqe, o: Order)
    requires Entered(conns, sqes, pushed) && Entry(conns, sqe, o)
    ensures Entered(conns, sqes + [sqe], pushed + [o])
  {
    hide Entry;
  }

  class EventLoop {
    const conns: seq<Connection>
    const ring: Ring
    const listen: nat
    const grow: nat -> nat
    const junk: byte
    var closed: seq<nat>
    var exited: bool
    ghost var owner: map<object, nat>
    ghost var server: Server

    constructor (conns: seq<Connection>, ring: Ring, listen: nat, grow: nat -> nat, junk: byte,
                 ghost slots: seq<Slot>, ghost owner: map<object, nat>)
      requires listen < |conns| == |slots| && ring !in owner && ring.sqes == [] && R.Grows(grow)
      requires forall i :: 0 <= i < |conns| ==>
                 conns[i].Valid() && conns[i].fd == i && conns[i].View() == slots[i] && Owns(owner, conns[i].Repr(), i)
      ensures Valid() && this.conns == conns && this.ring == ring && this.listen == listen
      ensures this.owner == owner && server == Server(slots, [], [], false)
    {
      this.conns, this.ring, this.listen, this.owner := conns, ring, listen, owner;
      this.grow, this.junk := grow, junk;
      closed, exited := [], false;
      server := Server(slots, [], [], false);
    }

    ghost predicate Valid()
      reads this, ring, owner.Keys
    {
      && listen < |conns| == |server.slots| && ring !in owner && this !in owner && R.Grows(grow)
      && closed == server.closed && exited == server.exited && Entered(conns, ring.sqes, server.pushed)
      && (forall i :: 0 <= i < |conns| ==> Mirrors(i))
    }

    /** The i-th connection is what the i-th slot says. */
    ghost predicate Mirrors(i: nat)
      requires i < |conns| == |server.slots|
      reads this, owner.Keys
    {
      var c := conns[i];
      && c in owner && c.final in owner && Owns(owner, c.Repr(), i)
      && c.Valid() && c.fd == i && c.View() == server.slots[i]
    }

    method AcceptAgain()
      requires Valid() && !exited
      modifies ring, owner.Keys, this`server
      ensures Valid() && server == old(PushOn(server, listen, Accept))
      ensures ring.sqes == old(ring.sqes) + [Sqe(Accept, conns[listen], null, NoArgs, false)]
    {
      hide R.Grows, Entered, Owns;
      var c := conns[listen];
      assert Mirrors(listen);
      EnteredPush(conns, ring.sqes, server.pushed, Sqe(Accept, c, null, NoArgs, false), Order(listen, Accept, NoArgs, false));
      PushAccept(ring, c);
      server := PushOn(server, listen, Accept);
      forall j | 0 <= j < |conns|
        ensures Mirrors(j)
      {
        assert old(Mirrors(j));
      }
    }

    /** __prepare_connection, if it is the slot's first. */
    method Prepare(i: nat)
      requires Valid() && i < |conns|
      modifies owner.Keys, this`server
      ensures Valid() && server == old(server.(slots := server.slots[i := server.slots[i].(prepared := true)]))
    {
      hide R.Grows, Entered, Owns;
      assert Mirrors(i);
      conns[i].prepared := true;
      server := server.(slots := server.slots[i := server.slots[i].(prepared := true)]);
      forall j | 0 <= j < |conns|
        ensures Mirrors(j)
      {
        assert old(Mirrors(j));
      }
    }

    /** A slot that has a connection of its own now waits for its first bytes. */
    method Receive(i: nat)
      requires Valid() && !exited && i < |conns|
      modifies ring, owner.Keys, this`server
      ensures Valid() && server == old(PushOn(server, i, Recv))
      ensures ring.sqes == old(ring.sqes) + [Sqe(Recv, conns[i], conns[i].buf, NoArgs, false)]
    {
      hide R.Grows, Entered, Owns;
      var c := conns[i];
      assert Mirrors(i);
      EnteredPush(conns, ring.sqes, server.pushed, Sqe(Recv, c, c.buf, NoArgs, false), Order(i, Recv, NoArgs, false));
      PushRecv(ring, c);
      server := PushOn(server, i, Recv);
      forall j | 0 <= j < |conns|
        ensures Mirrors(j)
      {
        assert old(Mirrors(j));
      }
    }

    /** The end of the process. */
    method Exit()
      requires Valid()
      modifies this
      ensures Valid() && server == old(server).(exited := true) && owner == old(owner)
    {
      exited := true;
      server := server.(exited := true);
      forall j | 0 <= j < |conns|
        ensures Mirrors(j)
      {
        assert old(Mirrors(j));
      }
    }

    /** close of a descriptor that is no connection's. */
    method Close(fd: nat)
      requires Valid()
      modifies this
      ensures Valid() && server == old(server).(closed := old(server).closed + [fd]) && owner == old(owner)
    {
      closed := closed + [fd];
      server := server.(closed := server.closed + [fd]);
      forall j | 0 <= j < |conns|
        ensures Mirrors(j)
      {
        assert old(Mirrors(j));
      }
    }

    /** A completion on a slot whose action is accept. */
    method Accepted(res: int, prepareOk: bool)
      requires Valid() && !exited && res < |conns| && res != listen
      modifies this, ring, owner.Keys
      ensures Valid() && server == old(OnAccept(server, listen, res, prepareOk)) && owner == old(owner)
    {
      if res < 0 {
        if res == -EAGAIN {
          AcceptAgain();
          return;
        }
        Exit();
        return;
      }
      var conn := conns[res];
      assert Mirrors(res);
      if !conn.prepared && !prepareOk {
        Close(res);
        AcceptAgain();
        return;
      }
      Prepare(res);
      Receive(res);
      AcceptAgain();
    }

    /** The loop between a turn of connection i and the record of it: the other connections are still
        what their slots say. */
    ghost predicate Turned(i: nat, orders: seq<Order>)
      reads this, ring, owner.Keys, if i < |conns| then {conns[i].final} + conns[i].Repr() else {}
    {
      && i < |conns| == |server.slots| && listen < |conns| && ring !in owner && this !in owner && R.Grows(grow)
      && closed == server.closed && exited == server.exited && !exited
      && Entered(conns, ring.sqes, server.pushed + orders)
      && (forall j :: 0 <= j < |conns| && j != i ==> Mirrors(j))
      && var c := conns[i];
      && c in owner && c.final in owner && c.Valid() && c.fd == i
      && Owns(owner[c.final.buf := i], c.Repr(), i) && (c.final.buf in owner ==> owner[c.final.buf] == i)
    }

    /** The handler's turn of one connection. */
    method TurnOf(c: Cqe, watch: bool) returns (isClosed: bool, ghost orders: seq<Order>)
      requires Valid() && !exited && ExpectedCqe(server, listen, c) && !server.slots[c.slot].action.Accept?
      modifies ring, conns[c.slot].Repr()
      ensures Turned(c.slot, orders) && fresh(conns[c.slot].Repr() - old(conns[c.slot].Repr()))
      ensures var o := Handle(server.slots[c.slot], c.res, c.route, watch);
              conns[c.slot].View() == o.slot && isClosed == o.closed && orders == Orders(c.slot, o)
    {
      hide Handle, Ready, Prints, R.Grows, Connection.Valid, Connection.View;
      var conn := conns[c.slot];
      assert Mirrors(c.slot);
      ConnectionThere(conn, server.slots[c.slot]);
      ghost var before := ring.sqes;
      ghost var pushed: seq<Action>;
      var reply;
      isClosed, pushed, reply := HandleTurn(conn, ring, c.res, c.route, watch, grow, junk);
      orders := Orders(c.slot, Outcome(conn.View(), pushed, reply, isClosed));
      ConnectionThere(conn, conn.View());
      TurnEntered(conns, conn, before, server.pushed, ring.sqes, c.slot, Outcome(conn.View(), pushed, reply, isClosed));
      forall j | 0 <= j < |conns| && j != c.slot
        ensures Mirrors(j)
      {
        assert old(Mirrors(j));
      }
    }

    /** The record of a turn of connection i. */
    method Record(i: nat, isClosed: bool, ghost orders: seq<Order>)
      requires Turned(i, orders)
      modifies this
      ensures Valid() && owner == old(owner)[conns[i].final.buf := i]
      ensures var v := old(server);
              server == Server(v.slots[i := conns[i].View()], v.pushed + orders,
                               if isClosed then v.closed + [i] else v.closed, false)
    {
      hide R.Grows, Connection.Valid, Connection.View, Entered;
      if isClosed {
        closed := closed + [i];
      }
      server := Server(server.slots[i := conns[i].View()], server.pushed + orders, closed, false);
      owner := owner[conns[i].final.buf := i];
      forall j | 0 <= j < |conns|
        ensures Mirrors(j)
      {
        if j != i {
          assert old(Mirrors(j));
        }
      }
    }

    /** co_resume_value of a slot's coroutine. */
    method Resume(c: Cqe, watch: bool)
      requires Valid() && !exited && ExpectedCqe(server, listen, c) && !server.slots[c.slot].action.Accept?
      modifies this, ring, owner.Keys
      ensures Valid() && server == old(OnCqe(server, listen, c, watch)) && fresh(owner.Keys - old(owner.Keys))
    {
      hide Handle, Ready, Prints, R.Grows, Turned, Connection.Valid, Connection.View;
      assert Mirrors(c.slot);
      var isClosed, orders := TurnOf(c, watch);
      Record(c.slot, isClosed, orders);
    }

    /** Bytes that the kernel stores into a slot's buffer. */
    method Arrival(i: nat, data: seq<byte>)
      requires Valid() && i < |conns| && |data| <= |server.slots[i].buf|
      modifies this`server, owner.Keys
      ensures Valid() && server == old(OnItem(server, listen, Arrive(i, data), false))
    {
      hide R.Grows, Entered;
      var c := conns[i];
      assert Mirrors(i);
      Fill(c.buf, data);
      server := OnItem(server, listen, Arrive(i, data), false);
      forall j | 0 <= j < |conns|
        ensures Mirrors(j)
      {
        assert old(Mirrors(j));
      }
    }

    /** The body of the batch loop. */
    method OnCompletion(c: Cqe, watch: bool)
      requires Valid() && !exited && ExpectedCqe(server, listen, c)
      modifies this, ring, owner.Keys
      ensures Valid() && server == old(OnCqe(server, listen, c, watch)) && fresh(owner.Keys - old(owner.Keys))
    {
      assert Mirrors(c.slot);
      if conns[c.slot].action.Accept? {
        Accepted(c.res, c.prepareOk);
      } else {
        Resume(c, watch);
      }
    }

    /** io_uring_for_each_cqe over one batch, with what the kernel stores between two turns. count is what
        the completion queue is advanced by, unless the process exits first. */
    method DrainBatch(items: seq<Item>, watch: bool) returns (count: nat)
      requires Valid() && !exited && AllExpected(server, listen, items, |items|, watch)
      modifies this, ring, owner.Keys
      ensures Valid() && server == old(Drained(server, listen, items, |items|, watch))
      ensures fresh(owner.Keys - old(owner.Keys))
      ensures |ring.sqes| == |server.pushed|
      ensures forall k :: 0 <= k < |ring.sqes| ==>
                var o := server.pushed[k];
                && o.slot < |conns|
                && ring.sqes[k] == Sqe(o.action, conns[o.slot], if o.action.Recv? then conns[o.slot].buf else null, o.args, o.linked)
      ensures !exited ==> count == Completions(items, |items|)
    {
      hide Mirrors, R.Grows, Entered, Entry, Handle, ExpectedCqe, Completions;
      ghost var start := server;
      var n := 0;
      count := 0;
      NoCompletions(items);
      while n < |items| && !exited
        invariant 0 <= n <= |items| && Valid() && fresh(owner.Keys - old(owner.Keys))
        invariant AllExpected(start, listen, items, n, watch)
        invariant server == Drained(start, listen, items, n, watch)
        invariant !exited ==> count == Completions(items, n)
      {
        AllExpectedBefore(start, listen, items, n + 1, |items|, watch);
        OneMore(items, n);
        match items[n] {
          case Take(c) =>
            count := count + 1;
            OnCompletion(c, watch);
          case Arrive(i, data) =>
            Arrival(i, data);
        }
        n := n + 1;
      }
      if exited {
        DrainedStays(start, listen, items, n, |items|, watch);
      }
      EntriesAre(conns, ring.sqes, server.pushed);
    }
  }

  lemma NoCompletions(items: seq<Item>)
    ensures Completions(items, 0) == 0
  {
  }

  lemma OneMore(items: seq<Item>, n: nat)
    requires n < |items|
    ensures Completions(items, n + 1) == Completions(items, n) + if items[n].Take? then 1 else 0
  {
  }

  lemma EntriesAre(conns: seq<Connection>, sqes: seq<Sqe>, pushed: seq<Order>)
    requires Entered(conns, sqes, pushed)
    ensures |sqes| == |pushed|
    ensures forall k :: 0 <= k < |sqes| ==>
              var o := pushed[k];
              && o.slot < |conns|
              && sqes[k] == Sqe(o.action, conns[o.slot], if o.action.Recv? then conns[o.slot].buf else null, o.args, o.linked)
  {
  }

  /** The entries of a turn of slot i's handler are those of its orders. */
  lemma TurnEntered(conns: seq<Connection>, c: Connection, before: seq<Sqe>, pushed: seq<Order>, after: seq<Sqe>,
                    i: nat, o: Outcome)
    requires i < |conns| && conns[i] == c && c.fd == i && Entered(conns, before, pushed)
    requires o.pushed == [] || o.pushed == [Send] || o.pushed == [Send, Splice, Splice]
    requires var content := o.slot.session.scratch.content;
             var file := if content.FileFd? then content.fd else 0;
             var len := if content.Str? then 0 else content.Length() % 0x1_0000_0000;
             after == before +
               (if o.pushed == [] then []
                else if o.pushed == [Send] then [Sqe(Send, c, null, Bytes(o.reply, false), false)]
                else [Sqe(Send, c, null, Bytes(o.reply, true), true),
                      Sqe(Splice, c, null, Between(FileOf(file), PipeWrite, len), true),
                      Sqe(Splice, c, null, Between(PipeRead, Socket(c.fd), len), false)])
    ensures Entered(conns, after, pushed + Orders(i, o))
  {
    EnteredMore(conns, before, pushed, after[|before|..], Orders(i, o));
  }

  lemma ConnectionThere(c: Connection, s: Slot)
    requires c.Valid() && c.View() == s
    ensures c.action == s.action && c.content == s.session.scratch.content
    ensures c.req.mask == s.session.mask && c.req.path == s.session.path && c.req.protocol == s.session.protocol
    ensures s.session.scratch.composed.Len() == s.session.scratch.len ==> c.final.Exact()
  {
    R.ExactLen(c.final);
  }

  lemma {:induction false} AllExpectedBefore(v: Server, listen: nat, items: seq<Item>, m: nat, n: nat, watch: bool)
    requires m <= n <= |items| && AllExpected(v, listen, items, n, watch)
    ensures AllExpected(v, listen, items, m, watch)
    decreases n
  {
    if m < n {
      AllExpectedBefore(v, listen, items, m, n - 1, watch);
    }
  }

  /** After the exit nothing is done. */
  lemma {:induction false} DrainedStays(v: Server, listen: nat, items: seq<Item>, m: nat, n: nat, watch: bool)
    requires m <= n <= |items| && AllExpected(v, listen, items, n, watch) && AllExpected(v, listen, items, m, watch)
    requires Drained(v, listen, items, m, watch).exited
    ensures Drained(v, listen, items, n, watch) == Drained(v, listen, items, m, watch)
    decreases n
  {
    if m < n {
      AllExpectedBefore(v, listen, items, n - 1, n, watch);
      DrainedStays(v, listen, items, m, n - 1, watch);
    }
  }
}
