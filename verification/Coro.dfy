/** The context switch of the coroutines: registers and fourteen-word contexts in memory. */
module Coro {
  const STACK_SZ: int := 0x8000
  const CONTEXT_SZ: int := 112

  /** Where the fields of struct coroutine lie. */
  const CALLER: int := 112
  const STACK: int := 248

  datatype Regs = Regs(rbx: int, rbp: int, r12: int, r13: int, r14: int, r15: int,
                       rdi: int, rsi: int, rdx: int, rcx: int, r8: int, r9: int, r10: int, rsp: int, rip: int)

  type Mem = map<int, int>

  function Read(mem: Mem, a: int): int {
    if a in mem then mem[a] else 0
  }

  /** What a party must find again when it gets control back. */
  datatype Frame = Frame(rbx: int, rbp: int, r12: int, r13: int, r14: int, r15: int, rsp: int, rip: int)

  /** The frame in a context. */
  function Load(mem: Mem, c: int): Frame {
    Frame(Read(mem, c), Read(mem, c + 8), Read(mem, c + 16), Read(mem, c + 24), Read(mem, c + 32), Read(mem, c + 40),
          Read(mem, c + 104), Read(mem, c + 96))
  }

  /** The frame of the running party, seen from inside a function it has called: it goes on at its
      return address with that popped. */
  function Current(r: Regs, mem: Mem): Frame {
    Frame(r.rbx, r.rbp, r.r12, r.r13, r.r14, r.r15, r.rsp + 8, Read(mem, r.rsp))
  }

  /** What the processor holds of a frame once it runs. */
  function Running(r: Regs): Frame {
    Frame(r.rbx, r.rbp, r.r12, r.r13, r.r14, r.r15, r.rsp, r.rip)
  }

  function Store(r: Regs, mem: Mem, c: int): Mem {
    mem[c := r.rbx][c + 8 := r.rbp][c + 16 := r.r12][c + 24 := r.r13][c + 32 := r.r14][c + 40 := r.r15]
       [c + 48 := r.rdi][c + 56 := r.rsi][c + 64 := r.rdx][c + 72 := r.rcx][c + 80 := r.r8][c + 88 := r.r9]
       [c + 96 := Read(mem, r.rsp)][c + 104 := r.rsp + 8]
  }

  /** The registers of a context: its slots hold rbx, rbp, r12 to r15, rdi, rsi, rdx, rcx, r8, r9, rip
      and rsp. r10 takes the address that is jumped to. */
  function Restore(mem: Mem, c: int): Regs {
    Regs(Read(mem, c), Read(mem, c + 8), Read(mem, c + 16), Read(mem, c + 24), Read(mem, c + 32), Read(mem, c + 40),
         Read(mem, c + 48), Read(mem, c + 56), Read(mem, c + 64), Read(mem, c + 72), Read(mem, c + 80), Read(mem, c + 88),
         Read(mem, c + 96), Read(mem, c + 104), Read(mem, c + 96))
  }

  /** The context does not overlap the stack slot with the return address. */
  predicate Off(c: int, a: int) { a + 8 <= c || c + CONTEXT_SZ <= a }

  predicate Apart(c: int, d: int) { c + CONTEXT_SZ <= d || d + CONTEXT_SZ <= c }

  class Machine {
    var r: Regs
    var mem: Mem

    /** The first half of swap_context: the old context is stored. */
    method StoreContext()
      requires Off(r.rdi, r.rsp)
      modifies this
      ensures mem == Store(old(r), old(mem), r.rdi)
      ensures r.rdi == old(r.rdi) && r.rsi == old(r.rsi)
    {
      hide Read;
      var c := r.rdi;
      mem := Put(mem, c, r.rbx, r.rsp);
      mem := Put(mem, c + 8, r.rbp, r.rsp);
      mem := Put(mem, c + 16, r.r12, r.rsp);
      mem := Put(mem, c + 24, r.r13, r.rsp);
      mem := Put(mem, c + 32, r.r14, r.rsp);
      mem := Put(mem, c + 40, r.r15, r.rsp);
      mem := Put(mem, c + 48, r.rdi, r.rsp);
      mem := Put(mem, c + 56, r.rsi, r.rsp);
      mem := Put(mem, c + 64, r.rdx, r.rsp);
      mem := Put(mem, c + 72, r.rcx, r.rsp);
      mem := Put(mem, c + 80, r.r8, r.rsp);
      mem := Put(mem, c + 88, r.r9, r.rsp);
      r := r.(rcx := Read(mem, r.rsp));
      mem := Put(mem, c + 96, r.rcx, r.rsp);
      r := r.(rcx := r.rsp + 8);
      mem := Put(mem, c + 104, r.rcx, r.rsp);
    }

    /** The second half: the new one is loaded and jumped to. */
    method RestoreContext()
      modifies this
      ensures mem == old(mem) && r == Restore(mem, old(r.rsi))
    {
      hide Read;
      r := r.(rsp := Read(mem, r.rsi + 104));
      r := r.(rbx := Read(mem, r.rsi));
      r := r.(rbp := Read(mem, r.rsi + 8));
      r := r.(r12 := Read(mem, r.rsi + 16));
      r := r.(r13 := Read(mem, r.rsi + 24));
      r := r.(r14 := Read(mem, r.rsi + 32));
      r := r.(r15 := Read(mem, r.rsi + 40));
      r := r.(rdi := Read(mem, r.rsi + 48));
      r := r.(rdx := Read(mem, r.rsi + 64));
      r := r.(rcx := Read(mem, r.rsi + 72));
      r := r.(r8 := Read(mem, r.rsi + 80));
      r := r.(r9 := Read(mem, r.rsi + 88));
      r := r.(r10 := Read(mem, r.rsi + 96));
      r := r.(rsi := Read(mem, r.rsi + 56));
      r := r.(rip := r.r10);
    }

    /** swap_context, instruction by instruction. */
    method SwapContext()
      requires Off(r.rdi, r.rsp)
      modifies this
      ensures mem == Store(old(r), old(mem), old(r.rdi))
      ensures r == Restore(mem, old(r.rsi))
    {
      StoreContext();
      RestoreContext();
    }
  }

  /** A store, which leaves the word at keep alone. */
  function Put(mem: Mem, a: int, v: int, keep: int): (r: Mem)
    requires a != keep
    ensures r == mem[a := v] && Read(r, keep) == Read(mem, keep)
  {
    mem[a := v]
  }

  datatype Status = Created | Started | Stopped

  /** struct coroutine without its contexts and its stack, which lie in the machine's memory from
      address on. */
  class Coroutine {
    const address: int
    var yielded: int
    var status: Status
    var padding: int

    constructor (address: int)
      ensures this.address == address && yielded == 0 && status == Created && padding == 0
    {
      this.address := address;
      yielded, status, padding := 0, Created, 0;
    }
  }

  /** The start of the stack pointer: the top of the stack rounded down to sixteen, less eight. */
  function StackTop(address: int): int {
    var top := address + STACK + STACK_SZ;
    top - top % 16 - 8
  }

  /** memset of the whole coroutine: what is not stored reads as zero. */
  function Cleared(mem: Mem, address: int): Mem {
    map a | a in mem && !(address <= a < address + STACK + STACK_SZ) :: mem[a]
  }

  /** The memory co_new prepares: zeros but for five words of the context. */
  function Fresh(mem: Mem, address: int, entry: int, func: int, data: int): Mem {
    Cleared(mem, address)[address + 48 := address][address + 56 := func][address + 64 := data]
      [address + 96 := entry][address + 104 := StackTop(address)]
  }

  /** co_new, where the allocator's answer is an address or none. */
  method CoNew(m: Machine, allocation: int, allocOk: bool, entry: int, func: int, data: int) returns (co: Coroutine?)
    modifies m
    ensures allocOk <==> co != null
    ensures m.r == old(m.r)
    ensures co == null ==> m.mem == old(m.mem)
    ensures co != null ==>
              && fresh(co) && co.address == allocation && co.status == Created && co.padding == 0 == co.yielded
              && m.mem == Fresh(old(m.mem), allocation, entry, func, data)
  {
    if !allocOk {
      return null;
    }
    co := new Coroutine(allocation);
    var mem := Cleared(m.mem, allocation);
    mem := mem[allocation + 48 := allocation];
    mem := mem[allocation + 56 := func];
    mem := mem[allocation + 64 := data];
    mem := mem[allocation + 96 := entry];
    var rsp := allocation + STACK + STACK_SZ;
    mem := mem[allocation + 104 := rsp - rsp % 16 - 8];
    m.mem := mem;
  }

  /** Where the registers lie in a stored context, and which are read back from where. */
  lemma ContextSlots(r: Regs, mem: Mem, c: int)
    ensures var m := Store(r, mem, c);
            && Read(m, c) == r.rbx && Read(m, c + 8) == r.rbp && Read(m, c + 16) == r.r12 && Read(m, c + 24) == r.r13
            && Read(m, c + 32) == r.r14 && Read(m, c + 40) == r.r15 && Read(m, c + 48) == r.rdi && Read(m, c + 56) == r.rsi
            && Read(m, c + 64) == r.rdx && Read(m, c + 72) == r.rcx && Read(m, c + 80) == r.r8 && Read(m, c + 88) == r.r9
            && Read(m, c + 96) == Read(mem, r.rsp) && Read(m, c + 104) == r.rsp + 8
    ensures forall a :: !(c <= a < c + 112) ==> Read(Store(r, mem, c), a) == Read(mem, a)
    ensures var q := Restore(mem, c);
            && q.rbx == Read(mem, c) && q.rbp == Read(mem, c + 8) && q.r12 == Read(mem, c + 16) && q.r13 == Read(mem, c + 24)
            && q.r14 == Read(mem, c + 32) && q.r15 == Read(mem, c + 40) && q.rdi == Read(mem, c + 48)
            && q.rsi == Read(mem, c + 56) && q.rdx == Read(mem, c + 64) && q.rcx == Read(mem, c + 72)
            && q.r8 == Read(mem, c + 80) && q.r9 == Read(mem, c + 88) && q.rip == Read(mem, c + 96) && q.rsp == Read(mem, c + 104)
  {
  }

  /** The first resume of a coroutine enters at entry_point with the coroutine, its function and its
      data as arguments and its other registers zero. The stack pointer is eight below the last multiple
      of sixteen that is not above the end of the stack, and the stack below it, like everything but the
      five words of the context, is zero. */
  lemma FirstResume(mem: Mem, address: int, entry: int, func: int, data: int)
    ensures var r := Restore(Fresh(mem, address, entry, func, data), address);
            && r.rip == entry && r.rdi == address && r.rsi == func && r.rdx == data
            && r.rsp % 16 == 8 && r.rsp + 8 <= address + 248 + 0x8000 < r.rsp + 24
            && r.rbx == r.rbp == r.r12 == r.r13 == r.r14 == r.r15 == r.rcx == r.r8 == r.r9 == 0
    ensures forall a :: address <= a < address + 248 + 0x8000 ==>
              a in {address + 48, address + 56, address + 64, address + 96, address + 104} ||
              Read(Fresh(mem, address, entry, func, data), a) == 0
    ensures forall a :: !(address <= a < address + 248 + 0x8000) ==>
              Read(Fresh(mem, address, entry, func, data), a) == Read(mem, a)
  {
    var top := address + 248 + 0x8000;
    assert (top - top % 16) % 16 == 0;
  }

  /** co_yield: up to the moment control is gone, or false for the exit on an overflown stack. The
      return address of the call of swap_context is on top of the stack. */
  method CoYield(m: Machine, co: Coroutine, value: int) returns (ok: bool)
    requires Off(co.address, m.r.rsp)
    modifies m, co
    ensures ok <==> old(co.padding) == 0
    ensures co.padding == old(co.padding) && co.status == old(co.status)
    ensures !ok ==> co.yielded == old(co.yielded) && m.r == old(m.r) && m.mem == old(m.mem)
    ensures ok ==>
              && co.yielded == value
              && m.mem == Store(Call(old(m.r), co.address, co.address + 112), old(m.mem), co.address)
              && m.r == Restore(m.mem, co.address + 112)
  {
    hide Read, Store, Restore;
    if co.padding != 0 {
      return false;
    }
    co.yielded := value;
    m.r := Call(m.r, co.address, co.address + CALLER);
    m.SwapContext();
    return true;
  }

  /** co_resume_value, likewise; co_resume is the same without the value. */
  method CoResume(m: Machine, co: Coroutine, value: int, pass: bool) returns (ok: bool)
    requires Off(co.address + CALLER, m.r.rsp)
    modifies m, co
    ensures ok <==> old(co.padding) == 0
    ensures co.padding == old(co.padding) && co.status == old(co.status)
    ensures !ok ==> co.yielded == old(co.yielded) && m.r == old(m.r) && m.mem == old(m.mem)
    ensures ok ==>
              && co.yielded == (if pass then value else old(co.yielded))
              && m.mem == Store(Call(old(m.r), co.address + 112, co.address), old(m.mem), co.address + 112)
              && m.r == Restore(m.mem, co.address)
  {
    hide Read, Store, Restore;
    if co.padding != 0 {
      return false;
    }
    if pass {
      co.yielded := value;
    }
    m.r := Call(m.r, co.address + CALLER, co.address);
    m.SwapContext();
    return true;
  }

  /** entry_point up to the call of the coroutine's function. */
  method EntryPoint(co: Coroutine)
    modifies co`status
    ensures co.status == Started
  {
    co.status := Started;
  }

  /** entry_point once that function has returned: the coroutine has stopped, and its resumer is told
      so by -1. */
  method EntryReturns(m: Machine, co: Coroutine) returns (ok: bool)
    requires Off(co.address, m.r.rsp)
    modifies m, co
    ensures co.status == Stopped && (ok <==> old(co.padding) == 0)
    ensures ok ==> co.yielded == -1 && m.r == Restore(m.mem, co.address + CALLER)
    ensures ok ==> m.mem == Store(Call(old(m.r), co.address, co.address + CALLER), old(m.mem), co.address)
  {
    co.status := Stopped;
    ok := CoYield(m, co, -1);
  }

  /** The registers at a call of swap_context. */
  function Call(r: Regs, from: int, to: int): Regs {
    r.(rdi := from, rsi := to)
  }
}

/** Any number of coroutines that resume each other and yield, in any order. */
module CoroRuns {
  import opened Wrappers
  import opened Coro

  datatype Party = Thread | Co(i: nat)

  /** The machine, where each coroutine lies, and which are active: the thread resumed the first, that
      one the second, and so on; the last one runs. */
  datatype World = World(regs: Regs, mem: Mem, at: seq<int>, active: seq<nat>) {
    function Runner(): Party {
      if |active| == 0 then Thread else Co(active[|active| - 1])
    }

    /** Who waits for the k-th active coroutine to yield. */
    function Resumer(k: nat): Party
      requires k < |active|
    {
      if k == 0 then Thread else Co(active[k - 1])
    }
  }

  /** Between two switches the running party does what it likes with its registers and with memory,
      but for the contexts. pass is co_resume_value's value, none for co_resume. */
  datatype Event = Work(regs: Regs, mem: Mem) | Resume(i: nat, pass: Option<int>) | Yield(value: int)

  /** All fourteen words of the context at c are the same. */
  predicate SameContext(mem: Mem, mem': Mem, c: int) {
    Restore(mem, c) == Restore(mem', c)
  }

  ghost predicate KeepsContexts(w: World, mem: Mem) {
    forall i :: 0 <= i < |w.at| ==> SameContext(mem, w.mem, w.at[i]) && SameContext(mem, w.mem, w.at[i] + CALLER)
  }

  ghost predicate WellPlaced(at: seq<int>) {
    forall i, j :: 0 <= i < j < |at| ==> at[i] + 2 * CONTEXT_SZ <= at[j] || at[j] + 2 * CONTEXT_SZ <= at[i]
  }

  predicate Distinct(active: seq<nat>) {
    forall j, k :: 0 <= j < k < |active| ==> active[j] != active[k]
  }

  ghost predicate WellFormed(w: World) {
    WellPlaced(w.at) && Distinct(w.active) && forall k :: 0 <= k < |w.active| ==> w.active[k] < |w.at|
  }

  /** Only a suspended coroutine is resumed, only a coroutine yields, and the return address on the
      stack lies in no context. */
  ghost predicate Enabled(w: World, e: Event) {
    match e
    case Work(regs, mem) => KeepsContexts(w, mem)
    case Resume(i, _) => i < |w.at| && i !in w.active && StackOff(w)
    case Yield(_) => |w.active| > 0 && StackOff(w)
  }

  ghost predicate StackOff(w: World) {
    forall i :: 0 <= i < |w.at| ==> Off(w.at[i], w.regs.rsp) && Off(w.at[i] + CALLER, w.regs.rsp)
  }

  predicate CanStep(w: World, e: Event) {
    && (e.Resume? ==> e.i < |w.at|)
    && (e.Yield? ==> |w.active| > 0 && w.active[|w.active| - 1] < |w.at|)
  }

  /** swap_context(from, to) */
  function Swap(w: World, from: int, to: int, active: seq<nat>): World {
    var mem := Store(Call(w.regs, from, to), w.mem, from);
    World(Restore(mem, to), mem, w.at, active)
  }

  function Step(w: World, e: Event): World
    requires CanStep(w, e)
  {
    match e
    case Work(regs, mem) => World(regs, mem, w.at, w.active)
    case Resume(i, _) => Swap(w, w.at[i] + CALLER, w.at[i], w.active + [i])
    case Yield(_) =>
      var last := |w.active| - 1;
      Swap(w, w.at[w.active[last]], w.at[w.active[last]] + CALLER, w.active[..last])
  }

  /** The machine the coroutines should seem to run on: each party has registers of its own, and giving
      up control does not touch them. */
  datatype Private = Private(frames: map<Party, Frame>, active: seq<nat>)

  /** Coroutine i, which is suspended, will find in its context what it parked. */
  ghost predicate Suspended(w: World, frames: map<Party, Frame>, i: nat)
    requires i < |w.at|
  {
    Co(i) in frames && Load(w.mem, w.at[i]) == frames[Co(i)]
  }

  /** Who resumed the k-th active coroutine will find in that one's caller context what it parked. */
  ghost predicate Waiting(w: World, frames: map<Party, Frame>, k: nat)
    requires k < |w.active|
  {
    && w.active[k] < |w.at| && w.Resumer(k) in frames
    && Load(w.mem, w.at[w.active[k]] + CALLER) == frames[w.Resumer(k)]
  }

  /** What the parties that do not run should find again is where the machine will look for it. */
  ghost predicate Agrees(w: World, p: Private) {
    && p.active == w.active
    && (forall i :: 0 <= i < |w.at| && i !in w.active ==> Suspended(w, p.frames, i))
    && (forall k :: 0 <= k < |w.active| ==> Waiting(w, p.frames, k))
  }

  /** The private machine's step: the running party parks the frame it has, and the other goes on. */
  function PrivateStep(w: World, p: Private, e: Event): Private
    requires e.Yield? ==> |p.active| > 0
    requires p.active == w.active
  {
    match e
    case Work(_, _) => p
    case Resume(i, _) => Private(p.frames[w.Runner() := Current(w.regs, w.mem)], p.active + [i])
    case Yield(_) => Private(p.frames[w.Runner() := Current(w.regs, w.mem)], p.active[..|p.active| - 1])
  }

  /** What a store leaves in its own context and in others. */
  lemma StoreLoads(r: Regs, mem: Mem, from: int, other: int)
    ensures Load(Store(r, mem, from), from) == Current(r, mem)
    ensures Apart(from, other) ==> Load(Store(r, mem, from), other) == Load(mem, other)
  {
    hide Store, Read;
    StoreHolds(r, mem, from);
    if Apart(from, other) {
      StoreSpares(r, mem, from, other);
      StoreSpares(r, mem, from, other + 8);
      StoreSpares(r, mem, from, other + 16);
      StoreSpares(r, mem, from, other + 24);
      StoreSpares(r, mem, from, other + 32);
      StoreSpares(r, mem, from, other + 40);
      StoreSpares(r, mem, from, other + 96);
      StoreSpares(r, mem, from, other + 104);
    }
  }

  lemma StoreHolds(r: Regs, mem: Mem, c: int)
    ensures Load(Store(r, mem, c), c) == Current(r, mem)
  {
  }

  lemma StoreSpares(r: Regs, mem: Mem, c: int, a: int)
    requires Off(c, a)
    ensures Read(Store(r, mem, c), a) == Read(mem, a)
  {
  }

  lemma RestoreRuns(mem: Mem, to: int)
    ensures Running(Restore(mem, to)) == Load(mem, to)
  {
  }

  lemma WorkAgrees(w: World, p: Private, e: Event)
    requires WellFormed(w) && Enabled(w, e) && Agrees(w, p) && e.Work?
    ensures Agrees(Step(w, e), p)
  {
    hide Load, Restore, Read, SameContext;
    var w' := Step(w, e);
    forall i | 0 <= i < |w'.at| && i !in w'.active
      ensures Suspended(w', p.frames, i)
    {
      assert Suspended(w, p.frames, i);
      SameLoads(e.mem, w.mem, w.at[i]);
    }
    forall k | 0 <= k < |w'.active|
      ensures Waiting(w', p.frames, k)
    {
      assert Waiting(w, p.frames, k);
      SameLoads(e.mem, w.mem, w.at[w.active[k]] + CALLER);
    }
  }

  lemma SameLoads(mem: Mem, mem': Mem, c: int)
    requires SameContext(mem, mem', c)
    ensures Load(mem, c) == Load(mem', c)
  {
    RestoreRuns(mem, c);
    RestoreRuns(mem', c);
  }

  /** A switch changes one context, and leaves the running party's frame there. */
  lemma SwapLoads(w: World, from: int, to: int, active: seq<nat>, c: int)
    ensures Load(Swap(w, from, to, active).mem, from) == Current(w.regs, w.mem)
    ensures Apart(from, c) ==> Load(Swap(w, from, to, active).mem, c) == Load(w.mem, c)
    ensures Running(Swap(w, from, to, active).regs) == Load(Swap(w, from, to, active).mem, to)
  {
    hide Load, Store, Restore, Read, Running;
    var r := Call(w.regs, from, to);
    StoreLoads(r, w.mem, from, c);
    RestoreRuns(Store(r, w.mem, from), to);
    assert Current(r, w.mem) == Current(w.regs, w.mem);
  }

  /** Who resumes a coroutine finds it as it was, and is kept in its caller context. */
  lemma ResumeAgrees(w: World, p: Private, i: nat, pass: Option<int>)
    requires WellFormed(w) && Enabled(w, Resume(i, pass)) && Agrees(w, p)
    ensures var w', p' := Step(w, Resume(i, pass)), PrivateStep(w, p, Resume(i, pass));
            && WellFormed(w') && Agrees(w', p')
            && w'.Runner() == Co(i) && Co(i) in p.frames && Running(w'.regs) == p.frames[Co(i)]
  {
    hide Load, Store, Restore, Read, Current, Running, Swap;
    var from, to := w.at[i] + CALLER, w.at[i];
    var w' := Step(w, Resume(i, pass));
    SwapIs(w, from, to, w.active + [i]);
    SwapLoads(w, from, to, w.active + [i], to);
    var frames := PrivateStep(w, p, Resume(i, pass)).frames;
    assert Suspended(w, p.frames, i);
    NotWaiting(w, |w.active|);
    forall j | 0 <= j < |w'.at| && j !in w'.active
      ensures Suspended(w', frames, j)
    {
      assert j !in w.active;
      assert Suspended(w, p.frames, j);
      SwapLoads(w, from, to, w.active + [i], w.at[j]);
    }
    forall k | 0 <= k < |w'.active|
      ensures Waiting(w', frames, k)
    {
      if k < |w.active| {
        assert Waiting(w, p.frames, k);
        SwapLoads(w, from, to, w.active + [i], w.at[w.active[k]] + CALLER);
      }
    }
  }

  /** Who yields finds its resumer as it was, and is kept in its own context. */
  lemma YieldAgrees(w: World, p: Private, value: int)
    requires WellFormed(w) && Enabled(w, Yield(value)) && Agrees(w, p)
    ensures var w', p' := Step(w, Yield(value)), PrivateStep(w, p, Yield(value));
            && WellFormed(w') && Agrees(w', p')
            && w'.Runner() == w.Resumer(|w.active| - 1)
            && w'.Runner() in p.frames && Running(w'.regs) == p.frames[w'.Runner()]
  {
    hide Load, Store, Restore, Read, Current, Running, Swap;
    var last := |w.active| - 1;
    var i := w.active[last];
    var from, to := w.at[i], w.at[i] + CALLER;
    var w' := Step(w, Yield(value));
    SwapIs(w, from, to, w.active[..last]);
    SwapLoads(w, from, to, w.active[..last], to);
    var frames := PrivateStep(w, p, Yield(value)).frames;
    assert Waiting(w, p.frames, last);
    assert last > 0 ==> w.active[..last][last - 1] == w.active[last - 1];
    NotWaiting(w, last);
    forall j | 0 <= j < |w'.at| && j !in w'.active
      ensures Suspended(w', frames, j)
    {
      if j != i {
        assert w.active == w.active[..last] + [i];
        assert j !in w.active;
        assert Suspended(w, p.frames, j);
        SwapLoads(w, from, to, w.active[..last], w.at[j]);
      }
    }
    forall k | 0 <= k < |w'.active|
      ensures Waiting(w', frames, k)
    {
      assert Waiting(w, p.frames, k);
      SwapLoads(w, from, to, w.active[..last], w.at[w.active[k]] + CALLER);
    }
  }

  lemma SwapIs(w: World, from: int, to: int, active: seq<nat>)
    ensures Swap(w, from, to, active).at == w.at && Swap(w, from, to, active).active == active
  {
  }

  /** The party that runs waits for nobody. */
  lemma NotWaiting(w: World, n: nat)
    requires WellFormed(w) && n <= |w.active| <= n + 1
    ensures forall k :: 0 <= k < n ==> w.Resumer(k) != w.Runner()
  {
  }

  lemma StepAgrees(w: World, p: Private, e: Event)
    requires WellFormed(w) && Enabled(w, e) && Agrees(w, p)
    ensures WellFormed(Step(w, e)) && Agrees(Step(w, e), PrivateStep(w, p, e))
    ensures var w' := Step(w, e);
            !e.Work? ==> w'.Runner() in p.frames && Running(w'.regs) == p.frames[w'.Runner()]
  {
    hide Agrees, Running, Load, Read, Store, Restore, Current, Enabled;
    match e
    case Work(_, _) => WorkAgrees(w, p, e);
    case Resume(i, _) =>
      ResumeAgrees(w, p, i, e.pass);
    case Yield(_) =>
      YieldAgrees(w, p, e.value);
  }

  // A run can start from any well-formed world.

  /** What party q should find, where the machine will look for it. */
  ghost function FrameOf(w: World, q: Party): Frame
    requires WellFormed(w)
  {
    if exists k: nat :: k < |w.active| && w.Resumer(k) == q then
      var k: nat :| k < |w.active| && w.Resumer(k) == q;
      Load(w.mem, w.at[w.active[k]] + CALLER)
    else if q.Co? && q.i < |w.at| then Load(w.mem, w.at[q.i])
    else Frame(0, 0, 0, 0, 0, 0, 0, 0)
  }

  ghost function Parties(w: World): set<Party> {
    {Thread} + set i | 0 <= i < |w.at| :: Co(i)
  }

  ghost function StartOf(w: World): Private
    requires WellFormed(w)
  {
    Private(map q | q in Parties(w) :: FrameOf(w, q), w.active)
  }

  /** Every well-formed world is a start, with the frames its contexts hold. */
  lemma StartAgrees(w: World)
    requires WellFormed(w)
    ensures Agrees(w, StartOf(w))
  {
    hide Load;
    var frames := StartOf(w).frames;
    forall i | 0 <= i < |w.at| && i !in w.active
      ensures Suspended(w, frames, i)
    {
      assert Co(i) in Parties(w);
    }
    forall k | 0 <= k < |w.active|
      ensures Waiting(w, frames, k)
    {
      var q := w.Resumer(k);
      assert q in Parties(w);
      assert forall j: nat :: j < |w.active| && w.Resumer(j) == q ==> j == k;
    }
  }

  // Whole runs.

  /** worlds[k + 1] is what event k makes of worlds[k]. */
  ghost predicate IsRun(worlds: seq<World>, events: seq<Event>) {
    && |worlds| == |events| + 1 && WellFormed(worlds[0])
    && forall k :: 0 <= k < |events| ==> Follows(worlds, events, k)
  }

  ghost predicate Follows(worlds: seq<World>, events: seq<Event>, k: nat)
    requires k < |events| && |worlds| == |events| + 1
  {
    CanStep(worlds[k], events[k]) && Enabled(worlds[k], events[k]) && worlds[k + 1] == Step(worlds[k], events[k])
  }

  /** What the parties had parked before event k, if they had the frames of start at first. */
  ghost function Parked(worlds: seq<World>, events: seq<Event>, start: Private, k: nat): (p: Private)
    requires IsRun(worlds, events) && k <= |events| && Agrees(worlds[0], start)
    ensures WellFormed(worlds[k]) && Agrees(worlds[k], p)
    decreases k
  {
    if k == 0 then start
    else
      var before := Parked(worlds, events, start, k - 1);
      assert Follows(worlds, events, k - 1);
      StepAgrees(worlds[k - 1], before, events[k - 1]);
      PrivateStep(worlds[k - 1], before, events[k - 1])
  }

  /** A party that does not run keeps the frame it gave up with. */
  lemma {:induction false} StaysParked(worlds: seq<World>, events: seq<Event>, start: Private, j: nat, k: nat)
    requires IsRun(worlds, events) && j < k <= |events| && Agrees(worlds[0], start) && !events[j].Work?
    requires forall m :: j < m < k ==> worlds[m].Runner() != worlds[j].Runner()
    ensures var p := Parked(worlds, events, start, k).frames;
            worlds[j].Runner() in p && p[worlds[j].Runner()] == Current(worlds[j].regs, worlds[j].mem)
    decreases k
  {
    hide Agrees, Current, Step, Enabled;
    assert Follows(worlds, events, k - 1);
    if j + 1 < k {
      StaysParked(worlds, events, start, j, k - 1);
    }
  }

  /** Isolation: in every run, a party that gave up control at event j and gets it back for the first
      time at event k finds its callee-saved registers, its stack pointer and its resume address as
      they were, whatever the others did meanwhile. */
  lemma GetsBack(worlds: seq<World>, events: seq<Event>, j: nat, k: nat)
    requires IsRun(worlds, events) && j < k < |events| && !events[j].Work? && !events[k].Work?
    requires worlds[k + 1].Runner() == worlds[j].Runner()
    requires forall m :: j < m <= k ==> worlds[m].Runner() != worlds[j].Runner()
    ensures var r, before := worlds[k + 1].regs, worlds[j].regs;
            && r.rbx == before.rbx && r.rbp == before.rbp && r.r12 == before.r12 && r.r13 == before.r13
            && r.r14 == before.r14 && r.r15 == before.r15 && r.rsp == before.rsp + 8
            && r.rip == Read(worlds[j].mem, before.rsp)
  {
    hide Agrees, Current, Running, Step, StartOf;
    var start := StartOf(worlds[0]);
    StartAgrees(worlds[0]);
    StaysParked(worlds, events, start, j, k);
    assert Follows(worlds, events, k);
    StepAgrees(worlds[k], Parked(worlds, events, start, k), events[k]);
    FrameIs(worlds[k + 1].regs, worlds[j].regs, worlds[j].mem);
  }

  lemma FrameIs(r: Regs, before: Regs, mem: Mem)
    requires Running(r) == Current(before, mem)
    ensures r.rbx == before.rbx && r.rbp == before.rbp && r.r12 == before.r12 && r.r13 == before.r13
    ensures r.r14 == before.r14 && r.r15 == before.r15 && r.rsp == before.rsp + 8 && r.rip == Read(mem, before.rsp)
  {
  }

  lemma LoadIs(r: Regs, mem: Mem, c: int)
    requires Running(r) == Load(mem, c)
    ensures r.rbx == Read(mem, c) && r.rbp == Read(mem, c + 8) && r.r12 == Read(mem, c + 16) && r.r13 == Read(mem, c + 24)
    ensures r.r14 == Read(mem, c + 32) && r.r15 == Read(mem, c + 40)
    ensures r.rsp == Read(mem, c + 104) && r.rip == Read(mem, c + 96)
  {
  }

  /** A coroutine that never ran starts with the frame its context was prepared with. */
  lemma StartsPrepared(worlds: seq<World>, events: seq<Event>, i: nat, k: nat)
    requires IsRun(worlds, events) && worlds[0].active == []
    requires k < |events| && i < |worlds[0].at| && events[k].Resume? && events[k].i == i
    requires forall m :: 0 <= m <= k ==> worlds[m].Runner() != Co(i)
    ensures var r, mem, c := worlds[k + 1].regs, worlds[0].mem, worlds[0].at[i];
            && r.rbx == Read(mem, c) && r.rbp == Read(mem, c + 8) && r.r12 == Read(mem, c + 16)
            && r.r13 == Read(mem, c + 24) && r.r14 == Read(mem, c + 32) && r.r15 == Read(mem, c + 40)
            && r.rsp == Read(mem, c + 104) && r.rip == Read(mem, c + 96)
  {
    hide Current, Running, Step, Load, StartOf;
    var start := StartOf(worlds[0]);
    StartAgrees(worlds[0]);
    assert Suspended(worlds[0], start.frames, i);
    NeverParked(worlds, events, start, i, k);
    assert Follows(worlds, events, k);
    StepAgrees(worlds[k], Parked(worlds, events, start, k), events[k]);
    ResumedRuns(worlds[k], i, events[k].pass);
    LoadIs(worlds[k + 1].regs, worlds[0].mem, worlds[0].at[i]);
  }

  lemma ResumedRuns(w: World, i: nat, pass: Option<int>)
    requires i < |w.at|
    ensures Step(w, Resume(i, pass)).Runner() == Co(i)
  {
  }

  lemma {:induction false} NeverParked(worlds: seq<World>, events: seq<Event>, start: Private, i: nat, k: nat)
    requires IsRun(worlds, events) && Agrees(worlds[0], start) && Co(i) in start.frames
    requires k <= |events| && forall m :: 0 <= m <= k ==> worlds[m].Runner() != Co(i)
    ensures var p := Parked(worlds, events, start, k).frames; Co(i) in p && p[Co(i)] == start.frames[Co(i)]
    decreases k
  {
    hide Agrees, Current, Step, Enabled;
    if k > 0 {
      assert Follows(worlds, events, k - 1);
      NeverParked(worlds, events, start, i, k - 1);
    }
  }

  // What is handed over.

  /** co->yielded of coroutine i before event k. */
  ghost function Field(worlds: seq<World>, events: seq<Event>, i: nat, k: nat): int
    requires IsRun(worlds, events) && k <= |events|
    decreases k
  {
    if k == 0 then 0
    else match events[k - 1]
      case Resume(j, Some(value)) => if j == i then value else Field(worlds, events, i, k - 1)
      case Yield(value) => if worlds[k - 1].Runner() == Co(i) then value else Field(worlds, events, i, k - 1)
      case _ => Field(worlds, events, i, k - 1)
  }

  /** While a party waits for the coroutine it resumed, that one is active on top of it. */
  lemma {:induction false} Nested(worlds: seq<World>, events: seq<Event>, start: Private, j: nat, k: nat)
    requires IsRun(worlds, events) && Agrees(worlds[0], start) && j < k <= |events| && events[j].Resume?
    requires forall m :: j < m <= k ==> worlds[m].Runner() != worlds[j].Runner()
    ensures var n := |worlds[j].active|;
            && n < |worlds[k].active| && worlds[k].active[n] == events[j].i
            && forall m :: 0 <= m < n ==> worlds[k].active[m] == worlds[j].active[m]
    decreases k
  {
    hide Swap, Enabled, Agrees;
    assert Follows(worlds, events, k - 1);
    var _ := Parked(worlds, events, start, k - 1);
    var _ := Parked(worlds, events, start, k);
    var n, w, w' := |worlds[j].active|, worlds[k - 1], worlds[k];
    if j + 1 < k {
      Nested(worlds, events, start, j, k - 1);
      StepActive(w, events[k - 1]);
    } else {
      StepActive(w, events[k - 1]);
    }
  }

  lemma StepActive(w: World, e: Event)
    requires CanStep(w, e)
    ensures Step(w, e).active ==
            match e
            case Work(_, _) => w.active
            case Resume(i, _) => w.active + [i]
            case Yield(_) => w.active[..|w.active| - 1]
  {
  }

  /** What co_resume and co_resume_value return: a party that resumed coroutine i gets control back by a
      yield of that very coroutine, whatever was resumed in between, and finds the value it yielded. */
  lemma ResumeReturns(worlds: seq<World>, events: seq<Event>, j: nat, k: nat)
    requires IsRun(worlds, events)
    requires j < k < |events| && events[j].Resume? && !events[k].Work?
    requires worlds[k + 1].Runner() == worlds[j].Runner()
    requires forall m :: j < m <= k ==> worlds[m].Runner() != worlds[j].Runner()
    ensures events[k].Yield? && worlds[k].Runner() == Co(events[j].i)
    ensures Field(worlds, events, events[j].i, k + 1) == events[k].value
  {
    hide Swap, Agrees, StartOf;
    var start := StartOf(worlds[0]);
    StartAgrees(worlds[0]);
    Nested(worlds, events, start, j, k);
    assert Follows(worlds, events, k);
    var _ := Parked(worlds, events, start, k);
    var _ := Parked(worlds, events, start, k + 1);
    StepActive(worlds[k], events[k]);
    var n := |worlds[j].active|;
    var a, a' := worlds[k].active, worlds[k + 1].active;
    assert n > 0 ==> a[n - 1] == worlds[j].active[n - 1];
    assert events[k].Yield? ==> |a'| == |a| - 1 && forall m :: 0 <= m < |a'| ==> a'[m] == a[m];
  }
}
