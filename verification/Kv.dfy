/** The key/value table: an array of pointer pairs that is either provided by the caller, and then
    refuses what does not fit, or allocated, and then doubles. */
module KeyValue {
  import opened Wrappers
  import opened CStrings
  import Words

  const DEFAULT_KV_SZ: nat := 20

  /** Two pointers into the memory that holds the strings. */
  datatype KvPair = KvPair(key: nat, value: nat)

  /** What a table holds, independent of where. */
  datatype Table = Table(pairs: seq<KvPair>, capacity: nat, malloced: bool) {
    ghost predicate Valid() {
      |pairs| <= capacity && (malloced ==> 0 < capacity)
    }
  }

  function SetPair(t: Table, p: KvPair, reallocOk: bool): Table {
    if |t.pairs| < t.capacity then t.(pairs := t.pairs + [p])
    else if t.malloced && reallocOk then Table(t.pairs + [p], 2 * t.capacity, true)
    else t
  }

  predicate Accepts(t: Table, reallocOk: bool) {
    |t.pairs| < t.capacity || (t.malloced && reallocOk)
  }

  class Kv {
    var pairs: array<KvPair>
    var size: nat
    var capacity: nat
    var malloced: bool

    ghost predicate Valid()
      reads this
    {
      size <= capacity == pairs.Length && (malloced ==> 0 < capacity)
    }

    ghost function Contents(): (t: Table)
      requires Valid()
      reads this, pairs
    {
      Table(pairs[..size], capacity, malloced)
    }

    /** kv_init: a table of its own. */
    constructor Init()
      ensures Valid() && fresh(pairs) && Contents() == Table([], 20, true)
    {
      pairs := new KvPair[DEFAULT_KV_SZ](_ => KvPair(0, 0));
      size, capacity, malloced := 0, DEFAULT_KV_SZ, true;
    }

    /** KV_INIT_WITH_BUF: a table over a provided buffer. */
    constructor WithBuf(buf: array<KvPair>)
      ensures Valid() && pairs == buf && Contents() == Table([], buf.Length, false)
    {
      pairs, size, capacity, malloced := buf, 0, buf.Length, false;
    }
  }

  /** kv_set_key_value. reallocOk is the allocator's answer, asked only when the table is full. */
  method SetKeyValue(kv: Kv?, key: nat, value: nat, reallocOk: bool) returns (ok: bool)
    requires kv != null ==> kv.Valid()
    modifies kv, if kv == null then {} else {kv.pairs}
    ensures kv == null ==> !ok
    ensures kv != null ==> kv.Valid() && ok == old(Accepts(kv.Contents(), reallocOk))
    ensures kv != null ==> kv.Contents() == old(SetPair(kv.Contents(), KvPair(key, value), reallocOk))
    ensures kv != null ==> kv.pairs == old(kv.pairs) || (fresh(kv.pairs) && old(kv.malloced))
    ensures ok <==> kv != null && (old(kv.size) < old(kv.capacity) || (old(kv.malloced) && reallocOk))
    ensures kv != null && !ok ==> kv.Contents() == old(kv.Contents())
    ensures ok ==> kv.Contents().pairs == old(kv.Contents()).pairs + [KvPair(key, value)] && kv.malloced == old(kv.malloced)
    ensures ok ==> kv.capacity == if old(kv.size) < old(kv.capacity) then old(kv.capacity) else 2 * old(kv.capacity)
  {
    if kv == null {
      return false;
    }
    if kv.size == kv.capacity {
      if kv.malloced {
        if !reallocOk {
          return false;
        }
        var newbuf := new KvPair[kv.capacity * 2](_ => KvPair(0, 0));
        forall i | 0 <= i < kv.size {
          newbuf[i] := kv.pairs[i];
        }
        kv.pairs := newbuf;
        kv.capacity := kv.capacity * 2;
      } else {
        return false;
      }
    }
    kv.pairs[kv.size] := KvPair(key, value);
    kv.size := kv.size + 1;
    return true;
  }

  /** Every key in the table is a string of mem. */
  ghost predicate KeysIn(mem: seq<byte>, pairs: seq<KvPair>) {
    forall i :: 0 <= i < |pairs| ==> Terminated(mem, pairs[i].key)
  }

  /** The map that inserting the pairs in order builds when an existing key is never overwritten. */
  ghost function FirstWins(mem: seq<byte>, pairs: seq<KvPair>): map<Text, nat>
    requires KeysIn(mem, pairs)
  {
    if pairs == [] then map[]
    else
      var last := pairs[|pairs| - 1];
      var m := FirstWins(mem, pairs[..|pairs| - 1]);
      if CStr(mem, last.key) in m then m else m[CStr(mem, last.key) := last.value]
  }

  lemma {:induction false} FirstWinsGrows(mem: seq<byte>, pairs: seq<KvPair>, k: nat)
    requires KeysIn(mem, pairs) && k <= |pairs|
    ensures forall s :: s in FirstWins(mem, pairs[..k]) ==>
              s in FirstWins(mem, pairs) && FirstWins(mem, pairs)[s] == FirstWins(mem, pairs[..k])[s]
    decreases |pairs| - k
  {
    if k < |pairs| {
      assert pairs[..k + 1][..k] == pairs[..k];
      FirstWinsGrows(mem, pairs, k + 1);
    } else {
      assert pairs[..k] == pairs;
    }
  }

  /** kv_find_value: the value pointer of the first pair whose key is the string asked for. */
  method FindValue(kv: Kv?, mem: seq<byte>, key: Text) returns (r: Option<nat>)
    requires kv != null ==> kv.Valid() && KeysIn(mem, kv.Contents().pairs)
    ensures kv == null ==> r == None
    ensures kv != null ==>
              var m := FirstWins(mem, kv.Contents().pairs);
              r == if key in m then Some(m[key]) else None
    ensures kv != null && r.None? ==> forall i :: 0 <= i < kv.size ==> CStr(mem, kv.pairs[i].key) != key
    ensures kv != null && r.Some? ==>
              exists i :: 0 <= i < kv.size && r.value == kv.pairs[i].value && CStr(mem, kv.pairs[i].key) == key
                          && forall j :: 0 <= j < i ==> CStr(mem, kv.pairs[j].key) != key
  {
    if kv == null {
      return None;
    }
    ghost var all := kv.Contents().pairs;
    var i := 0;
    while i < kv.size
      invariant 0 <= i <= kv.size
      invariant key !in FirstWins(mem, all[..i])
      invariant forall j :: 0 <= j < i ==> CStr(mem, kv.pairs[j].key) != key
    {
      assert all[..i + 1][..i] == all[..i];
      if CStr(mem, kv.pairs[i].key) == key {
        FirstWinsGrows(mem, all, i + 1);
        return Some(kv.pairs[i].value);
      }
      i := i + 1;
    }
    assert all[..i] == all;
    return None;
  }

  /** kv_reset: the pairs in use are zeroed and forgotten; the buffer stays. */
  method Reset(kv: Kv?)
    requires kv != null ==> kv.Valid()
    modifies kv, if kv == null then {} else {kv.pairs}
    ensures kv != null ==> kv.Valid() && kv.pairs == old(kv.pairs)
    ensures kv != null ==> kv.Contents() == old(kv.Contents()).(pairs := [])
    ensures kv != null ==>
              forall i :: 0 <= i < kv.pairs.Length ==>
                            kv.pairs[i] == if i < old(kv.size) then KvPair(0, 0) else old(kv.pairs[i])
  {
    if kv != null {
      forall i | 0 <= i < kv.size {
        kv.pairs[i] := KvPair(0, 0);
      }
      kv.size := 0;
    }
  }

  /** One call of kv_set_key_value as a client sees it. */
  datatype Call = Call(pair: KvPair, reallocOk: bool)

  function Run(t: Table, calls: seq<Call>): Table
    decreases |calls|
  {
    if calls == [] then t
    else Run(SetPair(t, calls[0].pair, calls[0].reallocOk), calls[1..])
  }

  /** The pairs whose call returned true. */
  function Accepted(t: Table, calls: seq<Call>): seq<KvPair>
    decreases |calls|
  {
    if calls == [] then []
    else (if Accepts(t, calls[0].reallocOk) then [calls[0].pair] else []) +
         Accepted(SetPair(t, calls[0].pair, calls[0].reallocOk), calls[1..])
  }

  /** Whatever the allocator answers, the table holds exactly the accepted pairs, in order. */
  lemma {:induction false} TableHoldsAccepted(t: Table, calls: seq<Call>)
    requires t.Valid()
    ensures Run(t, calls).Valid() && Run(t, calls).pairs == t.pairs + Accepted(t, calls)
    decreases |calls|
  {
    if calls != [] {
      TableHoldsAccepted(SetPair(t, calls[0].pair, calls[0].reallocOk), calls[1..]);
    }
  }

  function PairsOf(calls: seq<Call>): (r: seq<KvPair>)
    ensures |r| == |calls|
  {
    seq(|calls|, i requires 0 <= i < |calls| => calls[i].pair)
  }

  function Min(a: nat, b: nat): nat { if a < b then a else b }

  /** A provided table keeps exactly the first pairs that fit. */
  lemma {:induction false} ProvidedKeepsPrefix(t: Table, calls: seq<Call>)
    requires t.Valid() && !t.malloced
    ensures Run(t, calls) == t.(pairs := t.pairs + PairsOf(calls)[..Min(|calls|, t.capacity - |t.pairs|)])
    decreases |calls|
  {
    if calls == [] {
      assert t.pairs + [] == t.pairs;
    } else {
      assert PairsOf(calls) == [calls[0].pair] + PairsOf(calls[1..]);
      ProvidedKeepsPrefix(SetPair(t, calls[0].pair, calls[0].reallocOk), calls[1..]);
    }
  }

  /** The capacity of an allocated table is the least 20 * 2^k that holds what it stores. */
  ghost predicate LeastDoubling(capacity: nat, size: nat) {
    exists k: nat :: capacity == 20 * Words.Pow2(k) && size <= capacity && (k == 0 || capacity < 2 * size)
  }

  /** An allocated table keeps every pair while allocation succeeds. */
  lemma {:induction false} MallocedKeepsAll(t: Table, calls: seq<Call>)
    requires t.malloced && LeastDoubling(t.capacity, |t.pairs|)
    requires forall i :: 0 <= i < |calls| ==> calls[i].reallocOk
    ensures Run(t, calls).pairs == t.pairs + PairsOf(calls)
    ensures Run(t, calls).malloced && LeastDoubling(Run(t, calls).capacity, |Run(t, calls).pairs|)
    decreases |calls|
  {
    if calls != [] {
      var k: nat :| t.capacity == 20 * Words.Pow2(k) && |t.pairs| <= t.capacity && (k == 0 || t.capacity < 2 * |t.pairs|);
      var next := SetPair(t, calls[0].pair, true);
      if |t.pairs| == t.capacity {
        assert next.capacity == 20 * Words.Pow2(k + 1);
      } else {
        assert next.capacity == 20 * Words.Pow2(k);
      }
      MallocedKeepsAll(next, calls[1..]);
      assert PairsOf(calls) == [calls[0].pair] + PairsOf(calls[1..]);
    }
  }
}
