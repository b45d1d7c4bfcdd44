/** The intrusive chained hash map: buckets of heap-linked nodes with back-pointers. */
module HashTable {
  import opened Words
  import opened HashFunction

  /** What a node's pprev points to: the head cell of a bucket, or the next field of a node. */
  datatype Cell = NoCell | HeadCell(bucket: nat) | NextCell(node: Node)

  /** struct hmap_element with its embedded list node; 0 is the null value. */
  class Node {
    const key: nat
    const value: nat
    var next: Node?
    var pprev: Cell

    constructor (key: nat, value: nat)
      ensures this.key == key && this.value == value
    {
      this.key, this.value := key, value;
      next, pprev := null, NoCell;
    }
  }

  /** The j-th node of a chain leads to the next, the last one to null, and its back-pointer names the
      cell that points to it. */
  ghost predicate NodeOk(chain: seq<Node>, j: nat, bucket: nat)
    requires j < |chain|
    reads chain[j]
  {
    && chain[j].next == (if j + 1 < |chain| then chain[j + 1] else null)
    && chain[j].pprev == (if j == 0 then HeadCell(bucket) else NextCell(chain[j - 1]))
  }

  ghost predicate Linked(chain: seq<Node>, bucket: nat)
    reads chain
  {
    forall j :: 0 <= j < |chain| ==> NodeOk(chain, j, bucket)
  }

  /** All keys of the chain belong to the bucket, and no key occurs twice: no node does, either. */
  ghost predicate Keyed(chain: seq<Node>, bucket: nat, bits: nat)
    requires 1 <= bits <= 30
  {
    && (forall j :: 0 <= j < |chain| ==> Hash64(chain[j].key, bits) == bucket)
    && (forall j, k :: 0 <= j < k < |chain| ==> chain[j].key != chain[k].key)
  }

  ghost predicate Holds(chain: seq<Node>, key: nat) {
    exists j :: 0 <= j < |chain| && chain[j].key == key
  }

  /** The chain spells the map on the bucket's keys. */
  ghost predicate Spells(chain: seq<Node>, bucket: nat, bits: nat, model: map<nat, nat>)
    requires 1 <= bits <= 30
  {
    && (forall j :: 0 <= j < |chain| ==> chain[j].key in model && model[chain[j].key] == chain[j].value)
    && (forall k :: k in model && Hash64(k, bits) == bucket ==> Holds(chain, k))
  }

  lemma KeyedPush(node: Node, chain: seq<Node>, bucket: nat, bits: nat)
    requires 1 <= bits <= 30 && Keyed(chain, bucket, bits) && Hash64(node.key, bits) == bucket && !Holds(chain, node.key)
    ensures Keyed([node] + chain, bucket, bits)
  {
  }

  lemma SpellsPush(node: Node, chain: seq<Node>, bucket: nat, bits: nat, model: map<nat, nat>)
    requires 1 <= bits <= 30 && Spells(chain, bucket, bits, model) && node.key !in model
    ensures Spells([node] + chain, bucket, bits, model[node.key := node.value])
  {
    var more := [node] + chain;
    forall k | k in model[node.key := node.value] && Hash64(k, bits) == bucket
      ensures Holds(more, k)
    {
      if k == node.key {
        assert more[0].key == k;
      } else {
        var j :| 0 <= j < |chain| && chain[j].key == k;
        assert more[j + 1].key == k;
      }
    }
  }

  lemma BucketsApart(chain: seq<Node>, bucket: nat, other: seq<Node>, k: nat, bits: nat)
    requires 1 <= bits <= 30 && Keyed(chain, bucket, bits) && Keyed(other, k, bits) && bucket != k
    ensures forall j, l :: 0 <= j < |chain| && 0 <= l < |other| ==> chain[j] != other[l]
  {
  }

  lemma FirstApart(chain: seq<Node>, bucket: nat, bits: nat)
    requires 1 <= bits <= 30 && Keyed(chain, bucket, bits)
    ensures forall j :: 0 < j < |chain| ==> chain[j] != chain[0]
  {
  }

  /** A key that is not in the map is in no chain. */
  lemma NotHeld(chain: seq<Node>, bucket: nat, bits: nat, model: map<nat, nat>, key: nat)
    requires 1 <= bits <= 30 && Spells(chain, bucket, bits, model) && key !in model
    ensures !Holds(chain, key)
  {
  }

  lemma SpellsOther(key: nat, value: nat, chain: seq<Node>, bucket: nat, bits: nat, model: map<nat, nat>)
    requires 1 <= bits <= 30 && Spells(chain, bucket, bits, model) && key !in model && Hash64(key, bits) != bucket
    ensures Spells(chain, bucket, bits, model[key := value])
  {
  }

  ghost predicate Covers(chains: seq<seq<Node>>, nodes: set<Node>) {
    forall i, j :: 0 <= i < |chains| && 0 <= j < |chains[i]| ==> chains[i][j] in nodes
  }

  /** Every node is in the chain of its key. */
  ghost predicate Located(nodes: set<Node>, chains: seq<seq<Node>>, bits: nat)
    requires 1 <= bits <= 30
  {
    forall n :: n in nodes ==> Hash64(n.key, bits) < |chains| && n in chains[Hash64(n.key, bits)]
  }

  ghost function First(chain: seq<Node>): Node? {
    if |chain| == 0 then null else chain[0]
  }

  class Hmap {
    const bits: nat
    const hl: array<Node?>
    var live: bool
    ghost var chains: seq<seq<Node>>
    ghost var model: map<nat, nat>
    ghost var nodes: set<Node>

    ghost predicate Valid()
      reads this, hl, nodes
    {
      && live && 1 <= bits <= 30 && hl.Length == Pow2(bits) == |chains|
      && Covers(chains, nodes) && Located(nodes, chains, bits)
      && (forall i :: 0 <= i < |chains| ==>
            && hl[i] == First(chains[i])
            && Linked(chains[i], i)
            && Keyed(chains[i], i, bits)
            && Spells(chains[i], i, bits, model))
    }

    /** hmap_new */
    constructor (bits: nat)
      requires 1 <= bits <= 30
      ensures Valid() && fresh(hl) && this.bits == bits && model == map[] && nodes == {}
    {
      this.bits := bits;
      hl := new Node?[Pow2(bits)](_ => null);
      live := true;
      chains := seq(Pow2(bits), _ => []);
      model, nodes := map[], {};
    }
  }

  /** hmap_find */
  method Find(h: Hmap, key: nat) returns (ele: Node?)
    requires h.Valid()
    ensures ele == null <==> key !in h.model
    ensures ele != null ==> ele in h.nodes && ele.key == key && h.model[key] == ele.value
  {
    hide Hash64, Pow2;
    Hash64InTable(key, h.bits);
    var i := Hash64(key, h.bits);
    ghost var chain, j := h.chains[i], 0;
    var pnode := h.hl[i];
    while pnode != null
      invariant 0 <= j <= |chain| && pnode == (if j < |chain| then chain[j] else null)
      invariant forall k :: 0 <= k < j ==> chain[k].key != key
      decreases |chain| - j
    {
      assert NodeOk(chain, j, i);
      if pnode.key == key {
        return pnode;
      }
      pnode := pnode.next;
      j := j + 1;
    }
    return null;
  }

  /** hmap_get: null, that is 0, for a missing key. */
  method Get(h: Hmap, key: nat) returns (value: nat)
    requires h.Valid()
    ensures value == if key in h.model then h.model[key] else 0
  {
    var ele := Find(h, key);
    value := if ele != null then ele.value else 0;
  }

  /** Every node of the table is where its back-pointer says: in the head cell of its key's bucket, or in
      the next field of another node of the table. */
  lemma PointsBack(h: Hmap, n: Node)
    requires h.Valid() && n in h.nodes
    ensures match n.pprev
            case NoCell => false
            case HeadCell(i) => i == Hash64(n.key, h.bits) && i < h.hl.Length && h.hl[i] == n
            case NextCell(p) => p in h.nodes && p != n && p.next == n && Hash64(p.key, h.bits) == Hash64(n.key, h.bits)
  {
    hide Hash64, Pow2, Spells;
    var i := Hash64(n.key, h.bits);
    var j :| 0 <= j < |h.chains[i]| && h.chains[i][j] == n;
    assert NodeOk(h.chains[i], j, i);
    if j > 0 {
      assert NodeOk(h.chains[i], j - 1, i);
    }
  }

  function InsertAbsent(m: map<nat, nat>, key: nat, value: nat): map<nat, nat> {
    if key in m then m else m[key := value]
  }

  /** What a table still is once a key that is not in it is added to the map and to its chain. */
  lemma PushFits(h: Hmap, node: Node, i: nat)
    requires h.Valid() && node.key !in h.model && i == Hash64(node.key, h.bits) && i < |h.chains|
    ensures Keyed([node] + h.chains[i], i, h.bits)
    ensures Spells([node] + h.chains[i], i, h.bits, h.model[node.key := node.value])
    ensures forall k :: 0 <= k < |h.chains| && k != i ==> Spells(h.chains[k], k, h.bits, h.model[node.key := node.value])
  {
    hide Hash64, Pow2;
    var chain := h.chains[i];
    NotHeld(chain, i, h.bits, h.model, node.key);
    KeyedPush(node, chain, i, h.bits);
    SpellsPush(node, chain, i, h.bits, h.model);
    forall k | 0 <= k < |h.chains| && k != i
      ensures Spells(h.chains[k], k, h.bits, h.model[node.key := node.value])
    {
      SpellsOther(node.key, node.value, h.chains[k], k, h.bits, h.model);
    }
  }

  /** Every node of the table is still in its key's chain once another is pushed. */
  lemma PushFinds(h: Hmap, node: Node, i: nat)
    requires h.Valid() && i == Hash64(node.key, h.bits) && i < |h.chains|
    ensures Located(h.nodes + {node}, h.chains[i := [node] + h.chains[i]], h.bits)
  {
    hide Hash64, Pow2, Keyed, Spells, Linked;
  }

  /** The first node of a chain is in no other place of the table. */
  lemma FirstOnce(h: Hmap, i: nat)
    requires h.Valid() && i < |h.chains|
    ensures forall k, j :: 0 <= k < |h.chains| && 0 <= j < |h.chains[k]| && (k != i || j > 0) ==>
              h.chains[k][j] != h.hl[i]
  {
    hide Hash64, Pow2;
    FirstApart(h.chains[i], i, h.bits);
    forall k, j | 0 <= k < |h.chains| && 0 <= j < |h.chains[k]| && k != i
      ensures h.chains[k][j] != h.hl[i]
    {
      BucketsApart(h.chains[i], i, h.chains[k], k, h.bits);
    }
  }

  /** The pointer writes of hmap_insert. */
  method Push(h: Hmap, node: Node, i: nat)
    requires h.Valid() && node !in h.nodes && node.key !in h.model
    requires i == Hash64(node.key, h.bits) && i < |h.chains|
    modifies h, h.hl, h.nodes, node
    ensures h.Valid() && h.model == old(h.model)[node.key := node.value] && h.nodes == old(h.nodes) + {node}
    ensures h.chains == old(h.chains)[i := [node] + old(h.chains[i])]
  {
    hide Hash64, Pow2, Keyed, Spells, Located;
    PushFits(h, node, i);
    PushFinds(h, node, i);
    FirstOnce(h, i);
    ghost var chain := h.chains[i];
    node.next := h.hl[i];
    if h.hl[i] != null {
      h.hl[i].pprev := NextCell(node);
    }
    h.hl[i] := node;
    node.pprev := HeadCell(i);
    h.chains := h.chains[i := [node] + h.chains[i]];
    h.nodes := h.nodes + {node};
    h.model := h.model[node.key := node.value];
    forall j | 0 <= j < |h.chains[i]|
      ensures NodeOk(h.chains[i], j, i)
    {
      if j > 0 {
        assert old(NodeOk(chain, j - 1, i));
      }
    }
    forall k | 0 <= k < |h.chains| && k != i
      ensures Linked(h.chains[k], k)
    {
      forall j | 0 <= j < |h.chains[k]|
        ensures NodeOk(h.chains[k], j, k)
      {
        assert old(NodeOk(h.chains[k], j, k));
      }
    }
  }

  /** hmap_insert: an existing key keeps its value. mallocOk is the allocator's answer. */
  method Insert(h: Hmap, key: nat, value: nat, mallocOk: bool)
    requires h.Valid()
    modifies h, h.hl, h.nodes
    ensures h.Valid()
    ensures h.model == if mallocOk then InsertAbsent(old(h.model), key, value) else old(h.model)
    ensures fresh(h.nodes - old(h.nodes))
    ensures key in old(h.model) || !mallocOk ==> h.chains == old(h.chains) && h.nodes == old(h.nodes)
    ensures key !in old(h.model) && mallocOk ==>
              var i := Hash64(key, h.bits);
              && i < h.hl.Length && i < |old(h.chains)|
              && h.hl[i] != null && h.hl[i] !in old(h.nodes) && h.hl[i].key == key && h.hl[i].value == value
              && h.chains == old(h.chains)[i := [h.hl[i]] + old(h.chains[i])]
  {
    hide Hash64, Pow2, Keyed, Spells, Located, Covers, Linked;
    var ele := Find(h, key);
    if ele != null {
      return;
    }
    if !mallocOk {
      return;
    }
    var node := new Node(key, value);
    Hash64InTable(key, h.bits);
    Push(h, node, Hash64(key, h.bits));
  }

  /** The nodes of the first i chains, one behind the other. */
  ghost function Flat(chains: seq<seq<Node>>, i: nat): seq<Node>
    requires i <= |chains|
  {
    if i == 0 then [] else Flat(chains, i - 1) + chains[i - 1]
  }

  /** The inner loop of hmap_delete: a node's successor is read before the node is freed. */
  method FreeChain(h: Hmap, i: nat) returns (freed: seq<Node>)
    requires h.Valid() && i < h.hl.Length
    ensures i < |h.chains| && freed == h.chains[i]
  {
    hide Hash64, Pow2, Keyed, Spells, Located, Covers;
    freed := [];
    var n := h.hl[i];
    while n != null
      invariant |freed| <= |h.chains[i]| && freed == h.chains[i][..|freed|]
      invariant n == (if |freed| < |h.chains[i]| then h.chains[i][|freed|] else null)
      decreases |h.chains[i]| - |freed|
    {
      assert NodeOk(h.chains[i], |freed|, i);
      var ele := n;
      n := n.next;
      freed := freed + [ele];
    }
  }

  /** hmap_delete: returns the nodes in the order in which they are freed; the table itself is freed
      last. */
  method Delete(h: Hmap) returns (freed: seq<Node>)
    requires h.Valid()
    modifies h`live
    ensures freed == Flat(h.chains, |h.chains|) && !h.live
  {
    hide Hash64, Pow2, Keyed, Spells, Located, Covers, Linked;
    freed := [];
    var i := 0;
    while i < h.hl.Length
      invariant 0 <= i <= h.hl.Length == |h.chains|
      invariant freed == Flat(h.chains, i) && h.Valid()
    {
      var chain := FreeChain(h, i);
      freed := freed + chain;
      i := i + 1;
    }
    h.live := false;
  }

  lemma {:induction false} FlatHas(h: Hmap, i: nat, n: Node)
    requires h.Valid() && i <= |h.chains|
    ensures n in Flat(h.chains, i) <==> n in h.nodes && Hash64(n.key, h.bits) < i
    decreases i
  {
    hide Hash64, Pow2, Linked, Spells;
    if i > 0 {
      FlatHas(h, i - 1, n);
    }
  }

  lemma {:induction false} FlatOnce(h: Hmap, i: nat, j: nat, k: nat)
    requires h.Valid() && i <= |h.chains| && j < k < |Flat(h.chains, i)|
    ensures Flat(h.chains, i)[j] != Flat(h.chains, i)[k]
    decreases i
  {
    hide Hash64, Pow2, Linked, Spells, Covers, Located;
    if i > 0 {
      var before, chain := Flat(h.chains, i - 1), h.chains[i - 1];
      if k < |before| {
        FlatOnce(h, i - 1, j, k);
      } else if j < |before| {
        FlatHas(h, i - 1, before[j]);
        assert chain[k - |before|] in chain;
      } else {
        assert chain[j - |before|].key != chain[k - |before|].key;
      }
    }
  }

  /** hmap_delete frees every node of the table, and none twice; so when it reads a node's next field
      it has not freed that node yet. */
  lemma FreesEachOnce(h: Hmap, freed: seq<Node>, n: Node)
    requires h.Valid() && freed == Flat(h.chains, |h.chains|)
    ensures n in freed <==> n in h.nodes
    ensures forall j, k :: 0 <= j < k < |freed| ==> freed[j] != freed[k]
  {
    FlatHas(h, |h.chains|, n);
    forall j, k | 0 <= j < k < |freed|
      ensures freed[j] != freed[k]
    {
      FlatOnce(h, |h.chains|, j, k);
    }
  }

  // Whole histories.

  datatype Insertion = Insertion(key: nat, value: nat, mallocOk: bool)

  /** The map a sequence of insertions builds. */
  function Run(m: map<nat, nat>, calls: seq<Insertion>): map<nat, nat>
    decreases |calls|
  {
    if |calls| == 0 then m else
      var last := calls[|calls| - 1];
      var before := Run(m, calls[..|calls| - 1]);
      if last.mallocOk then InsertAbsent(before, last.key, last.value) else before
  }

  /** The i-th call is the first one that could store its key. */
  predicate FirstStored(calls: seq<Insertion>, i: nat)
    requires i < |calls|
  {
    calls[i].mallocOk && forall j :: 0 <= j < i ==> calls[j].key == calls[i].key ==> !calls[j].mallocOk
  }

  /** After any sequence of insertions the table has the keys for which there was memory once. */
  lemma {:induction false} RunKeys(calls: seq<Insertion>, key: nat)
    ensures key in Run(map[], calls) <==> exists i :: 0 <= i < |calls| && calls[i].key == key && calls[i].mallocOk
    decreases |calls|
  {
    if |calls| > 0 {
      var before := calls[..|calls| - 1];
      RunKeys(before, key);
      assert forall i :: 0 <= i < |before| ==> before[i] == calls[i];
    }
  }

  /** Each key has the value of the first call that could store it. */
  lemma {:induction false} RunValues(calls: seq<Insertion>, i: nat)
    requires i < |calls| && FirstStored(calls, i)
    ensures calls[i].key in Run(map[], calls) && Run(map[], calls)[calls[i].key] == calls[i].value
    decreases |calls|
  {
    var before := calls[..|calls| - 1];
    assert forall j :: 0 <= j < |before| ==> before[j] == calls[j];
    if i < |before| {
      RunValues(before, i);
    } else {
      RunKeys(before, calls[i].key);
    }
  }
}
