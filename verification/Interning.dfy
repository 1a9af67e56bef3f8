/**
 The table of derived types. A pointer, array or function type is built at most once, so two types
 are the same node exactly when they were asked for with the same arguments.
 */
module Interning {
  import opened Wrappers

  const BUCKETS := 256

  /** What a node was built from. A base node is a scalar or an aggregate, made outside the table. */
  datatype Shape =
    | Base(kind: int)
    | Pointer(pointee: Node, qual: int)
    | Array(elem: Node, count: int)
    | Unsized(elem: Node)
    | Func(ret: Node, params: seq<Param>, n: nat, variadic: bool)

  datatype Param = Param(ty: Node, name: Option<string>)

  class Node {
    const addr: bv64
    const shape: Shape

    constructor (addr: bv64, shape: Shape)
      ensures this.addr == addr && this.shape == shape
    {
      this.addr, this.shape := addr, shape;
    }
  }

  // ----- hashing -----

  function Word(n: int): bv64 {
    (n % 0x1_0000_0000_0000_0000) as bv64
  }

  function PtrHash(a: bv64, b: bv64): (slot: nat)
    ensures slot < BUCKETS
  {
    var h := a ^ (a >> 16) ^ b ^ (b >> 8);
    (h & 0xFF) as bv8 as nat
  }

  function Slot(s: Shape): (slot: nat)
    ensures slot < BUCKETS
  {
    match s
    case Base(_) => 0
    case Pointer(p, q) => PtrHash(p.addr, Word(q))
    case Array(e, n) => PtrHash(e.addr, Word(n))
    case Unsized(e) => PtrHash(e.addr, 0xFFFF)
    case Func(r, _, n, v) => PtrHash(r.addr, Word(2 * n) | if v then 1 else 0)
  }

  class TypeTable {
    const buckets: array<seq<Node>>
    /** The node of every shape built so far. */
    ghost var nodes: map<Shape, Node>
    /** Every call so far, with what it returned. */
    ghost var calls: seq<(Shape, Node)>

    ghost predicate Valid()
      reads this, buckets
    {
      && buckets.Length == BUCKETS
      && (forall b, k :: 0 <= b < BUCKETS && 0 <= k < |buckets[b]| ==>
            var n := buckets[b][k]; Slot(n.shape) == b && n.shape in nodes && nodes[n.shape] == n)
      && (forall b, k, l :: 0 <= b < BUCKETS && 0 <= k < l < |buckets[b]| ==> buckets[b][k] != buckets[b][l])
      && (forall s :: s in nodes ==> nodes[s].shape == s && nodes[s] in buckets[Slot(s)])
      && (forall i :: 0 <= i < |calls| ==> calls[i].0 in nodes && nodes[calls[i].0] == calls[i].1)
    }

    constructor ()
      ensures Valid() && fresh(buckets) && calls == [] && nodes == map[]
    {
      buckets := new seq<Node>[BUCKETS](_ => []);
      nodes, calls := map[], [];
    }

    /** One call: the shape's node, built on the first call for that shape and never again. */
    twostate predicate Returned(s: Shape, new t: Node)
      reads this, buckets
    {
      && Valid() && calls == old(calls) + [(s, t)] && t.shape == s
      && (if s in old(nodes) then t == old(nodes)[s] && nodes == old(nodes) && buckets[..] == old(buckets[..])
          else nodes == old(nodes)[s := t] && fresh(t)
               && buckets[..] == old(buckets[..])[Slot(s) := [t] + old(buckets[Slot(s)])])
    }

    method TypePointer(pointee: Node, qual: int, addr: bv64) returns (t: Node)
      requires Valid()
      modifies this, buckets
      ensures Returned(Pointer(pointee, qual), t)
    {
      hide PtrHash, Word;
      var slot := PtrHash(pointee.addr, Word(qual));
      var s := Pointer(pointee, qual);
      var chain := buckets[slot];
      for i := 0 to |chain|
        invariant forall k :: 0 <= k < i ==> chain[k].shape != s
      {
        t := chain[i];
        if t.shape.Pointer? && t.shape.pointee == pointee && t.shape.qual == qual {
          calls := calls + [(s, t)];
          return;
        }
      }
      t := Insert(slot, s, addr);
    }

    method TypeArray(elem: Node, count: int, addr: bv64) returns (t: Node)
      requires Valid()
      modifies this, buckets
      ensures Returned(Array(elem, count), t)
    {
      hide PtrHash, Word;
      var slot := PtrHash(elem.addr, Word(count));
      var s := Array(elem, count);
      var chain := buckets[slot];
      for i := 0 to |chain|
        invariant forall k :: 0 <= k < i ==> chain[k].shape != s
      {
        t := chain[i];
        if t.shape.Array? && t.shape.elem == elem && t.shape.count == count {
          calls := calls + [(s, t)];
          return;
        }
      }
      t := Insert(slot, s, addr);
    }

    method TypeArrayUnsized(elem: Node, addr: bv64) returns (t: Node)
      requires Valid()
      modifies this, buckets
      ensures Returned(Unsized(elem), t)
    {
      hide PtrHash, Word;
      var slot := PtrHash(elem.addr, 0xFFFF);
      var s := Unsized(elem);
      var chain := buckets[slot];
      for i := 0 to |chain|
        invariant forall k :: 0 <= k < i ==> chain[k].shape != s
      {
        t := chain[i];
        if t.shape.Unsized? && t.shape.elem == elem {
          calls := calls + [(s, t)];
          return;
        }
      }
      t := Insert(slot, s, addr);
    }

    method TypeFunc(ret: Node, params: seq<Param>, n: nat, variadic: bool, addr: bv64) returns (t: Node)
      requires Valid()
      modifies this, buckets
      ensures Returned(Func(ret, params, n, variadic), t)
    {
      hide PtrHash, Word;
      var slot := PtrHash(ret.addr, Word(2 * n) | if variadic then 1 else 0);
      var s := Func(ret, params, n, variadic);
      var chain := buckets[slot];
      for i := 0 to |chain|
        invariant forall k :: 0 <= k < i ==> chain[k].shape != s
      {
        t := chain[i];
        if !t.shape.Func? { continue; }
        if t.shape.ret != ret { continue; }
        if t.shape.n != n { continue; }
        if t.shape.variadic != variadic { continue; }
        var tp, np, same := 0, 0, true;
        while tp < |t.shape.params| && np < |params| && same
          invariant 0 <= tp == np <= |params| && tp <= |t.shape.params|
          invariant same <==> t.shape.params[..tp] == params[..np]
        {
          same := t.shape.params[tp].ty == params[np].ty && t.shape.params[tp].name == params[np].name;
          assert t.shape.params[..tp + 1] == t.shape.params[..tp] + [t.shape.params[tp]];
          assert params[..np + 1] == params[..np] + [params[np]];
          tp, np := tp + 1, np + 1;
        }
        assert same && tp == |t.shape.params| == |params| ==> t.shape.params == params[..np] == params;
        if same && tp == |t.shape.params| && np == |params| {
          calls := calls + [(s, t)];
          return;
        }
      }
      t := Insert(slot, s, addr);
    }

    /** A new node at the head of its bucket. The arena supplies the address. */
    method Insert(slot: nat, s: Shape, addr: bv64) returns (t: Node)
      requires Valid() && slot == Slot(s)
      requires forall k :: 0 <= k < |buckets[slot]| ==> buckets[slot][k].shape != s
      modifies this, buckets
      ensures s !in old(nodes) && Returned(s, t)
    {
      t := new Node(addr, s);
      buckets[slot] := [t] + buckets[slot];
      nodes := nodes[s := t];
      calls := calls + [(s, t)];
    }
  }

  /** Over any run of calls, two of them returned the same node exactly when they asked for the same type. */
  lemma Canonical(tt: TypeTable, i: nat, j: nat)
    requires tt.Valid() && i < |tt.calls| && j < |tt.calls|
    ensures tt.calls[i].1 == tt.calls[j].1 <==> tt.calls[i].0 == tt.calls[j].0
  {
    var s, t := tt.calls[i].0, tt.calls[j].0;
    assert tt.nodes[s].shape == s && tt.nodes[t].shape == t;
  }

  /** No type is in the table twice. */
  lemma NoDuplicates(tt: TypeTable, b: nat, k: nat, c: nat, l: nat)
    requires tt.Valid() && b < BUCKETS && c < BUCKETS && k < |tt.buckets[b]| && l < |tt.buckets[c]|
    requires tt.buckets[b][k].shape == tt.buckets[c][l].shape
    ensures b == c && k == l
  {
  }
}
