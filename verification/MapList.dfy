/**
 * The sorted intrusive list of module/list.c on heap nodes, and what it means: per address, a
 * stack of nodes, most recently inserted first.
 */
module MapList {

  const EEXIST := -17

  /** struct map_list_head; the address is set once, by list_init. */
  class Node {
    var next: Node?
    var prev: Node?
    const vaddr: nat

    /** list_init */
    constructor (vaddr: nat)
      ensures next == null && prev == null && this.vaddr == vaddr
    {
      next, prev, this.vaddr := null, null, vaddr;
    }
  }

  /** Addresses never decrease after the head, whose own address is 0; nodes are distinct. */
  ghost predicate Sorted(nodes: seq<Node>) {
    && |nodes| >= 1 && nodes[0].vaddr == 0
    && (forall i, j | 0 <= i < j < |nodes| :: nodes[i] != nodes[j] && nodes[i].vaddr <= nodes[j].vaddr)
    && (forall i | 1 <= i < |nodes| :: nodes[i].vaddr > 0)
  }

  /** The pointers thread exactly these nodes, both ways. */
  ghost predicate Linked(nodes: seq<Node>)
    requires |nodes| >= 1
    reads nodes
  {
    && nodes[0].prev == null && nodes[|nodes| - 1].next == null
    && (forall i {:trigger nodes[i].next} | 0 <= i < |nodes| - 1 :: nodes[i].next == nodes[i + 1])
    && (forall i {:trigger nodes[i].prev} | 0 < i < |nodes| :: nodes[i].prev == nodes[i - 1])
  }

  /** The nodes of address v, in list order. */
  ghost function At(nodes: seq<Node>, v: nat): seq<Node> {
    if nodes == [] then [] else (if nodes[0].vaddr == v then [nodes[0]] else []) + At(nodes[1..], v)
  }

  /** What the list stores for v: a stack, top first. */
  ghost function Stack(nodes: seq<Node>, v: nat): seq<Node>
    requires |nodes| >= 1
  {
    At(nodes[1..], v)
  }

  lemma {:induction false} AtConcat(a: seq<Node>, b: seq<Node>, v: nat)
    ensures At(a + b, v) == At(a, v) + At(b, v)
  {
    if a == [] { assert a + b == b; } else {
      AtConcat(a[1..], b, v);
      assert (a + b)[1..] == a[1..] + b;
      var top := if a[0].vaddr == v then [a[0]] else [];
      assert At(a, v) == top + At(a[1..], v);
      assert At(a + b, v) == top + At(a[1..] + b, v);
      assert top + (At(a[1..], v) + At(b, v)) == (top + At(a[1..], v)) + At(b, v);
    }
  }

  lemma {:induction false} AtNone(a: seq<Node>, v: nat)
    requires forall i | 0 <= i < |a| :: a[i].vaddr != v
    ensures At(a, v) == []
  {
    if a != [] { AtNone(a[1..], v); }
  }

  // ---------------------------------------------------------------- operations

  /** list_find: the top of the address's stack, or NULL exactly when the stack is empty. */
  method ListFind(head: Node, vaddr: nat, ghost nodes: seq<Node>) returns (found: Node?)
    requires Sorted(nodes) && Linked(nodes) && nodes[0] == head
    ensures if Stack(nodes, vaddr) == [] then found == null else found == Stack(nodes, vaddr)[0]
  {
    ghost var i := 0;
    var ptr := head.next;
    while ptr != null && ptr.vaddr <= vaddr
      invariant 0 <= i < |nodes|
      invariant ptr == if i + 1 < |nodes| then nodes[i + 1] else null
      invariant forall j | 1 <= j <= i :: nodes[j].vaddr < vaddr
      decreases |nodes| - i
    {
      if ptr.vaddr == vaddr {
        StackAt(nodes, vaddr, i + 1);
        return ptr;
      }
      ptr := ptr.next;
      i := i + 1;
    }
    StackAt(nodes, vaddr, i + 1);
    AtNone(nodes[i + 1..], vaddr);
    return null;
  }

  /** Skipping nodes of smaller addresses does not change a stack. */
  lemma StackAt(nodes: seq<Node>, v: nat, k: nat)
    requires 1 <= k <= |nodes| && (forall j | 1 <= j < k :: nodes[j].vaddr < v)
    ensures Stack(nodes, v) == At(nodes[k..], v)
  {
    assert nodes[1..] == nodes[1..k] + nodes[k..];
    AtConcat(nodes[1..k], nodes[k..], v);
    AtNone(nodes[1..k], v);
  }

  /**
   * list_insert: refuses address 0 (the head's own); otherwise the node goes in after the strictly
   * smaller addresses, whose number is returned, and so before any node of the same address.
   */
  method ListInsert(head: Node, node: Node, ghost nodes: seq<Node>) returns (count: int)
    requires Sorted(nodes) && Linked(nodes) && nodes[0] == head && node !in nodes
    modifies nodes, node
    ensures count == if node.vaddr == 0 then EEXIST else Smaller(nodes[1..], node.vaddr)
    ensures node.vaddr == 0 ==> Linked(nodes) && unchanged(node)
    ensures node.vaddr > 0 ==> Linked(Inserted(nodes, node))
  {
    count := 0;
    var curr := head;
    var next := curr.next;
    while next != null && next.vaddr < node.vaddr
      invariant 0 <= count < |nodes| && curr == nodes[count]
      invariant next == if count + 1 < |nodes| then nodes[count + 1] else null
      invariant forall j | 1 <= j <= count :: nodes[j].vaddr < node.vaddr
      invariant Linked(nodes) && unchanged(node)
      decreases |nodes| - count
    {
      curr := next;
      next := next.next;
      count := count + 1;
    }
    SmallerIs(nodes, node.vaddr, count);
    if curr.vaddr == node.vaddr {
      return EEXIST;
    }
    Splice(curr, node, next, nodes, count);
  }

  /** The pointer stores of list_insert, between nodes k and k + 1. */
  method Splice(curr: Node, node: Node, next: Node?, ghost nodes: seq<Node>, ghost k: nat)
    requires Sorted(nodes) && Linked(nodes) && node !in nodes && k < |nodes|
    requires curr == nodes[k] && next == if k + 1 < |nodes| then nodes[k + 1] else null
    modifies nodes, node
    ensures Linked(nodes[..k + 1] + [node] + nodes[k + 1..])
  {
    hide Sorted;
    Unlike(nodes, k);
    if next != null { Unlike(nodes, k + 1); }
    curr.next := node;
    node.prev := curr;
    node.next := next;
    if next != null {
      next.prev := node;
    }
    ghost var ns := nodes[..k + 1] + [node] + nodes[k + 1..];
    forall i | 0 <= i < |ns| - 1 ensures ns[i].next == ns[i + 1] {
      if i < k { assert ns[i] == nodes[i] && ns[i + 1] == nodes[i + 1]; }
      if i > k + 1 { assert ns[i] == nodes[i - 1] && ns[i + 1] == nodes[i]; }
    }
    forall i | 0 < i < |ns| ensures ns[i].prev == ns[i - 1] {
      if i <= k { assert ns[i] == nodes[i] && ns[i - 1] == nodes[i - 1]; }
      if i > k + 2 { assert ns[i] == nodes[i - 1] && ns[i - 1] == nodes[i - 2]; }
    }
  }

  lemma Unlike(nodes: seq<Node>, k: nat)
    requires Sorted(nodes) && k < |nodes|
    ensures forall i | 0 <= i < |nodes| && i != k :: nodes[i] != nodes[k]
  {}

  /** Nodes of strictly smaller address. */
  ghost function Smaller(nodes: seq<Node>, v: nat): nat {
    if nodes == [] then 0 else (if nodes[0].vaddr < v then 1 else 0) + Smaller(nodes[1..], v)
  }

  ghost function Inserted(nodes: seq<Node>, node: Node): seq<Node>
    requires |nodes| >= 1
  {
    SmallerBound(nodes[1..], node.vaddr);
    var k := Smaller(nodes[1..], node.vaddr) + 1;
    nodes[..k] + [node] + nodes[k..]
  }

  lemma {:induction false} SmallerBound(nodes: seq<Node>, v: nat)
    ensures Smaller(nodes, v) <= |nodes|
  {
    if nodes != [] { SmallerBound(nodes[1..], v); }
  }

  /** In a sorted list the smaller nodes are a prefix. */
  lemma {:induction false} SmallerPrefix(nodes: seq<Node>, v: nat, k: nat)
    requires k <= |nodes| && (forall j | 0 <= j < k :: nodes[j].vaddr < v) && (forall j | k <= j < |nodes| :: nodes[j].vaddr >= v)
    ensures Smaller(nodes, v) == k
  {
    if nodes != [] { SmallerPrefix(nodes[1..], v, if k > 0 then k - 1 else 0); }
  }

  lemma SmallerIs(nodes: seq<Node>, v: nat, k: nat)
    requires Sorted(nodes) && k < |nodes| && (forall j | 1 <= j <= k :: nodes[j].vaddr < v)
    requires k + 1 < |nodes| ==> nodes[k + 1].vaddr >= v
    ensures Smaller(nodes[1..], v) == k
  {
    SmallerPrefix(nodes[1..], v, k);
  }

  /** list_remove on any node but the head: exactly that node leaves the list. */
  method ListRemove(node: Node, ghost nodes: seq<Node>, ghost k: nat)
    requires Sorted(nodes) && Linked(nodes) && 1 <= k < |nodes| && nodes[k] == node
    modifies nodes
    ensures Linked(nodes[..k] + nodes[k + 1..]) && node.next == null && node.prev == null
  {
    var next := node.next;
    var prev := node.prev;
    if prev != null {
      prev.next := next;
    }
    if next != null {
      next.prev := prev;
    }
    node.next := null;
    node.prev := null;
    ghost var ns := nodes[..k] + nodes[k + 1..];
    forall i | 0 <= i < |ns| - 1 ensures ns[i].next == ns[i + 1] {
      if i < k - 1 { assert ns[i] == nodes[i] && ns[i + 1] == nodes[i + 1]; }
      if i >= k { assert ns[i] == nodes[i + 1] && ns[i + 1] == nodes[i + 2]; }
    }
    forall i | 0 < i < |ns| ensures ns[i].prev == ns[i - 1] {
      if i < k { assert ns[i] == nodes[i] && ns[i - 1] == nodes[i - 1]; }
      if i > k { assert ns[i] == nodes[i + 1] && ns[i - 1] == nodes[i]; }
    }
  }

  // ---------------------------------------------------------------- the list as a map of stacks

  lemma InsertSorted(nodes: seq<Node>, node: Node)
    requires Sorted(nodes) && node !in nodes && node.vaddr > 0
    ensures Sorted(Inserted(nodes, node))
  {
    var k := Split(nodes, node.vaddr);
    var ns := Inserted(nodes, node);
    forall i, j | 0 <= i < j < |ns| ensures ns[i] != ns[j] && ns[i].vaddr <= ns[j].vaddr {
      var a, b := if i < k then i else i - 1, if j < k then j else j - 1;
      if i == k { assert ns[j] == nodes[b]; } else if j == k { assert ns[i] == nodes[a]; }
      else { assert ns[i] == nodes[a] && ns[j] == nodes[b]; }
    }
  }

  /** Inserting pushes onto the stack of the node's address alone. */
  lemma InsertPushes(nodes: seq<Node>, node: Node, v: nat)
    requires Sorted(nodes) && node !in nodes && node.vaddr > 0
    ensures Stack(Inserted(nodes, node), v) == (if v == node.vaddr then [node] + Stack(nodes, v) else Stack(nodes, v))
  {
    var k := Split(nodes, node.vaddr);
    var a, b := nodes[1..k], nodes[k..];
    assert nodes[1..] == a + b;
    assert Inserted(nodes, node)[1..] == a + ([node] + b);
    AtConcat(a, b, v);
    AtConcat(a, [node] + b, v);
    AtOne(node, b, v);
    if v == node.vaddr { AtNone(a, v); }
  }

  lemma AtOne(node: Node, b: seq<Node>, v: nat)
    ensures At([node] + b, v) == (if node.vaddr == v then [node] else []) + At(b, v)
  {
    assert ([node] + b)[1..] == b;
  }

  /** Where the strictly smaller addresses end. */
  lemma Split(nodes: seq<Node>, v: nat) returns (k: nat)
    requires Sorted(nodes) && v > 0
    ensures 1 <= k <= |nodes| && k == Smaller(nodes[1..], v) + 1
    ensures (forall j | 0 <= j < k :: nodes[j].vaddr < v) && (forall j | k <= j < |nodes| :: nodes[j].vaddr >= v)
  {
    k := 1;
    while k < |nodes| && nodes[k].vaddr < v
      invariant 1 <= k <= |nodes| && forall j | 0 <= j < k :: nodes[j].vaddr < v
    {
      k := k + 1;
    }
    SmallerIs(nodes, v, k - 1);
  }

  lemma RemoveSorted(nodes: seq<Node>, k: nat)
    requires Sorted(nodes) && 1 <= k < |nodes|
    ensures Sorted(nodes[..k] + nodes[k + 1..])
  {
    var ns := nodes[..k] + nodes[k + 1..];
    forall i | 0 <= i < |ns| ensures ns[i] == nodes[if i < k then i else i + 1] {}
  }

  /** Removing node k takes just that node out of its address's stack. */
  lemma RemoveTakes(nodes: seq<Node>, k: nat, v: nat)
    requires 1 <= k < |nodes|
    ensures var a, b := At(nodes[1..k], v), At(nodes[k + 1..], v);
            && Stack(nodes, v) == a + (if v == nodes[k].vaddr then [nodes[k]] else []) + b
            && Stack(nodes[..k] + nodes[k + 1..], v) == a + b
  {
    hide At;
    var a, b, top := nodes[1..k], nodes[k + 1..], [nodes[k]];
    assert nodes[1..] == a + (top + b);
    assert (nodes[..k] + nodes[k + 1..])[1..] == a + b;
    AtConcat(a, top + b, v);
    AtOne(nodes[k], b, v);
    AtConcat(a, b, v);
  }
}
