/**
 * The expression tree of representation.h and representation.cc. Nodes are
 * linked into sequences by `next`/`previous`; an And or Or node may own a
 * child sequence through `child`. A `Tree` builds such a structure by
 * appending: `current` is the node new siblings go after, and `stack` holds
 * the And/Or nodes whose child sequence is being built.
 *
 * Pointers are indices into the tree's arena `nodes`; `new` appends a fresh
 * node to the arena. Links always point forwards in the arena, which is what
 * makes every walk along them finish.
 */
module Representation {
  import opened Wrappers

  /** `NodeTypes::TYPES`. */
  const NodeNull: nat := 0
  const NodeUndefined: nat := 1
  const NodeAnd: nat := 2
  const NodeOr: nat := 3
  const NodeNot: nat := 4
  const NodeOp: nat := 5
  const NodeUpperBound: nat := 6

  /** The four node classes; an `Op` carries the predicate name and its parameters. */
  datatype Kind = And | Or | Not | Op(name: seq<char>, parameters: seq<seq<char>>)

  datatype Node = Node(kind: Kind, next: Option<nat>, previous: Option<nat>, child: Option<nat>)

  /** `type()` of each node class. */
  function Type(n: Node): (t: nat)
    ensures NodeUndefined < t < NodeUpperBound
    ensures t == NodeAnd <==> n.kind.And?
    ensures t == NodeOr <==> n.kind.Or?
    ensures t == NodeNot <==> n.kind.Not?
    ensures t == NodeOp <==> n.kind.Op?
  {
    match n.kind
    case And => NodeAnd
    case Or => NodeOr
    case Not => NodeNot
    case Op(_, _) => NodeOp
  }

  /** `hasChild()`: only an And or Or node with a child sequence has one. */
  predicate HasChild(n: Node) {
    (n.kind.And? || n.kind.Or?) && n.child.Some?
  }

  /** A node as `new` makes it: no links. */
  function Fresh(k: Kind): (n: Node)
    ensures !HasChild(n) && n.next.None? && n.previous.None?
  {
    Node(k, None, None, None)
  }

  /** The `Op(name, p, s)` constructors: the first s parameters of the array p, in order. */
  function MakeOp(name: seq<char>, p: seq<seq<char>>, s: nat): (k: Kind)
    requires s <= |p|
    ensures k.Op? && k.name == name && |k.parameters| == s
    ensures forall i :: 0 <= i < s ==> k.parameters[i] == p[i]
  {
    Op(name, p[..s])
  }

  /**
   * The links around node k are consistent: `next` and `child` point forwards
   * to nodes whose `previous` points back at k, only And and Or nodes have a
   * child, a node's child is not also its successor, and `previous` points
   * backwards at the node that links to k.
   */
  predicate LinkOk(nodes: seq<Node>, k: nat)
    requires k < |nodes|
  {
    var n := nodes[k];
    (n.next.Some? ==> k < n.next.value < |nodes| && nodes[n.next.value].previous == Some(k))
    && (n.child.Some? ==> (n.kind.And? || n.kind.Or?) && k < n.child.value < |nodes|
                          && nodes[n.child.value].previous == Some(k) && n.next != n.child)
    && (n.previous.Some? ==> n.previous.value < k
                             && (nodes[n.previous.value].next == Some(k) || nodes[n.previous.value].child == Some(k)))
  }

  predicate Linked(nodes: seq<Node>) {
    forall k | 0 <= k < |nodes| :: LinkOk(nodes, k)
  }

  /** The sequence of nodes from i along `next`. */
  function Chain(nodes: seq<Node>, i: nat): (c: seq<nat>)
    requires Linked(nodes) && i < |nodes|
    ensures |c| >= 1 && c[0] == i
    decreases |nodes| - i
  {
    assert LinkOk(nodes, i);
    match nodes[i].next
    case None => [i]
    case Some(n) => [i] + Chain(nodes, n)
  }

  /** The last node of the sequence from i. */
  function Last(nodes: seq<Node>, i: nat): (l: nat)
    requires Linked(nodes) && i < |nodes|
    ensures i <= l < |nodes| && nodes[l].next.None?
    decreases |nodes| - i
  {
    assert LinkOk(nodes, i);
    match nodes[i].next
    case None => i
    case Some(n) => Last(nodes, n)
  }

  /** Every node of a sequence lies at or after its first node and inside the arena. */
  lemma {:induction false} ChainInside(nodes: seq<Node>, i: nat)
    requires Linked(nodes) && i < |nodes|
    ensures forall k :: 0 <= k < |Chain(nodes, i)| ==> i <= Chain(nodes, i)[k] < |nodes|
    decreases |nodes| - i
  {
    assert LinkOk(nodes, i);
    if nodes[i].next.Some? {
      ChainInside(nodes, nodes[i].next.value);
    }
  }

  /** `Last` is the final node of `Chain`, and only the final node has no successor. */
  lemma {:induction false} LastEndsChain(nodes: seq<Node>, i: nat)
    requires Linked(nodes) && i < |nodes|
    ensures Last(nodes, i) == Chain(nodes, i)[|Chain(nodes, i)| - 1]
    ensures forall k :: 0 <= k < |Chain(nodes, i)| - 1 ==>
              Chain(nodes, i)[k] < |nodes| && nodes[Chain(nodes, i)[k]].next == Some(Chain(nodes, i)[k + 1])
    decreases |nodes| - i
  {
    assert LinkOk(nodes, i);
    ChainInside(nodes, i);
    if nodes[i].next.Some? {
      LastEndsChain(nodes, nodes[i].next.value);
    }
  }

  /**
   * The order in which `clean(i)` deletes: along the sequence from i, the
   * child sequence of a node first, then the node.
   */
  function Freed(nodes: seq<Node>, i: nat): (f: seq<nat>)
    requires Linked(nodes) && i < |nodes|
    decreases |nodes| - i
  {
    assert LinkOk(nodes, i);
    (if nodes[i].child.Some? then Freed(nodes, nodes[i].child.value) else [])
    + [i]
    + (if nodes[i].next.Some? then Freed(nodes, nodes[i].next.value) else [])
  }

  /** x can be reached from i by following `next` and `child` links. */
  predicate Reach(nodes: seq<Node>, i: nat, x: nat)
    requires Linked(nodes) && i < |nodes|
    decreases |nodes| - i
  {
    assert LinkOk(nodes, i);
    x == i
    || (nodes[i].next.Some? && Reach(nodes, nodes[i].next.value, x))
    || (nodes[i].child.Some? && Reach(nodes, nodes[i].child.value, x))
  }

  /** `clean(i)` deletes exactly the nodes reachable from i. */
  lemma {:induction false} FreedIsReach(nodes: seq<Node>, i: nat, x: nat)
    requires Linked(nodes) && i < |nodes|
    ensures x in Freed(nodes, i) <==> Reach(nodes, i, x)
    decreases |nodes| - i
  {
    assert LinkOk(nodes, i);
    if nodes[i].child.Some? {
      FreedIsReach(nodes, nodes[i].child.value, x);
    }
    if nodes[i].next.Some? {
      FreedIsReach(nodes, nodes[i].next.value, x);
    }
  }

  /** Links point forwards, so everything reachable from i lies at or after i. */
  lemma {:induction false} ReachForwards(nodes: seq<Node>, i: nat, x: nat)
    requires Linked(nodes) && i < |nodes| && Reach(nodes, i, x)
    ensures i <= x < |nodes|
    decreases |nodes| - i
  {
    assert LinkOk(nodes, i);
    if x != i {
      if nodes[i].next.Some? && Reach(nodes, nodes[i].next.value, x) {
        ReachForwards(nodes, nodes[i].next.value, x);
      } else {
        ReachForwards(nodes, nodes[i].child.value, x);
      }
    }
  }

  /** Every node reached from a, other than a, is entered from its `previous` node, which a also reaches. */
  lemma {:induction false} ReachBack(nodes: seq<Node>, a: nat, y: nat)
    requires Linked(nodes) && a < |nodes| && Reach(nodes, a, y) && y != a
    ensures y < |nodes| && nodes[y].previous.Some? && Reach(nodes, a, nodes[y].previous.value)
    decreases |nodes| - a
  {
    assert LinkOk(nodes, a);
    ReachForwards(nodes, a, y);
    if nodes[a].next.Some? && Reach(nodes, nodes[a].next.value, y) {
      var n := nodes[a].next.value;
      if y != n {
        ReachBack(nodes, n, y);
      }
    } else {
      var c := nodes[a].child.value;
      if y != c {
        ReachBack(nodes, c, y);
      }
    }
  }

  /** Two nodes reaching a common node lie on one path: one of them reaches the other. */
  lemma {:induction false} ReachMeets(nodes: seq<Node>, a: nat, b: nat, x: nat)
    requires Linked(nodes) && a < |nodes| && b < |nodes|
    requires Reach(nodes, a, x) && Reach(nodes, b, x)
    ensures Reach(nodes, a, b) || Reach(nodes, b, a)
    decreases x
  {
    if x != a && x != b {
      ReachBack(nodes, a, x);
      ReachBack(nodes, b, x);
      assert LinkOk(nodes, x);
      ReachMeets(nodes, a, b, nodes[x].previous.value);
    }
  }

  /** No position of s holds the same node as another. */
  predicate Distinct(s: seq<nat>) {
    forall p, q | 0 <= p < q < |s| :: s[p] != s[q]
  }

  lemma DistinctConcat(s: seq<nat>, t: seq<nat>)
    requires Distinct(s) && Distinct(t)
    requires forall x :: x in s ==> x !in t
    ensures Distinct(s + t)
  {
    var u := s + t;
    forall p, q | 0 <= p < q < |u| ensures u[p] != u[q] {
      if p < |s| && q >= |s| {
        assert u[p] in s && u[q] == t[q - |s|];
      }
    }
  }

  /** A node's child sequence and its successors share no node. */
  lemma SiblingsApart(nodes: seq<Node>, i: nat, x: nat)
    requires Linked(nodes) && i < |nodes| && LinkOk(nodes, i)
    requires nodes[i].child.Some? && nodes[i].next.Some?
    ensures !(Reach(nodes, nodes[i].child.value, x) && Reach(nodes, nodes[i].next.value, x))
  {
    assert LinkOk(nodes, i);
    var c, n := nodes[i].child.value, nodes[i].next.value;
    if Reach(nodes, c, x) && Reach(nodes, n, x) {
      ReachMeets(nodes, c, n, x);
      if Reach(nodes, c, n) {
        ReachBack(nodes, c, n);
        ReachForwards(nodes, c, i);
      } else {
        ReachBack(nodes, n, c);
        ReachForwards(nodes, n, i);
      }
    }
  }

  /** `clean(i)` deletes no node twice. */
  lemma {:induction false} FreedOnce(nodes: seq<Node>, i: nat)
    requires Linked(nodes) && i < |nodes|
    ensures Distinct(Freed(nodes, i))
    decreases |nodes| - i
  {
    assert LinkOk(nodes, i);
    var c := if nodes[i].child.Some? then Freed(nodes, nodes[i].child.value) else [];
    var n := if nodes[i].next.Some? then Freed(nodes, nodes[i].next.value) else [];
    assert Freed(nodes, i) == c + [i] + n;
    forall x | x in c ensures x != i && x !in n {
      FreedIsReach(nodes, nodes[i].child.value, x);
      ReachForwards(nodes, nodes[i].child.value, x);
      if nodes[i].next.Some? {
        FreedIsReach(nodes, nodes[i].next.value, x);
        SiblingsApart(nodes, i, x);
      }
    }
    forall x | x in n ensures x != i {
      FreedIsReach(nodes, nodes[i].next.value, x);
      ReachForwards(nodes, nodes[i].next.value, x);
    }
    if nodes[i].child.Some? {
      FreedOnce(nodes, nodes[i].child.value);
    }
    if nodes[i].next.Some? {
      FreedOnce(nodes, nodes[i].next.value);
    }
    DistinctConcat(c, [i]);
    DistinctConcat(c + [i], n);
  }

  /** What `clean` deletes for the child sequence of node y: nothing when it has none. */
  function Kids(nodes: seq<Node>, y: nat): (f: seq<nat>)
    requires Linked(nodes) && y < |nodes|
  {
    assert LinkOk(nodes, y);
    if nodes[y].child.Some? then Freed(nodes, nodes[y].child.value) else []
  }

  /** What `clean` still deletes from position x of a sequence on: nothing past its end. */
  function Rest(nodes: seq<Node>, x: Option<nat>): (f: seq<nat>)
    requires Linked(nodes) && (x.Some? ==> x.value < |nodes|)
  {
    if x.Some? then Freed(nodes, x.value) else []
  }

  lemma FreedUnfold(nodes: seq<Node>, y: nat)
    requires Linked(nodes) && y < |nodes|
    ensures LinkOk(nodes, y)
    ensures Freed(nodes, y) == Kids(nodes, y) + [y] + Rest(nodes, nodes[y].next)
  {
    assert LinkOk(nodes, y);
  }

  /** One round of `clean`'s loop: node y's child sequence, then y, then what follows y. */
  lemma CleanStep(nodes: seq<Node>, i: nat, done: seq<nat>, y: nat)
    requires Linked(nodes) && i < |nodes| && y < |nodes| && LinkOk(nodes, y)
    requires done + Freed(nodes, y) == Freed(nodes, i)
    ensures done + Kids(nodes, y) + [y] + Rest(nodes, nodes[y].next) == Freed(nodes, i)
  {
    FreedUnfold(nodes, y);
    Regroup(done, Kids(nodes, y), [y], Rest(nodes, nodes[y].next));
  }

  lemma Regroup(a: seq<nat>, b: seq<nat>, c: seq<nat>, d: seq<nat>)
    ensures a + b + c + d == a + (b + c + d)
  {
  }

  /**
   * `clean(i)`: walks the sequence from i, cleaning each node's child
   * sequence before deleting the node; the successor is read before the
   * node is deleted. The deletions are returned in order.
   */
  method Clean(nodes: seq<Node>, i: nat) returns (freed: seq<nat>)
    requires Linked(nodes) && i < |nodes|
    ensures freed == Freed(nodes, i)
    decreases |nodes| - i, 0
  {
    freed := [];
    var x: Option<nat> := Some(i);
    var j := nodes[i].next;
    while x.Some?
      invariant x.Some? ==> i <= x.value < |nodes| && j == nodes[x.value].next
      invariant freed + Rest(nodes, x) == Freed(nodes, i)
      decreases if x.Some? then |nodes| - x.value else 0
    {
      var y := x.value;
      assert LinkOk(nodes, y);
      var kids: seq<nat> := [];
      if HasChild(nodes[y]) {
        kids := Clean(nodes, nodes[y].child.value);
      }
      assert kids == Kids(nodes, y);
      CleanStep(nodes, i, freed, y);
      freed := freed + kids + [y];
      x := j;
      if x.Some? {
        j := nodes[x.value].next;
      }
    }
  }

  class Tree {
    var nodes: seq<Node>
    var root: Option<nat>
    var current: Option<nat>
    /** The And/Or nodes whose child sequences are open, innermost last. */
    var stack: seq<nat>

    /**
     * The arena is consistently linked; the current node and every stacked
     * node end their sequences; the current node is not on the stack and no
     * node is stacked twice; a tree with a root has a current node.
     */
    ghost predicate Valid()
      reads this
    {
      Linked(nodes)
      && (root.Some? ==> root.value < |nodes| && current.Some?)
      && (current.Some? ==> current.value < |nodes| && nodes[current.value].next.None?
                            && current.value !in stack)
      && (forall k | 0 <= k < |stack| :: stack[k] < |nodes| && nodes[stack[k]].next.None?)
      && (forall p, q | 0 <= p < q < |stack| :: stack[p] != stack[q])
    }

    /** A new tree: no root, no current node, an empty stack. */
    constructor()
      ensures Valid()
      ensures nodes == [] && root.None? && current.None? && stack == []
    {
      nodes := [];
      root := None;
      current := None;
      stack := [];
    }

    /** `moveCurrent()`: follows `next` from the current node to the last node of its sequence. */
    method MoveCurrent()
      requires Linked(nodes) && current.Some? && current.value < |nodes|
      modifies this
      ensures nodes == old(nodes) && root == old(root) && stack == old(stack)
      ensures current == Some(Last(nodes, old(current).value))
    {
      ghost var start := current.value;
      while nodes[current.value].next.Some?
        invariant nodes == old(nodes) && root == old(root) && stack == old(stack)
        invariant current.Some? && start <= current.value < |nodes|
        invariant Last(nodes, current.value) == Last(nodes, start)
        decreases |nodes| - current.value
      {
        assert LinkOk(nodes, current.value);
        current := nodes[current.value].next;
      }
    }

    /**
     * `insert(new ...)`: into an empty tree the node becomes root and current;
     * otherwise it is linked after the current node and becomes current.
     * An empty tree must not have a current node.
     */
    method Insert(k: Kind)
      requires Valid()
      requires root.None? ==> current.None?
      modifies this
      ensures Valid()
      ensures var n := |old(nodes)|;
              current == Some(n) && stack == old(stack)
              && (old(root).None? ==> nodes == old(nodes) + [Fresh(k)] && root == Some(n))
              && (old(root).Some? ==>
                    var c := old(current).value;
                    nodes == old(nodes)[c := old(nodes)[c].(next := Some(n))] + [Node(k, None, Some(c), None)]
                    && root == old(root))
    {
      var n := |nodes|;
      if root.None? {
        nodes := nodes + [Fresh(k)];
        root := Some(n);
        current := Some(n);
        assert LinkOk(nodes, n);
        assert forall m | 0 <= m < n :: LinkOk(nodes, m) by {
          forall m | 0 <= m < n ensures LinkOk(nodes, m) {
            assert LinkOk(old(nodes), m);
          }
        }
      } else {
        var c := current.value;
        var old_nodes := nodes;
        nodes := nodes[c := nodes[c].(next := Some(n))] + [Node(k, None, Some(c), None)];
        forall m | 0 <= m < |nodes| ensures LinkOk(nodes, m) {
          if m < n {
            assert LinkOk(old_nodes, m);
          }
        }
        current := Some(n);
        MoveCurrent();
      }
    }

    /**
     * `insertChild(new ...)`: the current node must be an And or Or without a
     * child. The new node becomes its child sequence, the parent is pushed on
     * the stack, and the new node becomes current.
     */
    method InsertChild(k: Kind)
      requires Valid() && current.Some?
      requires nodes[current.value].kind.And? || nodes[current.value].kind.Or?
      requires nodes[current.value].child.None?
      modifies this
      ensures Valid()
      ensures var n, c := |old(nodes)|, old(current).value;
              nodes == old(nodes)[c := old(nodes)[c].(child := Some(n))] + [Node(k, None, Some(c), None)]
              && stack == old(stack) + [c] && current == Some(n) && root == old(root)
    {
      var n, c := |nodes|, current.value;
      var old_nodes := nodes;
      nodes := nodes[c := nodes[c].(child := Some(n))] + [Node(k, None, Some(c), None)];
      forall m | 0 <= m < |nodes| ensures LinkOk(nodes, m) {
        if m < n {
          assert LinkOk(old_nodes, m);
        }
      }
      stack := stack + [c];
      current := Some(n);
      MoveCurrent();
    }

    /** `parent()`: the stack must not be empty; its top node becomes current again. */
    method Parent()
      requires Valid() && |stack| > 0
      modifies this
      ensures Valid()
      ensures current == Some(old(stack)[|old(stack)| - 1])
      ensures stack == old(stack)[..|old(stack)| - 1]
      ensures nodes == old(nodes) && root == old(root)
    {
      current := Some(stack[|stack| - 1]);
      stack := stack[..|stack| - 1];
    }

    /**
     * `cleanAll()`: the tree must have a root; every node reachable from it
     * is deleted, in `clean` order, and root and current are cleared. The
     * stack is left as it is.
     */
    method CleanAll() returns (freed: seq<nat>)
      requires Valid() && root.Some?
      modifies this
      ensures nodes == old(nodes) && stack == old(stack)
      ensures Valid()
      ensures freed == old(Freed(nodes, root.value))
      ensures root.None? && current.None?
    {
      freed := Clean(nodes, root.value);
      root := None;
      current := None;
    }
  }

  /** `cleanAll(Forest&)`: every tree of the forest, in order, must have a root and is cleaned. */
  method CleanForest(forest: seq<Tree>) returns (freed: seq<seq<nat>>)
    requires forall p, q | 0 <= p < q < |forest| :: forest[p] != forest[q]
    requires forall k | 0 <= k < |forest| :: forest[k].Valid() && forest[k].root.Some?
    modifies set t | t in forest
    ensures |freed| == |forest|
    ensures forall k | 0 <= k < |forest| ::
              forest[k].Valid() && forest[k].root.None? && forest[k].current.None?
              && forest[k].nodes == old(forest[k].nodes) && forest[k].stack == old(forest[k].stack)
              && old(forest[k].root).Some? && old(forest[k].root).value < |forest[k].nodes|
                  && freed[k] == Freed(forest[k].nodes, old(forest[k].root).value)
  {
    freed := [];
    for k := 0 to |forest|
      invariant |freed| == k
      invariant forall m | 0 <= m < k ::
                  forest[m].Valid() && forest[m].root.None? && forest[m].current.None?
      invariant forall m | 0 <= m < k ::
                  forest[m].nodes == old(forest[m].nodes) && forest[m].stack == old(forest[m].stack)
      invariant forall m | 0 <= m < k ::
                  old(forest[m].root).Some? && old(forest[m].root).value < |forest[m].nodes|
      invariant forall m | 0 <= m < k ::
                  freed[m] == Freed(forest[m].nodes, old(forest[m].root).value)
      invariant forall m | k <= m < |forest| ::
                  forest[m].Valid() && forest[m].root.Some?
                  && forest[m].nodes == old(forest[m].nodes) && forest[m].root == old(forest[m].root)
                  && forest[m].stack == old(forest[m].stack)
    {
      assert forall m | 0 <= m < |forest| && m != k :: forest[m] != forest[k];
      var f := forest[k].CleanAll();
      freed := freed + [f];
    }
  }
}
