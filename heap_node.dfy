/**
 * The node of the tournament reducer: a tie-group of item ids and the nodes
 * already known to rank below it.
 */
module HeapNodes {

  /** An item (document) identifier. */
  type Id = string

  /**
   * A `HeapNode`. Every node lives in exactly one slot of the reducer's state,
   * so a value models the object faithfully.
   */
  datatype Node = Node(equivalenceClass: seq<Id>, children: seq<Node>)

  /** `new HeapNode(value)`: a singleton tie-group with nothing below it. */
  function Leaf(value: Id): Node
  {
    Node([value], [])
  }

  /** Every id held in a node's tree, with multiplicity. */
  function NodeIds(n: Node): multiset<Id>
    decreases n, 1
  {
    multiset(n.equivalenceClass) + ForestIds(n.children)
  }

  /** Every id held in a sequence of trees. */
  function ForestIds(ns: seq<Node>): multiset<Id>
    decreases ns, 0
  {
    if ns == [] then multiset{} else NodeIds(ns[0]) + ForestIds(ns[1..])
  }

  /** The number of nodes in a tree. */
  function Size(n: Node): (k: nat)
    ensures k >= 1
    decreases n, 1
  {
    1 + ForestSize(n.children)
  }

  /** The number of nodes in a sequence of trees. */
  function ForestSize(ns: seq<Node>): nat
    decreases ns, 0
  {
    if ns == [] then 0 else Size(ns[0]) + ForestSize(ns[1..])
  }

  lemma {:induction false} ForestAppend(xs: seq<Node>, ys: seq<Node>)
    ensures ForestIds(xs + ys) == ForestIds(xs) + ForestIds(ys)
    ensures ForestSize(xs + ys) == ForestSize(xs) + ForestSize(ys)
  {
    if xs != [] {
      assert (xs + ys)[1..] == xs[1..] + ys;
      ForestAppend(xs[1..], ys);
    } else {
      assert xs + ys == ys;
    }
  }

  /** `documents.map(d => new HeapNode(d))`. */
  function Leaves(values: seq<Id>): (ns: seq<Node>)
    ensures |ns| == |values|
    ensures forall i :: 0 <= i < |values| ==> ns[i] == Leaf(values[i])
  {
    seq(|values|, i requires 0 <= i < |values| => Leaf(values[i]))
  }

  /** Turning a list of ids into singleton nodes keeps every id, one node per id. */
  lemma {:induction false} LeavesIds(values: seq<Id>)
    ensures ForestIds(Leaves(values)) == multiset(values)
    ensures ForestSize(Leaves(values)) == |values|
  {
    if values != [] {
      LeavesIds(values[1..]);
      var ns := Leaves(values);
      assert ns[1..] == Leaves(values[1..]);
      LeafIds(values[0]);
      assert ns[0] == Leaf(values[0]);
      assert multiset(values) == multiset{values[0]} + multiset(values[1..]) by {
        assert values == [values[0]] + values[1..];
      }
    }
  }

  /** A new node holds exactly its one id and is a single node. */
  lemma LeafIds(value: Id)
    ensures NodeIds(Leaf(value)) == multiset{value} && Size(Leaf(value)) == 1
  {
    assert ForestIds(Leaf(value).children) == multiset{};
    assert ForestSize(Leaf(value).children) == 0;
  }

  /**
   * `HeapNode.equal`: the two nodes become one; its tie-group is the
   * receiver's followed by the other's, its children likewise.
   */
  function Equal(self: Node, other: Node): (n: Node)
    ensures NodeIds(n) == NodeIds(self) + NodeIds(other)
    ensures Size(n) == Size(self) + Size(other) - 1
    ensures n.equivalenceClass == self.equivalenceClass + other.equivalenceClass
    ensures n.children == self.children + other.children
  {
    ForestAppend(self.children, other.children);
    Node(self.equivalenceClass + other.equivalenceClass, self.children + other.children)
  }

  /**
   * `HeapNode.greaterThan`: the other node becomes the receiver's last child;
   * the receiver's tie-group is unchanged.
   */
  function GreaterThan(self: Node, other: Node): (n: Node)
    ensures n.equivalenceClass == self.equivalenceClass
    ensures |n.children| == |self.children| + 1
    ensures n.children[|self.children|] == other
    ensures n.children == self.children + [other]
    ensures NodeIds(n) == NodeIds(self) + NodeIds(other)
    ensures Size(n) == Size(self) + Size(other)
  {
    ForestAppend(self.children, [other]);
    Node(self.equivalenceClass, self.children + [other])
  }

  /** `HeapNode.lessThan`: the receiver becomes the other node's last child; the other node is the result. */
  function LessThan(self: Node, other: Node): (n: Node)
    ensures n.equivalenceClass == other.equivalenceClass
    ensures |n.children| == |other.children| + 1
    ensures n.children[|other.children|] == self
    ensures n.children == other.children + [self]
    ensures NodeIds(n) == NodeIds(self) + NodeIds(other)
    ensures Size(n) == Size(self) + Size(other)
  {
    GreaterThan(other, self)
  }
}
