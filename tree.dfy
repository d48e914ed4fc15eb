/**
 * The tree and its zipper (src/utils/tree.rs).
 *
 * A `Node` holds a value, an ordered list of children and an `index`
 * field. A `Zipper` focuses on one node: moving down with `Child` takes
 * child i out of its parent with `swap_remove` and remembers i; moving up
 * with `Parent` pushes the focus back and swaps it into slot i again, so the
 * parent's order of children is restored. `Finish` climbs to the root.
 */
module Tree {
  import opened Wrappers

  datatype Node<T> = Node(value: T, childs: seq<Node<T>>, index: nat)

  /** A focus, the zipper it was taken out of (if any), and its slot there. */
  datatype Zipper<T> = Zipper(node: Node<T>, parent: Option<Zipper<T>>, indexInParent: nat)

  // ---------------------------------------------------------------------------
  // The vector operations on a node's children
  // ---------------------------------------------------------------------------

  /** `Node::new`: no children, index 0. */
  function NewNode<T>(data: T): (n: Node<T>)
    ensures n.value == data && n.childs == [] && n.index == 0
  {
    Node(data, [], 0)
  }

  /** `len`: the number of children. */
  function Len<T>(n: Node<T>): nat
  {
    |n.childs|
  }

  /** `get`: child i, or `None` past the end. */
  function Get<T>(n: Node<T>, i: nat): (r: Option<Node<T>>)
    ensures r.Some? <==> i < Len(n)
    ensures r.Some? ==> r.value == n.childs[i]
  {
    if i < |n.childs| then Some(n.childs[i]) else None
  }

  /** `push`: one more child at the end. */
  function PushChild<T>(n: Node<T>, c: Node<T>): (r: Node<T>)
    ensures Len(r) == Len(n) + 1 && r.childs[..Len(n)] == n.childs && r.childs[Len(n)] == c
    ensures r.value == n.value && r.index == n.index
  {
    n.(childs := n.childs + [c])
  }

  /** `Vec::swap`: children a and b trade places; both must exist. */
  function SwapChildren<T>(n: Node<T>, a: nat, b: nat): (r: Node<T>)
    requires a < Len(n) && b < Len(n)
    ensures Len(r) == Len(n) && r.childs[a] == n.childs[b] && r.childs[b] == n.childs[a]
    ensures forall k :: 0 <= k < Len(n) && k != a && k != b ==> r.childs[k] == n.childs[k]
    ensures multiset(r.childs) == multiset(n.childs)
    ensures r.value == n.value && r.index == n.index
  {
    n.(childs := n.childs[a := n.childs[b]][b := n.childs[a]])
  }

  /** `Vec::remove`: child i taken out, the later ones shifted down. */
  function RemoveChild<T>(n: Node<T>, i: nat): (r: (Node<T>, Node<T>))
    requires i < Len(n)
    ensures r.1 == n.childs[i] && r.0.childs == n.childs[..i] + n.childs[i + 1..]
    ensures r.0.value == n.value && r.0.index == n.index
  {
    (n.(childs := n.childs[..i] + n.childs[i + 1..]), n.childs[i])
  }

  /** `Vec::swap_remove`: child i taken out and the last child moved into its slot. */
  function SwapRemove<T>(n: Node<T>, i: nat): (r: (Node<T>, Node<T>))
    requires i < Len(n)
    ensures r.1 == n.childs[i] && Len(r.0) == Len(n) - 1
    ensures forall k :: 0 <= k < Len(r.0) ==> r.0.childs[k] == if k == i then n.childs[Len(n) - 1] else n.childs[k]
    ensures r.0.value == n.value && r.0.index == n.index
  {
    var last := |n.childs| - 1;
    (n.(childs := if i == last then n.childs[..last] else n.childs[..last][i := n.childs[last]]), n.childs[i])
  }

  /** `swap_remove` loses no child: the rest and the removed child are the old children. */
  lemma SwapRemoveKeeps<T>(n: Node<T>, i: nat)
    requires i < Len(n)
    ensures var r := SwapRemove(n, i); multiset(r.0.childs) + multiset{r.1} == multiset(n.childs)
  {
    var last := |n.childs| - 1;
    var rest := SwapRemove(n, i).0.childs;
    assert n.childs == n.childs[..last] + [n.childs[last]];
    if i < last {
      assert rest == n.childs[..last][i := n.childs[last]];
      assert n.childs[..last] == rest[i := n.childs[i]];
      calc {
        multiset(n.childs);
        multiset(rest[i := n.childs[i]]) + multiset{n.childs[last]};
        multiset(rest) - multiset{n.childs[last]} + multiset{n.childs[i]} + multiset{n.childs[last]};
      }
    } else {
      assert rest == n.childs[..last];
    }
  }

  // ---------------------------------------------------------------------------
  // Zipper moves
  // ---------------------------------------------------------------------------

  /** `zipper()`: focus on the root, with no parent. */
  function Start<T>(n: Node<T>): (z: Zipper<T>)
    ensures z.node == n && z.parent.None? && z.indexInParent == 0
  {
    Zipper(n, None, 0)
  }

  /** `check_parent`: a parent frame exists. */
  predicate CheckParent<T>(z: Zipper<T>)
  {
    z.parent.Some?
  }

  /** `child(i)`: focus on child i, taken out of the node with `swap_remove`. */
  function Child<T>(z: Zipper<T>, i: nat): (r: Zipper<T>)
    requires i < Len(z.node)
    ensures r.node == z.node.childs[i] && r.indexInParent == i && CheckParent(r)
    ensures r.parent.value.parent == z.parent && r.parent.value.indexInParent == z.indexInParent
  {
    var (rest, child) := SwapRemove(z.node, i);
    Zipper(child, Some(z.(node := rest)), i)
  }

  /** `parent()` can run: a parent exists and the slot is in range once the focus is pushed back. */
  predicate CanClimb<T>(z: Zipper<T>)
  {
    z.parent.Some? && z.indexInParent <= Len(z.parent.value.node)
  }

  /** `parent()`: push the focus back into its parent and swap it into its old slot. */
  function Parent<T>(z: Zipper<T>): (r: Zipper<T>)
    requires CanClimb(z)
    ensures Len(r.node) == Len(z.parent.value.node) + 1 && r.node.childs[z.indexInParent] == z.node
    ensures r.parent == z.parent.value.parent && r.indexInParent == z.parent.value.indexInParent
    ensures Depth(r) + 1 == Depth(z)
  {
    var up := z.parent.value;
    var pushed := PushChild(up.node, z.node);
    Zipper(SwapChildren(pushed, z.indexInParent, Len(pushed) - 1), up.parent, up.indexInParent)
  }

  /** Going down to a child and back up gives back the zipper, children in their old order. */
  lemma ParentChild<T>(z: Zipper<T>, i: nat)
    requires i < Len(z.node)
    ensures CanClimb(Child(z, i)) && Parent(Child(z, i)) == z
  {
    var r := Parent(Child(z, i));
    assert r.node.childs == z.node.childs;
  }

  /** `push` then `child(len - 1)`: the pushed node is the focus and the old focus its parent frame, unchanged. */
  lemma PushFocus<T>(z: Zipper<T>, c: Node<T>)
    ensures var pushed := z.(node := PushChild(z.node, c));
            Child(pushed, Len(pushed.node) - 1) == Zipper(c, Some(z), Len(z.node))
  {
    var pushed := z.(node := PushChild(z.node, c));
    var r := Child(pushed, Len(pushed.node) - 1);
    assert r.parent.value.node.childs == z.node.childs;
  }

  /** `parent()` from the last slot appends the focus to the parent's children. */
  lemma ParentLast<T>(z: Zipper<T>)
    requires z.parent.Some? && z.indexInParent == Len(z.parent.value.node)
    ensures CanClimb(z)
    ensures Parent(z) == Zipper(PushChild(z.parent.value.node, z.node), z.parent.value.parent, z.parent.value.indexInParent)
  {
    assert Parent(z).node.childs == PushChild(z.parent.value.node, z.node).childs;
  }

  /** Every frame of the chain can be climbed. */
  predicate Climbable<T>(z: Zipper<T>)
    decreases z
  {
    z.parent.Some? ==> CanClimb(z) && Climbable(z.parent.value)
  }

  /** Moving down keeps the chain climbable. */
  lemma ChildClimbable<T>(z: Zipper<T>, i: nat)
    requires Climbable(z) && i < Len(z.node)
    ensures Climbable(Child(z, i))
  {
    var c := Child(z, i);
    assert c.parent.value == z.(node := c.parent.value.node);
    assert Len(c.parent.value.node) + 1 == Len(z.node);
    assert Climbable(c.parent.value) by {
      if z.parent.Some? {
        assert c.parent.value.parent == z.parent;
      }
    }
  }

  /** Moving up keeps the chain climbable. */
  lemma ParentClimbable<T>(z: Zipper<T>)
    requires Climbable(z) && z.parent.Some?
    ensures Climbable(Parent(z))
  {
    assert Parent(z).parent == z.parent.value.parent;
    assert Parent(z).indexInParent == z.parent.value.indexInParent;
  }

  /** How many frames lie above the focus. */
  function Depth<T>(z: Zipper<T>): nat
    decreases z
  {
    if z.parent.None? then 0 else 1 + Depth(z.parent.value)
  }

  /** The tree `finish` returns: climb with `Parent` until no parent is left. */
  function Root<T>(z: Zipper<T>): Node<T>
    requires Climbable(z)
    decreases Depth(z)
  {
    if z.parent.None? then z.node
    else
      ParentClimbable(z);
      Root(Parent(z))
  }

  /** Descending to a child does not change the tree `finish` returns. */
  lemma {:induction false} RootChild<T>(z: Zipper<T>, i: nat)
    requires Climbable(z) && i < Len(z.node)
    ensures Climbable(Child(z, i)) && Root(Child(z, i)) == Root(z)
  {
    ChildClimbable(z, i);
    ParentChild(z, i);
  }

  /** `finish`: the loop that climbs to the root. */
  method Finish<T>(z0: Zipper<T>) returns (n: Node<T>)
    requires Climbable(z0)
    ensures n == Root(z0)
    ensures z0.parent.None? ==> n == z0.node
  {
    var z := z0;
    while z.parent.Some?
      invariant Climbable(z) && Root(z) == Root(z0)
      decreases Depth(z)
    {
      ParentClimbable(z);
      z := Parent(z);
    }
    n := z.node;
  }

  /** `zipper(n).finish()` is n. */
  lemma FinishStart<T>(n: Node<T>)
    ensures Climbable(Start(n)) && Root(Start(n)) == n
  {
  }
}
