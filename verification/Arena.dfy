/** Trees of nodes with parent, first-child and sibling pointers, as libyang keeps data and schema
    trees.  A node is named by its position in document order. */
module Arena {
  import opened DepGraph

  /** A parent pointer.  In schema trees it may lead to an augment, whose target is the parent. */
  datatype Link = Top | Child(p: nat) | Augmented(target: nat) {
    function Up(): Option<nat> {
      match this
      case Top => None
      case Child(p) => Some(p)
      case Augmented(t) => Some(t)
    }
  }

  /** `leafy` nodes (leaves, leaf-lists, anydata) have no child pointer: what is in its place means
      nothing. */
  datatype Node = Node(parent: Link, child: Option<nat>, next: Option<nat>, leafy: bool)

  /** `last[i]` is where the subtree of node i ends. */
  ghost predicate Nested(ns: seq<Node>, last: seq<nat>) {
    && |last| == |ns|
    && (forall i :: 0 <= i < |ns| ==> i < last[i] <= |ns|)
    && (forall i, j :: 0 <= i < |ns| && i < j < last[i] ==> last[j] <= last[i])
  }

  ghost predicate LinkedAt(ns: seq<Node>, last: seq<nat>, i: nat)
    requires |last| == |ns| && i < |ns|
  {
    && (match ns[i].parent.Up()
        case None =>
          (forall a :: 0 <= a < i ==> last[a] <= i) && ns[i].next == if last[i] < |ns| then Some(last[i]) else None
        case Some(p) =>
          p < i < last[p] && (forall a :: p < a < i ==> last[a] <= i) && ns[i].next == if last[i] < last[p] then Some(last[i]) else None)
    && (if ns[i].leafy then last[i] == i + 1 else ns[i].child == if i + 1 < last[i] then Some(i + 1) else None)
  }

  ghost predicate Forest(ns: seq<Node>, last: seq<nat>) {
    Nested(ns, last) && forall i :: 0 <= i < |ns| ==> LinkedAt(ns, last, i)
  }

  /** a is a proper ancestor of i. */
  ghost predicate Above(last: seq<nat>, a: nat, i: nat) {
    a < i < |last| && i < last[a]
  }

  /** The parent of a node inside a subtree is in the subtree, and the ancestors of the parent are
      those of the node but itself. */
  lemma ParentInside(ns: seq<Node>, last: seq<nat>, root: nat, i: nat)
    requires Forest(ns, last) && root < i < |ns| && i < last[root]
    ensures ns[i].parent.Up().Some? && root <= ns[i].parent.Up().value < i
    ensures last[i] <= last[ns[i].parent.Up().value] <= last[root]
  {
    assert LinkedAt(ns, last, i);
  }

  /** What lies above a node lies above its parent or is the parent. */
  lemma AboveParent(ns: seq<Node>, last: seq<nat>, a: nat, i: nat)
    requires Forest(ns, last) && i < |ns| && ns[i].parent.Up().Some?
    ensures Above(last, a, i) <==> a == ns[i].parent.Up().value || Above(last, a, ns[i].parent.Up().value)
  {
    assert LinkedAt(ns, last, i);
    var p := ns[i].parent.Up().value;
    if a < p && p < last[a] { assert last[p] <= last[a]; }
  }

  /** The sibling of a node below root is in the subtree, where the node ends. */
  lemma NextInside(ns: seq<Node>, last: seq<nat>, root: nat, i: nat)
    requires Forest(ns, last) && root < i < |ns| && i < last[root] && ns[i].next.Some?
    ensures ns[i].next.value == last[i] < last[root]
  {
    assert LinkedAt(ns, last, i);
    ParentInside(ns, last, root, i);
  }

  /** A node without a sibling ends where its parent does. */
  lemma EndOfParent(ns: seq<Node>, last: seq<nat>, root: nat, i: nat)
    requires Forest(ns, last) && root < i < |ns| && i < last[root] && ns[i].next.None?
    ensures ns[i].parent.Up().Some? && root <= ns[i].parent.Up().value < i && last[ns[i].parent.Up().value] == last[i]
  {
    assert LinkedAt(ns, last, i);
    ParentInside(ns, last, root, i);
    assert last[i] <= last[ns[i].parent.Up().value];
  }
}
