/** Hash and depth of schema nodes: the single loop over a schema tree with augments in
    `dm_init_missing_node_priv_data` (src/data_manager.c:768-828). */
module PrivData {
  import opened DepGraph
  import opened Arena

  const TWO_32 := 0x1_0000_0000
  const TWO_16 := 0x1_0000

  /** `dm_node_info_t`, as far as it is computed here. */
  datatype Info = Info(hash: nat, depth: nat)

  /** A schema tree: its nodes, which of them are data nodes (`sr_lys_data_node`), and the hashes of
      their full names. */
  datatype Schema = Schema(ns: seq<Node>, data: seq<bool>, names: seq<nat>) {
    ghost predicate Valid(last: seq<nat>) {
      Forest(ns, last) && |data| == |names| == |ns| == |last|
    }
  }

  /** How many data nodes are above node i. */
  ghost function Depth(sc: Schema, last: seq<nat>, i: nat): nat
    requires sc.Valid(last) && i < |sc.ns|
    decreases i
  {
    assert LinkedAt(sc.ns, last, i);
    match sc.ns[i].parent.Up()
    case None => 0
    case Some(p) => Depth(sc, last, p) + if sc.data[p] then 1 else 0
  }

  /** The sum of the name hashes of the data nodes on the path to node i. */
  ghost function PathHash(sc: Schema, last: seq<nat>, i: nat): nat
    requires sc.Valid(last) && i < |sc.ns|
    decreases i
  {
    assert LinkedAt(sc.ns, last, i);
    (match sc.ns[i].parent.Up()
     case None => 0
     case Some(p) => PathHash(sc, last, p)) + if sc.data[i] then sc.names[i] else 0
  }

  ghost function DataAbove(sc: Schema, last: seq<nat>, i: nat): set<nat>
    requires sc.Valid(last)
  {
    set a | 0 <= a < i && Above(last, a, i) && a < |sc.data| && sc.data[a]
  }

  lemma DataAboveParent(sc: Schema, last: seq<nat>, i: nat)
    requires sc.Valid(last) && i < |sc.ns| && sc.ns[i].parent.Up().Some?
    ensures var p := sc.ns[i].parent.Up().value;
            p < i && DataAbove(sc, last, i) == DataAbove(sc, last, p) + (if sc.data[p] then {p} else {}) && p !in DataAbove(sc, last, p)
  {
    hide Above;
    ParentBefore(sc, last, i);
    var p := sc.ns[i].parent.Up().value;
    forall a: nat ensures Above(last, a, i) <==> a == p || Above(last, a, p) {
      AboveParent(sc.ns, last, a, i);
    }
    AboveBefore(last, p);
  }

  lemma AboveBefore(last: seq<nat>, i: nat)
    ensures forall a: nat :: Above(last, a, i) ==> a < i
  {
  }

  lemma ParentBefore(sc: Schema, last: seq<nat>, i: nat)
    requires sc.Valid(last) && i < |sc.ns|
    ensures sc.ns[i].parent.Up().Some? ==> sc.ns[i].parent.Up().value < i
    ensures sc.ns[i].parent.Up().None? ==> DataAbove(sc, last, i) == {}
  {
    assert LinkedAt(sc.ns, last, i);
  }

  /** The depth is the number of data ancestors. */
  lemma {:induction false} DepthCounts(sc: Schema, last: seq<nat>, i: nat)
    requires sc.Valid(last) && i < |sc.ns|
    ensures Depth(sc, last, i) == |DataAbove(sc, last, i)|
    decreases i
  {
    hide DataAbove, Forest;
    ParentBefore(sc, last, i);
    if sc.ns[i].parent.Up().Some? {
      DataAboveParent(sc, last, i);
      DepthCounts(sc, last, sc.ns[i].parent.Up().value);
    }
  }

  /** `sr_lys_node_get_data_parent`: the nearest data node above, through augments (sr_utils.c:680-694). */
  method DataParent(sc: Schema, ghost last: seq<nat>, i: nat) returns (r: Option<nat>)
    requires sc.Valid(last) && i < |sc.ns|
    ensures r.Some? ==> r.value < i && sc.data[r.value] && Above(last, r.value, i)
    // no data node is nearer, and without a result there is none above
    ensures forall a: nat :: Above(last, a, i) && a < |sc.data| && sc.data[a] ==> r.Some? && (a == r.value || Above(last, a, r.value))
    ensures PathHash(sc, last, i) == (if r.Some? then PathHash(sc, last, r.value) else 0) + if sc.data[i] then sc.names[i] else 0
  {
    assert LinkedAt(sc.ns, last, i);
    r := sc.ns[i].parent.Up();
    AncestorsOf(sc, last, i);
    while r.Some? && !sc.data[r.value]
      invariant r.Some? ==> r.value < i && Above(last, r.value, i)
      invariant forall a: nat :: Above(last, a, i) && a < |sc.data| && sc.data[a] ==> r.Some? && (a == r.value || Above(last, a, r.value))
      invariant PathHash(sc, last, i) == (if r.Some? then PathHash(sc, last, r.value) else 0) + if sc.data[i] then sc.names[i] else 0
      decreases if r.Some? then r.value + 1 else 0
    {
      assert LinkedAt(sc.ns, last, r.value);
      AncestorsOf(sc, last, r.value);
      r := sc.ns[r.value].parent.Up();
    }
  }

  /** The ancestors of a node are its parent and the ancestors of its parent. */
  lemma AncestorsOf(sc: Schema, last: seq<nat>, i: nat)
    requires sc.Valid(last) && i < |sc.ns|
    ensures sc.ns[i].parent.Up().None? ==> forall a: nat :: !Above(last, a, i)
    ensures sc.ns[i].parent.Up().Some? ==>
              var p := sc.ns[i].parent.Up().value; p < i && forall a: nat :: Above(last, a, i) <==> a == p || Above(last, a, p)
    ensures forall a: nat, b: nat :: Above(last, a, b) && Above(last, b, i) ==> Above(last, a, i)
  {
    assert LinkedAt(sc.ns, last, i);
    if sc.ns[i].parent.Up().Some? {
      forall a: nat ensures Above(last, a, i) <==> a == sc.ns[i].parent.Up().value || Above(last, a, sc.ns[i].parent.Up().value) {
        AboveParent(sc.ns, last, a, i);
      }
    }
  }

  /** What the walk leaves at node j: a fresh data node gets its hash and depth, nothing else
      changes. */
  ghost predicate Settled(sc: Schema, last: seq<nat>, j: nat, before: Option<Info>, now: Option<Info>)
    requires sc.Valid(last) && j < |sc.ns|
  {
    now == if sc.data[j] && before.None? then Some(Info(PathHash(sc, last, j) % TWO_32, Depth(sc, last, j) % TWO_16)) else before
  }

  /** The nodes of a forest from here on: children first, then siblings. */
  lemma SiblingDepth(sc: Schema, last: seq<nat>, i: nat)
    requires sc.Valid(last) && i < |sc.ns| && sc.ns[i].next.Some?
    ensures sc.ns[i].next.value == last[i] < |sc.ns| && Depth(sc, last, last[i]) == Depth(sc, last, i)
  {
    assert LinkedAt(sc.ns, last, i);
    var n := last[i];
    assert LinkedAt(sc.ns, last, n);
    SameUp(sc, last, i);
  }

  /** A node and its sibling have the same parent. */
  lemma SameUp(sc: Schema, last: seq<nat>, i: nat)
    requires sc.Valid(last) && i < |sc.ns| && sc.ns[i].next.Some? && sc.ns[i].next.value == last[i] < |sc.ns|
    ensures sc.ns[last[i]].parent.Up() == sc.ns[i].parent.Up()
  {
    var n := last[i];
    assert LinkedAt(sc.ns, last, i) && LinkedAt(sc.ns, last, n);
    assert forall a :: i < a < n ==> last[a] <= n;
  }

  lemma ChildDepth(sc: Schema, last: seq<nat>, i: nat)
    requires sc.Valid(last) && i < |sc.ns| && !sc.ns[i].leafy && sc.ns[i].child.Some?
    ensures sc.ns[i].child.value == i + 1 < |sc.ns|
    ensures Depth(sc, last, i + 1) == Depth(sc, last, i) + if sc.data[i] then 1 else 0
  {
    assert LinkedAt(sc.ns, last, i) && LinkedAt(sc.ns, last, i + 1);
  }

  /** The depth counter on the way back to the parent, modulo 2^16. */
  lemma ParentDepth(sc: Schema, last: seq<nat>, i: nat)
    requires sc.Valid(last) && i < |sc.ns| && sc.ns[i].parent.Up().Some? && sc.ns[i].next.None?
    ensures var p := sc.ns[i].parent.Up().value;
      && p < i && last[p] == last[i]
      && Depth(sc, last, p) % TWO_16 == (Depth(sc, last, i) % TWO_16 + if sc.data[p] then TWO_16 - 1 else 0) % TWO_16
  {
    LastChild(sc, last, i);
    var p := sc.ns[i].parent.Up().value;
    BackOne(Depth(sc, last, p));
    hide Depth, Forest;
  }

  lemma LastChild(sc: Schema, last: seq<nat>, i: nat)
    requires sc.Valid(last) && i < |sc.ns| && sc.ns[i].parent.Up().Some? && sc.ns[i].next.None?
    ensures var p := sc.ns[i].parent.Up().value;
            p < i && last[p] == last[i] && Depth(sc, last, i) == Depth(sc, last, p) + if sc.data[p] then 1 else 0
  {
    assert LinkedAt(sc.ns, last, i);
    var p := sc.ns[i].parent.Up().value;
    assert last[i] <= last[p];
  }

  /** Counting down after counting up, in 16 bits. */
  lemma BackOne(d: nat)
    ensures d % TWO_16 == ((d + 1) % TWO_16 + (TWO_16 - 1)) % TWO_16
  {
    var q, r := d / TWO_16, d % TWO_16;
    assert d == q * TWO_16 + r;
    if r + 1 < TWO_16 {
      assert (d + 1) % TWO_16 == r + 1;
    } else {
      assert d + 1 == (q + 1) * TWO_16;
    }
  }

  /** The visit of one node (795-815). */
  method VisitNode(sc: Schema, ghost last: seq<nat>, priv: array<Option<Info>>, i: nat, depth: nat)
    requires sc.Valid(last) && priv.Length == |sc.ns| && i < |sc.ns| && depth == Depth(sc, last, i) % TWO_16
    requires forall j :: 0 <= j < i && sc.data[j] ==> priv[j].Some? && priv[j].value.hash == PathHash(sc, last, j) % TWO_32
    modifies priv
    ensures Settled(sc, last, i, old(priv[i]), priv[i])
    ensures forall j :: 0 <= j < |sc.ns| && j != i ==> priv[j] == old(priv[j])
  {
    hide PathHash, Depth;
    if priv[i].None? && sc.data[i] {
      var parent := DataParent(sc, last, i);
      var above := if parent.Some? && priv[parent.value].Some? then priv[parent.value].value.hash else 0;
      HashOf(sc, last, i, parent, above);
      priv[i] := Some(Info((above + sc.names[i]) % TWO_32, depth));
    }
  }

  /** Hashes are right before the walk, and so they are behind it. */
  ghost predicate Hashed(sc: Schema, last: seq<nat>, j: nat, info: Option<Info>)
    requires sc.Valid(last) && j < |sc.ns|
  {
    sc.data[j] && info.Some? ==> info.value.hash == PathHash(sc, last, j) % TWO_32
  }

  lemma SettledHashed(sc: Schema, last: seq<nat>, j: nat, before: Option<Info>, now: Option<Info>)
    requires sc.Valid(last) && j < |sc.ns| && Hashed(sc, last, j, before) && Settled(sc, last, j, before, now)
    ensures sc.data[j] ==> now.Some? && now.value.hash == PathHash(sc, last, j) % TWO_32
  {
  }

  ghost predicate InOrder(visited: seq<nat>) {
    forall k :: 0 <= k < |visited| ==> visited[k] == k
  }

  /** The walk visits every node once, in document order, and settles it. */
  method InitPrivData(sc: Schema, ghost last: seq<nat>, priv: array<Option<Info>>) returns (ghost visited: seq<nat>)
    requires sc.Valid(last) && priv.Length == |sc.ns| && forall j :: 0 <= j < |sc.ns| ==> Hashed(sc, last, j, priv[j])
    modifies priv
    ensures forall j :: 0 <= j < |sc.ns| ==> Settled(sc, last, j, old(priv[j]), priv[j])
    ensures InOrder(visited) && |visited| == |sc.ns|
  {
    hide PathHash, Depth, Settled, Hashed, Nested, Forest;
    visited := [];
    var node: Option<nat> := if |sc.ns| > 0 then Some(0) else None;
    var backtracking, depth := false, 0;
    if |sc.ns| > 0 { FirstNode(sc, last); }
    ghost var before := priv[..];
    while node.Some?
      invariant node.Some? ==> node.value < |sc.ns| && depth == Depth(sc, last, node.value) % TWO_16
      invariant |visited| == if node.None? then |sc.ns| else if backtracking then last[node.value] else node.value
      invariant InOrder(visited) && |visited| <= |sc.ns|
      invariant forall j :: 0 <= j < |visited| ==> Settled(sc, last, j, before[j], priv[j])
      invariant forall j :: |visited| <= j < |sc.ns| ==> priv[j] == before[j]
      decreases |sc.ns| - |visited|, if node.Some? && backtracking then node.value + 1 else 0
    {
      var i := node.value;
      NodeEnds(sc, last, i);
      if backtracking {
        if sc.ns[i].next.Some? {
          SiblingDepth(sc, last, i);
          node := sc.ns[i].next;
          backtracking := false;
        } else {
          node := sc.ns[i].parent.Up();
          if node.Some? { ParentDepth(sc, last, i); }
          if node.Some? && sc.data[node.value] {
            depth := (depth + TWO_16 - 1) % TWO_16;
          }
        }
      } else {
        forall j | 0 <= j < i ensures sc.data[j] ==> priv[j].Some? && priv[j].value.hash == PathHash(sc, last, j) % TWO_32 {
          SettledHashed(sc, last, j, before[j], priv[j]);
        }
        VisitNode(sc, last, priv, i, depth);
        visited := visited + [i];
        if !sc.ns[i].leafy && sc.ns[i].child.Some? {
          ChildDepth(sc, last, i);
          if sc.data[i] {
            depth := (depth + 1) % TWO_16;
          }
          node := sc.ns[i].child;
        } else {
          backtracking := true;
        }
      }
    }
  }

  lemma FirstNode(sc: Schema, last: seq<nat>)
    requires sc.Valid(last) && |sc.ns| > 0
    ensures Depth(sc, last, 0) == 0
  {
    assert LinkedAt(sc.ns, last, 0);
  }

  /** Where a node ends, when it has no child, and when it is the last one at the top. */
  lemma NodeEnds(sc: Schema, last: seq<nat>, i: nat)
    requires sc.Valid(last) && i < |sc.ns|
    ensures i < last[i] <= |sc.ns|
    ensures sc.ns[i].leafy || sc.ns[i].child.None? ==> last[i] == i + 1
    ensures sc.ns[i].parent.Up().None? && sc.ns[i].next.None? ==> last[i] == |sc.ns|
    ensures sc.ns[i].parent.Up().Some? ==> sc.ns[i].parent.Up().value < i
  {
    assert LinkedAt(sc.ns, last, i);
  }

  /** Adding one name to the hash of the data parent, modulo 2^32. */
  lemma HashOf(sc: Schema, last: seq<nat>, i: nat, parent: Option<nat>, above: nat)
    requires sc.Valid(last) && i < |sc.ns| && sc.data[i] && (parent.Some? ==> parent.value < i)
    requires PathHash(sc, last, i) == (if parent.Some? then PathHash(sc, last, parent.value) else 0) + sc.names[i]
    requires above == if parent.Some? then PathHash(sc, last, parent.value) % TWO_32 else 0
    ensures (above + sc.names[i]) % TWO_32 == PathHash(sc, last, i) % TWO_32
  {
  }
}
