/** Which changes concern a subscription: `dm_match_subscription` with its walk by pointers, and the
    filter of a diff list in place (src/data_manager.c, src/data_manager.h). */
module Subscriptions {
  import opened DepGraph
  import opened Arena

  // ---------------------------------------------------------------- schema nodes

  /** The schema: `lys_parent` of every node, and whether it is a container or a list. */
  datatype Schema = Schema(up: seq<Option<nat>>, inner: seq<bool>) {
    ghost predicate Valid() {
      |up| == |inner| && forall n :: 0 <= n < |up| && up[n].Some? ==> up[n].value < n
    }

    /** a is n or an ancestor of n. */
    ghost predicate AtOrAbove(a: nat, n: nat)
      requires Valid() && n < |up|
      decreases n
    {
      a == n || (up[n].Some? && AtOrAbove(a, up[n].value))
    }

    lemma {:induction false} AboveTrans(a: nat, b: nat, n: nat)
      requires Valid() && n < |up| && b < |up| && AtOrAbove(a, b) && AtOrAbove(b, n)
      ensures AtOrAbove(a, n)
      decreases n
    {
      if b != n { AboveTrans(a, b, up[n].value); }
    }

    /** The two climbing loops of `dm_match_subscription` (3815-3822, 3833-3839). */
    method Climb(a: nat, n: nat) returns (found: bool)
      requires Valid() && n < |up|
      ensures found <==> AtOrAbove(a, n)
    {
      var at: Option<nat> := Some(n);
      while at.Some?
        invariant at.Some? ==> at.value < |up| && (AtOrAbove(a, n) <==> AtOrAbove(a, at.value))
        invariant at.None? ==> !AtOrAbove(a, n)
        decreases if at.Some? then at.value + 1 else 0
      {
        if a == at.value {
          return true;
        }
        at := up[at.value];
      }
      found := false;
    }
  }

  // ---------------------------------------------------------------- data trees

  /** A data tree and the schema node of every data node. */
  datatype Data = Data(ns: seq<Node>, schema: seq<nat>)

  /** A data node's schema lies below the schema of its parent. */
  ghost predicate Instance(sc: Schema, t: Data, last: seq<nat>) {
    && sc.Valid() && Forest(t.ns, last) && |t.schema| == |t.ns|
    && (forall j :: 0 <= j < |t.ns| ==> t.schema[j] < |sc.up|)
    && (forall j :: 0 <= j < |t.ns| && t.ns[j].parent.Up().Some? && t.ns[j].parent.Up().value < |t.ns| ==>
          sc.AtOrAbove(t.schema[t.ns[j].parent.Up().value], t.schema[j]))
    && (forall j :: 0 <= j < |t.ns| ==> (t.ns[j].leafy <==> !sc.inner[t.schema[j]]))
  }

  /** Schema nodes inside a subtree lie at or below the schema node of its root. */
  lemma {:induction false} SchemaBelow(sc: Schema, t: Data, last: seq<nat>, root: nat, j: nat)
    requires Instance(sc, t, last) && root <= j < |t.ns| && j < last[root]
    ensures sc.AtOrAbove(t.schema[root], t.schema[j])
    decreases j
  {
    if root < j {
      ParentInside(t.ns, last, root, j);
      var p := t.ns[j].parent.Up().value;
      SchemaBelow(sc, t, last, root, p);
      sc.AboveTrans(t.schema[root], t.schema[p], t.schema[j]);
    }
  }

  /** `LYD_TREE_DFS_END` (data_manager.h:241-267): the element for the next run, from children,
      siblings, or siblings of parents below the start. */
  method NextElem(ns: seq<Node>, ghost last: seq<nat>, start: nat, from: nat) returns (next: Option<nat>)
    requires Forest(ns, last) && start <= from < |ns| && from < last[start]
    ensures next == if from + 1 < last[start] then Some(from + 1) else None
  {
    assert LinkedAt(ns, last, from);
    var elem := from;
    next := if ns[elem].leafy then None else ns[elem].child;
    if next.None? {
      if elem == start {
        return;
      }
      next := ns[elem].next;
      Sibling(ns, last, start, elem);
    }
    while next.None?
      invariant start < elem < last[start] || next.Some?
      invariant next.None? ==> last[elem] == from + 1 && ns[elem].next.None?
      invariant next.Some? ==> next.value == from + 1 < last[start]
      decreases if next.None? then elem + 1 else 0
    {
      EndOfParent(ns, last, start, elem);
      elem := ns[elem].parent.Up().value;
      SameParent(ns, last, start, elem);
      if ns[elem].parent.Up() == ns[start].parent.Up() {
        break;
      }
      next := ns[elem].next;
      Sibling(ns, last, start, elem);
    }
  }

  lemma Sibling(ns: seq<Node>, last: seq<nat>, start: nat, i: nat)
    requires Forest(ns, last) && start < i < |ns| && i < last[start]
    ensures ns[i].next.Some? ==> ns[i].next.value == last[i] < last[start]
  {
    if ns[i].next.Some? { NextInside(ns, last, start, i); }
  }

  /** In a subtree only its root has the parent that the root has. */
  lemma SameParent(ns: seq<Node>, last: seq<nat>, start: nat, i: nat)
    requires Forest(ns, last) && start <= i < |ns| && i < last[start]
    ensures ns[i].parent.Up() == ns[start].parent.Up() <==> i == start
  {
    assert LinkedAt(ns, last, start);
    if start < i { ParentInside(ns, last, start, i); }
  }

  /** The walk of the subtree for an instance of the subscribed node (3845-3852). */
  method FindInstance(t: Data, ghost last: seq<nat>, start: nat, sub: nat) returns (found: bool)
    requires Forest(t.ns, last) && |t.schema| == |t.ns| && start < |t.ns|
    ensures found <==> exists j :: start <= j < last[start] && t.schema[j] == sub
  {
    var elem := Some(start);
    while elem.Some?
      invariant elem.Some? ==> start <= elem.value < last[start]
      invariant forall j :: start <= j < (if elem.Some? then elem.value else last[start]) ==> t.schema[j] != sub
      decreases if elem.Some? then last[start] - elem.value else 0
    {
      if t.schema[elem.value] == sub {
        return true;
      }
      elem := NextElem(t.ns, last, start, elem.value);
    }
    found := false;
  }

  /** The change is at or below the subscribed node, or the subscribed node is instantiated inside
      the changed subtree. */
  ghost predicate Concerns(sc: Schema, t: Data, last: seq<nat>, sub: Option<nat>, node: nat)
    requires Instance(sc, t, last) && node < |t.ns|
  {
    sub.None? || sc.AtOrAbove(sub.value, t.schema[node]) || exists j :: node <= j < last[node] && t.schema[j] == sub.value
  }

  /** `dm_match_subscription` (3803-3858).  Neither the schema test that comes first nor the test for
      containers and lists loses a match. */
  method Match(sc: Schema, t: Data, ghost last: seq<nat>, sub: Option<nat>, node: nat) returns (res: bool)
    requires Instance(sc, t, last) && node < |t.ns| && (sub.Some? ==> sub.value < |sc.up|)
    ensures res <==> Concerns(sc, t, last, sub, node)
  {
    if sub.None? {
      return true;
    }
    var above := sc.Climb(sub.value, t.schema[node]);
    if above {
      return true;
    }
    forall j | node <= j < last[node] ensures sc.AtOrAbove(t.schema[node], t.schema[j]) {
      SchemaBelow(sc, t, last, node, j);
    }
    assert LinkedAt(t.ns, last, node);
    if sc.inner[t.schema[node]] {
      var under := sc.Climb(t.schema[node], sub.value);
      if !under {
        return false;
      }
      res := FindInstance(t, last, node, sub.value);
      return;
    }
    res := false;
  }

  // ---------------------------------------------------------------- the diff list

  datatype DiffType = End | Deleted | Changed | MovedAfter1 | Created | MovedAfter2

  datatype Entry = Entry(ty: DiffType, first: nat, second: nat)

  /** The node that tells whether an entry matches, as `dm_get_notification_match_node` picks it
      (3867-3883), is in its tree. */
  ghost predicate Placed(old_: Data, new_: Data, e: Entry) {
    e.ty != End && if e.ty == MovedAfter2 || e.ty == Created then e.second < |new_.ns| else e.first < |old_.ns|
  }

  /** The entry concerns the subscription. */
  ghost predicate Keeps(sc: Schema, old_: Data, oldLast: seq<nat>, new_: Data, newLast: seq<nat>, sub: nat, e: Entry) {
    Instance(sc, old_, oldLast) && Instance(sc, new_, newLast) && Placed(old_, new_, e)
    && if e.ty == MovedAfter2 || e.ty == Created then Concerns(sc, new_, newLast, Some(sub), e.second)
       else Concerns(sc, old_, oldLast, Some(sub), e.first)
  }

  /** The first n entries of the three arrays. */
  ghost function Entries(types: seq<DiffType>, first: seq<nat>, second: seq<nat>, n: nat): (r: seq<Entry>)
    requires n <= |types| && n <= |first| && n <= |second|
    ensures |r| == n && forall i :: 0 <= i < n ==> r[i] == Entry(types[i], first[i], second[i])
  {
    seq(n, i requires 0 <= i < n => Entry(types[i], first[i], second[i]))
  }

  ghost function Kept(es: seq<Entry>, keep: Entry -> bool): (r: seq<Entry>)
    ensures |r| <= |es|
  {
    if es == [] then [] else (if keep(es[0]) then [es[0]] else []) + Kept(es[1..], keep)
  }

  /** Kept entries are those that the filter keeps. */
  lemma {:induction false} KeptMeans(es: seq<Entry>, keep: Entry -> bool)
    ensures forall e :: e in Kept(es, keep) <==> e in es && keep(e)
  {
    if es != [] {
      KeptMeans(es[1..], keep);
      assert es == [es[0]] + es[1..];
    }
  }

  /** `memmove` one place down. */
  method ShiftDown<T>(a: array<T>, i: nat, count: nat)
    requires count > 0 ==> i + count < a.Length
    modifies a
    ensures forall j :: 0 <= j < a.Length ==> a[j] == if i <= j < i + count then old(a[j + 1]) else old(a[j])
  {
    var k := i;
    while k < i + count
      invariant i <= k <= i + count
      invariant forall j :: 0 <= j < a.Length ==> a[j] == if i <= j < k then old(a[j + 1]) else old(a[j])
    {
      a[k] := a[k + 1];
      k := k + 1;
    }
  }

  /** The entry at i is dropped from the three arrays; the end marker moves with the types
      (5586-5596). */
  method DropEntry(types: array<DiffType>, first: array<nat>, second: array<nat>, n: nat, i: nat)
    requires i < n < types.Length && n <= first.Length && n <= second.Length && first != second && types[n] == End
    modifies types, first, second
    ensures types[n - 1] == End
    ensures Entries(types[..], first[..], second[..], n - 1) ==
            var es := old(Entries(types[..], first[..], second[..], n)); es[..i] + es[i + 1..]
  {
    ShiftDown(types, i, n - i);
    ShiftDown(first, i, n - i - 1);
    ShiftDown(second, i, n - i - 1);
  }

  /** One step of the loop from the back, on values: the entries behind i are done. */
  lemma KeptStep(es: seq<Entry>, i: nat, now: seq<Entry>, keep: Entry -> bool)
    requires i < |es| && |now| >= i + 1 && now[..i + 1] == es[..i + 1] && now[i + 1..] == Kept(es[i + 1..], keep)
    ensures now[i] == es[i]
    ensures keep(es[i]) ==> now[..i] == es[..i] && now[i..] == Kept(es[i..], keep)
    ensures !keep(es[i]) ==> (now[..i] + now[i + 1..])[..i] == es[..i] && (now[..i] + now[i + 1..])[i..] == Kept(es[i..], keep)
  {
    assert now[i] == now[..i + 1][i] == es[..i + 1][i] == es[i];
    assert es[i..][1..] == es[i + 1..] && es[i..][0] == es[i];
    assert now[i..] == [now[i]] + now[i + 1..];
    assert now[..i] == now[..i + 1][..i] && es[..i] == es[..i + 1][..i];
    assert (now[..i] + now[i + 1..])[i..] == now[i + 1..];
  }

  /** The test of one entry. */
  method MatchEntry(sc: Schema, old_: Data, ghost oldLast: seq<nat>, new_: Data, ghost newLast: seq<nat>, sub: nat, e: Entry)
    returns (r: bool)
    requires Instance(sc, old_, oldLast) && Instance(sc, new_, newLast) && Placed(old_, new_, e) && sub < |sc.up|
    ensures r <==> Keeps(sc, old_, oldLast, new_, newLast, sub, e)
  {
    if e.ty == MovedAfter2 || e.ty == Created {
      r := Match(sc, new_, newLast, Some(sub), e.second);
    } else {
      r := Match(sc, old_, oldLast, Some(sub), e.first);
    }
  }

  /** `dm_remove_non_matching_diff` (5559-5602) from the subscribed node on: what is left, in order, is
      exactly the entries that concern it, with the end marker behind them. */
  method RemoveNonMatching(sc: Schema, old_: Data, ghost oldLast: seq<nat>, new_: Data, ghost newLast: seq<nat>, sub: nat,
                           types: array<DiffType>, first: array<nat>, second: array<nat>, ghost n: nat) returns (ghost left: nat)
    requires Instance(sc, old_, oldLast) && Instance(sc, new_, newLast) && sub < |sc.up| && first != second
    requires n < types.Length && n <= first.Length && n <= second.Length && types[n] == End
    requires forall i :: 0 <= i < n ==> Placed(old_, new_, Entry(types[i], first[i], second[i]))
    modifies types, first, second
    ensures left <= n && types[left] == End
    ensures Entries(types[..], first[..], second[..], left) ==
            Kept(old(Entries(types[..], first[..], second[..], n)), e => Keeps(sc, old_, oldLast, new_, newLast, sub, e))
  {
    hide Instance, Keeps, Kept, Entries, Placed;
    ghost var keep := e => Keeps(sc, old_, oldLast, new_, newLast, sub, e);
    ghost var es := Entries(types[..], first[..], second[..], n);
    PlacedAll(types[..], first[..], second[..], n, old_, new_);
    var count := CountEntries(types, n);
    left := n;
    KeptNothing(es, keep);
    for i := count downto 0
      invariant i <= left <= n && count == left && types[left] == End
      invariant forall k :: 0 <= k < n ==> Placed(old_, new_, es[k])
      invariant var now := Entries(types[..], first[..], second[..], left);
                now[..i] == es[..i] && now[i..] == Kept(es[i..], keep)
    {
      ghost var now := Entries(types[..], first[..], second[..], left);
      KeptStep(es, i, now, keep);
      var e := Entry(types[i], first[i], second[i]);
      assert e == es[i];
      var matches := MatchEntry(sc, old_, oldLast, new_, newLast, sub, e);
      if !matches {
        DropEntry(types, first, second, count, i);
        count := count - 1;
        left := left - 1;
      }
    }
  }

  lemma KeptNothing(es: seq<Entry>, keep: Entry -> bool)
    ensures es[|es|..] == Kept(es[|es|..], keep) && es[..|es|] == es
  {
  }

  lemma PlacedAll(types: seq<DiffType>, first: seq<nat>, second: seq<nat>, n: nat, old_: Data, new_: Data)
    requires n <= |types| && n <= |first| && n <= |second|
    requires forall i :: 0 <= i < n ==> Placed(old_, new_, Entry(types[i], first[i], second[i]))
    ensures forall i :: 0 <= i < n ==> Placed(old_, new_, Entries(types, first, second, n)[i]) && types[i] != End
  {
  }

  /** The length of the list, up to the end marker. */
  method CountEntries(types: array<DiffType>, ghost n: nat) returns (count: nat)
    requires n < types.Length && types[n] == End && forall i :: 0 <= i < n ==> types[i] != End
    ensures count == n
  {
    count := 0;
    while types[count] != End
      invariant count <= n
      decreases n - count
    {
      count := count + 1;
    }
  }
}
