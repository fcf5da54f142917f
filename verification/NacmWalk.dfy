/** Access control of a commit: the walk over created and deleted subtrees, which prunes below a
    denied node, and the loop over all changes (src/data_manager.c:4778-4964). */
module NacmWalk {
  import opened Arena

  datatype Access = Create | Update | Delete

  /** What the check of one node gives (section 3.4.5 of RFC 6536). */
  datatype Verdict = Permit | Deny | Failure

  /** No proper ancestor of j inside the subtree of root is denied. */
  ghost predicate Exposed(last: seq<nat>, check: nat -> Verdict, root: nat, j: nat) {
    forall a :: root <= a && Above(last, a, j) ==> check(a) != Deny
  }

  /** The exposed nodes of a subtree up to `limit`, in order. */
  ghost predicate Lists(last: seq<nat>, check: nat -> Verdict, root: nat, limit: nat, visited: seq<nat>) {
    && (forall j :: j in visited <==> root <= j < limit && j < |last| && Exposed(last, check, root, j))
    && (forall a, b :: 0 <= a < b < |visited| ==> visited[a] < visited[b])
  }

  function Denials(check: nat -> Verdict, visited: seq<nat>): nat {
    if visited == [] then 0 else Denials(check, visited[..|visited| - 1]) + if check(visited[|visited| - 1]) == Deny then 1 else 0
  }

  lemma {:induction false} DenialsMean(check: nat -> Verdict, visited: seq<nat>)
    ensures Denials(check, visited) > 0 <==> exists j :: j in visited && check(j) == Deny
  {
    if visited != [] {
      var front := visited[..|visited| - 1];
      DenialsMean(check, front);
      assert visited == front + [visited[|visited| - 1]];
    }
  }

  /** The node after a node or subtree that ends at the limit is exposed when the node is. */
  lemma NextExposed(ns: seq<Node>, last: seq<nat>, check: nat -> Verdict, root: nat, i: nat)
    requires Forest(ns, last) && root < i < |ns| && i < last[root] && Exposed(last, check, root, i) && last[i] < |ns|
    ensures Exposed(last, check, root, last[i])
  {
    assert forall a :: i < a < last[i] ==> last[a] <= last[i];
    forall a | root <= a && Above(last, a, last[i]) ensures check(a) != Deny {
      assert Above(last, a, i);
    }
  }

  lemma ChildExposed(ns: seq<Node>, last: seq<nat>, check: nat -> Verdict, root: nat, i: nat)
    requires Forest(ns, last) && root <= i < |ns| && i + 1 < last[i] && Exposed(last, check, root, i) && check(i) != Deny
    ensures i + 1 < |ns| && Exposed(last, check, root, i + 1)
  {
    forall a | root <= a && Above(last, a, i + 1) ensures check(a) != Deny {
      assert a == i || Above(last, a, i);
    }
  }

  lemma ParentExposed(ns: seq<Node>, last: seq<nat>, check: nat -> Verdict, root: nat, i: nat)
    requires Forest(ns, last) && root < i < |ns| && i < last[root] && Exposed(last, check, root, i)
    ensures ns[i].parent.Up().Some? && Exposed(last, check, root, ns[i].parent.Up().value)
  {
    ParentInside(ns, last, root, i);
    forall a | root <= a && Above(last, a, ns[i].parent.Up().value) ensures check(a) != Deny {
      AboveParent(ns, last, a, i);
    }
  }

  /** One node is visited; with it pruned or without children, nothing else up to its end is. */
  lemma VisitNode(ns: seq<Node>, last: seq<nat>, check: nat -> Verdict, root: nat, i: nat, visited: seq<nat>)
    requires Forest(ns, last) && root <= i < |ns| && Exposed(last, check, root, i) && Lists(last, check, root, i, visited)
    ensures Lists(last, check, root, i + 1, visited + [i])
    ensures check(i) == Deny || i + 1 == last[i] ==> Lists(last, check, root, last[i], visited + [i])
  {
    var v := visited + [i];
    assert forall j :: j in v <==> j in visited || j == i;
    assert forall a :: 0 <= a < |visited| ==> visited[a] in visited;
    forall j | i < j < last[i] && check(i) == Deny ensures !Exposed(last, check, root, j) {
      assert Above(last, i, j);
    }
  }

  /** `dm_commit_nacm_subtree` (4809-4844).  The nodes checked are exactly those with no denied proper
      ancestor in the subtree, each once and in document order; some are denied exactly when some
      node of the subtree would be. */
  method CheckSubtree(ns: seq<Node>, ghost last: seq<nat>, root: nat, check: nat -> Verdict)
    returns (ok: bool, deniedCnt: nat, visited: seq<nat>)
    requires Forest(ns, last) && root < |ns|
    ensures ok <==> forall j :: root <= j < last[root] && Exposed(last, check, root, j) ==> check(j) != Failure
    ensures ok ==> Lists(last, check, root, last[root], visited)
    ensures deniedCnt == Denials(check, visited)
    ensures ok ==> (deniedCnt > 0 <==> exists j :: root <= j < last[root] && check(j) == Deny)
  {
    hide Exposed, Denials;
    visited, deniedCnt := [], 0;
    var node, backtracking := root, false;
    RootExposed(last, check, root);
    while !backtracking || node != root
      invariant root <= node < last[root] && Exposed(last, check, root, node)
      invariant Lists(last, check, root, if backtracking then last[node] else node, visited)
      invariant forall j :: j in visited ==> check(j) != Failure
      invariant deniedCnt == Denials(check, visited)
      decreases last[root] - (if backtracking then last[node] else node), if backtracking then node + 1 else 0
    {
      assert LinkedAt(ns, last, node);
      if !backtracking {
        var verdict := check(node);
        VisitNode(ns, last, check, root, node, visited);
        OneMoreDenial(check, visited, node);
        visited := visited + [node];
        if verdict == Failure {
          ok := false;
          return;
        }
        if verdict == Deny {
          deniedCnt := deniedCnt + 1;
        }
        if verdict != Deny && !ns[node].leafy && ns[node].child.Some? {
          ChildExposed(ns, last, check, root, node);
          node := ns[node].child.value;
        } else if ns[node].next.Some? && node != root {
          NextInside(ns, last, root, node);
          NextExposed(ns, last, check, root, node);
          node := ns[node].next.value;
        } else {
          backtracking := true;
        }
      } else {
        if ns[node].next.Some? {
          NextInside(ns, last, root, node);
          NextExposed(ns, last, check, root, node);
          node := ns[node].next.value;
          backtracking := false;
        } else {
          EndOfParent(ns, last, root, node);
          ParentExposed(ns, last, check, root, node);
          node := ns[node].parent.Up().value;
        }
      }
    }
    ok := true;
    DenialsMean(check, visited);
    FirstDenied(last, check, root, last[root]);
  }

  lemma RootExposed(last: seq<nat>, check: nat -> Verdict, root: nat)
    ensures Exposed(last, check, root, root) && Lists(last, check, root, root, []) && Denials(check, []) == 0
  {
  }

  lemma OneMoreDenial(check: nat -> Verdict, visited: seq<nat>, i: nat)
    ensures Denials(check, visited + [i]) == Denials(check, visited) + if check(i) == Deny then 1 else 0
  {
    assert (visited + [i])[..|visited|] == visited;
  }

  /** Pruning loses nothing: the first denied node of a subtree is exposed. */
  lemma {:induction false} FirstDenied(last: seq<nat>, check: nat -> Verdict, root: nat, limit: nat)
    requires root <= limit <= |last|
    ensures (exists j :: root <= j < limit && check(j) == Deny) <==> exists j :: root <= j < limit && check(j) == Deny && Exposed(last, check, root, j)
  {
    if root < limit {
      FirstDenied(last, check, root, limit - 1);
      if (forall j :: root <= j < limit - 1 ==> check(j) != Deny) {
        assert Exposed(last, check, root, limit - 1);
      }
    }
  }

  // ---------------------------------------------------------------- all changes of a commit

  datatype Side = Previous | New

  /** One entry of a diff list, with the node it names in the previous or the new tree. */
  datatype Change = Changed(first: nat) | MovedAfter1(first: nat) | Deleted(first: nat) | Created(second: nat) | MovedAfter2

  datatype Rc = Ok | Unauthorized | Failed

  ghost predicate InTrees(changes: seq<Change>, previous: seq<Node>, new_: seq<Node>) {
    forall i :: 0 <= i < |changes| ==>
      match changes[i]
      case Changed(f) => f < |previous|
      case MovedAfter1(f) => f < |previous|
      case Deleted(f) => f < |previous|
      case Created(s) => s < |new_|
      case MovedAfter2 => true
  }

  /** The change needs this access to the node: an update of the node itself, or the deletion or
      creation of a node in the subtree. */
  ghost predicate Needs(previous: seq<nat>, new_: seq<nat>, c: Change, side: Side, access: Access, j: nat) {
    match c
    case Changed(f) => side == Previous && access == Update && j == f
    case MovedAfter1(f) => side == Previous && access == Update && j == f
    case Deleted(f) => side == Previous && access == Delete && f < |previous| && f <= j < previous[f]
    case Created(s) => side == New && access == Create && s < |new_| && s <= j < new_[s]
    case MovedAfter2 => false
  }

  ghost predicate SomeNeed(previous: seq<nat>, new_: seq<nat>, check: (Side, Access, nat) -> Verdict, c: Change, v: Verdict) {
    exists side, access, j :: Needs(previous, new_, c, side, access, j) && check(side, access, j) == v
  }

  /** The node the change is about. */
  function Root(c: Change): nat {
    match c
    case Changed(f) => f
    case MovedAfter1(f) => f
    case Deleted(f) => f
    case Created(s) => s
    case MovedAfter2 => 0
  }

  /** A check that is made fails: of a node that the change needs, with no denied node above it that
      the change needs too. */
  ghost predicate SomeFails(previous: seq<nat>, new_: seq<nat>, check: (Side, Access, nat) -> Verdict, c: Change) {
    exists side, access, j :: Needs(previous, new_, c, side, access, j) && check(side, access, j) == Failure
      && forall a :: Root(c) <= a && Above(if side == Previous then previous else new_, a, j) ==> check(side, access, a) != Deny
  }

  /** The check of one change (4932-4957). */
  method CheckChange(previous: seq<Node>, ghost previousLast: seq<nat>, new_: seq<Node>, ghost newLast: seq<nat>, c: Change,
                     check: (Side, Access, nat) -> Verdict) returns (ok: bool, denied: nat)
    requires Forest(previous, previousLast) && Forest(new_, newLast) && InTrees([c], previous, new_)
    ensures ok <==> !SomeFails(previousLast, newLast, check, c)
    ensures ok ==> (denied > 0 <==> SomeNeed(previousLast, newLast, check, c, Deny))
  {
    hide SomeNeed, SomeFails, Exposed, LinkedAt;
    ok, denied := true, 0;
    assert [c][0] == c;
    match c
    case Changed(f) =>
      NeedsAre(previousLast, newLast, check, c, Previous, Update, f, f + 1);
      FailsAlone(previousLast, newLast, check, c, f);
      ok, denied := CheckNode(check(Previous, Update, f));
    case MovedAfter1(f) =>
      NeedsAre(previousLast, newLast, check, c, Previous, Update, f, f + 1);
      FailsAlone(previousLast, newLast, check, c, f);
      ok, denied := CheckNode(check(Previous, Update, f));
    case Deleted(f) =>
      NeedsAre(previousLast, newLast, check, c, Previous, Delete, f, previousLast[f]);
      var checked := (j: nat) => check(Previous, Delete, j);
      var visited;
      ok, denied, visited := CheckSubtree(previous, previousLast, f, checked);
      FailsInside(previousLast, newLast, check, c, Previous, Delete, previousLast, f, checked);
    case Created(s) =>
      NeedsAre(previousLast, newLast, check, c, New, Create, s, newLast[s]);
      var checked := (j: nat) => check(New, Create, j);
      var visited;
      ok, denied, visited := CheckSubtree(new_, newLast, s, checked);
      FailsInside(previousLast, newLast, check, c, New, Create, newLast, s, checked);
    case MovedAfter2 =>
      NeedsNone(previousLast, newLast, check, Deny);
  }

  /** A change of one node. */
  lemma FailsAlone(previous: seq<nat>, new_: seq<nat>, check: (Side, Access, nat) -> Verdict, c: Change, f: nat)
    requires (c == Changed(f) || c == MovedAfter1(f)) && f < |previous|
    ensures SomeFails(previous, new_, check, c) <==> check(Previous, Update, f) == Failure
  {
    assert Needs(previous, new_, c, Previous, Update, f);
  }

  /** A change of a subtree. */
  lemma FailsInside(previous: seq<nat>, new_: seq<nat>, check: (Side, Access, nat) -> Verdict, c: Change, side: Side, access: Access,
                    last: seq<nat>, root: nat, checked: nat -> Verdict)
    requires root < |last| && last == (if side == Previous then previous else new_) && Root(c) == root
    requires forall s, a, j: nat :: Needs(previous, new_, c, s, a, j) <==> s == side && a == access && root <= j < last[root]
    requires forall j: nat :: checked(j) == check(side, access, j)
    ensures SomeFails(previous, new_, check, c) <==> exists j: nat :: root <= j < last[root] && Exposed(last, checked, root, j) && checked(j) == Failure
  {
    if j: nat :| root <= j < last[root] && Exposed(last, checked, root, j) && checked(j) == Failure {
      assert Needs(previous, new_, c, side, access, j);
    }
  }

  /** A change that needs one access to a range of nodes. */
  lemma NeedsAre(previous: seq<nat>, new_: seq<nat>, check: (Side, Access, nat) -> Verdict, c: Change, side: Side, access: Access, lo: nat, hi: nat)
    requires forall s, a, j: nat :: Needs(previous, new_, c, s, a, j) <==> s == side && a == access && lo <= j < hi
    ensures forall v :: SomeNeed(previous, new_, check, c, v) <==> exists j: nat :: lo <= j < hi && check(side, access, j) == v
  {
    forall v ensures SomeNeed(previous, new_, check, c, v) <==> exists j: nat :: lo <= j < hi && check(side, access, j) == v {
      if j: nat :| lo <= j < hi && check(side, access, j) == v { assert Needs(previous, new_, c, side, access, j); }
    }
  }

  lemma NeedsNone(previous: seq<nat>, new_: seq<nat>, check: (Side, Access, nat) -> Verdict, v: Verdict)
    ensures !SomeNeed(previous, new_, check, MovedAfter2, v) && !SomeFails(previous, new_, check, MovedAfter2)
  {
  }

  /** `dm_commit_nacm_single_node` (4778-4806): the failure and the denial of one node. */
  method CheckNode(v: Verdict) returns (ok: bool, denied: nat)
    ensures ok <==> v != Failure
    ensures denied == if v == Deny then 1 else 0
  {
    ok, denied := v != Failure, if v == Deny then 1 else 0;
  }

  /** The loop over all changes (4930-4963): unless a check fails, the commit is refused exactly when
      some node that a change touches is denied, no matter how much was pruned. */
  method CheckChanges(previous: seq<Node>, ghost previousLast: seq<nat>, new_: seq<Node>, ghost newLast: seq<nat>, changes: seq<Change>,
                      check: (Side, Access, nat) -> Verdict) returns (rc: Rc)
    requires Forest(previous, previousLast) && Forest(new_, newLast) && InTrees(changes, previous, new_)
    ensures rc.Failed? <==> exists c :: c in changes && SomeFails(previousLast, newLast, check, c)
    ensures !rc.Failed? ==> (rc.Unauthorized? <==> exists c :: c in changes && SomeNeed(previousLast, newLast, check, c, Deny))
  {
    hide SomeNeed, SomeFails, Forest;
    var deniedCnt := 0;
    var i := 0;
    while i < |changes|
      invariant 0 <= i <= |changes| && deniedCnt >= 0
      invariant deniedCnt > 0 <==> exists k :: 0 <= k < i && SomeNeed(previousLast, newLast, check, changes[k], Deny)
      invariant forall k :: 0 <= k < i ==> !SomeFails(previousLast, newLast, check, changes[k])
    {
      var ok, denied := CheckChange(previous, previousLast, new_, newLast, changes[i], check);
      if !ok {
        return Failed;
      }
      deniedCnt := deniedCnt + denied;
      i := i + 1;
    }
    rc := if deniedCnt > 0 then Unauthorized else Ok;
  }
}
