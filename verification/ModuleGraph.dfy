/** The module dependency graph: its transitive closure and the removal of modules
    (src/module_dependencies.c). */
module ModuleGraph {
  import opened DepGraph
  import opened Reachability
  import opened RemovalSpec
  import opened RemovalInvariant
  import opened RemovalSteps
  import opened RemovalSweep

  /** What the pointer accesses of the closure rely on.  `pending` are modules in the middle of
      their removal whose inverted lists still name modules that are gone, but only through
      extension edges; they have no outgoing extension edge themselves. */
  ghost predicate Safe(deps: Lists, inv: Lists, pending: set<Mod>) {
    && deps.Keys == inv.Keys
    && (forall i, e :: i in deps && e in deps[i] ==> e.dest in deps)
    && (forall k, e :: k in inv && k !in pending && e in inv[k] ==> e.dest in deps)
    && (forall k, e :: k in inv && k in pending && e in inv[k] ==> e.ty.Extension? || e.dest in deps)
    && (forall k, e :: k in deps && k in pending && e in deps[k] ==> !e.ty.Extension?)
    && (forall k, e :: k in inv && k !in pending && e in inv[k] && e.ty.Extension? ==> e.dest !in pending)
  }

  /** The two sides of the graph hold the same edges. */
  ghost predicate Converse(deps: Lists, inv: Lists) {
    forall i, t, j :: Edge(deps, i, t, j) <==> Edge(inv, j, t, i)
  }

  /** A list grew only by transitive entries at its end. */
  ghost predicate GrewTransitively(before: seq<Dep>, after: seq<Dep>) {
    before <= after && forall e :: e in after[|before|..] ==> !e.direct
  }

  ghost predicate Grew(before: Lists, after: Lists) {
    before.Keys == after.Keys && forall i :: i in before ==> GrewTransitively(before[i], after[i])
  }

  /** Edges from i to k and from k to j, of type t, k being the module the closure is at. */
  ghost predicate Meets(deps: Lists, inv: Lists, k: Mod, i: Mod, t: DepType, j: Mod) {
    i != j && Edge(inv, k, t, i) && Edge(deps, k, t, j)
  }

  /** The closed graph: module i lists (t, j), i != j, exactly when a path of direct t-edges
      leads from i to j. */
  ghost predicate Closed(direct: Lists, deps: Lists) {
    forall i, t, j :: i != j ==> (Edge(deps, i, t, j) <==> Reaches(direct, t, i, j))
  }

  /** All edges, of either side, are in a given relation. */
  ghost predicate Bounded(reach: set<(Mod, DepType, Mod)>, deps: Lists, inv: Lists) {
    && (forall i, t, j :: Edge(deps, i, t, j) ==> (i, t, j) in reach)
    && (forall i, t, j :: Edge(inv, j, t, i) ==> (i, t, j) in reach)
  }

  /** No edge appeared. */
  ghost predicate Fewer(before: Lists, after: Lists) {
    forall i, t, j :: Edge(after, i, t, j) ==> Edge(before, i, t, j)
  }

  lemma BoundedFewer(reach: set<(Mod, DepType, Mod)>, d: Lists, v: Lists, deps: Lists, inv: Lists)
    requires Bounded(reach, d, v) && Fewer(d, deps) && Fewer(v, inv)
    ensures Bounded(reach, deps, inv)
  {
    hide Edge;
  }

  lemma FewerDirect(g: Lists)
    ensures Fewer(g, DirectPart(g))
  {
    forall i, t, j | Edge(DirectPart(g), i, t, j) ensures Edge(g, i, t, j) {
      DirectHas(g[i], t, j);
    }
  }

  /** A module that no inverted list named, by a type, is still not named by it. */
  ghost predicate NoNewNames(before: Lists, after: Lists) {
    forall t, i :: Unnamed(before, t, i) ==> Unnamed(after, t, i)
  }

  ghost predicate Unnamed(inv: Lists, t: DepType, i: Mod) {
    forall k :: !Edge(inv, k, t, i)
  }

  lemma NoNewNamesOneMore(v0: Lists, k: Mod, d1: Lists, v1: Lists, v2: Lists)
    requires NoNewNames(v0, v1)
    requires forall i, t, j :: Edge(v2, j, t, i) <==> Edge(v1, j, t, i) || Meets(d1, v1, k, i, t, j)
    ensures NoNewNames(v0, v2)
  {
    hide Edge;
  }

  /** Imports and inclusions that meet at k directly are on record as computed, unless the modules at
      their ends list one another directly. */
  ghost predicate Bridged(plan: Plan, deps: Lists, inv: Lists) {
    forall k, b, t, y :: Meets(DirectPart(deps), DirectPart(inv), k, b, t, y) && IsFirm(t) && y in inv && (b, y) !in plan.listed ==>
      Edge(inv, y, t, b)
  }

  /** What is known of computed edges. */
  ghost predicate Computed(plan: Plan, deps: Lists, inv: Lists) {
    Bounded(plan.reach, deps, inv) && Bridged(plan, deps, inv)
  }

  /** No edge appeared on either side, direct or computed. */
  ghost predicate Shrunk(d: Lists, v: Lists, deps: Lists, inv: Lists) {
    && Fewer(d, deps) && Fewer(v, inv)
    && Fewer(DirectPart(d), DirectPart(deps)) && Fewer(DirectPart(v), DirectPart(inv))
  }

  /** Edges went, but no import or inclusion that is not a module's own from the inverted lists. */
  ghost predicate Less(plan: Plan, d: Lists, v: Lists, deps: Lists, inv: Lists) {
    && inv.Keys <= v.Keys && Shrunk(d, v, deps, inv)
    && forall y, t, b :: y in inv && IsFirm(t) && (b, y) !in plan.listed && Edge(v, y, t, b) ==> Edge(inv, y, t, b)
  }

  lemma ComputedLess(plan: Plan, d: Lists, v: Lists, deps: Lists, inv: Lists)
    requires Computed(plan, d, v) && Less(plan, d, v, deps, inv)
    ensures Computed(plan, deps, inv)
  {
    hide Edge, DirectPart, IsFirm;
    BoundedFewer(plan.reach, d, v, deps, inv);
    forall k, b, t, y | Meets(DirectPart(deps), DirectPart(inv), k, b, t, y) && IsFirm(t) && y in inv && (b, y) !in plan.listed
      ensures Edge(inv, y, t, b)
    {
      assert Meets(DirectPart(d), DirectPart(v), k, b, t, y);
      assert Edge(v, y, t, b);
    }
  }

  /** Linking through k stays within a transitive relation. */
  lemma BoundedOneMore(plan: Plan, k: Mod, d1: Lists, v1: Lists, d2: Lists, v2: Lists)
    requires plan.Transitive() && Bounded(plan.reach, d1, v1)
    requires forall i, t, j :: Edge(d2, i, t, j) <==> Edge(d1, i, t, j) || Meets(d1, v1, k, i, t, j)
    requires forall i, t, j :: Edge(v2, j, t, i) <==> Edge(v1, j, t, i) || Meets(d1, v1, k, i, t, j)
    ensures Bounded(plan.reach, d2, v2)
  {
    hide Edge;
    forall i, t, j | Meets(d1, v1, k, i, t, j) ensures (i, t, j) in plan.reach {
      assert (i, t, k) in plan.reach && (k, t, j) in plan.reach;
    }
  }

  /** The list after recording a transitive edge. */
  ghost function WithTransitive(l: seq<Dep>, t: DepType, d: Mod): (r: seq<Dep>)
    ensures GrewTransitively(l, r)
  {
    if Has(l, t, d) then l else l + [Dep(t, d, false, [])]
  }

  lemma GrewMore(before: Lists, mid: Lists, i: Mod, t: DepType, j: Mod)
    requires Grew(before, mid) && i in mid
    ensures Grew(before, mid[i := WithTransitive(mid[i], t, j)])
  {
    var n := |before[i]|;
    assert GrewTransitively(before[i], mid[i]);
    assert (mid[i] + [Dep(t, j, false, [])])[n..] == mid[i][n..] + [Dep(t, j, false, [])];
  }

  lemma {:induction false} DirectHas(l: seq<Dep>, t: DepType, d: Mod)
    ensures Has(DirectOnly(l), t, d) <==> exists e :: e in l && e.direct && e.ty == t && e.dest == d
  {
    if l != [] {
      DirectHas(l[1..], t, d);
      assert l == [l[0]] + l[1..];
    }
  }

  /** The direct edges of a list after a direct one is added, or made direct. */
  lemma AddedDirectly(g: Lists, i: Mod, ty: DepType, j: Mod, orig: Option<Mod>, l: seq<Dep>)
    requires i in g
    requires Records(g[i], ty, j, true, orig, l)
    ensures forall a, u, b :: Edge(DirectPart(g[i := l]), a, u, b) <==> Edge(DirectPart(g), a, u, b) || (a == i && u == ty && b == j)
  {
    hide DirectOnly;
    forall u, b ensures Has(DirectOnly(l), u, b) <==> Has(DirectOnly(g[i]), u, b) || (u == ty && b == j) {
      DirectHas(l, u, b);
      DirectHas(g[i], u, b);
      if Has(g[i], ty, j) {
        var k :| 0 <= k < |g[i]| && g[i][k].ty == ty && g[i][k].dest == j && l == g[i][k := Dep(ty, j, true, WithOrig(g[i][k].origs, orig))];
        UpdatedDirect(g[i], k, l[k], u, b);
      }
    }
  }

  /** One side of a new direct edge. */
  method AddDirectly(g: Lists, i: Mod, ty: DepType, j: Mod, orig: Option<Mod>) returns (l: seq<Dep>)
    requires i in g
    ensures Records(g[i], ty, j, true, orig, l) && GainsDirect(g, i, ty, j, g[i := l])
  {
    hide DirectOnly, DirectPart, Has, Edge, UniqueEntries, Records;
    l := AddDependency(g[i], ty, j, true, orig);
    AddedDirectly(g, i, ty, j, orig, l);
  }

  /** The direct edges are those before and one from i to j. */
  ghost predicate GainsDirect(g: Lists, i: Mod, ty: DepType, j: Mod, r: Lists) {
    forall a, u, b :: Edge(DirectPart(r), a, u, b) <==> Edge(DirectPart(g), a, u, b) || (a == i && u == ty && b == j)
  }

  lemma ConverseKept(d0: Lists, v0: Lists, i: Mod, ty: DepType, j: Mod, d: Lists, v: Lists)
    requires GainsDirect(d0, i, ty, j, d) && GainsDirect(v0, j, ty, i, v)
    ensures Converse(DirectPart(d0), DirectPart(v0)) ==> Converse(DirectPart(d), DirectPart(v))
  {
    hide Edge;
  }

  lemma UpdatedDirect(l: seq<Dep>, k: nat, e: Dep, u: DepType, b: Mod)
    requires k < |l| && e.direct && e.ty == l[k].ty && e.dest == l[k].dest
    ensures (exists x :: x in l[k := e] && x.direct && x.ty == u && x.dest == b) <==>
            (exists x :: x in l && x.direct && x.ty == u && x.dest == b) || (u == e.ty && b == e.dest)
  {
    var r := l[k := e];
    assert r[k] in r;
    if x :| x in l && x.direct && x.ty == u && x.dest == b {
      var n :| 0 <= n < |l| && l[n] == x;
      assert r[n] in r;
    }
    if x :| x in r && x.direct && x.ty == u && x.dest == b {
      var n :| 0 <= n < |r| && r[n] == x;
      assert l[n] in l;
    }
  }

  lemma EdgesAfterAdd(g: Lists, i: Mod, l: seq<Dep>, t: DepType, j: Mod)
    requires i in g
    requires forall u, d :: Has(l, u, d) <==> Has(g[i], u, d) || (u == t && d == j)
    ensures forall a, u, b :: Edge(g[i := l], a, u, b) <==> Edge(g, a, u, b) || (a == i && u == t && b == j)
  {
    var h := g[i := l];
    forall a, u, b ensures Edge(h, a, u, b) <==> Edge(g, a, u, b) || (a == i && u == t && b == j) {
      if a == i {
        assert Has(l, u, b) <==> Has(g[i], u, b) || (u == t && b == j);
      }
    }
  }

  /** Linking I -> J through K touches live modules only, and neither list of K. */
  lemma RelaxIsSafe(deps: Lists, inv: Lists, pending: set<Mod>, k: Mod, ik: Dep, kj: Dep)
    requires Safe(deps, inv, pending) && k in deps && ik in inv[k] && kj in deps[k]
    requires ik.ty == kj.ty && ik.dest != kj.dest
    ensures ik.dest in deps && kj.dest in inv
    ensures var d := deps[ik.dest := WithTransitive(deps[ik.dest], ik.ty, kj.dest)];
            var v := inv[kj.dest := WithTransitive(inv[kj.dest], ik.ty, ik.dest)];
            Safe(d, v, pending) && d[k] == deps[k] && v[k] == inv[k]
  {
  }

  lemma RelaxLinks(d0: Lists, v0: Lists, k: Mod, a: nat, b: nat, d1: Lists, v1: Lists, d2: Lists, v2: Lists)
    requires k in d0 && k in v0 && a < |v0[k]| && b < |d0[k]|
    requires Linked(d0, v0, k, a, b, d1, v1)
    requires v0[k][a].ty == d0[k][b].ty && v0[k][a].dest != d0[k][b].dest
    requires forall i, t, j :: Edge(d2, i, t, j) <==>
               Edge(d1, i, t, j) || (i == v0[k][a].dest && t == v0[k][a].ty && j == d0[k][b].dest)
    requires forall j, t, i :: Edge(v2, j, t, i) <==>
               Edge(v1, j, t, i) || (i == v0[k][a].dest && t == v0[k][a].ty && j == d0[k][b].dest)
    ensures Linked(d0, v0, k, a, b + 1, d2, v2)
  {
    assert v0[k][a] in v0[k] && d0[k][b] in d0[k];
    assert Meets(d0, v0, k, v0[k][a].dest, v0[k][a].ty, d0[k][b].dest);
  }

  lemma SkipLinks(d0: Lists, v0: Lists, k: Mod, a: nat, b: nat, deps: Lists, inv: Lists)
    requires k in d0 && k in v0 && a < |v0[k]| && b < |d0[k]|
    requires Linked(d0, v0, k, a, b, deps, inv)
    requires v0[k][a].ty != d0[k][b].ty || v0[k][a].dest == d0[k][b].dest
    ensures Linked(d0, v0, k, a, b + 1, deps, inv)
  {
  }

  lemma RowLinked(d0: Lists, v0: Lists, k: Mod, a: nat, deps: Lists, inv: Lists)
    requires k in d0 && k in v0 && Linked(d0, v0, k, a, |d0[k]|, deps, inv)
    ensures Linked(d0, v0, k, a + 1, 0, deps, inv)
  {
  }

  /** All pairs linked: exactly the edges that meet at k have been added. */
  lemma AllLinked(d0: Lists, v0: Lists, k: Mod, deps: Lists, inv: Lists)
    requires k in d0 && k in v0 && Linked(d0, v0, k, |v0[k]|, 0, deps, inv)
    ensures forall i, t, j :: Edge(deps, i, t, j) <==> Edge(d0, i, t, j) || Meets(d0, v0, k, i, t, j)
    ensures forall i, t, j :: Edge(inv, j, t, i) <==> Edge(v0, j, t, i) || Meets(d0, v0, k, i, t, j)
  {
    forall i, t, j | Meets(d0, v0, k, i, t, j) ensures Edge(deps, i, t, j) && Edge(inv, j, t, i) {
      var e :| e in v0[k] && e.ty == t && e.dest == i;
      var f :| f in d0[k] && f.ty == t && f.dest == j;
      var x :| 0 <= x < |v0[k]| && v0[k][x] == e;
      var y :| 0 <= y < |d0[k]| && d0[k][y] == f;
      assert v0[k][x].ty == d0[k][y].ty && v0[k][x].dest != d0[k][y].dest;
    }
  }

  lemma GrewListKeepsDirect(before: seq<Dep>, after: seq<Dep>)
    requires GrewTransitively(before, after)
    ensures DirectOnly(after) == DirectOnly(before)
  {
    assert after == before + after[|before|..];
    DirectOnlyConcat(before, after[|before|..]);
    DirectOnlyNothing(after[|before|..]);
  }

  lemma GrewKeepsDirect(before: Lists, after: Lists)
    requires Grew(before, after)
    ensures DirectPart(after) == DirectPart(before)
  {
    forall i | i in before ensures DirectOnly(after[i]) == DirectOnly(before[i]) {
      GrewListKeepsDirect(before[i], after[i]);
    }
  }

  lemma GrewSelf(g: Lists)
    ensures Grew(g, g)
  {
  }

  lemma GrewKeys(before: Lists, after: Lists)
    requires Grew(before, after)
    ensures before.Keys == after.Keys
  {
  }

  lemma SafeKeys(deps: Lists, inv: Lists, pending: set<Mod>)
    requires Safe(deps, inv, pending)
    ensures deps.Keys == inv.Keys
  {
  }

  lemma JoinedNothing(d0: Lists, v0: Lists, inv: Lists)
    ensures Joined(d0, v0, {}, inv)
  {
  }

  lemma EnumeratedOnce(modules: seq<Mod>, keys: set<Mod>)
    requires Enumerates(modules, keys)
    ensures Distinct(modules) && Elems(modules) == keys
  {
  }

  lemma GrewTwice(a: Lists, b: Lists, c: Lists)
    requires Grew(a, b) && Grew(b, c)
    ensures Grew(a, c)
  {
    forall i | i in a ensures GrewTransitively(a[i], c[i]) {
      assert GrewTransitively(a[i], b[i]) && GrewTransitively(b[i], c[i]);
      var n, m := |a[i]|, |b[i]|;
      forall e | e in c[i][n..] ensures !e.direct {
        var x :| n <= x < |c[i]| && c[i][x] == e;
        if x < m {
          assert b[i][x] in b[i][n..];
        } else {
          assert c[i][x] in c[i][m..];
        }
      }
    }
  }

  lemma DirectPartIsDirect(g: Lists)
    ensures DirectPart(DirectPart(g)) == DirectPart(g)
  {
    forall i | i in g ensures DirectOnly(DirectOnly(g[i])) == DirectOnly(g[i]) {
      DirectOnlyIdentity(DirectOnly(g[i]));
    }
  }

  ghost function Elems(s: seq<Mod>): (r: set<Mod>)
    ensures forall m :: m in r <==> m in s
  {
    set m | m in s
  }

  lemma ElemsNext(s: seq<Mod>, n: nat)
    requires Distinct(s) && n < |s|
    ensures Elems(s[..n + 1]) == Elems(s[..n]) + {s[n]} && s[n] !in Elems(s[..n])
  {
    assert s[..n + 1] == s[..n] + [s[n]];
  }

  /** The graph side with the transitive entries of `done` forgotten. */
  ghost function DirectOn(g: Lists, done: set<Mod>): (r: Lists)
    ensures r.Keys == g.Keys
  {
    map i | i in g :: if i in done then DirectOnly(g[i]) else g[i]
  }

  lemma DirectOnNext(g: Lists, done: set<Mod>, m: Mod)
    requires m in g && m !in done
    ensures DirectOn(g, done)[m] == g[m]
    ensures DirectOn(g, done + {m}) == DirectOn(g, done)[m := DirectOnly(g[m])]
  {
  }

  lemma DirectOnNone(g: Lists, s: seq<Mod>)
    ensures DirectOn(g, Elems(s[..0])) == g
  {
  }

  lemma DirectOnAll(g: Lists, done: set<Mod>)
    requires g.Keys <= done
    ensures DirectOn(g, done) == DirectPart(g)
  {
  }

  /** Progress of the Floyd-Warshall loop: an edge is recorded exactly when a walk of direct
      edges stops only at the modules done so far; a self-edge only when it is direct. */
  ghost predicate ClosedThrough(direct: Lists, done: set<Mod>, deps: Lists) {
    && (forall i, t, j :: i != j ==> (Edge(deps, i, t, j) <==> Connected(direct, t, done, i, j)))
    && (forall i, t :: Edge(deps, i, t, i) <==> Edge(direct, i, t, i))
  }

  lemma ClosedThroughNothing(direct: Lists)
    ensures ClosedThrough(direct, {}, direct)
  {
    forall i, t, j ensures Edge(direct, i, t, j) <==> Connected(direct, t, {}, i, j) {
      ConnectedDirectly(direct, t, i, j);
    }
  }

  lemma ClosedThroughOneMore(direct: Lists, done: set<Mod>, k: Mod, d1: Lists, v1: Lists, d2: Lists, v2: Lists)
    requires ClosedThrough(direct, done, d1) && Converse(d1, v1)
    requires forall i, t, j :: Edge(d2, i, t, j) <==> Edge(d1, i, t, j) || Meets(d1, v1, k, i, t, j)
    requires forall i, t, j :: Edge(v2, j, t, i) <==> Edge(v1, j, t, i) || Meets(d1, v1, k, i, t, j)
    ensures ClosedThrough(direct, done + {k}, d2) && Converse(d2, v2)
  {
    forall i, t, j | i != j ensures Edge(d2, i, t, j) <==> Connected(direct, t, done + {k}, i, j) {
      OneMoreStop(direct, t, done, k, i, j);
    }
  }

  /** What met at a module that is done has been linked. */
  ghost predicate Joined(d0: Lists, v0: Lists, done: set<Mod>, inv: Lists) {
    forall k, i, t, j :: k in done && Meets(d0, v0, k, i, t, j) ==> Edge(inv, j, t, i)
  }

  lemma JoinedOneMore(d0: Lists, v0: Lists, done: set<Mod>, k: Mod, d1: Lists, v1: Lists, v2: Lists)
    requires Joined(d0, v0, done, v1) && Grew(d0, d1) && Grew(v0, v1)
    requires forall i, t, j :: Edge(v2, j, t, i) <==> Edge(v1, j, t, i) || Meets(d1, v1, k, i, t, j)
    ensures Joined(d0, v0, done + {k}, v2)
  {
    GrewEdges(d0, d1);
    GrewEdges(v0, v1);
    hide Edge, Grew;
  }

  lemma GrewEdges(before: Lists, after: Lists)
    requires Grew(before, after)
    ensures Fewer(after, before)
  {
    forall i, t, j | Edge(before, i, t, j) ensures Edge(after, i, t, j) {
      var e :| e in before[i] && e.ty == t && e.dest == j;
      assert GrewTransitively(before[i], after[i]);
      assert e in after[i];
    }
  }

  lemma JoinedIsBridged(plan: Plan, d0: Lists, v0: Lists, deps: Lists, inv: Lists)
    requires DirectPart(deps) == d0 && DirectPart(inv) == v0 && Joined(d0, v0, deps.Keys, inv)
    ensures Bridged(plan, deps, inv)
  {
    hide DirectPart;
  }

  lemma ClosedThroughAll(direct: Lists, done: set<Mod>, deps: Lists)
    requires direct.Keys <= done && ClosedThrough(direct, done, deps)
    ensures Closed(direct, deps)
  {
    forall i, t, j | i != j ensures Edge(deps, i, t, j) <==> Reaches(direct, t, i, j) {
      AllStops(direct, t, done, i, j);
    }
  }

  // ---------------------------------------------------------------- removal, on the lists

  /** Lists after the edges into m were cut: the sources are those named by direct entries of the
      inverted list. */
  ghost predicate CutInto(before: Lists, sources: seq<Dep>, m: Mod, after: Lists) {
    && after.Keys == before.Keys
    && forall i :: i in before ==> after[i] == if LeadsTo(sources, i) then RemoveTo(before[i], m) else before[i]
  }

  lemma CutIntoDirect(plan: Plan, deps: Lists, inv: Lists, busy: set<Mod>, m: Mod, after: Lists)
    requires Ready(plan, DirectPart(deps), DirectPart(inv), busy, m) && m in inv
    requires CutInto(deps, DirectOnly(inv[m]), m, after)
    ensures after.Keys == deps.Keys
    ensures forall i :: i in after ==> DirectOnly(after[i]) == RemoveTo(DirectOnly(deps[i]), m)
  {
    hide RemoveTo, DirectOnly, Inv;
    ReadyForCut(plan, deps, inv, busy, m);
    forall i | i in after ensures DirectOnly(after[i]) == RemoveTo(DirectOnly(deps[i]), m) {
      if LeadsTo(DirectOnly(inv[m]), i) {
        DirectOnlyRemoveTo(deps[i], m);
      } else {
        var dd := DirectPart(deps);
        forall e: Dep | e in dd[i] ensures e.dest != m {
          if e.dest == m { SourcesKnown(plan, dd, DirectPart(inv), busy, m, i); }
        }
        RemoveToNothing(dd[i], m);
      }
    }
  }

  /** Lists after m was forgotten as an originator at the modules it imports. */
  ghost predicate Forgotten(before: Lists, imports: seq<Dep>, m: Mod, after: Lists) {
    && after.Keys == before.Keys
    && forall i :: i in before ==> after[i] == if Has(imports, Import, i) then DropOrig(before[i], m) else before[i]
  }

  lemma PushedDirectAt(before: Lists, imports: seq<Dep>, m: Mod, after: Lists, i: Mod)
    requires Forgotten(before, imports, m, after) && i in before
    ensures DirectOnly(after[i]) ==
            if Has(imports, Import, i) then DropOrig(DirectOnly(before[i]), m) else DirectOnly(before[i])
  {
    hide DirectOnly, DropOrig;
    DirectOnlyDropOrig(before[i], m);
  }

  lemma PushedDirect(deps0: Lists, inv0: Lists, m: Mod, deps1: Lists, deps: Lists, inv: Lists)
    requires m in deps0 && m in inv0 && deps1.Keys == deps0.Keys
    requires forall i :: i in deps1 ==> DirectOnly(deps1[i]) == RemoveTo(DirectOnly(deps0[i]), m)
    requires Forgotten(deps1, DirectOnly(deps1[m]), m, deps)
    requires Forgotten(inv0, DirectOnly(deps1[m]), m, inv)
    ensures IsPushed(DirectPart(deps0), DirectPart(inv0), m, DirectPart(deps), DirectPart(inv))
  {
    var dd, vv := DirectPart(deps0), DirectPart(inv0);
    var d, v := DirectPart(deps), DirectPart(inv);
    hide RemoveTo, DirectOnly, DropOrig, DirectPart, Has;
    var l := dd[m];
    SameLeads(l, m);
    forall i | i in d && i != m
      ensures d[i] == if Has(l, Import, i) then DropOrig(RemoveTo(dd[i], m), m) else RemoveTo(dd[i], m)
    {
      PushedDirectAt(deps1, RemoveTo(l, m), m, deps, i);
    }
    forall k | k in v && k != m ensures v[k] == if Has(l, Import, k) then DropOrig(vv[k], m) else vv[k] {
      PushedDirectAt(inv0, RemoveTo(l, m), m, inv, k);
    }
    PushedDirectAt(deps1, RemoveTo(l, m), m, deps, m);
    PushedDirectAt(inv0, RemoveTo(l, m), m, inv, m);
  }

  lemma SameLeads(l: seq<Dep>, m: Mod)
    ensures forall i :: i != m ==> (Has(RemoveTo(l, m), Import, i) <==> Has(l, Import, i))
    ensures !Has(RemoveTo(l, m), Import, m)
  {
    hide RemoveTo;
    forall i | i != m && Has(l, Import, i) ensures Has(RemoveTo(l, m), Import, i) {
      var e :| e in l && e.dest == i && e.ty == Import;
      assert e in RemoveTo(l, m);
    }
  }

  /** The modules being removed that are still found from one that is gone. */
  ghost function Tainted(dd: Lists, vv: Lists, busy: set<Mod>): (r: set<Mod>)
    ensures busy == {} ==> r == {}
  {
    set k | k in busy && k in vv && exists f :: f in vv[k] && f.dest !in dd
  }

  /** Such a module was extended by one that is gone, so it extends nothing itself. */
  lemma TaintedExtendsNothing(plan: Plan, dd: Lists, vv: Lists, busy: set<Mod>, k: Mod, j: Mod)
    requires Inv(plan, dd, vv, busy, {}) && k in Tainted(dd, vv, busy)
    requires j in dd && j != k
    ensures (k, j) !in plan.extensions
  {
    hide Mirror, StillListed, Paired, OwnOrigins, Originated, Firmly, Orderly;
    var f :| f in vv[k] && f.dest !in dd;
    assert (f.dest, k) in plan.extensions && f.dest in plan.removable && k in plan.leaving;
  }

  /** The invariant of the removal is all the closure needs while removals are pending. */
  lemma InvIsSafe(plan: Plan, dd: Lists, vv: Lists, busy: set<Mod>)
    requires Inv(plan, dd, vv, busy, {})
    ensures Safe(dd, vv, Tainted(dd, vv, busy))
  {
    hide Paired, OwnOrigins, Originated, Firmly, Orderly;
    var tainted := Tainted(dd, vv, busy);
    forall k, e: Dep | k in vv && k !in busy && e in vv[k] ensures e.dest in dd {
      if e.dest in busy { assert Has(dd[e.dest], e.ty, k); }
    }
    forall k, e: Dep | k in dd && k in tainted && e in dd[k] ensures !e.ty.Extension? {
      TaintedExtendsNothing(plan, dd, vv, busy, k, e.dest);
    }
    forall k, e: Dep | k in vv && k !in tainted && e in vv[k] && e.ty.Extension? ensures e.dest !in tainted {
      if e.dest in tainted { TaintedExtendsNothing(plan, dd, vv, busy, e.dest, k); }
    }
  }

  lemma MirrorIsConverse(dd: Lists, vv: Lists)
    requires dd.Keys == vv.Keys && Mirror(dd, vv, {})
    ensures Converse(dd, vv)
  {
    forall i, t, j | Edge(dd, i, t, j) ensures Edge(vv, j, t, i) {
      var e :| e in dd[i] && e.ty == t && e.dest == j;
      assert Dep(e.ty, i, true, e.origs) in vv[j];
    }
    forall i, t, j | Edge(vv, j, t, i) ensures Edge(dd, i, t, j) {
      var f :| f in vv[j] && f.ty == t && f.dest == i;
      assert Dep(f.ty, j, true, f.origs) in dd[i];
    }
  }

  /** `md_ctx_t`. */
  class MdCtx {
    var modules: seq<Mod>
    var deps: Lists
    var inv: Lists
    var submodules: set<Mod>
    var installed: set<Mod>

    constructor (modules: seq<Mod>, deps: Lists, inv: Lists, submodules: set<Mod>, installed: set<Mod>)
      ensures this.modules == modules && this.deps == deps && this.inv == inv
      ensures this.submodules == submodules && this.installed == installed
    {
      this.modules, this.deps, this.inv, this.submodules, this.installed := modules, deps, inv, submodules, installed;
    }

    ghost predicate Shape()
      reads this
    {
      deps.Keys == inv.Keys && Enumerates(modules, deps.Keys)
    }

    /** A direct edge is recorded on both sides, as every place that builds the graph does (984-985,
        1402-1403, 2117-2118): the direct edges mirror each other still. */
    method AddEdge(i: Mod, ty: DepType, j: Mod, orig: Option<Mod>)
      requires Shape() && i in deps && j in deps
      modifies `deps, `inv
      ensures Shape()
      ensures GainsDirect(old(deps), i, ty, j, deps) && GainsDirect(old(inv), j, ty, i, inv)
      ensures deps == old(deps)[i := deps[i]] && Records(old(deps)[i], ty, j, true, orig, deps[i])
      ensures inv == old(inv)[j := inv[j]] && Records(old(inv)[j], ty, i, true, orig, inv[j])
      ensures Converse(DirectPart(old(deps)), DirectPart(old(inv))) ==> Converse(DirectPart(deps), DirectPart(inv))
    {
      hide DirectPart, Enumerates, GainsDirect, Converse, Records;
      var to := AddDirectly(deps, i, ty, j, orig);
      var from := AddDirectly(inv, j, ty, i, orig);
      var d, v := deps[i := to], inv[j := from];
      assert d.Keys == deps.Keys && v.Keys == inv.Keys && d[i] == to && v[j] == from;
      ConverseKept(deps, inv, i, ty, j, d, v);
      deps := d;
      inv := v;
    }

    /** The body of the innermost loop: record I -> J on both sides. */
    method Relax(i: Mod, t: DepType, j: Mod)
      requires i in deps && j in inv
      modifies `deps, `inv
      ensures deps == old(deps)[i := WithTransitive(old(deps)[i], t, j)]
      ensures inv == old(inv)[j := WithTransitive(old(inv)[j], t, i)]
      ensures forall a, u, b :: Edge(deps, a, u, b) <==> Edge(old(deps), a, u, b) || (a == i && u == t && b == j)
      ensures forall a, u, b :: Edge(inv, a, u, b) <==> Edge(old(inv), a, u, b) || (a == j && u == t && b == i)
    {
      var l := AddDependency(deps[i], t, j, false, None);
      EdgesAfterAdd(deps, i, l, t, j);
      deps := deps[i := l];
      l := AddDependency(inv[j], t, i, false, None);
      EdgesAfterAdd(inv, j, l, t, i);
      inv := inv[j := l];
    }

    /** The two inner loops at module K: for every I in K's inverted list and every J in K's list,
        both live lists being walked by index while `Relax` may append to lists. */
    method LinkThrough(k: Mod, ghost pending: set<Mod>)
      requires Safe(deps, inv, pending) && k in deps
      modifies `deps, `inv
      ensures Safe(deps, inv, pending)
      ensures Grew(old(deps), deps) && Grew(old(inv), inv)
      // the lists being walked are not disturbed
      ensures deps[k] == old(deps)[k] && inv[k] == old(inv)[k]
      ensures forall i, t, j :: Edge(deps, i, t, j) <==>
                Edge(old(deps), i, t, j) || Meets(old(deps), old(inv), k, i, t, j)
      ensures forall i, t, j :: Edge(inv, j, t, i) <==>
                Edge(old(inv), j, t, i) || Meets(old(deps), old(inv), k, i, t, j)
    {
      ghost var d0, v0 := deps, inv;
      var a := 0;
      while a < |inv[k]|
        invariant Safe(deps, inv, pending) && k in deps && deps.Keys == d0.Keys
        invariant deps[k] == d0[k] && inv[k] == v0[k]
        invariant 0 <= a <= |inv[k]|
        invariant Grew(d0, deps) && Grew(v0, inv)
        invariant Linked(d0, v0, k, a, 0, deps, inv)
      {
        var b := 0;
        while b < |deps[k]|
          invariant Safe(deps, inv, pending) && k in deps && deps.Keys == d0.Keys
          invariant deps[k] == d0[k] && inv[k] == v0[k]
          invariant 0 <= a < |inv[k]| && 0 <= b <= |deps[k]|
          invariant Grew(d0, deps) && Grew(v0, inv)
          invariant Linked(d0, v0, k, a, b, deps, inv)
        {
          var ik, kj := inv[k][a], deps[k][b];
          assert ik in inv[k] && kj in deps[k];
          if ik.dest != kj.dest && ik.ty == kj.ty {
            RelaxIsSafe(deps, inv, pending, k, ik, kj);
            GrewMore(d0, deps, ik.dest, ik.ty, kj.dest);
            GrewMore(v0, inv, kj.dest, ik.ty, ik.dest);
            ghost var d1, v1 := deps, inv;
            Relax(ik.dest, ik.ty, kj.dest);
            RelaxLinks(d0, v0, k, a, b, d1, v1, deps, inv);
          } else {
            SkipLinks(d0, v0, k, a, b, deps, inv);
          }
          b := b + 1;
        }
        RowLinked(d0, v0, k, a, deps, inv);
        a := a + 1;
      }
      AllLinked(d0, v0, k, deps, inv);
    }

    /** First loop of `md_transitive_closure`: forget what an earlier closure computed. */
    method ForgetTransitive()
      requires Shape()
      modifies `deps, `inv
      ensures deps == DirectPart(old(deps)) && inv == DirectPart(old(inv))
    {
      hide DirectOnly, DirectOn, DirectPart;
      ghost var d0, v0 := deps, inv;
      DirectOnNone(d0, modules);
      DirectOnNone(v0, modules);
      var n := 0;
      while n < |modules|
        invariant 0 <= n <= |modules|
        invariant deps == DirectOn(d0, Elems(modules[..n]))
        invariant inv == DirectOn(v0, Elems(modules[..n]))
      {
        var m := modules[n];
        ElemsNext(modules, n);
        DirectOnNext(d0, Elems(modules[..n]), m);
        DirectOnNext(v0, Elems(modules[..n]), m);
        var l := DropTransitive(deps[m]);
        deps := deps[m := l];
        l := DropTransitive(inv[m]);
        inv := inv[m := l];
        n := n + 1;
      }
      assert modules[..n] == modules;
      DirectOnAll(d0, Elems(modules));
      DirectOnAll(v0, Elems(modules));
    }

    /** Second part of `md_transitive_closure`: the Floyd-Warshall loop over K. */
    method FloydWarshall(ghost pending: set<Mod>, ghost plan: Plan)
      requires Shape() && Safe(deps, inv, pending)
      modifies `deps, `inv
      ensures Shape() && Safe(deps, inv, pending)
      ensures Grew(old(deps), deps) && Grew(old(inv), inv)
      ensures Converse(old(deps), old(inv)) ==> Converse(deps, inv) && Closed(old(deps), deps)
      ensures plan.Transitive() && Bounded(plan.reach, old(deps), old(inv)) ==> Bounded(plan.reach, deps, inv)
      ensures Joined(old(deps), old(inv), deps.Keys, inv) && NoNewNames(old(inv), inv)
    {
      hide Safe, Grew, Converse, ClosedThrough, Closed, Bounded, Edge, Joined, Enumerates, Unnamed;
      EnumeratedOnce(modules, deps.Keys);
      ghost var d0, v0 := deps, inv;
      ClosedThroughNothing(d0);
      GrewSelf(d0);
      GrewSelf(v0);
      JoinedNothing(d0, v0, inv);
      var n := 0;
      assert Elems(modules[..n]) == {};
      while n < |modules|
        invariant 0 <= n <= |modules|
        invariant Safe(deps, inv, pending)
        invariant Grew(d0, deps) && Grew(v0, inv)
        invariant Converse(d0, v0) ==> Converse(deps, inv) && ClosedThrough(d0, Elems(modules[..n]), deps)
        invariant plan.Transitive() && Bounded(plan.reach, d0, v0) ==> Bounded(plan.reach, deps, inv)
        invariant Joined(d0, v0, Elems(modules[..n]), inv) && deps.Keys == d0.Keys && NoNewNames(v0, inv)
      {
        ghost var d1, v1 := deps, inv;
        var k := modules[n];
        ElemsNext(modules, n);
        LinkThrough(k, pending);
        JoinedOneMore(d0, v0, Elems(modules[..n]), k, d1, v1, inv);
        NoNewNamesOneMore(v0, k, d1, v1, inv);
        GrewKeys(d1, deps);
        GrewTwice(d0, d1, deps);
        GrewTwice(v0, v1, inv);
        if Converse(d0, v0) {
          ClosedThroughOneMore(d0, Elems(modules[..n]), k, d1, v1, deps, inv);
        }
        if plan.Transitive() && Bounded(plan.reach, d0, v0) {
          BoundedOneMore(plan, k, d1, v1, deps, inv);
        }
        n := n + 1;
      }
      assert modules[..n] == modules;
      SafeKeys(deps, inv, pending);
      if Converse(d0, v0) {
        ClosedThroughAll(d0, Elems(modules), deps);
      }
    }

    /** `md_transitive_closure`.  Direct entries keep their places, and when the two sides hold
        the same direct edges the graph becomes exactly their transitive closure, on both sides.
        With removals pending it still touches live modules only. */
    method TransitiveClosure(ghost pending: set<Mod>, ghost plan: Plan)
      requires Shape()
      requires Safe(DirectPart(deps), DirectPart(inv), pending)
      modifies `deps, `inv
      ensures Shape() && Safe(deps, inv, pending)
      ensures Grew(DirectPart(old(deps)), deps) && Grew(DirectPart(old(inv)), inv)
      ensures DirectPart(deps) == DirectPart(old(deps)) && DirectPart(inv) == DirectPart(old(inv))
      ensures Converse(DirectPart(old(deps)), DirectPart(old(inv))) ==>
                Converse(deps, inv) && Closed(DirectPart(old(deps)), deps)
      ensures plan.Transitive() && Bounded(plan.reach, DirectPart(old(deps)), DirectPart(old(inv))) ==> Bounded(plan.reach, deps, inv)
      ensures Bridged(plan, deps, inv) && NoNewNames(DirectPart(old(inv)), inv)
    {
      hide Safe, Converse, Closed, Grew, DirectPart, Bounded, Joined, Bridged, NoNewNames;
      DirectPartIsDirect(deps);
      DirectPartIsDirect(inv);
      ForgetTransitive();
      ghost var d0, v0 := deps, inv;
      FloydWarshall(pending, plan);
      GrewKeepsDirect(d0, deps);
      GrewKeepsDirect(v0, inv);
      JoinedIsBridged(plan, d0, v0, deps, inv);
    }

    // -------------------------------------------------------------- removal

    /** Remove all direct edges pointing to m from the lists of their sources (2507-2527). */
    method CutIncoming(m: Mod)
      requires m in inv && deps.Keys == inv.Keys
      requires forall f :: f in inv[m] && f.direct ==> f.dest in deps
      modifies `deps
      ensures CutInto(old(deps), DirectOnly(inv[m]), m, deps)
    {
      hide RemoveTo, CutInto, DirectOnly;
      ghost var d0 := deps;
      CutIntoStart(d0, inv[m], m);
      var n := 0;
      while n < |inv[m]|
        invariant 0 <= n <= |inv[m]|
        invariant CutInto(d0, DirectOnly(inv[m][..n]), m, deps)
      {
        var f := inv[m][n];
        assert f in inv[m];
        DirectOnlyNext(inv[m], n);
        if f.direct {
          CutIntoNext(d0, DirectOnly(inv[m][..n]), m, deps, f);
          var l := RemoveEntriesTo(deps[f.dest], m);
          deps := deps[f.dest := l];
        }
        n := n + 1;
      }
      assert inv[m][..n] == inv[m];
    }

    /** The same at one imported module, in its list and in its inverted list. */
    method ForgetAt(d: Mod, m: Mod)
      requires d in deps && d in inv
      modifies `deps, `inv
      ensures deps == old(deps)[d := DropOrig(old(deps)[d], m)]
      ensures inv == old(inv)[d := DropOrig(old(inv)[d], m)]
    {
      var l := ForgetOriginator(deps[d], m);
      deps := deps[d := l];
      l := ForgetOriginator(inv[d], m);
      inv := inv[d := l];
    }

    /** Remove m as an originator from the data edges of every module it directly imports, on
        both sides (2578-2633). */
    method ForgetOriginated(m: Mod)
      requires m in deps && deps.Keys == inv.Keys
      requires forall e :: e in deps[m] && e.direct && e.ty.Import? ==> e.dest in deps && e.dest != m
      requires OrigsDistinct(deps) && OrigsDistinct(inv)
      modifies `deps, `inv
      ensures Forgotten(old(deps), DirectOnly(old(deps)[m]), m, deps)
      ensures Forgotten(old(inv), DirectOnly(old(deps)[m]), m, inv)
    {
      hide DropOrig, OrigsDistinct, Forgotten, DirectOnly;
      ghost var d0, v0, l := deps, inv, deps[m];
      ForgottenStart(d0, l, m);
      ForgottenStart(v0, l, m);
      var n := 0;
      while n < |deps[m]|
        invariant m in deps && deps[m] == l && 0 <= n <= |l|
        invariant Forgotten(d0, DirectOnly(l[..n]), m, deps)
        invariant Forgotten(v0, DirectOnly(l[..n]), m, inv)
      {
        var e := deps[m][n];
        assert e in l;
        DirectOnlyNext(l, n);
        if e.direct {
          ForgottenNext(d0, DirectOnly(l[..n]), m, deps, e);
          ForgottenNext(v0, DirectOnly(l[..n]), m, inv, e);
        }
        if e.direct && e.ty.Import? {
          ForgetAt(e.dest, m);
        }
        n := n + 1;
      }
      assert l[..n] == l;
    }

    /** The edges into m are cut, then m is forgotten as an originator (2507-2633). */
    method Detach(m: Mod) returns (ghost cut: Lists)
      requires Shape() && m in deps && Detachable(deps, inv, m)
      modifies `deps, `inv
      ensures Shape() && Detached(old(deps), old(inv), m, cut, deps, inv)
    {
      hide RemoveTo, DirectOnly, CutInto, Forgotten, DropOrig, OrigsDistinct;
      ghost var d0, v0 := deps, inv;
      CutIncoming(m);
      cut := deps;
      ReadyToForget(d0, v0, m, cut);
      ForgetOriginated(m);
      ForgottenKeys(cut, DirectOnly(cut[m]), m, deps);
      ForgottenKeys(v0, DirectOnly(cut[m]), m, inv);
    }

    /** m becomes busy. */
    method DetachReady(m: Mod, ghost plan: Plan, ghost busy: set<Mod>)
      requires Shape() && Ready(plan, DirectPart(deps), DirectPart(inv), busy, m)
      modifies `deps, `inv
      ensures Shape() && deps.Keys == old(deps.Keys)
      ensures Less(plan, old(deps), old(inv), deps, inv) && KeepsFirm(old(inv), inv)
      ensures Pushing(plan, DirectPart(old(deps)), DirectPart(old(inv)), busy, m, DirectPart(deps), DirectPart(inv))
      ensures Inv(plan, DirectPart(deps), DirectPart(inv), busy + {m}, {})
      ensures Keeps(old(deps), deps, m) && Keeps(old(inv), inv, m)
    {
      hide RemoveTo, DirectOnly, DirectPart, CutInto, Forgotten, Inv, DropOrig, IsPushed, OrigsDistinct, Less, Detachable;
      hide KeepsFirm, Keeps;
      ghost var d0, v0 := deps, inv;
      ReadyToDetach(plan, d0, v0, busy, m);
      ghost var cut := Detach(m);
      CutIntoDirect(plan, d0, v0, busy, m, cut);
      PushedDirect(d0, v0, m, cut, deps, inv);
      LessDetached(plan, d0, v0, m, cut, deps, inv);
      KeepsDetached(d0, v0, m, cut, deps, inv);
      PushKeepsInv(plan, DirectPart(d0), DirectPart(v0), busy, m, DirectPart(deps), DirectPart(inv));
    }

    /** The dependency m is at, deps[m][n], is unlinked on both sides (2740-2757). */
    method Unlink(m: Mod, n: nat)
      requires Shape() && m in deps && n < |deps[m]| && deps[m][n].direct && deps[m][n].dest in inv
      requires forall a :: 0 <= a < n ==> !deps[m][a].direct
      modifies `deps, `inv
      ensures Shape() && deps.Keys == old(deps.Keys)
      ensures IsCut(DirectPart(old(deps)), DirectPart(old(inv)), m, DirectPart(deps), DirectPart(inv))
      ensures inv == old(inv)[old(deps)[m][n].dest := RemoveTo(old(inv)[old(deps)[m][n].dest], m)]
      ensures deps == old(deps)[m := old(deps)[m][..n] + old(deps)[m][n + 1..]]
      ensures Fewer(old(deps), deps) && Fewer(old(inv), inv)
    {
      hide RemoveTo, DirectOnly, DirectPart, IsCut, Enumerates, Fewer;
      var x, l := deps[m][n].dest, deps[m];
      UnlinkIsCut(deps, inv, m, n);
      FewerUnlinked(deps, inv, m, n, x);
      var r := RemoveEntriesTo(inv[x], m);
      var d, v := deps[m := l[..n] + l[n + 1..]], inv[x := r];
      assert d.Keys == deps.Keys && v.Keys == inv.Keys;
      deps, inv := d, v;
    }

    /** m itself goes: out of the list of modules and out of the tree that owns it (2840-2843). */
    method Delete(m: Mod)
      requires Shape() && m in deps
      modifies `modules, `deps, `inv
      ensures Shape() && deps == old(deps) - {m} && inv == old(inv) - {m}
      ensures exists k :: 0 <= k < |old(modules)| && old(modules)[k] == m && modules == old(modules)[..k] + old(modules)[k + 1..]
    {
      hide Enumerates;
      EnumeratedSomewhere(modules, deps.Keys, m);
      var k := 0;
      while modules[k] != m
        invariant 0 <= k < |modules| && m in modules[k..]
        decreases |modules| - k
      {
        k := k + 1;
      }
      EnumeratedWithout(modules, deps.Keys, k);
      modules := modules[..k] + modules[k + 1..];
      deps := deps - {m};
      inv := inv - {m};
      assert deps.Keys == old(deps.Keys) - {m} && inv.Keys == old(inv.Keys) - {m};
    }

    /** One direct dependency of a busy m, deps[m][n]: it is removed as well when m was the last to
        need it, and otherwise unlinked (2713-2758). */
    method StepDependency(m: Mod, n: nat, ghost plan: Plan, ghost busy: set<Mod>, ghost dd0: Lists,
                          ghost vv0: Lists, ghost gone: set<Mod>, ghost loose: Slack, implicit: seq<Mod>)
      returns (implicit': seq<Mod>, ghost gone': set<Mod>, ghost loose': Slack)
      requires Shape() && Flags(deps.Keys, plan, submodules, installed) && m in busy
      requires Looping(plan, dd0, vv0, busy, m, gone, loose, deps, inv) && m in deps && Pinning(vv0, plan, busy)
      requires n < |deps[m]| && deps[m][n].direct && forall a :: 0 <= a < n ==> !deps[m][a].direct
      requires ListsRemoved(implicit, gone, submodules)
      requires Sweeping(plan, submodules, installed, dd0, m, DirectOnly(deps[m]), gone)
      modifies `modules, `deps, `inv
      ensures Shape()
      ensures deps.Keys <= old(deps.Keys)
      ensures Looping(plan, dd0, vv0, busy, m, gone', loose', deps, inv) && m in deps
      ensures Sweeping(plan, submodules, installed, dd0, m, DirectOnly(deps[m]), gone')
      ensures gone <= gone' && (gone' == gone ==> Keeps(old(deps), deps, m) && Keeps(old(inv), inv, m))
      ensures ListsRemoved(implicit', gone', submodules)
      ensures |DirectOnly(deps[m])| < |DirectOnly(old(deps)[m])|
      decreases |deps.Keys - busy|, 2
    {
      hide Inv, DirectOnly, DirectPart, Looping, Needed, RemoveTo, Removed, IsCut, ListsRemoved, Flags, Pinning, Unneeded, Safe;
      hide Closed, Converse, Computed, Fewer, Less, Sweeping, Swept, Took, Drawn, Contested, Keeps;
      var x := deps[m][n].dest;
      FirstDirect(deps[m], n);
      TargetAlive(plan, dd0, vv0, deps, inv, busy, m, gone, loose);
      var usage := UsageCount(inv[x], m);
      UsageIsNeed(inv[x], m, usage);
      PinsInLoop(plan, dd0, vv0, busy, m, gone, loose, deps, inv);
      PinIsUser(DirectPart(inv), plan, busy, m, x, inv);
      RemovableByFlags(deps.Keys, plan, submodules, installed, x);
      ghost var d, v := deps, inv;
      if usage == 0 && (x in submodules || x !in installed) {
        PinsWithBusy(DirectPart(inv), plan, busy, x);
        RecursionStart(plan, dd0, vv0, d, v, busy, m, gone, loose);
        var ok, more, more' := RemoveInternal(x, true, plan, busy);
        RecursionEnd(plan, dd0, vv0, d, v, busy, m, gone, loose, x, more', deps, inv);
        SweepRemoval(plan, submodules, installed, dd0, vv0, d, v, busy, m, gone, loose, x, more', deps, inv);
        ListsMore(implicit, gone, more, more', x, submodules);
        implicit' := implicit + more;
        if x !in submodules {
          implicit' := implicit' + [x];
        }
        gone', loose' := gone + more', Tight;
      } else {
        Unlink(m, n);
        KeepsUnlinked(d, v, m, n, deps, inv);
        SweepUnlink(plan, submodules, installed, dd0, vv0, d, v, busy, m, gone, loose, x, deps, inv);
        loose' := UnlinkStep(plan, dd0, vv0, d, v, busy, m, gone, loose, deps, inv);
        implicit', gone' := implicit, gone;
      }
    }

    /** The loop over the dependencies of a busy m (2706-2764).  Returns the modules removed on the
        way. */
    method DropDependencies(m: Mod, ghost plan: Plan, ghost busy: set<Mod>)
      returns (implicit: seq<Mod>, ghost gone: set<Mod>, ghost loose: Slack)
      requires Shape() && Flags(deps.Keys, plan, submodules, installed) && m in busy
      requires Inv(plan, DirectPart(deps), DirectPart(inv), busy, {}) && Pinning(DirectPart(inv), plan, busy)
      requires Computed(plan, deps, inv) && m in deps && (plan.HeldBack(m) ==> AllNeeded(plan.removable, DirectOnly(deps[m]), inv, m))
      modifies `modules, `deps, `inv
      ensures Shape()
      ensures Looping(plan, DirectPart(old(deps)), DirectPart(old(inv)), busy, m, gone, loose, deps, inv)
      ensures m in deps && DirectOnly(deps[m]) == []
      ensures ListsRemoved(implicit, gone, submodules)
      ensures Sweeping(plan, submodules, installed, DirectPart(old(deps)), m, [], gone)
      ensures KeepsIf(old(deps), old(inv), deps, inv, gone, m)
      decreases |deps.Keys - busy|, 3
    {
      hide Inv, DirectOnly, DirectPart, Looping, ListsRemoved, Flags, Pinning, Computed, AllNeeded, Sweeping, Keeps, KeepsIf;
      ghost var d0, v0 := deps, inv;
      KeepsSelf(d0, v0, m);
      ghost var dd0, vv0, keys := DirectPart(deps), DirectPart(inv), deps.Keys;
      implicit, gone, loose := [], {}, if plan.HeldBack(m) then Any else Tight;
      LoopStart(plan, deps, inv, busy, m, submodules);
      SweepStart(plan, submodules, installed, m, DirectPart(deps));
      var n := 0;
      while n < |deps[m]|
        invariant Shape()
        invariant m in deps && 0 <= n <= |deps[m]| && deps.Keys <= keys
        invariant forall a :: 0 <= a < n ==> !deps[m][a].direct
        invariant Looping(plan, dd0, vv0, busy, m, gone, loose, deps, inv)
        invariant ListsRemoved(implicit, gone, submodules)
        invariant Sweeping(plan, submodules, installed, dd0, m, DirectOnly(deps[m]), gone)
        invariant KeepsIf(d0, v0, deps, inv, gone, m)
        decreases |DirectOnly(deps[m])|, |deps[m]| - n
      {
        if deps[m][n].direct {
          SmallerBusy(deps.Keys, keys, busy);
          FlagsFewer(keys, deps.Keys, plan, submodules, installed);
          ghost var d1, v1, before := deps, inv, gone;
          implicit, gone, loose := StepDependency(m, n, plan, busy, dd0, vv0, gone, loose, implicit);
          KeepsOn(d0, v0, d1, v1, before, deps, inv, gone, m);
          n := 0;
        } else {
          n := n + 1;
        }
      }
      NoneDirect(deps[m]);
    }

    /** The removal proper (2507-2843): m is detached, its dependencies are dropped, m goes.  What
        remains of the direct edges is a function of the set of removed modules. */
    method Excise(m: Mod, ghost plan: Plan, ghost busy: set<Mod>) returns (implicit: seq<Mod>, ghost gone: set<Mod>)
      requires Shape() && Flags(deps.Keys, plan, submodules, installed)
      requires Inv(plan, DirectPart(deps), DirectPart(inv), busy, {})
      requires m in deps && m in inv && m !in busy && m in plan.leaving && m in (if busy == {} then plan.targets else plan.removable)
      requires Unneeded(inv[m], busy) && (busy != {} ==> CalledFrom(inv[m], busy))
      requires Pinning(DirectPart(inv), plan, busy + {m}) && Computed(plan, deps, inv)
      modifies `modules, `deps, `inv
      ensures Shape()
      ensures Removed(plan, old(deps), old(inv), busy, m, gone, deps, inv)
      ensures ListsRemoved(implicit, gone - {m}, submodules)
      ensures Swept(plan, submodules, installed, DirectPart(old(deps)), gone)
      ensures Took(plan, submodules, installed, m, DirectOnly(old(deps)[m]), gone) && Drawn(plan, DirectPart(old(deps)), m, gone)
      ensures gone == {m} ==> Keeps(old(deps), deps, m) && Keeps(old(inv), inv, m)
      decreases |deps.Keys - busy|, 0
    {
      hide Inv, DirectOnly, DirectPart, Looping, Removed, Pushing, Ready, ListsRemoved, Flags, Pinning, Unneeded, Shape, Computed;
      hide Less, AllNeeded, CalledFrom, KeepsFirm, FirmlyNeeded, LeadsTo, Sweeping, Swept, Took, Drawn, Keeps, KeepsIf;
      ghost var d0, v0 := deps, inv;
      ReadyFromList(plan, d0, v0, busy, m);
      if plan.HeldBack(m) { HeldNeeds(plan, d0, v0, busy, m); }
      DetachReady(m, plan, busy);
      ghost var d1, v1 := deps, inv;
      DetachedKeys(d0.Keys, busy, m);
      PinsPushed(plan, DirectPart(d0), DirectPart(v0), busy, m, DirectPart(d1), DirectPart(v1));
      ComputedLess(plan, d0, v0, d1, v1);
      if plan.HeldBack(m) { StillHeld(plan, d0, v0, busy, m, d1, v1); }
      ghost var loose;
      implicit, gone, loose := DropDependencies(m, plan, busy + {m});
      ghost var d2, v2 := deps, inv;
      Delete(m);
      RemovalDone(plan, d0, v0, busy, m, d1, v1, gone, loose, d2, v2, deps, inv, implicit, submodules);
      SweepDone(plan, submodules, installed, d0, v0, busy, m, d1, v1, gone, loose, d2, v2);
      KeepsDone(plan, d0, v0, busy, m, d1, v1, gone, loose, d2, v2);
      gone := gone + {m};
    }

    /** `md_remove_modules_internal` for one module.  A removal that is not forced is refused when
        anything but an extension needs the module (2484-2505).  A transitive closure ends it
        unless m is a submodule (2845-2851). */
    method RemoveInternal(m: Mod, force: bool, ghost plan: Plan, ghost busy: set<Mod>)
      returns (ok: bool, implicit: seq<Mod>, ghost gone: set<Mod>)
      requires Shape() && m in deps && m !in busy
      requires force ==> Unneeded(inv[m], busy)
      requires !force ==> busy == {}
      requires Unneeded(inv[m], busy) ==>
                 && Flags(deps.Keys, plan, submodules, installed)
                 && Inv(plan, DirectPart(deps), DirectPart(inv), busy, {})
                 && m in plan.leaving && m in (if busy == {} then plan.targets else plan.removable)
                 && (busy != {} ==> CalledFrom(inv[m], busy))
                 && Pinning(DirectPart(inv), plan, busy + {m}) && Computed(plan, deps, inv)
      modifies `modules, `deps, `inv
      ensures Shape()
      ensures ok <==> Unneeded(old(inv)[m], busy)
      ensures !ok ==> modules == old(modules) && deps == old(deps) && inv == old(inv)
      ensures ok ==> Removed(plan, old(deps), old(inv), busy, m, gone, deps, inv)
      ensures ok ==> ListsRemoved(implicit, gone - {m}, submodules)
      ensures ok ==> Swept(plan, submodules, installed, DirectPart(old(deps)), gone)
      ensures ok ==> Took(plan, submodules, installed, m, DirectOnly(old(deps)[m]), gone) && Drawn(plan, DirectPart(old(deps)), m, gone)
      ensures ok && m in submodules && gone == {m} ==> Keeps(old(deps), deps, m) && Keeps(old(inv), inv, m)
      ensures ok && m !in submodules ==> Safe(deps, inv, Tainted(DirectPart(deps), DirectPart(inv), busy))
      ensures ok && m !in submodules && busy == {} ==> Converse(deps, inv) && Closed(DirectPart(deps), deps)
      decreases |deps.Keys - busy|, 1
    {
      hide Inv, DirectOnly, DirectPart, Removed, ListsRemoved, Safe, Converse, Closed, Grew, Flags, Pinning, Unneeded, Computed;
      hide Bounded, Bridged, Tainted, CalledFrom, Swept, Took, Drawn, Keeps;
      implicit, gone := [], {};
      if !force {
        ok := OnlyExtensions(inv[m]);
        if !ok {
          return;
        }
      }
      ok := true;
      ghost var d0, v0 := deps, inv;
      implicit, gone := Excise(m, plan, busy);
      if m !in submodules {
        SafeAfterRemoval(plan, d0, v0, busy, m, gone, deps, inv);
        ghost var d1, v1 := deps, inv;
        TransitiveClosure(Tainted(DirectPart(deps), DirectPart(inv), busy), plan);
        RemovedDirectly(plan, d0, v0, busy, m, gone, d1, v1, deps, inv);
      }
    }

    /** `md_remove_modules` for one module; `found` is what the search for it gave (2468-2477).
        Refused removals change nothing.  Otherwise no entry left on either side names a removed
        module, direct edges are those that survive, and the two sides are again exactly the
        transitive closure of the direct edges and its converse. */
    method RemoveModule(found: Option<Mod>, ghost plan: Plan) returns (rc: RemovalResult, implicit: seq<Mod>, ghost gone: set<Mod>)
      requires Shape() && (found.Some? ==> found.value in deps)
      requires found.Some? && Unneeded(inv[found.value], {}) ==>
                 Sound(deps, inv, plan, submodules, installed) && found.value in plan.targets
      modifies `modules, `deps, `inv
      ensures Shape() && (rc.Done? ==> Sound(deps, inv, plan, submodules, installed))
      ensures rc.NotFound? <==> found.None?
      ensures found.Some? ==> (rc.InUse? <==> exists f :: f in old(inv)[found.value] && !f.ty.Extension?)
      ensures !rc.Done? ==> modules == old(modules) && deps == old(deps) && inv == old(inv)
      ensures rc.Done? ==> found.value in gone && gone <= old(deps.Keys) && deps.Keys == inv.Keys == old(deps.Keys) - gone
      ensures rc.Done? ==> forall i :: i in deps ==> DirectOnly(deps[i]) == Surviving(DirectOnly(old(deps)[i]), gone)
      ensures rc.Done? ==> forall i :: i in inv ==> DirectOnly(inv[i]) == Surviving(DirectOnly(old(inv)[i]), gone)
      ensures rc.Done? ==> forall x :: x in gone && x != found.value ==> x in submodules || x !in installed
      ensures rc.Done? ==> ListsRemoved(implicit, gone - {found.value}, submodules)
      // what the target lists, may go by its flags and is needed by nobody else, goes
      ensures rc.Done? ==> OwnTaken(plan, submodules, installed, old(deps), found.value, gone)
      // and so does what any module that goes imports or includes
      ensures rc.Done? ==> AllTaken(plan, submodules, installed, old(deps), gone)
      // nobody goes but with a module that goes, lists it and is not held back
      ensures rc.Done? ==> AllDrawn(plan, old(deps), found.value, gone)
      ensures rc.Done? ==> forall i, e :: i in deps && e in old(deps)[i] && e.direct && e.dest in gone ==>
                e.ty.Extension? || (e.ty.Data? && forall x :: x in e.origs ==> x in gone)
      ensures rc.Done? && found.value !in submodules ==> Converse(deps, inv) && Closed(DirectPart(deps), deps)
      // no closure runs for a submodule
      ensures rc.Done? && found.value in submodules && gone == {found.value} ==> Keeps(old(deps), deps, found.value) && Keeps(old(inv), inv, found.value)
      ensures rc.Done? && found.value !in submodules ==> forall i, e :: i in deps && e in deps[i] ==> e.dest in deps
      ensures rc.Done? && found.value !in submodules ==> forall i, e :: i in inv && e in inv[i] ==> e.dest in deps
    {
      hide Inv, DirectOnly, DirectPart, Removed, ListsRemoved, Converse, Closed, Flags, Pinning, Surviving, Sound, Contested;
      hide Keeps, AllDrawn, OwnTaken, AllTaken, Swept, Took, Drawn, Unneeded, Safe, Tainted;
      implicit, gone := [], {};
      if found.None? {
        return NotFound, [], {};
      }
      var m := found.value;
      UnneededMeans(inv[m]);
      if Unneeded(inv[m], {}) {
        SoundParts(deps, inv, plan, submodules, installed, m);
      }
      var ok;
      ok, implicit, gone := RemoveInternal(m, false, plan, {});
      rc := if ok then Done else InUse;
      if ok {
        RemovedMeans(plan, old(deps), old(inv), m, gone, deps, inv, submodules, installed);
        SweptMeans(plan, submodules, installed, old(deps), m, gone);
        DrawnMeans(plan, old(deps), m, gone);
        if m !in submodules { LiveEnds(deps, inv); }
      }
    }
  }

  datatype RemovalResult = Done | NotFound | InUse

  /** What the graph must be like for a removal to be sound: direct edges mirror each other with
      their originators, whoever introduced a data edge is an end of it or imports both ends, no
      module that may leave is between extension edges (`Plan.Guarded`), and the dependencies of
      such a module on one removable module that others need too are not split by one on another
      (`NoSplit`), unless whoever takes it holds all it lists (`Plan.HeldBack`).  Modules that one of `plan.kept` imports or includes stay and do not matter to
      that.  `RemovalConditions` says it in terms of the graph alone. */
  ghost predicate Sound(deps: Lists, inv: Lists, plan: Plan, submodules: set<Mod>, installed: set<Mod>) {
    && Flags(deps.Keys, plan, submodules, installed) && Pinning(DirectPart(inv), plan, {})
    && Inv(plan, DirectPart(deps), DirectPart(inv), {}, {}) && Computed(plan, deps, inv)
  }

  lemma SoundParts(deps: Lists, inv: Lists, plan: Plan, submodules: set<Mod>, installed: set<Mod>, m: Mod)
    requires Sound(deps, inv, plan, submodules, installed) && m in plan.targets
    ensures Flags(deps.Keys, plan, submodules, installed) && Pinning(DirectPart(inv), plan, {} + {m})
    ensures Inv(plan, DirectPart(deps), DirectPart(inv), {}, {}) && Computed(plan, deps, inv) && m in plan.leaving
  {
    hide Edges, Mirror, StillListed, OwnOrigins, Paired, StaleInverse, Originated, Firmly, Orderly, Pinned, DirectPart, Computed;
  }

  lemma RemovedMeans(plan: Plan, d: Lists, v: Lists, m: Mod, gone: set<Mod>, deps: Lists, inv: Lists,
                     submodules: set<Mod>, installed: set<Mod>)
    requires Removed(plan, d, v, {}, m, gone, deps, inv) && Sound(d, v, plan, submodules, installed) && m in plan.targets
    ensures Sound(deps, inv, plan, submodules, installed)
    ensures m in gone && gone <= d.Keys && deps.Keys == inv.Keys == d.Keys - gone && inv.Keys <= v.Keys
    ensures forall i :: i in deps ==> DirectOnly(deps[i]) == Surviving(DirectOnly(d[i]), gone)
    ensures forall i :: i in inv ==> DirectOnly(inv[i]) == Surviving(DirectOnly(v[i]), gone)
    ensures forall x :: x in gone && x != m ==> x in submodules || x !in installed
    ensures forall i, e :: i in deps && e in d[i] && e.direct && e.dest in gone ==>
              e.ty.Extension? || (e.ty.Data? && forall x :: x in e.origs ==> x in gone)
  {
    RemovedSound(plan, d, v, m, gone, deps, inv, submodules, installed);
    RemovedLists(plan, d, v, m, gone, deps, inv, submodules, installed);
    hide Sound, Removed, DirectOnly, Surviving;
    forall i, e: Dep | i in deps && e in d[i] && e.direct && e.dest in gone
      ensures e.ty.Extension? || (e.ty.Data? && forall x :: x in e.origs ==> x in gone)
    {
      RemovedEntry(plan, d, v, m, gone, deps, inv, i, e);
    }
  }

  lemma RemovedSound(plan: Plan, d: Lists, v: Lists, m: Mod, gone: set<Mod>, deps: Lists, inv: Lists,
                     submodules: set<Mod>, installed: set<Mod>)
    requires Removed(plan, d, v, {}, m, gone, deps, inv) && Sound(d, v, plan, submodules, installed) && m in plan.targets
    ensures Sound(deps, inv, plan, submodules, installed)
  {
    SoundParts(d, v, plan, submodules, installed, m);
    hide Inv, DirectOnly, Surviving, Pinned, Computed, Spared, DirectPart;
    PinsAfter(DirectPart(v), plan, gone, DirectPart(inv));
  }

  lemma RemovedLists(plan: Plan, d: Lists, v: Lists, m: Mod, gone: set<Mod>, deps: Lists, inv: Lists,
                     submodules: set<Mod>, installed: set<Mod>)
    requires Removed(plan, d, v, {}, m, gone, deps, inv) && Sound(d, v, plan, submodules, installed) && m in plan.targets
    ensures m in gone && gone <= d.Keys && deps.Keys == inv.Keys == d.Keys - gone && inv.Keys <= v.Keys
    ensures forall i :: i in deps ==> DirectOnly(deps[i]) == Surviving(DirectOnly(d[i]), gone)
    ensures forall i :: i in inv ==> DirectOnly(inv[i]) == Surviving(DirectOnly(v[i]), gone)
    ensures forall x :: x in gone && x != m ==> x in submodules || x !in installed
  {
    SoundParts(d, v, plan, submodules, installed, m);
    hide Inv, DirectOnly, Surviving, Pinned, Computed, Spared;
  }

  /** What of a list leads to a module that is gone. */
  lemma RemovedEntry(plan: Plan, d: Lists, v: Lists, m: Mod, gone: set<Mod>, deps: Lists, inv: Lists, i: Mod, e: Dep)
    requires Removed(plan, d, v, {}, m, gone, deps, inv) && i in deps && i in d && e in d[i] && e.direct && e.dest in gone
    ensures e.ty.Extension? || (e.ty.Data? && forall x :: x in e.origs ==> x in gone)
  {
    hide Inv, DirectOnly, Surviving, Computed;
    DirectKept(d[i], e);
  }

  lemma {:induction false} DirectKept(l: seq<Dep>, e: Dep)
    requires e in l && e.direct
    ensures e in DirectOnly(l)
  {
    if l[0] != e { DirectKept(l[1..], e); }
  }

  ghost predicate Enumerates(modules: seq<Mod>, keys: set<Mod>) {
    Distinct(modules) && forall m :: m in modules <==> m in keys
  }

  lemma UnlinkIsCut(deps: Lists, inv: Lists, m: Mod, n: nat)
    requires m in deps && n < |deps[m]| && deps[m][n].direct && deps[m][n].dest in inv
    requires forall a :: 0 <= a < n ==> !deps[m][a].direct
    ensures var x := deps[m][n].dest;
            IsCut(DirectPart(deps), DirectPart(inv), m, DirectPart(deps[m := deps[m][..n] + deps[m][n + 1..]]),
                  DirectPart(inv[x := RemoveTo(inv[x], m)]))
  {
    hide RemoveTo, DirectOnly;
    FirstDirect(deps[m], n);
    DirectOnlyRemoveTo(inv[deps[m][n].dest], m);
  }

  lemma EnumeratedSomewhere(modules: seq<Mod>, keys: set<Mod>, m: Mod)
    requires Enumerates(modules, keys) && m in keys
    ensures m in modules
  {
  }

  lemma EnumeratedWithout(modules: seq<Mod>, keys: set<Mod>, k: nat)
    requires Enumerates(modules, keys) && k < |modules|
    ensures Enumerates(modules[..k] + modules[k + 1..], keys - {modules[k]})
  {
    assert modules == modules[..k] + [modules[k]] + modules[k + 1..];
  }

  /** What the removal of m leaves, `gone` being the modules that went with it. */
  ghost predicate Removed(plan: Plan, d: Lists, v: Lists, busy: set<Mod>, m: Mod, gone: set<Mod>, deps: Lists, inv: Lists) {
    && m in gone && gone !! busy && gone - {m} <= plan.removable && gone <= d.Keys
    && deps.Keys == inv.Keys == d.Keys - gone
    && IsAfter(DirectPart(d), gone, {}, DirectPart(deps))
    && IsAfter(DirectPart(v), gone, busy, DirectPart(inv))
    && Inv(plan, DirectPart(deps), DirectPart(inv), busy, {})
    && Spared(DirectPart(d), busy, gone)
    && Computed(plan, deps, inv)
  }

  lemma RemovedDirectly(plan: Plan, d: Lists, v: Lists, busy: set<Mod>, m: Mod, gone: set<Mod>, deps: Lists, inv: Lists,
                        deps': Lists, inv': Lists)
    requires Removed(plan, d, v, busy, m, gone, deps, inv)
    requires DirectPart(deps') == DirectPart(deps) && DirectPart(inv') == DirectPart(inv)
    requires deps'.Keys == deps.Keys && inv'.Keys == inv.Keys
    requires plan.Transitive() && Bounded(plan.reach, DirectPart(deps), DirectPart(inv)) ==> Bounded(plan.reach, deps', inv')
    requires Bridged(plan, deps', inv')
    ensures Removed(plan, d, v, busy, m, gone, deps', inv')
  {
    hide Edges, Mirror, StillListed, OwnOrigins, Paired, StaleInverse, Originated, Firmly, Orderly, DirectPart, Spared, IsAfter;
    hide Bounded, Bridged, Fewer;
    FewerDirect(deps);
    FewerDirect(inv);
    if Bounded(plan.reach, deps, inv) {
      BoundedFewer(plan.reach, deps, inv, DirectPart(deps), DirectPart(inv));
    }
  }

  /** The scan for a user that forbids the removal (2485-2505). */
  method OnlyExtensions(l: seq<Dep>) returns (ok: bool)
    ensures ok <==> Unneeded(l, {})
  {
    var n := 0;
    while n < |l| && l[n].ty.Extension?
      invariant 0 <= n <= |l|
      invariant forall f :: f in l[..n] ==> f.ty.Extension?
    {
      assert l[..n + 1] == l[..n] + [l[n]];
      n := n + 1;
    }
    assert l[..|l|] == l;
    ok := n == |l|;
    if !ok { assert l[n] in l; }
  }

  // ---------------------------------------------------------------- the proof of the recursion

  ghost predicate Pinned(l: seq<Dep>, kept: set<Mod>) {
    exists f :: f in l && f.dest in kept && (f.ty.Import? || f.ty.Include?)
  }

  ghost predicate Pinning(vv: Lists, plan: Plan, busy: set<Mod>) {
    && plan.kept !! plan.removable && plan.kept !! busy
    && forall x :: x in vv && x in plan.pinned ==> Pinned(vv[x], plan.kept)
  }

  lemma PinnedSurvives(l: seq<Dep>, gone: set<Mod>, kept: set<Mod>)
    requires Pinned(l, kept) && gone !! kept
    ensures Pinned(Surviving(l, gone), kept)
  {
    var f :| f in l && f.dest in kept && (f.ty.Import? || f.ty.Include?);
    Survives(l, gone, f);
  }

  lemma PinnedOthers(l: seq<Dep>, m: Mod, kept: set<Mod>)
    requires m !in kept
    ensures Pinned(RemoveTo(l, m), kept) <==> Pinned(l, kept)
  {
  }

  lemma PinsAfter(vv: Lists, plan: Plan, gone: set<Mod>, v: Lists)
    requires Pinning(vv, plan, {}) && IsAfter(vv, gone, {}, v) && gone !! plan.kept
    ensures Pinning(v, plan, {})
  {
    hide Pinned, Surviving;
    forall x | x in v && x in plan.pinned ensures Pinned(v[x], plan.kept) {
      PinnedSurvives(vv[x], gone, plan.kept);
    }
  }

  lemma PinsPushed(plan: Plan, dd: Lists, vv: Lists, busy: set<Mod>, m: Mod, d: Lists, v: Lists)
    requires Pushing(plan, dd, vv, busy, m, d, v) && Pinning(vv, plan, busy + {m})
    ensures Pinning(v, plan, busy + {m})
  {
    hide Pinned, Surviving, RemoveTo, Ready, DropOrig;
    forall x | x in v && x in plan.pinned ensures Pinned(v[x], plan.kept) {
      if x in busy {
        StaleUntouched(plan, dd, vv, busy, m, d, v, x);
      } else if x != m {
        PushedInverse(plan, dd, vv, busy, m, d, v, x);
        PinnedSurvives(vv[x], {m}, plan.kept);
        PinnedOthers(v[x], m, plan.kept);
      }
    }
  }

  lemma PinsInLoop(plan: Plan, dd0: Lists, vv0: Lists, busy: set<Mod>, m: Mod, gone: set<Mod>, loose: Slack,
                   deps: Lists, inv: Lists)
    requires Looping(plan, dd0, vv0, busy, m, gone, loose, deps, inv) && m in busy && Pinning(vv0, plan, busy)
    ensures Pinning(DirectPart(inv), plan, busy)
  {
    hide Pinned, Surviving, RemoveTo, Inv, LooseOk, Spared, DirectPart, DirectOnly;
    var vv := DirectPart(inv);
    forall x | x in vv && x in plan.pinned ensures Pinned(vv[x], plan.kept) {
      if x !in busy {
        PinnedOthers(vv0[x], m, plan.kept);
        PinnedSurvives(RemoveTo(vv0[x], m), gone, plan.kept);
        PinnedOthers(vv[x], m, plan.kept);
      }
    }
  }

  /** A module that stays keeps what it imports from being removed. */
  lemma PinIsUser(vv: Lists, plan: Plan, busy: set<Mod>, m: Mod, x: Mod, inv: Lists)
    requires Pinning(vv, plan, busy) && m in busy && vv == DirectPart(inv) && x in inv
    ensures x in plan.pinned ==> Needed(inv[x], m)
  {
    hide DirectOnly;
    if x in plan.pinned {
      var f :| f in vv[x] && f.dest in plan.kept && (f.ty.Import? || f.ty.Include?);
      KeptWasThere(inv[x], f);
    }
  }

  lemma {:induction false} KeptWasThere(l: seq<Dep>, e: Dep)
    requires e in DirectOnly(l)
    ensures e in l
  {
    if e in DirectOnly(l[1..]) { KeptWasThere(l[1..], e); }
  }

  lemma PinsWithBusy(vv: Lists, plan: Plan, busy: set<Mod>, x: Mod)
    requires Pinning(vv, plan, busy) && x in plan.removable
    ensures Pinning(vv, plan, busy + {x})
  {
    hide Pinned;
  }

  /** The flags that make a module implicitly removable (2724). */
  ghost predicate Flags(modules: set<Mod>, plan: Plan, submodules: set<Mod>, installed: set<Mod>) {
    forall x :: x in modules ==> (x in plan.removable || x in plan.pinned <==> x in submodules || x !in installed)
  }

  lemma FlagsFewer(modules: set<Mod>, fewer: set<Mod>, plan: Plan, submodules: set<Mod>, installed: set<Mod>)
    requires Flags(modules, plan, submodules, installed) && fewer <= modules
    ensures Flags(fewer, plan, submodules, installed)
  {
  }

  lemma RemovableByFlags(modules: set<Mod>, plan: Plan, submodules: set<Mod>, installed: set<Mod>, x: Mod)
    requires Flags(modules, plan, submodules, installed) && x in modules
    ensures x in plan.removable || x in plan.pinned <==> x in submodules || x !in installed
  {
  }

  /** The state of the loop over the dependencies of a busy m. */
  ghost predicate Looping(plan: Plan, dd0: Lists, vv0: Lists, busy: set<Mod>, m: Mod, gone: set<Mod>, loose: Slack,
                          deps: Lists, inv: Lists) {
    && m in deps && deps.Keys == inv.Keys && deps.Keys == dd0.Keys - gone
    && gone !! busy && gone <= plan.removable && gone <= dd0.Keys
    && Inv(plan, DirectPart(deps), DirectPart(inv), busy, LooseSet(plan.removable, m, loose))
    && (loose.Any? <==> plan.HeldBack(m))
    && LooseOk(plan.removable, loose, DirectOnly(deps[m]), inv, m)
    && Progress(dd0, vv0, m, busy, gone, DirectPart(deps), DirectPart(inv))
    && Spared(dd0, busy, gone)
    && Computed(plan, deps, inv)
  }

  lemma LoopStart(plan: Plan, deps: Lists, inv: Lists, busy: set<Mod>, m: Mod, submodules: set<Mod>)
    requires Inv(plan, DirectPart(deps), DirectPart(inv), busy, {}) && m in busy && Computed(plan, deps, inv)
    requires m in deps && (plan.HeldBack(m) ==> AllNeeded(plan.removable, DirectOnly(deps[m]), inv, m))
    ensures Looping(plan, DirectPart(deps), DirectPart(inv), busy, m, {}, if plan.HeldBack(m) then Any else Tight, deps, inv)
    ensures ListsRemoved([], {}, submodules)
  {
    hide Mirror, StillListed, OwnOrigins, Paired, StaleInverse, Foreseen, Originated, Firmly, Orderly;
    hide Progress, GoodOrigs, DirectOnly, Computed, AllNeeded;
    ProgressStart(DirectPart(deps), DirectPart(inv), m, busy);
    if plan.HeldBack(m) { Loosened(plan, DirectPart(deps), DirectPart(inv), busy, m); }
  }

  lemma Loosened(plan: Plan, dd: Lists, vv: Lists, busy: set<Mod>, m: Mod)
    requires Inv(plan, dd, vv, busy, {})
    ensures Inv(plan, dd, vv, busy, LooseSet(plan.removable, m, Any))
  {
    hide Inv;
    TightenLoose(plan, dd, vv, busy, {}, LooseSet(plan.removable, m, Any));
  }

  lemma TargetAlive(plan: Plan, dd0: Lists, vv0: Lists, deps: Lists, inv: Lists, busy: set<Mod>, m: Mod, gone: set<Mod>, loose: Slack)
    requires Looping(plan, dd0, vv0, busy, m, gone, loose, deps, inv) && DirectOnly(deps[m]) != []
    ensures var x := DirectOnly(deps[m])[0].dest; x in deps && x in inv && x !in busy
  {
    hide Mirror, StillListed, OwnOrigins, Paired, StaleInverse, Foreseen, Originated, Firmly, Orderly;
    hide DirectOnly, GoodOrigs, LooseOk, Progress, Spared, Computed;
    var dd := DirectPart(deps);
    assert dd[m][0] in dd[m];
  }

  lemma UsageIsNeed(l: seq<Dep>, m: Mod, usage: nat)
    requires usage == 0 <==> forall f :: f in l ==> f.dest == m || f.ty.Extension?
    ensures usage == 0 <==> !Needed(l, m)
  {
  }

  lemma SmallerBusy(now: set<Mod>, before: set<Mod>, busy: set<Mod>)
    requires now <= before
    ensures |now - busy| <= |before - busy|
  {
    var a, b := now - busy, before - busy;
    assert b == a + (b - a);
  }

  lemma RecursionStart(plan: Plan, dd0: Lists, vv0: Lists, deps: Lists, inv: Lists, busy: set<Mod>, m: Mod, gone: set<Mod>, loose: Slack)
    requires Looping(plan, dd0, vv0, busy, m, gone, loose, deps, inv) && m in busy
    requires DirectOnly(deps[m]) != [] && DirectOnly(deps[m])[0].dest in plan.removable && DirectOnly(deps[m])[0].dest in inv
    requires !Needed(inv[DirectOnly(deps[m])[0].dest], m)
    ensures Inv(plan, DirectPart(deps), DirectPart(inv), busy, {})
    ensures Unneeded(inv[DirectOnly(deps[m])[0].dest], busy)
    ensures DirectOnly(deps[m])[0].dest in plan.leaving && Computed(plan, deps, inv) && !loose.Any?
    ensures CalledFrom(inv[DirectOnly(deps[m])[0].dest], busy)
  {
    assert plan.removable <= plan.leaving;
    hide Inv, DirectOnly, OnlyBefore, Progress, Spared, Computed, AllNeeded, CalledFrom;
    TightBeforeRecursion(plan, DirectPart(deps), DirectPart(inv), busy, m, loose, inv);
    FoundFrom(plan, DirectPart(deps), DirectPart(inv), busy, m, inv);
  }

  /** A module that goes is found from a module being removed that lists it. */
  ghost predicate CalledFrom(l: seq<Dep>, busy: set<Mod>) {
    exists b :: b in busy && LeadsTo(DirectOnly(l), b)
  }

  lemma FoundFrom(plan: Plan, dd: Lists, vv: Lists, busy: set<Mod>, m: Mod, inv: Lists)
    requires Inv(plan, dd, vv, busy, {}) && m in busy && m in dd && dd[m] != [] && dd[m][0].dest in plan.removable
    requires vv == DirectPart(inv)
    ensures dd[m][0].dest in inv && CalledFrom(inv[dd[m][0].dest], busy)
  {
    hide Edges, Mirror, StillListed, OwnOrigins, StaleInverse, Foreseen, Originated, Firmly, Orderly, DirectOnly;
    assert dd[m][0] in dd[m];
  }

  lemma RecursionEnd(plan: Plan, dd0: Lists, vv0: Lists, d: Lists, v: Lists, busy: set<Mod>, m: Mod, gone: set<Mod>, loose: Slack,
                     x: Mod, more: set<Mod>, deps: Lists, inv: Lists)
    requires Looping(plan, dd0, vv0, busy, m, gone, loose, d, v) && m in busy
    requires DirectOnly(d[m]) != [] && DirectOnly(d[m])[0].dest == x
    requires Removed(plan, d, v, busy, x, more, deps, inv) && x in plan.removable && !loose.Any?
    ensures m in deps && Looping(plan, dd0, vv0, busy, m, gone + more, Tight, deps, inv)
    ensures deps.Keys <= d.Keys && more !! gone && x in more && |DirectOnly(deps[m])| < |DirectOnly(d[m])|
  {
    hide Surviving, DirectOnly, Spared, Inv, LooseOk, Progress, RemoveTo, DirectPart, IsAfter, Computed;
    var dd, vv := DirectPart(d), DirectPart(v);
    ProgressNested(dd0, vv0, m, busy, gone, dd, vv, more, DirectPart(deps), DirectPart(inv));
    SparedInLoop(dd0, vv0, m, busy, gone, dd, vv, more);
    KeysAfter(d, more, deps);
    FewerAfter(d, more, deps, m);
    LoosenNone(plan.removable, DirectOnly(deps[m]), inv, m);
  }

  lemma KeysAfter(d: Lists, more: set<Mod>, deps: Lists)
    requires IsAfter(DirectPart(d), more, {}, DirectPart(deps))
    ensures deps.Keys == d.Keys - more
  {
    hide Surviving, DirectOnly;
  }

  lemma FewerAfter(d: Lists, more: set<Mod>, deps: Lists, m: Mod)
    requires IsAfter(DirectPart(d), more, {}, DirectPart(deps)) && m in d && m !in more
    requires DirectOnly(d[m]) != [] && DirectOnly(d[m])[0].dest in more
    ensures m in deps && |DirectOnly(deps[m])| < |DirectOnly(d[m])|
  {
    hide DirectOnly, Surviving;
    assert DirectOnly(deps[m]) == Surviving(DirectOnly(d[m]), more);
  }

  lemma LoosenNone(removable: set<Mod>, l: seq<Dep>, inv: Lists, m: Mod)
    ensures LooseOk(removable, Tight, l, inv, m)
  {
  }

  lemma SparedInLoop(dd0: Lists, vv0: Lists, m: Mod, busy: set<Mod>, gone: set<Mod>, dd: Lists, vv: Lists, more: set<Mod>)
    requires Progress(dd0, vv0, m, busy, gone, dd, vv) && m in busy
    requires Spared(dd0, busy, gone) && Spared(dd, busy, more)
    ensures Spared(dd0, busy, gone + more)
  {
    hide Surviving, Spared, RemoveTo;
    SparedMore(dd0, busy, gone, dd, busy, more);
  }

  lemma ListsMore(listed: seq<Mod>, gone: set<Mod>, more: seq<Mod>, more': set<Mod>, x: Mod, submodules: set<Mod>)
    requires ListsRemoved(listed, gone, submodules) && ListsRemoved(more, more' - {x}, submodules)
    requires more' !! gone && x in more'
    ensures ListsRemoved(if x in submodules then listed + more else listed + more + [x], gone + more', submodules)
  {
    assert forall y :: y in listed ==> y !in more;
    DistinctConcat(listed, more);
    if x !in submodules {
      assert x !in listed + more;
      DistinctConcat(listed + more, [x]);
    }
  }

  lemma DistinctConcat(a: seq<Mod>, b: seq<Mod>)
    requires Distinct(a) && Distinct(b) && forall y :: y in a ==> y !in b
    ensures Distinct(a + b)
  {
    var c := a + b;
    forall i, j | 0 <= i < j < |c| ensures c[i] != c[j] {
      if i < |a| <= j {
        assert c[i] in a && c[j] in b;
      }
    }
  }

  lemma UnlinkStep(plan: Plan, dd0: Lists, vv0: Lists, d: Lists, v: Lists, busy: set<Mod>, m: Mod, gone: set<Mod>,
                   loose: Slack, deps: Lists, inv: Lists) returns (loose': Slack)
    requires Looping(plan, dd0, vv0, busy, m, gone, loose, d, v) && m in busy
    requires m in d && DirectOnly(d[m]) != []
    requires IsCut(DirectPart(d), DirectPart(v), m, DirectPart(deps), DirectPart(inv)) && deps.Keys == inv.Keys == d.Keys
    requires var x := DirectOnly(d[m])[0].dest;
             x !in busy && x in v && (x in plan.removable ==> Needed(v[x], m)) && inv == v[x := RemoveTo(v[x], m)]
    requires Fewer(d, deps) && Fewer(v, inv)
    ensures m in deps && Looping(plan, dd0, vv0, busy, m, gone, loose', deps, inv)
    ensures |DirectOnly(deps[m])| < |DirectOnly(d[m])|
  {
    hide Inv, DirectOnly, OnlyBefore, NoSplit, Needed, Progress, RemoveTo, Spared, Computed, Fewer, Contested, Less, AllNeeded;
    LessUnlinked(plan, d, v, busy, LooseSet(plan.removable, m, loose), m, deps, inv);
    ComputedLess(plan, d, v, deps, inv);
    if DirectOnly(d[m])[0].dest in plan.removable {
      NeedIsContest(plan, d, v, m, DirectOnly(d[m])[0].dest);
    }
    OrderlyAt(plan, DirectPart(d), DirectPart(v), busy, LooseSet(plan.removable, m, loose), m);
    loose' := LooseAfterCut(plan, DirectPart(d), DirectPart(v), busy, m, loose, v, DirectPart(deps), DirectPart(inv), inv);
    ProgressCut(dd0, vv0, m, busy, gone, DirectPart(d), DirectPart(v), DirectPart(deps), DirectPart(inv));
  }

  lemma OrderlyAt(plan: Plan, dd: Lists, vv: Lists, busy: set<Mod>, loose: set<(Mod, Mod)>, m: Mod)
    requires Inv(plan, dd, vv, busy, loose) && m in dd && m in busy
    ensures !plan.HeldBack(m) ==> NoSplit(plan, m, dd[m])
  {
  }

  /** What was computed stays, but for edges to m. */
  ghost predicate Keeps(a: Lists, b: Lists, m: Mod) {
    forall i, e :: i in a && i in b && e in a[i] && !e.direct && e.dest != m ==> e in b[i]
  }

  /** As long as nothing went with m. */
  ghost predicate KeepsIf(d0: Lists, v0: Lists, deps: Lists, inv: Lists, gone: set<Mod>, m: Mod) {
    gone == {} ==> Keeps(d0, deps, m) && Keeps(v0, inv, m)
  }

  lemma KeepsSelf(d: Lists, v: Lists, m: Mod)
    ensures KeepsIf(d, v, d, v, {}, m)
  {
  }

  lemma KeepsOn(d0: Lists, v0: Lists, d1: Lists, v1: Lists, before: set<Mod>, deps: Lists, inv: Lists, gone: set<Mod>, m: Mod)
    requires KeepsIf(d0, v0, d1, v1, before, m) && before <= gone && deps.Keys <= d1.Keys && inv.Keys <= v1.Keys
    requires gone == before ==> Keeps(d1, deps, m) && Keeps(v1, inv, m)
    ensures KeepsIf(d0, v0, deps, inv, gone, m)
  {
    hide Keeps;
    if gone == {} {
      KeepsTwice(d0, d1, deps, m);
      KeepsTwice(v0, v1, inv, m);
    }
  }

  lemma KeepsTwice(a: Lists, b: Lists, c: Lists, m: Mod)
    requires Keeps(a, b, m) && Keeps(b, c, m) && c.Keys <= b.Keys
    ensures Keeps(a, c, m)
  {
  }

  lemma KeepsDetached(d: Lists, v: Lists, m: Mod, cut: Lists, deps: Lists, inv: Lists)
    requires Detached(d, v, m, cut, deps, inv)
    ensures Keeps(d, deps, m) && Keeps(v, inv, m)
  {
    hide DropOrig, RemoveTo, DirectOnly, Has, LeadsTo;
    forall i, e: Dep | i in d && i in deps && e in d[i] && !e.direct && e.dest != m ensures e in deps[i] {
      assert e in cut[i];
      KeptByDrop(cut[i], m, e);
    }
    forall i, e: Dep | i in v && i in inv && e in v[i] && !e.direct && e.dest != m ensures e in inv[i] {
      KeptByDrop(v[i], m, e);
    }
  }

  lemma KeepsUnlinked(d: Lists, v: Lists, m: Mod, n: nat, deps: Lists, inv: Lists)
    requires m in d && n < |d[m]| && d[m][n].direct && d[m][n].dest in v
    requires deps == d[m := d[m][..n] + d[m][n + 1..]] && inv == v[d[m][n].dest := RemoveTo(v[d[m][n].dest], m)]
    ensures Keeps(d, deps, m) && Keeps(v, inv, m)
  {
    hide RemoveTo;
    var l := d[m];
    forall e | e in l && !e.direct ensures e in l[..n] + l[n + 1..] {
      assert l == l[..n] + [l[n]] + l[n + 1..];
    }
  }

  lemma KeepsDone(plan: Plan, d0: Lists, v0: Lists, busy: set<Mod>, m: Mod, d1: Lists, v1: Lists, gone: set<Mod>, loose: Slack,
                  d2: Lists, v2: Lists)
    requires Pushing(plan, DirectPart(d0), DirectPart(v0), busy, m, DirectPart(d1), DirectPart(v1))
    requires Looping(plan, DirectPart(d1), DirectPart(v1), busy + {m}, m, gone, loose, d2, v2)
    requires Keeps(d0, d1, m) && Keeps(v0, v1, m) && KeepsIf(d1, v1, d2, v2, gone, m)
    ensures gone + {m} == {m} ==> Keeps(d0, d2 - {m}, m) && Keeps(v0, v2 - {m}, m)
  {
    hide Inv, DirectOnly, Progress, Spared, Computed, LooseOk, Pushing;
    PushKeys(plan, DirectPart(d0), DirectPart(v0), busy, m, DirectPart(d1), DirectPart(v1));
    if gone + {m} == {m} {
      assert gone == {};
      KeepsTwice(d0, d1, d2, m);
      KeepsTwice(v0, v1, v2, m);
    }
  }

  /** A dependency went, with `more`. */
  lemma SweepRemoval(plan: Plan, submodules: set<Mod>, installed: set<Mod>, dd0: Lists, vv0: Lists, d: Lists, v: Lists, busy: set<Mod>,
                     m: Mod, gone: set<Mod>, loose: Slack, x: Mod, more: set<Mod>, deps: Lists, inv: Lists)
    requires Looping(plan, dd0, vv0, busy, m, gone, loose, d, v) && m in busy && Removed(plan, d, v, busy, x, more, deps, inv)
    requires DirectOnly(d[m]) != [] && DirectOnly(d[m])[0].dest == x && !loose.Any?
    requires Sweeping(plan, submodules, installed, dd0, m, DirectOnly(d[m]), gone)
    requires Swept(plan, submodules, installed, DirectPart(d), more) && Drawn(plan, DirectPart(d), x, more)
    ensures m in deps && Sweeping(plan, submodules, installed, dd0, m, DirectOnly(deps[m]), gone + more)
  {
    hide Inv, DirectOnly, Surviving, Progress, Spared, Computed, LooseOk, Taking, Swept, Drawn;
    assert DirectOnly(d[m])[0] in DirectOnly(d[m]);
    DrawnNested(plan, dd0, vv0, m, busy, gone, DirectPart(d), DirectPart(v), x, more);
    hide LeftOf, LeadsTo;
    LeftSurviving(DirectOnly(d[m]), dd0[m], more);
    TakingRemoval(plan, submodules, installed, DirectPart(d), DirectPart(v), busy, LooseSet(plan.removable, m, loose), m, dd0[m], gone, more);
    SweptNested(plan, submodules, installed, dd0, vv0, m, busy, gone, DirectPart(d), DirectPart(v), more);
  }

  /** A dependency is unlinked: it may not go, or someone else needs it. */
  lemma SweepUnlink(plan: Plan, submodules: set<Mod>, installed: set<Mod>, dd0: Lists, vv0: Lists, d: Lists, v: Lists, busy: set<Mod>,
                    m: Mod, gone: set<Mod>, loose: Slack, x: Mod, deps: Lists, inv: Lists)
    requires Looping(plan, dd0, vv0, busy, m, gone, loose, d, v) && DirectOnly(d[m]) != [] && DirectOnly(d[m])[0].dest == x && x in v
    requires IsCut(DirectPart(d), DirectPart(v), m, DirectPart(deps), DirectPart(inv))
    requires x in submodules || x !in installed ==> Needed(v[x], m)
    requires Sweeping(plan, submodules, installed, dd0, m, DirectOnly(d[m]), gone)
    ensures m in deps && Sweeping(plan, submodules, installed, dd0, m, DirectOnly(deps[m]), gone)
  {
    hide Inv, DirectOnly, Progress, Spared, Computed, LooseOk, Taking, Swept, Drawn, Contested, Needed, RemoveTo;
    if x in submodules || x !in installed {
      NeedIsContest(plan, d, v, m, x);
    }
    TakingCut(plan, submodules, installed, m, dd0[m], DirectOnly(d[m]), gone);
    assert DirectPart(deps)[m] == DirectPart(d)[m][1..];
  }

  lemma SweepDone(plan: Plan, submodules: set<Mod>, installed: set<Mod>, d0: Lists, v0: Lists, busy: set<Mod>, m: Mod, d1: Lists, v1: Lists,
                  gone: set<Mod>, loose: Slack, d2: Lists, v2: Lists)
    requires Pushing(plan, DirectPart(d0), DirectPart(v0), busy, m, DirectPart(d1), DirectPart(v1))
    requires Looping(plan, DirectPart(d1), DirectPart(v1), busy + {m}, m, gone, loose, d2, v2)
    requires Sweeping(plan, submodules, installed, DirectPart(d1), m, [], gone)
    ensures Swept(plan, submodules, installed, DirectPart(d0), gone + {m})
    ensures m in d0 && Took(plan, submodules, installed, m, DirectOnly(d0[m]), gone + {m}) && Drawn(plan, DirectPart(d0), m, gone + {m})
  {
    hide Pushing, Inv, DirectOnly, Progress, Spared, Computed, LooseOk, Taking, Swept, Took, Drawn;
    DrawnWhole(plan, DirectPart(d0), DirectPart(v0), busy, m, DirectPart(d1), DirectPart(v1), gone);
    SweptWhole(plan, submodules, installed, DirectPart(d0), DirectPart(v0), busy, m, DirectPart(d1), DirectPart(v1), gone);
  }

  lemma UnneededMeans(l: seq<Dep>)
    ensures Unneeded(l, {}) <==> !exists f :: f in l && !f.ty.Extension?
  {
  }

  lemma LiveEnds(deps: Lists, inv: Lists)
    requires Safe(deps, inv, Tainted(DirectPart(deps), DirectPart(inv), {}))
    ensures forall i, e :: i in deps && e in deps[i] ==> e.dest in deps
    ensures forall i, e :: i in inv && e in inv[i] ==> e.dest in deps
  {
    hide DirectPart;
  }

  /** Nobody went but with a module that went, lists it and is not held back. */
  ghost predicate AllDrawn(plan: Plan, d: Lists, m: Mod, gone: set<Mod>)
    requires gone <= d.Keys
  {
    forall x :: x in gone && x != m ==> exists y, e :: y in gone && !plan.HeldBack(y) && e in d[y] && e.direct && e.dest == x
  }

  lemma DrawnMeans(plan: Plan, d: Lists, m: Mod, gone: set<Mod>)
    requires m in d && gone <= d.Keys && Drawn(plan, DirectPart(d), m, gone) && m in gone
    ensures AllDrawn(plan, d, m, gone)
  {
    hide DirectOnly;
    forall x | x in gone && x != m ensures exists y, e :: y in gone && !plan.HeldBack(y) && e in d[y] && e.direct && e.dest == x {
      var y :| y in gone + {m} && Draws(plan, DirectPart(d), y, x);
      var e :| e in DirectPart(d)[y] && e.dest == x;
      assert e in d[y] && e.direct;
    }
  }

  /** What m lists directly, may go by its flags and is needed by nobody else, went. */
  ghost predicate OwnTaken(plan: Plan, submodules: set<Mod>, installed: set<Mod>, d: Lists, m: Mod, gone: set<Mod>)
    requires m in d
  {
    forall e :: e in d[m] && e.direct && e.dest != m && (e.dest in submodules || e.dest !in installed) && !Contested(plan, m, e.dest) ==> e.dest in gone
  }

  /** So did what any module that went imports or includes. */
  ghost predicate AllTaken(plan: Plan, submodules: set<Mod>, installed: set<Mod>, d: Lists, gone: set<Mod>)
    requires gone <= d.Keys
  {
    forall y, e :: y in gone && e in d[y] && e.direct && IsFirm(e.ty) && (e.dest in submodules || e.dest !in installed) && !Contested(plan, y, e.dest) ==>
      e.dest in gone
  }

  lemma SweptMeans(plan: Plan, submodules: set<Mod>, installed: set<Mod>, d: Lists, m: Mod, gone: set<Mod>)
    requires m in d && gone <= d.Keys && Took(plan, submodules, installed, m, DirectOnly(d[m]), gone)
    requires Swept(plan, submodules, installed, DirectPart(d), gone)
    ensures OwnTaken(plan, submodules, installed, d, m, gone) && AllTaken(plan, submodules, installed, d, gone)
  {
    hide DirectOnly, Contested;
    forall y, e: Dep | y in gone && e in d[y] && e.direct && IsFirm(e.ty) && Owned(plan, submodules, installed, y, e.dest) ensures e.dest in gone {
      assert Edge(DirectPart(d), y, e.ty, e.dest);
    }
  }

  lemma NeedIsContest(plan: Plan, deps: Lists, inv: Lists, m: Mod, x: Mod)
    requires Computed(plan, deps, inv) && x in inv && Needed(inv[x], m)
    ensures Contested(plan, m, x)
  {
    var f :| f in inv[x] && f.dest != m && !f.ty.Extension?;
    assert Edge(inv, x, f.ty, f.dest);
  }

  lemma NoneDirect(l: seq<Dep>)
    requires forall a :: 0 <= a < |l| ==> !l[a].direct
    ensures DirectOnly(l) == []
  {
    DirectOnlyNothing(l);
  }

  lemma ReadyFromList(plan: Plan, deps: Lists, inv: Lists, busy: set<Mod>, m: Mod)
    requires Inv(plan, DirectPart(deps), DirectPart(inv), busy, {})
    requires m in deps && m in inv && m !in busy && m in plan.leaving && m in (if busy == {} then plan.targets else plan.removable) && Unneeded(inv[m], busy)
    ensures Ready(plan, DirectPart(deps), DirectPart(inv), busy, m)
  {
    hide Inv;
  }

  lemma DetachedKeys(keys: set<Mod>, busy: set<Mod>, m: Mod)
    requires m in keys && m !in busy
    ensures |keys - (busy + {m})| < |keys - busy|
  {
    assert keys - busy == (keys - (busy + {m})) + {m};
  }

  lemma RemovalDone(plan: Plan, d0: Lists, v0: Lists, busy: set<Mod>, m: Mod, d1: Lists, v1: Lists, gone: set<Mod>, loose: Slack,
                    d2: Lists, v2: Lists, deps: Lists, inv: Lists, implicit: seq<Mod>, submodules: set<Mod>)
    requires Pushing(plan, DirectPart(d0), DirectPart(v0), busy, m, DirectPart(d1), DirectPart(v1)) && d1.Keys == d0.Keys
    requires Looping(plan, DirectPart(d1), DirectPart(v1), busy + {m}, m, gone, loose, d2, v2)
    requires DirectOnly(d2[m]) == [] && ListsRemoved(implicit, gone, submodules)
    requires deps == d2 - {m} && inv == v2 - {m} && m !in busy
    ensures Removed(plan, d0, v0, busy, m, gone + {m}, deps, inv)
    ensures ListsRemoved(implicit, gone + {m} - {m}, submodules)
  {
    hide Edges, Mirror, OwnOrigins, Paired, StaleInverse, Foreseen, Originated, Firmly, Orderly, StillListed;
    hide IsAfter, Progress, Spared, DirectOnly, IsPushed, Unneeded, LooseOk, ListsRemoved, Computed, Less;
    LessWithout(plan, d2, v2, m);
    ComputedLess(plan, d2, v2, deps, inv);
    var dd0, vv0, dd1, vv1 := DirectPart(d0), DirectPart(v0), DirectPart(d1), DirectPart(v1);
    assert Finishing(plan, dd0, vv0, busy, m, dd1, vv1, gone, DirectPart(d2), DirectPart(v2));
    ProgressDone(plan, dd0, vv0, busy, m, dd1, vv1, gone, DirectPart(d2), DirectPart(v2));
    assert DirectPart(deps) == DirectPart(d2) - {m};
    assert DirectPart(inv) == DirectPart(v2) - {m};
    InvSurvives(plan, dd0, vv0, busy, gone + {m}, DirectPart(deps), DirectPart(inv));
    SparedWithFirst(plan, dd0, vv0, busy, m, dd1, vv1, gone);
    assert gone + {m} - {m} == gone;
  }

  lemma SparedWithFirst(plan: Plan, dd0: Lists, vv0: Lists, busy: set<Mod>, m: Mod, dd1: Lists, vv1: Lists, gone: set<Mod>)
    requires Pushing(plan, dd0, vv0, busy, m, dd1, vv1) && Spared(dd1, busy + {m}, gone)
    ensures Spared(dd0, busy, gone + {m})
  {
    hide Spared, Inv, Surviving, RemoveTo, DropOrig;
    SparedFirst(plan, dd0, vv0, busy, m);
    forall i | i in dd0 && i !in {m} && i !in busy ensures i in dd1 && dd1[i] == Surviving(dd0[i], {m}) {
      PushedForward(plan, dd0, vv0, busy, m, dd1, vv1, i);
    }
    SparedMore(dd0, busy, {m}, dd1, busy + {m}, gone);
    assert {m} + gone == gone + {m};
  }

  lemma SafeAfterRemoval(plan: Plan, d: Lists, v: Lists, busy: set<Mod>, m: Mod, gone: set<Mod>, deps: Lists, inv: Lists)
    requires Removed(plan, d, v, busy, m, gone, deps, inv)
    ensures Safe(DirectPart(deps), DirectPart(inv), Tainted(DirectPart(deps), DirectPart(inv), busy))
    ensures busy == {} ==> Converse(DirectPart(deps), DirectPart(inv))
  {
    hide DirectOnly, Paired, OwnOrigins, Originated, Firmly, Orderly, StillListed, StaleInverse, Foreseen, Safe, Converse, Spared;
    hide IsAfter, Computed, Tainted;
    InvIsSafe(plan, DirectPart(deps), DirectPart(inv), busy);
    if busy == {} { MirrorIsConverse(DirectPart(deps), DirectPart(inv)); }
  }

  /** `implicitly_removed` holds the removed modules that are not submodules, once each. */
  ghost predicate ListsRemoved(implicit: seq<Mod>, gone: set<Mod>, submodules: set<Mod>) {
    Distinct(implicit) && forall x :: x in implicit <==> x in gone && x !in submodules
  }

  lemma ReadyForCut(plan: Plan, deps: Lists, inv: Lists, busy: set<Mod>, m: Mod)
    requires Ready(plan, DirectPart(deps), DirectPart(inv), busy, m)
    ensures m in inv && deps.Keys == inv.Keys
    ensures forall f :: f in inv[m] && f.direct ==> f.dest in deps
  {
    hide DirectOnly, Paired, OwnOrigins, Originated, Firmly, Orderly;
    var vv := DirectPart(inv);
    forall f | f in inv[m] && f.direct ensures f.dest in deps {
      assert f in vv[m];
    }
  }

  /** What detaching m accesses is there. */
  ghost predicate Detachable(deps: Lists, inv: Lists, m: Mod)
    requires m in deps && deps.Keys == inv.Keys
  {
    && (forall f :: f in inv[m] && f.direct ==> f.dest in deps)
    && (forall e :: e in deps[m] && e.direct && e.dest == m ==> LeadsTo(DirectOnly(inv[m]), m))
    && (forall e :: e in deps[m] && e.direct ==> e.dest in deps)
    && OrigsDistinct(deps) && OrigsDistinct(inv)
  }

  ghost predicate Detached(d0: Lists, v0: Lists, m: Mod, cut: Lists, deps: Lists, inv: Lists) {
    && m in d0 && m in v0 && m in cut && cut.Keys == d0.Keys && deps.Keys == d0.Keys && inv.Keys == v0.Keys
    && CutInto(d0, DirectOnly(v0[m]), m, cut)
    && Forgotten(cut, DirectOnly(cut[m]), m, deps) && Forgotten(v0, DirectOnly(cut[m]), m, inv)
  }

  lemma ReadyToForget(deps: Lists, inv: Lists, m: Mod, cut: Lists)
    requires m in deps && deps.Keys == inv.Keys && Detachable(deps, inv, m) && CutInto(deps, DirectOnly(inv[m]), m, cut)
    ensures m in cut && cut.Keys == inv.Keys && OrigsDistinct(cut)
    ensures forall e :: e in cut[m] && e.direct && e.ty.Import? ==> e.dest in cut && e.dest != m
  {
    hide DirectOnly, RemoveTo, LeadsTo;
  }

  lemma EdgesAreDirect(deps: Lists, inv: Lists, busy: set<Mod>)
    requires Edges(DirectPart(deps), DirectPart(inv), busy)
    ensures forall i, e :: i in deps && e in deps[i] && e.direct ==> e.dest in deps
    ensures OrigsDistinct(deps) && OrigsDistinct(inv)
  {
    hide DirectOnly;
    var dd, vv := DirectPart(deps), DirectPart(inv);
    forall i, e | i in deps && e in deps[i] && e.direct ensures e in dd[i] && e.dest in dd {
    }
    forall i, e | i in inv && e in inv[i] && e.direct ensures e in vv[i] {
    }
  }

  lemma ReadyToDetach(plan: Plan, deps: Lists, inv: Lists, busy: set<Mod>, m: Mod)
    requires Ready(plan, DirectPart(deps), DirectPart(inv), busy, m)
    ensures m in deps && deps.Keys == inv.Keys && Detachable(deps, inv, m)
  {
    hide DirectOnly, Inv, LeadsTo, OrigsDistinct, Edges, DirectPart;
    ReadyForCut(plan, deps, inv, busy, m);
    ReadyEdges(plan, DirectPart(deps), DirectPart(inv), busy, m);
    EdgesAreDirect(deps, inv, busy);
    forall e | e in deps[m] && e.direct && e.dest == m ensures LeadsTo(DirectOnly(inv[m]), m) {
      OwnSource(plan, deps, inv, busy, m, e);
    }
  }

  lemma ReadyEdges(plan: Plan, dd: Lists, vv: Lists, busy: set<Mod>, m: Mod)
    requires Ready(plan, dd, vv, busy, m)
    ensures Edges(dd, vv, busy)
  {
  }

  lemma OwnSource(plan: Plan, deps: Lists, inv: Lists, busy: set<Mod>, m: Mod, e: Dep)
    requires Ready(plan, DirectPart(deps), DirectPart(inv), busy, m) && m in deps && m in inv && e in deps[m] && e.direct && e.dest == m
    ensures LeadsTo(DirectOnly(inv[m]), m)
  {
    hide DirectOnly, Ready, LeadsTo;
    NamedIn(DirectPart(deps)[m], e);
    SourcesKnown(plan, DirectPart(deps), DirectPart(inv), busy, m, m);
  }

  lemma NamedIn(l: seq<Dep>, e: Dep)
    requires e in l
    ensures LeadsTo(l, e.dest)
  {
  }

  /** Detaching a module takes edges away, no more. */
  lemma FewerDetached(d0: Lists, v0: Lists, m: Mod, d1: Lists, deps: Lists, inv: Lists)
    requires m in v0 && CutInto(d0, DirectOnly(v0[m]), m, d1) && m in d1
    requires Forgotten(d1, DirectOnly(d1[m]), m, deps) && Forgotten(v0, DirectOnly(d1[m]), m, inv)
    ensures Fewer(d0, deps) && Fewer(v0, inv)
  {
    hide RemoveTo, DropOrig, DirectOnly, CutInto, Forgotten, Fewer;
    FewerForgotten(d1, DirectOnly(d1[m]), m, deps);
    FewerForgotten(v0, DirectOnly(d1[m]), m, inv);
    FewerCut(d0, DirectOnly(v0[m]), m, d1);
    FewerTwice(d0, d1, deps);
  }

  lemma LessDetached(plan: Plan, d0: Lists, v0: Lists, m: Mod, cut: Lists, deps: Lists, inv: Lists)
    requires Detached(d0, v0, m, cut, deps, inv)
    ensures Less(plan, d0, v0, deps, inv) && KeepsFirm(v0, inv)
  {
    hide CutInto, Forgotten, Shrunk, DirectOnly, Edge;
    ShrunkDetached(d0, v0, m, cut, deps, inv);
    KeptForgotten(v0, DirectOnly(cut[m]), m, inv);
  }

  lemma ShrunkDetached(d0: Lists, v0: Lists, m: Mod, cut: Lists, deps: Lists, inv: Lists)
    requires Detached(d0, v0, m, cut, deps, inv)
    ensures Shrunk(d0, v0, deps, inv)
  {
    hide CutInto, Forgotten, Fewer, DirectPart, Edge, DirectOnly;
    FewerDetached(d0, v0, m, cut, deps, inv);
    DirectCut(d0, DirectOnly(v0[m]), m, cut);
    DirectForgotten(cut, DirectOnly(cut[m]), m, deps);
    DirectForgotten(v0, DirectOnly(cut[m]), m, inv);
    FewerTwice(DirectPart(d0), DirectPart(cut), DirectPart(deps));
  }

  lemma ShrunkTwice(d0: Lists, v0: Lists, d1: Lists, v1: Lists, d2: Lists, v2: Lists)
    requires Shrunk(d0, v0, d1, v1) && Shrunk(d1, v1, d2, v2)
    ensures Shrunk(d0, v0, d2, v2)
  {
    hide Fewer, DirectPart;
    FewerTwice(d0, d1, d2);
    FewerTwice(v0, v1, v2);
    FewerTwice(DirectPart(d0), DirectPart(d1), DirectPart(d2));
    FewerTwice(DirectPart(v0), DirectPart(v1), DirectPart(v2));
  }

  lemma DirectCut(before: Lists, sources: seq<Dep>, m: Mod, after: Lists)
    requires CutInto(before, sources, m, after)
    ensures Fewer(DirectPart(before), DirectPart(after))
  {
    hide RemoveTo, DirectOnly, LeadsTo;
  }

  lemma DirectForgotten(before: Lists, imports: seq<Dep>, m: Mod, after: Lists)
    requires Forgotten(before, imports, m, after)
    ensures Fewer(DirectPart(before), DirectPart(after))
  {
    hide DropOrig, DirectOnly;
    forall i, t, j | Edge(DirectPart(after), i, t, j) ensures Edge(DirectPart(before), i, t, j) {
      PushedDirectAt(before, imports, m, after, i);
      DropOrigHas(DirectOnly(before[i]), m, t, j);
    }
  }

  ghost predicate KeepsFirm(before: Lists, after: Lists) {
    after.Keys == before.Keys && forall y, t, b :: IsFirm(t) && Edge(before, y, t, b) ==> Edge(after, y, t, b)
  }

  /** Forgetting originators leaves imports and inclusions alone. */
  lemma KeptForgotten(before: Lists, imports: seq<Dep>, m: Mod, after: Lists)
    requires Forgotten(before, imports, m, after)
    ensures KeepsFirm(before, after)
  {
    hide DropOrig;
    forall y, t, b | IsFirm(t) && Edge(before, y, t, b) ensures Edge(after, y, t, b) {
      var e :| e in before[y] && e.ty == t && e.dest == b;
      KeptByDrop(before[y], m, e);
    }
  }

  lemma LessUnlinked(plan: Plan, d: Lists, v: Lists, busy: set<Mod>, loose: set<(Mod, Mod)>, m: Mod, deps: Lists, inv: Lists)
    requires Inv(plan, DirectPart(d), DirectPart(v), busy, loose) && m in d && DirectOnly(d[m]) != []
    requires IsCut(DirectPart(d), DirectPart(v), m, DirectPart(deps), DirectPart(inv)) && Fewer(d, deps) && Fewer(v, inv)
    requires var x := DirectOnly(d[m])[0].dest; x in v && inv == v[x := RemoveTo(v[x], m)]
    ensures Less(plan, d, v, deps, inv)
  {
    hide Inv, Fewer, DirectOnly, IsCut, DirectPart, RemoveTo, Edge;
    CutIsFewer(DirectPart(d), DirectPart(v), m, DirectPart(deps), DirectPart(inv));
    FirstListed(plan, DirectPart(d), DirectPart(v), busy, loose, m);
    FirmUnlinked(v, m, DirectOnly(d[m])[0].dest);
  }

  lemma CutIsFewer(dd: Lists, vv: Lists, m: Mod, d: Lists, v: Lists)
    requires IsCut(dd, vv, m, d, v)
    ensures Fewer(dd, d) && Fewer(vv, v)
  {
    CutShrinks(dd, vv, m, d, v);
    hide IsCut;
  }

  lemma FirstListed(plan: Plan, dd: Lists, vv: Lists, busy: set<Mod>, loose: set<(Mod, Mod)>, m: Mod)
    requires Inv(plan, dd, vv, busy, loose) && m in dd && dd[m] != []
    ensures (m, dd[m][0].dest) in plan.listed
  {
    hide Edges, Mirror, StillListed, OwnOrigins, Paired, StaleInverse, Foreseen, Originated, Orderly;
    assert dd[m][0] in dd[m];
  }

  lemma FirmUnlinked(v: Lists, m: Mod, x: Mod)
    requires x in v
    ensures forall y, t, b :: Edge(v, y, t, b) && !(y == x && b == m) ==> Edge(v[x := RemoveTo(v[x], m)], y, t, b)
  {
    hide RemoveTo;
  }

  lemma LessWithout(plan: Plan, d: Lists, v: Lists, m: Mod)
    ensures Less(plan, d, v, d - {m}, v - {m})
  {
  }

  // ---------------------------------------------------------------- modules held by who takes them

  /** Before m goes with another module that holds what it lists, others need all of it by an import
      or an inclusion. */
  ghost predicate FirmlyNeeded(l: seq<Dep>, m: Mod) {
    exists t, b :: IsFirm(t) && Has(l, t, b) && b != m
  }

  lemma HeldMeets(plan: Plan, dd: Lists, vv: Lists, busy: set<Mod>, m: Mod, y: Mod, b: Mod) returns (t: DepType)
    requires Edges(dd, vv, busy) && Foreseen(plan, dd, vv, busy) && Firmly(plan, dd, vv, busy) && plan.HeldBack(m)
    requires m in dd && m !in busy && b in busy && LeadsTo(vv[m], b) && LeadsTo(dd[m], y) && y in plan.removable
    ensures IsFirm(t) && Meets(dd, vv, m, b, t, y) && (b, y) !in plan.listed && b != m && y in vv
  {
    NotNeededBy(plan, dd, vv, busy, m, b);
    var e: Dep :| e in dd[m] && e.dest == y;
    var f: Dep :| f in vv[m] && f.dest == b;
    assert (m, y) in plan.listed && (b, m) in plan.listed && y in dd;
    hide Edges, GoodOrigs;
    assert plan.Held(m, y);
    t :| plan.HeldBy(t, m, y);
    assert (m, t, y) in plan.firm && (b, t, m) in plan.firm;
    assert plan.Needs(m, y);
  }

  lemma HeldAt(plan: Plan, deps: Lists, inv: Lists, busy: set<Mod>, m: Mod, y: Mod)
    requires Inv(plan, DirectPart(deps), DirectPart(inv), busy, {}) && Computed(plan, deps, inv) && plan.HeldBack(m)
    requires m in deps && m in inv && m !in busy && CalledFrom(inv[m], busy) && LeadsTo(DirectOnly(deps[m]), y) && y in plan.removable
    ensures y in inv && FirmlyNeeded(inv[y], m)
  {
    hide Edges, Mirror, StillListed, OwnOrigins, Paired, StaleInverse, Foreseen, Originated, Firmly, Orderly, DirectOnly, Bounded;
    hide LeadsTo, IsFirm, Has;
    var b :| b in busy && LeadsTo(DirectOnly(inv[m]), b);
    var t := HeldMeets(plan, DirectPart(deps), DirectPart(inv), busy, m, y, b);
    assert Edge(inv, y, t, b);
  }

  /** m does not import or include a module that is being removed. */
  lemma NotNeededBy(plan: Plan, dd: Lists, vv: Lists, busy: set<Mod>, m: Mod, b: Mod)
    requires Firmly(plan, dd, vv, busy) && m in dd && m !in busy && b in busy && b in dd
    ensures !plan.Needs(m, b)
  {
  }

  lemma HeldNeeds(plan: Plan, deps: Lists, inv: Lists, busy: set<Mod>, m: Mod)
    requires Inv(plan, DirectPart(deps), DirectPart(inv), busy, {}) && Computed(plan, deps, inv) && plan.HeldBack(m)
    requires m in deps && m in inv && m !in busy && CalledFrom(inv[m], busy)
    ensures forall y :: LeadsTo(DirectOnly(deps[m]), y) && y in plan.removable ==> y in inv && FirmlyNeeded(inv[y], m)
  {
    hide Inv, Computed, CalledFrom, DirectOnly, LeadsTo, FirmlyNeeded;
    forall y | LeadsTo(DirectOnly(deps[m]), y) && y in plan.removable ensures y in inv && FirmlyNeeded(inv[y], m) {
      HeldAt(plan, deps, inv, busy, m, y);
    }
  }

  /** Detaching m does not change that. */
  lemma StillHeld(plan: Plan, d0: Lists, v0: Lists, busy: set<Mod>, m: Mod, deps: Lists, inv: Lists)
    requires m in d0
    requires forall y :: LeadsTo(DirectOnly(d0[m]), y) && y in plan.removable ==> y in v0 && FirmlyNeeded(v0[y], m)
    requires m in deps && Less(plan, d0, v0, deps, inv) && KeepsFirm(v0, inv)
    ensures AllNeeded(plan.removable, DirectOnly(deps[m]), inv, m)
  {
    hide DirectOnly;
    forall e | e in DirectOnly(deps[m]) && e.dest in plan.removable ensures e.dest in inv && Needed(inv[e.dest], m) {
      assert Edge(DirectPart(deps), m, e.ty, e.dest);
      assert Edge(DirectPart(d0), m, e.ty, e.dest);
      var y := e.dest;
      assert LeadsTo(DirectOnly(d0[m]), y);
      var t, b :| IsFirm(t) && Has(v0[y], t, b) && b != m;
      assert Edge(v0, y, t, b);
      assert Edge(inv, y, t, b);
    }
  }

  lemma FewerTwice(a: Lists, b: Lists, c: Lists)
    requires Fewer(a, b) && Fewer(b, c)
    ensures Fewer(a, c)
  {
    hide Edge;
  }

  lemma FewerCut(before: Lists, sources: seq<Dep>, m: Mod, after: Lists)
    requires CutInto(before, sources, m, after)
    ensures Fewer(before, after)
  {
    hide RemoveTo;
  }

  lemma FewerForgotten(before: Lists, imports: seq<Dep>, m: Mod, after: Lists)
    requires Forgotten(before, imports, m, after)
    ensures Fewer(before, after)
  {
    hide DropOrig;
    forall i, t, j | Edge(after, i, t, j) ensures Edge(before, i, t, j) {
      DropOrigHas(before[i], m, t, j);
    }
  }

  lemma {:induction false} DropOrigHas(l: seq<Dep>, m: Mod, t: DepType, j: Mod)
    ensures Has(DropOrig(l, m), t, j) ==> Has(l, t, j)
  {
    if l != [] {
      DropOrigHas(l[1..], m, t, j);
      assert l == [l[0]] + l[1..];
    }
  }

  lemma FewerUnlinked(deps: Lists, inv: Lists, m: Mod, n: nat, x: Mod)
    requires m in deps && n < |deps[m]| && x in inv
    ensures Fewer(deps, deps[m := deps[m][..n] + deps[m][n + 1..]])
    ensures Fewer(inv, inv[x := RemoveTo(inv[x], m)])
  {
    hide RemoveTo;
  }

  lemma ForgottenKeys(before: Lists, imports: seq<Dep>, m: Mod, after: Lists)
    requires Forgotten(before, imports, m, after)
    ensures after.Keys == before.Keys
  {
  }

  /** The first direct entry is the first of the direct part. */
  lemma {:induction false} FirstDirect(l: seq<Dep>, n: nat)
    requires n < |l| && l[n].direct && forall a :: 0 <= a < n ==> !l[a].direct
    ensures DirectOnly(l) != [] && DirectOnly(l)[0] == l[n]
    ensures DirectOnly(l[..n] + l[n + 1..]) == DirectOnly(l)[1..]
  {
    if n == 0 {
      assert l[..n] + l[n + 1..] == l[1..];
    } else {
      FirstDirect(l[1..], n - 1);
      assert (l[..n] + l[n + 1..])[1..] == l[1..][..n - 1] + l[1..][n..];
    }
  }

  lemma CutIntoStart(d0: Lists, l: seq<Dep>, m: Mod)
    ensures CutInto(d0, DirectOnly(l[..0]), m, d0)
  {
  }

  lemma ForgottenStart(d0: Lists, l: seq<Dep>, m: Mod)
    ensures Forgotten(d0, DirectOnly(l[..0]), m, d0)
  {
  }

  lemma CutIntoNext(d0: Lists, sources: seq<Dep>, m: Mod, deps: Lists, f: Dep)
    requires CutInto(d0, sources, m, deps) && f.dest in d0
    ensures f.dest in deps
    ensures CutInto(d0, sources + [f], m, deps[f.dest := RemoveTo(deps[f.dest], m)])
  {
    RemoveToNothing(RemoveTo(d0[f.dest], m), m);
    hide RemoveTo;
    forall i ensures LeadsTo(sources + [f], i) <==> LeadsTo(sources, i) || i == f.dest {
      if LeadsTo(sources, i) {
        var e :| e in sources && e.dest == i;
        assert e in sources + [f];
      }
      assert f in sources + [f];
    }
  }

  ghost predicate OrigsDistinct(g: Lists) {
    forall i, e :: i in g && e in g[i] && e.direct && e.ty.Data? ==> Distinct(e.origs)
  }

  lemma ForgottenNext(d0: Lists, imports: seq<Dep>, m: Mod, deps: Lists, e: Dep)
    requires Forgotten(d0, imports, m, deps) && OrigsDistinct(d0)
    requires e.ty.Import? ==> e.dest in d0
    ensures e.ty.Import? ==> e.dest in deps && Forgotten(d0, imports + [e], m, deps[e.dest := DropOrig(deps[e.dest], m)])
    ensures !e.ty.Import? ==> Forgotten(d0, imports + [e], m, deps)
  {
    if e.ty.Import? { DropOrigTwice(d0[e.dest], m); }
    hide DropOrig;
    forall i ensures Has(imports + [e], Import, i) <==> Has(imports, Import, i) || (e.ty.Import? && i == e.dest) {
      if Has(imports, Import, i) {
        var x :| x in imports && x.dest == i && x.ty == Import;
        assert x in imports + [e];
      }
      assert e in imports + [e];
    }
  }

  /** Progress of the inner loops at k: the pairs (v0[k][x], d0[k][y]) with x < a, or x == a and
      y < b, have been linked, and nothing else has. */
  ghost predicate Linked(d0: Lists, v0: Lists, k: Mod, a: nat, b: nat, deps: Lists, inv: Lists)
    requires k in d0 && k in v0
  {
    && (forall i, t, j :: Edge(deps, i, t, j) ==> Edge(d0, i, t, j) || Meets(d0, v0, k, i, t, j))
    && (forall i, t, j :: Edge(inv, j, t, i) ==> Edge(v0, j, t, i) || Meets(d0, v0, k, i, t, j))
    && (forall i, t, j :: Edge(d0, i, t, j) ==> Edge(deps, i, t, j))
    && (forall i, t, j :: Edge(v0, j, t, i) ==> Edge(inv, j, t, i))
    && (forall x, y :: 0 <= x < |v0[k]| && 0 <= y < |d0[k]| && (x < a || (x == a && y < b))
          && v0[k][x].ty == d0[k][y].ty && v0[k][x].dest != d0[k][y].dest
          ==> Edge(deps, v0[k][x].dest, v0[k][x].ty, d0[k][y].dest)
              && Edge(inv, d0[k][y].dest, v0[k][x].ty, v0[k][x].dest))
  }
}
