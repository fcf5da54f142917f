/** When a removal is sound, in terms of the graph before the call, and that the shapes of
    `RemovalRuns` and `ClosureRun` are outside (src/module_dependencies.c:2460-2851). */
module RemovalConditions {
  import opened DepGraph
  import opened Reachability
  import opened RemovalSpec
  import opened RemovalInvariant
  import opened RemovalSteps
  import opened ModuleGraph
  import opened RemovalRuns
  import opened ClosureRun

  /** All edges of one side. */
  ghost function Triples(g: Lists): (r: set<(Mod, DepType, Mod)>)
    ensures forall i, t, j :: (i, t, j) in r <==> Edge(g, i, t, j)
  {
    set i, e | i in g && e in g[i] :: (i, e.ty, e.dest)
  }

  /** The direct extension edges. */
  ghost function Extensions(g: Lists): (r: set<(Mod, Mod)>)
    ensures forall i, e :: i in g && e in g[i] && e.direct && e.ty.Extension? ==> (i, e.dest) in r
    ensures forall p :: p in r ==> Edge(DirectPart(g), p.0, Extension, p.1)
  {
    set i, e | i in g && e in g[i] && e.direct && e.ty.Extension? :: (i, e.dest)
  }

  /** Which modules list which directly. */
  ghost function Pairs(g: Lists): (r: set<(Mod, Mod)>)
    ensures forall i, e :: i in g && e in g[i] && e.direct ==> (i, e.dest) in r
    ensures forall p :: p in r ==> p.0 in g && LeadsTo(DirectOnly(g[p.0]), p.1)
  {
    set i, e | i in g && e in g[i] && e.direct :: (i, e.dest)
  }

  /** The direct imports and inclusions. */
  ghost function Firm(g: Lists): (r: set<(Mod, DepType, Mod)>)
    ensures forall i, t, j :: (i, t, j) in r <==> IsFirm(t) && Edge(DirectPart(g), i, t, j)
  {
    set i, e | i in g && e in DirectOnly(g[i]) && IsFirm(e.ty) :: (i, e.ty, e.dest)
  }

  ghost predicate NoSelfEdge(g: Lists) {
    forall i, t :: !Edge(g, i, t, i)
  }

  /** Someone other than m has a direct edge to x that is not an extension. */
  ghost predicate UsedApart(direct: Lists, m: Mod, x: Mod) {
    exists z, t :: Edge(direct, z, t, x) && z != m && t != Extension
  }

  /** A removal of m, everything known from the graph. */
  ghost function PlanFor(deps: Lists, removable: set<Mod>, pinned: set<Mod>, kept: set<Mod>, m: Mod): Plan {
    Plan(removable, pinned, kept, {m}, removable + {m}, Extensions(deps), Triples(deps), Pairs(deps), Firm(deps))
  }

  /** The closure is transitive, edge type by edge type. */
  lemma ClosedIsTransitive(direct: Lists, deps: Lists, plan: Plan)
    requires Closed(direct, deps) && plan.reach == Triples(deps)
    ensures plan.Transitive()
  {
    hide Edge, Walk;
    forall i, t, k, j | Edge(deps, i, t, k) && Edge(deps, k, t, j) && i != j ensures Edge(deps, i, t, j) {
      if i != k && k != j {
        ReachesTwice(direct, t, i, k, j);
      }
    }
  }

  lemma ReachesTwice(g: Lists, t: DepType, i: Mod, k: Mod, j: Mod)
    requires Reaches(g, t, i, k) && Reaches(g, t, k, j)
    ensures Reaches(g, t, i, j)
  {
    var p :| Walk(g, t, p) && p[0] == i && p[|p| - 1] == k;
    var q :| Walk(g, t, q) && q[0] == k && q[|q| - 1] == j;
    var via := Elems(p) + Elems(q);
    Concatenate(g, t, via, k, p, q);
    assert Connects(g, t, via + {k}, i, j, p + q[1..]);
  }

  lemma BoundedByTriples(deps: Lists, inv: Lists)
    requires Converse(deps, inv)
    ensures Bounded(Triples(deps), deps, inv)
  {
    hide Edge;
  }

  lemma NotReached(deps: Lists, inv: Lists, m: Mod, z: Mod, t: DepType)
    requires Converse(deps, inv) && Closed(DirectPart(deps), deps) && m in inv && Unneeded(inv[m], {})
    requires z != m && t != Extension
    ensures !Reaches(DirectPart(deps), t, z, m)
  {
    assert Edge(deps, z, t, m) <==> Edge(inv, m, t, z);
    assert Edge(deps, z, t, m) <==> Reaches(DirectPart(deps), t, z, m);
  }

  lemma ReachesPrefix(g: Lists, t: DepType, p: seq<Mod>)
    requires Walk(g, t, p) && 2 < |p|
    ensures Reaches(g, t, p[0], p[|p| - 2])
  {
    var q := p[..|p| - 1];
    forall k | 0 <= k < |q| - 1 ensures Edge(g, q[k], t, q[k + 1]) {
      assert Edge(g, p[k], t, p[k + 1]);
    }
    assert Walk(g, t, q) && q[0] == p[0] && q[|q| - 1] == p[|p| - 2];
  }

  /** The last step of a walk into x does not start at a module that nobody needs. */
  lemma LastStep(deps: Lists, inv: Lists, m: Mod, z: Mod, t: DepType, x: Mod)
    requires Converse(deps, inv) && Closed(DirectPart(deps), deps) && m in inv && Unneeded(inv[m], {})
    requires z != m && t != Extension && Reaches(DirectPart(deps), t, z, x)
    ensures UsedApart(DirectPart(deps), m, x)
  {
    hide Converse, Closed, Unneeded, Edge;
    var direct := DirectPart(deps);
    var p :| Walk(direct, t, p) && p[0] == z && p[|p| - 1] == x;
    var w := p[|p| - 2];
    assert Edge(direct, w, t, p[|p| - 2 + 1]);
    NotReached(deps, inv, m, z, t);
    if 2 < |p| { ReachesPrefix(direct, t, p); }
  }

  /** For a module that nobody needs the order condition is about the direct users of the modules
      it lists. */
  lemma ContestedMeans(plan: Plan, deps: Lists, inv: Lists, m: Mod, x: Mod)
    requires plan.reach == Triples(deps) && Converse(deps, inv) && Closed(DirectPart(deps), deps) && NoSelfEdge(deps)
    requires m in inv && Unneeded(inv[m], {})
    ensures Contested(plan, m, x) <==> UsedApart(DirectPart(deps), m, x)
  {
    hide Edge, Reaches, Unneeded;
    if Contested(plan, m, x) {
      var z, t :| (z, t, x) in plan.reach && z != m && t != Extension;
      LastStep(deps, inv, m, z, t, x);
    }
    if UsedApart(DirectPart(deps), m, x) {
      var z, t :| Edge(DirectPart(deps), z, t, x) && z != m && t != Extension;
      FewerDirect(deps);
      assert (z, t, x) in plan.reach;
    }
  }

  /** So a module that may go by its flags goes with the target if the target lists it and no other
      module does, extensions aside. */
  lemma GoesWithTarget(plan: Plan, deps: Lists, inv: Lists, m: Mod, e: Dep, gone: set<Mod>, submodules: set<Mod>, installed: set<Mod>)
    requires plan.reach == Triples(deps) && Converse(deps, inv) && Closed(DirectPart(deps), deps) && NoSelfEdge(deps)
    requires m in deps && m in inv && Unneeded(inv[m], {}) && OwnTaken(plan, submodules, installed, deps, m, gone)
    requires e in deps[m] && e.direct && (e.dest in submodules || e.dest !in installed) && !UsedApart(DirectPart(deps), m, e.dest)
    ensures e.dest in gone
  {
    hide Converse, Closed, Unneeded, Contested, UsedApart;
    ContestedMeans(plan, deps, inv, m, e.dest);
    EntryEdge(deps, m, e);
  }

  lemma {:induction false} NoSplitWeaker(plan: Plan, other: Plan, i: Mod, l: seq<Dep>)
    requires plan.removable == other.removable && (forall x :: Contested(plan, i, x) ==> Contested(other, i, x))
    requires NoSplit(other, i, l)
    ensures NoSplit(plan, i, l)
  {
    hide Contested, OnlyBefore;
    if l != [] { NoSplitWeaker(plan, other, i, l[1..]); }
  }

  /** What a caller can check of the graph: the sides mirror each other and are closed, originators
      are ends or import both ends, nobody needs m; the extension condition; for the target, the
      order condition on direct users only; for a module that may go with it, that whoever may take
      it holds all it might take, or the order condition on all users. */
  ghost predicate Removable(deps: Lists, inv: Lists, plan: Plan, m: Mod) {
    && Edges(DirectPart(deps), DirectPart(inv), {}) && Mirror(DirectPart(deps), DirectPart(inv), {}) && Originated(DirectPart(deps), {})
    && Converse(deps, inv) && Closed(DirectPart(deps), deps) && NoSelfEdge(deps)
    && m in deps && m in inv && Unneeded(inv[m], {})
    && plan.Guarded()
    && NoSplit(plan.(reach := Triples(DirectPart(deps))), m, DirectOnly(deps[m]))
    && forall i :: i in deps && i in plan.removable && i != m ==> plan.HeldBack(i) || NoSplit(plan, i, DirectOnly(deps[i]))
  }

  lemma OrderlyGraph(deps: Lists, inv: Lists, plan: Plan, m: Mod)
    requires Removable(deps, inv, plan, m) && plan.reach == Triples(deps) && plan.leaving == plan.removable + {m} && plan.targets == {m}
    ensures Orderly(plan, DirectPart(deps))
  {
    hide Edges, Mirror, Originated, NoSplit, Contested, Converse, Closed, DirectOnly, NoSelfEdge, Unneeded;
    var direct := plan.(reach := Triples(DirectPart(deps)));
    forall x ensures Contested(plan, m, x) ==> Contested(direct, m, x) {
      ContestedMeans(plan, deps, inv, m, x);
      UsedIsContested(direct, DirectPart(deps), m, x);
    }
    NoSplitWeaker(plan, direct, m, DirectOnly(deps[m]));
  }

  lemma UsedIsContested(plan: Plan, direct: Lists, m: Mod, x: Mod)
    requires plan.reach == Triples(direct)
    ensures UsedApart(direct, m, x) ==> Contested(plan, m, x)
  {
    hide Edge;
  }

  lemma ForeseenGraph(deps: Lists, inv: Lists, plan: Plan)
    requires deps.Keys == inv.Keys && Mirror(DirectPart(deps), DirectPart(inv), {})
    requires plan.extensions == Extensions(deps) && plan.Valid()
    ensures Foreseen(plan, DirectPart(deps), DirectPart(inv), {})
  {
    hide DirectOnly, Edge;
    var dd, vv := DirectPart(deps), DirectPart(inv);
    forall k, f: Dep | k in vv && f in vv[k] && f.ty.Extension? ensures (f.dest, k) in plan.extensions {
      var e := Dep(f.ty, k, true, f.origs);
      assert e in dd[f.dest];
    }
  }

  lemma FirmForth(deps: Lists, plan: Plan)
    requires plan.firm == Firm(deps)
    ensures var dd := DirectPart(deps); forall i, t, y :: (i, t, y) in plan.firm && i in dd ==> Has(dd[i], t, y)
  {
    hide DirectPart, Has;
  }

  lemma FirmBack(deps: Lists, inv: Lists, b: Mod, t: DepType, i: Mod)
    requires MirrorForth(DirectPart(deps), DirectPart(inv), {}) && Edge(DirectPart(deps), b, t, i) && i in inv
    ensures Has(DirectPart(inv)[i], t, b)
  {
    hide DirectOnly;
    var dd, vv := DirectPart(deps), DirectPart(inv);
    var e: Dep :| e in dd[b] && e.ty == t && e.dest == i;
    assert Dep(e.ty, b, true, e.origs) in vv[i];
  }

  lemma ListedForth(deps: Lists, i: Mod, e: Dep)
    requires i in deps && e in DirectOnly(deps[i])
    ensures (i, e.dest) in Pairs(deps)
  {
    hide DirectOnly;
  }

  lemma ListedBack(deps: Lists, inv: Lists, k: Mod, f: Dep)
    requires MirrorBack(DirectPart(deps), DirectPart(inv), {}) && k in inv && f in DirectOnly(inv[k])
    ensures (f.dest, k) in Pairs(deps)
  {
    hide DirectOnly, Pairs;
    var e := Dep(f.ty, k, true, f.origs);
    assert f in DirectPart(inv)[k] && e in DirectPart(deps)[f.dest];
    ListedForth(deps, f.dest, e);
  }

  lemma FirmGraph(deps: Lists, inv: Lists, plan: Plan)
    requires deps.Keys == inv.Keys && Mirror(DirectPart(deps), DirectPart(inv), {})
    requires plan.listed == Pairs(deps) && plan.firm == Firm(deps)
    ensures Firmly(plan, DirectPart(deps), DirectPart(inv), {})
  {
    hide DirectOnly, MirrorForth, MirrorBack, Pairs, Has, LeadsTo;
    var dd, vv := DirectPart(deps), DirectPart(inv);
    FirmForth(deps, plan);
    forall b, t, i | (b, t, i) in plan.firm && i in vv ensures Has(vv[i], t, b) {
      FirmBack(deps, inv, b, t, i);
    }
    forall i, e: Dep | i in dd && e in dd[i] ensures (i, e.dest) in plan.listed {
      ListedForth(deps, i, e);
    }
    forall k, f: Dep | k in vv && f in vv[k] ensures (f.dest, k) in plan.listed {
      ListedBack(deps, inv, k, f);
    }
  }

  /** The ordinary chain: i imports every removable module it lists, and whoever may take i with it
      imports i and lists none of those itself.  Then i takes nothing with it, whatever the order of
      its list. */
  lemma ChainIsHeld(deps: Lists, plan: Plan, i: Mod)
    requires plan.listed == Pairs(deps) && plan.firm == Firm(deps) && i !in plan.targets
    requires forall y :: y in plan.removable && (i, y) in plan.listed ==> Edge(DirectPart(deps), i, Import, y)
    requires forall b :: b in plan.leaving && (b, i) in plan.listed && b != i && !Edge(DirectPart(deps), i, Import, b) ==>
               Edge(DirectPart(deps), b, Import, i) && forall y :: y in plan.removable && (i, y) in plan.listed ==> (b, y) !in plan.listed
    ensures plan.HeldBack(i)
  {
    hide Pairs, DirectPart, Edge;
    forall y | y in plan.removable && (i, y) in plan.listed ensures plan.Held(i, y) {
      forall b | b in plan.leaving && (b, i) in plan.listed && b != i && !plan.Needs(i, b)
        ensures (b, Import, i) in plan.firm && (b, y) !in plan.listed
      {
        assert (i, Import, b) !in plan.firm;
      }
      assert plan.HeldBy(Import, i, y);
    }
  }

  lemma BridgedGraph(deps: Lists, inv: Lists, plan: Plan)
    requires Converse(deps, inv) && Closed(DirectPart(deps), deps) && NoSelfEdge(deps) && Converse(DirectPart(deps), DirectPart(inv))
    ensures Bridged(plan, deps, inv)
  {
    hide Edge, DirectPart, Walk;
    var direct := DirectPart(deps);
    forall k, b, t, y | Meets(direct, DirectPart(inv), k, b, t, y) ensures Edge(inv, y, t, b) {
      assert Edge(direct, b, t, k) && Edge(direct, k, t, y);
      ReachesDirectly(direct, t, b, k);
      ReachesDirectly(direct, t, k, y);
      ReachesTwice(direct, t, b, k, y);
      assert Edge(deps, b, t, y);
    }
  }

  lemma ReachesDirectly(g: Lists, t: DepType, i: Mod, j: Mod)
    requires Edge(g, i, t, j)
    ensures Reaches(g, t, i, j)
  {
    assert Walk(g, t, [i, j]);
  }

  /** Such a graph is sound for the removal of m. */
  lemma SoundFromGraph(deps: Lists, inv: Lists, removable: set<Mod>, pinned: set<Mod>, kept: set<Mod>, m: Mod,
                       submodules: set<Mod>, installed: set<Mod>)
    requires var plan := PlanFor(deps, removable, pinned, kept, m);
             Removable(deps, inv, plan, m) && Flags(deps.Keys, plan, submodules, installed) && Pinning(DirectPart(inv), plan, {m})
    ensures var plan := PlanFor(deps, removable, pinned, kept, m);
            Sound(deps, inv, plan, submodules, installed) && m in plan.targets
  {
    hide Edges, Mirror, Originated, NoSplit, Converse, Closed, NoSelfEdge, Unneeded, StillListed, OwnOrigins, StaleInverse, Paired;
    hide Bounded, Bridged, Foreseen, Firmly, Orderly, Pinned, DirectPart, DirectOnly, Flags, Triples, Extensions, Pairs;
    var plan := PlanFor(deps, removable, pinned, kept, m);
    GraphKeys(deps, inv, plan, m);
    NothingBusy(plan.removable, DirectPart(deps), DirectPart(inv));
    ClosedIsTransitive(DirectPart(deps), deps, plan);
    BoundedByTriples(deps, inv);
    OrderlyGraph(deps, inv, plan, m);
    assert plan.Valid();
    ForeseenGraph(deps, inv, plan);
    FirmGraph(deps, inv, plan);
    MirrorIsConverse(DirectPart(deps), DirectPart(inv));
    BridgedGraph(deps, inv, plan);
  }

  lemma GraphKeys(deps: Lists, inv: Lists, plan: Plan, m: Mod)
    requires Removable(deps, inv, plan, m)
    ensures deps.Keys == inv.Keys
  {
    hide Mirror, Originated, NoSplit, Converse, Closed, NoSelfEdge, Unneeded, DirectOnly;
  }

  lemma NothingBusy(removable: set<Mod>, dd: Lists, vv: Lists)
    ensures StillListed(dd, vv, {}) && OwnOrigins(vv, {}) && StaleInverse(vv, {}) && Paired(removable, dd, vv, {}, {})
  {
  }

  // ---------------------------------------------------------------- the failing shapes are outside

  lemma UsersDoNotPin(l: seq<Dep>, users: set<Mod>, kept: set<Mod>)
    requires Unneeded(l, users) && users !! kept
    ensures !Pinned(DirectOnly(l), kept)
  {
    hide DirectOnly;
  }

  /** What soundness says of the order of a list, of extensions and of pinned modules. */
  lemma SoundMeans(deps: Lists, inv: Lists, plan: Plan, submodules: set<Mod>, installed: set<Mod>)
    requires Sound(deps, inv, plan, submodules, installed)
    ensures deps.Keys == inv.Keys && plan.Valid() && Bounded(plan.reach, deps, inv)
    ensures Foreseen(plan, DirectPart(deps), DirectPart(inv), {})
    ensures forall i :: i in deps && i in plan.targets ==> NoSplit(plan, i, DirectOnly(deps[i]))
    ensures forall x :: x in inv && x in plan.pinned ==> Pinned(DirectOnly(inv[x]), plan.kept)
    ensures forall x :: x in deps && Flagged(submodules, installed, x) ==> x in plan.removable || x in plan.pinned
  {
    hide Mirror, Originated, Firmly, StillListed, OwnOrigins, StaleInverse, Paired, Bounded, DirectOnly, NoSplit, Pinned;
  }

  /** Whoever may be removed by its flags and is needed only by modules that may leave is not
      pinned. */
  lemma NotPinned(deps: Lists, inv: Lists, plan: Plan, submodules: set<Mod>, installed: set<Mod>, x: Mod, users: set<Mod>)
    requires Sound(deps, inv, plan, submodules, installed) && x in deps && x in inv && Flagged(submodules, installed, x)
    requires Unneeded(inv[x], users) && users <= plan.leaving
    ensures x in plan.removable && x in plan.leaving
  {
    hide Sound, Bounded, Foreseen, DirectOnly, NoSplit, Pinned, Unneeded, Flagged;
    SoundMeans(deps, inv, plan, submodules, installed);
    UsersDoNotPin(inv[x], users, plan.kept);
  }

  lemma {:induction false} SplitIsNoOrder(plan: Plan, m: Mod, before: seq<Dep>, toY: Dep, after: seq<Dep>, x: Mod)
    requires x in plan.removable && Contested(plan, m, x) && toY.dest in plan.removable && toY.dest != x
    requires LeadsTo(before, x) && LeadsTo(after, x)
    ensures !NoSplit(plan, m, before + [toY] + after)
  {
    hide Contested;
    var l := before + [toY] + after;
    assert l[1..] == before[1..] + [toY] + after;
    if before[0].dest == x {
      var f :| f in after && f.dest == x;
      var n :| 0 <= n < |after| && after[n] == f;
      var c, b := |before| - 1, |before| + n;
      assert l[1..][b] == f && l[1..][c] == toY;
      assert !OnlyBefore(plan.removable, l[1..], x);
    } else {
      SplitIsNoOrder(plan, m, before[1..], toY, after, x);
    }
  }

  /** No plan makes a graph of the first shape sound. */
  lemma CrossingIsUnsound(s: Crossing, deps: Lists, inv: Lists, plan: Plan, submodules: set<Mod>, installed: set<Mod>)
    requires s.Start(deps, inv, submodules, installed) && s.m in plan.targets
    ensures !Sound(deps, inv, plan, submodules, installed)
  {
    hide Sound, Bounded, Foreseen, DirectOnly, NoSplit, Pinned, Unneeded, Flagged, Healthy, Converse, Contested, LeadsTo;
    if Sound(deps, inv, plan, submodules, installed) {
      SoundMeans(deps, inv, plan, submodules, installed);
      NotPinned(deps, inv, plan, submodules, installed, s.y, {s.m});
      NotPinned(deps, inv, plan, submodules, installed, s.x, {s.m, s.y});
      ImportContests(s, deps, inv, plan, submodules, installed);
      SplitIsNoOrder(plan, s.m, s.before, s.toY, s.after, s.x);
    }
  }

  lemma ImportContests(s: Crossing, deps: Lists, inv: Lists, plan: Plan, submodules: set<Mod>, installed: set<Mod>)
    requires s.Start(deps, inv, submodules, installed) && Bounded(plan.reach, deps, inv)
    ensures Contested(plan, s.m, s.x)
  {
    hide DirectOnly, Healthy, Converse, Unneeded;
    var l := DirectOnly(deps[s.y]);
    assert l[|s.yBefore|] == s.toX && s.toX in l && s.toX in deps[s.y];
    assert Edge(deps, s.y, Import, s.x);
    assert (s.y, Import, s.x) in plan.reach;
  }

  /** No plan makes a graph of the second shape sound. */
  lemma ExtendingIsUnsound(s: Extending, deps: Lists, inv: Lists, plan: Plan, submodules: set<Mod>, installed: set<Mod>)
    requires s.Start(deps, inv, submodules, installed) && s.m in plan.targets
    ensures !Sound(deps, inv, plan, submodules, installed)
  {
    hide Sound, Bounded, Foreseen, DirectOnly, NoSplit, Pinned, Unneeded, Flagged, Healthy, Converse, Has;
    if Sound(deps, inv, plan, submodules, installed) {
      SoundMeans(deps, inv, plan, submodules, installed);
      NotPinned(deps, inv, plan, submodules, installed, s.a, {s.m});
      ExtendsBothWays(s, deps, inv, plan, submodules, installed);
    }
  }

  lemma ExtendsBothWays(s: Extending, deps: Lists, inv: Lists, plan: Plan, submodules: set<Mod>, installed: set<Mod>)
    requires s.Start(deps, inv, submodules, installed) && Foreseen(plan, DirectPart(deps), DirectPart(inv), {})
    ensures (s.a, s.m) in plan.extensions && (s.m, s.d) in plan.extensions
  {
    hide DirectOnly, Healthy, Converse, Unneeded;
    var f :| f in DirectOnly(inv[s.m]) && f.ty == Extension && f.dest == s.a;
    assert f in DirectPart(inv)[s.m];
    var e :| e in s.after && e.ty == Extension && e.dest == s.d;
    assert e in s.before + [s.toA] + s.after;
    assert e in DirectPart(deps)[s.m];
  }

  // ---------------------------------------------------------------- a closure in between

  /** Soundness for the list of a module that goes with another. */
  lemma SoundOrder(deps: Lists, inv: Lists, plan: Plan, submodules: set<Mod>, installed: set<Mod>, i: Mod)
    requires Sound(deps, inv, plan, submodules, installed) && i in deps && i in plan.leaving
    ensures plan.HeldBack(i) || NoSplit(plan, i, DirectOnly(deps[i]))
  {
    hide Edges, Mirror, Originated, Firmly, StillListed, OwnOrigins, StaleInverse, Paired, Bounded, Foreseen, DirectOnly, NoSplit;
    hide Pinned;
  }

  lemma SoundFirm(deps: Lists, inv: Lists, plan: Plan, submodules: set<Mod>, installed: set<Mod>)
    requires Sound(deps, inv, plan, submodules, installed)
    ensures Firmly(plan, DirectPart(deps), DirectPart(inv), {}) && MirrorForth(DirectPart(deps), DirectPart(inv), {})
    ensures deps.Keys == inv.Keys && plan.Valid() && Bridged(plan, deps, inv)
  {
    hide Originated, Firmly, StillListed, OwnOrigins, StaleInverse, Paired, Bounded, Foreseen, Bridged, DirectOnly, NoSplit, Pinned;
    SoundMeans(deps, inv, plan, submodules, installed);
  }

  lemma NotPinnedDirectly(deps: Lists, inv: Lists, plan: Plan, submodules: set<Mod>, installed: set<Mod>, x: Mod, users: set<Mod>)
    requires Sound(deps, inv, plan, submodules, installed) && x in deps && Flagged(submodules, installed, x)
    requires OnlyNeed(DirectPart(inv), x, users) && users <= plan.leaving
    ensures x in plan.removable && x in plan.leaving
  {
    hide Sound, Bounded, Foreseen, DirectOnly, NoSplit, Flagged;
    SoundMeans(deps, inv, plan, submodules, installed);
    PinIsNeed(DirectPart(inv), x, users, plan.kept);
  }

  lemma PinIsNeed(vv: Lists, x: Mod, users: set<Mod>, kept: set<Mod>)
    requires x in vv && OnlyNeed(vv, x, users)
    ensures Pinned(vv[x], kept) ==> exists b :: b in users && b in kept
  {
    if Pinned(vv[x], kept) {
      var f :| f in vv[x] && f.dest in kept && (f.ty.Import? || f.ty.Include?);
      assert Edge(vv, x, f.ty, f.dest);
    }
  }

  lemma NeedIsListed(plan: Plan, dd: Lists, vv: Lists, p: Mod, u: Mod)
    requires Firmly(plan, dd, vv, {}) && p in dd && u in dd
    ensures plan.Needs(p, u) ==> LeadsTo(dd[p], u)
  {
    if plan.Needs(p, u) {
      var w :| (p, w, u) in plan.firm;
      assert Has(dd[p], w, u);
    }
  }

  /** Whoever holds y would need it. */
  lemma HolderNeeds(plan: Plan, deps: Lists, inv: Lists, u: Mod, p: Mod, y: Mod) returns (t: DepType)
    requires Firmly(plan, DirectPart(deps), DirectPart(inv), {}) && MirrorForth(DirectPart(deps), DirectPart(inv), {})
    requires Bridged(plan, deps, inv) && plan.Valid() && plan.Held(p, y) && u in plan.leaving && (u, p) in plan.listed
    requires p in deps && y in deps && u in deps && y in inv && u != p && u != y && !LeadsTo(DirectOnly(deps[p]), u)
    ensures t != Extension && Edge(inv, y, t, u)
  {
    hide DirectOnly, MirrorForth;
    var dd, vv := DirectPart(deps), DirectPart(inv);
    t :| plan.HeldBy(t, p, y);
    NeedIsListed(plan, dd, vv, p, u);
    assert Edge(dd, p, t, y) && Edge(dd, u, t, p);
    MirroredAt(dd, vv, u, t, p);
    assert Meets(dd, vv, p, u, t, y);
  }

  /** y is p's, p is u's, and p does not lead back. */
  lemma ListedInTurn(s: Forgetting, deps: Lists, inv: Lists, plan: Plan, submodules: set<Mod>, installed: set<Mod>)
    requires s.Start(deps, inv, submodules, installed) && Firmly(plan, DirectPart(deps), DirectPart(inv), {})
    ensures (s.p, s.y) in plan.listed && (s.u, s.p) in plan.listed && !LeadsTo(DirectOnly(deps[s.p]), s.u)
  {
    hide DirectOnly, Healthy, Unneeded, Flagged, SourcesOf, Waiting, OnlyList, ListsNothing, OnlyNeed, Edge, Has;
    var dd := DirectPart(deps);
    var l := s.before + [s.toY] + s.Later();
    assert l[|s.before|] == s.toY && s.toY in dd[s.p];
    var k := s.uBefore + [s.toP] + s.uAfter;
    assert k[|s.uBefore|] == s.toP && s.toP in dd[s.u];
  }

  lemma NotHeld(s: Forgetting, deps: Lists, inv: Lists, plan: Plan, submodules: set<Mod>, installed: set<Mod>)
    requires s.Start(deps, inv, submodules, installed) && Sound(deps, inv, plan, submodules, installed) && s.u in plan.targets
    ensures !plan.Held(s.p, s.y) && (s.p, s.y) in plan.listed
  {
    hide Sound, DirectOnly, DirectPart, Healthy, Unneeded, Flagged, SourcesOf, Waiting, OnlyList, ListsNothing, Firmly;
    hide MirrorForth, Bridged, LeadsTo, Edge;
    SoundFirm(deps, inv, plan, submodules, installed);
    ListedInTurn(s, deps, inv, plan, submodules, installed);
    if plan.Held(s.p, s.y) {
      var t := HolderNeeds(plan, deps, inv, s.u, s.p, s.y);
    }
  }

  lemma MirroredAt(dd: Lists, vv: Lists, i: Mod, t: DepType, j: Mod)
    requires MirrorForth(dd, vv, {}) && Edge(dd, i, t, j)
    ensures Edge(vv, j, t, i)
  {
    var e: Dep :| e in dd[i] && e.ty == t && e.dest == j;
    assert Dep(e.ty, i, true, e.origs) in vv[j];
  }

  /** No plan makes a graph of the third shape sound. */
  lemma ForgettingIsUnsound(s: Forgetting, deps: Lists, inv: Lists, plan: Plan, submodules: set<Mod>, installed: set<Mod>)
    requires s.Start(deps, inv, submodules, installed) && s.u in plan.targets
    ensures !Sound(deps, inv, plan, submodules, installed)
  {
    hide Sound, Bounded, Foreseen, DirectOnly, NoSplit, Pinned, Flagged, Healthy, Contested, LeadsTo, Unneeded, SourcesOf, OnlyNeed;
    hide OnlyList, ListsNothing, Waiting, Has;
    if Sound(deps, inv, plan, submodules, installed) {
      SoundMeans(deps, inv, plan, submodules, installed);
      OnlyNeedDirectly(inv, s.p, {s.u});
      OnlyNeedDirectly(inv, s.y, {s.p});
      NotPinnedDirectly(deps, inv, plan, submodules, installed, s.p, {s.u});
      NotPinnedDirectly(deps, inv, plan, submodules, installed, s.y, {s.p});
      NotPinnedDirectly(deps, inv, plan, submodules, installed, s.x, {s.p});
      WaitingContests(deps, inv, plan, s.u, s.p, s.x);
      NotHeld(s, deps, inv, plan, submodules, installed);
      SoundOrder(deps, inv, plan, submodules, installed, s.p);
      NamesLater(s);
      SplitIsNoOrder(plan, s.p, s.before, s.toY, s.Later(), s.x);
    }
  }

  lemma OnlyNeedDirectly(inv: Lists, k: Mod, users: set<Mod>)
    requires OnlyNeed(inv, k, users)
    ensures OnlyNeed(DirectPart(inv), k, users)
  {
    hide Edge, DirectPart;
    FewerDirect(inv);
  }

  lemma WaitingContests(deps: Lists, inv: Lists, plan: Plan, u: Mod, p: Mod, x: Mod)
    requires Bounded(plan.reach, deps, inv) && x in inv && Waiting(inv[x], u) && u != p
    ensures Contested(plan, p, x)
  {
    var f :| f in inv[x] && f.dest == u && !f.ty.Extension? && !f.direct;
    assert Edge(inv, x, f.ty, u);
    assert (u, f.ty, x) in plan.reach;
  }

  lemma NamesLater(s: Forgetting)
    requires s.Entries()
    ensures LeadsTo(s.Later(), s.x)
  {
    assert s.Later()[|s.between|] == s.toX;
  }
}
