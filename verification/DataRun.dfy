/** Why a data dependency does not hold a module: it is forgotten with the module that introduced it
    (src/module_dependencies.c:2574-2633), and the next closure forgets what followed from it. */
module DataRun {
  import opened DepGraph
  import opened Reachability
  import opened RemovalSpec
  import opened RemovalInvariant
  import opened RemovalSteps
  import opened ModuleGraph
  import opened RemovalRuns
  import opened ClosureRun

  const Q := Mod(5)

  function Refers(m: Mod, orig: Mod): Dep {
    Dep(Data, m, true, [orig])
  }

  function Implied(t: DepType, m: Mod): Dep {
    Dep(t, m, false, [])
  }

  /** U imports Q and P and refers to data of P; P imports X and refers to data of Y and of X.  So U has
      a data dependency, computed, on all that P has one on. */
  function DataForward(): Lists {
    map[U := [Importing(Q), Importing(P), Refers(P, U), Implied(Import, X), Implied(Data, Y), Implied(Data, X)],
        P := [Importing(X), Refers(Y, P), Refers(X, P)], Q := [], X := [], Y := []]
  }

  function DataInverse(): Lists {
    map[U := [], P := [Importing(U), Refers(U, U)], Q := [Importing(U)],
        X := [Importing(P), Refers(P, P), Implied(Import, U), Implied(Data, U)], Y := [Refers(P, P), Implied(Data, U)]]
  }

  lemma DataLists()
    ensures DataForward().Keys == {U, P, Q, X, Y} == DataInverse().Keys
    ensures var d := DataForward();
            && d[U] == [Importing(Q), Importing(P), Refers(P, U), Implied(Import, X), Implied(Data, Y), Implied(Data, X)]
            && d[P] == [Importing(X), Refers(Y, P), Refers(X, P)] && d[Q] == [] && d[X] == [] && d[Y] == []
    ensures var v := DataInverse();
            && v[U] == [] && v[P] == [Importing(U), Refers(U, U)] && v[Q] == [Importing(U)]
            && v[X] == [Importing(P), Refers(P, P), Implied(Import, U), Implied(Data, U)] && v[Y] == [Refers(P, P), Implied(Data, U)]
  {
  }

  /** The direct edges. */
  ghost predicate DataEdge(i: Mod, t: DepType, j: Mod) {
    (i == U && ((t == Import && (j == Q || j == P)) || (t == Data && j == P)))
    || (i == P && ((t == Import && j == X) || (t == Data && (j == X || j == Y))))
  }

  /** Those that follow. */
  ghost predicate DataFollows(i: Mod, t: DepType, j: Mod) {
    i == U && ((t == Import && j == X) || (t == Data && (j == X || j == Y)))
  }

  lemma HasConcat(a: seq<Dep>, b: seq<Dep>, t: DepType, j: Mod)
    ensures Has(a + b, t, j) <==> Has(a, t, j) || Has(b, t, j)
  {
    if Has(a, t, j) || Has(b, t, j) {
      var e :| e in a + b && e.ty == t && e.dest == j;
    }
  }

  lemma UserEdges(t: DepType, j: Mod)
    ensures Edge(DataForward(), U, t, j) <==> DataEdge(U, t, j) || DataFollows(U, t, j)
  {
    DataLists();
    hide DataForward, DataInverse, Has;
    var a, b := [Importing(Q), Importing(P), Refers(P, U)], [Implied(Import, X), Implied(Data, Y), Implied(Data, X)];
    assert DataForward()[U] == a + b;
    HasConcat(a, b, t, j);
    HasOfThree(Importing(Q), Importing(P), Refers(P, U), t, j);
    HasOfThree(Implied(Import, X), Implied(Data, Y), Implied(Data, X), t, j);
  }

  lemma DataForwardEdges(i: Mod, t: DepType, j: Mod)
    ensures Edge(DataForward(), i, t, j) <==> DataEdge(i, t, j) || DataFollows(i, t, j)
  {
    DataLists();
    UserEdges(t, j);
    HasOfThree(Importing(X), Refers(Y, P), Refers(X, P), t, j);
    HasOfTwo(Importing(P), Importing(P), t, j);
    hide DataForward, DataInverse, Has;
    var d := DataForward();
    assert Has(d[P], t, j) <==> DataEdge(P, t, j);
    if i in d && i != U && i != P {
      assert d[i] == [];
    }
  }

  lemma DataInverseLists(t: DepType, i: Mod)
    ensures var v := DataInverse();
            && v.Keys == {U, P, Q, X, Y} && !Has(v[U], t, i)
            && (Has(v[P], t, i) <==> DataEdge(i, t, P)) && (Has(v[Q], t, i) <==> DataEdge(i, t, Q))
            && (Has(v[X], t, i) <==> DataEdge(i, t, X) || DataFollows(i, t, X))
            && (Has(v[Y], t, i) <==> DataEdge(i, t, Y) || DataFollows(i, t, Y))
  {
    DataLists();
    hide DataForward, DataInverse, Has;
    var v := DataInverse();
    HasOfTwo(Importing(U), Refers(U, U), t, i);
    HasOfTwo(Importing(P), Refers(P, P), t, i);
    HasOfTwo(Implied(Import, U), Implied(Data, U), t, i);
    assert v[X] == [Importing(P), Refers(P, P)] + [Implied(Import, U), Implied(Data, U)];
    HasConcat([Importing(P), Refers(P, P)], [Implied(Import, U), Implied(Data, U)], t, i);
    HasOfTwo(Refers(P, P), Implied(Data, U), t, i);
  }

  lemma DataInverseEdges(i: Mod, t: DepType, j: Mod)
    ensures Edge(DataInverse(), j, t, i) <==> DataEdge(i, t, j) || DataFollows(i, t, j)
  {
    DataInverseLists(t, i);
    hide DataInverse, Has;
  }

  /** The lists are what a closure leaves: all that is reached is listed, on both sides. */
  lemma DataClosed()
    ensures Closed(DirectPart(DataForward()), DataForward()) && Converse(DataForward(), DataInverse())
  {
    hide DataForward, DataInverse, DirectPart, Edge, DataEdge, DataFollows;
    var d, direct := DataForward(), DirectPart(DataForward());
    forall i, t, j ensures Edge(d, i, t, j) <==> Edge(DataInverse(), j, t, i) {
      DataForwardEdges(i, t, j);
      DataInverseEdges(i, t, j);
    }
    forall i, t, j | i != j ensures Edge(d, i, t, j) <==> Reaches(direct, t, i, j) {
      if Edge(d, i, t, j) {
        DataReaches(i, t, j);
      }
      if Reaches(direct, t, i, j) {
        var p :| Walk(direct, t, p) && p[0] == i && p[|p| - 1] == j;
        DataWalks(t, p);
      }
    }
  }

  lemma DataDirect()
    ensures var d := DataForward();
            && d.Keys == {U, P, Q, X, Y} && DirectOnly(d[U]) == [Importing(Q), Importing(P), Refers(P, U)]
            && DirectOnly(d[P]) == [Importing(X), Refers(Y, P), Refers(X, P)] && DirectOnly(d[Q]) == [] && DirectOnly(d[X]) == [] && DirectOnly(d[Y]) == []
  {
    DataLists();
    hide DataForward, DataInverse, DirectOnly;
    var d := DataForward();
    var a, b := [Importing(Q), Importing(P), Refers(P, U)], [Implied(Import, X), Implied(Data, Y), Implied(Data, X)];
    assert d[U] == a + b;
    DirectOnlyConcat(a, b);
    DirectOnlyIdentity(a);
    DirectOnlyNothing(b);
    DirectOnlyIdentity(d[P]);
    DirectOnlyIdentity([]);
  }

  lemma UserDirectly(t: DepType, j: Mod)
    ensures U in DataForward() && (Has(DirectOnly(DataForward()[U]), t, j) <==> DataEdge(U, t, j))
    ensures P in DataForward() && (Has(DirectOnly(DataForward()[P]), t, j) <==> DataEdge(P, t, j))
  {
    DataDirect();
    hide DataForward, DirectOnly, Has;
    HasOfThree(Importing(Q), Importing(P), Refers(P, U), t, j);
    HasOfThree(Importing(X), Refers(Y, P), Refers(X, P), t, j);
  }

  lemma OthersDirectly(i: Mod)
    requires i in DataForward() && i != U && i != P
    ensures DirectOnly(DataForward()[i]) == []
  {
    DataDirect();
    hide DataForward, DirectOnly;
  }

  lemma DataDirectEdges(i: Mod, t: DepType, j: Mod)
    ensures Edge(DirectPart(DataForward()), i, t, j) <==> DataEdge(i, t, j)
  {
    UserDirectly(t, j);
    hide DataForward, DirectOnly;
    if i in DataForward() && i != U && i != P {
      OthersDirectly(i);
    }
  }

  lemma DataReaches(i: Mod, t: DepType, j: Mod)
    requires Edge(DataForward(), i, t, j)
    ensures Reaches(DirectPart(DataForward()), t, i, j)
  {
    hide DataForward, DirectPart, Edge;
    var direct := DirectPart(DataForward());
    DataForwardEdges(i, t, j);
    DataDirectEdges(i, t, j);
    DataDirectEdges(U, t, P);
    DataDirectEdges(P, t, j);
    if DataEdge(i, t, j) {
      assert Walk(direct, t, [i, j]);
    } else {
      assert Walk(direct, t, [U, P, j]);
    }
  }

  lemma DataWalks(t: DepType, p: seq<Mod>)
    requires Walk(DirectPart(DataForward()), t, p)
    ensures Edge(DataForward(), p[0], t, p[|p| - 1])
  {
    hide DataForward, DirectPart, Edge;
    assert Edge(DirectPart(DataForward()), p[0], t, p[0 + 1]);
    DataDirectEdges(p[0], t, p[1]);
    DataForwardEdges(p[0], t, p[|p| - 1]);
    if 2 < |p| {
      assert Edge(DirectPart(DataForward()), p[1], t, p[1 + 1]);
      DataDirectEdges(p[1], t, p[2]);
      if 3 < |p| {
        assert Edge(DirectPart(DataForward()), p[2], t, p[2 + 1]);
        DataDirectEdges(p[2], t, p[3]);
      }
    }
  }

  /** P has a data edge to all it lists, and the one module that lists P has one to P and does not list
      them itself. */
  lemma DataWouldHold(y: Mod, b: Mod, t: DepType)
    requires y == X || y == Y
    ensures var dd := DirectPart(DataForward());
            Edge(dd, P, Data, y) && (Edge(dd, b, t, P) ==> Edge(dd, b, Data, P) && forall w :: !Edge(dd, b, w, y))
  {
    hide DataForward, DirectPart, Edge;
    DataDirectEdges(P, Data, y);
    DataDirectEdges(b, t, P);
    DataDirectEdges(b, Data, P);
    forall w ensures Edge(DirectPart(DataForward()), b, w, y) <==> DataEdge(b, w, y) {
      DataDirectEdges(b, w, y);
    }
  }

  // ---------------------------------------------------------------- u and q are detached

  /** P forgets the data edge that U introduced. */
  function InverseLeft(): Lists {
    DataInverse()[P := [Importing(U)]]
  }

  /** U loses its entry for Q. */
  function ForwardLeft(): Lists {
    DataForward()[U := [Importing(P), Refers(P, U), Implied(Import, X), Implied(Data, Y), Implied(Data, X)]]
  }

  lemma DropOne()
    ensures DropOrig([Importing(U), Refers(U, U)], U) == [Importing(U)]
    ensures DropOrig([Importing(U)], U) == [Importing(U)] && DropOrig([], U) == []
  {
    var a, b := [Importing(U)], [Refers(U, U)];
    assert [Importing(U), Refers(U, U)] == a + b;
    DropOrigConcat(a, b, U);
    DropOrigNothing(a, U);
    assert RemoveFirst([U], U) == [];
    assert DropOrig(b, U) == [];
  }

  /** What detaching a module that nobody lists does to one list. */
  lemma DetachedAt(d: Lists, v: Lists, m: Mod, cut: Lists, deps: Lists, inv: Lists, i: Mod)
    requires Detached(d, v, m, cut, deps, inv) && v[m] == [] && i in d && i in v
    ensures i in deps && i in inv
    ensures Has(DirectOnly(d[m]), Import, i) ==> deps[i] == DropOrig(d[i], m) && inv[i] == DropOrig(v[i], m)
    ensures !Has(DirectOnly(d[m]), Import, i) ==> deps[i] == d[i] && inv[i] == v[i]
  {
    hide DropOrig, RemoveTo, Has;
  }

  /** Of the lists of what U imports only one changes. */
  lemma DataDropped()
    ensures DataForward().Keys == {U, P, Q, X, Y} == DataInverse().Keys && DataInverse()[U] == []
    ensures var d := DataForward(); DropOrig(d[P], U) == d[P] && DropOrig(d[Q], U) == d[Q]
    ensures var v := DataInverse(); DropOrig(v[P], U) == [Importing(U)] && DropOrig(v[Q], U) == v[Q]
  {
    DataLists();
    DropOne();
    hide DataForward, DataInverse, DropOrig;
    DropOrigNothing(DataForward()[P], U);
  }

  lemma DataDroppedAt(i: Mod)
    requires i in DataForward()
    ensures U in DataForward() && U in DataInverse() && DataInverse()[U] == [] && i in InverseLeft() && i in DataInverse()
    ensures if Has(DirectOnly(DataForward()[U]), Import, i)
            then DropOrig(DataForward()[i], U) == DataForward()[i] && DropOrig(DataInverse()[i], U) == InverseLeft()[i]
            else DataInverse()[i] == InverseLeft()[i]
  {
    DataDropped();
    UserDirectly(Import, i);
    hide DataForward, DataInverse, DirectOnly, Has, DropOrig;
  }

  lemma DetachedU(cut: Lists, deps: Lists, inv: Lists)
    requires Detached(DataForward(), DataInverse(), U, cut, deps, inv)
    ensures deps == DataForward() && inv == InverseLeft()
  {
    SameData();
    var d, v := DataForward(), DataInverse();
    hide DataForward, DataInverse, InverseLeft, DropOrig;
    assert deps.Keys == d.Keys && inv.Keys == v.Keys;
    hide Detached, DirectOnly, Has;
    forall i | i in d ensures deps[i] == d[i] && inv[i] == InverseLeft()[i] {
      DataDroppedAt(i);
      DetachedAt(d, v, U, cut, deps, inv, i);
    }
  }

  lemma SameData()
    ensures DataForward().Keys == DataInverse().Keys == InverseLeft().Keys == ForwardLeft().Keys
    ensures forall i :: i in DataForward() && i != U ==> ForwardLeft()[i] == DataForward()[i]
  {
    DataDropped();
    hide DataForward, DataInverse, DropOrig;
  }

  /** What detaching a module that lists nothing does to one list. */
  lemma DetachedBelow(d: Lists, v: Lists, m: Mod, cut: Lists, deps: Lists, inv: Lists, i: Mod)
    requires Detached(d, v, m, cut, deps, inv) && d[m] == [] && i in d && i in v
    ensures i in deps && i in inv && inv[i] == v[i]
    ensures deps[i] == if LeadsTo(DirectOnly(v[m]), i) then RemoveTo(d[i], m) else d[i]
  {
    hide DropOrig, LeadsTo;
  }

  lemma RemoveHead(e: Dep, r: seq<Dep>, q: Mod)
    requires e.dest == q && forall x :: x in r ==> x.dest != q
    ensures RemoveTo([e] + r, q) == r
  {
    hide RemoveTo;
    var l := [e] + r;
    RemoveToWithout(l, 0, q);
    assert l[..0] + l[1..] == r;
    RemoveToNothing(r, q);
  }

  lemma WithoutQ()
    ensures U in DataForward() && RemoveTo(DataForward()[U], Q) == ForwardLeft()[U]
  {
    var r := ForwardLeft()[U];
    assert DataForward()[U] == [Importing(Q)] + r;
    hide DataForward, RemoveTo;
    RemoveHead(Importing(Q), r, Q);
  }

  /** Only U lists Q, which lists nothing. */
  lemma OfQ()
    ensures Q in DataForward() && DataForward()[Q] == []
    ensures Q in InverseLeft() && InverseLeft()[Q] == [Importing(U)]
    ensures forall i :: LeadsTo(DirectOnly(InverseLeft()[Q]), i) <==> i == U
  {
    DataLists();
    hide DataForward, DataInverse;
    DirectOnlyIdentity([Importing(U)]);
    assert InverseLeft()[Q][0] == Importing(U);
  }

  lemma DetachedQ(cut: Lists, deps: Lists, inv: Lists)
    requires Detached(DataForward(), InverseLeft(), Q, cut, deps, inv)
    ensures deps == ForwardLeft() && inv == InverseLeft()
  {
    SameData();
    OfQ();
    WithoutQ();
    var d, v := DataForward(), InverseLeft();
    hide DataForward, DataInverse, InverseLeft, ForwardLeft, RemoveTo;
    assert deps.Keys == d.Keys && inv.Keys == v.Keys;
    hide Detached, DirectOnly, LeadsTo;
    forall i | i in d ensures deps[i] == ForwardLeft()[i] && inv[i] == v[i] {
      DetachedBelow(d, v, Q, cut, deps, inv, i);
    }
  }

  // ---------------------------------------------------------------- q is gone, and the closure runs

  ghost predicate LeftEdge(i: Mod, t: DepType, j: Mod) {
    DataEdge(i, t, j) && j != Q
  }

  lemma LeftForward()
    ensures U in ForwardLeft() && DirectOnly(ForwardLeft()[U]) == [Importing(P), Refers(P, U)]
  {
    var a, b := [Importing(P), Refers(P, U)], [Implied(Import, X), Implied(Data, Y), Implied(Data, X)];
    assert ForwardLeft()[U] == a + b;
    hide ForwardLeft;
    DirectAndImplied(a, b);
  }

  lemma LeftInverse()
    ensures var v := InverseLeft();
            && v.Keys == {U, P, Q, X, Y} && v[U] == [] && DirectOnly(v[P]) == [Importing(U)]
            && DirectOnly(v[X]) == [Importing(P), Refers(P, P)] && DirectOnly(v[Y]) == [Refers(P, P)]
  {
    DataLists();
    var v := InverseLeft();
    hide DataForward, DataInverse, DirectOnly;
    assert v[X] == [Importing(P), Refers(P, P)] + [Implied(Import, U), Implied(Data, U)] && v[Y] == [Refers(P, P)] + [Implied(Data, U)];
    DirectAndImplied([Importing(P), Refers(P, P)], [Implied(Import, U), Implied(Data, U)]);
    DirectAndImplied([Refers(P, P)], [Implied(Data, U)]);
    DirectOnlyIdentity([Importing(U)]);
  }

  lemma LeftForwardEdges(i: Mod, t: DepType, j: Mod)
    ensures Edge(DirectPart(ForwardLeft() - {Q}), i, t, j) <==> LeftEdge(i, t, j)
  {
    SameData();
    LeftForward();
    HasOfTwo(Importing(P), Refers(P, U), t, j);
    DataDirectEdges(i, t, j);
    hide DataForward, DataInverse, InverseLeft, ForwardLeft, DirectOnly, Has;
    OfQ();
  }

  lemma InverseOf(j: Mod, t: DepType, i: Mod)
    requires j in InverseLeft() && j != Q
    ensures Has(DirectOnly(InverseLeft()[j]), t, i) <==> LeftEdge(i, t, j) && !(i == U && t == Data)
  {
    LeftInverse();
    hide InverseLeft, DirectOnly, Has;
    HasOfTwo(Importing(U), Importing(U), t, i);
    HasOfTwo(Importing(P), Refers(P, P), t, i);
    HasOfTwo(Refers(P, P), Refers(P, P), t, i);
    DirectOnlyIdentity([]);
  }

  lemma LeftInverseEdges(i: Mod, t: DepType, j: Mod)
    ensures Edge(DirectPart(InverseLeft() - {Q}), j, t, i) <==> LeftEdge(i, t, j) && !(i == U && t == Data)
  {
    SameData();
    DataLists();
    hide DataForward, DataInverse, InverseLeft, ForwardLeft, DirectOnly, Has;
    if j in InverseLeft() && j != Q {
      InverseOf(j, t, i);
    }
  }

  ghost predicate MayReach(i: Mod, t: DepType, j: Mod) {
    LeftEdge(i, t, j) || DataFollows(i, t, j)
  }

  ghost function ReachLeft(): (r: set<(Mod, DepType, Mod)>)
    ensures forall i, t, j :: (i, t, j) in r <==> MayReach(i, t, j)
  {
    set i, t: DepType, j | i in {U, P} && j in {P, X, Y} && MayReach(i, t, j) :: (i, t, j)
  }

  ghost function LeftPlan(): Plan {
    Plan({}, {}, {}, {}, {}, {}, ReachLeft(), {}, {})
  }

  lemma LeftPlanFits()
    ensures LeftPlan().Transitive() && Bounded(ReachLeft(), DirectPart(ForwardLeft() - {Q}), DirectPart(InverseLeft() - {Q}))
    ensures Unnamed(DirectPart(InverseLeft() - {Q}), Data, U)
  {
    hide ForwardLeft, InverseLeft, DirectPart, Edge;
    var dd, vv := DirectPart(ForwardLeft() - {Q}), DirectPart(InverseLeft() - {Q});
    forall i, t, j ensures Edge(dd, i, t, j) <==> LeftEdge(i, t, j) {
      LeftForwardEdges(i, t, j);
    }
    forall i, t, j ensures Edge(vv, j, t, i) <==> LeftEdge(i, t, j) && !(i == U && t == Data) {
      LeftInverseEdges(i, t, j);
    }
  }

  function DataShape(): Forgetting {
    Forgetting(U, P, X, Y, [], Importing(P), [Refers(P, U)], [Importing(X)], Refers(Y, P), [], Refers(X, P), [])
  }

  lemma DataBinds(t: DepType)
    requires DataShape().Binds(t)
    ensures t == Data
  {
    assert DataShape().Later() == [Refers(X, P)];
  }

  /** What the closure leaves. */
  ghost predicate Recomputed(deps: Lists, inv: Lists) {
    && Safe(deps, inv, {}) && Bounded(ReachLeft(), deps, inv) && Bridged(LeftPlan(), deps, inv)
    && DirectPart(deps) == DirectPart(ForwardLeft() - {Q}) && DirectPart(inv) == DirectPart(InverseLeft() - {Q})
    && Unnamed(inv, Data, U)
  }

  lemma DataFixed(deps: Lists, inv: Lists)
    requires Recomputed(deps, inv)
    ensures DataShape().Fixed(deps, inv)
  {
    hide ForwardLeft, InverseLeft, DirectPart, Edge, Safe, Bridged, Has;
    forall i, t, j
      ensures Edge(DirectPart(deps), i, t, j) <==> LeftEdge(i, t, j)
      ensures Edge(DirectPart(inv), j, t, i) <==> LeftEdge(i, t, j) && !(i == U && t == Data)
    {
      LeftForwardEdges(i, t, j);
      LeftInverseEdges(i, t, j);
    }
    forall t | DataShape().Binds(t) ensures t == Data {
      DataBinds(t);
    }
  }

  /** U needs X again by what it imports. */
  lemma StillWaits(deps: Lists, inv: Lists)
    requires Recomputed(deps, inv)
    ensures X in inv && Waiting(inv[X], U)
  {
    hide ForwardLeft, InverseLeft, DirectOnly, Safe, Bounded, Unnamed;
    LeftForwardEdges(P, Import, X);
    LeftInverseEdges(U, Import, P);
    assert X in inv by { LeftKeys(); }
    assert Meets(DirectPart(deps), DirectPart(inv), P, U, Import, X);
    assert Edge(inv, X, Import, U);
    var f :| f in inv[X] && f.ty == Import && f.dest == U;
    LeftInverseEdges(U, Import, X);
    DirectEdgeOf(inv, X, f);
  }

  lemma DirectEdgeOf(g: Lists, i: Mod, e: Dep)
    requires i in g && e in g[i]
    ensures e.direct ==> Edge(DirectPart(g), i, e.ty, e.dest)
  {
    hide DirectOnly;
  }

  lemma LeftKeys()
    ensures (ForwardLeft() - {Q}).Keys == {U, P, X, Y} == (InverseLeft() - {Q}).Keys
  {
    LeftInverse();
    SameData();
    hide DataForward, DataInverse, ForwardLeft, InverseLeft;
  }

  /** The direct lists the run goes on with. */
  lemma LeftDirectly(deps: Lists, inv: Lists)
    requires Recomputed(deps, inv)
    ensures deps.Keys == {U, P, X, Y} == inv.Keys
    ensures DirectOnly(deps[U]) == [Importing(P), Refers(P, U)]
    ensures DirectOnly(deps[P]) == [Importing(X), Refers(Y, P), Refers(X, P)]
    ensures DirectOnly(inv[P]) == [Importing(U)] && DirectOnly(inv[Y]) == [Refers(P, P)]
  {
    LeftKeys();
    LeftForward();
    LeftInverse();
    SameData();
    DataDirect();
    hide DataForward, DataInverse, ForwardLeft, InverseLeft, DirectOnly, Safe, Bounded, Unnamed, Bridged;
    var d, v := ForwardLeft() - {Q}, InverseLeft() - {Q};
    assert DirectPart(deps)[U] == DirectPart(d)[U] && DirectPart(deps)[P] == DirectPart(d)[P];
    assert DirectPart(inv)[P] == DirectPart(v)[P] && DirectPart(inv)[Y] == DirectPart(v)[Y];
  }

  lemma FoundByOne(l: seq<Dep>, f: Dep)
    requires DirectOnly(l) == [f]
    ensures LeadsTo(DirectOnly(l), f.dest) && (!f.ty.Data? ==> Found(l, f.dest))
  {
    hide DirectOnly;
    assert DirectOnly(l)[0] == f;
  }

  lemma ListedByU(deps: Lists, inv: Lists)
    requires Recomputed(deps, inv)
    ensures P in inv && Found(inv[P], U) && Y in inv && LeadsTo(DirectOnly(inv[Y]), P)
  {
    LeftDirectly(deps, inv);
    hide Recomputed, DirectOnly, LeadsTo, Found;
    FoundByOne(inv[P], Importing(U));
    FoundByOne(inv[Y], Refers(P, P));
  }

  lemma DataSources(deps: Lists, inv: Lists)
    requires Recomputed(deps, inv)
    ensures FirmSources(deps, inv, P) && SourcesOf(deps, inv, Y)
  {
    ListedByU(deps, inv);
    hide Recomputed, DirectOnly, DirectPart, Edge, LeadsTo, Found;
    forall i, t | Edge(DirectPart(deps), i, t, P) ensures Found(inv[P], i) {
      Lister(deps, inv, i, t, P);
    }
    forall i, t | Edge(DirectPart(deps), i, t, Y) ensures LeadsTo(DirectOnly(inv[Y]), i) {
      Lister(deps, inv, i, t, Y);
    }
  }

  lemma Lister(deps: Lists, inv: Lists, i: Mod, t: DepType, j: Mod)
    requires Recomputed(deps, inv) && Edge(DirectPart(deps), i, t, j) && (j == P || j == Y)
    ensures i == if j == P then U else P
  {
    hide ForwardLeft, InverseLeft, DirectPart, Safe, Bounded, Unnamed, Bridged, Edge;
    LeftForwardEdges(i, t, j);
  }

  lemma DataEntries()
    ensures var s := DataShape();
            && [Importing(X), Refers(Y, P), Refers(X, P)] == s.before + [s.toY] + s.Later()
            && [Importing(P), Refers(P, U)] == s.uBefore + [s.toP] + s.uAfter && s.Entries()
    ensures !Has([Importing(X), Refers(Y, P), Refers(X, P)], Import, Y)
  {
    var s := DataShape();
    assert s.Later() == [Refers(X, P)];
    HasOfThree(Importing(X), Refers(Y, P), Refers(X, P), Import, Y);
    assert s.before[0].dest == X;
  }

  lemma DataAtP(deps: Lists, inv: Lists)
    requires Recomputed(deps, inv)
    ensures DataShape().AtP(deps, inv)
    ensures U in deps && var s := DataShape(); DirectOnly(deps[U]) == s.uBefore + [s.toP] + s.uAfter
  {
    StillWaits(deps, inv);
    LeftDirectly(deps, inv);
    DataSources(deps, inv);
    DataEntries();
    DataNames();
    hide Recomputed, DataShape, DirectOnly, DirectPart, Waiting, FirmSources, SourcesOf, Has;
  }

  lemma DataNames()
    ensures var s := DataShape(); s.u == U && s.p == P && s.x == X && s.y == Y
  {
  }

  lemma DataHealthy(deps: Lists, inv: Lists)
    requires Recomputed(deps, inv) && OrigsDistinct(ForwardLeft() - {Q}) && OrigsDistinct(InverseLeft() - {Q})
    ensures Healthy(deps, inv)
  {
    hide ForwardLeft, InverseLeft, DirectPart, Safe, Bounded, Unnamed, Bridged, OrigsDistinct, Healthy;
    OrigsStill(ForwardLeft() - {Q}, deps);
    OrigsStill(InverseLeft() - {Q}, inv);
    HealthyBounded(ReachLeft(), deps, inv);
  }

  lemma DataFlags()
    ensures DataShape().Apart() && DataShape().Flags({}, {U})
  {
  }

  // ---------------------------------------------------------------- the run

  lemma DataForwardAnswered(i: Mod, e: Dep)
    requires i in DataForward() && e in DataForward()[i]
    ensures e.dest in DataInverse() && e.dest != i && Has(DataInverse()[e.dest], e.ty, i) && (e.ty.Data? ==> Distinct(e.origs))
  {
    EntryEdge(DataForward(), i, e);
    DataForwardEdges(i, e.ty, e.dest);
    DataInverseEdges(i, e.ty, e.dest);
    DataOrigs(i, e);
    hide DataForward, DataInverse, Has, Distinct;
  }

  lemma DataInverseAnswered(k: Mod, f: Dep)
    requires k in DataInverse() && f in DataInverse()[k]
    ensures f.dest in DataForward() && f.dest != k && Has(DataForward()[f.dest], f.ty, k) && (f.ty.Data? ==> Distinct(f.origs))
  {
    EntryEdge(DataInverse(), k, f);
    DataForwardEdges(f.dest, f.ty, k);
    DataInverseEdges(f.dest, f.ty, k);
    DataOrigs(k, f);
    hide DataForward, DataInverse, Has, Distinct;
  }

  lemma DataOrigs(i: Mod, e: Dep)
    requires (i in DataForward() && e in DataForward()[i]) || (i in DataInverse() && e in DataInverse()[i])
    ensures Distinct(e.origs)
  {
    DataLists();
    assert |e.origs| <= 1 by {
      hide DataForward, DataInverse;
    }
  }

  lemma DataStarts()
    ensures Healthy(DataForward(), DataInverse())
  {
    SameData();
    hide DataForward, DataInverse, InverseLeft, ForwardLeft, Has, Distinct;
    var d, v := DataForward(), DataInverse();
    forall i, e: Dep | i in d && e in d[i]
      ensures e.dest in v && e.dest != i && Has(v[e.dest], e.ty, i) && (e.ty.Data? ==> Distinct(e.origs))
    {
      DataForwardAnswered(i, e);
    }
    forall k, f: Dep | k in v && f in v[k]
      ensures f.dest in d && f.dest != k && Has(d[f.dest], f.ty, k) && (f.ty.Data? ==> Distinct(f.origs))
    {
      DataInverseAnswered(k, f);
    }
    AnsweredIsHealthy(d, v);
  }

  lemma DataModules()
    ensures DataForward().Keys == DataInverse().Keys && Enumerates([U, P, Q, X, Y], DataForward().Keys)
  {
    DataLists();
    hide DataForward, DataInverse;
  }

  /** Nobody names Q once it is detached. */
  lemma QIsGone()
    ensures Q in ForwardLeft() && NobodyLists(ForwardLeft(), Q) && forall k, t :: !Edge(DirectPart(InverseLeft()), k, t, Q)
  {
    SameData();
    OfQ();
    hide DataForward, DataInverse, InverseLeft, ForwardLeft, DirectOnly;
    var d, v := ForwardLeft(), InverseLeft();
    forall i, t ensures !Edge(DirectPart(d), i, t, Q) {
      LeftForwardEdges(i, t, Q);
      WithoutKey(d, Q, i, t, Q);
    }
    forall k, t ensures !Edge(DirectPart(v), k, t, Q) {
      LeftInverseEdges(Q, t, k);
      WithoutKey(v, Q, k, t, Q);
    }
  }

  lemma WithoutKey(g: Lists, q: Mod, i: Mod, t: DepType, j: Mod)
    ensures Edge(DirectPart(g - {q}), i, t, j) <==> i != q && Edge(DirectPart(g), i, t, j)
  {
    hide DirectOnly;
  }

  /** The closure that ends the removal of Q. */
  method CloseWithoutQ(c: MdCtx)
    requires c.Shape() && c.deps == ForwardLeft() - {Q} && c.inv == InverseLeft() - {Q} && Healthy(ForwardLeft(), InverseLeft())
    modifies c`deps, c`inv
    ensures c.Shape() && Recomputed(c.deps, c.inv) && Healthy(c.deps, c.inv)
  {
    hide ForwardLeft, InverseLeft, DirectPart, Healthy, Safe, Bounded, Unnamed, Bridged, Grew, Converse, Closed, Edge;
    hide OrigsDistinct, Enumerates, NobodyLists;
    QIsGone();
    LiveDirect(ForwardLeft(), InverseLeft(), Q);
    HealthyIsSafe(DirectPart(c.deps), DirectPart(c.inv));
    LeftPlanFits();
    c.TransitiveClosure({}, LeftPlan());
    DataHealthy(c.deps, c.inv);
  }

  /** Q, the first dependency of U, goes. */
  method RemoveQ(c: MdCtx)
    requires c.Shape() && c.deps == DataForward() && c.inv == InverseLeft() && Healthy(c.deps, c.inv)
    requires c.submodules == {} && c.installed == {U}
    modifies c`modules, c`deps, c`inv
    ensures c.Shape() && Recomputed(c.deps, c.inv) && Healthy(c.deps, c.inv)
  {
    hide DataForward, DataInverse, ForwardLeft, InverseLeft, Detached, Healthy, Recomputed, DirectOnly, Enumerates, Needed;
    DataUsers();
    var usage := UsageCount(c.inv[Q], U);
    UsageIsNeed(c.inv[Q], U, usage);
    assert usage == 0 && Flagged(c.submodules, c.installed, Q);
    HealthyDetachable(c.deps, c.inv, Q);
    ghost var cut := c.Detach(Q);
    HealthyDetached(DataForward(), InverseLeft(), Q, cut, c.deps, c.inv);
    DetachedQ(cut, c.deps, c.inv);
    c.Delete(Q);
    CloseWithoutQ(c);
  }

  /** U, P, Q, X and Y, only U installed: U forgets its data edge to P as it is detached, the closure that
      ends the removal of Q forgets that U needs Y, and so X is deleted while P still names it. */
  method DataDangles() returns (c: MdCtx)
    ensures fresh(c) && c.Shape() && P in c.deps && X !in c.deps && LeadsTo(c.deps[P], X)
  {
    hide DataForward, DataInverse, InverseLeft, Detached, Healthy, Recomputed, DirectOnly, LeadsTo, Enumerates, DataShape;
    hide Unneeded, Needed;
    DataStarts();
    DataModules();
    DataUsers();
    c := new MdCtx([U, P, Q, X, Y], DataForward(), DataInverse(), {}, {U});
    var ok := OnlyExtensions(c.inv[U]);
    assert ok;
    HealthyDetachable(c.deps, c.inv, U);
    ghost var cut := c.Detach(U);
    HealthyDetached(DataForward(), DataInverse(), U, cut, c.deps, c.inv);
    DetachedU(cut, c.deps, c.inv);
    RemoveQ(c);
    DataAtShape(c.deps, c.inv);
    DataNames();
    RunToP(c, DataShape());
  }

  lemma DataAtShape(deps: Lists, inv: Lists)
    requires Recomputed(deps, inv)
    ensures var s := DataShape();
            && s.Fixed(deps, inv) && s.AtP(deps, inv) && s.Apart() && s.Entries() && s.Flags({}, {U})
            && s.u in deps && DirectOnly(deps[s.u]) == s.uBefore + [s.toP] + s.uAfter
  {
    DataFixed(deps, inv);
    DataAtP(deps, inv);
    DataEntries();
    DataFlags();
    DataNames();
    hide Recomputed, DataShape, DirectOnly, DirectPart, Waiting, FirmSources, SourcesOf, Has, OnlyNeed, OnlyList, ListsNothing;
    hide LeadsTo;
  }

  lemma DataUsers()
    ensures U in DataForward() && U in DataInverse() && Unneeded(DataInverse()[U], {})
    ensures Q in DataForward() && Q in InverseLeft() && !Needed(InverseLeft()[Q], U)
  {
    DataLists();
    hide DataForward, DataInverse;
    OfQ();
  }
}
