/** Why computed users do not always keep a module: a closure that runs in the middle of a removal
    forgets them (src/module_dependencies.c:2507-2851). */
module ClosureRun {
  import opened DepGraph
  import opened Reachability
  import opened RemovalSpec
  import opened RemovalInvariant
  import opened RemovalSteps
  import opened ModuleGraph
  import opened RemovalRuns

  /** Only modules of `users` have an edge to k that is not an extension. */
  ghost predicate OnlyNeed(inv: Lists, k: Mod, users: set<Mod>) {
    forall t, b :: t != Extension && Edge(inv, k, t, b) ==> b in users
  }

  ghost predicate OnlyList(deps: Lists, k: Mod, user: Mod) {
    forall t, i :: t != Extension && Edge(deps, i, t, k) ==> i == user
  }

  ghost predicate ListsNothing(deps: Lists, k: Mod) {
    forall t, j :: !Edge(deps, k, t, j)
  }

  /** A computed entry for u that is not an extension. */
  ghost predicate Waiting(l: seq<Dep>, u: Mod) {
    exists f :: f in l && f.dest == u && !f.ty.Extension? && !f.direct
  }

  /** Every module that lists y directly is found from its inverted list. */
  ghost predicate SourcesOf(deps: Lists, inv: Lists, y: Mod) {
    y in inv && forall i, t :: Edge(DirectPart(deps), i, t, y) ==> LeadsTo(DirectOnly(inv[y]), i)
  }

  /** Every module that lists p directly is found from its inverted list, by an entry that does not go
      with its originators. */
  ghost predicate FirmSources(deps: Lists, inv: Lists, p: Mod) {
    p in inv && forall i, t :: Edge(DirectPart(deps), i, t, p) ==> Found(inv[p], i)
  }

  ghost predicate Found(l: seq<Dep>, i: Mod) {
    exists f :: f in l && f.direct && !f.ty.Data? && f.dest == i
  }

  ghost predicate NobodyLists(deps: Lists, y: Mod) {
    forall i, t :: !Edge(DirectPart(deps), i, t, y)
  }

  /** The target u lists p, and p lists x, then y, then x again.  Only u needs p, only p needs y; x is
      needed by p and, through p, by u, but u and p are not bound by a type by which p names x after
      y.  So once the closure that ends the removal of y forgets u's computed edge, nothing restores
      it.  x and y list nothing; what u lists before p, and p between the entries, stays. */
  datatype Forgetting = Forgetting(u: Mod, p: Mod, x: Mod, y: Mod, uBefore: seq<Dep>, toP: Dep, uAfter: seq<Dep>,
                                   before: seq<Dep>, toY: Dep, between: seq<Dep>, toX: Dep, rest: seq<Dep>) {
    ghost function Later(): seq<Dep> {
      between + [toX] + rest
    }

    /** A type by which p names x after y. */
    ghost predicate Binds(t: DepType) {
      t != Extension && Has(Later(), t, x)
    }

    ghost predicate Apart() {
      u != p && u != x && u != y && p != x && p != y && x != y
    }

    ghost predicate Flags(submodules: set<Mod>, installed: set<Mod>) {
      && Flagged(submodules, installed, p) && Flagged(submodules, installed, x) && Flagged(submodules, installed, y)
      && y !in submodules
      && (forall e :: e in uBefore ==> !Flagged(submodules, installed, e.dest))
      && (forall e :: e in before ==> e.dest == x || !Flagged(submodules, installed, e.dest))
      && (forall e :: e in between ==> !Flagged(submodules, installed, e.dest))
    }

    /** Who needs and lists whom, as far as it only gets less. */
    ghost predicate Fixed(deps: Lists, inv: Lists) {
      && OnlyNeed(inv, p, {u}) && OnlyNeed(inv, y, {p}) && OnlyNeed(DirectPart(inv), x, {p})
      && OnlyList(DirectPart(deps), x, p) && OnlyList(DirectPart(deps), y, p)
      && (forall i, t :: Binds(t) ==> !Edge(DirectPart(inv), p, t, i))
      && (forall k, t :: !Edge(DirectPart(inv), k, t, y))
      && ListsNothing(DirectPart(deps), y) && ListsNothing(DirectPart(deps), x)
    }

    ghost predicate Entries() {
      toP.dest == p && toY.dest == y && toX.dest == x && LeadsTo(before, x)
    }

    ghost predicate Start(deps: Lists, inv: Lists, submodules: set<Mod>, installed: set<Mod>) {
      && Healthy(deps, inv) && u in deps && Apart() && Flags(submodules, installed) && Fixed(deps, inv) && Entries()
      && Unneeded(inv[u], {}) && DirectOnly(deps[u]) == uBefore + [toP] + uAfter
      && AtP(deps, inv)
      && (forall e :: e in DirectOnly(deps[p]) ==> e.dest != u && (e.ty.Data? ==> e.origs != [] && u !in e.origs))
    }

    /** u has come to p. */
    ghost predicate AtP(deps: Lists, inv: Lists) {
      && p in deps && x in deps && y in deps && p in inv && x in inv && y in inv
      && DirectOnly(deps[p]) == before + [toY] + Later() && !Has(DirectOnly(deps[p]), Import, y)
      && FirmSources(deps, inv, p) && SourcesOf(deps, inv, y) && Waiting(inv[x], u)
    }

    /** p has come to y, and x does not lead back to p. */
    ghost predicate AtY(deps: Lists, inv: Lists) {
      && p in deps && x in deps && y in deps && p in inv && x in inv && y in inv
      && DirectOnly(deps[p]) == [toY] + Later() && SourcesOf(deps, inv, y) && !LeadsTo(inv[x], p)
      && NobodyLists(deps, p)
    }

    /** y is gone and the closure has run: only p needs x, which does not lead back to p. */
    ghost predicate AtX(deps: Lists, inv: Lists) {
      && p in deps && x in deps && p in inv && x in inv
      && DirectOnly(deps[p]) == between + ([toX] + RemoveTo(rest, y))
      && OnlyNeed(inv, x, {p}) && !LeadsTo(DirectOnly(inv[x]), p) && DirectOnly(deps[x]) == []
    }
  }

  lemma FixedShrunk(s: Forgetting, d: Lists, v: Lists, deps: Lists, inv: Lists)
    requires s.Fixed(d, v) && Shrunk(d, v, deps, inv)
    ensures s.Fixed(deps, inv)
  {
    hide Edge, DirectPart, Has;
  }

  lemma SourcesStill(d: Lists, v: Lists, deps: Lists, inv: Lists, y: Mod)
    requires SourcesOf(d, v, y) && Shrunk(d, v, deps, inv) && y in inv && inv[y] == v[y]
    ensures SourcesOf(deps, inv, y)
  {
    hide Edge, DirectPart, LeadsTo, DirectOnly;
  }

  lemma NotNeeded(inv: Lists, k: Mod, m: Mod)
    requires k in inv && OnlyNeed(inv, k, {m})
    ensures !Needed(inv[k], m)
  {
    forall f | f in inv[k] ensures f.dest == m || f.ty.Extension? {
      assert Edge(inv, k, f.ty, f.dest);
    }
  }

  lemma {:induction false} DropOrigNothing(l: seq<Dep>, m: Mod)
    requires forall e :: e in l && e.direct && e.ty.Data? ==> e.origs != [] && m !in e.origs
    ensures DropOrig(l, m) == l
  {
    if l != [] {
      assert l[0] in l;
      NotFirst(l[0].origs, m);
      DropOrigNothing(l[1..], m);
      assert l == [l[0]] + l[1..];
    }
  }

  lemma {:induction false} NotFirst(o: seq<Mod>, m: Mod)
    ensures m !in o ==> RemoveFirst(o, m) == o
  {
    if o != [] {
      NotFirst(o[1..], m);
      assert o == [o[0]] + o[1..];
    }
  }

  // ---------------------------------------------------------------- u is detached

  /** Direct entries that neither name m nor were introduced by it stay. */
  lemma DetachedApart(d0: Lists, v0: Lists, m: Mod, cut: Lists, deps: Lists, inv: Lists, p: Mod)
    requires Detached(d0, v0, m, cut, deps, inv) && p in d0
    requires forall e :: e in DirectOnly(d0[p]) ==> e.dest != m && (e.ty.Data? ==> e.origs != [] && m !in e.origs)
    ensures p in deps && DirectOnly(deps[p]) == DirectOnly(d0[p])
  {
    hide RemoveTo, DropOrig, DirectOnly, LeadsTo, Has;
    DirectOnlyRemoveTo(d0[p], m);
    RemoveToNothing(DirectOnly(d0[p]), m);
    DirectOnlyDropOrig(cut[p], m);
    DropOrigNothing(DirectOnly(d0[p]), m);
  }

  lemma FirmStill(d: Lists, v: Lists, m: Mod, cut: Lists, deps: Lists, inv: Lists, p: Mod)
    requires Detached(d, v, m, cut, deps, inv) && FirmSources(d, v, p) && Shrunk(d, v, deps, inv)
    ensures FirmSources(deps, inv, p)
  {
    hide DropOrig, CutInto, DirectOnly, DirectPart, Has, Edge;
    forall i | Found(v[p], i) ensures Found(inv[p], i) {
      var f :| f in v[p] && f.direct && !f.ty.Data? && f.dest == i;
      KeptByDrop(v[p], m, f);
      assert f in inv[p];
    }
  }

  lemma FirmSame(d: Lists, v: Lists, deps: Lists, inv: Lists, p: Mod)
    requires FirmSources(d, v, p) && Shrunk(d, v, deps, inv) && p in inv && inv[p] == v[p]
    ensures FirmSources(deps, inv, p)
  {
    hide Edge, DirectPart, Found;
  }

  lemma NobodyStill(d: Lists, v: Lists, deps: Lists, inv: Lists, p: Mod)
    requires NobodyLists(d, p) && Shrunk(d, v, deps, inv)
    ensures NobodyLists(deps, p)
  {
    hide Edge, DirectPart;
  }

  lemma NobodyMeans(deps: Lists, p: Mod)
    requires NobodyLists(deps, p)
    ensures forall i, t :: !Edge(DirectPart(deps), i, t, p)
  {
  }

  /** Once p is detached nobody lists it. */
  lemma CutOff(d: Lists, v: Lists, p: Mod, cut: Lists, deps: Lists, inv: Lists)
    requires Detached(d, v, p, cut, deps, inv) && FirmSources(d, v, p) && Shrunk(d, v, deps, inv)
    ensures NobodyLists(deps, p)
  {
    hide DropOrig, RemoveTo, DirectOnly, Has, Found;
    forall i, t ensures !Edge(DirectPart(deps), i, t, p) {
      if Edge(DirectPart(deps), i, t, p) {
        assert Edge(DirectPart(d), i, t, p);
        FoundLeads(v[p], i);
        assert cut[i] == RemoveTo(d[i], p);
        NotAnyMore(cut, i, t, p, d[i]);
        DirectForgotten(cut, DirectOnly(cut[p]), p, deps);
      }
    }
  }

  lemma FoundLeads(l: seq<Dep>, i: Mod)
    requires Found(l, i)
    ensures LeadsTo(DirectOnly(l), i)
  {
    hide DirectOnly;
  }

  lemma NotAnyMore(cut: Lists, i: Mod, t: DepType, p: Mod, l: seq<Dep>)
    requires i in cut && cut[i] == RemoveTo(l, p)
    ensures !Edge(DirectPart(cut), i, t, p)
  {
    hide DirectOnly, RemoveTo;
  }

  lemma NoImport(s: Forgetting, deps: Lists, inv: Lists, m: Mod)
    requires s.Fixed(deps, inv) && m in deps && m != s.p
    ensures !Has(DirectOnly(deps[m]), Import, s.x) && !Has(DirectOnly(deps[m]), Import, s.y)
  {
    hide DirectOnly;
    assert Edge(DirectPart(deps), m, Import, s.x) ==> m == s.p;
    assert Edge(DirectPart(deps), m, Import, s.y) ==> m == s.p;
  }

  lemma AfterU(s: Forgetting, d0: Lists, v0: Lists, submodules: set<Mod>, installed: set<Mod>, cut: Lists, deps: Lists, inv: Lists)
    requires s.Start(d0, v0, submodules, installed) && Detached(d0, v0, s.u, cut, deps, inv)
    ensures Healthy(deps, inv) && s.Fixed(deps, inv) && s.AtP(deps, inv)
    ensures s.u in deps && DirectOnly(deps[s.u]) == s.uBefore + [s.toP] + s.uAfter
  {
    hide Detached, DirectOnly, Healthy, OnlyNeed, OnlyList, ListsNothing, SourcesOf, FirmSources, NobodyLists, Waiting, Has;
    hide Shrunk, Fewer, Flagged, Unneeded, LeadsTo;
    HealthyDetached(d0, v0, s.u, cut, deps, inv);
    SameKeys(d0, v0, s.u, cut, deps, inv);
    DetachedSelf(d0, v0, s.u, cut, deps, inv);
    ShrunkDetached(d0, v0, s.u, cut, deps, inv);
    FixedShrunk(s, d0, v0, deps, inv);
    DetachedApart(d0, v0, s.u, cut, deps, inv, s.p);
    NoImport(s, d0, v0, s.u);
    DetachedOther(d0, v0, s.u, cut, deps, inv, s.x);
    DetachedOther(d0, v0, s.u, cut, deps, inv, s.y);
    SourcesStill(d0, v0, deps, inv, s.y);
    FirmStill(d0, v0, s.u, cut, deps, inv, s.p);
  }

  // ---------------------------------------------------------------- u comes to p

  lemma PassingU(s: Forgetting, deps: Lists, inv: Lists, submodules: set<Mod>, installed: set<Mod>)
    requires Healthy(deps, inv) && s.u in deps && s.Flags(submodules, installed) && DirectOnly(deps[s.u]) == s.uBefore + [s.toP] + s.uAfter
    ensures Stay(submodules, installed, inv, s.u, s.uBefore) && DirectOnly(deps[s.u]) == s.uBefore + ([s.toP] + s.uAfter)
    ensures forall e :: e in s.uBefore ==> e.dest != s.p && e.dest != s.x && e.dest != s.y
  {
    hide Healthy, DirectOnly, Flagged;
    LiveEntries(deps, inv, s.u, s.uBefore + [s.toP] + s.uAfter);
    forall e | e in s.uBefore ensures e in deps[s.u] {
      assert e in s.uBefore + [s.toP] + s.uAfter;
    }
    StayUnflagged(submodules, installed, deps, inv, s.u, s.uBefore);
    assert s.uBefore + [s.toP] + s.uAfter == s.uBefore + ([s.toP] + s.uAfter);
  }

  lemma ArrivedAtP(s: Forgetting, d: Lists, v: Lists, deps: Lists, inv: Lists)
    requires s.Fixed(d, v) && s.AtP(d, v) && s.u != s.p && s.u in deps && deps == d[s.u := deps[s.u]]
    requires Unlinked(v, s.uBefore, s.u, inv) && Shrunk(d, v, deps, inv)
    requires forall e :: e in s.uBefore ==> e.dest != s.p && e.dest != s.x && e.dest != s.y
    ensures s.Fixed(deps, inv) && s.AtP(deps, inv)
  {
    hide DirectOnly, OnlyNeed, OnlyList, ListsNothing, SourcesOf, FirmSources, NobodyLists, Waiting, Has, Shrunk, Unlinked;
    FixedShrunk(s, d, v, deps, inv);
    NotPassed(v, s.uBefore, s.u, inv, s.p);
    NotPassed(v, s.uBefore, s.u, inv, s.x);
    NotPassed(v, s.uBefore, s.u, inv, s.y);
    SourcesStill(d, v, deps, inv, s.y);
    FirmSame(d, v, deps, inv, s.p);
  }

  // ---------------------------------------------------------------- p is detached and comes to y

  lemma AfterP(s: Forgetting, d: Lists, v: Lists, cut: Lists, deps: Lists, inv: Lists)
    requires Healthy(d, v) && s.Fixed(d, v) && s.AtP(d, v) && s.Apart() && Detached(d, v, s.p, cut, deps, inv)
    ensures Healthy(deps, inv) && s.Fixed(deps, inv) && s.AtP(deps, inv) && NobodyLists(deps, s.p)
  {
    hide Detached, DirectOnly, Healthy, OnlyNeed, OnlyList, ListsNothing, SourcesOf, FirmSources, NobodyLists, Has, Shrunk, Fewer;
    hide LeadsTo;
    HealthyDetached(d, v, s.p, cut, deps, inv);
    SameKeys(d, v, s.p, cut, deps, inv);
    DetachedSelf(d, v, s.p, cut, deps, inv);
    ShrunkDetached(d, v, s.p, cut, deps, inv);
    FixedShrunk(s, d, v, deps, inv);
    DetachedOther(d, v, s.p, cut, deps, inv, s.y);
    SourcesStill(d, v, deps, inv, s.y);
    FirmStill(d, v, s.p, cut, deps, inv, s.p);
    CutOff(d, v, s.p, cut, deps, inv);
    WaitingStill(d, v, s.p, cut, deps, inv, s.x, s.u);
  }

  lemma WaitingStill(d: Lists, v: Lists, m: Mod, cut: Lists, deps: Lists, inv: Lists, x: Mod, u: Mod)
    requires Detached(d, v, m, cut, deps, inv) && x in v && Waiting(v[x], u)
    ensures x in inv && Waiting(inv[x], u)
  {
    hide DropOrig, CutInto, DirectOnly, Has;
    var f :| f in v[x] && f.dest == u && !f.ty.Extension? && !f.direct;
    KeptByDrop(v[x], m, f);
    assert f in inv[x];
  }

  /** u's computed edge keeps x while p passes it. */
  lemma PassingP(s: Forgetting, deps: Lists, inv: Lists, submodules: set<Mod>, installed: set<Mod>)
    requires Healthy(deps, inv) && s.AtP(deps, inv) && s.Apart() && s.Entries() && s.Flags(submodules, installed)
    ensures Stay(submodules, installed, inv, s.p, s.before) && DirectOnly(deps[s.p]) == s.before + ([s.toY] + s.Later())
    ensures forall e :: e in s.before ==> e.dest != s.y
  {
    hide Healthy, DirectOnly, Flagged, SourcesOf, Has;
    var l := s.Later();
    LiveEntries(deps, inv, s.p, s.before + [s.toY] + l);
    assert Needed(inv[s.x], s.p);
    hide Needed, Waiting;
    forall e | e in s.before
      ensures e.dest in inv && (!Flagged(submodules, installed, e.dest) || Needed(inv[e.dest], s.p)) && e.dest != s.y
    {
      assert e in s.before + [s.toY] + l;
    }
    assert s.before + [s.toY] + l == s.before + ([s.toY] + l);
  }

  lemma ArrivedAtY(s: Forgetting, d: Lists, v: Lists, deps: Lists, inv: Lists)
    requires s.Fixed(d, v) && s.AtP(d, v) && s.Apart() && s.Entries() && s.p in deps && deps == d[s.p := deps[s.p]]
    requires DirectOnly(deps[s.p]) == [s.toY] + s.Later() && NobodyLists(d, s.p)
    requires Unlinked(v, s.before, s.p, inv) && Shrunk(d, v, deps, inv) && forall e :: e in s.before ==> e.dest != s.y
    ensures s.Fixed(deps, inv) && s.AtY(deps, inv)
  {
    assert s.p in inv && s.x in inv && inv[s.x] == RemoveTo(v[s.x], s.p) by {
      hide RemoveTo, DirectOnly, OnlyNeed, OnlyList, ListsNothing, SourcesOf, FirmSources, NobodyLists, Waiting, Has, Shrunk;
    }
    hide DirectOnly, OnlyNeed, OnlyList, ListsNothing, SourcesOf, FirmSources, NobodyLists, Waiting, Has, Shrunk, Unlinked;
    hide RemoveTo;
    FixedShrunk(s, d, v, deps, inv);
    NotPassed(v, s.before, s.p, inv, s.y);
    SourcesStill(d, v, deps, inv, s.y);
    NobodyStill(d, v, deps, inv, s.p);
  }

  // ---------------------------------------------------------------- y goes

  lemma ImportsNothing(d: Lists, y: Mod, i: Mod)
    requires ListsNothing(DirectPart(d), y) && y in d
    ensures !Has(DirectOnly(d[y]), Import, i) && DirectOnly(d[y]) == []
  {
    hide DirectOnly;
    assert !Edge(DirectPart(d), y, Import, i);
    FirstEdge(DirectPart(d), y);
  }

  lemma FirstEdge(g: Lists, i: Mod)
    requires i in g
    ensures g[i] != [] ==> Edge(g, i, g[i][0].ty, g[i][0].dest)
  {
  }

  /** Once y is detached nobody lists it. */
  lemma Unlisted(d: Lists, v: Lists, y: Mod, cut: Lists, deps: Lists, inv: Lists)
    requires Healthy(d, v) && Detached(d, v, y, cut, deps, inv) && SourcesOf(d, v, y) && ListsNothing(DirectPart(d), y)
    ensures NobodyLists(deps, y)
  {
    hide Healthy, RemoveTo, DirectOnly, Detached, LeadsTo;
    SameKeys(d, v, y, cut, deps, inv);
    forall i, t ensures !Edge(DirectPart(deps), i, t, y) {
      if i in deps {
        ImportsNothing(d, y, i);
        DetachedOther(d, v, y, cut, deps, inv, i);
        DirectOnlyRemoveTo(d[i], y);
        if !LeadsTo(DirectOnly(v[y]), i) { assert !Edge(DirectPart(d), i, t, y); }
      }
    }
  }

  lemma SeqAssociative(a: seq<Dep>, b: seq<Dep>, c: seq<Dep>)
    ensures a + b + c == a + (b + c)
  {
  }

  /** What is left of p's list. */
  lemma LaterWithout(s: Forgetting)
    requires s.Entries() && s.Apart() && forall e :: e in s.between ==> e.dest != s.y
    ensures RemoveTo([s.toY] + s.Later(), s.y) == s.between + ([s.toX] + RemoveTo(s.rest, s.y))
  {
    hide RemoveTo, LeadsTo;
    var l := [s.toY] + s.Later();
    RemoveToWithout(l, 0, s.y);
    assert l[..0] + l[1..] == s.between + [s.toX] + s.rest;
    RemoveToAround(s.between, s.toX, s.rest, s.y);
    RemoveToNothing(s.between, s.y);
    SeqAssociative(s.between, [s.toX], RemoveTo(s.rest, s.y));
  }

  /** y is detached: p has lost its entries for it, and nobody names it any more. */
  ghost predicate WithoutY(s: Forgetting, deps: Lists, inv: Lists) {
    && s.p in deps && s.x in deps && s.y in deps && s.p in inv && s.x in inv
    && DirectOnly(deps[s.p]) == s.between + ([s.toX] + RemoveTo(s.rest, s.y))
    && !LeadsTo(inv[s.x], s.p) && NobodyLists(deps, s.y) && NobodyLists(deps, s.p)
  }

  lemma AfterY(s: Forgetting, d: Lists, v: Lists, submodules: set<Mod>, installed: set<Mod>, cut: Lists, deps: Lists, inv: Lists)
    requires Healthy(d, v) && s.Fixed(d, v) && s.AtY(d, v) && s.Apart() && s.Entries() && s.Flags(submodules, installed)
    requires Detached(d, v, s.y, cut, deps, inv)
    ensures Healthy(deps, inv) && s.Fixed(deps, inv) && WithoutY(s, deps, inv)
  {
    hide Detached, DirectOnly, Healthy, OnlyNeed, OnlyList, ListsNothing, Has, Shrunk, Fewer, LeadsTo, RemoveTo, NobodyLists;
    hide SourcesOf;
    HealthyDetached(d, v, s.y, cut, deps, inv);
    SameKeys(d, v, s.y, cut, deps, inv);
    ShrunkDetached(d, v, s.y, cut, deps, inv);
    FixedShrunk(s, d, v, deps, inv);
    Unlisted(d, v, s.y, cut, deps, inv);
    NobodyStill(d, v, deps, inv, s.p);
    ImportsNothing(d, s.y, s.p);
    ImportsNothing(d, s.y, s.x);
    DetachedOther(d, v, s.y, cut, deps, inv, s.p);
    DetachedOther(d, v, s.y, cut, deps, inv, s.x);
    ListedByP(s, d, v);
    DirectOnlyRemoveTo(d[s.p], s.y);
    LaterWithout(s);
  }

  lemma ListedByP(s: Forgetting, d: Lists, v: Lists)
    requires s.AtY(d, v) && s.Entries()
    ensures LeadsTo(DirectOnly(v[s.y]), s.p)
  {
    hide DirectOnly;
    var l := [s.toY] + s.Later();
    assert l[0] in l && Edge(DirectPart(d), s.p, s.toY.ty, s.y);
  }

  // ---------------------------------------------------------------- the closure forgets u

  ghost predicate Allowed(s: Forgetting, i: Mod, t: DepType, j: Mod) {
    && i != j
    && (j == s.x && t != Extension ==> i == s.p && s.Binds(t))
    && !(j == s.p && s.Binds(t))
  }

  /** All edges that may be there once y is gone: none to x but p's own, by a type by which nobody has
      an edge to p. */
  ghost function Span(s: Forgetting, keys: set<Mod>): (r: set<(Mod, DepType, Mod)>)
    ensures forall i, t, j :: (i, t, j) in r <==> i in keys && j in keys && Allowed(s, i, t, j)
  {
    set i, t: DepType, j | i in keys && j in keys && Allowed(s, i, t, j) :: (i, t, j)
  }

  ghost function SpanPlan(s: Forgetting, keys: set<Mod>): Plan {
    Plan({}, {}, {}, {}, {}, {}, Span(s, keys), {}, {})
  }

  lemma SpanTransitive(s: Forgetting, keys: set<Mod>)
    ensures SpanPlan(s, keys).Transitive()
  {
  }

  lemma SpanBounds(s: Forgetting, dd: Lists, vv: Lists, keys: set<Mod>)
    requires forall i, t, j :: Edge(dd, i, t, j) || Edge(vv, j, t, i) ==> i in keys && j in keys && i != j
    requires OnlyNeed(vv, s.x, {}) && OnlyList(dd, s.x, s.p)
    requires forall i, t :: s.Binds(t) ==> !Edge(dd, i, t, s.p) && !Edge(vv, s.p, t, i)
    requires forall t :: t != Extension && Edge(dd, s.p, t, s.x) ==> s.Binds(t)
    ensures Bounded(Span(s, keys), dd, vv)
  {
    hide Edge, Has, Span;
  }

  /** y is deleted: the direct edges that are left. */
  ghost predicate Left(s: Forgetting, deps: Lists, inv: Lists) {
    && Healthy(DirectPart(deps), DirectPart(inv)) && OrigsDistinct(deps) && OrigsDistinct(inv)
    && Bounded(Span(s, deps.Keys), DirectPart(deps), DirectPart(inv))
    && s.p in deps && s.x in deps && s.p in inv && s.x in inv
    && DirectOnly(deps[s.p]) == s.between + ([s.toX] + RemoveTo(s.rest, s.y))
    && !LeadsTo(DirectOnly(inv[s.x]), s.p) && DirectOnly(deps[s.x]) == []
  }

  lemma LeftIsSafe(s: Forgetting, deps: Lists, inv: Lists)
    requires Left(s, deps, inv)
    ensures Safe(DirectPart(deps), DirectPart(inv), {})
  {
    hide DirectPart, OrigsDistinct, Bounded, RemoveTo, Span, Healthy, Safe;
    HealthyIsSafe(DirectPart(deps), DirectPart(inv));
  }

  lemma HealthyIsSafe(deps: Lists, inv: Lists)
    requires Healthy(deps, inv)
    ensures Safe(deps, inv, {})
  {
    hide OrigsDistinct;
  }

  lemma LiveDirect(d: Lists, v: Lists, y: Mod)
    requires Healthy(d, v) && NobodyLists(d, y) && y in d && forall k, t :: !Edge(DirectPart(v), k, t, y)
    ensures Healthy(DirectPart(d - {y}), DirectPart(v - {y}))
    ensures OrigsDistinct(d - {y}) && OrigsDistinct(v - {y})
  {
    hide DirectOnly;
    var dd, vv := DirectPart(d - {y}), DirectPart(v - {y});
    assert dd.Keys == vv.Keys;
    forall i, e: Dep | i in dd && e in dd[i] ensures e in d[i] && e.dest != y {
      EntryEdge(DirectPart(d), i, e);
    }
    forall k, f: Dep | k in vv && f in vv[k] ensures f in v[k] && f.dest != y {
      EntryEdge(DirectPart(v), k, f);
    }
  }

  lemma HealthyEdges(dd: Lists, vv: Lists)
    requires Healthy(dd, vv)
    ensures forall i, t, j :: Edge(dd, i, t, j) || Edge(vv, j, t, i) ==> i in dd && j in dd && i != j
  {
    hide OrigsDistinct;
  }

  lemma ShrunkWithout(d: Lists, v: Lists, y: Mod)
    ensures Shrunk(d, v, d - {y}, v - {y})
  {
    hide DirectOnly;
  }

  /** By the types p names x by, it does so in what is left of its list. */
  lemma BindsLeft(s: Forgetting, dd: Lists, t: DepType)
    requires s.p in dd && dd[s.p] == s.between + ([s.toX] + RemoveTo(s.rest, s.y)) && t != Extension && Edge(dd, s.p, t, s.x)
    ensures s.Binds(t)
  {
    hide RemoveTo;
    var e :| e in dd[s.p] && e.ty == t && e.dest == s.x;
    assert e in s.between + [s.toX] + s.rest;
  }

  lemma NeedsNot(v: Lists, x: Mod, p: Mod)
    requires x in v && OnlyNeed(DirectPart(v), x, {p}) && !LeadsTo(v[x], p)
    ensures OnlyNeed(DirectPart(v), x, {}) && !LeadsTo(DirectOnly(v[x]), p)
  {
    hide DirectOnly, LeadsTo, Has;
    DirectLeads(v[x], p);
  }

  lemma DirectLeads(l: seq<Dep>, p: Mod)
    ensures LeadsTo(DirectOnly(l), p) ==> LeadsTo(l, p)
    ensures forall t :: Has(DirectOnly(l), t, p) ==> LeadsTo(l, p)
  {
    hide DirectOnly;
  }

  lemma LeftWithoutY(s: Forgetting, d: Lists, v: Lists)
    requires Healthy(d, v) && s.Fixed(d, v) && s.Apart() && WithoutY(s, d, v)
    ensures Left(s, d - {s.y}, v - {s.y})
  {
    hide DirectOnly, DirectPart, Healthy, OrigsDistinct, RemoveTo, Edge, Span, OnlyNeed, OnlyList, ListsNothing, NobodyLists;
    hide LeadsTo, Has, Shrunk;
    var deps, inv := d - {s.y}, v - {s.y};
    var dd, vv := DirectPart(deps), DirectPart(inv);
    LiveDirect(d, v, s.y);
    HealthyEdges(dd, vv);
    ShrunkWithout(d, v, s.y);
    FixedShrunk(s, d, v, deps, inv);
    NobodyStill(d, v, deps, inv, s.p);
    NobodyMeans(deps, s.p);
    NeedsNot(inv, s.x, s.p);
    ImportsNothing(deps, s.x, s.p);
    forall t | t != Extension && Edge(dd, s.p, t, s.x) ensures s.Binds(t) {
      BindsLeft(s, dd, t);
    }
    SpanBounds(s, dd, vv, deps.Keys);
  }

  lemma OrigsStill(g: Lists, h: Lists)
    requires OrigsDistinct(g) && DirectPart(g) == DirectPart(h)
    ensures OrigsDistinct(h)
  {
    hide DirectOnly;
    forall i, e: Dep | i in h && e in h[i] && e.direct && e.ty.Data? ensures Distinct(e.origs) {
      assert e in DirectPart(h)[i] && e in DirectPart(g)[i];
    }
  }

  lemma HealthyClosed(s: Forgetting, keys: set<Mod>, deps: Lists, inv: Lists)
    requires Safe(deps, inv, {}) && Bounded(Span(s, keys), deps, inv) && OrigsDistinct(deps) && OrigsDistinct(inv)
    ensures Healthy(deps, inv) && OnlyNeed(inv, s.x, {s.p})
  {
    HealthyBounded(Span(s, keys), deps, inv);
    hide OrigsDistinct, Span, Healthy;
  }

  lemma HealthyBounded(reach: set<(Mod, DepType, Mod)>, deps: Lists, inv: Lists)
    requires Safe(deps, inv, {}) && Bounded(reach, deps, inv) && OrigsDistinct(deps) && OrigsDistinct(inv)
    requires forall i, t, j :: (i, t, j) in reach ==> i != j
    ensures Healthy(deps, inv)
  {
    hide OrigsDistinct;
    forall i, e: Dep | i in deps && e in deps[i] ensures e.dest != i {
      assert Edge(deps, i, e.ty, e.dest);
    }
    forall k, f: Dep | k in inv && f in inv[k] ensures f.dest != k {
      assert Edge(inv, k, f.ty, f.dest);
    }
  }

  /** The closure has run: u's computed edge to x is forgotten. */
  lemma ClosedAtX(s: Forgetting, d: Lists, v: Lists, deps: Lists, inv: Lists)
    requires Left(s, d, v) && Safe(deps, inv, {}) && Bounded(Span(s, d.Keys), deps, inv)
    requires DirectPart(deps) == DirectPart(d) && DirectPart(inv) == DirectPart(v)
    ensures Healthy(deps, inv) && s.AtX(deps, inv)
  {
    hide DirectOnly, Healthy, OrigsDistinct, RemoveTo, Span, Bounded, Safe, OnlyNeed, LeadsTo;
    OrigsStill(d, deps);
    OrigsStill(v, inv);
    HealthyClosed(s, d.Keys, deps, inv);
    assert deps.Keys == d.Keys && inv.Keys == v.Keys;
    assert DirectPart(deps)[s.p] == DirectPart(d)[s.p] && DirectPart(deps)[s.x] == DirectPart(d)[s.x] && DirectPart(inv)[s.x] == DirectPart(v)[s.x];
  }

  // ---------------------------------------------------------------- x goes

  lemma PassingX(s: Forgetting, deps: Lists, inv: Lists, submodules: set<Mod>, installed: set<Mod>)
    requires Healthy(deps, inv) && s.AtX(deps, inv) && s.Flags(submodules, installed)
    ensures Stay(submodules, installed, inv, s.p, s.between)
    ensures forall e :: e in s.between ==> e.dest != s.x
  {
    hide Healthy, DirectOnly, Flagged, RemoveTo, OnlyNeed, LeadsTo;
    var l := s.between + ([s.toX] + RemoveTo(s.rest, s.y));
    LiveEntries(deps, inv, s.p, l);
    forall e | e in s.between ensures e in deps[s.p] {
      assert e in l;
    }
    StayUnflagged(submodules, installed, deps, inv, s.p, s.between);
  }

  lemma StillNamed(s: Forgetting, d: Lists, v: Lists, cut: Lists, deps: Lists, inv: Lists)
    requires Healthy(d, v) && s.p in d && s.x in d && s.x in v && s.Apart() && s.Entries()
    requires DirectOnly(d[s.p]) == [s.toX] + RemoveTo(s.rest, s.y) && DirectOnly(d[s.x]) == [] && !LeadsTo(DirectOnly(v[s.x]), s.p)
    requires Detached(d, v, s.x, cut, deps, inv)
    ensures s.p in deps && s.x in deps && LeadsTo(deps[s.p], s.x)
  {
    hide Healthy, RemoveTo, Detached, DirectOnly;
    SameKeys(d, v, s.x, cut, deps, inv);
    DetachedOther(d, v, s.x, cut, deps, inv, s.p);
    var l := [s.toX] + RemoveTo(s.rest, s.y);
    assert l[0] in l;
    assert s.toX in d[s.p];
  }

  // ---------------------------------------------------------------- the run

  /** The removal of u for every graph of the shape: u takes p with it; p passes x, which u's computed
      edge keeps, and removes y; the closure that ends this forgets the computed edge; so p removes x,
      which it still names. */
  method ForgetfulRun(c: MdCtx, s: Forgetting)
    requires c.Shape() && s.Start(c.deps, c.inv, c.submodules, c.installed)
    modifies c`modules, c`deps, c`inv
    ensures c.Shape() && s.p in c.deps && s.x !in c.deps && LeadsTo(c.deps[s.p], s.x)
  {
    hide DirectOnly, Healthy, OnlyNeed, OnlyList, ListsNothing, SourcesOf, FirmSources, NobodyLists, Waiting, Has, LeadsTo;
    hide Enumerates, Unneeded, Detached, Flagged;
    HealthyKeys(c.deps, c.inv);
    var ok := OnlyExtensions(c.inv[s.u]);
    assert ok;
    ghost var d, v := c.deps, c.inv;
    HealthyDetachable(d, v, s.u);
    ghost var cut := c.Detach(s.u);
    AfterU(s, d, v, c.submodules, c.installed, cut, c.deps, c.inv);
    RunToP(c, s);
  }

  /** u passes what stays and comes to p. */
  method RunToP(c: MdCtx, s: Forgetting)
    requires c.Shape() && Healthy(c.deps, c.inv) && s.Fixed(c.deps, c.inv) && s.AtP(c.deps, c.inv)
    requires s.Apart() && s.Entries() && s.Flags(c.submodules, c.installed)
    requires s.u in c.deps && DirectOnly(c.deps[s.u]) == s.uBefore + [s.toP] + s.uAfter
    modifies c`modules, c`deps, c`inv
    ensures c.Shape() && s.p in c.deps && s.x !in c.deps && LeadsTo(c.deps[s.p], s.x)
  {
    hide DirectOnly, Healthy, OnlyNeed, OnlyList, ListsNothing, SourcesOf, FirmSources, NobodyLists, Waiting, Has, LeadsTo;
    hide Enumerates, Stay, Unlinked, Shrunk, Flagged;
    ghost var d, v := c.deps, c.inv;
    PassingU(s, d, v, c.submodules, c.installed);
    Advance(c, s.u, Some(s.p), s.uBefore, [s.toP] + s.uAfter);
    ArrivedAtP(s, d, v, c.deps, c.inv);
    RunP(c, s);
  }

  /** Only u needs p: it goes.  It passes x and comes to y. */
  method RunP(c: MdCtx, s: Forgetting)
    requires c.Shape() && Healthy(c.deps, c.inv) && s.Fixed(c.deps, c.inv) && s.AtP(c.deps, c.inv)
    requires s.Apart() && s.Entries() && s.Flags(c.submodules, c.installed)
    modifies c`modules, c`deps, c`inv
    ensures c.Shape() && s.p in c.deps && s.x !in c.deps && LeadsTo(c.deps[s.p], s.x)
  {
    hide DirectOnly, Healthy, OnlyNeed, OnlyList, ListsNothing, SourcesOf, FirmSources, NobodyLists, Waiting, Has, LeadsTo;
    hide Enumerates, Stay, Unlinked, Shrunk, Flagged, Detached, Needed;
    var usage := UsageCount(c.inv[s.p], s.u);
    UsageIsNeed(c.inv[s.p], s.u, usage);
    NotNeeded(c.inv, s.p, s.u);
    assert usage == 0 && Flagged(c.submodules, c.installed, s.p);
    ghost var d, v := c.deps, c.inv;
    HealthyDetachable(d, v, s.p);
    ghost var cut := c.Detach(s.p);
    AfterP(s, d, v, cut, c.deps, c.inv);
    RunToY(c, s);
  }

  method RunToY(c: MdCtx, s: Forgetting)
    requires c.Shape() && Healthy(c.deps, c.inv) && s.Fixed(c.deps, c.inv) && s.AtP(c.deps, c.inv) && NobodyLists(c.deps, s.p)
    requires s.Apart() && s.Entries() && s.Flags(c.submodules, c.installed)
    modifies c`modules, c`deps, c`inv
    ensures c.Shape() && s.p in c.deps && s.x !in c.deps && LeadsTo(c.deps[s.p], s.x)
  {
    hide DirectOnly, Healthy, OnlyNeed, OnlyList, ListsNothing, SourcesOf, FirmSources, NobodyLists, Waiting, Has, LeadsTo;
    hide Enumerates, Stay, Unlinked, Shrunk, Flagged;
    ghost var d, v := c.deps, c.inv;
    PassingP(s, d, v, c.submodules, c.installed);
    Advance(c, s.p, Some(s.y), s.before, [s.toY] + s.Later());
    ArrivedAtY(s, d, v, c.deps, c.inv);
    RunY(c, s);
  }

  method RunY(c: MdCtx, s: Forgetting)
    requires c.Shape() && Healthy(c.deps, c.inv) && s.Fixed(c.deps, c.inv) && s.AtY(c.deps, c.inv)
    requires s.Apart() && s.Entries() && s.Flags(c.submodules, c.installed)
    modifies c`modules, c`deps, c`inv
    ensures c.Shape() && s.p in c.deps && s.x !in c.deps && LeadsTo(c.deps[s.p], s.x)
  {
    hide DirectOnly, Healthy, OnlyNeed, OnlyList, ListsNothing, SourcesOf, NobodyLists, Has, LeadsTo, Enumerates, Flagged, Left;
    RemoveY(c, s);
    Close(c, s);
    RunToX(c, s);
  }

  /** Only p needs y, and y lists nothing: it goes.  A closure ends its removal (2845-2851). */
  method RemoveY(c: MdCtx, s: Forgetting)
    requires c.Shape() && Healthy(c.deps, c.inv) && s.Fixed(c.deps, c.inv) && s.AtY(c.deps, c.inv)
    requires s.Apart() && s.Entries() && s.Flags(c.submodules, c.installed)
    modifies c`modules, c`deps, c`inv
    ensures c.Shape() && Left(s, c.deps, c.inv)
  {
    hide DirectOnly, Healthy, OnlyNeed, OnlyList, ListsNothing, SourcesOf, NobodyLists, Has, LeadsTo, Enumerates, Flagged, Detached, Needed;
    hide WithoutY, Left;
    var usage := UsageCount(c.inv[s.y], s.p);
    UsageIsNeed(c.inv[s.y], s.p, usage);
    NotNeeded(c.inv, s.y, s.p);
    assert usage == 0 && Flagged(c.submodules, c.installed, s.y) && s.y !in c.submodules;
    ghost var d, v := c.deps, c.inv;
    HealthyDetachable(d, v, s.y);
    ghost var cut := c.Detach(s.y);
    SameKeys(d, v, s.y, cut, c.deps, c.inv);
    AfterY(s, d, v, c.submodules, c.installed, cut, c.deps, c.inv);
    ImportsNothing(c.deps, s.y, s.p);
    LeftWithoutY(s, c.deps, c.inv);
    c.Delete(s.y);
  }

  /** The closure. */
  method Close(c: MdCtx, ghost s: Forgetting)
    requires c.Shape() && Left(s, c.deps, c.inv)
    modifies c`deps, c`inv
    ensures c.Shape() && Healthy(c.deps, c.inv) && s.AtX(c.deps, c.inv)
  {
    hide DirectOnly, Healthy, Left, Safe, Bounded, Grew, Converse, Closed, Bridged, DirectPart, Span, Enumerates;
    ghost var d, v, plan := c.deps, c.inv, SpanPlan(s, c.deps.Keys);
    LeftIsSafe(s, d, v);
    SpanTransitive(s, d.Keys);
    BoundedByLeft(s, d, v);
    c.TransitiveClosure({}, plan);
    ClosedAtX(s, d, v, c.deps, c.inv);
  }

  lemma BoundedByLeft(s: Forgetting, deps: Lists, inv: Lists)
    requires Left(s, deps, inv)
    ensures Bounded(Span(s, deps.Keys), DirectPart(deps), DirectPart(inv))
  {
  }

  /** p comes to x, which only p needs now: it goes, and p still names it. */
  method RunToX(c: MdCtx, s: Forgetting)
    requires c.Shape() && Healthy(c.deps, c.inv) && s.AtX(c.deps, c.inv)
    requires s.Apart() && s.Entries() && s.Flags(c.submodules, c.installed)
    modifies c`modules, c`deps, c`inv
    ensures c.Shape() && s.p in c.deps && s.x !in c.deps && LeadsTo(c.deps[s.p], s.x)
  {
    hide DirectOnly, Healthy, OnlyNeed, LeadsTo, Enumerates, Stay, Unlinked, Shrunk, Flagged, Detached, Needed, RemoveTo;
    ghost var d, v := c.deps, c.inv;
    PassingX(s, d, v, c.submodules, c.installed);
    NotNeeded(v, s.x, s.p);
    Advance(c, s.p, Some(s.x), s.between, [s.toX] + RemoveTo(s.rest, s.y));
    NotPassed(v, s.between, s.p, c.inv, s.x);
    var usage := UsageCount(c.inv[s.x], s.p);
    UsageIsNeed(c.inv[s.x], s.p, usage);
    assert usage == 0 && Flagged(c.submodules, c.installed, s.x);
    ghost var d1, v1 := c.deps, c.inv;
    HealthyDetachable(d1, v1, s.x);
    ghost var cut := c.Detach(s.x);
    StillNamed(s, d1, v1, cut, c.deps, c.inv);
    c.Delete(s.x);
  }

  // ---------------------------------------------------------------- one input

  const U := Mod(3)
  const P := Mod(4)

  /** U imports P; P imports X and refers to data of Y and of X.  That U imports X is computed. */
  function ForgetForward(): Lists {
    map[U := [Importing(P), Dep(Import, X, false, [])], P := [Importing(X), Dep(Data, Y, true, [P]), Dep(Data, X, true, [P])],
        X := [], Y := []]
  }

  function ForgetInverse(): Lists {
    map[U := [], P := [Importing(U)], X := [Importing(P), Dep(Data, P, true, [P]), Dep(Import, U, false, [])],
        Y := [Dep(Data, P, true, [P])]]
  }

  function ForgetShape(): Forgetting {
    Forgetting(U, P, X, Y, [], Importing(P), [], [Importing(X)], Dep(Data, Y, true, [P]), [], Dep(Data, X, true, [P]), [])
  }

  lemma ForgetLists()
    ensures ForgetForward().Keys == {U, P, X, Y} == ForgetInverse().Keys
    ensures var d := ForgetForward();
            && d[U] == [Importing(P), Dep(Import, X, false, [])]
            && d[P] == [Importing(X), Dep(Data, Y, true, [P]), Dep(Data, X, true, [P])] && d[X] == [] && d[Y] == []
    ensures var v := ForgetInverse();
            && v[U] == [] && v[P] == [Importing(U)] && v[Y] == [Dep(Data, P, true, [P])]
            && v[X] == [Importing(P), Dep(Data, P, true, [P]), Dep(Import, U, false, [])]
  {
  }

  /** What a list of three names. */
  lemma HasOfThree(a: Dep, b: Dep, c: Dep, t: DepType, j: Mod)
    ensures Has([a, b, c], t, j) <==> (a.ty == t && a.dest == j) || (b.ty == t && b.dest == j) || (c.ty == t && c.dest == j)
  {
    HasEntry([a, b, c], 0);
    HasEntry([a, b, c], 1);
    HasEntry([a, b, c], 2);
  }

  lemma HasOfTwo(a: Dep, b: Dep, t: DepType, j: Mod)
    ensures Has([a, b], t, j) <==> (a.ty == t && a.dest == j) || (b.ty == t && b.dest == j)
    ensures Has([a], t, j) <==> a.ty == t && a.dest == j
    ensures !Has([], t, j)
  {
    HasEntry([a, b], 0);
    HasEntry([a, b], 1);
    HasEntry([a], 0);
  }

  lemma DirectAndImplied(a: seq<Dep>, b: seq<Dep>)
    requires (forall e :: e in a ==> e.direct) && (forall e :: e in b ==> !e.direct)
    ensures DirectOnly(a + b) == a
  {
    hide DirectOnly;
    DirectOnlyConcat(a, b);
    DirectOnlyIdentity(a);
    DirectOnlyNothing(b);
  }

  lemma ForgetDirect()
    ensures var d := ForgetForward();
            && d.Keys == {U, P, X, Y} && DirectOnly(d[U]) == [Importing(P)]
            && DirectOnly(d[P]) == [Importing(X), Dep(Data, Y, true, [P]), Dep(Data, X, true, [P])]
            && DirectOnly(d[X]) == [] && DirectOnly(d[Y]) == []
    ensures var v := ForgetInverse();
            && v.Keys == {U, P, X, Y} && DirectOnly(v[U]) == [] && DirectOnly(v[P]) == [Importing(U)]
            && DirectOnly(v[X]) == [Importing(P), Dep(Data, P, true, [P])] && DirectOnly(v[Y]) == [Dep(Data, P, true, [P])]
  {
    ForgetLists();
    hide ForgetForward, ForgetInverse, DirectOnly;
    var d, v := ForgetForward(), ForgetInverse();
    assert d[U] == [Importing(P)] + [Dep(Import, X, false, [])];
    assert v[X] == [Importing(P), Dep(Data, P, true, [P])] + [Dep(Import, U, false, [])];
    DirectAndImplied([Importing(P)], [Dep(Import, X, false, [])]);
    DirectAndImplied([Importing(P), Dep(Data, P, true, [P])], [Dep(Import, U, false, [])]);
    DirectOnlyIdentity(d[P]);
    DirectOnlyIdentity(v[P]);
    DirectOnlyIdentity(v[Y]);
    DirectOnlyIdentity([]);
  }

  ghost predicate ForgetEdge(i: Mod, t: DepType, j: Mod) {
    (i == P && ((t == Import && j == X) || (t == Data && (j == X || j == Y)))) || (i == U && t == Import && j == P)
  }

  lemma ForgetDirectForward(i: Mod, t: DepType, j: Mod)
    ensures Edge(DirectPart(ForgetForward()), i, t, j) <==> ForgetEdge(i, t, j)
  {
    ForgetDirectLists(t, j);
    hide ForgetForward, ForgetInverse, DirectOnly, Has;
  }

  /** What the direct lists name, list by list. */
  lemma ForgetDirectLists(t: DepType, j: Mod)
    ensures var d := ForgetForward();
            && d.Keys == {U, P, X, Y} && (Has(DirectOnly(d[U]), t, j) <==> ForgetEdge(U, t, j))
            && (Has(DirectOnly(d[P]), t, j) <==> ForgetEdge(P, t, j)) && !Has(DirectOnly(d[X]), t, j) && !Has(DirectOnly(d[Y]), t, j)
    ensures var v := ForgetInverse();
            && v.Keys == {U, P, X, Y} && !Has(DirectOnly(v[U]), t, j) && (Has(DirectOnly(v[P]), t, j) <==> ForgetEdge(j, t, P))
            && (Has(DirectOnly(v[X]), t, j) <==> ForgetEdge(j, t, X)) && (Has(DirectOnly(v[Y]), t, j) <==> ForgetEdge(j, t, Y))
  {
    ForgetDirect();
    hide ForgetForward, ForgetInverse, DirectOnly, Has;
    HasOfThree(Importing(X), Dep(Data, Y, true, [P]), Dep(Data, X, true, [P]), t, j);
    HasOfTwo(Importing(P), Dep(Data, P, true, [P]), t, j);
    HasOfTwo(Importing(U), Importing(U), t, j);
    HasOfTwo(Dep(Data, P, true, [P]), Importing(U), t, j);
  }

  lemma ForgetDirectInverse(i: Mod, t: DepType, j: Mod)
    ensures Edge(DirectPart(ForgetInverse()), j, t, i) <==> ForgetEdge(i, t, j)
  {
    ForgetDirectLists(t, i);
    hide ForgetForward, ForgetInverse, DirectOnly, Has;
  }

  /** The direct edges ... */
  lemma ForgetDirectEdges(i: Mod, t: DepType, j: Mod)
    ensures Edge(DirectPart(ForgetForward()), i, t, j) <==> ForgetEdge(i, t, j)
    ensures Edge(DirectPart(ForgetInverse()), j, t, i) <==> ForgetEdge(i, t, j)
  {
    ForgetDirectForward(i, t, j);
    ForgetDirectInverse(i, t, j);
  }

  /** ... and all edges. */
  lemma ForgetEdges(i: Mod, t: DepType, j: Mod)
    ensures Edge(ForgetForward(), i, t, j) <==> ForgetEdge(i, t, j) || (i == U && t == Import && j == X)
    ensures Edge(ForgetInverse(), j, t, i) <==> ForgetEdge(i, t, j) || (i == U && t == Import && j == X)
  {
    ForgetAll(t, j);
    ForgetAll(t, i);
    hide ForgetForward, ForgetInverse, Has;
  }

  lemma ForgetAll(t: DepType, j: Mod)
    ensures var d := ForgetForward();
            && d.Keys == {U, P, X, Y} && (Has(d[U], t, j) <==> ForgetEdge(U, t, j) || (t == Import && j == X))
            && (Has(d[P], t, j) <==> ForgetEdge(P, t, j)) && !Has(d[X], t, j) && !Has(d[Y], t, j)
    ensures var v := ForgetInverse();
            && v.Keys == {U, P, X, Y} && !Has(v[U], t, j) && (Has(v[P], t, j) <==> ForgetEdge(j, t, P))
            && (Has(v[X], t, j) <==> ForgetEdge(j, t, X) || (t == Import && j == U)) && (Has(v[Y], t, j) <==> ForgetEdge(j, t, Y))
  {
    ForgetLists();
    hide ForgetForward, ForgetInverse, Has;
    HasOfTwo(Importing(P), Dep(Import, X, false, []), t, j);
    HasOfThree(Importing(X), Dep(Data, Y, true, [P]), Dep(Data, X, true, [P]), t, j);
    HasOfTwo(Importing(U), Importing(U), t, j);
    HasOfThree(Importing(P), Dep(Data, P, true, [P]), Dep(Import, U, false, []), t, j);
    HasOfTwo(Dep(Data, P, true, [P]), Importing(U), t, j);
  }

  /** The lists are what a closure leaves: all that is reached is listed, on both sides. */
  lemma ForgetClosed()
    ensures Closed(DirectPart(ForgetForward()), ForgetForward()) && Converse(ForgetForward(), ForgetInverse())
  {
    hide ForgetForward, ForgetInverse, DirectPart, Edge, ForgetEdge;
    var d, direct := ForgetForward(), DirectPart(ForgetForward());
    forall i, t, j ensures Edge(d, i, t, j) <==> Edge(ForgetInverse(), j, t, i) {
      ForgetEdges(i, t, j);
    }
    forall i, t, j | i != j ensures Edge(d, i, t, j) <==> Reaches(direct, t, i, j) {
      if Edge(d, i, t, j) {
        ForgetReaches(i, t, j);
      }
      if Reaches(direct, t, i, j) {
        var p :| Walk(direct, t, p) && p[0] == i && p[|p| - 1] == j;
        ForgetWalks(t, p);
      }
    }
  }

  lemma ForgetReaches(i: Mod, t: DepType, j: Mod)
    requires Edge(ForgetForward(), i, t, j)
    ensures Reaches(DirectPart(ForgetForward()), t, i, j)
  {
    hide ForgetForward, DirectPart, Edge;
    var direct := DirectPart(ForgetForward());
    ForgetEdges(i, t, j);
    ForgetDirectEdges(i, t, j);
    ForgetDirectEdges(U, Import, P);
    ForgetDirectEdges(P, Import, X);
    if ForgetEdge(i, t, j) {
      assert Walk(direct, t, [i, j]);
    } else {
      assert Walk(direct, t, [U, P, X]);
    }
  }

  lemma ForgetWalks(t: DepType, p: seq<Mod>)
    requires Walk(DirectPart(ForgetForward()), t, p)
    ensures Edge(ForgetForward(), p[0], t, p[|p| - 1])
  {
    hide ForgetForward, DirectPart, Edge;
    assert Edge(DirectPart(ForgetForward()), p[0], t, p[0 + 1]);
    ForgetDirectEdges(p[0], t, p[1]);
    ForgetEdges(p[0], t, p[|p| - 1]);
    if 2 < |p| {
      assert Edge(DirectPart(ForgetForward()), p[1], t, p[1 + 1]);
      ForgetDirectEdges(p[1], t, p[2]);
      if 3 < |p| {
        assert Edge(DirectPart(ForgetForward()), p[2], t, p[2 + 1]);
        ForgetDirectEdges(p[2], t, p[3]);
      }
    }
  }

  lemma ForgetFixed()
    ensures ForgetShape().Fixed(ForgetForward(), ForgetInverse())
  {
    ForgetLater();
    hide ForgetForward, ForgetInverse, DirectPart, Edge, Has;
    var d, v, s := ForgetForward(), ForgetInverse(), ForgetShape();
    forall i, t, j
      ensures Edge(DirectPart(d), i, t, j) <==> ForgetEdge(i, t, j)
      ensures Edge(DirectPart(v), j, t, i) <==> ForgetEdge(i, t, j)
      ensures Edge(v, j, t, i) <==> ForgetEdge(i, t, j) || (i == U && t == Import && j == X)
    {
      ForgetEdges(i, t, j);
      ForgetDirectEdges(i, t, j);
    }
  }

  lemma ForgetLater()
    ensures forall t :: ForgetShape().Binds(t) ==> t == Data
  {
    assert ForgetShape().Later() == [Dep(Data, X, true, [P])];
  }

  lemma ForgetForwardAnswered(i: Mod, e: Dep)
    requires i in ForgetForward() && e in ForgetForward()[i]
    ensures e.dest in ForgetInverse() && e.dest != i && Has(ForgetInverse()[e.dest], e.ty, i) && (e.ty.Data? ==> Distinct(e.origs))
  {
    ForgetLists();
    hide ForgetForward, ForgetInverse, Has, Distinct;
    EntryEdge(ForgetForward(), i, e);
    ForgetEdges(i, e.ty, e.dest);
    OneDistinct(P);
  }

  lemma ForgetInverseAnswered(k: Mod, f: Dep)
    requires k in ForgetInverse() && f in ForgetInverse()[k]
    ensures f.dest in ForgetForward() && f.dest != k && Has(ForgetForward()[f.dest], f.ty, k) && (f.ty.Data? ==> Distinct(f.origs))
  {
    ForgetLists();
    hide ForgetForward, ForgetInverse, Has, Distinct;
    EntryEdge(ForgetInverse(), k, f);
    ForgetEdges(f.dest, f.ty, k);
    OneDistinct(P);
  }

  lemma ForgetAnswered()
    ensures Answered(ForgetForward(), ForgetInverse()) && Answered(ForgetInverse(), ForgetForward())
  {
    ForgetModules();
    hide ForgetForward, ForgetInverse, Has, Distinct, Enumerates;
    var d, v := ForgetForward(), ForgetInverse();
    forall i, e: Dep | i in d && e in d[i]
      ensures e.dest in v && e.dest != i && Has(v[e.dest], e.ty, i) && (e.ty.Data? ==> Distinct(e.origs))
    {
      ForgetForwardAnswered(i, e);
    }
    forall k, f: Dep | k in v && f in v[k]
      ensures f.dest in d && f.dest != k && Has(d[f.dest], f.ty, k) && (f.ty.Data? ==> Distinct(f.origs))
    {
      ForgetInverseAnswered(k, f);
    }
  }

  lemma EntryEdge(g: Lists, i: Mod, e: Dep)
    requires i in g && e in g[i]
    ensures Edge(g, i, e.ty, e.dest)
  {
  }

  lemma OneDistinct(m: Mod)
    ensures Distinct([m])
  {
  }

  lemma ForgetNamed()
    ensures var v := ForgetInverse();
            P in v && Y in v && X in v && Found(v[P], U) && LeadsTo(DirectOnly(v[Y]), P) && Waiting(v[X], U)
  {
    ForgetLists();
    ForgetDirect();
    hide ForgetForward, ForgetInverse, DirectOnly;
    var v := ForgetInverse();
    assert v[X][2] in v[X] && v[P][0] in v[P];
    assert v[Y][0] in v[Y] && v[Y][0] == Dep(Data, P, true, [P]);
  }

  lemma ForgetSources()
    ensures FirmSources(ForgetForward(), ForgetInverse(), P) && SourcesOf(ForgetForward(), ForgetInverse(), Y)
  {
    ForgetNamed();
    hide ForgetForward, ForgetInverse, DirectOnly, DirectPart, Edge, LeadsTo, Found;
    var d, v := ForgetForward(), ForgetInverse();
    forall i, t | Edge(DirectPart(d), i, t, P) ensures Found(v[P], i) {
      ForgetDirectEdges(i, t, P);
    }
    forall i, t | Edge(DirectPart(d), i, t, Y) ensures LeadsTo(DirectOnly(v[Y]), i) {
      ForgetDirectEdges(i, t, Y);
    }
  }

  lemma ForgetEntries()
    ensures P in ForgetForward() && var s := ForgetShape(); DirectOnly(ForgetForward()[P]) == s.before + [s.toY] + s.Later() && s.Entries()
    ensures !Has(DirectOnly(ForgetForward()[P]), Import, Y)
  {
    ForgetLists();
    ForgetDirect();
    hide ForgetForward, ForgetInverse, DirectOnly;
    var s := ForgetShape();
    assert ForgetForward()[P] == s.before + [s.toY] + s.Later();
    assert s.before[0].dest == X;
  }

  lemma ForgetAtP()
    ensures ForgetShape().AtP(ForgetForward(), ForgetInverse()) && ForgetShape().Entries()
  {
    ForgetSources();
    ForgetNamed();
    ForgetEntries();
    ForgetKeys();
    hide ForgetForward, ForgetInverse, ForgetShape, DirectOnly, DirectPart, Has, LeadsTo, Found, FirmSources, SourcesOf, Waiting;
  }

  lemma ForgetKeys()
    ensures ForgetForward().Keys == {U, P, X, Y} == ForgetInverse().Keys
    ensures var s := ForgetShape(); s.u == U && s.p == P && s.x == X && s.y == Y
  {
    ForgetLists();
  }

  lemma ForgetUsers()
    ensures var d, v, s := ForgetForward(), ForgetInverse(), ForgetShape();
            && s.u in d && s.u in v && Unneeded(v[s.u], {}) && DirectOnly(d[s.u]) == s.uBefore + [s.toP] + s.uAfter
            && s.p in d && (forall e :: e in DirectOnly(d[s.p]) ==> e.dest != s.u && (e.ty.Data? ==> e.origs != [] && s.u !in e.origs))
  {
    ForgetLists();
    ForgetDirect();
    hide ForgetForward, ForgetInverse, DirectOnly;
    assert DirectOnly(ForgetForward()[U]) == [] + [Importing(P)] + [];
  }

  lemma ForgetStarts()
    ensures ForgetShape().Start(ForgetForward(), ForgetInverse(), {}, {U})
  {
    ForgetAnswered();
    AnsweredIsHealthy(ForgetForward(), ForgetInverse());
    ForgetFixed();
    ForgetAtP();
    ForgetUsers();
    ForgetFlags();
    hide Healthy, Converse, Answered, ForgetForward, ForgetInverse, ForgetShape, DirectOnly, DirectPart, OnlyNeed, OnlyList;
    hide ListsNothing, SourcesOf, FirmSources, NobodyLists, Waiting, Edge, LeadsTo, Has, Unneeded, Flagged;
  }

  lemma ForgetFlags()
    ensures ForgetShape().Apart() && ForgetShape().Flags({}, {U})
  {
  }

  /** U, P, X and Y, only U installed: X is deleted while P still names it. */
  method ForgettingDangles() returns (c: MdCtx)
    ensures fresh(c) && c.Shape() && P in c.deps && X !in c.deps && LeadsTo(c.deps[P], X)
  {
    hide ForgetForward, ForgetInverse;
    ForgetStarts();
    ForgetModules();
    c := new MdCtx([U, P, X, Y], ForgetForward(), ForgetInverse(), {}, {U});
    ForgetfulRun(c, ForgetShape());
  }

  lemma ForgetModules()
    ensures ForgetForward().Keys == ForgetInverse().Keys && Enumerates([U, P, X, Y], ForgetForward().Keys)
  {
    ForgetLists();
    hide ForgetForward, ForgetInverse;
  }
}
