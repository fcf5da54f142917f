/** Runs of the removal that leave a module naming one that is gone, for all graphs of two shapes,
    replayed with the blocks of `md_remove_modules_internal`: they show that the order condition
    and the condition on extensions in `ModuleGraph.Sound` are not idle
    (src/module_dependencies.c:2484-2851). */
module RemovalRuns {
  import opened DepGraph
  import opened RemovalSpec
  import opened RemovalInvariant
  import opened RemovalSteps
  import opened ModuleGraph

  /** Every entry names another module of the graph. */
  ghost predicate Healthy(deps: Lists, inv: Lists) {
    && deps.Keys == inv.Keys
    && (forall i, e :: i in deps && e in deps[i] ==> e.dest in deps && e.dest != i)
    && (forall k, f :: k in inv && f in inv[k] ==> f.dest in deps && f.dest != k)
    && OrigsDistinct(deps) && OrigsDistinct(inv)
  }

  ghost predicate NobodyImports(deps: Lists, m: Mod) {
    forall i :: !Edge(deps, i, Import, m)
  }

  predicate Flagged(submodules: set<Mod>, installed: set<Mod>, x: Mod) {
    x in submodules || x !in installed
  }

  // ---------------------------------------------------------------- what a step leaves of a list

  lemma RemoveToAround(a: seq<Dep>, e: Dep, b: seq<Dep>, m: Mod)
    requires e.dest != m
    ensures RemoveTo(a + [e] + b, m) == RemoveTo(a, m) + [e] + RemoveTo(b, m)
  {
    assert RemoveTo([e], m) == [e];
    hide RemoveTo;
    RemoveToConcat(a + [e], b, m);
    RemoveToConcat(a, [e], m);
  }

  lemma DropOrigAround(a: seq<Dep>, e: Dep, b: seq<Dep>, m: Mod)
    requires !e.ty.Data?
    ensures DropOrig(a + [e] + b, m) == DropOrig(a, m) + [e] + DropOrig(b, m)
  {
    assert DropOrig([e], m) == [e];
    hide DropOrig;
    DropOrigConcat(a + [e], b, m);
    DropOrigConcat(a, [e], m);
  }

  lemma {:induction false} DropOrigLeads(l: seq<Dep>, m: Mod, f: Dep)
    requires f in DropOrig(l, m)
    requires forall e :: e in l && e.direct && e.ty.Data? ==> Distinct(e.origs)
    ensures Has(l, f.ty, f.dest) && (f.direct && f.ty.Data? ==> Distinct(f.origs))
  {
    var e := l[0];
    assert e in l;
    if e.direct && e.ty.Data? {
      RemoveFirstIsWithout(e.origs, m);
      WithoutKeepsDistinct(e.origs, {m});
    }
    if f in DropOrig(l[1..], m) {
      DropOrigLeads(l[1..], m, f);
    }
  }

  lemma HealthyFewer(d0: Lists, v0: Lists, deps: Lists, inv: Lists)
    requires Healthy(d0, v0) && deps.Keys == inv.Keys == d0.Keys && Fewer(d0, deps) && Fewer(v0, inv)
    requires OrigsDistinct(deps) && OrigsDistinct(inv)
    ensures Healthy(deps, inv)
  {
    hide OrigsDistinct;
    forall i, e: Dep | i in deps && e in deps[i] ensures e.dest in deps && e.dest != i {
      assert Edge(deps, i, e.ty, e.dest);
      assert Edge(d0, i, e.ty, e.dest);
    }
    forall k, f: Dep | k in inv && f in inv[k] ensures f.dest in deps && f.dest != k {
      assert Edge(inv, k, f.ty, f.dest);
      assert Edge(v0, k, f.ty, f.dest);
    }
  }

  lemma OrigsForgotten(before: Lists, imports: seq<Dep>, m: Mod, after: Lists)
    requires Forgotten(before, imports, m, after) && OrigsDistinct(before)
    ensures OrigsDistinct(after)
  {
    hide DropOrig, Has;
    forall i, e: Dep | i in after && e in after[i] && e.direct && e.ty.Data? ensures Distinct(e.origs) {
      if Has(imports, Import, i) { DropOrigLeads(before[i], m, e); }
    }
  }

  lemma HealthyDetached(d0: Lists, v0: Lists, m: Mod, cut: Lists, deps: Lists, inv: Lists)
    requires Healthy(d0, v0) && Detached(d0, v0, m, cut, deps, inv)
    ensures Healthy(deps, inv) && Fewer(d0, deps) && Fewer(v0, inv)
  {
    FewerDetached(d0, v0, m, cut, deps, inv);
    assert OrigsDistinct(cut) by { hide RemoveTo, Fewer, LeadsTo; }
    hide CutInto, Forgotten, OrigsDistinct, Fewer;
    OrigsForgotten(cut, DirectOnly(cut[m]), m, deps);
    OrigsForgotten(v0, DirectOnly(cut[m]), m, inv);
    HealthyFewer(d0, v0, deps, inv);
  }

  lemma HealthyKeys(deps: Lists, inv: Lists)
    requires Healthy(deps, inv)
    ensures deps.Keys == inv.Keys
  {
  }

  lemma HealthyDetachable(deps: Lists, inv: Lists, m: Mod)
    requires Healthy(deps, inv) && m in deps
    ensures Detachable(deps, inv, m)
  {
  }

  /** Detaching m leaves its own lists as they are. */
  lemma DetachedSelf(d0: Lists, v0: Lists, m: Mod, cut: Lists, deps: Lists, inv: Lists)
    requires Healthy(d0, v0) && Detached(d0, v0, m, cut, deps, inv)
    ensures cut[m] == d0[m] && deps[m] == d0[m] && inv[m] == v0[m]
  {
    hide RemoveTo, DropOrig, DirectOnly, OrigsDistinct;
    RemoveToNothing(d0[m], m);
  }

  /** A module that m does not import may lose entries for m in its list, no more. */
  lemma DetachedOther(d0: Lists, v0: Lists, m: Mod, cut: Lists, deps: Lists, inv: Lists, i: Mod)
    requires Healthy(d0, v0) && Detached(d0, v0, m, cut, deps, inv) && i in d0 && !Has(DirectOnly(d0[m]), Import, i)
    ensures inv[i] == v0[i]
    ensures deps[i] == if LeadsTo(DirectOnly(v0[m]), i) then RemoveTo(d0[i], m) else d0[i]
  {
    DetachedSelf(d0, v0, m, cut, deps, inv);
    hide RemoveTo, DropOrig, DirectOnly, OrigsDistinct;
  }

  /** An import of another module keeps its place among the direct entries. */
  lemma DetachedAround(d0: Lists, v0: Lists, m: Mod, cut: Lists, deps: Lists, inv: Lists,
                       y: Mod, a: seq<Dep>, e: Dep, b: seq<Dep>) returns (a': seq<Dep>, b': seq<Dep>)
    requires Healthy(d0, v0) && Detached(d0, v0, m, cut, deps, inv) && y in d0
    requires DirectOnly(d0[y]) == a + [e] + b && e.ty.Import? && e.dest != m
    ensures DirectOnly(deps[y]) == a' + [e] + b'
    ensures forall f :: f in a' ==> LeadsTo(a, f.dest)
  {
    hide RemoveTo, DropOrig, DirectOnly, OrigsDistinct;
    a', b' := a, b;
    if LeadsTo(DirectOnly(v0[m]), y) {
      DirectOnlyRemoveTo(d0[y], m);
      RemoveToAround(a, e, b, m);
      a', b' := RemoveTo(a, m), RemoveTo(b, m);
    }
    assert DirectOnly(cut[y]) == a' + [e] + b';
    if Has(DirectOnly(cut[m]), Import, y) {
      DirectOnlyDropOrig(cut[y], m);
      DropOrigAround(a', e, b', m);
      forall f | f in DropOrig(a', m) ensures LeadsTo(a', f.dest) {
        DroppedLeads(a', m, f);
      }
      a', b' := DropOrig(a', m), DropOrig(b', m);
    }
  }

  lemma {:induction false} DroppedLeads(l: seq<Dep>, m: Mod, f: Dep)
    requires f in DropOrig(l, m)
    ensures LeadsTo(l, f.dest)
  {
    if f in DropOrig(l[1..], m) { DroppedLeads(l[1..], m, f); }
    assert l[0] in l;
  }

  lemma UsersFewer(v0: Lists, inv: Lists, x: Mod, users: set<Mod>)
    requires Fewer(v0, inv) && x in v0 && x in inv && Unneeded(v0[x], users)
    ensures Unneeded(inv[x], users)
  {
    forall f: Dep | f in inv[x] ensures f.ty.Extension? || f.dest in users {
      assert Edge(inv, x, f.ty, f.dest);
      assert Edge(v0, x, f.ty, f.dest);
    }
  }

  lemma UnneededUnimported(deps: Lists, inv: Lists, m: Mod)
    requires Converse(deps, inv) && m in inv && Unneeded(inv[m], {})
    ensures NobodyImports(deps, m)
  {
    forall i ensures !Edge(deps, i, Import, m) {
      assert Edge(deps, i, Import, m) <==> Edge(inv, m, Import, i);
    }
  }

  lemma UnimportedStill(d0: Lists, deps: Lists, m: Mod)
    requires NobodyImports(d0, m) && Fewer(d0, deps)
    ensures NobodyImports(deps, m)
  {
    hide Edge;
  }

  // ---------------------------------------------------------------- the loop, past what stays

  lemma SomeDirect(l: seq<Dep>) returns (k: nat)
    requires DirectOnly(l) != []
    ensures k < |l| && l[k].direct
  {
    var e := DirectOnly(l)[0];
    assert e in DirectOnly(l);
    k :| 0 <= k < |l| && l[k] == e;
  }

  method FirstDirectEntry(l: seq<Dep>) returns (n: nat)
    requires DirectOnly(l) != []
    ensures n < |l| && l[n].direct && forall a :: 0 <= a < n ==> !l[a].direct
  {
    n := 0;
    ghost var k := SomeDirect(l);
    while !l[n].direct
      invariant 0 <= n <= k
      invariant forall a :: 0 <= a < n ==> !l[a].direct
      decreases k - n
    {
      n := n + 1;
    }
  }

  /** Nobody unlinks what stays: not removable by its flags, or needed by another module. */
  ghost predicate Stay(submodules: set<Mod>, installed: set<Mod>, inv: Lists, m: Mod, l: seq<Dep>) {
    forall e :: e in l ==> e.dest in inv && (!Flagged(submodules, installed, e.dest) || Needed(inv[e.dest], m))
  }

  ghost predicate Unlinked(v0: Lists, l: seq<Dep>, m: Mod, inv: Lists) {
    inv.Keys == v0.Keys && forall k :: k in v0 ==> inv[k] == if LeadsTo(l, k) then RemoveTo(v0[k], m) else v0[k]
  }

  lemma UnlinkedMore(v0: Lists, l: seq<Dep>, m: Mod, v: Lists, e: Dep)
    requires Unlinked(v0, l, m, v) && e.dest in v0
    ensures e.dest in v && Unlinked(v0, l + [e], m, v[e.dest := RemoveTo(v[e.dest], m)])
  {
    RemoveToNothing(RemoveTo(v0[e.dest], m), m);
    hide RemoveTo;
    forall k ensures LeadsTo(l + [e], k) <==> LeadsTo(l, k) || k == e.dest {
      if LeadsTo(l, k) {
        var f :| f in l && f.dest == k;
        assert f in l + [e];
      }
      assert e in l + [e];
    }
  }

  lemma StayAfter(submodules: set<Mod>, installed: set<Mod>, v: Lists, m: Mod, l: seq<Dep>, x: Mod)
    requires Stay(submodules, installed, v, m, l) && x in v
    ensures Stay(submodules, installed, v[x := RemoveTo(v[x], m)], m, l)
  {
    if Needed(v[x], m) { StillNeeded(v[x], m); }
    hide RemoveTo, Needed;
  }

  lemma HealthyUnlinked(d0: Lists, v0: Lists, deps: Lists, inv: Lists, m: Mod, n: nat, x: Mod)
    requires Healthy(d0, v0) && m in d0 && n < |d0[m]| && x in v0
    requires deps == d0[m := d0[m][..n] + d0[m][n + 1..]] && inv == v0[x := RemoveTo(v0[x], m)]
    ensures Healthy(deps, inv)
  {
    hide RemoveTo, Fewer;
    FewerUnlinked(d0, v0, m, n, x);
    assert deps.Keys == d0.Keys && inv.Keys == v0.Keys;
    forall i, e: Dep | i in deps && e in deps[i] ensures e in d0[i] {
    }
    forall k, f: Dep | k in inv && f in inv[k] ensures f in v0[k] {
    }
    HealthyFewer(d0, v0, deps, inv);
  }

  /** One dependency of m that stays is unlinked: the test of 2724 fails. */
  method PassOne(c: MdCtx, m: Mod, ghost e: Dep, ghost rest: seq<Dep>)
    requires c.Shape() && Healthy(c.deps, c.inv) && m in c.deps && DirectOnly(c.deps[m]) == [e] + rest
    requires e.dest in c.inv && (!Flagged(c.submodules, c.installed, e.dest) || Needed(c.inv[e.dest], m))
    modifies c`deps, c`inv
    ensures c.Shape() && Healthy(c.deps, c.inv) && m in c.deps && DirectOnly(c.deps[m]) == rest
    ensures c.deps == old(c.deps)[m := c.deps[m]]
    ensures c.inv == old(c.inv)[e.dest := RemoveTo(old(c.inv)[e.dest], m)]
    ensures Shrunk(old(c.deps), old(c.inv), c.deps, c.inv)
  {
    hide DirectOnly, Healthy, Fewer, Enumerates, RemoveTo, Needed, DirectPart, IsCut;
    var n := FirstDirectEntry(c.deps[m]);
    FirstDirect(c.deps[m], n);
    var x := c.deps[m][n].dest;
    var usage := UsageCount(c.inv[x], m);
    UsageIsNeed(c.inv[x], m, usage);
    assert !(usage == 0 && Flagged(c.submodules, c.installed, x));
    ghost var d0, v0 := c.deps, c.inv;
    c.Unlink(m, n);
    HealthyUnlinked(d0, v0, c.deps, c.inv, m, n, x);
    CutIsFewer(DirectPart(d0), DirectPart(v0), m, DirectPart(c.deps), DirectPart(c.inv));
    assert ([e] + rest)[1..] == rest;
  }

  /** The loop over the dependencies of m has passed the first n of `pass`. */
  ghost predicate Passing(submodules: set<Mod>, installed: set<Mod>, d0: Lists, v0: Lists, m: Mod, pass: seq<Dep>, rest: seq<Dep>,
                          n: nat, deps: Lists, inv: Lists) {
    && n <= |pass| && Healthy(deps, inv) && m in deps && DirectOnly(deps[m]) == pass[n..] + rest
    && Stay(submodules, installed, inv, m, pass) && deps == d0[m := deps[m]] && Unlinked(v0, pass[..n], m, inv)
    && Shrunk(d0, v0, deps, inv)
  }

  lemma PassingStart(submodules: set<Mod>, installed: set<Mod>, deps: Lists, inv: Lists, m: Mod, pass: seq<Dep>, rest: seq<Dep>)
    requires Healthy(deps, inv) && m in deps && DirectOnly(deps[m]) == pass + rest && Stay(submodules, installed, inv, m, pass)
    ensures Passing(submodules, installed, deps, inv, m, pass, rest, 0, deps, inv)
  {
    hide DirectOnly, Healthy, Stay;
    assert pass[0..] == pass;
  }

  lemma PassingNext(submodules: set<Mod>, installed: set<Mod>, d0: Lists, v0: Lists, m: Mod, pass: seq<Dep>, rest: seq<Dep>,
                    n: nat, d: Lists, v: Lists, deps: Lists, inv: Lists)
    requires Passing(submodules, installed, d0, v0, m, pass, rest, n, d, v) && n < |pass| && pass[n].dest in v
    requires Healthy(deps, inv) && m in deps && DirectOnly(deps[m]) == pass[n + 1..] + rest && deps == d[m := deps[m]]
    requires inv == v[pass[n].dest := RemoveTo(v[pass[n].dest], m)] && Shrunk(d, v, deps, inv)
    ensures Passing(submodules, installed, d0, v0, m, pass, rest, n + 1, deps, inv)
  {
    hide DirectOnly, Healthy, Stay, Unlinked, Shrunk, RemoveTo;
    UnlinkedKeys(v0, pass[..n], m, v);
    UnlinkedMore(v0, pass[..n], m, v, pass[n]);
    StayAfter(submodules, installed, v, m, pass, pass[n].dest);
    ShrunkTwice(d0, v0, d, v, deps, inv);
    assert pass[..n + 1] == pass[..n] + [pass[n]];
    assert deps == d0[m := deps[m]];
  }

  lemma PassingAt(submodules: set<Mod>, installed: set<Mod>, d0: Lists, v0: Lists, m: Mod, pass: seq<Dep>, rest: seq<Dep>,
                  n: nat, deps: Lists, inv: Lists)
    requires Passing(submodules, installed, d0, v0, m, pass, rest, n, deps, inv)
    ensures m in deps && n <= |pass| && Healthy(deps, inv) && deps == d0[m := deps[m]] && Shrunk(d0, v0, deps, inv)
    ensures DirectOnly(deps[m]) == pass[n..] + rest
    ensures n < |pass| ==> DirectOnly(deps[m]) == [pass[n]] + (pass[n + 1..] + rest) && pass[n].dest in inv
    ensures n < |pass| ==> !Flagged(submodules, installed, pass[n].dest) || Needed(inv[pass[n].dest], m)
    ensures n == |pass| ==> DirectOnly(deps[m]) == rest && Unlinked(v0, pass, m, inv)
  {
    hide DirectOnly, Healthy, Stay, Unlinked, Shrunk, Flagged, Needed;
    if n < |pass| {
      StayAt(submodules, installed, inv, m, pass, pass[n]);
      assert pass[n..] + rest == [pass[n]] + (pass[n + 1..] + rest);
    } else {
      assert pass[..n] == pass && pass[n..] + rest == rest;
    }
  }

  /** The loop over the dependencies of m up to the first one that leads to `stop`, or all of it:
      modules that stay are unlinked (2706-2758). */
  method Advance(c: MdCtx, m: Mod, stop: Option<Mod>, ghost pass: seq<Dep>, ghost rest: seq<Dep>)
    requires c.Shape() && Healthy(c.deps, c.inv) && m in c.deps && DirectOnly(c.deps[m]) == pass + rest
    requires stop.None? ==> rest == []
    requires stop.Some? ==> rest != [] && rest[0].dest == stop.value && forall e :: e in pass ==> e.dest != stop.value
    requires Stay(c.submodules, c.installed, c.inv, m, pass)
    modifies c`deps, c`inv
    ensures c.Shape() && Healthy(c.deps, c.inv) && m in c.deps && DirectOnly(c.deps[m]) == rest
    ensures c.deps == old(c.deps)[m := c.deps[m]]
    ensures Unlinked(old(c.inv), pass, m, c.inv) && Shrunk(old(c.deps), old(c.inv), c.deps, c.inv)
  {
    hide DirectOnly, Healthy, Stay, Unlinked, Shrunk, Passing, Enumerates, RemoveTo, Needed, Flagged;
    ghost var d0, v0 := c.deps, c.inv;
    PassingStart(c.submodules, c.installed, d0, v0, m, pass, rest);
    ghost var n := 0;
    while DirectOnly(c.deps[m]) != [] && (stop.None? || DirectOnly(c.deps[m])[0].dest != stop.value)
      invariant 0 <= n <= |pass| && c.Shape() && m in c.deps && DirectOnly(c.deps[m]) == pass[n..] + rest
      invariant Passing(c.submodules, c.installed, d0, v0, m, pass, rest, n, c.deps, c.inv)
      decreases |pass| - n
    {
      ghost var d, v := c.deps, c.inv;
      PassingAt(c.submodules, c.installed, d0, v0, m, pass, rest, n, d, v);
      PassOne(c, m, pass[n], pass[n + 1..] + rest);
      PassingNext(c.submodules, c.installed, d0, v0, m, pass, rest, n, d, v, c.deps, c.inv);
      n := n + 1;
    }
    PassingAt(c.submodules, c.installed, d0, v0, m, pass, rest, n, c.deps, c.inv);
  }

  lemma StayAt(submodules: set<Mod>, installed: set<Mod>, inv: Lists, m: Mod, l: seq<Dep>, e: Dep)
    requires Stay(submodules, installed, inv, m, l) && e in l
    ensures e.dest in inv && (!Flagged(submodules, installed, e.dest) || Needed(inv[e.dest], m))
  {
  }

  lemma UnlinkedKeys(v0: Lists, l: seq<Dep>, m: Mod, v: Lists)
    requires Unlinked(v0, l, m, v)
    ensures v.Keys == v0.Keys
  {
  }

  // ---------------------------------------------------------------- split dependencies

  /** The direct dependencies of m lead to x, then to y, then to x again, with modules that are
      never removed implicitly in between; those of y lead to x before any other removable module.
      Nobody needs m, only m needs y, only m and y need x; x and y may be removed implicitly. */
  datatype Crossing = Crossing(m: Mod, x: Mod, y: Mod, before: seq<Dep>, toY: Dep, after: seq<Dep>,
                               yBefore: seq<Dep>, toX: Dep, yAfter: seq<Dep>) {
    ghost predicate Dependencies(deps: Lists) {
      && m in deps && x in deps && y in deps && m != x && m != y && x != y
      && DirectOnly(deps[m]) == before + [toY] + after && toY.dest == y && LeadsTo(before, x) && LeadsTo(after, x)
      && DirectOnly(deps[y]) == yBefore + [toX] + yAfter && toX.dest == x && toX.ty.Import?
    }

    ghost predicate Flags(submodules: set<Mod>, installed: set<Mod>) {
      && Flagged(submodules, installed, x) && Flagged(submodules, installed, y)
      && (forall e :: e in before ==> e.dest == x || !Flagged(submodules, installed, e.dest))
      && (forall e :: e in yBefore ==> !Flagged(submodules, installed, e.dest))
    }

    ghost predicate Start(deps: Lists, inv: Lists, submodules: set<Mod>, installed: set<Mod>) {
      && Healthy(deps, inv) && Converse(deps, inv) && Dependencies(deps) && Flags(submodules, installed)
      && Unneeded(inv[m], {}) && Unneeded(inv[x], {m, y}) && Unneeded(inv[y], {m})
    }

    /** m is detached. */
    ghost predicate Opened(deps: Lists, inv: Lists, submodules: set<Mod>, installed: set<Mod>) {
      && Healthy(deps, inv) && Dependencies(deps) && Flags(submodules, installed) && NobodyImports(deps, m)
      && Unneeded(inv[x], {m, y}) && Unneeded(inv[y], {m}) && Edge(inv, x, Import, y)
    }

    /** m has come to y. */
    ghost predicate AtY(deps: Lists, inv: Lists, submodules: set<Mod>, installed: set<Mod>) {
      && Healthy(deps, inv) && m in deps && x in deps && y in deps && m != x && m != y && x != y
      && LeadsTo(deps[m], x) && DirectOnly(deps[y]) == yBefore + [toX] + yAfter && toX.dest == x && toX.ty.Import?
      && Flags(submodules, installed) && NobodyImports(deps, m)
      && !LeadsTo(inv[x], m) && Unneeded(inv[x], {y}) && Unneeded(inv[y], {m})
    }

    /** m names x, x does not lead back, and only y needs x. */
    ghost predicate Crossed(deps: Lists, inv: Lists) {
      && Healthy(deps, inv) && m in deps && x in deps && m != x && LeadsTo(deps[m], x) && NobodyImports(deps, m)
      && !LeadsTo(inv[x], m) && Unneeded(inv[x], {y})
    }
  }

  lemma OpenedStart(s: Crossing, d0: Lists, v0: Lists, submodules: set<Mod>, installed: set<Mod>, cut: Lists, deps: Lists, inv: Lists)
    returns (r: Crossing)
    requires s.Start(d0, v0, submodules, installed) && Detached(d0, v0, s.m, cut, deps, inv)
    ensures r.Opened(deps, inv, submodules, installed)
    ensures r.m == s.m && r.x == s.x && r.y == s.y && r.before == s.before && r.toY == s.toY && r.after == s.after && r.toX == s.toX
    ensures Fewer(d0, deps)
  {
    hide Detached, DirectOnly, Fewer, Healthy, Unneeded, NobodyImports, Converse;
    HealthyDetached(d0, v0, s.m, cut, deps, inv);
    DetachedSelf(d0, v0, s.m, cut, deps, inv);
    SameKeys(d0, v0, s.m, cut, deps, inv);
    assert d0.Keys == v0.Keys by { HealthyKeys(d0, v0); }
    var a, b := DetachedAround(d0, v0, s.m, cut, deps, inv, s.y, s.yBefore, s.toX, s.yAfter);
    UnneededUnimported(d0, v0, s.m);
    UnimportedStill(d0, deps, s.m);
    UsersFewer(v0, inv, s.x, {s.m, s.y});
    UsersFewer(v0, inv, s.y, {s.m});
    ImportFound(s, d0, v0, submodules, installed, cut, deps, inv);
    r := s.(yBefore := a, yAfter := b);
  }

  lemma SameKeys(d0: Lists, v0: Lists, m: Mod, cut: Lists, deps: Lists, inv: Lists)
    requires Detached(d0, v0, m, cut, deps, inv)
    ensures deps.Keys == d0.Keys && inv.Keys == v0.Keys && m in deps
  {
  }

  lemma ImportFound(s: Crossing, d0: Lists, v0: Lists, submodules: set<Mod>, installed: set<Mod>, cut: Lists, deps: Lists, inv: Lists)
    requires s.Start(d0, v0, submodules, installed) && Detached(d0, v0, s.m, cut, deps, inv)
    ensures Edge(inv, s.x, Import, s.y)
  {
    hide CutInto, Healthy, Unneeded, DropOrig;
    var l := DirectOnly(d0[s.y]);
    assert l[|s.yBefore|] == s.toX && s.toX in l;
    assert Edge(d0, s.y, Import, s.x);
    assert Edge(v0, s.x, Import, s.y);
    var f :| f in v0[s.x] && f.ty == Import && f.dest == s.y;
    KeptByDrop(v0[s.x], s.m, f);
  }

  lemma LiveEntries(deps: Lists, inv: Lists, m: Mod, l: seq<Dep>)
    requires Healthy(deps, inv) && m in deps && DirectOnly(deps[m]) == l
    ensures forall e :: e in l ==> e in deps[m] && e.dest in inv && e.dest != m
  {
  }

  /** x is needed by y while m passes its first entries. */
  lemma PassingX(s: Crossing, deps: Lists, inv: Lists, submodules: set<Mod>, installed: set<Mod>)
    requires s.Opened(deps, inv, submodules, installed)
    ensures Stay(submodules, installed, inv, s.m, s.before) && DirectOnly(deps[s.m]) == s.before + ([s.toY] + s.after)
  {
    hide Healthy, DirectOnly, NobodyImports, Unneeded, Flagged;
    LiveEntries(deps, inv, s.m, s.before + [s.toY] + s.after);
    var f :| f in inv[s.x] && f.ty == Import && f.dest == s.y;
    assert Needed(inv[s.x], s.m);
    forall e | e in s.before
      ensures e.dest in inv && (!Flagged(submodules, installed, e.dest) || Needed(inv[e.dest], s.m))
    {
      assert e in s.before + [s.toY] + s.after;
    }
    assert s.before + [s.toY] + s.after == s.before + ([s.toY] + s.after);
  }

  lemma ArrivedAtY(s: Crossing, d: Lists, v: Lists, submodules: set<Mod>, installed: set<Mod>, deps: Lists, inv: Lists)
    requires s.Opened(d, v, submodules, installed)
    requires Healthy(deps, inv) && s.m in deps && DirectOnly(deps[s.m]) == [s.toY] + s.after && deps == d[s.m := deps[s.m]]
    requires Unlinked(v, s.before, s.m, inv) && Fewer(d, deps) && Fewer(v, inv)
    ensures s.AtY(deps, inv, submodules, installed)
  {
    assert s.x in inv && inv[s.x] == RemoveTo(v[s.x], s.m) && inv[s.y] == v[s.y] by { hide RemoveTo, DirectOnly, Unneeded, NobodyImports, Fewer; }
    hide Unlinked, RemoveTo, DirectOnly, NobodyImports, Fewer;
    UnimportedStill(d, deps, s.m);
    NamedStill(deps, s.m, s.toY, s.after, s.x);
  }

  lemma NamedStill(deps: Lists, m: Mod, e: Dep, l: seq<Dep>, x: Mod)
    requires m in deps && DirectOnly(deps[m]) == [e] + l && LeadsTo(l, x)
    ensures LeadsTo(deps[m], x)
  {
    hide DirectOnly;
    var f :| f in l && f.dest == x;
    assert f in [e] + l;
  }

  /** Detaching a module other than x that does not import m leaves m naming x. */
  lemma StillCrossed(s: Crossing, d: Lists, v: Lists, z: Mod, cut: Lists, deps: Lists, inv: Lists)
    requires s.Crossed(d, v) && Detached(d, v, z, cut, deps, inv) && z != s.m
    ensures s.Crossed(deps, inv)
  {
    hide Detached, Healthy, Unneeded, Fewer;
    HealthyDetached(d, v, z, cut, deps, inv);
    SameKeys(d, v, z, cut, deps, inv);
    HealthyKeys(d, v);
    UnimportedStill(d, deps, s.m);
    UsersFewer(v, inv, s.x, {s.y});
    LeadsFewer(v, inv, s.x, s.m);
    assert z in d && !Has(DirectOnly(d[z]), Import, s.m) by { NotDirectly(d, z, s.m); }
    DetachedOther(d, v, z, cut, deps, inv, s.m);
    if z == s.x {
      assert deps[s.m] == d[s.m] by { hide NobodyImports; SourcesDirect(v[s.x], s.m); }
    } else {
      var e :| e in d[s.m] && e.dest == s.x;
      assert e in deps[s.m];
    }
  }

  lemma NotDirectly(d: Lists, z: Mod, m: Mod)
    requires NobodyImports(d, m)
    ensures z in d ==> !Has(DirectOnly(d[z]), Import, m)
  {
    if z in d { assert !Edge(d, z, Import, m); }
  }

  lemma SourcesDirect(l: seq<Dep>, m: Mod)
    requires !LeadsTo(l, m)
    ensures !LeadsTo(DirectOnly(l), m)
  {
  }

  lemma LeadsFewer(v0: Lists, inv: Lists, x: Mod, m: Mod)
    requires Fewer(v0, inv) && x in v0 && x in inv && !LeadsTo(v0[x], m)
    ensures !LeadsTo(inv[x], m)
  {
    forall f: Dep | f in inv[x] ensures f.dest != m {
      assert Edge(inv, x, f.ty, f.dest);
      assert Edge(v0, x, f.ty, f.dest);
    }
  }

  /** y is detached, and its dependencies that stay are passed. */
  lemma PassingY(s: Crossing, deps: Lists, inv: Lists, submodules: set<Mod>, installed: set<Mod>)
    requires Healthy(deps, inv) && s.y in deps && DirectOnly(deps[s.y]) == s.yBefore + [s.toX] + s.yAfter && s.Flags(submodules, installed)
    ensures Stay(submodules, installed, inv, s.y, s.yBefore) && DirectOnly(deps[s.y]) == s.yBefore + ([s.toX] + s.yAfter)
  {
    hide Healthy, DirectOnly, Flagged, Needed;
    LiveEntries(deps, inv, s.y, s.yBefore + [s.toX] + s.yAfter);
    forall e | e in s.yBefore ensures e.dest in inv && !Flagged(submodules, installed, e.dest) {
      assert e in s.yBefore + [s.toX] + s.yAfter;
    }
    assert s.yBefore + [s.toX] + s.yAfter == s.yBefore + ([s.toX] + s.yAfter);
  }

  lemma CrossedPast(s: Crossing, d: Lists, v: Lists, submodules: set<Mod>, installed: set<Mod>, deps: Lists, inv: Lists)
    requires s.Crossed(d, v) && s.Flags(submodules, installed) && s.m != s.y && s.x != s.y
    requires Healthy(deps, inv) && s.y in deps && deps == d[s.y := deps[s.y]]
    requires Unlinked(v, s.yBefore, s.y, inv) && Fewer(d, deps)
    ensures s.Crossed(deps, inv)
  {
    assert s.x in inv && inv[s.x] == v[s.x] by { hide RemoveTo, NobodyImports, Unneeded, Fewer; }
    hide Unlinked, RemoveTo, NobodyImports, Unneeded, Fewer;
    UnimportedStill(d, deps, s.m);
  }

  lemma UsersAreNeed(l: seq<Dep>, m: Mod)
    requires Unneeded(l, {m})
    ensures !Needed(l, m)
  {
  }

  /** The removal of m up to the point where x has been detached to go: m is refused by nobody,
      passes x, removes y, and y removes x. */
  method SplitRun(c: MdCtx, s: Crossing)
    requires c.Shape() && s.Start(c.deps, c.inv, c.submodules, c.installed)
    modifies c`deps, c`inv
    ensures c.Shape() && s.m in c.deps && s.x in c.deps && s.m != s.x
    // x is going and m names it, though x does not lead back to m
    ensures LeadsTo(c.deps[s.m], s.x) && !LeadsTo(c.inv[s.x], s.m)
    ensures old(c.deps)[s.x] == [] ==> c.deps[s.x] == []
  {
    hide Detached, DirectOnly, Healthy, Unneeded, NobodyImports, Fewer, Enumerates, Needed, LeadsTo, Converse, Flagged;
    HealthyKeys(c.deps, c.inv);
    var ok := OnlyExtensions(c.inv[s.m]);
    assert ok;
    ghost var d0, v0 := c.deps, c.inv;
    HealthyDetachable(d0, v0, s.m);
    ghost var cut := c.Detach(s.m);
    ghost var r := OpenedStart(s, d0, v0, c.submodules, c.installed, cut, c.deps, c.inv);
    SplitRunM(c, s, r, d0);
    NothingStill(d0, c.deps, s.x);
  }

  lemma NothingStill(d0: Lists, deps: Lists, x: Mod)
    requires Fewer(d0, deps) && x in d0 && x in deps
    ensures d0[x] == [] ==> deps[x] == []
  {
    if deps[x] != [] {
      var e := deps[x][0];
      assert e in deps[x] && Edge(deps, x, e.ty, e.dest);
      assert Edge(d0, x, e.ty, e.dest);
    }
  }

  /** m passes x, which y needs, and comes to y. */
  method SplitRunM(c: MdCtx, s: Crossing, ghost r: Crossing, ghost d0: Lists)
    requires c.Shape() && r.Opened(c.deps, c.inv, c.submodules, c.installed)
    requires r.m == s.m && r.x == s.x && r.y == s.y && Fewer(d0, c.deps)
    modifies c`deps, c`inv
    ensures c.Shape() && s.m in c.deps && s.x in c.deps
    ensures LeadsTo(c.deps[s.m], s.x) && !LeadsTo(c.inv[s.x], s.m) && Fewer(d0, c.deps)
  {
    hide DirectOnly, Healthy, Unneeded, NobodyImports, Fewer, Enumerates, Unlinked, Stay, Needed, LeadsTo;
    ghost var d1, v1 := c.deps, c.inv;
    PassingX(r, d1, v1, c.submodules, c.installed);
    Advance(c, s.m, Some(s.y), r.before, [r.toY] + r.after);
    ArrivedAtY(r, d1, v1, c.submodules, c.installed, c.deps, c.inv);
    FewerTwice(d0, d1, c.deps);
    SplitRunY(c, s, r, d0);
  }

  /** m has come to y, which only m needs: it goes, and takes x with it. */
  method SplitRunY(c: MdCtx, s: Crossing, ghost r: Crossing, ghost d0: Lists)
    requires c.Shape() && r.AtY(c.deps, c.inv, c.submodules, c.installed)
    requires r.m == s.m && r.x == s.x && r.y == s.y && Fewer(d0, c.deps)
    modifies c`deps, c`inv
    ensures c.Shape() && s.m in c.deps && s.x in c.deps
    ensures LeadsTo(c.deps[s.m], s.x) && !LeadsTo(c.inv[s.x], s.m) && Fewer(d0, c.deps)
  {
    hide Detached, DirectOnly, Healthy, NobodyImports, Fewer, Enumerates, Unlinked, Stay, Needed, LeadsTo, Unneeded;
    HealthyKeys(c.deps, c.inv);
    var usage := UsageCount(c.inv[s.y], s.m);
    UsageIsNeed(c.inv[s.y], s.m, usage);
    UsersAreNeed(c.inv[s.y], s.m);
    assert usage == 0 && Flagged(c.submodules, c.installed, s.y);
    ghost var d1, v1 := c.deps, c.inv;
    HealthyDetachable(d1, v1, s.y);
    ghost var cut := c.Detach(s.y);
    DetachedSelf(d1, v1, s.y, cut, c.deps, c.inv);
    SameKeys(d1, v1, s.y, cut, c.deps, c.inv);
    StillCrossed(r, d1, v1, s.y, cut, c.deps, c.inv);
    HealthyDetached(d1, v1, s.y, cut, c.deps, c.inv);
    FewerTwice(d0, d1, c.deps);
    ghost var d2, v2 := c.deps, c.inv;
    PassingY(r, d2, v2, c.submodules, c.installed);
    Advance(c, s.y, Some(s.x), r.yBefore, [r.toX] + r.yAfter);
    CrossedPast(r, d2, v2, c.submodules, c.installed, c.deps, c.inv);
    FewerTwice(d0, d2, c.deps);
    SplitRunX(c, s, r, d0);
  }

  /** y has come to x, which only y needs: it goes. */
  method SplitRunX(c: MdCtx, s: Crossing, ghost r: Crossing, ghost d0: Lists)
    requires c.Shape() && r.Crossed(c.deps, c.inv) && Flagged(c.submodules, c.installed, s.x)
    requires r.m == s.m && r.x == s.x && r.y == s.y && Fewer(d0, c.deps)
    modifies c`deps, c`inv
    ensures c.Shape() && s.m in c.deps && s.x in c.deps
    ensures LeadsTo(c.deps[s.m], s.x) && !LeadsTo(c.inv[s.x], s.m) && Fewer(d0, c.deps)
  {
    hide Detached, DirectOnly, Healthy, NobodyImports, Fewer, Enumerates, Needed, LeadsTo, Unneeded;
    HealthyKeys(c.deps, c.inv);
    var usage := UsageCount(c.inv[s.x], s.y);
    UsageIsNeed(c.inv[s.x], s.y, usage);
    UsersAreNeed(c.inv[s.x], s.y);
    assert usage == 0 && Flagged(c.submodules, c.installed, s.x);
    ghost var d1, v1 := c.deps, c.inv;
    HealthyDetachable(d1, v1, s.x);
    ghost var cut := c.Detach(s.x);
    StillCrossed(r, d1, v1, s.x, cut, c.deps, c.inv);
    HealthyDetached(d1, v1, s.x, cut, c.deps, c.inv);
    SameKeys(d1, v1, s.x, cut, c.deps, c.inv);
    FewerTwice(d0, d1, c.deps);
  }

  /** When x has no dependencies it is deleted next, with m still naming it. */
  method SplitRunDangles(c: MdCtx, s: Crossing)
    requires c.Shape() && s.Start(c.deps, c.inv, c.submodules, c.installed) && c.deps[s.x] == []
    modifies c`modules, c`deps, c`inv
    ensures c.Shape() && s.m in c.deps && s.x !in c.deps && LeadsTo(c.deps[s.m], s.x)
  {
    hide Enumerates, LeadsTo;
    SplitRun(c, s);
    assert c.deps[s.x] == [];
    c.Delete(s.x);
  }

  // ---------------------------------------------------------------- extensions both ways

  /** m and a extend each other's reach: a has an extension edge to m, and m one to d.  Nobody
      needs m, only m needs a, and a may be removed implicitly; what m lists before a, and what a
      lists besides m, is never removed implicitly. */
  datatype Extending = Extending(m: Mod, a: Mod, d: Mod, before: seq<Dep>, toA: Dep, after: seq<Dep>) {
    ghost predicate Start(deps: Lists, inv: Lists, submodules: set<Mod>, installed: set<Mod>) {
      && Healthy(deps, inv) && Converse(deps, inv) && m in deps && Unneeded(inv[m], {})
      && Dependencies(deps, inv, submodules, installed)
      && (forall e :: e in DirectOnly(deps[a]) ==> e.dest == m || !Flagged(submodules, installed, e.dest))
    }

    ghost predicate Dependencies(deps: Lists, inv: Lists, submodules: set<Mod>, installed: set<Mod>) {
      && m in deps && a in deps && m in inv && a in inv && m != a && d != a && d != m
      && DirectOnly(deps[m]) == before + [toA] + after && toA.dest == a
      && Has(after, Extension, d) && Has(DirectOnly(inv[m]), Extension, a)
      && Unneeded(inv[a], {m}) && Flagged(submodules, installed, a)
      && (forall e :: e in before ==> !Flagged(submodules, installed, e.dest))
    }

    /** m is between a and d, and a lists only modules that stay. */
    ghost predicate Facing(deps: Lists, inv: Lists, submodules: set<Mod>, installed: set<Mod>) {
      && Healthy(deps, inv) && m in deps && a in deps && m in inv && a in inv && m != a && d != a && d != m
      && Has(DirectOnly(deps[m]), Extension, d) && Has(DirectOnly(inv[m]), Extension, a) && NobodyImports(deps, m)
      && Unneeded(inv[a], {m}) && Flagged(submodules, installed, a)
      && (forall e :: e in DirectOnly(deps[a]) ==> e.dest != m && !Flagged(submodules, installed, e.dest))
    }
  }

  /** The direct entries of a module that m's inverted list names, once m is detached. */
  lemma DetachedSource(d0: Lists, v0: Lists, m: Mod, cut: Lists, deps: Lists, inv: Lists, a: Mod, e: Dep)
    requires Healthy(d0, v0) && Detached(d0, v0, m, cut, deps, inv) && a in d0
    requires LeadsTo(DirectOnly(v0[m]), a) && e in DirectOnly(deps[a])
    ensures e.dest != m && LeadsTo(DirectOnly(d0[a]), e.dest)
  {
    hide RemoveTo, DropOrig, DirectOnly, OrigsDistinct, Healthy;
    DirectOnlyRemoveTo(d0[a], m);
    if Has(DirectOnly(cut[m]), Import, a) {
      DirectOnlyDropOrig(cut[a], m);
      DroppedLeads(DirectOnly(cut[a]), m, e);
    }
  }

  lemma FacingAfterDetach(s: Extending, d0: Lists, v0: Lists, submodules: set<Mod>, installed: set<Mod>, cut: Lists, deps: Lists, inv: Lists)
    requires s.Start(d0, v0, submodules, installed) && Detached(d0, v0, s.m, cut, deps, inv)
    ensures s.Facing(deps, inv, submodules, installed) && s.Dependencies(deps, inv, submodules, installed)
  {
    hide Detached, DirectOnly, Fewer, Healthy, Unneeded, NobodyImports, Converse, Flagged;
    HealthyKeys(d0, v0);
    HealthyDetached(d0, v0, s.m, cut, deps, inv);
    DetachedSelf(d0, v0, s.m, cut, deps, inv);
    SameKeys(d0, v0, s.m, cut, deps, inv);
    UnneededUnimported(d0, v0, s.m);
    UnimportedStill(d0, deps, s.m);
    UsersFewer(v0, inv, s.a, {s.m});
    forall e | e in DirectOnly(deps[s.a]) ensures e.dest != s.m && !Flagged(submodules, installed, e.dest) {
      DetachedSource(d0, v0, s.m, cut, deps, inv, s.a, e);
    }
    HasInLast(s.before + [s.toA], s.after, s.d);
  }

  lemma HasInLast(a: seq<Dep>, b: seq<Dep>, d: Mod)
    requires Has(b, Extension, d)
    ensures Has(a + b, Extension, d)
  {
    var e :| e in b && e.ty == Extension && e.dest == d;
    assert e in a + b;
  }

  lemma StayUnflagged(submodules: set<Mod>, installed: set<Mod>, deps: Lists, inv: Lists, m: Mod, l: seq<Dep>)
    requires Healthy(deps, inv) && m in deps && forall e :: e in l ==> e in deps[m] && !Flagged(submodules, installed, e.dest)
    ensures Stay(submodules, installed, inv, m, l)
  {
    hide Flagged, Needed, OrigsDistinct;
  }

  lemma FacingAtA(s: Extending, d: Lists, v: Lists, submodules: set<Mod>, installed: set<Mod>, deps: Lists, inv: Lists)
    requires s.Facing(d, v, submodules, installed) && s.Dependencies(d, v, submodules, installed)
    requires Healthy(deps, inv) && s.m in deps && DirectOnly(deps[s.m]) == [s.toA] + s.after && deps == d[s.m := deps[s.m]]
    requires Unlinked(v, s.before, s.m, inv) && Fewer(d, deps)
    ensures s.Facing(deps, inv, submodules, installed)
  {
    hide Unlinked, DirectOnly, Unneeded, NobodyImports, Fewer, Healthy, Flagged, Stay;
    PassingA(s, d, v, submodules, installed);
    NotPassed(v, s.before, s.m, inv, s.a);
    NotPassed(v, s.before, s.m, inv, s.m);
    UnimportedStill(d, deps, s.m);
    HasInLast([s.toA], s.after, s.d);
  }

  lemma KeepsExtension(l: seq<Dep>, a: Mod, d: Mod)
    requires Has(DirectOnly(l), Extension, d) && d != a
    ensures Has(DirectOnly(RemoveTo(l, a)), Extension, d)
  {
    hide RemoveTo, DirectOnly;
    var e :| e in DirectOnly(l) && e.ty == Extension && e.dest == d;
    assert e in DirectOnly(RemoveTo(l, a));
  }

  lemma FacingWithoutA(s: Extending, d: Lists, v: Lists, submodules: set<Mod>, installed: set<Mod>, cut: Lists, deps: Lists, inv: Lists)
    requires s.Facing(d, v, submodules, installed) && Detached(d, v, s.a, cut, deps, inv)
    ensures s.Facing(deps, inv, submodules, installed)
  {
    hide Detached, DirectOnly, Fewer, Healthy, Unneeded, Flagged;
    HealthyDetached(d, v, s.a, cut, deps, inv);
    DetachedSelf(d, v, s.a, cut, deps, inv);
    SameKeys(d, v, s.a, cut, deps, inv);
    NotDirectly(d, s.a, s.m);
    DetachedOther(d, v, s.a, cut, deps, inv, s.m);
    KeepsExtension(d[s.m], s.a, s.d);
    UnimportedStill(d, deps, s.m);
    UsersFewer(v, inv, s.a, {s.m});
  }

  /** With m's extension edges on both sides in place and the module at the end of one of them gone,
      no set of pending modules makes the closure safe: at m it links the two (1452-1453, 2845-2851). */
  lemma ClosureTouchesGone(deps: Lists, inv: Lists, m: Mod, a: Mod, d: Mod, pending: set<Mod>)
    requires Meets(deps, inv, m, a, Extension, d) && a !in deps
    ensures !Safe(deps, inv, pending)
  {
    var f :| f in inv[m] && f.ty == Extension && f.dest == a;
    var e :| e in deps[m] && e.ty == Extension && e.dest == d;
    assert m in pending ==> e.ty.Extension?;
  }

  /** The removal of m up to the closure that ends the removal of a. */
  method ExtensionRun(c: MdCtx, s: Extending)
    requires c.Shape() && s.Start(c.deps, c.inv, c.submodules, c.installed)
    modifies c`modules, c`deps, c`inv
    ensures c.Shape() && s.m in c.deps && s.a !in c.deps
    ensures Meets(DirectPart(c.deps), DirectPart(c.inv), s.m, s.a, Extension, s.d)
    ensures forall pending :: !Safe(DirectPart(c.deps), DirectPart(c.inv), pending)
  {
    hide Detached, DirectOnly, Healthy, Unneeded, NobodyImports, Fewer, Enumerates, Needed, Converse, Flagged, Safe, Has;
    HealthyKeys(c.deps, c.inv);
    var ok := OnlyExtensions(c.inv[s.m]);
    assert ok;
    ghost var d0, v0 := c.deps, c.inv;
    HealthyDetachable(d0, v0, s.m);
    ghost var cut := c.Detach(s.m);
    FacingAfterDetach(s, d0, v0, c.submodules, c.installed, cut, c.deps, c.inv);
    ExtensionRunM(c, s);
    c.Delete(s.a);
    assert Meets(DirectPart(c.deps), DirectPart(c.inv), s.m, s.a, Extension, s.d);
    forall pending ensures !Safe(DirectPart(c.deps), DirectPart(c.inv), pending) {
      ClosureTouchesGone(DirectPart(c.deps), DirectPart(c.inv), s.m, s.a, s.d, pending);
    }
  }

  /** m comes to a, which only m needs; a is detached and its dependencies are unlinked. */
  method ExtensionRunM(c: MdCtx, s: Extending)
    requires c.Shape() && s.Facing(c.deps, c.inv, c.submodules, c.installed) && s.Dependencies(c.deps, c.inv, c.submodules, c.installed)
    modifies c`deps, c`inv
    ensures c.Shape() && s.m in c.deps && s.a in c.deps && DirectOnly(c.deps[s.a]) == []
    ensures Has(DirectOnly(c.deps[s.m]), Extension, s.d) && Has(DirectOnly(c.inv[s.m]), Extension, s.a)
  {
    hide DirectOnly, Healthy, Unneeded, NobodyImports, Fewer, Enumerates, Unlinked, Stay, Needed, Flagged, Has;
    ghost var d1, v1 := c.deps, c.inv;
    PassingA(s, d1, v1, c.submodules, c.installed);
    Advance(c, s.m, Some(s.a), s.before, [s.toA] + s.after);
    FacingAtA(s, d1, v1, c.submodules, c.installed, c.deps, c.inv);
    ExtensionRunA(c, s);
  }

  lemma PassingA(s: Extending, deps: Lists, inv: Lists, submodules: set<Mod>, installed: set<Mod>)
    requires Healthy(deps, inv) && s.Dependencies(deps, inv, submodules, installed)
    ensures Stay(submodules, installed, inv, s.m, s.before) && DirectOnly(deps[s.m]) == s.before + ([s.toA] + s.after)
    ensures forall e :: e in s.before ==> e.dest != s.a && e.dest != s.m
  {
    hide Healthy, DirectOnly, Unneeded, Flagged;
    LiveEntries(deps, inv, s.m, s.before + [s.toA] + s.after);
    forall e | e in s.before ensures e in deps[s.m] && e.dest != s.m {
      assert e in s.before + [s.toA] + s.after;
    }
    StayUnflagged(submodules, installed, deps, inv, s.m, s.before);
    assert s.before + [s.toA] + s.after == s.before + ([s.toA] + s.after);
  }

  method ExtensionRunA(c: MdCtx, s: Extending)
    requires c.Shape() && s.Facing(c.deps, c.inv, c.submodules, c.installed)
    modifies c`deps, c`inv
    ensures c.Shape() && s.m in c.deps && s.a in c.deps && DirectOnly(c.deps[s.a]) == []
    ensures Has(DirectOnly(c.deps[s.m]), Extension, s.d) && Has(DirectOnly(c.inv[s.m]), Extension, s.a)
  {
    hide Detached, DirectOnly, Healthy, Unneeded, NobodyImports, Fewer, Enumerates, Unlinked, Stay, Needed, Flagged, Has;
    var usage := UsageCount(c.inv[s.a], s.m);
    UsageIsNeed(c.inv[s.a], s.m, usage);
    UsersAreNeed(c.inv[s.a], s.m);
    assert usage == 0 && Flagged(c.submodules, c.installed, s.a);
    ghost var d1, v1 := c.deps, c.inv;
    HealthyDetachable(d1, v1, s.a);
    ghost var cut := c.Detach(s.a);
    FacingWithoutA(s, d1, v1, c.submodules, c.installed, cut, c.deps, c.inv);
    ghost var d2, v2, pass := c.deps, c.inv, DirectOnly(c.deps[s.a]);
    StayUnflagged(c.submodules, c.installed, d2, v2, s.a, pass);
    assert pass + [] == pass;
    Advance(c, s.a, None, pass, []);
    NotPassed(v2, pass, s.a, c.inv, s.m);
  }

  lemma NotPassed(v0: Lists, l: seq<Dep>, a: Mod, inv: Lists, m: Mod)
    requires Unlinked(v0, l, a, inv) && m in v0 && forall e :: e in l ==> e.dest != m
    ensures m in inv && inv[m] == v0[m]
  {
  }

  // ---------------------------------------------------------------- two inputs

  const M := Mod(0)
  const X := Mod(1)
  const Y := Mod(2)

  function Importing(m: Mod): Dep {
    Dep(Import, m, true, [])
  }

  function Extends(m: Mod, direct: bool): Dep {
    Dep(Extension, m, direct, [])
  }

  /** M imports X and Y and refers to data of X; Y imports X. */
  function SplitForward(): Lists {
    map[M := [Importing(X), Importing(Y), Dep(Data, X, true, [M])], X := [], Y := [Importing(X)]]
  }

  function SplitInverse(): Lists {
    map[M := [], X := [Importing(M), Importing(Y), Dep(Data, M, true, [M])], Y := [Importing(M)]]
  }

  function SplitShape(): Crossing {
    Crossing(M, X, Y, [Importing(X)], Importing(Y), [Dep(Data, X, true, [M])], [], Importing(X), [])
  }

  /** M imports X and Y and has extension edges to both; X has one to M, so one to Y follows. */
  function ExtendForward(): Lists {
    map[M := [Importing(X), Importing(Y), Extends(X, true), Extends(Y, true)], X := [Extends(M, true), Extends(Y, false)], Y := []]
  }

  function ExtendInverse(): Lists {
    map[M := [Extends(X, true)], X := [Importing(M), Extends(M, true)], Y := [Importing(M), Extends(M, true), Extends(X, false)]]
  }

  function ExtendShape(): Extending {
    Extending(M, X, Y, [], Importing(X), [Importing(Y), Extends(X, true), Extends(Y, true)])
  }

  /** Every entry of one side is found on the other, and names another module. */
  ghost predicate Answered(g: Lists, h: Lists) {
    && g.Keys == h.Keys
    && forall i, e :: i in g && e in g[i] ==>
         e.dest in h && e.dest != i && Has(h[e.dest], e.ty, i) && (e.ty.Data? ==> Distinct(e.origs))
  }

  lemma AnsweredIsHealthy(deps: Lists, inv: Lists)
    requires Answered(deps, inv) && Answered(inv, deps)
    ensures Healthy(deps, inv) && Converse(deps, inv)
  {
    forall i, t, j | Edge(deps, i, t, j) ensures Edge(inv, j, t, i) {
      var e :| e in deps[i] && e.ty == t && e.dest == j;
    }
    forall i, t, j | Edge(inv, j, t, i) ensures Edge(deps, i, t, j) {
      var f :| f in inv[j] && f.ty == t && f.dest == i;
    }
  }

  lemma HasEntry(l: seq<Dep>, k: nat)
    requires k < |l|
    ensures Has(l, l[k].ty, l[k].dest)
  {
    assert l[k] in l;
  }

  lemma SplitLists()
    ensures SplitForward().Keys == {M, X, Y} == SplitInverse().Keys
    ensures var d := SplitForward();
            d[M] == [Importing(X), Importing(Y), Dep(Data, X, true, [M])] && d[X] == [] && d[Y] == [Importing(X)]
    ensures var v := SplitInverse();
            v[M] == [] && v[X] == [Importing(M), Importing(Y), Dep(Data, M, true, [M])] && v[Y] == [Importing(M)]
  {
  }

  lemma SplitForwardAnswered(i: Mod, e: Dep)
    requires i in SplitForward() && e in SplitForward()[i]
    ensures e.dest in SplitInverse() && e.dest != i && Has(SplitInverse()[e.dest], e.ty, i) && (e.ty.Data? ==> Distinct(e.origs))
  {
    SplitLists();
    hide SplitForward, SplitInverse, Has;
    var v := SplitInverse();
    HasEntry(v[X], 0);
    HasEntry(v[X], 1);
    HasEntry(v[X], 2);
    HasEntry(v[Y], 0);
  }

  lemma SplitInverseAnswered(k: Mod, f: Dep)
    requires k in SplitInverse() && f in SplitInverse()[k]
    ensures f.dest in SplitForward() && f.dest != k && Has(SplitForward()[f.dest], f.ty, k) && (f.ty.Data? ==> Distinct(f.origs))
  {
    SplitLists();
    hide SplitForward, SplitInverse, Has;
    var d := SplitForward();
    HasEntry(d[M], 0);
    HasEntry(d[M], 1);
    HasEntry(d[M], 2);
    HasEntry(d[Y], 0);
  }

  lemma SplitAnswered()
    ensures Answered(SplitForward(), SplitInverse()) && Answered(SplitInverse(), SplitForward())
  {
    SplitModules();
    hide SplitForward, SplitInverse, SplitShape, Has, Distinct, Enumerates;
    var d, v := SplitForward(), SplitInverse();
    forall i, e: Dep | i in d && e in d[i]
      ensures e.dest in v && e.dest != i && Has(v[e.dest], e.ty, i) && (e.ty.Data? ==> Distinct(e.origs))
    {
      SplitForwardAnswered(i, e);
    }
    forall k, f: Dep | k in v && f in v[k]
      ensures f.dest in d && f.dest != k && Has(d[f.dest], f.ty, k) && (f.ty.Data? ==> Distinct(f.origs))
    {
      SplitInverseAnswered(k, f);
    }
  }

  lemma ExtendLists()
    ensures ExtendForward().Keys == {M, X, Y} == ExtendInverse().Keys
    ensures var d := ExtendForward();
            && d[M] == [Importing(X), Importing(Y), Extends(X, true), Extends(Y, true)]
            && d[X] == [Extends(M, true), Extends(Y, false)] && d[Y] == []
    ensures var v := ExtendInverse();
            && v[M] == [Extends(X, true)] && v[X] == [Importing(M), Extends(M, true)]
            && v[Y] == [Importing(M), Extends(M, true), Extends(X, false)]
  {
  }

  lemma ExtendForwardAnswered(i: Mod, e: Dep)
    requires i in ExtendForward() && e in ExtendForward()[i]
    ensures e.dest in ExtendInverse() && e.dest != i && Has(ExtendInverse()[e.dest], e.ty, i) && !e.ty.Data?
  {
    ExtendLists();
    hide ExtendForward, ExtendInverse, Has;
    var v := ExtendInverse();
    HasEntry(v[M], 0);
    HasEntry(v[X], 0);
    HasEntry(v[X], 1);
    HasEntry(v[Y], 0);
    HasEntry(v[Y], 1);
    HasEntry(v[Y], 2);
  }

  lemma ExtendInverseAnswered(k: Mod, f: Dep)
    requires k in ExtendInverse() && f in ExtendInverse()[k]
    ensures f.dest in ExtendForward() && f.dest != k && Has(ExtendForward()[f.dest], f.ty, k) && !f.ty.Data?
  {
    ExtendLists();
    hide ExtendForward, ExtendInverse, Has;
    var d := ExtendForward();
    HasEntry(d[M], 0);
    HasEntry(d[M], 1);
    HasEntry(d[M], 2);
    HasEntry(d[M], 3);
    HasEntry(d[X], 0);
    HasEntry(d[X], 1);
  }

  lemma ExtendAnswered()
    ensures Answered(ExtendForward(), ExtendInverse()) && Answered(ExtendInverse(), ExtendForward())
  {
    ExtendModules();
    hide ExtendForward, ExtendInverse, ExtendShape, Has, Enumerates;
    var d, v := ExtendForward(), ExtendInverse();
    forall i, e: Dep | i in d && e in d[i] ensures e.dest in v && e.dest != i && Has(v[e.dest], e.ty, i) && !e.ty.Data? {
      ExtendForwardAnswered(i, e);
    }
    forall k, f: Dep | k in v && f in v[k] ensures f.dest in d && f.dest != k && Has(d[f.dest], f.ty, k) && !f.ty.Data? {
      ExtendInverseAnswered(k, f);
    }
  }

  lemma SplitDependencies()
    ensures SplitShape().Dependencies(SplitForward())
  {
    SplitLists();
    hide SplitForward, DirectOnly;
    var d, s := SplitForward(), SplitShape();
    DirectOnlyIdentity(d[M]);
    DirectOnlyIdentity(d[Y]);
    assert d[M] == s.before + [s.toY] + s.after && d[Y] == s.yBefore + [s.toX] + s.yAfter;
    assert s.before[0].dest == X && s.after[0].dest == X;
  }

  lemma SplitUsers()
    ensures var v := SplitInverse();
            M in v && X in v && Y in v && Unneeded(v[M], {}) && Unneeded(v[X], {M, Y}) && Unneeded(v[Y], {M})
  {
    SplitLists();
    hide SplitForward, SplitInverse;
  }

  lemma SplitStarts()
    ensures SplitShape().Start(SplitForward(), SplitInverse(), {}, {M})
  {
    SplitDependencies();
    SplitUsers();
    SplitAnswered();
    AnsweredIsHealthy(SplitForward(), SplitInverse());
    hide Healthy, Converse, Answered, SplitForward, SplitInverse, DirectOnly, Unneeded;
  }

  lemma ExtendDependencies()
    ensures ExtendShape().Dependencies(ExtendForward(), ExtendInverse(), {}, {M})
  {
    ExtendLists();
    hide ExtendForward, ExtendInverse, DirectOnly;
    var d, v, s := ExtendForward(), ExtendInverse(), ExtendShape();
    DirectOnlyIdentity(d[M]);
    DirectOnlyIdentity(v[M]);
    assert d[M] == s.before + [s.toA] + s.after;
    HasEntry(s.after, 2);
    HasEntry(v[M], 0);
  }

  lemma ExtendStarts()
    ensures ExtendShape().Start(ExtendForward(), ExtendInverse(), {}, {M})
  {
    ExtendDependencies();
    ExtendAnswered();
    AnsweredIsHealthy(ExtendForward(), ExtendInverse());
    ExtendOther();
    hide Healthy, Converse, Answered, ExtendForward, ExtendInverse, DirectOnly, Unneeded;
  }

  lemma ExtendOther()
    ensures M in ExtendInverse() && Unneeded(ExtendInverse()[M], {})
    ensures X in ExtendForward() && forall e :: e in DirectOnly(ExtendForward()[X]) ==> e.dest == M
  {
    ExtendLists();
    hide ExtendForward, ExtendInverse, DirectOnly;
    var l := ExtendForward()[X];
    forall e | e in DirectOnly(l) ensures e.dest == M {
      assert e in l && e.direct;
    }
  }

  /** M, X and Y, only M installed: X is deleted while M still names it. */
  method SplitOrderDangles() returns (c: MdCtx)
    ensures fresh(c) && c.Shape() && M in c.deps && X !in c.deps && LeadsTo(c.deps[M], X)
  {
    hide SplitForward, SplitInverse, SplitShape;
    SplitStarts();
    SplitModules();
    c := new MdCtx([M, X, Y], SplitForward(), SplitInverse(), {}, {M});
    SplitRunDangles(c, SplitShape());
  }

  lemma SplitModules()
    ensures SplitForward().Keys == SplitInverse().Keys && Enumerates([M, X, Y], SplitForward().Keys)
    ensures SplitShape().m == M && SplitShape().x == X && X in SplitForward() && SplitForward()[X] == []
  {
  }

  /** M, X and Y, only M installed: X is deleted, and the closure is to link it to Y through M. */
  method ExtensionsDangle() returns (c: MdCtx)
    ensures fresh(c) && c.Shape() && M in c.deps && X !in c.deps
    ensures forall pending :: !Safe(DirectPart(c.deps), DirectPart(c.inv), pending)
  {
    hide ExtendForward, ExtendInverse, ExtendShape, Safe;
    ExtendStarts();
    ExtendModules();
    c := new MdCtx([M, X, Y], ExtendForward(), ExtendInverse(), {}, {M});
    ExtensionRun(c, ExtendShape());
  }

  lemma ExtendModules()
    ensures ExtendForward().Keys == ExtendInverse().Keys && Enumerates([M, X, Y], ExtendForward().Keys)
    ensures ExtendShape().m == M && ExtendShape().a == X
  {
  }
}
