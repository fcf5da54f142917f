/** Loading a module and what it depends on into one schema context: the mutual recursion of
    `dm_load_module_deps_r` and `dm_load_module_ident_deps_r` (src/data_manager.c). */
module SchemaLoader {
  import opened DepGraph

  /** `Fault` is a message about a failure that goes through a null pointer. */
  datatype LoadResult = Loaded | UnknownModel | InvalArg | Internal | Fault

  /** The dependency graph, and what libyang says: schema files it cannot parse, and modules whose
      imports it cannot mark as implemented. */
  datatype Graph = Graph(deps: Lists, implemented: set<Mod>, submodules: set<Mod>, broken: set<Mod>, unmarkable: set<Mod>) {
    ghost predicate Valid() {
      forall m, e :: m in deps && e in deps[m] ==> e.dest in deps
    }
  }

  /** x is an extension or data dependency in the list. */
  ghost predicate Wants(l: seq<Dep>, x: Mod) {
    exists e :: e in l && (e.ty.Extension? || e.ty.Data?) && e.dest == x
  }

  /** x is an implemented extension in the list. */
  ghost predicate Offers(l: seq<Dep>, implemented: set<Mod>, x: Mod) {
    exists e :: e in l && e.ty.Extension? && e.dest == x && x in implemented
  }

  /** One step of the recursion leads from m to x: an extension or data dependency, or an
      implemented extension of something m imports. */
  ghost predicate Step(g: Graph, m: Mod, x: Mod) {
    m in g.deps && (Wants(g.deps[m], x) || exists i :: i in g.deps[m] && i.ty.Import? && i.dest in g.deps && Offers(g.deps[i.dest], g.implemented, x))
  }

  ghost predicate Path(g: Graph, p: seq<Mod>) {
    |p| > 0 && forall k :: 0 < k < |p| ==> Step(g, p[k - 1], p[k])
  }

  ghost predicate Reaches(g: Graph, m: Mod, x: Mod) {
    exists p :: Path(g, p) && |p| > 1 && p[0] == m && p[|p| - 1] == x
  }

  lemma ReachesStep(g: Graph, m: Mod, x: Mod)
    requires Step(g, m, x)
    ensures Reaches(g, m, x)
  {
    assert Path(g, [m, x]);
  }

  lemma ReachesMore(g: Graph, m: Mod, y: Mod, x: Mod)
    requires Step(g, m, y) && Reaches(g, y, x)
    ensures Reaches(g, m, x)
  {
    var p :| Path(g, p) && |p| > 1 && p[0] == y && p[|p| - 1] == x;
    var q := [m] + p;
    forall k | 0 < k < |q| ensures Step(g, q[k - 1], q[k]) {
      if k > 1 { assert q[k - 1] == p[k - 2] && q[k] == p[k - 1]; }
    }
    assert Path(g, q);
  }

  /** Every extension and data dependency in the list is loaded. */
  ghost predicate DepsCovered(l: seq<Dep>, loaded: set<Mod>) {
    forall e :: e in l && (e.ty.Extension? || e.ty.Data?) ==> e.dest in loaded
  }

  /** Every implemented extension in the list is loaded. */
  ghost predicate ExtensionsCovered(l: seq<Dep>, implemented: set<Mod>, loaded: set<Mod>) {
    forall e :: e in l && e.ty.Extension? && e.dest in implemented ==> e.dest in loaded
  }

  /** Every implemented extension of an import in the list is loaded. */
  ghost predicate IdentCovered(g: Graph, l: seq<Dep>, loaded: set<Mod>) {
    forall i :: i in l && i.ty.Import? && i.dest in g.deps ==> ExtensionsCovered(g.deps[i.dest], g.implemented, loaded)
  }

  /** m or a module that is loaded has x as an extension or data dependency. */
  ghost predicate WantedBy(g: Graph, m: Mod, loaded: set<Mod>, x: Mod) {
    exists y :: (y == m || y in loaded) && y in g.deps && Wants(g.deps[y], x)
  }

  /** An import of m or of a module that is loaded has x as an implemented extension. */
  ghost predicate OfferedBy(g: Graph, m: Mod, loaded: set<Mod>, x: Mod) {
    exists y, i :: (y == m || y in loaded) && y in g.deps && i in g.deps[y] && i.ty.Import? && i.dest in g.deps && Offers(g.deps[i.dest], g.implemented, x)
  }

  /** What is loaded for x depends on how it was reached: as a dependency, what its imports offer; as an
      extension of an import, its own dependencies, and then data dependencies are noted. */
  ghost predicate Covered(g: Graph, m: Mod, loaded: set<Mod>, cross: bool, x: Mod) {
    x in g.deps && (|| (WantedBy(g, m, loaded, x) && IdentCovered(g, g.deps[x], loaded))
                    || (OfferedBy(g, m, loaded, x) && DepsCovered(g.deps[x], loaded) && (HasData(g.deps[x]) ==> cross)))
  }

  /** libyang takes the module. */
  ghost predicate Usable(g: Graph, x: Mod) {
    x !in g.broken && x !in g.unmarkable
  }

  /** What is new since `before` was parsed and marked without error, is reachable from m, and has
      its own dependencies loaded, of the kind that goes with how it was reached. */
  ghost predicate Extends(g: Graph, m: Mod, before: set<Mod>, loaded: set<Mod>, cross: bool) {
    before <= loaded && forall x :: x in loaded && x !in before ==>
      Usable(g, x) && Covered(g, m, loaded, cross, x) && Reaches(g, m, x)
  }

  ghost predicate HasData(l: seq<Dep>) {
    exists e :: e in l && e.ty.Data?
  }

  /** The flag for data dependencies across modules is set for a reason: a data dependency of m, if its
      own are looked at, or of a module reached as an extension. */
  ghost predicate Crossed(g: Graph, m: Mod, own: bool, loaded: set<Mod>, before: bool, now: bool) {
    (before ==> now) && (now ==> before || (own && m in g.deps && HasData(g.deps[m])) || SomeOffered(g, m, loaded))
  }

  /** A module that is loaded, offered by an import, has data dependencies. */
  ghost predicate SomeOffered(g: Graph, m: Mod, loaded: set<Mod>) {
    exists x :: x in loaded && x in g.deps && OfferedBy(g, m, loaded, x) && HasData(g.deps[x])
  }

  lemma CrossedSame(g: Graph, m: Mod, own: bool, loaded: set<Mod>, cross: bool)
    ensures Crossed(g, m, own, loaded, cross, cross)
  {
  }

  lemma OfferedStill(g: Graph, y: Mod, mid: set<Mod>, m: Mod, loaded: set<Mod>, x: Mod)
    requires mid <= loaded && (y in loaded || y == m) && OfferedBy(g, y, mid, x)
    ensures OfferedBy(g, m, loaded, x)
  {
    hide Offers;
  }

  lemma WantedStill(g: Graph, y: Mod, mid: set<Mod>, m: Mod, loaded: set<Mod>, x: Mod)
    requires mid <= loaded && (y in loaded || y == m) && WantedBy(g, y, mid, x)
    ensures WantedBy(g, m, loaded, x)
  {
    hide Wants;
  }

  lemma SomeOfferedStill(g: Graph, y: Mod, mid: set<Mod>, m: Mod, loaded: set<Mod>)
    requires mid <= loaded && (y in loaded || y == m) && SomeOffered(g, y, mid)
    ensures SomeOffered(g, m, loaded)
  {
    hide OfferedBy, HasData;
    var x :| x in mid && x in g.deps && OfferedBy(g, y, mid, x) && HasData(g.deps[x]);
    OfferedStill(g, y, mid, m, loaded, x);
  }

  /** More is loaded for m, from m or from a module y that is loaded: the reasons are reasons still.  Those
      of y itself count for m if y is offered to it. */
  lemma CrossedMore(g: Graph, m: Mod, own: bool, mid: set<Mod>, y: Mod, ownY: bool, loaded: set<Mod>, before: bool, then_: bool, now: bool)
    requires Crossed(g, m, own, mid, before, then_) && Crossed(g, y, ownY, loaded, then_, now) && mid <= loaded
    requires (y == m && (ownY ==> own)) || (y in loaded && (ownY ==> OfferedBy(g, m, loaded, y)))
    ensures Crossed(g, m, own, loaded, before, now) && (then_ ==> now)
  {
    hide OfferedBy, HasData, SomeOffered;
    if SomeOffered(g, m, mid) { SomeOfferedStill(g, m, mid, m, loaded); }
    if SomeOffered(g, y, loaded) { SomeOfferedStill(g, y, loaded, m, loaded); }
    OfferedReason(g, m, loaded, y);
  }

  lemma OfferedReason(g: Graph, m: Mod, loaded: set<Mod>, y: Mod)
    ensures y in loaded && y in g.deps && OfferedBy(g, m, loaded, y) && HasData(g.deps[y]) ==> SomeOffered(g, m, loaded)
  {
    hide OfferedBy, HasData;
  }

  lemma CrossedHere(g: Graph, m: Mod, loaded: set<Mod>, before: bool, then_: bool, e: Dep)
    requires Crossed(g, m, true, loaded, before, then_) && m in g.deps && e in g.deps[m] && e.ty.Data?
    ensures Crossed(g, m, true, loaded, before, true)
  {
    assert HasData(g.deps[m]);
  }

  ghost predicate Failed(g: Graph, m: Mod, loaded: set<Mod>) {
    exists x :: (x in loaded || x == m) && !Usable(g, x)
  }

  lemma ExtendsNothing(g: Graph, m: Mod, loaded: set<Mod>, cross: bool)
    ensures Extends(g, m, loaded, loaded, cross)
  {
  }

  lemma CoveredStill(g: Graph, y: Mod, mid: set<Mod>, then_: bool, m: Mod, loaded: set<Mod>, cross: bool, x: Mod)
    requires mid <= loaded && (then_ ==> cross) && (y in loaded || y == m) && Covered(g, y, mid, then_, x)
    ensures Covered(g, m, loaded, cross, x)
  {
    hide WantedBy, OfferedBy, HasData;
    if WantedBy(g, y, mid, x) { WantedStill(g, y, mid, m, loaded, x); }
    if OfferedBy(g, y, mid, x) { OfferedStill(g, y, mid, m, loaded, x); }
  }

  lemma ExtendsTwice(g: Graph, m: Mod, before: set<Mod>, mid: set<Mod>, then_: bool, loaded: set<Mod>, cross: bool)
    requires Extends(g, m, before, mid, then_) && Extends(g, m, mid, loaded, cross) && (then_ ==> cross)
    ensures Extends(g, m, before, loaded, cross)
  {
    hide Covered, Reaches;
    forall x | x in loaded && x !in before ensures Usable(g, x) && Covered(g, m, loaded, cross, x) && Reaches(g, m, x) {
      if x in mid { CoveredStill(g, m, mid, then_, m, loaded, cross, x); }
    }
  }

  lemma ExtendsMore(g: Graph, m: Mod, y: Mod, before: set<Mod>, mid: set<Mod>, then_: bool, loaded: set<Mod>, cross: bool)
    requires Extends(g, m, before, mid, then_) && Step(g, m, y) && Usable(g, y) && (then_ ==> cross)
    requires Extends(g, y, mid + {y}, loaded, cross) && Covered(g, m, loaded, cross, y)
    ensures Extends(g, m, before, loaded, cross)
  {
    hide Covered, Reaches, Step;
    ReachesStep(g, m, y);
    forall x | x in loaded && x !in before ensures Usable(g, x) && Covered(g, m, loaded, cross, x) && Reaches(g, m, x) {
      if x in mid {
        CoveredStill(g, m, mid, then_, m, loaded, cross, x);
      } else if x != y {
        ReachesMore(g, m, y, x);
        CoveredStill(g, y, loaded, cross, m, loaded, cross, x);
      }
    }
  }

  /** The parse log and the tree of loaded modules agree. */
  ghost predicate Logged(g: Graph, parsed: seq<Mod>, loaded: set<Mod>) {
    loaded <= g.deps.Keys && Distinct(parsed) && forall x :: x in parsed <==> x in loaded
  }

  lemma LoggedMore(g: Graph, parsed: seq<Mod>, loaded: set<Mod>, x: Mod)
    requires Logged(g, parsed, loaded) && x in g.deps && x !in loaded
    ensures Logged(g, parsed + [x], loaded + {x})
  {
  }

  class Loader {
    const g: Graph
    var loaded: set<Mod>
    var parsed: seq<Mod>
    var crossModule: bool

    constructor (g: Graph)
      requires g.Valid()
      ensures Valid() && loaded == {} && parsed == [] && !crossModule && this.g == g
    {
      this.g := g;
      loaded, parsed, crossModule := {}, [], false;
    }

    ghost predicate Valid()
      reads this
    {
      g.Valid() && Logged(g, parsed, loaded)
    }

    /** Remember the module and parse its file (1138-1143, 1177-1187). */
    method Load(x: Mod) returns (ok: bool)
      requires Valid() && x in g.deps && x !in loaded
      modifies `loaded, `parsed
      ensures Valid() && loaded == old(loaded) + {x} && parsed == old(parsed) + [x]
      ensures ok <==> x !in g.broken
    {
      hide Logged;
      LoggedMore(g, parsed, loaded, x);
      loaded := loaded + {x};
      parsed := parsed + [x];
      ok := x !in g.broken;
    }

    /** `dm_load_module_ident_deps_r` (1122-1157). */
    method LoadIdentDeps(m: Mod) returns (ok: bool)
      requires Valid() && m in g.deps
      modifies this
      ensures Valid() && old(parsed) <= parsed && old(loaded) <= loaded && Crossed(g, m, false, loaded, old(crossModule), crossModule)
      ensures ok ==> Extends(g, m, old(loaded), loaded, crossModule) && IdentCovered(g, g.deps[m], loaded)
      ensures !ok ==> Failed(g, m, loaded)
      decreases |g.deps.Keys - loaded|, 2
    {
      hide Extends, IdentCovered, ExtensionsCovered, Failed, Logged, Crossed;
      CrossedSame(g, m, false, loaded, crossModule);
      ExtendsNothing(g, m, loaded, crossModule);
      IdentCoveredNone(g, loaded);
      ghost var before := loaded;
      var n := 0;
      while n < |g.deps[m]|
        invariant 0 <= n <= |g.deps[m]|
        invariant Valid() && old(parsed) <= parsed && before <= loaded && Crossed(g, m, false, loaded, old(crossModule), crossModule)
        invariant Extends(g, m, before, loaded, crossModule) && IdentCovered(g, g.deps[m][..n], loaded)
      {
        var dep := g.deps[m][n];
        ghost var mid := loaded;
        if dep.ty.Import? {
          Smaller(g.deps.Keys, loaded, before);
          ghost var then_ := crossModule;
          ok := LoadExtensions(m, dep);
          CrossedMore(g, m, false, mid, m, false, loaded, old(crossModule), then_, crossModule);
          if !ok {
            return;
          }
          ExtendsTwice(g, m, before, mid, then_, loaded, crossModule);
        }
        IdentCoveredNext(g, g.deps[m], n, mid, loaded);
        n := n + 1;
      }
      assert g.deps[m][..n] == g.deps[m];
      ok := true;
    }

    /** The inner loop, over the dependencies of one import of m (1134-1151). */
    method LoadExtensions(m: Mod, imported: Dep) returns (ok: bool)
      requires Valid() && m in g.deps && imported in g.deps[m] && imported.ty.Import?
      modifies this
      ensures Valid() && old(parsed) <= parsed && old(loaded) <= loaded && Crossed(g, m, false, loaded, old(crossModule), crossModule)
      ensures ok ==> Extends(g, m, old(loaded), loaded, crossModule) && ExtensionsCovered(g.deps[imported.dest], g.implemented, loaded)
      ensures !ok ==> Failed(g, m, loaded)
      decreases |g.deps.Keys - loaded|, 1
    {
      hide Extends, ExtensionsCovered, Failed, Logged, Crossed;
      CrossedSame(g, m, false, loaded, crossModule);
      ExtendsNothing(g, m, loaded, crossModule);
      ExtensionsCoveredNone(g.implemented, loaded);
      ghost var before := loaded;
      var i := imported.dest;
      var n := 0;
      while n < |g.deps[i]|
        invariant 0 <= n <= |g.deps[i]|
        invariant Valid() && old(parsed) <= parsed && before <= loaded && Crossed(g, m, false, loaded, old(crossModule), crossModule)
        invariant Extends(g, m, before, loaded, crossModule) && ExtensionsCovered(g.deps[i][..n], g.implemented, loaded)
      {
        var dep := g.deps[i][n];
        ghost var mid := loaded;
        if dep.ty.Extension? && dep.dest in g.implemented && dep.dest !in loaded {
          Smaller(g.deps.Keys, loaded, before);
          ghost var then_ := crossModule;
          ok := LoadOffered(m, imported, dep);
          CrossedMore(g, m, false, mid, m, false, loaded, old(crossModule), then_, crossModule);
          if !ok {
            return;
          }
          ExtendsTwice(g, m, before, mid, then_, loaded, crossModule);
        }
        ExtensionsCoveredNext(g.deps[i], n, g.implemented, mid, loaded);
        n := n + 1;
      }
      assert g.deps[i][..n] == g.deps[i];
      ok := true;
    }

    /** One implemented extension of an import of m that is not loaded (1137-1149). */
    method LoadOffered(m: Mod, imported: Dep, dep: Dep) returns (ok: bool)
      requires Valid() && m in g.deps && imported in g.deps[m] && imported.ty.Import? && dep in g.deps[imported.dest]
      requires dep.ty.Extension? && dep.dest in g.implemented && dep.dest !in loaded
      modifies this
      ensures Valid() && old(parsed) <= parsed && old(loaded) <= loaded && Crossed(g, m, false, loaded, old(crossModule), crossModule)
      ensures dep.dest in loaded && (ok ==> Extends(g, m, old(loaded), loaded, crossModule))
      ensures old(crossModule) ==> crossModule
      ensures !ok ==> Failed(g, m, loaded)
      decreases |g.deps.Keys - loaded|, 0
    {
      hide Extends, DepsCovered, Failed, Logged, Step, Covered, Crossed, OfferedBy, HasData;
      var y := dep.dest;
      ghost var before, mid := loaded, loaded + {y};
      ExtendsNothing(g, m, loaded, crossModule);
      CrossedSame(g, m, false, mid, crossModule);
      ok := Load(y);
      if !ok {
        FailedAt(g, m, loaded, y);
        return;
      }
      SmallerBy(g.deps.Keys, loaded, before, y);
      ok := LoadDeps(y);
      OfferedHere(g, m, loaded, imported, dep);
      CrossedMore(g, m, false, mid, y, true, loaded, old(crossModule), old(crossModule), crossModule);
      if !ok {
        FailedBelow(g, m, loaded, y);
        return;
      }
      StepByIdent(g, m, imported, dep);
      DepsAreCovered(g, m, loaded, crossModule, y);
      ExtendsMore(g, m, y, before, before, old(crossModule), loaded, crossModule);
    }

    /** One extension or data dependency of m that is not loaded (1175-1198). */
    method LoadDependency(m: Mod, dep: Dep) returns (ok: bool)
      requires Valid() && m in g.deps && dep in g.deps[m] && (dep.ty.Extension? || dep.ty.Data?) && dep.dest !in loaded
      modifies this
      ensures Valid() && old(parsed) <= parsed && old(loaded) <= loaded && Crossed(g, m, true, loaded, old(crossModule), crossModule)
      ensures dep.dest in loaded && (ok ==> Extends(g, m, old(loaded), loaded, crossModule))
      ensures old(crossModule) ==> crossModule
      ensures !ok ==> Failed(g, m, loaded)
      decreases |g.deps.Keys - loaded|, 3
    {
      hide Extends, DepsCovered, Failed, Logged, Step, Covered, IdentCovered, Crossed;
      var y := dep.dest;
      ghost var before, mid := loaded, loaded + {y};
      ExtendsNothing(g, m, loaded, crossModule);
      CrossedSame(g, m, true, mid, crossModule);
      ok := Load(y);
      if !ok || y in g.unmarkable {
        ok := false;
        FailedAt(g, m, loaded, y);
        return;
      }
      SmallerBy(g.deps.Keys, loaded, before, y);
      ok := LoadIdentDeps(y);
      CrossedMore(g, m, true, mid, y, false, loaded, old(crossModule), old(crossModule), crossModule);
      if !ok {
        FailedBelow(g, m, loaded, y);
        return;
      }
      StepByDep(g, m, dep);
      WantedHere(g, m, loaded, dep);
      IdentIsCovered(g, m, loaded, crossModule, y);
      ExtendsMore(g, m, y, before, before, old(crossModule), loaded, crossModule);
    }

    /** `dm_load_module_deps_r` (1159-1206). */
    method LoadDeps(m: Mod) returns (ok: bool)
      requires Valid() && m in g.deps
      modifies this
      ensures Valid() && old(parsed) <= parsed && old(loaded) <= loaded && Crossed(g, m, true, loaded, old(crossModule), crossModule)
      ensures ok ==> Extends(g, m, old(loaded), loaded, crossModule) && DepsCovered(g.deps[m], loaded) && m !in g.unmarkable
      ensures ok && HasData(g.deps[m]) ==> crossModule
      ensures !ok ==> Failed(g, m, loaded)
      decreases |g.deps.Keys - loaded|, 4
    {
      hide Extends, DepsCovered, Failed, Logged, Crossed;
      CrossedSame(g, m, true, loaded, crossModule);
      ExtendsNothing(g, m, loaded, crossModule);
      DepsCoveredNone(loaded);
      ghost var before := loaded;
      var n := 0;
      while n < |g.deps[m]|
        invariant 0 <= n <= |g.deps[m]|
        invariant Valid() && old(parsed) <= parsed && before <= loaded && Crossed(g, m, true, loaded, old(crossModule), crossModule)
        invariant Extends(g, m, before, loaded, crossModule) && DepsCovered(g.deps[m][..n], loaded)
        invariant forall k :: 0 <= k < n && g.deps[m][k].ty.Data? ==> crossModule
      {
        var dep := g.deps[m][n];
        ghost var mid := loaded;
        if dep.ty.Data? {
          CrossedHere(g, m, loaded, old(crossModule), crossModule, dep);
          ExtendsNoted(g, m, before, loaded, crossModule);
          crossModule := true;
        }
        if (dep.ty.Extension? || dep.ty.Data?) && dep.dest !in loaded {
          Smaller(g.deps.Keys, loaded, before);
          ghost var then_ := crossModule;
          ok := LoadDependency(m, dep);
          CrossedMore(g, m, true, mid, m, true, loaded, old(crossModule), then_, crossModule);
          if !ok {
            return;
          }
          ExtendsTwice(g, m, before, mid, then_, loaded, crossModule);
        }
        DepsCoveredNext(g.deps[m], n, mid, loaded);
        n := n + 1;
      }
      assert g.deps[m][..n] == g.deps[m];
      ok := m !in g.unmarkable;
      if !ok { FailedAt(g, m, loaded, m); }
    }

    /** `dm_load_module` up to the loaded context (1238-1274); `found` is what the search for the
        module gave.  On success every extension and data dependency of the module and every
        implemented extension of its imports is loaded, and nothing but what its dependencies lead
        to; each module but the root is parsed at most once, cyclic graphs included. */
    method LoadModule(found: Option<Mod>) returns (rc: LoadResult)
      requires Valid() && loaded == {} && !crossModule
      requires found.Some? ==> found.value in g.deps
      modifies this
      ensures Distinct(parsed) && forall x :: x in parsed <==> x in loaded
      ensures rc.UnknownModel? <==> found.None?
      ensures rc.InvalArg? <==> found.Some? && found.value in g.submodules
      // a root that does not parse: the message names a dependency that was never looked at (1257)
      ensures rc.Fault? <==> found.Some? && found.value !in g.submodules && found.value in g.broken
      ensures rc.Loaded? ==> Usable(g, found.value) && DepsCovered(g.deps[found.value], loaded)
      ensures rc.Loaded? ==> IdentCovered(g, g.deps[found.value], loaded)
      ensures rc.Loaded? ==> forall x :: x in loaded ==> Usable(g, x) && Covered(g, found.value, loaded, crossModule, x) && Reaches(g, found.value, x)
      ensures rc.Loaded? && HasData(g.deps[found.value]) ==> crossModule
      ensures rc.Loaded? && crossModule ==> HasData(g.deps[found.value]) || SomeOffered(g, found.value, loaded)
      ensures rc.Internal? <==> found.Some? && found.value !in g.submodules && found.value !in g.broken && Failed(g, found.value, loaded)
    {
      hide DepsCovered, Covered, Reaches, HasData, SomeOffered;
      if found.None? {
        return UnknownModel;
      }
      var root := found.value;
      if root in g.submodules {
        return InvalArg;
      }
      if root in g.broken {
        return Fault;
      }
      var ok := LoadIdentDeps(root);
      if !ok {
        return Internal;
      }
      ghost var mid, then_ := loaded, crossModule;
      ok := LoadDeps(root);
      if !ok {
        return Internal;
      }
      CrossedMore(g, root, true, mid, root, true, loaded, false, then_, crossModule);
      ExtendsTwice(g, root, {}, mid, then_, loaded, crossModule);
      rc := Loaded;
    }
  }

  lemma IdentCoveredNone(g: Graph, loaded: set<Mod>)
    ensures IdentCovered(g, [], loaded)
  {
  }

  lemma IdentCoveredNext(g: Graph, l: seq<Dep>, n: nat, before: set<Mod>, loaded: set<Mod>)
    requires n < |l| && IdentCovered(g, l[..n], before) && before <= loaded
    requires l[n].ty.Import? && l[n].dest in g.deps ==> ExtensionsCovered(g.deps[l[n].dest], g.implemented, loaded)
    ensures IdentCovered(g, l[..n + 1], loaded)
  {
    assert l[..n + 1] == l[..n] + [l[n]];
  }

  lemma ExtensionsCoveredNone(implemented: set<Mod>, loaded: set<Mod>)
    ensures ExtensionsCovered([], implemented, loaded)
  {
  }

  lemma ExtensionsCoveredNext(l: seq<Dep>, n: nat, implemented: set<Mod>, before: set<Mod>, loaded: set<Mod>)
    requires n < |l| && ExtensionsCovered(l[..n], implemented, before) && before <= loaded
    requires l[n].ty.Extension? && l[n].dest in implemented ==> l[n].dest in loaded
    ensures ExtensionsCovered(l[..n + 1], implemented, loaded)
  {
    assert l[..n + 1] == l[..n] + [l[n]];
  }

  lemma DepsCoveredNone(loaded: set<Mod>)
    ensures DepsCovered([], loaded)
  {
  }

  lemma DepsCoveredNext(l: seq<Dep>, n: nat, before: set<Mod>, loaded: set<Mod>)
    requires n < |l| && DepsCovered(l[..n], before) && before <= loaded
    requires l[n].ty.Extension? || l[n].ty.Data? ==> l[n].dest in loaded
    ensures DepsCovered(l[..n + 1], loaded)
  {
    assert l[..n + 1] == l[..n] + [l[n]];
  }

  lemma StepByIdent(g: Graph, m: Mod, i: Dep, e: Dep)
    requires m in g.deps && i in g.deps[m] && i.ty.Import? && i.dest in g.deps && e in g.deps[i.dest] && e.ty.Extension? && e.dest in g.implemented
    ensures Step(g, m, e.dest)
  {
    assert Offers(g.deps[i.dest], g.implemented, e.dest);
  }

  lemma StepByDep(g: Graph, m: Mod, e: Dep)
    requires m in g.deps && e in g.deps[m] && (e.ty.Extension? || e.ty.Data?)
    ensures Step(g, m, e.dest)
  {
    assert Wants(g.deps[m], e.dest);
  }

  lemma DepsAreCovered(g: Graph, m: Mod, loaded: set<Mod>, cross: bool, y: Mod)
    requires y in g.deps && OfferedBy(g, m, loaded, y) && DepsCovered(g.deps[y], loaded) && (HasData(g.deps[y]) ==> cross)
    ensures Covered(g, m, loaded, cross, y)
  {
  }

  lemma IdentIsCovered(g: Graph, m: Mod, loaded: set<Mod>, cross: bool, y: Mod)
    requires y in g.deps && WantedBy(g, m, loaded, y) && IdentCovered(g, g.deps[y], loaded)
    ensures Covered(g, m, loaded, cross, y)
  {
  }

  lemma OfferedHere(g: Graph, m: Mod, loaded: set<Mod>, i: Dep, e: Dep)
    requires m in g.deps && i in g.deps[m] && i.ty.Import? && i.dest in g.deps && e in g.deps[i.dest] && e.ty.Extension? && e.dest in g.implemented
    ensures OfferedBy(g, m, loaded, e.dest)
  {
    assert Offers(g.deps[i.dest], g.implemented, e.dest);
  }

  lemma WantedHere(g: Graph, m: Mod, loaded: set<Mod>, e: Dep)
    requires m in g.deps && e in g.deps[m] && (e.ty.Extension? || e.ty.Data?)
    ensures WantedBy(g, m, loaded, e.dest)
  {
    assert Wants(g.deps[m], e.dest);
  }

  /** Noting a data dependency takes nothing away. */
  lemma ExtendsNoted(g: Graph, m: Mod, before: set<Mod>, loaded: set<Mod>, cross: bool)
    requires Extends(g, m, before, loaded, cross)
    ensures Extends(g, m, before, loaded, true)
  {
    hide Covered, Reaches;
    forall x | x in loaded && x !in before ensures Covered(g, m, loaded, true, x) {
      CoveredStill(g, m, loaded, cross, m, loaded, true, x);
    }
  }

  lemma FailedAt(g: Graph, m: Mod, loaded: set<Mod>, y: Mod)
    requires (y in loaded || y == m) && !Usable(g, y)
    ensures Failed(g, m, loaded)
  {
  }

  lemma FailedBelow(g: Graph, m: Mod, loaded: set<Mod>, y: Mod)
    requires y in loaded && Failed(g, y, loaded)
    ensures Failed(g, m, loaded)
  {
  }

  lemma Smaller(keys: set<Mod>, loaded: set<Mod>, before: set<Mod>)
    requires before <= loaded
    ensures |keys - loaded| <= |keys - before|
  {
    assert keys - before == (keys - loaded) + (keys - before - (keys - loaded));
  }

  lemma SmallerBy(keys: set<Mod>, loaded: set<Mod>, before: set<Mod>, y: Mod)
    requires before <= loaded && y in loaded && y !in before && y in keys
    ensures |keys - loaded| < |keys - before|
  {
    Smaller(keys - {y}, loaded, before);
    assert keys - before == (keys - {y} - before) + {y};
    assert keys - {y} - loaded == keys - loaded;
  }
}
