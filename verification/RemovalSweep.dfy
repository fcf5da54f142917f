/** What a removal takes with it: modules that may go by their flags and that nobody else needs
    (src/module_dependencies.c:2713-2739). */
module RemovalSweep {
  import opened DepGraph
  import opened RemovalSpec
  import opened RemovalInvariant
  import opened RemovalSteps

  /** x may go by its flags, and nobody but i needs it, directly or not. */
  ghost predicate Owned(plan: Plan, submodules: set<Mod>, installed: set<Mod>, i: Mod, x: Mod) {
    (x in submodules || x !in installed) && !Contested(plan, i, x)
  }

  /** What m owns of its list is gone, or still to come in what is left of it. */
  ghost predicate Taking(plan: Plan, submodules: set<Mod>, installed: set<Mod>, m: Mod, l0: seq<Dep>, l: seq<Dep>, gone: set<Mod>) {
    forall e :: e in l0 && Owned(plan, submodules, installed, m, e.dest) ==> e.dest in gone || LeadsTo(l, e.dest)
  }

  /** All that m owns of its list is gone. */
  ghost predicate Took(plan: Plan, submodules: set<Mod>, installed: set<Mod>, m: Mod, l: seq<Dep>, gone: set<Mod>) {
    forall e :: e in l && e.dest != m && Owned(plan, submodules, installed, m, e.dest) ==> e.dest in gone
  }

  /** Whoever is gone has taken along what it imports or includes and owns. */
  ghost predicate Swept(plan: Plan, submodules: set<Mod>, installed: set<Mod>, dd: Lists, gone: set<Mod>) {
    forall y, t, x :: y in gone && IsFirm(t) && Edge(dd, y, t, x) && Owned(plan, submodules, installed, y, x) ==> x in gone
  }

  /** y lists x and is not held back. */
  ghost predicate Draws(plan: Plan, dd: Lists, y: Mod, x: Mod) {
    y in dd && LeadsTo(dd[y], x) && !plan.HeldBack(y)
  }

  /** Nobody goes with m but by a module that goes and draws it along. */
  ghost predicate Drawn(plan: Plan, dd: Lists, m: Mod, gone: set<Mod>) {
    forall x :: x in gone && x != m ==> exists y :: y in gone + {m} && Draws(plan, dd, y, x)
  }

  /** What is left of a list was in it. */
  ghost predicate LeftOf(l: seq<Dep>, l0: seq<Dep>) {
    forall e :: e in l ==> LeadsTo(l0, e.dest)
  }

  /** The loop over the dependencies of m, with l of its list left. */
  ghost predicate Sweeping(plan: Plan, submodules: set<Mod>, installed: set<Mod>, dd: Lists, m: Mod, l: seq<Dep>, gone: set<Mod>) {
    && m in dd && LeftOf(l, dd[m])
    && Taking(plan, submodules, installed, m, dd[m], l, gone) && Swept(plan, submodules, installed, dd, gone) && Drawn(plan, dd, m, gone)
  }

  lemma SweepStart(plan: Plan, submodules: set<Mod>, installed: set<Mod>, m: Mod, dd: Lists)
    requires m in dd
    ensures Sweeping(plan, submodules, installed, dd, m, dd[m], {})
  {
  }

  lemma LeftSurviving(l: seq<Dep>, l0: seq<Dep>, more: set<Mod>)
    requires LeftOf(l, l0)
    ensures LeftOf(Surviving(l, more), l0)
  {
    hide Surviving;
    forall f | f in Surviving(l, more) ensures LeadsTo(l0, f.dest) {
      var e := SurvivedFrom(l, more, f);
    }
  }

  lemma SurvivingLeads(l: seq<Dep>, gone: set<Mod>, x: Mod)
    requires LeadsTo(Surviving(l, gone), x)
    ensures LeadsTo(l, x)
  {
    hide Surviving;
    var f :| f in Surviving(l, gone) && f.dest == x;
    var e := SurvivedFrom(l, gone, f);
  }

  /** x went, drawn by m, and others with it. */
  lemma DrawnNested(plan: Plan, dd1: Lists, vv1: Lists, m: Mod, busy: set<Mod>, gone: set<Mod>, dd: Lists, vv: Lists, x: Mod, more: set<Mod>)
    requires Progress(dd1, vv1, m, busy, gone, dd, vv) && m !in more && x in more && Draws(plan, dd1, m, x)
    requires Drawn(plan, dd1, m, gone) && Drawn(plan, dd, x, more)
    ensures Drawn(plan, dd1, m, gone + more)
  {
    hide Surviving, Draws;
    forall z | z in gone + more && z != m ensures exists y :: y in gone + more + {m} && Draws(plan, dd1, y, z) {
      if z in gone {
        var y :| y in gone + {m} && Draws(plan, dd1, y, z);
        assert y in gone + more + {m};
      } else if z == x {
        assert m in gone + more + {m};
      } else {
        var y :| y in more + {x} && Draws(plan, dd, y, z);
        DrewBefore(plan, dd1, vv1, m, busy, gone, dd, vv, y, z);
        assert y in gone + more + {m};
      }
    }
  }

  lemma DrewBefore(plan: Plan, dd1: Lists, vv1: Lists, m: Mod, busy: set<Mod>, gone: set<Mod>, dd: Lists, vv: Lists, y: Mod, z: Mod)
    requires Progress(dd1, vv1, m, busy, gone, dd, vv) && y != m && Draws(plan, dd, y, z)
    ensures Draws(plan, dd1, y, z)
  {
    hide Surviving, LeadsTo;
    SurvivingLeads(dd1[y], gone, z);
  }

  /** A dependency that m does not own is unlinked. */
  lemma TakingCut(plan: Plan, submodules: set<Mod>, installed: set<Mod>, m: Mod, l0: seq<Dep>, l: seq<Dep>, gone: set<Mod>)
    requires Taking(plan, submodules, installed, m, l0, l, gone) && l != [] && !Owned(plan, submodules, installed, m, l[0].dest)
    ensures Taking(plan, submodules, installed, m, l0, l[1..], gone)
  {
    hide Owned;
    forall e | e in l0 && Owned(plan, submodules, installed, m, e.dest) && e.dest !in gone ensures LeadsTo(l[1..], e.dest) {
      var f :| f in l && f.dest == e.dest;
      assert l == [l[0]] + l[1..];
    }
  }

  /** An entry of a busy module stays while its destination does: whoever introduced it is one of the
      two. */
  lemma BusyEntryStays(plan: Plan, dd: Lists, vv: Lists, busy: set<Mod>, loose: set<(Mod, Mod)>, m: Mod, e: Dep, more: set<Mod>)
    requires Inv(plan, dd, vv, busy, loose) && m in busy && m in dd && e in dd[m] && more !! busy && e.dest !in more
    ensures LeadsTo(Surviving(dd[m], more), e.dest)
  {
    hide Surviving, Mirror, StillListed, OwnOrigins, Paired, StaleInverse, Foreseen, Firmly, Orderly;
    BusyOrigins(dd, busy, more, m, e);
    Untouched(dd[m], e, more);
  }

  /** A dependency is removed, and `more` with it. */
  lemma TakingRemoval(plan: Plan, submodules: set<Mod>, installed: set<Mod>, dd: Lists, vv: Lists, busy: set<Mod>, loose: set<(Mod, Mod)>,
                      m: Mod, l0: seq<Dep>, gone: set<Mod>, more: set<Mod>)
    requires Inv(plan, dd, vv, busy, loose) && m in busy && m in dd && more !! busy
    requires Taking(plan, submodules, installed, m, l0, dd[m], gone)
    ensures Taking(plan, submodules, installed, m, l0, Surviving(dd[m], more), gone + more)
  {
    hide Owned, Inv, Surviving;
    forall e | e in l0 && Owned(plan, submodules, installed, m, e.dest) && e.dest !in gone + more ensures LeadsTo(Surviving(dd[m], more), e.dest) {
      var f :| f in dd[m] && f.dest == e.dest;
      BusyEntryStays(plan, dd, vv, busy, loose, m, f, more);
    }
  }

  /** What went with the dependency took along what it owned, also of what was there before. */
  lemma SweptNested(plan: Plan, submodules: set<Mod>, installed: set<Mod>, dd1: Lists, vv1: Lists, m: Mod, busy: set<Mod>, gone: set<Mod>,
                    dd: Lists, vv: Lists, more: set<Mod>)
    requires Progress(dd1, vv1, m, busy, gone, dd, vv) && m !in more && more <= dd.Keys
    requires Swept(plan, submodules, installed, dd1, gone) && Swept(plan, submodules, installed, dd, more)
    ensures Swept(plan, submodules, installed, dd1, gone + more)
  {
    hide Owned, Surviving, Has;
    forall y, t, x | y in gone + more && IsFirm(t) && Edge(dd1, y, t, x) && Owned(plan, submodules, installed, y, x)
      ensures x in gone + more
    {
      if y !in gone && x !in gone {
        EntrySurvives(dd1[y], t, x, gone);
      }
    }
  }

  lemma OwnList(plan: Plan, dd0: Lists, vv0: Lists, busy: set<Mod>, m: Mod, dd1: Lists, vv1: Lists)
    requires Pushing(plan, dd0, vv0, busy, m, dd1, vv1)
    ensures m in dd0 && m in dd1 && forall e :: e in dd0[m] && e.dest != m ==> e in dd1[m]
  {
    hide Inv, RemoveTo, DropOrig;
  }

  /** Imports and inclusions outlast that m is cut off. */
  lemma StillThere(plan: Plan, dd0: Lists, vv0: Lists, busy: set<Mod>, m: Mod, dd1: Lists, vv1: Lists, y: Mod, t: DepType, x: Mod)
    requires Pushing(plan, dd0, vv0, busy, m, dd1, vv1) && Edge(dd0, y, t, x) && x != m && IsFirm(t)
    ensures Edge(dd1, y, t, x)
  {
    hide Inv, Surviving, DropOrig, RemoveTo;
    PushKeys(plan, dd0, vv0, busy, m, dd1, vv1);
    if y == m {
      OwnList(plan, dd0, vv0, busy, m, dd1, vv1);
    } else {
      PushedForward(plan, dd0, vv0, busy, m, dd1, vv1, y);
      EntrySurvives(dd0[y], t, x, {m});
    }
  }

  lemma DrawnWhole(plan: Plan, dd0: Lists, vv0: Lists, busy: set<Mod>, m: Mod, dd1: Lists, vv1: Lists, gone: set<Mod>)
    requires Pushing(plan, dd0, vv0, busy, m, dd1, vv1) && Drawn(plan, dd1, m, gone)
    ensures Drawn(plan, dd0, m, gone + {m})
  {
    hide Pushing, Draws;
    forall x | x in gone + {m} && x != m ensures exists y :: y in gone + {m} + {m} && Draws(plan, dd0, y, x) {
      var y :| y in gone + {m} && Draws(plan, dd1, y, x);
      DrewFirst(plan, dd0, vv0, busy, m, dd1, vv1, y, x);
      assert y in gone + {m} + {m};
    }
  }

  lemma DrewFirst(plan: Plan, dd0: Lists, vv0: Lists, busy: set<Mod>, m: Mod, dd1: Lists, vv1: Lists, y: Mod, x: Mod)
    requires Pushing(plan, dd0, vv0, busy, m, dd1, vv1) && Draws(plan, dd1, y, x)
    ensures Draws(plan, dd0, y, x)
  {
    hide Inv, Surviving, DropOrig, RemoveTo;
    PushKeys(plan, dd0, vv0, busy, m, dd1, vv1);
    if y == m {
      assert LeadsTo(dd0[m], x);
    } else {
      PushedForward(plan, dd0, vv0, busy, m, dd1, vv1, y);
      SurvivingLeads(dd0[y], {m}, x);
    }
  }

  lemma EntryTaken(plan: Plan, submodules: set<Mod>, installed: set<Mod>, m: Mod, l: seq<Dep>, gone: set<Mod>, t: DepType, x: Mod)
    requires Taking(plan, submodules, installed, m, l, [], gone) && Has(l, t, x) && Owned(plan, submodules, installed, m, x)
    ensures x in gone
  {
    hide Owned;
    var e :| e in l && e.ty == t && e.dest == x;
    assert !LeadsTo([], x);
  }

  /** m itself goes. */
  lemma SweptWhole(plan: Plan, submodules: set<Mod>, installed: set<Mod>, dd0: Lists, vv0: Lists, busy: set<Mod>, m: Mod, dd1: Lists, vv1: Lists,
                   gone: set<Mod>)
    requires Pushing(plan, dd0, vv0, busy, m, dd1, vv1) && m !in gone && gone <= dd1.Keys
    requires Swept(plan, submodules, installed, dd1, gone) && m in dd1 && Taking(plan, submodules, installed, m, dd1[m], [], gone)
    ensures Swept(plan, submodules, installed, dd0, gone + {m})
    ensures m in dd0 && Took(plan, submodules, installed, m, dd0[m], gone + {m})
  {
    hide Owned, Has, Pushing, Surviving, DropOrig, RemoveTo;
    PushKeys(plan, dd0, vv0, busy, m, dd1, vv1);
    OwnList(plan, dd0, vv0, busy, m, dd1, vv1);
    forall y, t, x | y in gone + {m} && IsFirm(t) && Edge(dd0, y, t, x) && Owned(plan, submodules, installed, y, x)
      ensures x in gone + {m}
    {
      if x != m {
        StillThere(plan, dd0, vv0, busy, m, dd1, vv1, y, t, x);
        if y == m { EntryTaken(plan, submodules, installed, m, dd1[m], gone, t, x); }
      }
    }
  }
}
