/** The steps of `md_remove_modules_internal` keep the invariant over direct edges: making a
    module busy (cutting the edges into it and what it introduced), unlinking one of its
    dependencies, and letting it go (src/module_dependencies.c:2507-2764). */
module RemovalSteps {
  import opened DepGraph
  import opened RemovalSpec
  import opened RemovalInvariant

  /** Only busy modules need m, apart from extension edges. */
  ghost predicate Unneeded(l: seq<Dep>, busy: set<Mod>) {
    forall f :: f in l ==> f.ty.Extension? || f.dest in busy
  }

  /** m may become busy. */
  ghost predicate Ready(plan: Plan, dd: Lists, vv: Lists, busy: set<Mod>, m: Mod) {
    && Inv(plan, dd, vv, busy, {})
    && m in dd && m !in busy && m in plan.leaving && m in (if busy == {} then plan.targets else plan.removable)
    && Unneeded(vv[m], busy)
  }

  /** Direct edges after m became busy: every edge into m is cut (2508-2527), and data edges
      lose m as an originator at the modules it imports (2578-2633). */
  ghost predicate IsPushed(dd: Lists, vv: Lists, m: Mod, d: Lists, v: Lists) {
    && d.Keys == dd.Keys && v.Keys == vv.Keys
    && m in d && m in v && d[m] == RemoveTo(dd[m], m) && v[m] == vv[m]
    && (forall i :: i in d && i != m ==>
          d[i] == if Has(dd[m], Import, i) then DropOrig(RemoveTo(dd[i], m), m) else RemoveTo(dd[i], m))
    && (forall k :: k in v && k != m ==>
          v[k] == if Has(dd[m], Import, k) then DropOrig(vv[k], m) else vv[k])
  }

  /** The edges into m are found from its inverted list. */
  lemma SourcesKnown(plan: Plan, dd: Lists, vv: Lists, busy: set<Mod>, m: Mod, i: Mod)
    requires Ready(plan, dd, vv, busy, m) && i in dd && LeadsTo(dd[i], m)
    ensures LeadsTo(vv[m], i)
  {
    var e :| e in dd[i] && e.dest == m;
    if i !in busy {
      assert Dep(e.ty, i, true, e.origs) in vv[m];
    }
  }

  /** Nothing that stays imports m. */
  lemma NotImported(plan: Plan, dd: Lists, vv: Lists, busy: set<Mod>, m: Mod, x: Mod)
    requires Ready(plan, dd, vv, busy, m) && x in dd && x !in busy
    ensures !Has(dd[x], Import, m)
  {
  }

  /** m introduced a data edge away from itself only between modules it imports. */
  lemma IntroducedByImporter(plan: Plan, dd: Lists, vv: Lists, busy: set<Mod>, m: Mod, i: Mod, e: Dep)
    requires Ready(plan, dd, vv, busy, m)
    requires i in dd && i != m && e in dd[i] && e.dest != m && e.ty.Data? && m in e.origs
    ensures i !in busy && Has(dd[m], Import, i) && Has(dd[m], Import, e.dest)
  {
  }

  lemma IntroducedInverse(plan: Plan, dd: Lists, vv: Lists, busy: set<Mod>, m: Mod, k: Mod, f: Dep)
    requires Ready(plan, dd, vv, busy, m)
    requires k in vv && k != m && k !in busy && f in vv[k] && f.dest != m && f.ty.Data? && m in f.origs
    ensures Has(dd[m], Import, k)
  {
    if f.dest !in busy {
      IntroducedByImporter(plan, dd, vv, busy, m, f.dest, Dep(f.ty, k, true, f.origs));
    }
  }

  /** Forward lists are exactly what removing m leaves of them. */
  lemma PushedForward(plan: Plan, dd: Lists, vv: Lists, busy: set<Mod>, m: Mod, d: Lists, v: Lists, i: Mod)
    requires Ready(plan, dd, vv, busy, m) && IsPushed(dd, vv, m, d, v) && i in d && i != m
    ensures d[i] == Surviving(dd[i], {m})
  {
    hide Surviving, DropOrig, RemoveTo;
    if Has(dd[m], Import, i) {
      DropOrigSurviving(dd[i], m);
    } else {
      forall e | e in dd[i] && e.ty.Data? && e.dest != m ensures m !in e.origs {
        if m in e.origs { IntroducedByImporter(plan, dd, vv, busy, m, i, e); }
      }
      NotOriginated(dd[i], m);
    }
  }

  /** Inverted lists are, once the entries for m go. */
  lemma PushedInverse(plan: Plan, dd: Lists, vv: Lists, busy: set<Mod>, m: Mod, d: Lists, v: Lists, k: Mod)
    requires Ready(plan, dd, vv, busy, m) && IsPushed(dd, vv, m, d, v) && k in v && k != m && k !in busy
    ensures RemoveTo(v[k], m) == Surviving(vv[k], {m})
  {
    hide Surviving, DropOrig, RemoveTo;
    if Has(dd[m], Import, k) {
      DropOrigSurviving(vv[k], m);
    } else {
      forall f | f in vv[k] && f.ty.Data? && f.dest != m ensures m !in f.origs {
        if m in f.origs { IntroducedInverse(plan, dd, vv, busy, m, k, f); }
      }
      NotOriginated(vv[k], m);
    }
  }

  lemma StaleUntouched(plan: Plan, dd: Lists, vv: Lists, busy: set<Mod>, m: Mod, d: Lists, v: Lists, k: Mod)
    requires Ready(plan, dd, vv, busy, m) && IsPushed(dd, vv, m, d, v) && k in v && k in busy
    ensures v[k] == vv[k]
  {
  }

  // ---------------------------------------------------------------- a module becomes busy

  ghost predicate Pushing(plan: Plan, dd: Lists, vv: Lists, busy: set<Mod>, m: Mod, d: Lists, v: Lists) {
    Ready(plan, dd, vv, busy, m) && IsPushed(dd, vv, m, d, v)
  }

  /** An inverted entry for m itself may have lost originators, not more. */
  lemma EntryForPushed(plan: Plan, dd: Lists, vv: Lists, busy: set<Mod>, m: Mod, d: Lists, v: Lists, k: Mod, f: Dep)
    returns (e: Dep)
    requires Pushing(plan, dd, vv, busy, m, d, v) && k in v && k != m && k !in busy && f in v[k] && f.dest == m
    ensures e in dd[m] && e in d[m] && e.dest == k && e.ty == f.ty
    ensures forall x :: x in f.origs ==> x in e.origs
    ensures f.direct && (f.ty.Data? ==> f.origs != [] && Distinct(f.origs))
  {
    hide DropOrig, RemoveTo;
    var f0 := f;
    if Has(dd[m], Import, k) {
      f0 := DroppedFrom(vv[k], m, f);
    }
    e := Dep(f0.ty, k, true, f0.origs);
  }

  lemma PushEdgeAt(plan: Plan, dd: Lists, vv: Lists, busy: set<Mod>, m: Mod, d: Lists, v: Lists, i: Mod, e: Dep)
    requires Pushing(plan, dd, vv, busy, m, d, v) && i in d && e in d[i]
    ensures e.direct && e.dest in d && e.dest !in busy + {m}
  {
    hide Surviving, DropOrig, RemoveTo, Survivor;
    if i != m {
      PushedForward(plan, dd, vv, busy, m, d, v, i);
      var e0 := SurvivedFrom(dd[i], {m}, e);
      SurvivorShape(e0, {m}, e);
    }
  }

  lemma PushOrigsAt(plan: Plan, dd: Lists, vv: Lists, busy: set<Mod>, m: Mod, d: Lists, v: Lists, i: Mod)
    requires Pushing(plan, dd, vv, busy, m, d, v) && i in d
    ensures i in v && GoodOrigs(d[i]) && GoodOrigs(v[i])
  {
    hide Surviving, DropOrig, RemoveTo, Survivor, Mirror, StillListed, OwnOrigins, Paired, Originated;
    if i != m {
      PushedForward(plan, dd, vv, busy, m, d, v, i);
      OrigsSurvive(dd[i], {m});
    }
    forall f | f in v[i] && f.ty.Data? ensures f.origs != [] && Distinct(f.origs) {
      PushedGood(plan, dd, vv, busy, m, d, v, i, f);
    }
  }

  lemma PushKeys(plan: Plan, dd: Lists, vv: Lists, busy: set<Mod>, m: Mod, d: Lists, v: Lists)
    requires Pushing(plan, dd, vv, busy, m, d, v)
    ensures d.Keys == v.Keys == dd.Keys == vv.Keys && busy + {m} <= d.Keys
  {
    hide Mirror, StillListed, OwnOrigins, Paired, Orderly, Originated, Firmly, StaleInverse, Foreseen;
  }

  lemma PushEdges(plan: Plan, dd: Lists, vv: Lists, busy: set<Mod>, m: Mod, d: Lists, v: Lists)
    requires Pushing(plan, dd, vv, busy, m, d, v)
    ensures Edges(d, v, busy + {m})
  {
    PushKeys(plan, dd, vv, busy, m, d, v);
    hide Pushing, GoodOrigs;
    forall i, e: Dep | i in d && e in d[i] ensures e.direct && e.dest in d && e.dest !in busy + {m} {
      PushEdgeAt(plan, dd, vv, busy, m, d, v, i, e);
    }
    forall k, f: Dep | k in v && f in v[k] ensures f.direct {
      PushedGood(plan, dd, vv, busy, m, d, v, k, f);
    }
    forall i | i in d ensures GoodOrigs(d[i]) && GoodOrigs(v[i]) {
      PushOrigsAt(plan, dd, vv, busy, m, d, v, i);
    }
  }

  lemma SurvivorShape(e0: Dep, gone: set<Mod>, e: Dep)
    requires Survivor(e0, gone) == Some(e)
    ensures e.dest == e0.dest && e.ty == e0.ty && e.direct == e0.direct && e.dest !in gone
    ensures forall x :: x in e.origs ==> x in e0.origs
    ensures e.ty.Data? ==> forall x :: x in e.origs ==> x !in gone
  {
  }

  lemma PushedGood(plan: Plan, dd: Lists, vv: Lists, busy: set<Mod>, m: Mod, d: Lists, v: Lists, k: Mod, f: Dep)
    requires Pushing(plan, dd, vv, busy, m, d, v) && k in v && f in v[k]
    ensures f.direct && (f.ty.Data? ==> f.origs != [] && Distinct(f.origs))
  {
    hide DropOrig, RemoveTo, Distinct;
    hide StillListed, OwnOrigins, Paired, StaleInverse, Foreseen, Firmly, Orderly, Mirror, Originated;
    if k != m && Has(dd[m], Import, k) {
      var f0 := DroppedFrom(vv[k], m, f);
    }
  }

  lemma PushMirrorAt(plan: Plan, dd: Lists, vv: Lists, busy: set<Mod>, m: Mod, d: Lists, v: Lists, i: Mod, e: Dep)
    requires Pushing(plan, dd, vv, busy, m, d, v) && i in d && i !in busy + {m} && e in d[i]
    ensures e.dest in v && Dep(e.ty, i, true, e.origs) in v[e.dest]
  {
    hide Surviving, DropOrig, RemoveTo, Survivor, MirrorBack;
    hide StillListed, OwnOrigins, Paired, StaleInverse, Foreseen, Originated, Firmly, Orderly;
    PushedForward(plan, dd, vv, busy, m, d, v, i);
    var e0 := CounterpartSurvives(dd, vv, i, {m}, e);
    PushedInverse(plan, dd, vv, busy, m, d, v, e.dest);
  }

  lemma PushMirrorBackAt(plan: Plan, dd: Lists, vv: Lists, busy: set<Mod>, m: Mod, d: Lists, v: Lists, k: Mod, f: Dep)
    requires Pushing(plan, dd, vv, busy, m, d, v) && k in v && k !in busy + {m} && f in v[k] && f.dest !in busy + {m}
    ensures f.dest in d && Dep(f.ty, k, true, f.origs) in d[f.dest]
  {
    hide Surviving, DropOrig, RemoveTo, Survivor, MirrorForth;
    hide StillListed, OwnOrigins, Paired, StaleInverse, Foreseen, Originated, Firmly, Orderly;
    PushedInverse(plan, dd, vv, busy, m, d, v, k);
    var f0 := CounterpartSurvives(vv, dd, k, {m}, f);
    PushedForward(plan, dd, vv, busy, m, d, v, f.dest);
  }

  lemma PushMirrorForth(plan: Plan, dd: Lists, vv: Lists, busy: set<Mod>, m: Mod, d: Lists, v: Lists)
    requires Pushing(plan, dd, vv, busy, m, d, v)
    ensures MirrorForth(d, v, busy + {m})
  {
    hide Pushing;
    forall i, e: Dep | i in d && i !in busy + {m} && e in d[i]
      ensures e.dest in v && Dep(e.ty, i, true, e.origs) in v[e.dest]
    {
      PushMirrorAt(plan, dd, vv, busy, m, d, v, i, e);
    }
  }

  lemma PushMirrorBack(plan: Plan, dd: Lists, vv: Lists, busy: set<Mod>, m: Mod, d: Lists, v: Lists)
    requires Pushing(plan, dd, vv, busy, m, d, v)
    ensures MirrorBack(d, v, busy + {m})
  {
    hide Pushing;
    forall k, f: Dep | k in v && k !in busy + {m} && f in v[k] && f.dest !in busy + {m}
      ensures f.dest in d && Dep(f.ty, k, true, f.origs) in d[f.dest]
    {
      PushMirrorBackAt(plan, dd, vv, busy, m, d, v, k, f);
    }
  }

  lemma PushMirror(plan: Plan, dd: Lists, vv: Lists, busy: set<Mod>, m: Mod, d: Lists, v: Lists)
    requires Pushing(plan, dd, vv, busy, m, d, v)
    ensures Mirror(d, v, busy + {m})
  {
    hide Pushing, MirrorForth, MirrorBack;
    PushMirrorForth(plan, dd, vv, busy, m, d, v);
    PushMirrorBack(plan, dd, vv, busy, m, d, v);
  }

  /** An inverted entry for another busy module is unchanged. */
  lemma EntryForBusy(plan: Plan, dd: Lists, vv: Lists, busy: set<Mod>, m: Mod, d: Lists, v: Lists, k: Mod, f: Dep)
    requires Pushing(plan, dd, vv, busy, m, d, v) && k in v && k !in busy + {m} && f in v[k] && f.dest in busy
    ensures f in vv[k]
  {
    hide Surviving, DropOrig, RemoveTo;
    hide StillListed, Paired, StaleInverse, Foreseen, Originated, Firmly, Orderly, Mirror;
    PushedInverse(plan, dd, vv, busy, m, d, v, k);
    var f0 := SurvivedFrom(vv[k], {m}, f);
    if f.ty.Data? {
      WithoutNothing(f0.origs, {m});
    }
  }

  /** So is a forward entry of another busy module. */
  lemma BusyKeeps(plan: Plan, dd: Lists, vv: Lists, busy: set<Mod>, m: Mod, d: Lists, v: Lists, i: Mod, e: Dep)
    requires Pushing(plan, dd, vv, busy, m, d, v) && i in busy && e in dd[i] && e.dest != m
    ensures i in d && e in d[i]
  {
    hide Surviving, DropOrig, RemoveTo, Survivor;
    hide StillListed, Paired, StaleInverse, Foreseen, Firmly, Orderly, Mirror;
    BusyOrigins(dd, busy, {m}, i, e);
    Untouched(dd[i], e, {m});
    PushedForward(plan, dd, vv, busy, m, d, v, i);
  }

  lemma PushStillListedAt(plan: Plan, dd: Lists, vv: Lists, busy: set<Mod>, m: Mod, d: Lists, v: Lists, k: Mod, f: Dep)
    requires Pushing(plan, dd, vv, busy, m, d, v) && k in v && k !in busy + {m} && f in v[k] && f.dest in busy + {m}
    ensures f.dest in d && Has(d[f.dest], f.ty, k)
  {
    hide Surviving, DropOrig, RemoveTo, Survivor;
    hide OwnOrigins, Paired, StaleInverse, Foreseen, Firmly, Orderly, Mirror, Originated;
    if f.dest == m {
      var e := EntryForPushed(plan, dd, vv, busy, m, d, v, k, f);
    } else {
      EntryForBusy(plan, dd, vv, busy, m, d, v, k, f);
      var e :| e in dd[f.dest] && e.dest == k && e.ty == f.ty;
      BusyKeeps(plan, dd, vv, busy, m, d, v, f.dest, e);
    }
  }

  lemma PushStillListed(plan: Plan, dd: Lists, vv: Lists, busy: set<Mod>, m: Mod, d: Lists, v: Lists)
    requires Pushing(plan, dd, vv, busy, m, d, v)
    ensures StillListed(d, v, busy + {m})
  {
    hide Pushing;
    forall k, f: Dep | k in v && k !in busy + {m} && f in v[k] && f.dest in busy + {m}
      ensures f.dest in d && Has(d[f.dest], f.ty, k)
    {
      PushStillListedAt(plan, dd, vv, busy, m, d, v, k, f);
    }
  }

  lemma PushOwnOriginsAt(plan: Plan, dd: Lists, vv: Lists, busy: set<Mod>, m: Mod, d: Lists, v: Lists, k: Mod, f: Dep, x: Mod)
    requires Pushing(plan, dd, vv, busy, m, d, v) && k in v && k !in busy + {m} && f in v[k] && f.dest in busy + {m} && f.ty.Data? && x in f.origs
    ensures x == f.dest || x == k
  {
    hide Pushing;
    if f.dest == m {
      PushedOriginsAt(plan, dd, vv, busy, m, d, v, k, f, x);
    } else {
      BusyOriginsAt(plan, dd, vv, busy, m, d, v, k, f, x);
    }
  }

  lemma PushedOriginsAt(plan: Plan, dd: Lists, vv: Lists, busy: set<Mod>, m: Mod, d: Lists, v: Lists, k: Mod, f: Dep, x: Mod)
    requires Pushing(plan, dd, vv, busy, m, d, v) && k in v && k !in busy + {m} && f in v[k] && f.dest == m && f.ty.Data? && x in f.origs
    ensures x == m || x == k
  {
    hide Pushing;
    PushKeys(plan, dd, vv, busy, m, d, v);
    var e := EntryForPushed(plan, dd, vv, busy, m, d, v, k, f);
    OriginOfPushed(plan, dd, vv, busy, m, d, v, e, x);
  }

  lemma BusyOriginsAt(plan: Plan, dd: Lists, vv: Lists, busy: set<Mod>, m: Mod, d: Lists, v: Lists, k: Mod, f: Dep, x: Mod)
    requires Pushing(plan, dd, vv, busy, m, d, v) && k in v && k !in busy + {m} && f in v[k] && f.dest in busy && f.ty.Data? && x in f.origs
    ensures x == f.dest || x == k
  {
    hide Pushing;
    PushKeys(plan, dd, vv, busy, m, d, v);
    EntryForBusy(plan, dd, vv, busy, m, d, v, k, f);
    OriginOfBusy(plan, dd, vv, busy, m, d, v, k, f, x);
  }

  lemma OriginOfPushed(plan: Plan, dd: Lists, vv: Lists, busy: set<Mod>, m: Mod, d: Lists, v: Lists, e: Dep, x: Mod)
    requires Pushing(plan, dd, vv, busy, m, d, v) && m in dd && e in dd[m] && e.ty.Data? && x in e.origs
    ensures x == m || x == e.dest
  {
    hide IsPushed, Edges, OwnOrigins, StillListed, Paired, StaleInverse, Foreseen, Firmly, Orderly, Mirror;
    if x != m && x != e.dest {
      NotImported(plan, dd, vv, busy, m, x);
    }
  }

  lemma OriginOfBusy(plan: Plan, dd: Lists, vv: Lists, busy: set<Mod>, m: Mod, d: Lists, v: Lists, k: Mod, f: Dep, x: Mod)
    requires Pushing(plan, dd, vv, busy, m, d, v) && k in vv && k !in busy && f in vv[k] && f.dest in busy && f.ty.Data? && x in f.origs
    ensures x == f.dest || x == k
  {
    hide IsPushed, Edges, Originated, StillListed, Paired, StaleInverse, Foreseen, Firmly, Orderly, Mirror;
  }

  lemma PushOwnOrigins(plan: Plan, dd: Lists, vv: Lists, busy: set<Mod>, m: Mod, d: Lists, v: Lists)
    requires Pushing(plan, dd, vv, busy, m, d, v)
    ensures OwnOrigins(v, busy + {m})
  {
    hide Pushing;
    forall k, f: Dep, x: Mod | k in v && k !in busy + {m} && f in v[k] && f.dest in busy + {m} && f.ty.Data? && x in f.origs
      ensures x == f.dest || x == k
    {
      PushOwnOriginsAt(plan, dd, vv, busy, m, d, v, k, f, x);
    }
  }

  /** A busy module other than m is still found from what it lists. */
  lemma BusyFound(plan: Plan, dd: Lists, vv: Lists, busy: set<Mod>, m: Mod, d: Lists, v: Lists, i: Mod, e: Dep)
    requires Pushing(plan, dd, vv, busy, m, d, v) && i in busy && i in d && e in d[i] && e.dest in plan.removable
    ensures e.dest in v && LeadsTo(v[e.dest], i)
  {
    hide Surviving, DropOrig, RemoveTo, Survivor;
    hide StillListed, StaleInverse, Foreseen, Firmly, Orderly, Originated, Firmly, Mirror;
    PushedForward(plan, dd, vv, busy, m, d, v, i);
    var e0 := SurvivedFrom(dd[i], {m}, e);
    SurvivorShape(e0, {m}, e);
    var f :| f in vv[e.dest] && f.dest == i;
    Untouched(vv[e.dest], f, {m});
    PushedInverse(plan, dd, vv, busy, m, d, v, e.dest);
  }

  lemma PushPaired(plan: Plan, dd: Lists, vv: Lists, busy: set<Mod>, m: Mod, d: Lists, v: Lists)
    requires Pushing(plan, dd, vv, busy, m, d, v)
    ensures Paired(plan.removable, d, v, busy + {m}, {})
  {
    assert m in d;
    hide Pushing;
    forall i, e: Dep | i in d && i in busy + {m} && e in d[i] && e.dest in plan.removable
      ensures e.dest in v && LeadsTo(v[e.dest], i)
    {
      if i == m {
        PushedPaired(plan, dd, vv, busy, m, d, v, e);
      } else {
        BusyFound(plan, dd, vv, busy, m, d, v, i, e);
      }
    }
  }

  lemma PushedPaired(plan: Plan, dd: Lists, vv: Lists, busy: set<Mod>, m: Mod, d: Lists, v: Lists, e: Dep)
    requires Pushing(plan, dd, vv, busy, m, d, v) && e in d[m]
    ensures e.dest in v && LeadsTo(v[e.dest], m)
  {
    hide DropOrig, RemoveTo;
    if Has(dd[m], Import, e.dest) {
      var i :| i in dd[m] && i.dest == e.dest && i.ty == Import;
      var f := Dep(i.ty, m, true, i.origs);
      assert f in vv[e.dest];
      KeptByDrop(vv[e.dest], m, f);
    } else {
      assert Dep(e.ty, m, true, e.origs) in vv[e.dest];
    }
  }

  lemma PushStale(plan: Plan, dd: Lists, vv: Lists, busy: set<Mod>, m: Mod, d: Lists, v: Lists)
    requires Pushing(plan, dd, vv, busy, m, d, v)
    ensures StaleInverse(v, busy + {m})
  {
    hide Surviving, DropOrig, RemoveTo, Survivor;
    hide StillListed, OwnOrigins, Paired, Orderly, Originated, Firmly, Mirror, Foreseen;
    forall k, f: Dep | k in v && k in busy + {m} && f in v[k] ensures f.ty.Extension? || f.dest in busy + {m} {
      if k != m { StaleUntouched(plan, dd, vv, busy, m, d, v, k); }
    }
  }

  lemma PushForeseenAt(plan: Plan, dd: Lists, vv: Lists, busy: set<Mod>, m: Mod, d: Lists, v: Lists, i: Mod, e: Dep)
    requires Pushing(plan, dd, vv, busy, m, d, v) && i in d && e in d[i] && e.ty.Extension?
    ensures (i, e.dest) in plan.extensions
  {
    hide Surviving, DropOrig, RemoveTo, Survivor;
    hide StillListed, OwnOrigins, Paired, Orderly, Originated, Firmly, Mirror, StaleInverse;
    if i != m {
      PushedForward(plan, dd, vv, busy, m, d, v, i);
      var e0 := SurvivedFrom(dd[i], {m}, e);
      SurvivorShape(e0, {m}, e);
    }
  }

  lemma PushForeseenBackAt(plan: Plan, dd: Lists, vv: Lists, busy: set<Mod>, m: Mod, d: Lists, v: Lists, k: Mod, f: Dep)
    requires Pushing(plan, dd, vv, busy, m, d, v) && k in v && f in v[k]
    ensures f.ty.Extension? ==> (f.dest, k) in plan.extensions
    ensures k in busy + {m} ==> f.dest in d || f.dest in plan.removable
  {
    hide Surviving, DropOrig, RemoveTo, Survivor;
    hide StillListed, OwnOrigins, Paired, Orderly, Originated, Firmly;
    if k in busy {
      StaleUntouched(plan, dd, vv, busy, m, d, v, k);
    } else if k != m && Has(dd[m], Import, k) {
      var f0 := DroppedFrom(vv[k], m, f);
    }
  }

  lemma PushValid(plan: Plan, dd: Lists, vv: Lists, busy: set<Mod>, m: Mod, d: Lists, v: Lists)
    requires Pushing(plan, dd, vv, busy, m, d, v)
    ensures plan.Valid() && busy + {m} <= plan.leaving
  {
    hide Edges, Mirror, StillListed, OwnOrigins, Paired, Orderly, Originated, Firmly, StaleInverse, IsPushed;
  }

  lemma PushForeseen(plan: Plan, dd: Lists, vv: Lists, busy: set<Mod>, m: Mod, d: Lists, v: Lists)
    requires Pushing(plan, dd, vv, busy, m, d, v)
    ensures Foreseen(plan, d, v, busy + {m})
  {
    PushValid(plan, dd, vv, busy, m, d, v);
    hide Pushing;
    forall i, e: Dep | i in d && e in d[i] && e.ty.Extension? ensures (i, e.dest) in plan.extensions {
      PushForeseenAt(plan, dd, vv, busy, m, d, v, i, e);
    }
    forall k, f: Dep | k in v && f in v[k]
      ensures f.ty.Extension? ==> (f.dest, k) in plan.extensions
      ensures k in busy + {m} ==> f.dest in d || f.dest in plan.removable
    {
      PushForeseenBackAt(plan, dd, vv, busy, m, d, v, k, f);
    }
  }

  /** A module other than m that imports i keeps doing so. */
  lemma ImporterKeeps(plan: Plan, dd: Lists, vv: Lists, busy: set<Mod>, m: Mod, d: Lists, v: Lists, x: Mod, i: Mod)
    requires Pushing(plan, dd, vv, busy, m, d, v) && x in dd && x != m && i != m && Has(dd[x], Import, i)
    ensures x in d && Has(d[x], Import, i)
  {
    hide Surviving, DropOrig, RemoveTo, Survivor, Inv;
    EntrySurvives(dd[x], Import, i, {m});
    PushedForward(plan, dd, vv, busy, m, d, v, x);
  }

  /** The originator x of an entry of i: an end, or an importer of both ends. */
  lemma OriginatedAt(plan: Plan, dd: Lists, vv: Lists, busy: set<Mod>, m: Mod, i: Mod, e: Dep, x: Mod)
    requires Ready(plan, dd, vv, busy, m) && i in dd && e in dd[i] && e.ty.Data? && x in e.origs
    requires x != i && x != e.dest
    ensures i !in busy && x in dd && x !in busy && Has(dd[x], Import, i) && Has(dd[x], Import, e.dest)
  {
    hide StillListed, OwnOrigins, Paired, Orderly, Mirror, StaleInverse, Foreseen, Has;
  }

  lemma PushOriginatedAt(plan: Plan, dd: Lists, vv: Lists, busy: set<Mod>, m: Mod, d: Lists, v: Lists, i: Mod, e: Dep, x: Mod)
    requires Pushing(plan, dd, vv, busy, m, d, v) && i in d && e in d[i] && e.ty.Data? && x in e.origs
    requires x != i && x != e.dest
    ensures i !in busy + {m} && x in d && x !in busy + {m} && Has(d[x], Import, i) && Has(d[x], Import, e.dest)
  {
    hide Surviving, DropOrig, RemoveTo, Survivor, Ready, Has;
    PushKeys(plan, dd, vv, busy, m, d, v);
    if i == m {
      OriginatedAt(plan, dd, vv, busy, m, m, e, x);
      NotImported(plan, dd, vv, busy, m, x);
    } else {
      PushedForward(plan, dd, vv, busy, m, d, v, i);
      var e0 := SurvivedFrom(dd[i], {m}, e);
      SurvivorShape(e0, {m}, e);
      OriginatedAt(plan, dd, vv, busy, m, i, e0, x);
      ImporterKeeps(plan, dd, vv, busy, m, d, v, x, i);
      ImporterKeeps(plan, dd, vv, busy, m, d, v, x, e.dest);
    }
  }

  lemma PushOriginated(plan: Plan, dd: Lists, vv: Lists, busy: set<Mod>, m: Mod, d: Lists, v: Lists)
    requires Pushing(plan, dd, vv, busy, m, d, v)
    ensures Originated(d, busy + {m})
  {
    hide Pushing;
    forall i, e: Dep, x: Mod | i in d && e in d[i] && e.ty.Data? && x in e.origs
      ensures x == i || x == e.dest || (i !in busy + {m} && x in d && x !in busy + {m}
                                        && Has(d[x], Import, i) && Has(d[x], Import, e.dest))
    {
      if x != i && x != e.dest { PushOriginatedAt(plan, dd, vv, busy, m, d, v, i, e, x); }
    }
  }

  lemma PushFirmAt(plan: Plan, dd: Lists, vv: Lists, busy: set<Mod>, m: Mod, d: Lists, v: Lists, i: Mod, t: DepType, y: Mod)
    requires Pushing(plan, dd, vv, busy, m, d, v) && (i, t, y) in plan.firm && i in d && i !in busy + {m} && y in d
    ensures y !in busy + {m} && Has(d[i], t, y)
  {
    hide Surviving, DropOrig, RemoveTo, Mirror;
    hide StillListed, OwnOrigins, Paired, Originated, Orderly, StaleInverse;
    NotFirm(plan, dd, vv, busy, m, i, t);
    EntrySurvives(dd[i], t, y, {m});
    PushedForward(plan, dd, vv, busy, m, d, v, i);
  }

  /** No module that stays imports or includes one that becomes busy. */
  lemma NotFirm(plan: Plan, dd: Lists, vv: Lists, busy: set<Mod>, m: Mod, i: Mod, t: DepType)
    requires Ready(plan, dd, vv, busy, m) && i in dd && i !in busy
    ensures (i, t, m) !in plan.firm
  {
    hide StillListed, OwnOrigins, Paired, Originated, Orderly, StaleInverse, MirrorForth, MirrorBack;
    FirmMirrored(plan, dd, vv, busy, m, i, t);
  }

  lemma FirmMirrored(plan: Plan, dd: Lists, vv: Lists, busy: set<Mod>, m: Mod, i: Mod, t: DepType)
    requires MirrorForth(dd, vv, busy) && Firmly(plan, dd, vv, busy) && m in dd && m in vv && i in dd && i !in busy
    ensures (i, t, m) in plan.firm ==> Has(vv[m], t, i)
  {
    if (i, t, m) in plan.firm {
      var e :| e in dd[i] && e.ty == t && e.dest == m;
      assert Dep(e.ty, i, true, e.origs) in vv[m];
    }
  }

  lemma PushFirmBackAt(plan: Plan, dd: Lists, vv: Lists, busy: set<Mod>, m: Mod, d: Lists, v: Lists, i: Mod, t: DepType, b: Mod)
    requires Pushing(plan, dd, vv, busy, m, d, v) && (b, t, i) in plan.firm && i in v && LeadsTo(v[i], b)
    ensures Has(v[i], t, b)
  {
    hide Surviving, DropOrig, RemoveTo, Mirror;
    hide StillListed, OwnOrigins, Paired, Originated, Orderly, StaleInverse;
    if i != m && Has(dd[m], Import, i) {
      var f :| f in v[i] && f.dest == b;
      var f0 := DroppedFrom(vv[i], m, f);
      var g :| g in vv[i] && g.ty == t && g.dest == b;
      KeptByDrop(vv[i], m, g);
    }
  }

  lemma PushListedAt(plan: Plan, dd: Lists, vv: Lists, busy: set<Mod>, m: Mod, d: Lists, v: Lists, i: Mod, e: Dep)
    requires Pushing(plan, dd, vv, busy, m, d, v) && i in d
    ensures e in d[i] ==> (i, e.dest) in plan.listed
    ensures i in v && (e in v[i] ==> (e.dest, i) in plan.listed)
  {
    hide Surviving, DropOrig, RemoveTo, Survivor, Mirror, Has;
    hide StillListed, OwnOrigins, Paired, Originated, Orderly, StaleInverse, Foreseen;
    if e in d[i] && i != m {
      PushedForward(plan, dd, vv, busy, m, d, v, i);
      var e0 := SurvivedFrom(dd[i], {m}, e);
      SurvivorShape(e0, {m}, e);
    }
    if e in v[i] && i != m && Has(dd[m], Import, i) {
      var f0 := DroppedFrom(vv[i], m, e);
    }
  }

  lemma PushFirmly(plan: Plan, dd: Lists, vv: Lists, busy: set<Mod>, m: Mod, d: Lists, v: Lists)
    requires Pushing(plan, dd, vv, busy, m, d, v)
    ensures Firmly(plan, d, v, busy + {m})
  {
    hide Pushing, Has, LeadsTo;
    PushKeys(plan, dd, vv, busy, m, d, v);
    forall i, t, y | (i, t, y) in plan.firm && i in d && i !in busy + {m} && y in d ensures y !in busy + {m} && Has(d[i], t, y) {
      PushFirmAt(plan, dd, vv, busy, m, d, v, i, t, y);
    }
    forall b, t, i | (b, t, i) in plan.firm && i in v && LeadsTo(v[i], b) ensures Has(v[i], t, b) {
      PushFirmBackAt(plan, dd, vv, busy, m, d, v, i, t, b);
    }
    forall i, e: Dep | i in d && e in d[i] ensures (i, e.dest) in plan.listed {
      PushListedAt(plan, dd, vv, busy, m, d, v, i, e);
    }
    forall k, f: Dep | k in v && f in v[k] ensures (f.dest, k) in plan.listed {
      PushListedAt(plan, dd, vv, busy, m, d, v, k, f);
    }
  }

  lemma PushOrderly(plan: Plan, dd: Lists, vv: Lists, busy: set<Mod>, m: Mod, d: Lists, v: Lists)
    requires Pushing(plan, dd, vv, busy, m, d, v)
    ensures Orderly(plan, d)
  {
    hide Surviving, DropOrig, RemoveTo, Survivor;
    forall i | i in d && i in plan.leaving && !plan.HeldBack(i) ensures NoSplit(plan, i, d[i]) {
      if i == m {
        NoSplitRemoveTo(plan, m, dd[m], m);
      } else {
        PushedForward(plan, dd, vv, busy, m, d, v, i);
        NoSplitSurvives(plan, i, dd[i], {m});
      }
    }
  }

  /** A module that may become busy does so without breaking the invariant. */
  lemma PushKeepsInv(plan: Plan, dd: Lists, vv: Lists, busy: set<Mod>, m: Mod, d: Lists, v: Lists)
    requires Pushing(plan, dd, vv, busy, m, d, v)
    ensures Inv(plan, d, v, busy + {m}, {})
  {
    PushEdges(plan, dd, vv, busy, m, d, v);
    PushMirror(plan, dd, vv, busy, m, d, v);
    PushStillListed(plan, dd, vv, busy, m, d, v);
    PushOwnOrigins(plan, dd, vv, busy, m, d, v);
    PushPaired(plan, dd, vv, busy, m, d, v);
    PushStale(plan, dd, vv, busy, m, d, v);
    PushForeseen(plan, dd, vv, busy, m, d, v);
    PushOriginated(plan, dd, vv, busy, m, d, v);
    PushFirmly(plan, dd, vv, busy, m, d, v);
    PushOrderly(plan, dd, vv, busy, m, d, v);
  }

  // ---------------------------------------------------------------- one dependency is unlinked

  /** The dependency a busy m is at is unlinked on both sides (2741-2757); for a removable target
      that other entries of m still name, the pair is loose until those are reached. */
  ghost predicate IsCut(dd: Lists, vv: Lists, m: Mod, d: Lists, v: Lists) {
    && m in dd && dd[m] != [] && dd[m][0].dest in vv
    && d == dd[m := dd[m][1..]]
    && v == vv[dd[m][0].dest := RemoveTo(vv[dd[m][0].dest], m)]
  }

  /** Nothing appears that was not there. */
  lemma CutShrinks(dd: Lists, vv: Lists, m: Mod, d: Lists, v: Lists)
    requires IsCut(dd, vv, m, d, v)
    ensures d.Keys == dd.Keys && v.Keys == vv.Keys
    ensures forall i :: i in d && i != m ==> d[i] == dd[i]
    ensures forall i, e :: i in d && e in d[i] ==> e in dd[i]
    ensures forall k, f :: k in v ==> (f in v[k] ==> f in vv[k])
    ensures forall k, f :: k in v && f in vv[k] && f.dest != m ==> f in v[k]
  {
    hide RemoveTo;
    assert dd[m][0] in dd[m];
  }

  lemma CutEdges(dd: Lists, vv: Lists, busy: set<Mod>, m: Mod, d: Lists, v: Lists)
    requires Edges(dd, vv, busy) && IsCut(dd, vv, m, d, v)
    ensures Edges(d, v, busy)
  {
    CutShrinks(dd, vv, m, d, v);
    hide IsCut;
  }

  lemma CutMirrorForth(dd: Lists, vv: Lists, busy: set<Mod>, m: Mod, d: Lists, v: Lists)
    requires MirrorForth(dd, vv, busy) && m in busy && IsCut(dd, vv, m, d, v)
    ensures MirrorForth(d, v, busy)
  {
    CutShrinks(dd, vv, m, d, v);
    hide IsCut;
  }

  lemma CutMirrorBack(dd: Lists, vv: Lists, busy: set<Mod>, m: Mod, d: Lists, v: Lists)
    requires MirrorBack(dd, vv, busy) && m in busy && IsCut(dd, vv, m, d, v)
    ensures MirrorBack(d, v, busy)
  {
    CutShrinks(dd, vv, m, d, v);
    hide IsCut;
  }

  lemma CutMirror(dd: Lists, vv: Lists, busy: set<Mod>, m: Mod, d: Lists, v: Lists)
    requires Mirror(dd, vv, busy) && m in busy && IsCut(dd, vv, m, d, v)
    ensures Mirror(d, v, busy)
  {
    hide MirrorForth, MirrorBack, IsCut;
    CutMirrorForth(dd, vv, busy, m, d, v);
    CutMirrorBack(dd, vv, busy, m, d, v);
  }

  lemma CutStale(plan: Plan, dd: Lists, vv: Lists, busy: set<Mod>, m: Mod, d: Lists, v: Lists)
    requires OwnOrigins(vv, busy) && StaleInverse(vv, busy) && Foreseen(plan, dd, vv, busy) && IsCut(dd, vv, m, d, v)
    ensures OwnOrigins(v, busy) && StaleInverse(v, busy) && Foreseen(plan, d, v, busy)
  {
    CutShrinks(dd, vv, m, d, v);
    hide IsCut;
  }

  lemma CutStillListed(dd: Lists, vv: Lists, busy: set<Mod>, m: Mod, d: Lists, v: Lists)
    requires StillListed(dd, vv, busy) && m in busy && IsCut(dd, vv, m, d, v)
    ensures StillListed(d, v, busy)
  {
    hide RemoveTo;
    forall k, f: Dep | k in v && k !in busy && f in v[k] && f.dest in busy
      ensures f.dest in d && Has(d[f.dest], f.ty, k)
    {
      assert f in vv[k];
      var e :| e in dd[f.dest] && e.dest == k && e.ty == f.ty;
      assert e in d[f.dest];
    }
  }

  lemma CutPaired(removable: set<Mod>, dd: Lists, vv: Lists, busy: set<Mod>, loose: set<(Mod, Mod)>, m: Mod, d: Lists, v: Lists)
    requires Paired(removable, dd, vv, busy, loose) && m in busy && IsCut(dd, vv, m, d, v)
    ensures Paired(removable, d, v, busy, loose + {(m, dd[m][0].dest)})
  {
    hide RemoveTo;
    var x := dd[m][0].dest;
    forall i, e: Dep | i in d && i in busy && e in d[i] && e.dest in removable && (i, e.dest) !in loose + {(m, x)}
      ensures e.dest in v && LeadsTo(v[e.dest], i)
    {
      assert e in dd[i];
      var f :| f in vv[e.dest] && f.dest == i;
      assert f in v[e.dest];
    }
  }

  lemma CutOrigins(dd: Lists, vv: Lists, busy: set<Mod>, m: Mod, d: Lists, v: Lists)
    requires Edges(dd, vv, busy) && Originated(dd, busy)
    requires m in busy && IsCut(dd, vv, m, d, v)
    ensures Originated(d, busy)
  {
    hide IsCut, Has;
    CutShrinks(dd, vv, m, d, v);
    forall i, e: Dep, x: Mod | i in d && e in d[i] && e.ty.Data? && x in e.origs
      ensures x == i || x == e.dest || (i !in busy && x in d && x !in busy
                                        && Has(d[x], Import, i) && Has(d[x], Import, e.dest))
    {
      CutOriginatedAt(dd, busy, m, d, i, e, x);
    }
  }

  lemma CutOriginatedAt(dd: Lists, busy: set<Mod>, m: Mod, d: Lists, i: Mod, e: Dep, x: Mod)
    requires Originated(dd, busy) && m in busy && d.Keys == dd.Keys
    requires forall j :: j in d && j != m ==> d[j] == dd[j]
    requires i in d && e in dd[i] && e.ty.Data? && x in e.origs
    ensures x == i || x == e.dest || (i !in busy && x in d && x !in busy
                                      && Has(d[x], Import, i) && Has(d[x], Import, e.dest))
  {
    hide Has;
    if x in d && x !in busy {
      assert d[x] == dd[x];
    }
  }

  lemma CutFirmly(plan: Plan, dd: Lists, vv: Lists, busy: set<Mod>, m: Mod, d: Lists, v: Lists)
    requires Firmly(plan, dd, vv, busy) && m in busy && IsCut(dd, vv, m, d, v)
    ensures Firmly(plan, d, v, busy)
  {
    CutShrinks(dd, vv, m, d, v);
    CutNames(dd, vv, m, d, v);
    hide IsCut, LeadsTo, Has;
    forall b, t, i | (b, t, i) in plan.firm && i in v && LeadsTo(v[i], b) ensures Has(v[i], t, b) {
      CutHas(vv, m, v, i, t, b);
    }
  }

  lemma CutNames(dd: Lists, vv: Lists, m: Mod, d: Lists, v: Lists)
    requires IsCut(dd, vv, m, d, v)
    ensures v.Keys == vv.Keys && forall i, b :: i in v && LeadsTo(v[i], b) ==> LeadsTo(vv[i], b) && (v[i] == vv[i] || b != m)
  {
    hide RemoveTo;
  }

  lemma CutHas(vv: Lists, m: Mod, v: Lists, i: Mod, t: DepType, b: Mod)
    requires i in v && i in vv && Has(vv[i], t, b) && (v[i] == vv[i] || b != m)
    requires forall k, f :: k in v && k in vv && f in vv[k] && f.dest != m ==> f in v[k]
    ensures Has(v[i], t, b)
  {
    var f :| f in vv[i] && f.ty == t && f.dest == b;
  }

  lemma CutOrderly(plan: Plan, dd: Lists, vv: Lists, m: Mod, d: Lists, v: Lists)
    requires Orderly(plan, dd) && IsCut(dd, vv, m, d, v)
    ensures Orderly(plan, d)
  {
  }

  lemma CutKeepsInv(plan: Plan, dd: Lists, vv: Lists, busy: set<Mod>, loose: set<(Mod, Mod)>, m: Mod, d: Lists, v: Lists)
    requires Inv(plan, dd, vv, busy, loose) && m in busy && IsCut(dd, vv, m, d, v)
    ensures Inv(plan, d, v, busy, loose + {(m, dd[m][0].dest)})
  {
    CutEdges(dd, vv, busy, m, d, v);
    CutMirror(dd, vv, busy, m, d, v);
    CutStale(plan, dd, vv, busy, m, d, v);
    CutStillListed(dd, vv, busy, m, d, v);
    CutPaired(plan.removable, dd, vv, busy, loose, m, d, v);
    CutOrigins(dd, vv, busy, m, d, v);
    CutFirmly(plan, dd, vv, busy, m, d, v);
    hide Edges, Mirror, OwnOrigins, StaleInverse, Foreseen, StillListed, Paired, Originated, Firmly;
    CutOrderly(plan, dd, vv, m, d, v);
    hide Orderly;
  }

  /** Pairs that no entry names any more need not be exempt. */
  lemma TightenLoose(plan: Plan, dd: Lists, vv: Lists, busy: set<Mod>, loose: set<(Mod, Mod)>, loose': set<(Mod, Mod)>)
    requires Inv(plan, dd, vv, busy, loose)
    requires forall i, e :: i in dd && e in dd[i] && e.dest in plan.removable && (i, e.dest) in loose ==> (i, e.dest) in loose'
    ensures Inv(plan, dd, vv, busy, loose')
  {
    hide Edges, Mirror, OwnOrigins, StaleInverse, Foreseen, StillListed, Originated, Firmly, Orderly;
  }

  // ---------------------------------------------------------------- the loop over m's dependencies

  /** How far the removal of a busy m has come: `gone` have been removed on the way, and inverted
      lists agree with what that leaves except for entries naming m. */
  ghost predicate Progress(dd1: Lists, vv1: Lists, m: Mod, busy: set<Mod>, gone: set<Mod>, dd: Lists, vv: Lists) {
    && dd.Keys == dd1.Keys - gone && vv.Keys == vv1.Keys - gone
    && (forall i :: i in dd && i != m ==> dd[i] == Surviving(dd1[i], gone))
    && (forall k :: k in vv && k !in busy ==> RemoveTo(vv[k], m) == Surviving(RemoveTo(vv1[k], m), gone))
    && (forall k :: k in vv && k in busy ==> vv[k] == vv1[k])
  }

  lemma {:induction false} SurvivingNothing(l: seq<Dep>)
    requires GoodOrigs(l)
    ensures Surviving(l, {}) == l
  {
    if l != [] {
      assert l[0] in l;
      WithoutNothing(l[0].origs, {});
      SurvivingNothing(l[1..]);
    }
  }

  lemma ProgressStart(dd1: Lists, vv1: Lists, m: Mod, busy: set<Mod>)
    requires forall i :: i in dd1 ==> GoodOrigs(dd1[i])
    requires forall i :: i in vv1 ==> GoodOrigs(vv1[i])
    ensures Progress(dd1, vv1, m, busy, {}, dd1, vv1)
  {
    forall i | i in dd1 ensures Surviving(dd1[i], {}) == dd1[i] { SurvivingNothing(dd1[i]); }
    forall k | k in vv1 ensures Surviving(RemoveTo(vv1[k], m), {}) == RemoveTo(vv1[k], m) {
      SurvivingNothing(RemoveTo(vv1[k], m));
    }
  }

  lemma ProgressCut(dd1: Lists, vv1: Lists, m: Mod, busy: set<Mod>, gone: set<Mod>, dd: Lists, vv: Lists, d: Lists, v: Lists)
    requires Progress(dd1, vv1, m, busy, gone, dd, vv) && IsCut(dd, vv, m, d, v) && dd[m][0].dest !in busy
    ensures Progress(dd1, vv1, m, busy, gone, d, v)
  {
    hide RemoveTo, Surviving;
    var x := dd[m][0].dest;
    RemoveToNothing(RemoveTo(vv[x], m), m);
  }

  lemma ProgressNested(dd1: Lists, vv1: Lists, m: Mod, busy: set<Mod>, gone: set<Mod>, dd: Lists, vv: Lists, more: set<Mod>, d: Lists, v: Lists)
    requires Progress(dd1, vv1, m, busy, gone, dd, vv)
    requires IsAfter(dd, more, {}, d) && IsAfter(vv, more, busy, v)
    ensures Progress(dd1, vv1, m, busy, gone + more, d, v)
  {
    hide RemoveTo, Surviving;
    forall i | i in d && i != m ensures d[i] == Surviving(dd1[i], gone + more) {
      SurvivingTwice(dd1[i], gone, more);
    }
    forall k | k in v && k !in busy ensures RemoveTo(v[k], m) == Surviving(RemoveTo(vv1[k], m), gone + more) {
      RemoveToSurviving(vv[k], m, more);
      SurvivingTwice(RemoveTo(vv1[k], m), gone, more);
    }
  }

  /** With no dependency of m left, the rest of the graph is what removing m and `gone` leaves. */
  ghost predicate Finishing(plan: Plan, dd0: Lists, vv0: Lists, busy: set<Mod>, m: Mod, dd1: Lists, vv1: Lists,
                            gone: set<Mod>, dd: Lists, vv: Lists) {
    && Pushing(plan, dd0, vv0, busy, m, dd1, vv1)
    && Progress(dd1, vv1, m, busy + {m}, gone, dd, vv) && m !in gone
    && m in dd && dd[m] == [] && StillListed(dd, vv, busy + {m})
  }

  lemma FinishedForward(plan: Plan, dd0: Lists, vv0: Lists, busy: set<Mod>, m: Mod, dd1: Lists, vv1: Lists,
                        gone: set<Mod>, dd: Lists, vv: Lists, i: Mod)
    requires Finishing(plan, dd0, vv0, busy, m, dd1, vv1, gone, dd, vv) && i in dd && i != m
    ensures i in dd0 && dd[i] == Surviving(dd0[i], gone + {m})
  {
    hide RemoveTo, Surviving, Inv, IsPushed, DropOrig, StillListed;
    PushKeys(plan, dd0, vv0, busy, m, dd1, vv1);
    PushedForward(plan, dd0, vv0, busy, m, dd1, vv1, i);
    SurvivingTwice(dd0[i], {m}, gone);
    assert {m} + gone == gone + {m};
  }

  lemma FinishedInverse(plan: Plan, dd0: Lists, vv0: Lists, busy: set<Mod>, m: Mod, dd1: Lists, vv1: Lists,
                        gone: set<Mod>, dd: Lists, vv: Lists, k: Mod)
    requires Finishing(plan, dd0, vv0, busy, m, dd1, vv1, gone, dd, vv) && k in vv && k != m && k !in busy
    ensures k in vv0 && vv[k] == Surviving(vv0[k], gone + {m})
  {
    hide RemoveTo, Surviving, Inv, IsPushed, DropOrig;
    PushKeys(plan, dd0, vv0, busy, m, dd1, vv1);
    PushedInverse(plan, dd0, vv0, busy, m, dd1, vv1, k);
    SurvivingTwice(vv0[k], {m}, gone);
    assert {m} + gone == gone + {m};
    forall f | f in vv[k] ensures f.dest != m {
    }
    RemoveToNothing(vv[k], m);
  }

  lemma FinishedStale(plan: Plan, dd0: Lists, vv0: Lists, busy: set<Mod>, m: Mod, dd1: Lists, vv1: Lists,
                      gone: set<Mod>, dd: Lists, vv: Lists, k: Mod)
    requires Finishing(plan, dd0, vv0, busy, m, dd1, vv1, gone, dd, vv) && k in vv && k in busy
    ensures k in vv0 && vv[k] == vv0[k]
  {
    hide RemoveTo, Surviving, Inv, IsPushed, DropOrig, StillListed;
    PushKeys(plan, dd0, vv0, busy, m, dd1, vv1);
    StaleUntouched(plan, dd0, vv0, busy, m, dd1, vv1, k);
  }

  lemma ProgressDone(plan: Plan, dd0: Lists, vv0: Lists, busy: set<Mod>, m: Mod, dd1: Lists, vv1: Lists,
                     gone: set<Mod>, dd: Lists, vv: Lists)
    requires Finishing(plan, dd0, vv0, busy, m, dd1, vv1, gone, dd, vv)
    ensures IsAfter(dd0, gone + {m}, {}, dd - {m})
    ensures IsAfter(vv0, gone + {m}, busy, vv - {m})
  {
    hide RemoveTo, Surviving, Pushing, StillListed;
    PushKeys(plan, dd0, vv0, busy, m, dd1, vv1);
    var d, v := dd - {m}, vv - {m};
    forall i | i in d ensures d[i] == Surviving(dd0[i], gone + {m}) {
      FinishedForward(plan, dd0, vv0, busy, m, dd1, vv1, gone, dd, vv, i);
    }
    forall k | k in v && k !in busy ensures v[k] == Surviving(vv0[k], gone + {m}) {
      FinishedInverse(plan, dd0, vv0, busy, m, dd1, vv1, gone, dd, vv, k);
    }
    forall k | k in v && k in busy ensures v[k] == vv0[k] {
      FinishedStale(plan, dd0, vv0, busy, m, dd1, vv1, gone, dd, vv, k);
    }
  }

  /** Nobody who stays needs what is gone: an edge into it was an extension, or a data edge that
      only removed modules introduced. */
  ghost predicate Spared(dd: Lists, busy: set<Mod>, gone: set<Mod>) {
    forall i, e :: i in dd && i !in gone && i !in busy && e in dd[i] && e.dest in gone ==>
      e.ty.Extension? || (e.ty.Data? && forall x :: x in e.origs ==> x in gone)
  }

  lemma SparedFirst(plan: Plan, dd: Lists, vv: Lists, busy: set<Mod>, m: Mod)
    requires Ready(plan, dd, vv, busy, m)
    ensures Spared(dd, busy, {m})
  {
    hide MirrorBack, StillListed, OwnOrigins, Paired, StaleInverse, Foreseen, Originated, Firmly, Orderly, Edges;
    forall i, e: Dep | i in dd && i !in {m} && i !in busy && e in dd[i] && e.dest in {m} ensures e.ty.Extension? {
      assert Dep(e.ty, i, true, e.origs) in vv[m];
    }
  }

  lemma SparedMore(dd0: Lists, busy: set<Mod>, gone: set<Mod>, dd: Lists, busy': set<Mod>, more: set<Mod>)
    requires Spared(dd0, busy, gone) && Spared(dd, busy', more) && busy' <= busy + gone
    requires forall i :: i in dd0 && i !in gone && i !in busy ==> i in dd && dd[i] == Surviving(dd0[i], gone)
    ensures Spared(dd0, busy, gone + more)
  {
    hide Surviving;
    forall i, e: Dep | i in dd0 && i !in gone + more && i !in busy && e in dd0[i] && e.dest in gone + more
      ensures e.ty.Extension? || (e.ty.Data? && forall x :: x in e.origs ==> x in gone + more)
    {
      if e.dest !in gone && Survivor(e, gone).Some? {
        Survives(dd0[i], gone, e);
        var f := Survivor(e, gone).value;
        assert f in dd[i] && f.dest in more;
        assert e.ty.Data? ==> forall x :: x in e.origs && x !in gone ==> x in f.origs;
      } else if e.dest !in gone {
        assert forall x :: x in e.origs && x !in gone ==> x in Without(e.origs, gone);
      }
    }
  }

  // ---------------------------------------------------------------- loose pairs

  /** Someone other than m needs the module, extensions aside. */
  ghost predicate Needed(l: seq<Dep>, m: Mod) {
    exists f :: f in l && f.dest != m && !f.ty.Extension?
  }

  /** Which removable modules may have been unlinked while m still names them: none, one, or any. */
  datatype Slack = Tight | One(x: Mod) | Any

  ghost function LooseSet(removable: set<Mod>, m: Mod, loose: Slack): set<(Mod, Mod)> {
    match loose
    case Tight => {}
    case One(x) => {(m, x)}
    case Any => set x | x in removable :: (m, x)
  }

  /** A single one is needed by others, and m reaches its remaining entries before any other removable
      module; it may be any when others need all that m lists. */
  ghost predicate LooseOk(removable: set<Mod>, loose: Slack, l: seq<Dep>, inv: Lists, m: Mod) {
    match loose
    case Tight => true
    case One(x) => x in removable && x in inv && Needed(inv[x], m) && OnlyBefore(removable, l, x)
    case Any => AllNeeded(removable, l, inv, m)
  }

  ghost predicate AllNeeded(removable: set<Mod>, l: seq<Dep>, inv: Lists, m: Mod) {
    forall e :: e in l && e.dest in removable ==> e.dest in inv && Needed(inv[e.dest], m)
  }

  /** A removable module at the front of the list means the loose one is not named any more. */
  lemma LooseUnnamed(removable: set<Mod>, x: Mod, l: seq<Dep>)
    requires OnlyBefore(removable, l, x) && l != [] && l[0].dest in removable && l[0].dest != x
    ensures forall e :: e in l ==> e.dest != x
  {
    forall e | e in l ensures e.dest != x {
      var b :| 0 <= b < |l| && l[b] == e;
    }
  }

  lemma FirstNeeded(removable: set<Mod>, l: seq<Dep>, inv: Lists, m: Mod)
    requires l != [] && AllNeeded(removable, l, inv, m)
    ensures l[0].dest in removable ==> l[0].dest in inv && Needed(inv[l[0].dest], m)
  {
    assert l[0] in l;
  }

  lemma TightBeforeRecursion(plan: Plan, dd: Lists, vv: Lists, busy: set<Mod>, m: Mod, loose: Slack, inv: Lists)
    requires Inv(plan, dd, vv, busy, LooseSet(plan.removable, m, loose)) && m in dd && dd[m] != []
    requires LooseOk(plan.removable, loose, dd[m], inv, m)
    requires dd[m][0].dest in plan.removable && dd[m][0].dest in inv && !Needed(inv[dd[m][0].dest], m)
    ensures Inv(plan, dd, vv, busy, {}) && !loose.Any?
  {
    hide Inv, OnlyBefore, Needed, AllNeeded;
    if loose.Any? { FirstNeeded(plan.removable, dd[m], inv, m); }
    if loose.One? {
      LooseUnnamed(plan.removable, loose.x, dd[m]);
      TightenLoose(plan, dd, vv, busy, LooseSet(plan.removable, m, loose), {});
    }
  }

  lemma StillNeeded(l: seq<Dep>, m: Mod)
    requires Needed(l, m)
    ensures Needed(RemoveTo(l, m), m)
  {
    var f :| f in l && f.dest != m && !f.ty.Extension?;
    assert f in RemoveTo(l, m);
  }

  /** m passes the first entry of its list. */
  lemma LooseAfterCut(plan: Plan, dd: Lists, vv: Lists, busy: set<Mod>, m: Mod, loose: Slack, inv: Lists,
                      d: Lists, v: Lists, inv': Lists) returns (loose': Slack)
    requires Inv(plan, dd, vv, busy, LooseSet(plan.removable, m, loose)) && m in busy && IsCut(dd, vv, m, d, v)
    requires LooseOk(plan.removable, loose, dd[m], inv, m) && (!loose.Any? ==> NoSplit(plan, m, dd[m]))
    requires dd[m][0].dest in inv && (dd[m][0].dest in plan.removable ==> Needed(inv[dd[m][0].dest], m) && Contested(plan, m, dd[m][0].dest))
    requires inv' == inv[dd[m][0].dest := RemoveTo(inv[dd[m][0].dest], m)]
    ensures Inv(plan, d, v, busy, LooseSet(plan.removable, m, loose'))
    ensures LooseOk(plan.removable, loose', d[m], inv', m) && (loose'.Any? <==> loose.Any?)
  {
    hide Inv, OnlyBefore, Needed, RemoveTo, Contested, AllNeeded;
    var x := dd[m][0].dest;
    CutKeepsInv(plan, dd, vv, busy, LooseSet(plan.removable, m, loose), m, d, v);
    if loose.Any? {
      loose' := Any;
      AllNeededStill(plan.removable, dd[m], inv, m, x, inv');
    } else if x in plan.removable {
      loose' := One(x);
      if loose.One? && loose.x != x {
        LooseUnnamed(plan.removable, loose.x, dd[m]);
      }
      StillNeeded(inv[x], m);
    } else {
      loose' := loose;
      if loose.One? { OnlyBeforeTail(plan.removable, dd[m], loose.x); }
    }
    TightenLoose(plan, d, v, busy, LooseSet(plan.removable, m, loose) + {(m, x)}, LooseSet(plan.removable, m, loose'));
  }

  lemma AllNeededStill(removable: set<Mod>, l: seq<Dep>, inv: Lists, m: Mod, x: Mod, inv': Lists)
    requires AllNeeded(removable, l, inv, m) && l != [] && x in inv && inv' == inv[x := RemoveTo(inv[x], m)]
    ensures AllNeeded(removable, l[1..], inv', m)
  {
    hide Needed, RemoveTo;
    forall e | e in l[1..] && e.dest in removable ensures e.dest in inv' && Needed(inv'[e.dest], m) {
      assert e in l;
      if e.dest == x { StillNeeded(inv[x], m); }
    }
  }
}
