/** The invariant over direct edges that the recursive removal of modules keeps
    (`md_remove_modules_internal`, src/module_dependencies.c:2439-2855). */
module RemovalInvariant {
  import opened DepGraph
  import opened RemovalSpec

  /** Some entry of the list, of whatever type, points to d. */
  ghost predicate LeadsTo(l: seq<Dep>, d: Mod) {
    exists e :: e in l && e.dest == d
  }

  /** Imports and inclusions: they do not depend on who introduced them. */
  ghost predicate IsFirm(t: DepType) {
    t.Import? || t.Include?
  }

  /** What is known of a removal before it starts: the modules that may be removed implicitly, those
      that look so but are pinned by one that is kept, the modules that may be removed by a call and
      all that may leave, the direct extension edges, a transitive relation that holds all edges by
      type, which modules list which, and the direct imports and inclusions. */
  datatype Plan = Plan(removable: set<Mod>, pinned: set<Mod>, kept: set<Mod>, targets: set<Mod>, leaving: set<Mod>,
                       extensions: set<(Mod, Mod)>, reach: set<(Mod, DepType, Mod)>,
                       listed: set<(Mod, Mod)>, firm: set<(Mod, DepType, Mod)>) {
    /** A module that may leave and has an extension edge from another that may go implicitly has
        none to a third. */
    ghost predicate Guarded() {
      forall i, k, j :: (i, k) in extensions && (k, j) in extensions && k in leaving && i in removable ==> i == k || j == k || j == i
    }

    ghost predicate Transitive() {
      forall i, t, k, j :: (i, t, k) in reach && (k, t, j) in reach && i != j ==> (i, t, j) in reach
    }

    ghost predicate Valid() {
      && removable <= leaving && targets <= leaving && kept !! leaving && Guarded() && Transitive()
      && forall i, t, j :: (i, t, j) in firm ==> IsFirm(t)
    }

    ghost predicate Needs(i: Mod, b: Mod) {
      exists t :: (i, t, b) in firm
    }

    /** Whoever may take i with it imports or includes i, as i does y, and does not list y itself. */
    ghost predicate HeldBy(t: DepType, i: Mod, y: Mod) {
      (i, t, y) in firm && forall b :: b in leaving && (b, i) in listed && b != i && !Needs(i, b) ==> (b, t, i) in firm && (b, y) !in listed
    }

    ghost predicate Held(i: Mod, y: Mod) {
      exists t :: HeldBy(t, i, y)
    }

    /** When i goes with another module, that one holds all that i might take with it. */
    ghost predicate HeldBack(i: Mod) {
      i !in targets && forall y :: y in removable && (i, y) in listed ==> Held(i, y)
    }
  }

  /** Someone other than i needs x, directly or not. */
  ghost predicate Contested(plan: Plan, i: Mod, x: Mod) {
    exists z, t :: (z, t, x) in plan.reach && z != i && t != Extension
  }

  /** From here to the last entry for x, the list mentions only x and modules that are never
      removed implicitly. */
  ghost predicate OnlyBefore(removable: set<Mod>, l: seq<Dep>, x: Mod) {
    forall c, b :: 0 <= c < b < |l| && l[b].dest == x ==> l[c].dest == x || l[c].dest !in removable
  }

  /** Between two entries of i's list for one removable module that others need too, there is none
      for another removable module. */
  ghost predicate NoSplit(plan: Plan, i: Mod, l: seq<Dep>) {
    l == [] || (NoSplit(plan, i, l[1..])
                && (l[0].dest in plan.removable && Contested(plan, i, l[0].dest) ==> OnlyBefore(plan.removable, l[1..], l[0].dest)))
  }

  /** The graph of direct edges while the modules of `busy` are being removed.  All edges into a
      busy module have been cut from the forward lists; its own inverted list is stale. */
  ghost predicate Edges(dd: Lists, vv: Lists, busy: set<Mod>) {
    && dd.Keys == vv.Keys && busy <= dd.Keys
    && (forall i, e :: i in dd && e in dd[i] ==> e.direct && e.dest in dd && e.dest !in busy)
    && (forall k, f :: k in vv && f in vv[k] ==> f.direct)
    && (forall i :: i in dd ==> GoodOrigs(dd[i]) && GoodOrigs(vv[i]))
  }

  /** Every forward entry has its inverted one, with the same originators ... */
  ghost predicate MirrorForth(dd: Lists, vv: Lists, busy: set<Mod>) {
    forall i, e :: i in dd && i !in busy && e in dd[i] ==>
      e.dest in vv && Dep(e.ty, i, true, e.origs) in vv[e.dest]
  }

  /** ... and every inverted entry its forward one. */
  ghost predicate MirrorBack(dd: Lists, vv: Lists, busy: set<Mod>) {
    forall k, f :: k in vv && k !in busy && f in vv[k] && f.dest !in busy ==>
      f.dest in dd && Dep(f.ty, k, true, f.origs) in dd[f.dest]
  }

  /** Forward and inverted lists name the same edges, with the same originators. */
  ghost predicate Mirror(dd: Lists, vv: Lists, busy: set<Mod>) {
    MirrorForth(dd, vv, busy) && MirrorBack(dd, vv, busy)
  }

  /** An inverted entry naming a busy module means it still lists the edge ... */
  ghost predicate StillListed(dd: Lists, vv: Lists, busy: set<Mod>) {
    forall k, f :: k in vv && k !in busy && f in vv[k] && f.dest in busy ==>
      f.dest in dd && Has(dd[f.dest], f.ty, k)
  }

  /** ... and nobody else introduced it. */
  ghost predicate OwnOrigins(vv: Lists, busy: set<Mod>) {
    forall k, f, x :: k in vv && k !in busy && f in vv[k] && f.dest in busy && f.ty.Data? && x in f.origs ==>
      x == f.dest || x == k
  }

  /** A busy module is found again from every removable module it lists, except `loose` pairs. */
  ghost predicate Paired(removable: set<Mod>, dd: Lists, vv: Lists, busy: set<Mod>, loose: set<(Mod, Mod)>) {
    forall i, e :: i in dd && i in busy && e in dd[i] && e.dest in removable && (i, e.dest) !in loose ==>
      e.dest in vv && LeadsTo(vv[e.dest], i)
  }

  /** The stale list of a busy module names busy modules, and others by extension only. */
  ghost predicate StaleInverse(vv: Lists, busy: set<Mod>) {
    forall k, f :: k in vv && k in busy && f in vv[k] ==> f.ty.Extension? || f.dest in busy
  }

  /** Extension edges are known beforehand, on both sides; what a stale list names and is gone was
      removable. */
  ghost predicate Foreseen(plan: Plan, dd: Lists, vv: Lists, busy: set<Mod>) {
    && plan.Valid() && busy <= plan.leaving
    && (forall i, e :: i in dd && e in dd[i] && e.ty.Extension? ==> (i, e.dest) in plan.extensions)
    && (forall k, f :: k in vv && f in vv[k] && f.ty.Extension? ==> (f.dest, k) in plan.extensions)
    && (forall k, f :: k in vv && k in busy && f in vv[k] ==> f.dest in dd || f.dest in plan.removable)
  }

  /** Whoever introduced a data edge is an end of it or directly imports both ends. */
  ghost predicate Originated(dd: Lists, busy: set<Mod>) {
    forall i, e, x :: i in dd && e in dd[i] && e.ty.Data? && x in e.origs ==>
      x == i || x == e.dest || (i !in busy && x in dd && x !in busy
                                && Has(dd[x], Import, i) && Has(dd[x], Import, e.dest))
  }

  /** Imports and inclusions stay while both ends do; an inverted list that still names a module names
      it by all of them; nothing is listed that was not. */
  ghost predicate Firmly(plan: Plan, dd: Lists, vv: Lists, busy: set<Mod>) {
    && (forall i, t, y :: (i, t, y) in plan.firm && i in dd && i !in busy && y in dd ==> y !in busy && Has(dd[i], t, y))
    && (forall b, t, i :: (b, t, i) in plan.firm && i in vv && LeadsTo(vv[i], b) ==> Has(vv[i], t, b))
    && (forall i, e :: i in dd && e in dd[i] ==> (i, e.dest) in plan.listed)
    && (forall k, f :: k in vv && f in vv[k] ==> (f.dest, k) in plan.listed)
  }

  /** The order condition, for the lists that a removal may walk and remove from. */
  ghost predicate Orderly(plan: Plan, dd: Lists) {
    forall i :: i in dd && i in plan.leaving && !plan.HeldBack(i) ==> NoSplit(plan, i, dd[i])
  }

  ghost predicate Inv(plan: Plan, dd: Lists, vv: Lists, busy: set<Mod>, loose: set<(Mod, Mod)>) {
    && Edges(dd, vv, busy)
    && Mirror(dd, vv, busy)
    && StillListed(dd, vv, busy)
    && OwnOrigins(vv, busy)
    && Paired(plan.removable, dd, vv, busy, loose)
    && StaleInverse(vv, busy)
    && Foreseen(plan, dd, vv, busy)
    && Originated(dd, busy)
    && Firmly(plan, dd, vv, busy)
    && Orderly(plan, dd)
  }

  // ---------------------------------------------------------------- a removed set

  /** The graph side after the modules `gone` are removed; stale lists stay as they are. */
  ghost predicate IsAfter(g: Lists, gone: set<Mod>, stale: set<Mod>, r: Lists) {
    && r.Keys == g.Keys - gone
    && (forall i :: i in r && i in stale ==> r[i] == g[i])
    && (forall i :: i in r && i !in stale ==> r[i] == Surviving(g[i], gone))
  }

  /** Dropping entries, and changing others in everything but their destination, keeps the order
      condition; `r` is what is left of the list behind its first entry. */
  lemma OnlyBeforeFirst(removable: set<Mod>, l: seq<Dep>, r: seq<Dep>, x: Mod)
    requires l != [] && OnlyBefore(removable, l, x)
    requires forall e :: e in r ==> LeadsTo(l[1..], e.dest)
    ensures OnlyBefore(removable, r, x) ==> forall f: Dep :: f.dest == l[0].dest ==> OnlyBefore(removable, [f] + r, x)
  {
    var tail := l[1..];
    if OnlyBefore(removable, r, x) {
      forall f: Dep | f.dest == l[0].dest ensures OnlyBefore(removable, [f] + r, x) {
        var q := [f] + r;
        forall c, b | 0 <= c < b < |q| && q[b].dest == x ensures q[c].dest == x || q[c].dest !in removable {
          assert q[b] == r[b - 1] && r[b - 1] in r;
          if c == 0 {
            var e :| e in tail && e.dest == x;
            var n :| 0 <= n < |tail| && tail[n] == e;
            assert l[n + 1].dest == x;
          }
        }
      }
    }
  }

  /** One list follows another: it is what is left of it, entry by entry, up to originators. */
  ghost predicate Follows(r: seq<Dep>, l: seq<Dep>) {
    if l == [] then r == []
    else Follows(r, l[1..]) || (r != [] && r[0].dest == l[0].dest && Follows(r[1..], l[1..]))
  }

  lemma {:induction false} FollowsNames(r: seq<Dep>, l: seq<Dep>)
    requires Follows(r, l)
    ensures forall e :: e in r ==> LeadsTo(l, e.dest)
  {
    if l != [] {
      if Follows(r, l[1..]) {
        FollowsNames(r, l[1..]);
      } else {
        FollowsNames(r[1..], l[1..]);
      }
      forall e | e in r ensures LeadsTo(l, e.dest) {
        if LeadsTo(l[1..], e.dest) {
          var x :| x in l[1..] && x.dest == e.dest;
          assert x in l;
        } else {
          assert l[0] in l && l[0].dest == e.dest;
        }
      }
    }
  }

  lemma {:induction false} OnlyBeforeFollows(removable: set<Mod>, r: seq<Dep>, l: seq<Dep>, x: Mod)
    requires Follows(r, l) && OnlyBefore(removable, l, x)
    ensures OnlyBefore(removable, r, x)
  {
    hide LeadsTo;
    if l != [] {
      if Follows(r, l[1..]) {
        OnlyBeforeTail(removable, l, x);
        OnlyBeforeFollows(removable, r, l[1..], x);
      } else {
        OnlyBeforeTail(removable, l, x);
        OnlyBeforeFollows(removable, r[1..], l[1..], x);
        FollowsNames(r[1..], l[1..]);
        OnlyBeforeFirst(removable, l, r[1..], x);
        assert r == [r[0]] + r[1..];
      }
    }
  }

  lemma OnlyBeforeTail(removable: set<Mod>, l: seq<Dep>, x: Mod)
    requires l != [] && OnlyBefore(removable, l, x)
    ensures OnlyBefore(removable, l[1..], x)
  {
    forall c, b | 0 <= c < b < |l[1..]| && l[1..][b].dest == x ensures l[1..][c].dest == x || l[1..][c].dest !in removable {
      assert l[b + 1].dest == x && l[c + 1] == l[1..][c];
    }
  }

  lemma {:induction false} NoSplitFollows(plan: Plan, i: Mod, r: seq<Dep>, l: seq<Dep>)
    requires Follows(r, l) && NoSplit(plan, i, l)
    ensures NoSplit(plan, i, r)
  {
    hide OnlyBefore, Contested;
    if l != [] {
      if Follows(r, l[1..]) {
        NoSplitFollows(plan, i, r, l[1..]);
      } else {
        NoSplitFollows(plan, i, r[1..], l[1..]);
        if OnlyBefore(plan.removable, l[1..], l[0].dest) {
          OnlyBeforeFollows(plan.removable, r[1..], l[1..], l[0].dest);
        }
      }
    }
  }

  lemma {:induction false} SurvivingFollows(l: seq<Dep>, gone: set<Mod>)
    ensures Follows(Surviving(l, gone), l)
  {
    if l != [] {
      SurvivingFollows(l[1..], gone);
      var rest := Surviving(l[1..], gone);
      match Survivor(l[0], gone)
      case None =>
      case Some(f) => assert ([f] + rest)[1..] == rest;
    }
  }

  lemma {:induction false} RemoveToFollows(l: seq<Dep>, m: Mod)
    ensures Follows(RemoveTo(l, m), l)
  {
    if l != [] {
      RemoveToFollows(l[1..], m);
      assert ([l[0]] + RemoveTo(l[1..], m))[1..] == RemoveTo(l[1..], m);
    }
  }

  lemma NoSplitSurvives(plan: Plan, i: Mod, l: seq<Dep>, gone: set<Mod>)
    requires NoSplit(plan, i, l)
    ensures NoSplit(plan, i, Surviving(l, gone))
  {
    hide *;
    SurvivingFollows(l, gone);
    NoSplitFollows(plan, i, Surviving(l, gone), l);
  }

  lemma NoSplitRemoveTo(plan: Plan, i: Mod, l: seq<Dep>, m: Mod)
    requires NoSplit(plan, i, l)
    ensures NoSplit(plan, i, RemoveTo(l, m))
  {
    hide *;
    RemoveToFollows(l, m);
    NoSplitFollows(plan, i, RemoveTo(l, m), l);
  }

  /** Survivors keep their entries that are not data entries. */
  lemma EntrySurvives(l: seq<Dep>, t: DepType, j: Mod, gone: set<Mod>)
    requires Has(l, t, j) && !t.Data? && j !in gone
    ensures Has(Surviving(l, gone), t, j)
  {
    var e :| e in l && e.dest == j && e.ty == t;
    Survives(l, gone, e);
  }

  lemma OrigsSurvive(l: seq<Dep>, gone: set<Mod>)
    requires GoodOrigs(l)
    ensures GoodOrigs(Surviving(l, gone))
  {
    var r := Surviving(l, gone);
    forall e | e in r && e.ty.Data? ensures e.origs != [] && Distinct(e.origs) {
      var e0 := SurvivedFrom(l, gone, e);
      WithoutKeepsDistinct(e0.origs, gone);
    }
  }

  lemma EdgesSurvive(dd: Lists, vv: Lists, busy: set<Mod>, gone: set<Mod>, d: Lists, v: Lists)
    requires IsAfter(dd, gone, {}, d) && IsAfter(vv, gone, busy, v)
    requires Edges(dd, vv, busy) && gone !! busy
    ensures Edges(d, v, busy)
  {
    hide Surviving, Without, NoSplit, OnlyBefore;
    forall i, e: Dep | i in d && e in d[i] ensures e.direct && e.dest in d && e.dest !in busy {
      var e0 := SurvivedFrom(dd[i], gone, e);
    }
    forall k, f: Dep | k in v && f in v[k] ensures f.direct {
      if k !in busy {
        var f0 := SurvivedFrom(vv[k], gone, f);
      }
    }
    forall i | i in d ensures GoodOrigs(d[i]) && GoodOrigs(v[i]) {
      OrigsSurvive(dd[i], gone);
      OrigsSurvive(vv[i], gone);
    }
  }

  /** An entry of i's list and its counterpart in the other side survive together. */
  lemma CounterpartSurvives(g: Lists, h: Lists, i: Mod, gone: set<Mod>, e: Dep) returns (e0: Dep)
    requires i in g && i !in gone && e in Surviving(g[i], gone)
    requires forall x :: x in g[i] && x.dest == e.dest ==> x.dest in h && Dep(x.ty, i, true, x.origs) in h[x.dest]
    ensures e0 in g[i] && e0.dest == e.dest && e.dest in h && e.dest !in gone
    ensures Dep(e.ty, i, true, e.origs) in Surviving(h[e.dest], gone)
  {
    e0 := SurvivedFrom(g[i], gone, e);
    Survives(h[e.dest], gone, Dep(e0.ty, i, true, e0.origs));
  }

  lemma MirrorForthSurvives(dd: Lists, vv: Lists, busy: set<Mod>, gone: set<Mod>, d: Lists, v: Lists)
    requires IsAfter(dd, gone, {}, d) && IsAfter(vv, gone, busy, v)
    requires Edges(dd, vv, busy) && MirrorForth(dd, vv, busy) && gone !! busy
    ensures MirrorForth(d, v, busy)
  {
    hide Surviving, Without, GoodOrigs;
    forall i, e: Dep | i in d && i !in busy && e in d[i]
      ensures e.dest in v && Dep(e.ty, i, true, e.origs) in v[e.dest]
    {
      var e0 := CounterpartSurvives(dd, vv, i, gone, e);
    }
  }

  lemma MirrorBackSurvives(dd: Lists, vv: Lists, busy: set<Mod>, gone: set<Mod>, d: Lists, v: Lists)
    requires IsAfter(dd, gone, {}, d) && IsAfter(vv, gone, busy, v)
    requires MirrorBack(dd, vv, busy) && gone !! busy
    ensures MirrorBack(d, v, busy)
  {
    hide Surviving, Without;
    forall k, f: Dep | k in v && k !in busy && f in v[k] && f.dest !in busy
      ensures f.dest in d && Dep(f.ty, k, true, f.origs) in d[f.dest]
    {
      var f0 := CounterpartSurvives(vv, dd, k, gone, f);
    }
  }

  lemma MirrorSurvives(dd: Lists, vv: Lists, busy: set<Mod>, gone: set<Mod>, d: Lists, v: Lists)
    requires IsAfter(dd, gone, {}, d) && IsAfter(vv, gone, busy, v)
    requires Edges(dd, vv, busy) && Mirror(dd, vv, busy) && gone !! busy
    ensures Mirror(d, v, busy)
  {
    hide IsAfter, Edges, MirrorForth, MirrorBack;
    MirrorForthSurvives(dd, vv, busy, gone, d, v);
    MirrorBackSurvives(dd, vv, busy, gone, d, v);
  }

  /** Entries that lose neither end nor originator. */
  lemma Untouched(l: seq<Dep>, e: Dep, gone: set<Mod>)
    requires e in l && GoodOrigs(l) && e.dest !in gone
    requires e.ty.Data? ==> forall x :: x in e.origs ==> x !in gone
    ensures e in Surviving(l, gone)
  {
    if e.ty.Data? { WithoutNothing(e.origs, gone); }
    Survives(l, gone, e);
  }

  /** Originators of an edge that leaves a busy module are its ends. */
  lemma BusyOrigins(dd: Lists, busy: set<Mod>, gone: set<Mod>, i: Mod, e: Dep)
    requires Originated(dd, busy) && gone !! busy
    requires i in dd && i in busy && e in dd[i] && e.dest !in gone
    ensures e.ty.Data? ==> forall x :: x in e.origs ==> x !in gone
  {
  }

  lemma StillListedSurvives(dd: Lists, vv: Lists, busy: set<Mod>, gone: set<Mod>, d: Lists, v: Lists)
    requires IsAfter(dd, gone, {}, d) && IsAfter(vv, gone, busy, v) && gone !! busy
    requires forall i :: i in dd ==> GoodOrigs(dd[i])
    requires StillListed(dd, vv, busy) && Originated(dd, busy)
    ensures StillListed(d, v, busy)
  {
    hide Surviving, Without, NoSplit, OnlyBefore;
    forall k, f: Dep | k in v && k !in busy && f in v[k] && f.dest in busy
      ensures f.dest in d && Has(d[f.dest], f.ty, k)
    {
      var f0 := SurvivedFrom(vv[k], gone, f);
      var e :| e in dd[f.dest] && e.dest == k && e.ty == f.ty;
      BusyOrigins(dd, busy, gone, f.dest, e);
      Untouched(dd[f.dest], e, gone);
    }
  }

  lemma OwnOriginsSurvive(vv: Lists, busy: set<Mod>, gone: set<Mod>, v: Lists)
    requires IsAfter(vv, gone, busy, v) && OwnOrigins(vv, busy)
    ensures OwnOrigins(v, busy)
  {
    hide Surviving, Without, NoSplit, OnlyBefore;
    forall k, f: Dep, x: Mod | k in v && k !in busy && f in v[k] && f.dest in busy && f.ty.Data? && x in f.origs
      ensures x == f.dest || x == k
    {
      var f0 := SurvivedFrom(vv[k], gone, f);
      assert x in f0.origs;
    }
  }

  lemma PairedSurvives(removable: set<Mod>, dd: Lists, vv: Lists, busy: set<Mod>, gone: set<Mod>, d: Lists, v: Lists)
    requires IsAfter(dd, gone, {}, d) && IsAfter(vv, gone, busy, v) && gone !! busy
    requires Edges(dd, vv, busy)
    requires Paired(removable, dd, vv, busy, {}) && OwnOrigins(vv, busy)
    ensures Paired(removable, d, v, busy, {})
  {
    hide Surviving, Without, NoSplit, OnlyBefore;
    forall i, e: Dep | i in d && i in busy && e in d[i] && e.dest in removable
      ensures e.dest in v && LeadsTo(v[e.dest], i)
    {
      var e0 := SurvivedFrom(dd[i], gone, e);
      assert e0.dest == e.dest && e.dest !in gone && LeadsTo(vv[e.dest], i);
      var f :| f in vv[e.dest] && f.dest == i;
      Untouched(vv[e.dest], f, gone);
    }
  }

  lemma ForeseenSurvives(plan: Plan, dd: Lists, vv: Lists, busy: set<Mod>, gone: set<Mod>, d: Lists, v: Lists)
    requires IsAfter(dd, gone, {}, d) && IsAfter(vv, gone, busy, v) && Foreseen(plan, dd, vv, busy)
    requires busy == {} || gone <= plan.removable
    ensures Foreseen(plan, d, v, busy)
  {
    hide Surviving, Without;
    forall i, e: Dep | i in d && e in d[i] && e.ty.Extension? ensures (i, e.dest) in plan.extensions {
      var e0 := SurvivedFrom(dd[i], gone, e);
    }
    forall k, f: Dep | k in v && f in v[k] && f.ty.Extension? ensures (f.dest, k) in plan.extensions {
      if k !in busy {
        var f0 := SurvivedFrom(vv[k], gone, f);
      }
    }
  }

  lemma OriginsSurvive(dd: Lists, busy: set<Mod>, gone: set<Mod>, d: Lists)
    requires IsAfter(dd, gone, {}, d)
    requires Originated(dd, busy)
    ensures Originated(d, busy)
  {
    hide Surviving, Without, NoSplit, OnlyBefore;
    forall i, e: Dep, x: Mod | i in d && e in d[i] && e.ty.Data? && x in e.origs
      ensures x == i || x == e.dest || (i !in busy && x in d && x !in busy
                                        && Has(d[x], Import, i) && Has(d[x], Import, e.dest))
    {
      var e0 := SurvivedFrom(dd[i], gone, e);
      assert x in e0.origs && x !in gone && e.dest == e0.dest;
      if x != i && x != e.dest {
        EntrySurvives(dd[x], Import, i, gone);
        EntrySurvives(dd[x], Import, e.dest, gone);
      }
    }
  }

  lemma FirmlySurvives(plan: Plan, dd: Lists, vv: Lists, busy: set<Mod>, gone: set<Mod>, d: Lists, v: Lists)
    requires IsAfter(dd, gone, {}, d) && IsAfter(vv, gone, busy, v) && Foreseen(plan, dd, vv, busy) && Firmly(plan, dd, vv, busy)
    ensures Firmly(plan, d, v, busy)
  {
    hide Surviving, Has, LeadsTo;
    forall i, t, y | (i, t, y) in plan.firm && i in d && i !in busy && y in d ensures y !in busy && Has(d[i], t, y) {
      EntrySurvives(dd[i], t, y, gone);
    }
    forall b, t, i | (b, t, i) in plan.firm && i in v && LeadsTo(v[i], b) ensures Has(v[i], t, b) {
      if i !in busy {
        NamedBefore(vv[i], gone, b);
        EntrySurvives(vv[i], t, b, gone);
      }
    }
    forall i, e: Dep | i in d && e in d[i] ensures (i, e.dest) in plan.listed {
      var e0 := SurvivedFrom(dd[i], gone, e);
    }
    forall k, f: Dep | k in v && f in v[k] ensures (f.dest, k) in plan.listed {
      if k !in busy {
        var f0 := SurvivedFrom(vv[k], gone, f);
      }
    }
  }

  lemma NamedBefore(l: seq<Dep>, gone: set<Mod>, b: Mod)
    requires LeadsTo(Surviving(l, gone), b)
    ensures LeadsTo(l, b) && b !in gone
  {
    hide Surviving;
    var f :| f in Surviving(l, gone) && f.dest == b;
    var f0 := SurvivedFrom(l, gone, f);
  }

  /** Removing modules that are not busy keeps the invariant. */
  lemma InvSurvives(plan: Plan, dd: Lists, vv: Lists, busy: set<Mod>, gone: set<Mod>, d: Lists, v: Lists)
    requires IsAfter(dd, gone, {}, d) && IsAfter(vv, gone, busy, v)
    requires Inv(plan, dd, vv, busy, {}) && gone !! busy && (busy == {} || gone <= plan.removable)
    ensures Inv(plan, d, v, busy, {})
  {
    hide IsAfter, Edges, Mirror, StillListed, OwnOrigins, Paired, StaleInverse, Foreseen, Originated, Firmly, Orderly;
    EdgesHold(dd, vv, busy);
    EdgesSurvive(dd, vv, busy, gone, d, v);
    MirrorSurvives(dd, vv, busy, gone, d, v);
    StillListedSurvives(dd, vv, busy, gone, d, v);
    OwnOriginsSurvive(vv, busy, gone, v);
    PairedSurvives(plan.removable, dd, vv, busy, gone, d, v);
    StaleSurvives(vv, busy, gone, v);
    ForeseenSurvives(plan, dd, vv, busy, gone, d, v);
    OriginsSurvive(dd, busy, gone, d);
    FirmlySurvives(plan, dd, vv, busy, gone, d, v);
    OrderlySurvives(plan, dd, gone, d);
  }

  lemma EdgesHold(dd: Lists, vv: Lists, busy: set<Mod>)
    requires Edges(dd, vv, busy)
    ensures dd.Keys == vv.Keys && forall i :: i in dd ==> GoodOrigs(dd[i])
  {
  }

  lemma StaleSurvives(vv: Lists, busy: set<Mod>, gone: set<Mod>, v: Lists)
    requires IsAfter(vv, gone, busy, v) && StaleInverse(vv, busy)
    ensures StaleInverse(v, busy)
  {
    hide Surviving;
  }

  lemma OrderlySurvives(plan: Plan, dd: Lists, gone: set<Mod>, d: Lists)
    requires IsAfter(dd, gone, {}, d)
    requires Orderly(plan, dd)
    ensures Orderly(plan, d)
  {
    hide NoSplit;
    forall i | i in dd && i !in gone && i in plan.leaving && !plan.HeldBack(i) ensures NoSplit(plan, i, Surviving(dd[i], gone)) {
      NoSplitSurvives(plan, i, dd[i], gone);
    }
  }
}
