/** Values behind the removal of a module from the dependency graph
    (`md_remove_modules_internal`, src/module_dependencies.c): list filters, what a removed set
    leaves of a list, and the loops that filter lists in place. */
module RemovalSpec {
  import opened DepGraph

  // ---------------------------------------------------------------- list filters

  /** Unlink every entry pointing to m. */
  function RemoveTo(l: seq<Dep>, m: Mod): (r: seq<Dep>)
    ensures forall e :: e in r <==> e in l && e.dest != m
    ensures |r| <= |l|
  {
    if l == [] then []
    else if l[0].dest == m then RemoveTo(l[1..], m)
    else [l[0]] + RemoveTo(l[1..], m)
  }

  /** Unlink the first occurrence. */
  function RemoveFirst(o: seq<Mod>, m: Mod): seq<Mod> {
    if o == [] then [] else if o[0] == m then o[1..] else [o[0]] + RemoveFirst(o[1..], m)
  }

  /** Forget originator m on direct data entries; an entry without originators is unlinked. */
  function DropOrig(l: seq<Dep>, m: Mod): seq<Dep> {
    if l == [] then []
    else
      var e, rest := l[0], DropOrig(l[1..], m);
      if e.direct && e.ty.Data? then
        var o := RemoveFirst(e.origs, m);
        if o == [] then rest else [e.(origs := o)] + rest
      else [e] + rest
  }

  function Without(o: seq<Mod>, gone: set<Mod>): (r: seq<Mod>)
    ensures forall x :: x in r <==> x in o && x !in gone
  {
    if o == [] then []
    else if o[0] in gone then Without(o[1..], gone)
    else [o[0]] + Without(o[1..], gone)
  }

  /** What is left of one entry when the modules `gone` are removed. */
  function Survivor(e: Dep, gone: set<Mod>): Option<Dep> {
    if e.dest in gone then None
    else if e.ty.Data? then
      var o := Without(e.origs, gone);
      if o == [] then None else Some(e.(origs := o))
    else Some(e)
  }

  /** What is left of a list, in order, when the modules `gone` are removed: entries to them
      disappear, and so do data entries that only they introduced. */
  function Surviving(l: seq<Dep>, gone: set<Mod>): (r: seq<Dep>)
    ensures |r| <= |l|
    ensures l != [] && Survivor(l[0], gone).None? ==> |r| < |l|
  {
    if l == [] then []
    else
      var rest := Surviving(l[1..], gone);
      match Survivor(l[0], gone)
      case None => rest
      case Some(f) => [f] + rest
  }

  // ---------------------------------------------------------------- laws of the filters

  lemma {:induction false} Survives(l: seq<Dep>, gone: set<Mod>, e: Dep)
    requires e in l && Survivor(e, gone).Some?
    ensures Survivor(e, gone).value in Surviving(l, gone)
  {
    if e != l[0] { Survives(l[1..], gone, e); }
  }

  lemma {:induction false} SurvivedFrom(l: seq<Dep>, gone: set<Mod>, f: Dep) returns (e: Dep)
    requires f in Surviving(l, gone)
    ensures e in l && Survivor(e, gone) == Some(f)
  {
    if Survivor(l[0], gone) == Some(f) {
      e := l[0];
    } else {
      e := SurvivedFrom(l[1..], gone, f);
    }
  }

  lemma {:induction false} WithoutTwice(o: seq<Mod>, a: set<Mod>, b: set<Mod>)
    ensures Without(Without(o, a), b) == Without(o, a + b)
  {
    if o != [] { WithoutTwice(o[1..], a, b); }
  }

  lemma SurvivorTwice(e: Dep, a: set<Mod>, b: set<Mod>)
    ensures (match Survivor(e, a) case None => None case Some(f) => Survivor(f, b)) == Survivor(e, a + b)
  {
    WithoutTwice(e.origs, a, b);
    if Without(e.origs, a) == [] {
      assert forall x :: x in Without(e.origs, a + b) ==> x in Without(e.origs, a);
      assert Without(e.origs, a + b) == [];
    }
  }

  lemma {:induction false} SurvivingTwice(l: seq<Dep>, a: set<Mod>, b: set<Mod>)
    ensures Surviving(Surviving(l, a), b) == Surviving(l, a + b)
  {
    if l != [] {
      SurvivingTwice(l[1..], a, b);
      SurvivorTwice(l[0], a, b);
      var rest := Surviving(l[1..], a);
      match Survivor(l[0], a)
      case None =>
      case Some(f) => assert ([f] + rest)[1..] == rest;
    }
  }

  lemma {:induction false} RemoveFirstIsWithout(o: seq<Mod>, m: Mod)
    requires Distinct(o)
    ensures RemoveFirst(o, m) == Without(o, {m})
  {
    if o != [] {
      if o[0] == m {
        WithoutNothing(o[1..], {m});
      } else {
        RemoveFirstIsWithout(o[1..], m);
      }
    }
  }

  lemma {:induction false} WithoutNothing(o: seq<Mod>, gone: set<Mod>)
    requires forall x :: x in o ==> x !in gone
    ensures Without(o, gone) == o
  {
    if o != [] { WithoutNothing(o[1..], gone); }
  }

  lemma {:induction false} WithoutKeepsDistinct(o: seq<Mod>, gone: set<Mod>)
    requires Distinct(o)
    ensures Distinct(Without(o, gone))
  {
    if o != [] { WithoutKeepsDistinct(o[1..], gone); }
  }

  /** Data entries have originators, each recorded once. */
  ghost predicate GoodOrigs(l: seq<Dep>) {
    forall e :: e in l && e.ty.Data? ==> e.origs != [] && Distinct(e.origs)
  }

  ghost predicate AllDirect(l: seq<Dep>) {
    forall e :: e in l ==> e.direct
  }

  /** An entry left by `DropOrig` had at least its originators before. */
  lemma {:induction false} DroppedFrom(l: seq<Dep>, m: Mod, f: Dep) returns (e: Dep)
    requires GoodOrigs(l) && f in DropOrig(l, m)
    ensures e in l && e.ty == f.ty && e.dest == f.dest && e.direct == f.direct
    ensures forall x :: x in f.origs ==> x in e.origs
    ensures f.ty.Data? ==> f.origs != [] && Distinct(f.origs)
  {
    e := l[0];
    assert e in l;
    if e.direct && e.ty.Data? {
      RemoveFirstIsWithout(e.origs, m);
      WithoutKeepsDistinct(e.origs, {m});
      if RemoveFirst(e.origs, m) == [] || f != e.(origs := RemoveFirst(e.origs, m)) {
        e := DroppedFrom(l[1..], m, f);
      }
    } else if f != e {
      e := DroppedFrom(l[1..], m, f);
    }
  }

  lemma {:induction false} KeptByDrop(l: seq<Dep>, m: Mod, e: Dep)
    requires e in l && (!e.direct || !e.ty.Data?)
    ensures e in DropOrig(l, m)
  {
    if e != l[0] { KeptByDrop(l[1..], m, e); }
  }

  /** Unlinking m and forgetting it as an originator is what removing {m} leaves. */
  lemma {:induction false} DropOrigSurviving(l: seq<Dep>, m: Mod)
    requires GoodOrigs(l) && AllDirect(l)
    ensures DropOrig(RemoveTo(l, m), m) == Surviving(l, {m})
    ensures RemoveTo(DropOrig(l, m), m) == Surviving(l, {m})
  {
    if l != [] {
      var e := l[0];
      assert e in l;
      DropOrigSurviving(l[1..], m);
      if e.ty.Data? { RemoveFirstIsWithout(e.origs, m); }
      if e.dest != m {
        assert ([e] + RemoveTo(l[1..], m))[1..] == RemoveTo(l[1..], m);
      }
      var rest := DropOrig(l[1..], m);
      if DropOrig(l, m) != rest {
        assert DropOrig(l, m)[1..] == rest;
      }
    }
  }

  /** m introduced nothing that is not its own edge. */
  lemma {:induction false} NotOriginated(l: seq<Dep>, m: Mod)
    requires GoodOrigs(l)
    requires forall e :: e in l && e.ty.Data? && e.dest != m ==> m !in e.origs
    ensures Surviving(l, {m}) == RemoveTo(l, m)
  {
    if l != [] {
      assert l[0] in l;
      NotOriginated(l[1..], m);
      if l[0].ty.Data? && l[0].dest != m { WithoutNothing(l[0].origs, {m}); }
    }
  }

  lemma {:induction false} RemoveToNothing(l: seq<Dep>, m: Mod)
    requires forall e :: e in l ==> e.dest != m
    ensures RemoveTo(l, m) == l
  {
    if l != [] { assert l[0] in l; RemoveToNothing(l[1..], m); }
  }

  lemma {:induction false} RemoveToSurviving(l: seq<Dep>, m: Mod, gone: set<Mod>)
    ensures RemoveTo(Surviving(l, gone), m) == Surviving(RemoveTo(l, m), gone)
  {
    if l != [] {
      RemoveToSurviving(l[1..], m, gone);
      var rest := Surviving(l[1..], gone);
      match Survivor(l[0], gone)
      case None =>
      case Some(f) => assert ([f] + rest)[1..] == rest;
      if l[0].dest != m {
        assert ([l[0]] + RemoveTo(l[1..], m))[1..] == RemoveTo(l[1..], m);
      }
    }
  }

  lemma {:induction false} DirectOnlyRemoveTo(l: seq<Dep>, m: Mod)
    ensures DirectOnly(RemoveTo(l, m)) == RemoveTo(DirectOnly(l), m)
  {
    if l != [] {
      DirectOnlyRemoveTo(l[1..], m);
      assert l[0].dest != m ==> RemoveTo(l, m)[1..] == RemoveTo(l[1..], m);
      assert l[0].direct ==> DirectOnly(l)[1..] == DirectOnly(l[1..]);
    }
  }

  lemma {:induction false} DirectOnlyDropOrig(l: seq<Dep>, m: Mod)
    ensures DirectOnly(DropOrig(l, m)) == DropOrig(DirectOnly(l), m)
  {
    if l != [] {
      DirectOnlyDropOrig(l[1..], m);
      var e, rest := l[0], DropOrig(l[1..], m);
      assert e.direct ==> DirectOnly(l)[1..] == DirectOnly(l[1..]);
      assert DropOrig(l, m) != rest ==> DropOrig(l, m)[1..] == rest;
    }
  }

  lemma {:induction false} DropOrigTwice(l: seq<Dep>, m: Mod)
    requires forall e :: e in l && e.direct && e.ty.Data? ==> Distinct(e.origs)
    ensures DropOrig(DropOrig(l, m), m) == DropOrig(l, m)
  {
    if l != [] {
      DropOrigTwice(l[1..], m);
      var e, rest := l[0], DropOrig(l[1..], m);
      assert e in l;
      if e.direct && e.ty.Data? {
        RemoveFirstIsWithout(e.origs, m);
        var o := RemoveFirst(e.origs, m);
        WithoutKeepsDistinct(e.origs, {m});
        RemoveFirstIsWithout(o, m);
        WithoutNothing(o, {m});
      }
      assert DropOrig(l, m) != rest ==> DropOrig(l, m)[1..] == rest;
    }
  }

  // ---------------------------------------------------------------- the loops over one list

  /** The loop that unlinks every entry pointing to m (2512-2524, 2741-2753). */
  method RemoveEntriesTo(l: seq<Dep>, m: Mod) returns (r: seq<Dep>)
    ensures r == RemoveTo(l, m)
  {
    hide RemoveTo;
    r := l;
    var n := 0;
    while n < |r|
      invariant 0 <= n <= |r|
      invariant forall e :: e in r[..n] ==> e.dest != m
      invariant RemoveTo(r, m) == RemoveTo(l, m)
      decreases |r| - n
    {
      if r[n].dest != m {
        assert r[..n + 1] == r[..n] + [r[n]];
        n := n + 1;
      } else {
        RemoveToWithout(r, n, m);
        r := r[..n] + r[n + 1..];
      }
    }
    assert r[..n] == r;
    RemoveToNothing(r, m);
  }

  lemma RemoveToWithout(l: seq<Dep>, n: nat, m: Mod)
    requires n < |l| && l[n].dest == m
    ensures RemoveTo(l[..n] + l[n + 1..], m) == RemoveTo(l, m)
  {
    assert RemoveTo([l[n]], m) == [];
    hide RemoveTo;
    assert l == l[..n] + ([l[n]] + l[n + 1..]);
    RemoveToConcat(l[..n], [l[n]] + l[n + 1..], m);
    RemoveToConcat([l[n]], l[n + 1..], m);
    RemoveToConcat(l[..n], l[n + 1..], m);
  }

  lemma {:induction false} RemoveToConcat(a: seq<Dep>, b: seq<Dep>, m: Mod)
    ensures RemoveTo(a + b, m) == RemoveTo(a, m) + RemoveTo(b, m)
  {
    if a == [] {
      assert a + b == b;
    } else {
      assert (a + b)[1..] == a[1..] + b;
      RemoveToConcat(a[1..], b, m);
    }
  }

  /** The search for m among the originators (2586-2594). */
  method RemoveOriginator(o: seq<Mod>, m: Mod) returns (r: seq<Mod>)
    ensures r == RemoveFirst(o, m)
  {
    hide RemoveFirst;
    var n := 0;
    while n < |o| && o[n] != m
      invariant 0 <= n <= |o|
      invariant m !in o[..n]
    {
      n := n + 1;
    }
    if n == |o| {
      assert o[..n] == o;
      RemoveFirstNone(o, m);
      r := o;
    } else {
      RemoveFirstAt(o, m, n);
      r := o[..n] + o[n + 1..];
    }
  }

  lemma {:induction false} RemoveFirstNone(o: seq<Mod>, m: Mod)
    requires m !in o
    ensures RemoveFirst(o, m) == o
  {
    if o != [] {
      RemoveFirstNone(o[1..], m);
    }
  }

  lemma {:induction false} RemoveFirstAt(o: seq<Mod>, m: Mod, n: nat)
    requires n < |o| && o[n] == m && m !in o[..n]
    ensures RemoveFirst(o, m) == o[..n] + o[n + 1..]
  {
    if n > 0 {
      var rest := o[1..];
      assert o[0] != m && rest[..n - 1] == o[..n][1..] && rest[n..] == o[n + 1..];
      RemoveFirstAt(rest, m, n - 1);
      assert o[..n] == [o[0]] + rest[..n - 1];
    }
  }

  lemma {:induction false} DropOrigConcat(a: seq<Dep>, b: seq<Dep>, m: Mod)
    ensures DropOrig(a + b, m) == DropOrig(a, m) + DropOrig(b, m)
  {
    if a == [] {
      assert a + b == b;
    } else {
      assert (a + b)[1..] == a[1..] + b;
      DropOrigConcat(a[1..], b, m);
    }
  }

  /** The loop over the data entries of a list that forgets m as an originator (2582-2605). */
  method ForgetOriginator(l: seq<Dep>, m: Mod) returns (r: seq<Dep>)
    ensures r == DropOrig(l, m)
  {
    r := [];
    var n := 0;
    while n < |l|
      invariant 0 <= n <= |l|
      invariant r == DropOrig(l[..n], m)
    {
      var e := l[n];
      assert l[..n + 1] == l[..n] + [e];
      DropOrigConcat(l[..n], [e], m);
      if e.direct && e.ty.Data? {
        var o := RemoveOriginator(e.origs, m);
        if o != [] {
          r := r + [e.(origs := o)];
        }
      } else {
        r := r + [e];
      }
      n := n + 1;
    }
    assert l[..n] == l;
  }

  /** The usage count of 2714-2723: how many entries would still need the module once m is gone.
      Transitive entries count too. */
  method UsageCount(l: seq<Dep>, m: Mod) returns (count: nat)
    ensures count == 0 <==> forall f :: f in l ==> f.dest == m || f.ty.Extension?
  {
    count := 0;
    var n := 0;
    while n < |l|
      invariant 0 <= n <= |l|
      invariant count == 0 <==> forall f :: f in l[..n] ==> f.dest == m || f.ty.Extension?
    {
      assert l[..n + 1] == l[..n] + [l[n]];
      if l[n].dest != m && !l[n].ty.Extension? {
        assert l[n] in l[..n + 1];
        count := count + 1;
      }
      n := n + 1;
    }
    assert l[..n] == l;
  }
}
