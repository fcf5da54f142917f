/** Adjacency lists of the module dependency graph (src/module_dependencies.c).

    A module keeps two linked lists of dependencies: `deps` (modules it needs) and `inv_deps`
    (modules that need it).  A list is a sequence of entries here, and a whole side of the graph
    is a map from modules to their lists. */
module DepGraph {

  /** Identity of an `md_module_t`. */
  datatype Mod = Mod(id: nat)

  datatype Option<+T> = None | Some(value: T)

  datatype DepType = Include | Import | Extension | Data

  /** `md_dep_t`: an edge to `dest`, direct or computed by the transitive closure, with the
      modules that introduced it (`orig_modules`, used by data dependencies). */
  datatype Dep = Dep(ty: DepType, dest: Mod, direct: bool, origs: seq<Mod>)

  type Lists = map<Mod, seq<Dep>>

  // ---------------------------------------------------------------- what a list contains

  ghost predicate Has(l: seq<Dep>, t: DepType, d: Mod) {
    exists e :: e in l && e.ty == t && e.dest == d
  }

  /** There is an edge of type t from i to j. */
  ghost predicate Edge(g: Lists, i: Mod, t: DepType, j: Mod) {
    i in g && Has(g[i], t, j)
  }

  /** No two entries of a list agree on type and destination. */
  ghost predicate UniqueEntries(l: seq<Dep>) {
    forall a, b :: 0 <= a < b < |l| ==> !(l[a].ty == l[b].ty && l[a].dest == l[b].dest)
  }

  ghost predicate Distinct<T>(s: seq<T>) {
    forall a, b :: 0 <= a < b < |s| ==> s[a] != s[b]
  }

  // ---------------------------------------------------------------- md_add_dependency

  /** Originators recorded on an existing entry: a new one is appended once. */
  ghost function WithOrig(origs: seq<Mod>, orig: Option<Mod>): seq<Mod> {
    if orig.None? || orig.value in origs then origs else origs + [orig.value]
  }

  /** A list after an edge is recorded: a new one is appended, with its originator if it has one; the
      first entry of a known one gains directness and the originator. */
  ghost predicate Records(l: seq<Dep>, ty: DepType, dest: Mod, direct: bool, orig: Option<Mod>, r: seq<Dep>) {
    && (!Has(l, ty, dest) ==> r == l + [Dep(ty, dest, direct, if orig.Some? then [orig.value] else [])])
    && (Has(l, ty, dest) ==>
          exists k :: 0 <= k < |l| && l[k].ty == ty && l[k].dest == dest
                      && (forall a :: 0 <= a < k ==> !(l[a].ty == ty && l[a].dest == dest))
                      && r == l[k := Dep(ty, dest, l[k].direct || direct, WithOrig(l[k].origs, orig))])
  }

  /** `md_add_dependency`: the two nested searches of the source are the two loops.  A new edge
      is appended, a known one keeps its place and only gains directness and an originator. */
  method AddDependency(l: seq<Dep>, ty: DepType, dest: Mod, direct: bool, orig: Option<Mod>)
    returns (r: seq<Dep>)
    ensures Records(l, ty, dest, direct, orig, r)
    ensures UniqueEntries(l) ==> UniqueEntries(r)
    ensures forall t, d :: Has(r, t, d) <==> Has(l, t, d) || (t == ty && d == dest)
    // what the transitive closure relies on
    ensures !direct && orig.None? ==> r == l || (!Has(l, ty, dest) && r == l + [Dep(ty, dest, false, [])])
  {
    var k := 0;
    while k < |l| && !(l[k].dest == dest && l[k].ty == ty)
      invariant 0 <= k <= |l|
      invariant forall a :: 0 <= a < k ==> !(l[a].ty == ty && l[a].dest == dest)
    {
      k := k + 1;
    }
    if k == |l| {
      assert !Has(l, ty, dest);
      r := l + [Dep(ty, dest, direct, if orig.Some? then [orig.value] else [])];
    } else {
      assert l[k] in l;
      var origs := l[k].origs;
      if orig.Some? {
        var n := 0;
        while n < |origs| && origs[n] != orig.value
          invariant 0 <= n <= |origs|
          invariant orig.value !in origs[..n]
        {
          n := n + 1;
        }
        assert origs[..|origs|] == origs;
        if n == |origs| {
          origs := origs + [orig.value];
        }
      }
      r := l[k := Dep(ty, dest, l[k].direct || direct, origs)];
      assert origs == WithOrig(l[k].origs, orig);
      UpdateKeepsHas(l, k, r[k]);
      if !direct && orig.None? {
        assert r == l;
      }
    }
  }

  lemma UpdateKeepsHas(l: seq<Dep>, k: nat, e: Dep)
    requires k < |l| && e.ty == l[k].ty && e.dest == l[k].dest
    ensures forall t, d :: Has(l[k := e], t, d) <==> Has(l, t, d)
  {
    var r := l[k := e];
    forall t, d ensures Has(r, t, d) <==> Has(l, t, d) {
      if x :| x in r && x.ty == t && x.dest == d {
        var a :| 0 <= a < |r| && r[a] == x;
        assert l[a] in l && l[a].ty == t && l[a].dest == d;
      }
      if x :| x in l && x.ty == t && x.dest == d {
        var a :| 0 <= a < |l| && l[a] == x;
        assert r[a] in r && r[a].ty == t && r[a].dest == d;
      }
    }
  }

  // ---------------------------------------------------------------- list filters

  /** The entries that are not the work of the transitive closure. */
  function DirectOnly(l: seq<Dep>): (r: seq<Dep>)
    ensures forall e :: e in r <==> e in l && e.direct
  {
    if l == [] then []
    else if l[0].direct then [l[0]] + DirectOnly(l[1..])
    else DirectOnly(l[1..])
  }

  lemma {:induction false} DirectOnlyConcat(a: seq<Dep>, b: seq<Dep>)
    ensures DirectOnly(a + b) == DirectOnly(a) + DirectOnly(b)
  {
    if a == [] {
      assert a + b == b;
    } else {
      assert (a + b)[1..] == a[1..] + b;
      DirectOnlyConcat(a[1..], b);
    }
  }

  lemma DirectOnlyNext(l: seq<Dep>, n: nat)
    requires n < |l|
    ensures DirectOnly(l[..n + 1]) == if l[n].direct then DirectOnly(l[..n]) + [l[n]] else DirectOnly(l[..n])
  {
    assert l[..n + 1] == l[..n] + [l[n]];
    DirectOnlyConcat(l[..n], [l[n]]);
  }

  lemma {:induction false} DirectOnlyIdentity(l: seq<Dep>)
    requires forall e :: e in l ==> e.direct
    ensures DirectOnly(l) == l
  {
    if l != [] { DirectOnlyIdentity(l[1..]); }
  }

  lemma {:induction false} DirectOnlyNothing(l: seq<Dep>)
    requires forall e :: e in l ==> !e.direct
    ensures DirectOnly(l) == []
  {
    if l != [] { DirectOnlyNothing(l[1..]); }
  }

  lemma DirectOnlyWithout(l: seq<Dep>, n: nat)
    requires n < |l| && !l[n].direct
    ensures DirectOnly(l[..n] + l[n + 1..]) == DirectOnly(l)
  {
    hide DirectOnly;
    var rest := [l[n]] + l[n + 1..];
    assert l == l[..n] + rest;
    DirectOnlyConcat(l[..n], rest);
    DirectOnlyConcat(l[..n], l[n + 1..]);
    DirectOnlySkip(l[n], l[n + 1..]);
  }

  lemma DirectOnlySkip(e: Dep, l: seq<Dep>)
    requires !e.direct
    ensures DirectOnly([e] + l) == DirectOnly(l)
  {
    assert ([e] + l)[1..] == l;
  }

  /** The direct part of one side of the graph. */
  function DirectPart(g: Lists): (r: Lists)
    ensures r.Keys == g.Keys
    ensures forall i :: i in g ==> r[i] == DirectOnly(g[i])
  {
    map i | i in g :: DirectOnly(g[i])
  }

  /** First loop of `md_transitive_closure` on one list: unlink every non-direct entry. */
  method DropTransitive(l: seq<Dep>) returns (r: seq<Dep>)
    ensures r == DirectOnly(l)
  {
    hide DirectOnly;
    r := l;
    var n := 0;
    while n < |r|
      invariant 0 <= n <= |r|
      invariant forall e :: e in r[..n] ==> e.direct
      invariant DirectOnly(r) == DirectOnly(l)
      decreases |r| - n
    {
      if r[n].direct {
        assert r[..n + 1] == r[..n] + [r[n]];
        n := n + 1;
      } else {
        DirectOnlyWithout(r, n);
        r := r[..n] + r[n + 1..];
      }
    }
    assert r[..n] == r;
    DirectOnlyIdentity(r);
  }
}
