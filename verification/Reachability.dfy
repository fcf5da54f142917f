/** Walks along edges of one type, with their interior confined to a set of modules: the
    reference meaning of the transitive closure. */
module Reachability {
  import opened DepGraph

  ghost predicate Walk(g: Lists, t: DepType, p: seq<Mod>) {
    2 <= |p| && forall k :: 0 <= k < |p| - 1 ==> Edge(g, p[k], t, p[k + 1])
  }

  /** Every interior stop of the walk lies in `via`. */
  ghost predicate Through(p: seq<Mod>, via: set<Mod>) {
    forall k :: 0 < k < |p| - 1 ==> p[k] in via
  }

  ghost predicate Connects(g: Lists, t: DepType, via: set<Mod>, i: Mod, j: Mod, p: seq<Mod>) {
    Walk(g, t, p) && p[0] == i && p[|p| - 1] == j && Through(p, via)
  }

  ghost predicate Connected(g: Lists, t: DepType, via: set<Mod>, i: Mod, j: Mod) {
    exists p :: Connects(g, t, via, i, j, p)
  }

  /** j can be reached from i along one or more edges of type t. */
  ghost predicate Reaches(g: Lists, t: DepType, i: Mod, j: Mod) {
    exists p :: Walk(g, t, p) && p[0] == i && p[|p| - 1] == j
  }

  lemma ConnectedDirectly(g: Lists, t: DepType, i: Mod, j: Mod)
    ensures Connected(g, t, {}, i, j) <==> Edge(g, i, t, j)
  {
    if Edge(g, i, t, j) {
      assert Connects(g, t, {}, i, j, [i, j]);
    }
    if Connected(g, t, {}, i, j) {
      var none: set<Mod> := {};
      var p :| Connects(g, t, none, i, j, p);
      assert Edge(g, p[0], t, p[0 + 1]);
    }
  }

  lemma Concatenate(g: Lists, t: DepType, via: set<Mod>, k: Mod, p: seq<Mod>, q: seq<Mod>)
    requires Walk(g, t, p) && Walk(g, t, q) && p[|p| - 1] == k == q[0]
    requires Through(p, via) && Through(q, via)
    ensures Connects(g, t, via + {k}, p[0], q[|q| - 1], p + q[1..])
  {
    var r := p + q[1..];
    forall n | 0 <= n < |r| - 1 ensures Edge(g, r[n], t, r[n + 1]) {
      if n < |p| - 1 {
        assert Edge(g, p[n], t, p[n + 1]);
      } else {
        assert r[n] == q[n - (|p| - 1)] && r[n + 1] == q[n - (|p| - 1) + 1];
        assert Edge(g, q[n - (|p| - 1)], t, q[n - (|p| - 1) + 1]);
      }
    }
  }

  /** The part of a walk before its first stop at k, if it has an interior stop there. */
  lemma {:induction false} PrefixUpTo(g: Lists, t: DepType, via: set<Mod>, k: Mod, p: seq<Mod>, n: nat)
    requires Walk(g, t, p) && Through(p, via + {k}) && 0 < n < |p| - 1 && p[n] == k
    ensures Connected(g, t, via, p[0], k)
    decreases n
  {
    if a :| 0 < a < n && p[a] == k {
      PrefixUpTo(g, t, via, k, p, a);
    } else {
      assert Connects(g, t, via, p[0], k, p[..n + 1]);
    }
  }

  lemma {:induction false} SuffixFrom(g: Lists, t: DepType, via: set<Mod>, k: Mod, p: seq<Mod>, n: nat)
    requires Walk(g, t, p) && Through(p, via + {k}) && 0 < n < |p| - 1 && p[n] == k
    ensures Connected(g, t, via, k, p[|p| - 1])
    decreases |p| - n
  {
    if a :| n < a < |p| - 1 && p[a] == k {
      SuffixFrom(g, t, via, k, p, a);
    } else {
      var q := p[n..];
      forall m | 0 <= m < |q| - 1 ensures Edge(g, q[m], t, q[m + 1]) {
        assert Edge(g, p[n + m], t, p[n + m + 1]);
      }
      assert Connects(g, t, via, k, p[|p| - 1], q);
    }
  }

  /** Allowing one more interior stop k adds exactly the walks that meet at k. */
  lemma OneMoreStop(g: Lists, t: DepType, via: set<Mod>, k: Mod, i: Mod, j: Mod)
    ensures Connected(g, t, via + {k}, i, j) <==>
            Connected(g, t, via, i, j) || (Connected(g, t, via, i, k) && Connected(g, t, via, k, j))
  {
    if Connected(g, t, via, i, j) {
      var p :| Connects(g, t, via, i, j, p);
      assert Connects(g, t, via + {k}, i, j, p);
    }
    if Connected(g, t, via, i, k) && Connected(g, t, via, k, j) {
      var p :| Connects(g, t, via, i, k, p);
      var q :| Connects(g, t, via, k, j, q);
      Concatenate(g, t, via, k, p, q);
    }
    if Connected(g, t, via + {k}, i, j) {
      var p :| Connects(g, t, via + {k}, i, j, p);
      if n :| 0 < n < |p| - 1 && p[n] == k {
        PrefixUpTo(g, t, via, k, p, n);
        SuffixFrom(g, t, via, k, p, n);
      } else {
        assert Connects(g, t, via, i, j, p);
      }
    }
  }

  /** With every module with outgoing edges allowed as a stop, the confinement says nothing. */
  lemma AllStops(g: Lists, t: DepType, via: set<Mod>, i: Mod, j: Mod)
    requires g.Keys <= via
    ensures Connected(g, t, via, i, j) <==> Reaches(g, t, i, j)
  {
    if Connected(g, t, via, i, j) {
      var p :| Connects(g, t, via, i, j, p);
      assert Walk(g, t, p);
    }
    if Reaches(g, t, i, j) {
      var p :| Walk(g, t, p) && p[0] == i && p[|p| - 1] == j;
      forall n | 0 < n < |p| - 1 ensures p[n] in via {
        assert Edge(g, p[n], t, p[n + 1]);
      }
      assert Connects(g, t, via, i, j, p);
    }
  }
}
