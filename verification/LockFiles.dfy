/** Names of lock files, and the way back from a lock file to its module
    (`sr_get_lock_data_file_name` in src/common/sr_utils.c, `dm_get_schema_info_by_lock_file` in
    src/data_manager.c). */
module LockFiles {
  import opened DepGraph

  datatype Ds = Startup | Running | Candidate

  /** Module names are identities: two modules are the same when their names are. */
  datatype Name = Name(text: string)

  /** A lock file: the module and datastore it stands for. */
  datatype File = File(m: Name, ds: Ds)

  function Suffix(ds: Ds): string {
    match ds
    case Startup => ".startup.lock"
    case Running => ".running.lock"
    case Candidate => ".candidate.lock"
  }

  function LockFileName(dir: string, name: string, ds: Ds): string {
    dir + (name + Suffix(ds))
  }

  predicate At(s: string, i: nat, p: string) {
    i + |p| <= |s| && s[i..i + |p|] == p
  }

  predicate Contains(s: string, p: string) {
    exists i: nat | i <= |s| :: At(s, i, p)
  }

  /** `strstr`: where the pattern occurs first. */
  method StrStr(s: string, p: string) returns (r: Option<nat>)
    ensures r.None? <==> !Contains(s, p)
    ensures r.Some? ==> At(s, r.value, p) && forall i: nat :: i < r.value ==> !At(s, i, p)
  {
    var i: nat := 0;
    while i <= |s|
      invariant i <= |s| + 1
      invariant forall k: nat :: k < i ==> !At(s, k, p)
    {
      if At(s, i, p) {
        return Some(i);
      }
      i := i + 1;
    }
    r := None;
  }

  /** The module a lock file name is taken to belong to (1808-1824). */
  method ModuleOf(dir: string, file: string) returns (r: Option<string>)
    ensures forall name, ds :: file == LockFileName(dir, name, ds) ==> (r == Some(name) <==> Recoverable(name, ds))
    // the name of another module, if one comes out, is shorter
    ensures forall name, ds :: file == LockFileName(dir, name, ds) && r.Some? && r.value != name ==> |r.value| < |name|
    ensures !Contains(file, dir) ==> r.None?
  {
    var d := StrStr(file, dir);
    if d.None? {
      ContainsPrefix(dir, file);
      return None;
    }
    var begin := file[|dir|..];
    var end := StrStr(begin, Suffix(Startup));
    if end.None? {
      end := StrStr(begin, Suffix(Running));
    }
    if end.None? {
      end := StrStr(begin, Suffix(Candidate));
    }
    r := if end.Some? then Some(begin[..end.value]) else None;
    forall name, ds | file == LockFileName(dir, name, ds)
      ensures r == Some(name) <==> Recoverable(name, ds)
      ensures r.Some? && r.value != name ==> |r.value| < |name|
    {
      assert begin == name + Suffix(ds);
      FirstMatch(name, ds, begin, end);
    }
  }

  /** A name from which the lock file of the datastore leads back to the module: it holds neither
      its own suffix nor one that is tried earlier. */
  predicate Recoverable(name: string, ds: Ds) {
    && !Contains(name, Suffix(Startup))
    && (ds != Startup ==> !Contains(name, Suffix(Running)))
    && (ds == Candidate ==> !Contains(name, Suffix(Candidate)))
  }

  /** The running lock of this module is taken for a lock of module "a". */
  lemma NameLost()
    ensures !Recoverable("a.startup.lock-state", Running)
  {
    var name := "a.startup.lock-state";
    assert name[1..1 + |Suffix(Startup)|] == Suffix(Startup);
    assert At(name, 1, Suffix(Startup));
  }

  /** Only a module name with a dot in it can be lost. */
  lemma DotlessRecoverable(name: string, ds: Ds)
    requires '.' !in name
    ensures Recoverable(name, ds)
  {
    forall d: Ds ensures !Contains(name, Suffix(d)) {
      forall i: nat | i + |Suffix(d)| <= |name| ensures !At(name, i, Suffix(d)) {
        assert name[i] in name && name[i..i + |Suffix(d)|][0] != Suffix(d)[0];
      }
    }
  }

  lemma ContainsPrefix(dir: string, file: string)
    ensures forall rest :: file == dir + rest ==> Contains(file, dir)
  {
    forall rest | file == dir + rest ensures Contains(file, dir) {
      assert At(file, 0, dir);
    }
  }

  lemma Letters(ds: Ds)
    ensures |Suffix(ds)| > 1 && Suffix(ds)[0] == '.' && Suffix(ds)[1] != 'l'
  {
  }

  lemma Dots(ds: Ds, j: nat)
    requires 0 < j < |Suffix(ds)| && Suffix(ds)[j] == '.'
    ensures j + 1 < |Suffix(ds)| && Suffix(ds)[j + 1] == 'l'
  {
  }

  /** A suffix that starts within a name cannot reach into the suffix that follows: there it would
      need a dot and then the first letter of a datastore. */
  lemma NotAcross(name: string, ds: Ds, other: Ds, i: nat)
    requires i < |name| < i + |Suffix(other)| <= |name + Suffix(ds)|
    ensures !At(name + Suffix(ds), i, Suffix(other))
  {
    hide Suffix;
    var s, p := name + Suffix(ds), Suffix(other);
    var j := |name| - i;
    Letters(ds);
    if p[j] != '.' {
      assert s[i..i + |p|][j] == Suffix(ds)[0] != p[j];
    } else {
      Dots(other, j);
      assert s[i..i + |p|][j + 1] == Suffix(ds)[1] != p[j + 1];
    }
  }

  /** Nor does it occur within another suffix. */
  lemma NotBehind(name: string, ds: Ds, other: Ds, i: nat)
    requires |name| <= i && i + |Suffix(other)| <= |name + Suffix(ds)| && !(i == |name| && other == ds)
    ensures !At(name + Suffix(ds), i, Suffix(other))
  {
    var s, p := name + Suffix(ds), Suffix(other);
    var j := i - |name|;
    if j == 0 {
      assert s[i..i + |p|][1] == Suffix(ds)[1] != p[1];
    } else {
      assert s[i..i + |p|][0] == Suffix(ds)[j] != p[0];
    }
  }

  /** A suffix occurs in a name followed by a suffix either within the name or as that suffix. */
  lemma NoCrossing(name: string, ds: Ds, other: Ds, i: nat)
    requires At(name + Suffix(ds), i, Suffix(other))
    ensures i + |Suffix(other)| <= |name| || (i == |name| && other == ds)
  {
    hide Suffix;
    if |name| < i + |Suffix(other)| {
      if i < |name| {
        NotAcross(name, ds, other, i);
      } else if i != |name| || other != ds {
        NotBehind(name, ds, other, i);
      }
    }
  }

  lemma Within(name: string, tail: string, p: string)
    ensures Contains(name, p) ==> exists i: nat :: i + |p| <= |name| && At(name + tail, i, p)
    ensures forall i: nat :: i + |p| <= |name| && At(name + tail, i, p) ==> Contains(name, p)
  {
    var s := name + tail;
    forall i: nat | i + |p| <= |name| ensures At(s, i, p) <==> At(name, i, p) {
      assert s[i..i + |p|] == name[i..i + |p|];
    }
    if Contains(name, p) {
      var i: nat :| i <= |name| && At(name, i, p);
      assert At(s, i, p);
    }
  }

  /** Whether a suffix is found in the file name, and where. */
  lemma Occurs(name: string, ds: Ds, other: Ds)
    ensures Contains(name + Suffix(ds), Suffix(other)) <==> Contains(name, Suffix(other)) || ds == other
    ensures forall i: nat :: At(name + Suffix(ds), i, Suffix(other)) && !Contains(name, Suffix(other)) ==> i == |name|
  {
    var s, p := name + Suffix(ds), Suffix(other);
    Within(name, Suffix(ds), p);
    if ds == other { assert At(s, |name|, p); }
    forall i: nat | At(s, i, p) ensures i + |p| <= |name| || (i == |name| && other == ds) {
      NoCrossing(name, ds, other, i);
    }
  }

  /** The suffix that is found: they are tried in this order. */
  function Tried(begin: string): Ds {
    if Contains(begin, Suffix(Startup)) then Startup else if Contains(begin, Suffix(Running)) then Running else Candidate
  }

  lemma FirstMatch(name: string, ds: Ds, begin: string, end: Option<nat>)
    requires begin == name + Suffix(ds)
    requires end.None? <==> !Contains(begin, Suffix(Tried(begin)))
    requires end.Some? ==> At(begin, end.value, Suffix(Tried(begin))) && forall i: nat :: i < end.value ==> !At(begin, i, Suffix(Tried(begin)))
    ensures end.Some? && (begin[..end.value] == name <==> Recoverable(name, ds))
    ensures end.value <= |name| && (end.value == |name| ==> begin[..end.value] == name)
  {
    hide At, Suffix;
    var first := Tried(begin);
    Occurs(name, ds, Startup);
    Occurs(name, ds, Running);
    Occurs(name, ds, Candidate);
    assert Recoverable(name, ds) <==> first == ds && !Contains(name, Suffix(ds));
    if Contains(name, Suffix(first)) {
      EndsBefore(name, ds, first, end.value);
    } else {
      assert end == Some(|name|);
      assert begin[..|name|] == name;
    }
  }

  lemma EndsBefore(name: string, ds: Ds, first: Ds, end: nat)
    requires Contains(name, Suffix(first)) && end <= |name + Suffix(ds)|
    requires forall i: nat :: i < end ==> !At(name + Suffix(ds), i, Suffix(first))
    ensures end < |name|
  {
    Within(name, Suffix(ds), Suffix(first));
  }

  /** The test for candidate lock files when locks are released (1853). */
  predicate NamesCandidate(file: string) {
    |file| >= 15 && file[|file| - 15..] == ".candidate.lock"
  }

  /** The eighth letter from the end tells the datastores apart. */
  lemma Eighth(prefix: string, ds: Ds)
    ensures (prefix + Suffix(ds))[|prefix + Suffix(ds)| - 8] == match ds { case Startup => 't' case Running => 'i' case Candidate => 'a' }
  {
  }

  lemma CandidateByName(dir: string, name: string, ds: Ds)
    ensures NamesCandidate(LockFileName(dir, name, ds)) <==> ds == Candidate
  {
    var p := dir + name;
    assert LockFileName(dir, name, ds) == p + Suffix(ds);
    EndsAsCandidate(p, ds);
  }

  lemma EndsAsCandidate(p: string, ds: Ds)
    ensures NamesCandidate(p + Suffix(ds)) <==> ds == Candidate
  {
    Eighth(p, ds);
    assert |Suffix(Candidate)| == 15 && Suffix(Candidate)[7] == 'a' && Suffix(Candidate) == ".candidate.lock";
    hide Suffix;
    var f := p + Suffix(ds);
    if ds == Candidate {
      assert f[|f| - 15..] == Suffix(ds);
    } else if |f| >= 15 {
      assert f[|f| - 15..][7] == f[|f| - 8];
    }
  }

  /** Different locks have different files. */
  lemma Injective(dir: string, a: string, ds: Ds, b: string, ds': Ds)
    requires LockFileName(dir, a, ds) == LockFileName(dir, b, ds')
    ensures a == b && ds == ds'
  {
    var f, g := a + Suffix(ds), b + Suffix(ds');
    assert LockFileName(dir, a, ds)[|dir|..] == f && LockFileName(dir, b, ds')[|dir|..] == g;
    Eighth(a, ds);
    Eighth(b, ds');
    hide Suffix;
    assert f[..|a|] == a && g[..|b|] == b;
  }
}
