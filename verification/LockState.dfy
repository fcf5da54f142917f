/** The state that sessions, locks and data copies leave in the Data Manager, and what every step
    keeps of it (src/data_manager.c). */
module LockState {
  import opened DepGraph
  import opened LockFiles

  datatype Sid = Sid(id: nat)

  /** `dm_schema_info_t`: the reference count, whether the libyang context is there, and whether the
      module has data to lock. */
  datatype Schema = Schema(usage: int, alive: bool, lockable: bool)

  /** `dm_session_t`: the current datastore, the lock files held, `holds_ds_lock`, and the data
      copies by module and datastore with their read-only flag. */
  datatype Session = Session(ds: Ds, locked: seq<File>, holds: set<Ds>, copies: map<File, bool>)

  /** `prev` are the previous data trees that commit contexts keep. */
  datatype State = State(schemas: map<Name, Schema>, locking: set<File>, dsLock: set<Ds>,
                         sessions: map<Sid, Session>, prev: map<Sid, set<Name>>)

  // ---------------------------------------------------------------- references to a schema

  /** Who keeps a schema in use: a held lock, a copy that owns its data, a previous tree. */
  datatype Ref = LockRef(s: Sid, ds: Ds) | CopyRef(s: Sid, ds: Ds) | PrevRef(c: Sid)

  ghost predicate IsRef(st: State, m: Name, r: Ref) {
    match r
    case LockRef(s, d) => s in st.sessions && File(m, d) in st.sessions[s].locked
    case CopyRef(s, d) => s in st.sessions && File(m, d) in st.sessions[s].copies && !st.sessions[s].copies[File(m, d)]
    case PrevRef(c) => c in st.prev && m in st.prev[c]
  }

  ghost function AllDs(): set<Ds> {
    {Startup, Running, Candidate}
  }

  ghost function Refs(st: State, m: Name): (r: set<Ref>) {
    (set s, d | s in st.sessions && d in AllDs() && IsRef(st, m, LockRef(s, d)) :: LockRef(s, d))
    + (set s, d | s in st.sessions && d in AllDs() && IsRef(st, m, CopyRef(s, d)) :: CopyRef(s, d))
    + (set c | c in st.prev && IsRef(st, m, PrevRef(c)) :: PrevRef(c))
  }

  lemma RefsAre(st: State, m: Name)
    ensures forall r :: r in Refs(st, m) <==> IsRef(st, m, r)
  {
    forall r ensures r in Refs(st, m) <==> IsRef(st, m, r) {
      match r
      case LockRef(s, d) => assert d == Startup || d == Running || d == Candidate;
      case CopyRef(s, d) => assert d == Startup || d == Running || d == Candidate;
      case PrevRef(c) =>
    }
  }

  lemma RefGained(st: State, st': State, m: Name, r: Ref)
    requires !IsRef(st, m, r) && forall q :: IsRef(st', m, q) <==> IsRef(st, m, q) || q == r
    ensures |Refs(st', m)| == |Refs(st, m)| + 1
  {
    hide IsRef, Refs;
    RefsAre(st, m);
    RefsAre(st', m);
    assert Refs(st', m) == Refs(st, m) + {r};
  }

  lemma RefsSame(st: State, st': State, m: Name)
    requires forall q :: IsRef(st', m, q) <==> IsRef(st, m, q)
    ensures Refs(st', m) == Refs(st, m)
  {
    hide IsRef, Refs;
    RefsAre(st, m);
    RefsAre(st', m);
  }

  // ---------------------------------------------------------------- the invariant

  /** `usage_count` is the number of references. */
  ghost predicate Counted(st: State) {
    forall m :: m in st.schemas ==> st.schemas[m].usage == |Refs(st, m)|
  }

  /** No held lock, no copy that owns its data and no previous tree belongs to a schema whose context
      was destroyed.  Read-only copies are not counted and not covered (see `ReadOnly`). */
  ghost predicate Alive(st: State) {
    forall m, r :: IsRef(st, m, r) ==> m in st.schemas && st.schemas[m].alive
  }

  ghost predicate HeldBy(st: State, s: Sid, f: File) {
    s in st.sessions && f in st.sessions[s].locked
  }

  ghost predicate Held(st: State, f: File) {
    exists s :: HeldBy(st, s, f)
  }

  /** A startup or running lock file is held by one session, and the locking set holds exactly
      those held. */
  ghost predicate Exclusive(st: State) {
    && (forall s :: s in st.sessions ==> Distinct(st.sessions[s].locked))
    && (forall s, t, f :: HeldBy(st, s, f) && HeldBy(st, t, f) && f.ds != Candidate ==> s == t)
    && (forall f :: f in st.locking <==> f.ds != Candidate && Held(st, f))
  }

  ghost predicate DsHeldBy(st: State, s: Sid, d: Ds) {
    s in st.sessions && d in st.sessions[s].holds
  }

  ghost predicate DsHeld(st: State, d: Ds) {
    exists s :: DsHeldBy(st, s, d)
  }

  /** `ds_lock` is set exactly when one session holds the datastore. */
  ghost predicate DsLocked(st: State) {
    && (forall s, t, d :: DsHeldBy(st, s, d) && DsHeldBy(st, t, d) && d != Candidate ==> s == t)
    && (forall d :: d in st.dsLock <==> d != Candidate && DsHeld(st, d))
  }

  /** All but the counts. */
  ghost predicate Steady(st: State) {
    Alive(st) && Exclusive(st) && DsLocked(st)
  }

  ghost predicate Inv(st: State) {
    Counted(st) && Steady(st)
  }

  /** A session has a read-only copy of the module. */
  ghost predicate ReadOnly(st: State, m: Name) {
    exists s, d :: s in st.sessions && File(m, d) in st.sessions[s].copies && st.sessions[s].copies[File(m, d)]
  }

  /** A session has a copy of the module, read-only or not. */
  ghost predicate HasCopy(st: State, m: Name) {
    exists s, d :: s in st.sessions && File(m, d) in st.sessions[s].copies
  }

  /** With no references left, the copies that remain are the read-only ones. */
  lemma CopiesLeft(st: State, m: Name)
    requires forall r :: !IsRef(st, m, r)
    ensures HasCopy(st, m) <==> ReadOnly(st, m)
  {
    if HasCopy(st, m) {
      var s, d :| s in st.sessions && File(m, d) in st.sessions[s].copies;
      assert !IsRef(st, m, CopyRef(s, d));
    }
  }

  /** Schemas keep everything but their count. */
  ghost predicate SameSchemas(a: map<Name, Schema>, b: map<Name, Schema>) {
    a.Keys == b.Keys && forall m :: m in a ==> a[m].alive == b[m].alive && a[m].lockable == b[m].lockable
  }

  /** The sessions determine counts, locking set and datastore locks. */
  lemma Determined(a: State, b: State)
    requires Inv(a) && Inv(b) && a.sessions == b.sessions && a.prev == b.prev && SameSchemas(a.schemas, b.schemas)
    ensures a == b
  {
    hide Exclusive, DsLocked, Alive, Refs;
    forall m | m in a.schemas ensures a.schemas[m] == b.schemas[m] {
      RefsSame(a, b, m);
    }
    LocksDetermined(a, b);
    DsLocksDetermined(a, b);
  }

  lemma LocksDetermined(a: State, b: State)
    requires Exclusive(a) && Exclusive(b) && a.sessions == b.sessions
    ensures a.locking == b.locking
  {
    forall f ensures Held(a, f) <==> Held(b, f) {
      if s :| HeldBy(a, s, f) { assert HeldBy(b, s, f); }
      if s :| HeldBy(b, s, f) { assert HeldBy(a, s, f); }
    }
  }

  lemma DsLocksDetermined(a: State, b: State)
    requires DsLocked(a) && DsLocked(b) && a.sessions == b.sessions
    ensures a.dsLock == b.dsLock
  {
    forall d ensures DsHeld(a, d) <==> DsHeld(b, d) {
      if s :| DsHeldBy(a, s, d) { assert DsHeldBy(b, s, d); }
      if s :| DsHeldBy(b, s, d) { assert DsHeldBy(a, s, d); }
    }
  }

  // ---------------------------------------------------------------- locks

  ghost function Counting(schemas: map<Name, Schema>, m: Name, n: int): map<Name, Schema>
    requires m in schemas
  {
    schemas[m := schemas[m].(usage := schemas[m].usage + n)]
  }

  /** One reference more, by whatever step. */
  lemma CountedMore(st: State, st': State, m: Name, r: Ref)
    requires Counted(st) && m in st.schemas && st'.schemas == Counting(st.schemas, m, 1)
    requires !IsRef(st, m, r) && forall n, q :: IsRef(st', n, q) <==> IsRef(st, n, q) || (n == m && q == r)
    ensures Counted(st')
  {
    hide IsRef, Refs;
    RefGained(st, st', m, r);
    forall n | n in st.schemas && n != m ensures Refs(st', n) == Refs(st, n) {
      RefsSame(st, st', n);
    }
  }

  /** One less. */
  lemma CountedLess(st: State, st': State, m: Name, r: Ref)
    requires Counted(st) && m in st.schemas && st'.schemas == Counting(st.schemas, m, -1)
    requires IsRef(st, m, r) && forall n, q :: IsRef(st', n, q) <==> IsRef(st, n, q) && !(n == m && q == r)
    ensures Counted(st')
  {
    hide IsRef, Refs;
    RefGained(st', st, m, r);
    forall n | n in st.schemas && n != m ensures Refs(st', n) == Refs(st, n) {
      RefsSame(st, st', n);
    }
  }

  ghost function TakenBy(st: State, s: Sid, f: File): State
    requires s in st.sessions && f.m in st.schemas
  {
    var x := st.sessions[s];
    State(Counting(st.schemas, f.m, 1), if f.ds == Candidate then st.locking else st.locking + {f}, st.dsLock,
          st.sessions[s := x.(locked := x.locked + [f])], st.prev)
  }

  /** What taking a lock changes, seen by holders and references. */
  lemma Taken(st: State, s: Sid, f: File)
    requires s in st.sessions && f.m in st.schemas
    ensures var st' := TakenBy(st, s, f);
      && (forall t, g :: HeldBy(st', t, g) <==> HeldBy(st, t, g) || (t == s && g == f))
      && (forall t, d :: DsHeldBy(st', t, d) <==> DsHeldBy(st, t, d))
      && (forall n, q :: IsRef(st', n, q) <==> IsRef(st, n, q) || (n == f.m && q == LockRef(s, f.ds)))
  {
    var st' := TakenBy(st, s, f);
    forall n, q ensures IsRef(st', n, q) <==> IsRef(st, n, q) || (n == f.m && q == LockRef(s, f.ds)) {
      if q.LockRef? && q.s == s {
        assert File(n, q.ds) == f <==> n == f.m && q.ds == f.ds;
      }
    }
  }

  lemma ExclusiveMore(st: State, st': State, s: Sid, f: File)
    requires Exclusive(st) && !HeldBy(st, s, f) && (f.ds != Candidate ==> f !in st.locking)
    requires st'.locking == if f.ds == Candidate then st.locking else st.locking + {f}
    requires forall t, g :: HeldBy(st', t, g) <==> HeldBy(st, t, g) || (t == s && g == f)
    requires forall t :: t in st'.sessions ==> Distinct(st'.sessions[t].locked)
    ensures Exclusive(st')
  {
    hide HeldBy, Distinct;
    assert HeldBy(st', s, f);
    forall g ensures g in st'.locking <==> g.ds != Candidate && Held(st', g) {
      if t :| HeldBy(st, t, g) { assert HeldBy(st', t, g); }
    }
  }

  lemma ExclusiveLess(st: State, st': State, s: Sid, f: File)
    requires Exclusive(st) && HeldBy(st, s, f)
    requires st'.locking == if f.ds == Candidate then st.locking else st.locking - {f}
    requires forall t, g :: HeldBy(st', t, g) <==> HeldBy(st, t, g) && !(t == s && g == f)
    requires forall t :: t in st'.sessions ==> Distinct(st'.sessions[t].locked)
    ensures Exclusive(st')
  {
    hide HeldBy, Distinct;
    forall g ensures g in st'.locking <==> g.ds != Candidate && Held(st', g) {
      if t :| HeldBy(st, t, g) && g != f { assert HeldBy(st', t, g); }
    }
  }

  lemma DsLockedSame(st: State, st': State)
    requires DsLocked(st) && st'.dsLock == st.dsLock && forall t, d :: DsHeldBy(st', t, d) <==> DsHeldBy(st, t, d)
    ensures DsLocked(st')
  {
    hide DsHeldBy;
    forall d ensures DsHeld(st', d) <==> DsHeld(st, d) {
      if t :| DsHeldBy(st, t, d) { assert DsHeldBy(st', t, d); }
    }
  }

  lemma ExclusiveSame(st: State, st': State)
    requires Exclusive(st) && st'.locking == st.locking && forall t, g :: HeldBy(st', t, g) <==> HeldBy(st, t, g)
    requires forall t :: t in st'.sessions ==> Distinct(st'.sessions[t].locked)
    ensures Exclusive(st')
  {
    hide HeldBy, Distinct;
    forall g ensures Held(st', g) <==> Held(st, g) {
      if t :| HeldBy(st, t, g) { assert HeldBy(st', t, g); }
    }
  }

  lemma TakenDistinct(st: State, s: Sid, f: File)
    requires Exclusive(st) && s in st.sessions && f.m in st.schemas && f !in st.sessions[s].locked
    ensures forall t :: t in TakenBy(st, s, f).sessions ==> Distinct(TakenBy(st, s, f).sessions[t].locked)
  {
  }

  lemma TakeKeeps(st: State, s: Sid, f: File)
    requires Inv(st) && s in st.sessions && f.m in st.schemas && st.schemas[f.m].alive
    requires f !in st.sessions[s].locked && (f.ds != Candidate ==> f !in st.locking)
    ensures Inv(TakenBy(st, s, f))
  {
    hide Counted, Exclusive, DsLocked, IsRef, DsHeldBy, Alive, Distinct;
    var st' := TakenBy(st, s, f);
    TakenDistinct(st, s, f);
    Taken(st, s, f);
    ExclusiveMore(st, st', s, f);
    DsLockedSame(st, st');
    NotRef(st, s, f);
    CountedMore(st, st', f.m, LockRef(s, f.ds));
    AliveMore(st, st', f.m, LockRef(s, f.ds));
  }

  lemma NotRef(st: State, s: Sid, f: File)
    ensures IsRef(st, f.m, LockRef(s, f.ds)) <==> HeldBy(st, s, f)
  {
    assert File(f.m, f.ds) == f;
  }

  lemma AliveMore(st: State, st': State, m: Name, r: Ref)
    requires Alive(st) && SameSchemas(st.schemas, st'.schemas) && m in st.schemas && st.schemas[m].alive
    requires forall n, q :: IsRef(st', n, q) ==> IsRef(st, n, q) || (n == m && q == r)
    ensures Alive(st')
  {
    hide IsRef;
  }

  /** `sr_list_rm_at`. */
  function RemoveAt<T>(l: seq<T>, i: nat): (r: seq<T>)
    requires i < |l|
  {
    l[..i] + l[i + 1..]
  }

  lemma RemovedAt<T>(l: seq<T>, i: nat)
    requires i < |l| && Distinct(l)
    ensures Distinct(RemoveAt(l, i)) && forall x :: x in RemoveAt(l, i) <==> x in l && x != l[i]
  {
    assert l == l[..i] + [l[i]] + l[i + 1..];
  }

  ghost function DroppedBy(st: State, s: Sid, i: nat): State
    requires s in st.sessions && i < |st.sessions[s].locked| && st.sessions[s].locked[i].m in st.schemas
  {
    var x := st.sessions[s];
    var f := x.locked[i];
    State(Counting(st.schemas, f.m, -1), if f.ds == Candidate then st.locking else st.locking - {f}, st.dsLock,
          st.sessions[s := x.(locked := RemoveAt(x.locked, i))], st.prev)
  }

  lemma Dropped(st: State, s: Sid, i: nat)
    requires s in st.sessions && i < |st.sessions[s].locked| && st.sessions[s].locked[i].m in st.schemas && Exclusive(st)
    ensures var st', f := DroppedBy(st, s, i), st.sessions[s].locked[i];
      && (forall t, g :: HeldBy(st', t, g) <==> HeldBy(st, t, g) && !(t == s && g == f))
      && (forall t, d :: DsHeldBy(st', t, d) <==> DsHeldBy(st, t, d))
      && (forall n, q :: IsRef(st', n, q) <==> IsRef(st, n, q) && !(n == f.m && q == LockRef(s, f.ds)))
      && (forall t :: t in st'.sessions ==> Distinct(st'.sessions[t].locked))
  {
    hide RemoveAt;
    var st', f := DroppedBy(st, s, i), st.sessions[s].locked[i];
    RemovedAt(st.sessions[s].locked, i);
    forall n, q ensures IsRef(st', n, q) <==> IsRef(st, n, q) && !(n == f.m && q == LockRef(s, f.ds)) {
      if q.LockRef? && q.s == s {
        assert File(n, q.ds) == f <==> n == f.m && q.ds == f.ds;
      }
    }
  }

  lemma DropKeeps(st: State, s: Sid, i: nat)
    requires Inv(st) && s in st.sessions && i < |st.sessions[s].locked|
    requires st.sessions[s].locked[i].m in st.schemas && st.schemas[st.sessions[s].locked[i].m].alive
    ensures Inv(DroppedBy(st, s, i))
  {
    hide Counted, DsLocked, IsRef, DsHeldBy, Alive, Distinct;
    var st', f := DroppedBy(st, s, i), st.sessions[s].locked[i];
    assert f in st.sessions[s].locked;
    NotRef(st, s, f);
    Dropped(st, s, i);
    AliveMore(st, st', f.m, LockRef(s, f.ds));
    ExclusiveLess(st, st', s, f);
    DsLockedSame(st, st');
    CountedLess(st, st', f.m, LockRef(s, f.ds));
  }

  /** The schema behind a held lock is there: the lookup by lock file finds its module. */
  lemma HeldIsAlive(st: State, s: Sid, f: File)
    requires Steady(st) && HeldBy(st, s, f)
    ensures f.m in st.schemas && st.schemas[f.m].alive
    ensures Counted(st) ==> st.schemas[f.m].usage > 0
  {
    assert IsRef(st, f.m, LockRef(s, f.ds));
    RefsAre(st, f.m);
    assert LockRef(s, f.ds) in Refs(st, f.m);
  }

  // ---------------------------------------------------------------- other steps

  /** Nothing changes about who holds what. */
  ghost predicate SameHolders(st: State, st': State) {
    && st'.locking == st.locking && st'.dsLock == st.dsLock
    && (forall t, g :: HeldBy(st', t, g) <==> HeldBy(st, t, g))
    && (forall t, d :: DsHeldBy(st', t, d) <==> DsHeldBy(st, t, d))
    && (forall t :: t in st'.sessions ==> Distinct(st'.sessions[t].locked))
  }

  lemma NoRefChange(st: State, st': State)
    requires Inv(st) && SameHolders(st, st') && st'.schemas == st.schemas
    requires forall n, q :: IsRef(st', n, q) <==> IsRef(st, n, q)
    ensures Inv(st')
  {
    hide Exclusive, DsLocked, IsRef, DsHeldBy, HeldBy, Distinct, Refs;
    ExclusiveSame(st, st');
    DsLockedSame(st, st');
    forall n | n in st.schemas ensures Refs(st', n) == Refs(st, n) {
      RefsSame(st, st', n);
    }
  }

  lemma OneRefMore(st: State, st': State, m: Name, r: Ref)
    requires Inv(st) && SameHolders(st, st') && m in st.schemas && st.schemas[m].alive && st'.schemas == Counting(st.schemas, m, 1)
    requires !IsRef(st, m, r) && forall n, q :: IsRef(st', n, q) <==> IsRef(st, n, q) || (n == m && q == r)
    ensures Inv(st')
  {
    hide Exclusive, DsLocked, IsRef, DsHeldBy, HeldBy, Distinct, Counted, Alive;
    ExclusiveSame(st, st');
    DsLockedSame(st, st');
    CountedMore(st, st', m, r);
    AliveMore(st, st', m, r);
  }

  /** The session changes in its datastore or its copies only. */
  ghost predicate KeepsLocks(st: State, s: Sid, x: Session) {
    s in st.sessions && x.locked == st.sessions[s].locked && x.holds == st.sessions[s].holds
  }

  lemma KeptLocks(st: State, s: Sid, x: Session, schemas: map<Name, Schema>)
    requires Steady(st) && KeepsLocks(st, s, x)
    ensures SameHolders(st, st.(sessions := st.sessions[s := x], schemas := schemas))
  {
    hide Alive, DsLocked, Distinct;
  }

  lemma SwitchKeeps(st: State, s: Sid, d: Ds)
    requires Inv(st) && s in st.sessions
    ensures Inv(st.(sessions := st.sessions[s := st.sessions[s].(ds := d)]))
  {
    hide Counted, Steady, SameHolders;
    var st' := st.(sessions := st.sessions[s := st.sessions[s].(ds := d)]);
    KeptLocks(st, s, st.sessions[s].(ds := d), st.schemas);
    NoRefChange(st, st');
  }

  ghost function WithCopy(st: State, s: Sid, f: File, rdonly: bool): State
    requires s in st.sessions && f.m in st.schemas
  {
    var x := st.sessions[s];
    st.(schemas := if rdonly then st.schemas else Counting(st.schemas, f.m, 1),
        sessions := st.sessions[s := x.(copies := x.copies[f := rdonly])])
  }

  lemma CopyRefs(st: State, s: Sid, f: File, rdonly: bool)
    requires s in st.sessions && f.m in st.schemas && f !in st.sessions[s].copies
    ensures forall n, q :: IsRef(WithCopy(st, s, f, rdonly), n, q) <==> IsRef(st, n, q) || (!rdonly && n == f.m && q == CopyRef(s, f.ds))
    ensures !IsRef(st, f.m, CopyRef(s, f.ds))
  {
    assert File(f.m, f.ds) == f;
    forall n, q ensures IsRef(WithCopy(st, s, f, rdonly), n, q) <==> IsRef(st, n, q) || (!rdonly && n == f.m && q == CopyRef(s, f.ds)) {
      if q.CopyRef? && q.s == s {
        assert File(n, q.ds) == f <==> n == f.m && q.ds == f.ds;
      }
    }
  }

  lemma WithCopyKeeps(st: State, s: Sid, f: File, rdonly: bool)
    requires Inv(st) && s in st.sessions && f.m in st.schemas && st.schemas[f.m].alive && f !in st.sessions[s].copies
    ensures Inv(WithCopy(st, s, f, rdonly))
  {
    hide Counted, Steady, SameHolders, IsRef;
    var st', x := WithCopy(st, s, f, rdonly), st.sessions[s];
    KeptLocks(st, s, x.(copies := x.copies[f := rdonly]), st'.schemas);
    CopyRefs(st, s, f, rdonly);
    if rdonly {
      NoRefChange(st, st');
    } else {
      OneRefMore(st, st', f.m, CopyRef(s, f.ds));
    }
  }

  ghost function WithoutCopy(st: State, s: Sid, f: File): State
    requires s in st.sessions && f in st.sessions[s].copies && (!st.sessions[s].copies[f] ==> f.m in st.schemas)
  {
    var x := st.sessions[s];
    st.(schemas := if x.copies[f] then st.schemas else Counting(st.schemas, f.m, -1),
        sessions := st.sessions[s := x.(copies := x.copies - {f})])
  }

  lemma WithoutCopyRefs(st: State, s: Sid, f: File)
    requires s in st.sessions && f in st.sessions[s].copies && (!st.sessions[s].copies[f] ==> f.m in st.schemas)
    ensures forall n, q :: IsRef(WithoutCopy(st, s, f), n, q) <==> IsRef(st, n, q) && !(n == f.m && q == CopyRef(s, f.ds))
    ensures IsRef(st, f.m, CopyRef(s, f.ds)) <==> !st.sessions[s].copies[f]
  {
    assert File(f.m, f.ds) == f;
    forall n, q ensures IsRef(WithoutCopy(st, s, f), n, q) <==> IsRef(st, n, q) && !(n == f.m && q == CopyRef(s, f.ds)) {
      if q.CopyRef? && q.s == s {
        assert File(n, q.ds) == f <==> n == f.m && q.ds == f.ds;
      }
    }
  }

  /** The schema of a copy that owns its data is there. */
  lemma OwnedIsAlive(st: State, s: Sid, f: File)
    requires Steady(st) && s in st.sessions && f in st.sessions[s].copies && !st.sessions[s].copies[f]
    ensures f.m in st.schemas && st.schemas[f.m].alive
  {
    assert File(f.m, f.ds) == f;
    assert IsRef(st, f.m, CopyRef(s, f.ds));
  }

  lemma PrevKeeps(st: State, c: Sid, m: Name)
    requires Inv(st) && c in st.prev && m !in st.prev[c] && m in st.schemas && st.schemas[m].alive
    ensures Inv(st.(schemas := Counting(st.schemas, m, 1), prev := st.prev[c := st.prev[c] + {m}]))
  {
    hide Counted, DsLocked, Refs, Alive, Distinct;
    OneRefMore(st, st.(schemas := Counting(st.schemas, m, 1), prev := st.prev[c := st.prev[c] + {m}]), m, PrevRef(c));
  }

  lemma NewSessionKeeps(st: State, s: Sid, d: Ds)
    requires Inv(st) && s !in st.sessions
    ensures Inv(st.(sessions := st.sessions[s := Session(d, [], {}, map[])]))
  {
    hide Counted, DsLocked, Refs, Alive;
    NoRefChange(st, st.(sessions := st.sessions[s := Session(d, [], {}, map[])]));
  }

  lemma NewCommitKeeps(st: State, c: Sid)
    requires Inv(st) && c !in st.prev
    ensures Inv(st.(prev := st.prev[c := {}]))
  {
    hide Counted, DsLocked, Refs, Alive, Distinct;
    NoRefChange(st, st.(prev := st.prev[c := {}]));
  }

  // ---------------------------------------------------------------- datastore locks

  lemma DsLockedMore(st: State, st': State, s: Sid, d: Ds)
    requires DsLocked(st) && d !in st.dsLock
    requires st'.dsLock == if d == Candidate then st.dsLock else st.dsLock + {d}
    requires forall t, e :: DsHeldBy(st', t, e) <==> DsHeldBy(st, t, e) || (t == s && e == d)
    ensures DsLocked(st')
  {
    hide DsHeldBy;
    assert DsHeldBy(st', s, d);
    forall e ensures e in st'.dsLock <==> e != Candidate && DsHeld(st', e) {
      if t :| DsHeldBy(st, t, e) { assert DsHeldBy(st', t, e); }
    }
  }

  lemma DsLockedLess(st: State, st': State, s: Sid, d: Ds)
    requires DsLocked(st) && DsHeldBy(st, s, d) && st'.dsLock == st.dsLock - {d}
    requires forall t, e :: DsHeldBy(st', t, e) <==> DsHeldBy(st, t, e) && !(t == s && e == d)
    ensures DsLocked(st')
  {
    hide DsHeldBy;
    forall e ensures e in st'.dsLock <==> e != Candidate && DsHeld(st', e) {
      if t :| DsHeldBy(st, t, e) && e != d { assert DsHeldBy(st', t, e); }
    }
  }

  ghost function Holding(st: State, s: Sid, d: Ds): State
    requires s in st.sessions
  {
    var x := st.sessions[s];
    st.(dsLock := if d == Candidate then st.dsLock else st.dsLock + {d}, sessions := st.sessions[s := x.(holds := x.holds + {d})])
  }

  lemma HoldKeeps(st: State, s: Sid, d: Ds)
    requires Inv(st) && s in st.sessions && d !in st.dsLock
    ensures Inv(Holding(st, s, d))
  {
    hide Counted, Refs, Alive, Exclusive, DsLocked;
    var x, st' := st.sessions[s], Holding(st, s, d);
    HoldersAfter(st, st', s, x.(holds := x.holds + {d}));
    DsLockedMore(st, st', s, d);
  }

  ghost function Unholding(st: State, s: Sid, d: Ds): State
    requires s in st.sessions
  {
    var x := st.sessions[s];
    st.(dsLock := st.dsLock - {d}, sessions := st.sessions[s := x.(holds := x.holds - {d})])
  }

  lemma UnholdKeeps(st: State, s: Sid, d: Ds)
    requires Inv(st) && s in st.sessions && d in st.sessions[s].holds
    ensures Inv(Unholding(st, s, d))
  {
    hide Counted, Refs, Alive, Exclusive, DsLocked;
    var x, st' := st.sessions[s], Unholding(st, s, d);
    HoldersAfter(st, st', s, x.(holds := x.holds - {d}));
    DsLockedLess(st, st', s, d);
  }

  /** A session that changes its datastore locks only: locks and references stay. */
  lemma HoldersAfter(st: State, st': State, s: Sid, x: Session)
    requires Inv(st) && s in st.sessions && st'.sessions == st.sessions[s := x] && st'.schemas == st.schemas
    requires st'.prev == st.prev && st'.locking == st.locking
    requires x.locked == st.sessions[s].locked && x.copies == st.sessions[s].copies
    ensures Counted(st') && Alive(st') && Exclusive(st')
  {
    hide Refs, DsLocked, Distinct;
    forall n, q ensures IsRef(st', n, q) <==> IsRef(st, n, q) {
    }
    forall n | n in st.schemas ensures Refs(st', n) == Refs(st, n) {
      RefsSame(st, st', n);
    }
    ExclusiveSame(st, st');
    AliveSame(st, st');
  }

  lemma AliveSame(st: State, st': State)
    requires Alive(st) && st'.schemas == st.schemas && forall n, q :: IsRef(st', n, q) <==> IsRef(st, n, q)
    ensures Alive(st')
  {
    hide IsRef;
  }

  // ---------------------------------------------------------------- schemas come and go

  lemma UnusedHasNoRefs(st: State, m: Name, r: Ref)
    requires Counted(st) && m in st.schemas && st.schemas[m].usage == 0
    ensures !IsRef(st, m, r)
  {
    RefsAre(st, m);
    assert Refs(st, m) == {};
  }

  /** Replacing a schema that nothing refers to. */
  lemma SchemaKeeps(st: State, m: Name, schema: Schema)
    requires Inv(st) && schema.usage == 0 && (m in st.schemas ==> st.schemas[m].usage == 0)
    ensures Inv(st.(schemas := st.schemas[m := schema]))
  {
    hide DsLocked, DsHeldBy, HeldBy, Distinct, Refs, Exclusive, IsRef;
    var st' := st.(schemas := st.schemas[m := schema]);
    forall r ensures !IsRef(st, m, r) {
      if m in st.schemas { UnusedHasNoRefs(st, m, r); }
    }
    SchemasOnly(st, st');
    RefsAre(st, m);
    assert Refs(st, m) == {};
  }

  /** A schema that was not there is loaded. */
  lemma SchemaLoaded(st: State, m: Name, schema: Schema)
    requires Steady(st) && schema.usage == 0 && schema.alive && m !in st.schemas
    ensures var st' := st.(schemas := st.schemas[m := schema]); Steady(st') && (Counted(st) <==> Counted(st'))
  {
    hide DsLocked, DsHeldBy, HeldBy, Distinct, Refs, Exclusive, IsRef;
    var st' := st.(schemas := st.schemas[m := schema]);
    SchemasOnly(st, st');
    RefsAre(st, m);
    assert Refs(st, m) == {};
    if Counted(st') {
      forall n | n in st.schemas ensures st.schemas[n].usage == |Refs(st, n)| {
        assert st'.schemas[n].usage == |Refs(st', n)|;
      }
    }
  }

  lemma SchemasOnly(st: State, st': State)
    requires st' == st.(schemas := st'.schemas)
    ensures forall n :: Refs(st', n) == Refs(st, n)
    ensures forall n, r :: IsRef(st', n, r) <==> IsRef(st, n, r)
    ensures Exclusive(st) ==> Exclusive(st')
    ensures DsLocked(st) ==> DsLocked(st')
  {
    hide Refs, Distinct;
    forall n ensures Refs(st', n) == Refs(st, n) {
      RefsSame(st, st', n);
    }
    if Exclusive(st) { ExclusiveSame(st, st'); }
    if DsLocked(st) { DsLockedSame(st, st'); }
  }

  /** Schemas may be loaded on the way; those there before keep everything but their count. */
  ghost predicate Grown(a: map<Name, Schema>, b: map<Name, Schema>) {
    && a.Keys <= b.Keys
    && (forall m :: m in a ==> a[m].alive == b[m].alive && a[m].lockable == b[m].lockable)
    && (forall m :: m in b && m !in a ==> b[m].alive)
  }

  /** Locks, flags, copies and counts are the same; schemas may have been loaded, unused. */
  ghost predicate Unchanged(a: State, b: State) {
    && b == a.(schemas := b.schemas) && a.schemas.Keys <= b.schemas.Keys
    && (forall m :: m in a.schemas ==> b.schemas[m] == a.schemas[m])
    && (forall m :: m in b.schemas && m !in a.schemas ==> b.schemas[m].usage == 0)
  }

  /** Locking set, datastore locks and counts follow from the sessions. */
  lemma Restored(a: State, b: State)
    requires Inv(a) && Inv(b) && a.sessions == b.sessions && a.prev == b.prev && Grown(a.schemas, b.schemas)
    ensures Unchanged(a, b)
  {
    hide Exclusive, DsLocked, Refs, IsRef;
    LocksDetermined(a, b);
    DsLocksDetermined(a, b);
    forall m ensures Refs(a, m) == Refs(b, m) && (m !in a.schemas ==> Refs(a, m) == {}) {
      SameRefs(a, b, m);
      RefsSame(a, b, m);
      RefsAre(a, m);
    }
  }

  lemma SameRefs(a: State, b: State, m: Name)
    requires a.sessions == b.sessions && a.prev == b.prev
    ensures forall q :: IsRef(a, m, q) <==> IsRef(b, m, q)
  {
  }

  // ---------------------------------------------------------------- steps that only give up

  /** References only go, schemas may come: all but the counts is kept. */
  lemma SteadyLess(st: State, st': State)
    requires Steady(st) && SameHolders(st, st') && Grown(st.schemas, st'.schemas)
    requires forall n, q :: IsRef(st', n, q) ==> IsRef(st, n, q)
    ensures Steady(st')
  {
    hide Exclusive, DsLocked, IsRef, DsHeldBy, HeldBy, Distinct;
    ExclusiveSame(st, st');
    DsLockedSame(st, st');
  }

  /** Counts are right before exactly when they are after: one reference less is counted less. */
  lemma CountedBoth(st: State, st': State, m: Name, r: Ref)
    requires m in st.schemas && st'.schemas == Counting(st.schemas, m, -1)
    requires IsRef(st, m, r) && forall n, q :: IsRef(st', n, q) <==> IsRef(st, n, q) && !(n == m && q == r)
    ensures Counted(st) <==> Counted(st')
  {
    hide IsRef, Refs;
    if Counted(st) { CountedLess(st, st', m, r); }
    if Counted(st') {
      assert st.schemas == Counting(st'.schemas, m, 1);
      CountedMore(st', st, m, r);
    }
  }

  lemma CountedSame(st: State, st': State)
    requires st'.schemas == st.schemas && forall n, q :: IsRef(st', n, q) <==> IsRef(st, n, q)
    ensures Counted(st) <==> Counted(st')
  {
    hide IsRef, Refs;
    forall n ensures Refs(st', n) == Refs(st, n) {
      RefsSame(st, st', n);
    }
  }

  lemma CopyGone(st: State, s: Sid, f: File)
    requires Steady(st) && s in st.sessions && f in st.sessions[s].copies
    requires !st.sessions[s].copies[f] ==> f.m in st.schemas && st.schemas[f.m].alive
    ensures Steady(WithoutCopy(st, s, f)) && (Counted(st) <==> Counted(WithoutCopy(st, s, f)))
  {
    hide Steady, Counted, SameHolders, IsRef;
    var st', x := WithoutCopy(st, s, f), st.sessions[s];
    KeptLocks(st, s, x.(copies := x.copies - {f}), st'.schemas);
    WithoutCopyRefs(st, s, f);
    SteadyLess(st, st');
    if x.copies[f] {
      CountedSame(st, st');
    } else {
      CountedBoth(st, st', f.m, CopyRef(s, f.ds));
    }
  }

  lemma PrevGone(st: State, c: Sid, m: Name)
    requires Steady(st) && c in st.prev && m in st.prev[c]
    ensures m in st.schemas && st.schemas[m].alive
    ensures var st' := st.(schemas := Counting(st.schemas, m, -1), prev := st.prev[c := st.prev[c] - {m}]);
            Steady(st') && (Counted(st) <==> Counted(st'))
  {
    hide Counted, DsLocked, Refs, Distinct;
    assert IsRef(st, m, PrevRef(c));
    var st' := st.(schemas := Counting(st.schemas, m, -1), prev := st.prev[c := st.prev[c] - {m}]);
    SteadyLess(st, st');
    CountedBoth(st, st', m, PrevRef(c));
  }

  lemma SessionGone(st: State, s: Sid)
    requires Steady(st) && s in st.sessions
    requires st.sessions[s].locked == [] && st.sessions[s].holds == {} && st.sessions[s].copies == map[]
    ensures var st' := st.(sessions := st.sessions - {s}); Steady(st') && (Counted(st) <==> Counted(st'))
  {
    hide Counted, DsLocked, Refs, Alive, Distinct;
    var st' := st.(sessions := st.sessions - {s});
    SteadyLess(st, st');
    CountedSame(st, st');
  }

  lemma CommitGone(st: State, c: Sid)
    requires Steady(st) && c in st.prev && st.prev[c] == {}
    ensures var st' := st.(prev := st.prev - {c}); Steady(st') && (Counted(st) <==> Counted(st'))
  {
    hide Counted, DsLocked, Refs, Alive, Distinct;
    var st' := st.(prev := st.prev - {c});
    SteadyLess(st, st');
    CountedSame(st, st');
  }

  lemma DsLockGone(st: State, s: Sid, d: Ds)
    requires Steady(st) && s in st.sessions && d in st.sessions[s].holds
    ensures Steady(Unholding(st, s, d)) && (Counted(st) <==> Counted(Unholding(st, s, d)))
  {
    hide Counted, Refs, Distinct, DsLocked;
    var st' := Unholding(st, s, d);
    DsLockedLess(st, st', s, d);
    ExclusiveSame(st, st');
    CountedSame(st, st');
    AliveSame(st, st');
  }

  // ---------------------------------------------------------------- locks given up by file name

  /** The first lock of s goes; `schemas` are what is left of the schemas. */
  ghost function FirstDropped(st: State, s: Sid, schemas: map<Name, Schema>): State
    requires s in st.sessions && st.sessions[s].locked != []
  {
    var x, f := st.sessions[s], st.sessions[s].locked[0];
    State(schemas, if f.ds == Candidate then st.locking else st.locking - {f}, st.dsLock,
          st.sessions[s := x.(locked := x.locked[1..])], st.prev)
  }

  lemma FirstDroppedRefs(st: State, s: Sid, schemas: map<Name, Schema>)
    requires s in st.sessions && st.sessions[s].locked != [] && Exclusive(st)
    ensures var st', f := FirstDropped(st, s, schemas), st.sessions[s].locked[0];
      && HeldBy(st, s, f) && IsRef(st, f.m, LockRef(s, f.ds))
      && (forall t, g :: HeldBy(st', t, g) <==> HeldBy(st, t, g) && !(t == s && g == f))
      && (forall t, d :: DsHeldBy(st', t, d) <==> DsHeldBy(st, t, d))
      && (forall n, q :: IsRef(st', n, q) <==> IsRef(st, n, q) && !(n == f.m && q == LockRef(s, f.ds)))
      && (forall t :: t in st'.sessions ==> Distinct(st'.sessions[t].locked))
  {
    var st', f, l := FirstDropped(st, s, schemas), st.sessions[s].locked[0], st.sessions[s].locked;
    RemovedAt(l, 0);
    assert RemoveAt(l, 0) == l[1..];
    assert File(f.m, f.ds) == f;
    hide RemoveAt;
    forall n, q ensures IsRef(st', n, q) <==> IsRef(st, n, q) && !(n == f.m && q == LockRef(s, f.ds)) {
      if q.LockRef? && q.s == s {
        assert File(n, q.ds) == f <==> n == f.m && q.ds == f.ds;
      }
    }
  }

  lemma FirstDropSteady(st: State, s: Sid, schemas: map<Name, Schema>)
    requires Steady(st) && s in st.sessions && st.sessions[s].locked != [] && Grown(st.schemas, schemas)
    ensures Steady(FirstDropped(st, s, schemas))
  {
    hide DsLocked, IsRef, DsHeldBy, HeldBy, Distinct;
    var st', f := FirstDropped(st, s, schemas), st.sessions[s].locked[0];
    FirstDroppedRefs(st, s, schemas);
    assert Alive(st') by { hide Exclusive; }
    ExclusiveLess(st, st', s, f);
    DsLockedSame(st, st');
  }

  /** By how much the count of a module is too high. */
  ghost function Gap(st: State, k: Name): int
    requires k in st.schemas
  {
    st.schemas[k].usage - |Refs(st, k)|
  }

  /** The lock of f.m goes; the count of `taken` does. */
  lemma GapStep(st: State, s: Sid, schemas: map<Name, Schema>, k: Name, taken: Option<Name>)
    requires s in st.sessions && st.sessions[s].locked != [] && Exclusive(st) && k in st.schemas && k in schemas
    requires schemas[k].usage == st.schemas[k].usage - (if taken == Some(k) then 1 else 0)
    ensures var st', f := FirstDropped(st, s, schemas), st.sessions[s].locked[0];
            Gap(st', k) == Gap(st, k) + (if f.m == k then 1 else 0) - (if taken == Some(k) then 1 else 0)
  {
    hide IsRef, Refs, DsHeldBy, HeldBy, Distinct, Exclusive;
    var st', f := FirstDropped(st, s, schemas), st.sessions[s].locked[0];
    FirstDroppedRefs(st, s, schemas);
    if f.m == k {
      RefGained(st', st, k, LockRef(s, f.ds));
    } else {
      RefsSame(st, st', k);
    }
  }

  lemma GapMeansCounted(st: State)
    ensures Counted(st) <==> forall k :: k in st.schemas ==> Gap(st, k) == 0
  {
    hide Refs;
  }
}
