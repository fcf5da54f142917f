/** Sessions, module and datastore locks, reference counts, and the lock phase of a commit
    (src/data_manager.c).  Every step runs under the locks the source takes. */
module DataManager {
  import opened DepGraph
  import opened LockFiles
  import opened LockState

  datatype Rc = Ok | Locked | Unauthorized | UnknownModel | InvalArg | OperationFailed | Internal

  /** What opening and locking a lock file gives: it may be forbidden, fail for another reason, or be
      locked by another process (src/common/sr_data_structs.c:727-751). */
  datatype Access = Granted | Refused | Broken | Busy

  /** What the world outside answers: lock files, and schemas that can be loaded, with whether they
      have data to lock. */
  datatype World = World(access: File -> Access, loads: Name -> Option<bool>)

  /** Where the file is in the list, its length if it is not. */
  method IndexOf(l: seq<File>, f: File) returns (i: nat)
    ensures i <= |l| && (i < |l| ==> l[i] == f) && (i == |l| <==> f !in l)
  {
    i := 0;
    while i < |l| && l[i] != f
      invariant i <= |l| && f !in l[..i]
    {
      i := i + 1;
    }
    assert l == l[..i] + l[i..];
  }

  class DmContext {
    const dir: string
    var schemas: map<Name, Schema>
    var locking: set<File>
    var dsLock: set<Ds>
    var sessions: map<Sid, Session>
    var prev: map<Sid, set<Name>>

    constructor (dir: string)
      ensures Valid() && schemas == map[] && sessions == map[] && prev == map[] && this.dir == dir
    {
      this.dir := dir;
      schemas, locking, dsLock, sessions, prev := map[], {}, {}, map[], map[];
    }

    ghost function St(): State
      reads this
    {
      State(schemas, locking, dsLock, sessions, prev)
    }

    ghost predicate Valid()
      reads this
    {
      Inv(St())
    }

    /** `dm_get_module_internal`: the schema, loaded if it is not there (3072-3129). */
    method Find(m: Name, w: World) returns (ok: bool)
      requires Steady(St())
      modifies `schemas
      ensures Steady(St()) && Grown(old(schemas), schemas) && (Counted(St()) <==> old(Counted(St())))
      ensures ok <==> !Unknown(old(schemas), m, w)
      ensures ok <==> m in schemas && schemas[m].alive
      ensures schemas == if m !in old(schemas) && w.loads(m).Some? then old(schemas)[m := Schema(0, true, w.loads(m).value)] else old(schemas)
    {
      hide Steady, Counted;
      if m in schemas {
        ok := schemas[m].alive;
      } else {
        var lockable := w.loads(m);
        ok := lockable.Some?;
        if ok {
          SchemaLoaded(St(), m, Schema(0, true, lockable.value));
          schemas := schemas[m := Schema(0, true, lockable.value)];
        }
      }
    }

    /** `dm_lock_module` (1621-1675).  The lock is refused exactly when another session or another
        process has it; a session may lock twice. */
    method LockModule(s: Sid, m: Name, w: World) returns (rc: Rc)
      requires Valid() && s in sessions
      modifies `schemas, `locking, `sessions
      ensures Valid() && Grown(old(schemas), schemas)
      ensures rc.UnknownModel? <==> Unknown(old(schemas), m, w)
      ensures rc.UnknownModel? <==> !(m in schemas && schemas[m].alive)
      ensures LoadedFrom(old(schemas), schemas, w) && (CanLock(schemas, m) <==> MayLock(old(schemas), m, w))
      ensures !rc.InvalArg? && !rc.OperationFailed?
      ensures var f := File(m, old(sessions)[s].ds);
        && (rc.Locked? <==> CanLock(schemas, m) && f.ds != Candidate && !HeldBy(old(St()), s, f) && (Held(old(St()), f) || w.access(f).Busy?))
        && (rc.Unauthorized? <==> AsksFor(old(St()), schemas, f) && w.access(f).Refused?)
        && (rc.Internal? <==> AsksFor(old(St()), schemas, f) && w.access(f).Broken?)
        && sessions == if rc.Ok? && CanLock(schemas, m) && !HeldBy(old(St()), s, f) then Extended(old(sessions), s, f) else old(sessions)
    {
      hide Steady, Counted, Grown;
      var ok := Find(m, w);
      if !ok {
        return UnknownModel;
      }
      if !schemas[m].lockable {
        return Ok;
      }
      var f := File(m, sessions[s].ds);
      var i := IndexOf(sessions[s].locked, f);
      HolderKnown(old(St()), St(), s, f);
      if i < |sessions[s].locked| {
        return Ok;
      }
      if f.ds != Candidate {
        if f in locking || w.access(f).Busy? {
          return Locked;
        }
        if w.access(f).Refused? {
          return Unauthorized;
        }
        if w.access(f).Broken? {
          return Internal;
        }
      }
      TakeKeeps(St(), s, f);
      GrownCounting(old(schemas), schemas, m, 1);
      if f.ds != Candidate {
        locking := locking + {f};
      }
      sessions := sessions[s := sessions[s].(locked := sessions[s].locked + [f])];
      schemas := schemas[m := schemas[m].(usage := schemas[m].usage + 1)];
      rc := Ok;
    }

    /** `dm_unlock_module` (1677-1721); `at` is where the lock was in the list. */
    method UnlockModule(s: Sid, m: Name, w: World) returns (rc: Rc, ghost at: nat)
      requires Valid() && s in sessions
      modifies `schemas, `locking, `sessions
      ensures Valid() && Grown(old(schemas), schemas)
      ensures var f := File(m, old(sessions)[s].ds);
        && (rc.Ok? <==> HeldBy(old(St()), s, f))
        && (rc.Ok? ==> at < |old(sessions)[s].locked| && old(sessions)[s].locked[at] == f && sessions == Shortened(old(sessions), s, at))
        && (!rc.Ok? ==> sessions == old(sessions) && rc == if Unknown(old(schemas), m, w) then UnknownModel else InvalArg)
    {
      hide Steady, Counted, Grown, RemoveAt;
      at := 0;
      var f := File(m, sessions[s].ds);
      var ok := Find(m, w);
      if !ok {
        if HeldBy(old(St()), s, f) { HeldIsAlive(St(), s, f); }
        return UnknownModel, 0;
      }
      var i := IndexOf(sessions[s].locked, f);
      if i == |sessions[s].locked| {
        return InvalArg, 0;
      }
      at := i;
      DropKeeps(St(), s, i);
      GrownCounting(old(schemas), schemas, m, -1);
      if f.ds != Candidate {
        locking := locking - {f};
      }
      sessions := sessions[s := sessions[s].(locked := RemoveAt(sessions[s].locked, i))];
      schemas := schemas[m := schemas[m].(usage := schemas[m].usage - 1)];
      rc := Ok;
    }

    /** The loop of `dm_lock_datastore` over the schemas (1751-1778): it stops at the first lock that
        fails other than for lack of authorization; that is reported when it was the last one asked
        for. */
    method LockListed(s: Sid, list: seq<(Name, bool)>, w: World) returns (rc: Rc, locked: seq<Name>, ghost stop: nat)
      requires Valid() && s in sessions
      modifies `schemas, `locking, `sessions
      ensures Valid() && Grown(old(schemas), schemas) && OnlyLocks(old(sessions), sessions, s)
      ensures stop <= |list| && (stop == |list| <==> rc.Ok? || rc.Unauthorized?) && (stop < |list| ==> list[stop].1)
      ensures Pending(sessions[s].locked, old(sessions)[s].locked, locked, sessions[s].ds)
      ensures forall n :: n in locked ==> (n, true) in list[..stop]
      ensures Processed(w, list[..stop], sessions[s].ds, old(sessions)[s].locked, locked, schemas, sessions[s].locked)
      ensures stop < |list| ==> FailedAt(old(St()), s, File(list[stop].0, sessions[s].ds), w, rc)
      ensures stop == |list| ==> (rc.Unauthorized? <==> LastRefused(old(St()), schemas, list, sessions[s].ds, w))
    {
      hide Inv, Grown, Processed, Pending, FailedAt, LastRefused, AllGranted;
      ghost var ds, base := sessions[s].ds, sessions[s].locked;
      rc, locked, stop := Ok, [], 0;
      GrownSelf(schemas);
      PendingNone(base, ds);
      ProcessedNone(w, ds, base, schemas);
      GrantedNone(w, base);
      NobodyRefused(St(), schemas, ds, w);
      assert list[..0] == [];
      var i := 0;
      while i < |list|
        invariant 0 <= i <= |list| && stop == i && (rc.Ok? || rc.Unauthorized?)
        invariant Valid() && Grown(old(schemas), schemas) && OnlyLocks(old(sessions), sessions, s)
        invariant Pending(sessions[s].locked, base, locked, ds)
        invariant forall n :: n in locked ==> (n, true) in list[..i]
        invariant Processed(w, list[..i], ds, base, locked, schemas, sessions[s].locked)
        invariant AllGranted(w, base, sessions[s].locked)
        invariant rc.Unauthorized? <==> LastRefused(old(St()), schemas, list[..i], ds, w)
      {
        assert list[..i + 1] == list[..i] + [list[i]];
        ghost var before, was, now, locked0 := schemas, St(), sessions[s].locked, locked;
        if list[i].1 {
          var n := list[i].0;
          rc := LockModule(s, n, w);
          GrownTwice(old(schemas), before, schemas);
          GrantedMore(w, base, now, File(n, ds), sessions[s].locked);
          AsksAsBefore(old(St()), was, s, schemas, File(n, ds), w);
          LastRefusedNext(old(St()), schemas, list[..i], n, ds, w);
          PendingMore(now, base, locked, n, ds, sessions[s].locked);
          if rc.Ok? {
            locked := locked + [n];
          } else if !rc.Unauthorized? {
            ProcessedStill(w, list[..i], ds, base, locked, before, now, schemas, sessions[s].locked);
            if rc.Locked? { TakenBefore(old(St()), was, s, File(n, ds), w); }
            if rc.UnknownModel? { UnknownBefore(old(schemas), before, n, w); }
            FailedHow(old(St()), s, File(n, ds), w, rc);
            return;
          } else {
            NotHeldThen(was, s, File(n, ds), base, locked);
          }
        } else {
          LastRefusedSkip(old(St()), schemas, list[..i], list[i], ds, w);
        }
        ProcessedNext(w, list, i, ds, base, locked0, before, now, locked, schemas, sessions[s].locked);
        i := i + 1;
        stop := i;
      }
      assert list[..i] == list;
    }

    /** What a failed `dm_lock_datastore` undoes: the modules it locked, or found locked
        (1764-1766). */
    method Rollback(s: Sid, names: seq<Name>, w: World, ghost base: seq<File>)
      requires Valid() && s in sessions && Pending(sessions[s].locked, base, names, sessions[s].ds)
      modifies `schemas, `locking, `sessions
      ensures Valid() && Grown(old(schemas), schemas) && OnlyLocks(old(sessions), sessions, s)
      ensures forall n :: n in names ==> File(n, sessions[s].ds) !in sessions[s].locked
      ensures (forall n :: n in names ==> File(n, sessions[s].ds) !in base) ==> sessions[s].locked == base
    {
      hide Inv, Grown, Pending, RemoveAt;
      ghost var ds := sessions[s].ds;
      ghost var clean := forall n :: n in names ==> File(n, ds) !in base;
      GrownSelf(schemas);
      var k := 0;
      assert names[k..] == names;
      while k < |names|
        invariant 0 <= k <= |names|
        invariant Valid() && Grown(old(schemas), schemas) && OnlyLocks(old(sessions), sessions, s)
        invariant forall j :: 0 <= j < k ==> File(names[j], ds) !in sessions[s].locked
        invariant clean ==> Pending(sessions[s].locked, base, names[k..], ds)
      {
        ghost var before, now := schemas, sessions[s].locked;
        DistinctLocks(St(), s);
        ghost var at;
        var rc;
        rc, at := UnlockModule(s, names[k], w);
        GrownTwice(old(schemas), before, schemas);
        if rc.Ok? { RemovedAt(now, at); }
        if clean {
          assert names[k] in names;
          PendingNext(now, base, names, k, ds, at, sessions[s].locked);
        }
        k := k + 1;
      }
      if clean { PendingDone(sessions[s].locked, base, names, k, ds); }
    }

    /** A failed `dm_lock_datastore` gives up the datastore as well (1764-1771). */
    method GiveUp(s: Sid, names: seq<Name>, w: World, ghost base: seq<File>)
      requires Valid() && s in sessions && Pending(sessions[s].locked, base, names, sessions[s].ds) && sessions[s].ds in sessions[s].holds
      modifies `schemas, `locking, `sessions, `dsLock
      ensures Valid() && Grown(old(schemas), schemas) && s in sessions
      ensures sessions == old(sessions)[s := old(sessions)[s].(locked := sessions[s].locked, holds := old(sessions)[s].holds - {old(sessions)[s].ds})]
      ensures forall n :: n in names ==> File(n, sessions[s].ds) !in sessions[s].locked
      ensures (forall n :: n in names ==> File(n, sessions[s].ds) !in base) ==> sessions[s].locked == base
    {
      hide Inv, Grown, Pending;
      var ds := sessions[s].ds;
      Rollback(s, names, w, base);
      UnholdKeeps(St(), s, ds);
      dsLock := dsLock - {ds};
      sessions := sessions[s := sessions[s].(holds := sessions[s].holds - {ds})];
    }

    /** The lock of the datastore as such (1739-1749). */
    method TakeDatastore(s: Sid) returns (ok: bool)
      requires Valid() && s in sessions
      modifies `sessions, `dsLock
      ensures Valid() && (ok <==> !(DsHeld(old(St()), old(sessions)[s].ds) && old(sessions)[s].ds != Candidate))
      ensures !ok ==> St() == old(St())
      ensures ok ==> sessions == old(sessions)[s := old(sessions)[s].(holds := old(sessions)[s].holds + {old(sessions)[s].ds})]
      ensures ok ==> SameLocks(old(St()), St())
    {
      hide Inv, DsHeld, SameLocks;
      var ds := sessions[s].ds;
      DsHolderKnown(St(), s, ds);
      if ds != Candidate {
        if ds in dsLock {
          return false;
        }
      }
      ok := true;
      HoldKeeps(St(), s, ds);
      if ds != Candidate {
        dsLock := dsLock + {ds};
      }
      sessions := sessions[s := sessions[s].(holds := sessions[s].holds + {ds})];
      HoldingLocks(old(St()), s, ds, St());
    }

    /** `dm_lock_datastore` (1723-1782) over the schemas listed, with whether they are implemented.
        On failure at entry `stop` the session is left exactly as it was if, and only if, it held
        the lock of no implemented module before that entry, and did not hold the datastore. */
    method LockDatastore(s: Sid, list: seq<(Name, bool)>, w: World) returns (rc: Rc, ghost stop: nat)
      requires Valid() && s in sessions
      modifies `schemas, `locking, `sessions, `dsLock
      ensures Valid() && Grown(old(schemas), schemas) && stop <= |list|
      ensures sessions.Keys == old(sessions.Keys) && forall t :: t in sessions && t != s ==> sessions[t] == old(sessions)[t]
      ensures var x, ds := old(sessions)[s], old(sessions)[s].ds;
        && (DsHeld(old(St()), ds) && ds != Candidate ==> rc.Locked? && St() == old(St()))
        && (!(DsHeld(old(St()), ds) && ds != Candidate) && !rc.Ok? && !rc.Unauthorized? ==>
              && stop < |list| && FailedAt(old(St()), s, File(list[stop].0, ds), w, rc)
              && (Unchanged(old(St()), St()) <==> ds !in x.holds && FreeOf(x.locked, list[..stop], ds))
              && sessions[s] == x.(locked := sessions[s].locked, holds := x.holds - {ds})
              && LocksLost(x.locked, sessions[s].locked, list[..stop], ds))
        && (rc.Ok? || rc.Unauthorized? ==>
              && (rc.Unauthorized? <==> LastRefused(old(St()), schemas, list, ds, w))
              && sessions[s] == x.(holds := x.holds + {ds}, locked := sessions[s].locked) && x.locked <= sessions[s].locked
              && (forall f :: f in sessions[s].locked[|x.locked|..] ==> f.ds == ds && (f.m, true) in list)
              && SettledAll(w, list, ds, schemas, sessions[s].locked))
    {
      hide Inv, Grown, Pending, Processed, RemoveAt, Unchanged, FailedAt, LastRefused, SameLocks, FreeOf, LocksLost, WereLocked;
      hide SettledAll, DsHeld, CanLock;
      stop := 0;
      GrownSelf(schemas);
      ghost var ds := sessions[s].ds;
      var ok := TakeDatastore(s);
      if !ok {
        return Locked, 0;
      }
      ghost var base := sessions[s].locked;
      ghost var held := St();
      var locked;
      rc, locked, stop := LockListed(s, list, w);
      if stop < |list| { FailedAsBefore(old(St()), held, s, File(list[stop].0, ds), w, rc); }
      if rc.Ok? || rc.Unauthorized? {
        assert list[..stop] == list;
        RefusedAsBefore(old(St()), held, s, schemas, list, ds, w);
        AllSettled(w, list, ds, base, locked, schemas, sessions[s].locked);
        PendingPrefix(sessions[s].locked, base, locked, ds);
        return;
      }
      ghost var schemas2 := schemas;
      HeldWereLocked(w, list[..stop], ds, base, locked, schemas, sessions[s].locked);
      GiveUp(s, locked, w, base);
      GrownTwice(old(schemas), schemas2, schemas);
      FailureIff(old(sessions), s, list[..stop], locked, sessions);
      assert sessions[s].holds == old(sessions)[s].holds - {ds};
      UnchangedIff(old(St()), St());
    }

    /** A session that holds the lock of a asks for the whole datastore while another one holds the
        lock of b: it is refused, and loses the lock of a. */
    method RefusalLosesLock(s: Sid, t: Sid, a: Name, b: Name, w: World) returns (rc: Rc)
      requires Valid() && s in sessions && t in sessions && s != t
      requires var ds := sessions[s].ds;
        && ds != Candidate && !DsHeld(St(), ds) && !w.access(File(a, ds)).Busy?
        && HeldBy(St(), s, File(a, ds)) && HeldBy(St(), t, File(b, ds)) && CanLock(schemas, b) && !w.access(File(b, ds)).Refused?
      modifies `schemas, `locking, `sessions, `dsLock
      ensures Valid() && rc.Locked? && s in sessions && sessions[s].ds == old(sessions)[s].ds
      ensures !HeldBy(St(), s, File(a, sessions[s].ds))
    {
      hide Inv, Grown, Unchanged, TakenElsewhere, FreeOf, Distinct;
      ghost var ds, st0, stop := sessions[s].ds, St(), 0;
      HeldTwice(st0, s, t, File(a, ds));
      assert HeldBy(st0, s, File(a, ds));
      KnownWhenHeld(st0, s, File(a, ds), w);
      KnownWhenHeld(st0, t, File(b, ds), w);
      var list := [(a, true), (b, true)];
      rc, stop := LockDatastore(s, list, w);
      assert list[0] == (a, true) && list[1] == (b, true);
      if rc.Ok? || rc.Unauthorized? {
        CanLockStill(st0.schemas, schemas, b);
        assert HeldBy(St(), s, File(b, ds)) && HeldBy(St(), t, File(b, ds));
        HeldTwice(St(), s, t, File(b, ds));
      }
      assert stop == 1 by { NotTakenElsewhere(st0, s, File(a, ds), w); }
      assert list[..1][0] == (a, true);
    }

    /** One round of the loop of `dm_unlock_datastore`: the lock file leads back to a module by its
        name, and the count of that one goes down (1838-1857). */
    method UnlockFirst(s: Sid, w: World) returns (ghost taken: Option<Name>)
      requires Steady(St()) && s in sessions && sessions[s].locked != []
      modifies `schemas, `locking, `sessions
      ensures Steady(St()) && Grown(old(schemas), schemas) && St() == FirstDropped(old(St()), s, schemas)
      ensures Released(old(St()), s, taken, St())
    {
      hide Steady, Counted, Grown, Recoverable, LockFileName, NamesCandidate, FirstDropped, Released;
      var f, l := sessions[s].locked[0], sessions[s].locked;
      assert HeldBy(St(), s, f);
      HeldIsAlive(St(), s, f);
      var file := LockFileName(dir, f.m.text, f.ds);
      var name := ModuleOf(dir, file);
      CandidateByName(dir, f.m.text, f.ds);
      taken := None;
      GrownSelf(schemas);
      ghost var st0 := St();
      if name.Some? {
        var m := Name(name.value);
        var ok := Find(m, w);
        if ok {
          GrownCounting(old(schemas), schemas, m, -1);
          schemas := schemas[m := schemas[m].(usage := schemas[m].usage - 1)];
          taken := Some(m);
        }
      }
      assert f.m.text == l[0].m.text && Name(f.m.text) == f.m;
      if !NamesCandidate(file) {
        locking := locking - {f};
      }
      sessions := sessions[s := sessions[s].(locked := l[1..])];
      FirstDroppedIs(st0, s, St());
      FirstDropSteady(st0, s, schemas);
      ReleasedBy(st0, s, taken, schemas);
    }

    /** The loop of `dm_unlock_datastore` over the lock files of the session (1836-1858): all go, but
        the counts come out right exactly when every file leads back to its own module. */
    method UnlockAll(s: Sid, w: World)
      requires Steady(St()) && s in sessions
      modifies `schemas, `locking, `sessions
      ensures Steady(St()) && Grown(old(schemas), schemas)
      ensures sessions == old(sessions)[s := old(sessions)[s].(locked := [])]
      ensures old(Counted(St())) ==> (Counted(St()) <==> AllRecoverable(old(sessions)[s].locked))
    {
      hide Steady, Counted, Grown, Recoverable, Overcounted, AllRecoverable, Released, FirstDropped;
      GrownSelf(schemas);
      ghost var counted, clean := Counted(St()), AllRecoverable(sessions[s].locked);
      ghost var k := Name("");
      if counted && !clean { k := LongestOver(St(), s); }
      while |sessions[s].locked| > 0
        invariant Steady(St()) && Grown(old(schemas), schemas) && OnlyLocks(old(sessions), sessions, s)
        invariant counted && clean ==> Counted(St()) && AllRecoverable(sessions[s].locked)
        invariant counted && !clean ==> Overcounted(St(), s, k)
        decreases |sessions[s].locked|
      {
        ghost var st0 := St();
        ghost var taken := UnlockFirst(s, w);
        GrownTwice(old(schemas), st0.schemas, schemas);
        ReleasedList(st0, s, taken, St());
        if counted && clean { StillCounted(st0, s, taken, St()); }
        if counted && !clean { StillOver(st0, s, k, taken, St()); }
      }
      if counted && !clean { OverAtEnd(St(), s, k); }
    }

    /** `dm_unlock_datastore` (1827-1867): all locks of the session go, in every datastore. */
    method UnlockDatastore(s: Sid, w: World)
      requires Steady(St()) && s in sessions
      modifies `schemas, `locking, `sessions, `dsLock
      ensures Steady(St()) && Grown(old(schemas), schemas)
      ensures sessions == old(sessions)[s := old(sessions)[s].(locked := [], holds := {})]
      ensures old(Counted(St())) ==> (Counted(St()) <==> AllRecoverable(old(sessions)[s].locked))
    {
      hide Steady, Counted, Grown, AllRecoverable;
      UnlockAll(s, w);
      ghost var counted := Counted(St());
      var all := [Startup, Running, Candidate];
      for i := 0 to 3
        invariant Steady(St()) && Grown(old(schemas), schemas) && Counted(St()) == counted
        invariant s in sessions && sessions == old(sessions)[s := old(sessions)[s].(locked := [], holds := sessions[s].holds)]
        invariant forall k :: 0 <= k < i ==> all[k] !in sessions[s].holds
      {
        if all[i] in sessions[s].holds {
          DsLockGone(St(), s, all[i]);
          dsLock := dsLock - {all[i]};
          sessions := sessions[s := sessions[s].(holds := sessions[s].holds - {all[i]})];
        }
      }
      assert all[0] == Startup && all[1] == Running && all[2] == Candidate;
      NoDatastore(sessions[s].holds);
    }

    /** `dm_session_switch_ds` (7250-7254): locks taken in another datastore stay. */
    method SwitchDs(s: Sid, ds: Ds)
      requires Valid() && s in sessions
      modifies `sessions
      ensures Valid() && sessions == old(sessions)[s := old(sessions)[s].(ds := ds)]
    {
      hide Inv;
      SwitchKeeps(St(), s, ds);
      sessions := sessions[s := sessions[s].(ds := ds)];
    }

    /** `dm_session_start` (2393-2430). */
    method StartSession(s: Sid, ds: Ds)
      requires Valid() && s !in sessions
      modifies `sessions
      ensures Valid() && sessions == old(sessions)[s := Session(ds, [], {}, map[])]
    {
      hide Inv;
      NewSessionKeeps(St(), s, ds);
      sessions := sessions[s := Session(ds, [], {}, map[])];
    }

    /** Frees one data copy of a session (`dm_data_info_free`, 290-304). */
    method FreeCopy(s: Sid, f: File)
      requires Steady(St()) && s in sessions && f in sessions[s].copies
      modifies `schemas, `sessions
      ensures Steady(St()) && Grown(old(schemas), schemas) && (Counted(St()) <==> old(Counted(St())))
      ensures sessions == old(sessions)[s := old(sessions)[s].(copies := old(sessions)[s].copies - {f})]
    {
      hide Steady, Counted, Grown;
      GrownSelf(schemas);
      if !sessions[s].copies[f] {
        OwnedIsAlive(St(), s, f);
        GrownCounting(schemas, schemas, f.m, -1);
      }
      CopyGone(St(), s, f);
      if !sessions[s].copies[f] {
        schemas := schemas[f.m := schemas[f.m].(usage := schemas[f.m].usage - 1)];
      }
      sessions := sessions[s := sessions[s].(copies := sessions[s].copies - {f})];
    }

    /** `dm_session_stop` (2432-2454). */
    method StopSession(s: Sid, w: World)
      requires Steady(St()) && s in sessions
      modifies `schemas, `locking, `sessions, `dsLock
      ensures Steady(St()) && Grown(old(schemas), schemas) && sessions == old(sessions) - {s}
      ensures old(Counted(St())) ==> (Counted(St()) <==> AllRecoverable(old(sessions)[s].locked))
    {
      hide Steady, Counted, Grown, AllRecoverable;
      UnlockDatastore(s, w);
      ghost var x, counted := sessions[s], Counted(St());
      while sessions[s].copies != map[]
        invariant Steady(St()) && Grown(old(schemas), schemas) && Counted(St()) == counted
        invariant s in sessions && sessions == old(sessions)[s := x.(copies := sessions[s].copies)]
        decreases |sessions[s].copies|
      {
        var f :| f in sessions[s].copies;
        ghost var before, copies := schemas, sessions[s].copies;
        FreeCopy(s, f);
        GrownTwice(old(schemas), before, schemas);
        Fewer(copies, f);
      }
      SessionGone(St(), s);
      sessions := sessions - {s};
    }

    /** A data tree is loaded into the session unless it has one (`dm_get_data_info`,
        `dm_load_data_tree_file`, 1484-1488). */
    method LoadCopy(s: Sid, m: Name, w: World) returns (rc: Rc)
      requires Valid() && s in sessions
      modifies `schemas, `sessions
      ensures Valid() && Grown(old(schemas), schemas) && LoadedFrom(old(schemas), schemas, w)
      ensures rc == if Unknown(old(schemas), m, w) then UnknownModel else Ok
      ensures rc.Ok? ==> m in schemas && schemas[m].alive
      ensures var f := File(m, old(sessions)[s].ds);
              sessions == if rc.Ok? && f !in old(sessions)[s].copies then WithCopyOf(old(sessions), s, f, false) else old(sessions)
    {
      hide Steady, Counted, Grown;
      var ok := Find(m, w);
      if !ok {
        return UnknownModel;
      }
      var f := File(m, sessions[s].ds);
      if f !in sessions[s].copies {
        WithCopyKeeps(St(), s, f, false);
        GrownCounting(old(schemas), schemas, m, 1);
        schemas := schemas[m := schemas[m].(usage := schemas[m].usage + 1)];
        sessions := sessions[s := sessions[s].(copies := sessions[s].copies[f := false])];
      }
      rc := Ok;
    }

    /** `dm_copy_if_not_loaded`: a read-only copy shares the data of another session and does not
        count (7121-7180). */
    method CopyIfNotLoaded(from: Sid, s: Sid, m: Name, w: World) returns (rc: Rc)
      requires Valid() && s in sessions && from in sessions
      modifies `schemas, `sessions
      ensures Valid() && Grown(old(schemas), schemas)
      ensures rc == if Unknown(old(schemas), m, w) then UnknownModel else Ok
      ensures var f := File(m, old(sessions)[s].ds);
              sessions == if rc.Ok? && f !in old(sessions)[s].copies && File(m, old(sessions)[from].ds) in old(sessions)[from].copies
                          then WithCopyOf(old(sessions), s, f, true) else old(sessions)
    {
      hide Steady, Counted, Grown;
      var ok := Find(m, w);
      if !ok {
        return UnknownModel;
      }
      var f := File(m, sessions[s].ds);
      if f !in sessions[s].copies && File(m, sessions[from].ds) in sessions[from].copies {
        WithCopyKeeps(St(), s, f, true);
        sessions := sessions[s := sessions[s].(copies := sessions[s].copies[f := true])];
      }
      rc := Ok;
    }

    /** `dm_uninstall_module_schema` (5437-5473): refused exactly while something uses the schema. */
    method Uninstall(m: Name) returns (rc: Rc)
      requires Valid()
      modifies `schemas
      ensures Valid()
      ensures rc == if exists r :: IsRef(old(St()), m, r) then OperationFailed else Ok
      ensures !rc.Ok? ==> schemas == old(schemas)
      ensures schemas.Keys == old(schemas.Keys) && (rc.Ok? && m in schemas ==> !schemas[m].alive)
      // the copies that are left, of a destroyed context, are the read-only ones there were
      ensures rc.Ok? ==> (HasCopy(St(), m) <==> ReadOnly(old(St()), m))
      ensures forall n :: n != m ==> (n in schemas <==> n in old(schemas)) && (n in schemas ==> schemas[n] == old(schemas)[n])
    {
      hide Inv;
      UsedIff(St(), m);
      rc := Ok;
      if forall r :: !IsRef(St(), m, r) { CopiesLeft(St(), m); }
      if m in schemas && schemas[m].alive {
        if schemas[m].usage != 0 {
          return OperationFailed;
        }
        SchemaKeeps(St(), m, schemas[m].(alive := false));
        schemas := schemas[m := schemas[m].(alive := false)];
      }
    }

    /** A notification session reads a module from a commit session c, which then ends, and the
        module is uninstalled (src/request_processor.c:151): if only c referred to the module, the
        session is left with a copy of a destroyed context. */
    method ReadOnlyOutlives(c: Sid, s: Sid, m: Name, w: World) returns (rc: Rc)
      requires Valid() && c in sessions && s in sessions && c != s && m in schemas && schemas[m].alive
      requires File(m, sessions[c].ds) in sessions[c].copies && File(m, sessions[s].ds) !in sessions[s].copies
      requires AllRecoverable(sessions[c].locked)
      requires forall r :: IsRef(St(), m, r) ==> !r.PrevRef? && r.s == c
      modifies `schemas, `locking, `sessions, `dsLock
      ensures Valid() && rc.Ok? && m in schemas && !schemas[m].alive
      ensures s in sessions && File(m, sessions[s].ds) in sessions[s].copies && HasCopy(St(), m)
    {
      hide Steady, Counted, Grown, AllRecoverable, IsRef, HasCopy;
      ghost var st0 := St();
      rc := CopyIfNotLoaded(c, s, m, w);
      ghost var st1 := St();
      GrownHas(st0.schemas, schemas, m);
      StopSession(c, w);
      GrownHas(st1.schemas, schemas, m);
      NoRefsLeft(st0, st1, St(), c, s, m);
      rc := Uninstall(m);
      CopyIsThere(St(), s, File(m, sessions[s].ds));
    }

    /** An uninstalled module is installed again: its schema gets a new context. */
    method Install(m: Name, lockable: bool)
      requires Valid()
      modifies `schemas
      ensures Valid()
      ensures m in old(schemas) && !old(schemas)[m].alive ==> schemas == old(schemas)[m := Schema(0, true, lockable)]
      ensures !(m in old(schemas) && !old(schemas)[m].alive) ==> schemas == old(schemas)
    {
      hide Inv;
      UsedIff(St(), m);
      if m in schemas && !schemas[m].alive {
        SchemaKeeps(St(), m, Schema(0, true, lockable));
        schemas := schemas[m := Schema(0, true, lockable)];
      }
    }

    /** The commit context and its session, in the datastore of the session that commits. */
    method BeginCommit(c: Sid, s: Sid)
      requires Valid() && s in sessions && c !in sessions && c !in prev
      modifies `sessions, `prev
      ensures Valid() && sessions == old(sessions)[c := Session(old(sessions)[s].ds, [], {}, map[])] && prev == old(prev)[c := {}]
    {
      hide Inv;
      NewCommitKeeps(St(), c);
      prev := prev[c := {}];
      StartSession(c, sessions[s].ds);
    }

    /** One module of the lock loop (4316-4320): the second attempt, for the session that commits,
        never takes a new lock. */
    method LockForCommit(c: Sid, s: Sid, m: Name, w: World) returns (rc: Rc)
      requires Valid() && c in sessions && s in sessions && c != s && sessions[c].ds == sessions[s].ds
      modifies `schemas, `locking, `sessions
      ensures Valid() && Grown(old(schemas), schemas) && OnlyLocks(old(sessions), sessions, c)
      ensures sessions[c].locked == old(sessions)[c].locked || sessions[c].locked == old(sessions)[c].locked + [File(m, sessions[c].ds)]
      ensures LoadedFrom(old(schemas), schemas, w)
      ensures rc.Ok? ==> OwnLock(St(), c, s, m)
      ensures rc == CommitVerdict(old(St()), c, s, File(m, old(sessions)[c].ds), w)
    {
      hide Inv, Grown, OwnLock, LoadedFrom, MayLock, ThirdHas;
      ghost var st0, f := St(), File(m, sessions[c].ds);
      rc := LockModule(c, m, w);
      ghost var st1 := St();
      ThirdKnown(st0, c, s, f, w);
      if rc.Locked? {
        HolderKnown(st0, st1, s, f);
        rc := LockModule(s, m, w);
        CanLockStill(st1.schemas, schemas, m);
        GrownTwice(old(schemas), st1.schemas, schemas);
        LoadedTwice(old(schemas), st1.schemas, schemas, w);
        KnownStill(old(schemas), st1.schemas, m, w);
      }
      HolderKnown(St(), St(), s, f);
      CommitStep(st0, c, s, m, St(), rc);
    }

    /** The lock loop of `dm_commit_load_modified_models` (4312-4341).  Each modified module is locked
        for the commit session, or found locked by the session that commits; a third holder stops
        the commit.  `disabled` are modules with nodes that are not enabled in running. */
    method CommitLock(c: Sid, s: Sid, modified: seq<Name>, disabled: set<Name>, w: World) returns (rc: Rc)
      requires Valid() && c in sessions && s in sessions && c != s && sessions[c].ds == sessions[s].ds
      modifies `schemas, `locking, `sessions
      ensures Valid() && Grown(old(schemas), schemas) && OnlyLocks(old(sessions), sessions, c)
      ensures Pending(sessions[c].locked, old(sessions)[c].locked, modified, sessions[c].ds)
      ensures rc.Ok? ==> forall m :: m in modified ==> OwnLock(St(), c, s, m)
      ensures Decided(old(St()), c, s, modified, disabled, old(sessions)[c].ds, w, rc)
    {
      hide Inv, Grown, Pending, OwnLock, LoadedFrom, CommitVerdict, Decided;
      ghost var ds, base := sessions[c].ds, sessions[c].locked;
      GrownSelf(schemas);
      PendingNone(base, ds);
      LoadedNothing(schemas, w);
      assert modified[..0] == [];
      var i := 0;
      while i < |modified|
        invariant 0 <= i <= |modified|
        invariant Valid() && Grown(old(schemas), schemas) && OnlyLocks(old(sessions), sessions, c)
        invariant Pending(sessions[c].locked, base, modified[..i], ds) && LoadedFrom(old(schemas), schemas, w)
        invariant forall k :: 0 <= k < i ==> OwnLock(St(), c, s, modified[k])
        invariant forall k :: 0 <= k < i ==> Passes(old(St()), c, s, modified[k], disabled, ds, w)
      {
        var m := modified[i];
        ghost var st0 := St();
        rc := LockForCommit(c, s, m, w);
        VerdictAsBefore(old(St()), st0, c, s, modified[..i], m, disabled, ds, w);
        GrownTwice(old(schemas), st0.schemas, schemas);
        LoadedTwice(old(schemas), st0.schemas, schemas, w);
        assert modified[..i + 1] == modified[..i] + [m];
        PendingMore(st0.sessions[c].locked, base, modified[..i], m, ds, sessions[c].locked);
        PendingWider(sessions[c].locked, base, modified[..i + 1], modified, ds);
        if !rc.Ok? {
          DecidedAt(old(St()), c, s, modified, i, disabled, ds, w, rc);
          return;
        }
        if sessions[s].ds == Running && m in disabled {
          DecidedAt(old(St()), c, s, modified, i, disabled, ds, w, OperationFailed);
          return OperationFailed;
        }
        forall k | 0 <= k < i ensures OwnLock(St(), c, s, modified[k]) {
          OwnLockStill(st0, St(), c, s, modified[k]);
        }
        i := i + 1;
      }
      assert modified[..i] == modified;
      DecidedAll(old(St()), c, s, modified, disabled, ds, w);
      rc := Ok;
    }

    /** A previous data tree is kept for the notifications of the commit (`dm_insert_data_info_copy`,
        687-714). */
    method KeepPrevious(c: Sid, m: Name)
      requires Valid() && c in prev && m in schemas && schemas[m].alive
      modifies `schemas, `prev
      ensures Valid() && Grown(old(schemas), schemas) && schemas.Keys == old(schemas.Keys) && prev == old(prev)[c := old(prev)[c] + {m}]
    {
      hide Inv, Grown;
      GrownSelf(schemas);
      if m !in prev[c] {
        PrevKeeps(St(), c, m);
        GrownCounting(schemas, schemas, m, 1);
        schemas := schemas[m := schemas[m].(usage := schemas[m].usage + 1)];
        prev := prev[c := prev[c] + {m}];
      } else {
        assert prev[c] + {m} == prev[c] && prev[c := prev[c]] == prev;
      }
    }

    /** `dm_free_commit_context` (4013-4051): previous trees, then the commit session. */
    method FreeCommit(c: Sid, w: World)
      requires Steady(St()) && c in prev && c in sessions
      modifies `schemas, `locking, `sessions, `dsLock, `prev
      ensures Steady(St()) && Grown(old(schemas), schemas) && sessions == old(sessions) - {c} && prev == old(prev) - {c}
      ensures old(Counted(St())) ==> (Counted(St()) <==> AllRecoverable(old(sessions)[c].locked))
    {
      hide Steady, Counted, Grown, AllRecoverable;
      GrownSelf(schemas);
      ghost var counted := Counted(St());
      while prev[c] != {}
        invariant Steady(St()) && Grown(old(schemas), schemas) && Counted(St()) == counted
        invariant c in prev && prev == old(prev)[c := prev[c]] && sessions == old(sessions)
        decreases |prev[c]|
      {
        var m :| m in prev[c];
        PrevGone(St(), c, m);
        GrownCounting(old(schemas), schemas, m, -1);
        schemas := schemas[m := schemas[m].(usage := schemas[m].usage - 1)];
        prev := prev[c := prev[c] - {m}];
      }
      CommitGone(St(), c);
      prev := prev - {c};
      ghost var before := schemas;
      StopSession(c, w);
      GrownTwice(old(schemas), before, schemas);
    }

    /** The data tree of one modified module, and its previous tree if it is watched. */
    method LoadTree(c: Sid, m: Name, watched: set<Name>, w: World) returns (rc: Rc)
      requires Valid() && c in sessions && c in prev
      modifies `schemas, `sessions, `prev
      ensures Valid() && LoadedFrom(old(schemas), schemas, w) && c in sessions && c in prev
      ensures sessions == old(sessions)[c := old(sessions)[c].(copies := sessions[c].copies)]
      ensures rc == if Unknown(old(schemas), m, w) then UnknownModel else Ok
      ensures rc.Ok? ==> sessions[c].copies.Keys == old(sessions)[c].copies.Keys + {File(m, old(sessions)[c].ds)}
      ensures prev == old(prev)[c := if rc.Ok? && m in watched then old(prev)[c] + {m} else old(prev)[c]]
    {
      hide Inv, Grown, LoadedFrom;
      rc := LoadCopy(c, m, w);
      assert prev[c := prev[c]] == prev;
      if rc.Ok? && m in watched {
        ghost var before := schemas;
        KeepPrevious(c, m);
        LoadedSame(before, schemas, w);
        LoadedTwice(old(schemas), before, schemas, w);
      }
    }

    /** Data trees of the commit session, and previous trees of the modules that are watched
        (4346-4473). */
    method LoadTrees(c: Sid, modified: seq<Name>, watched: set<Name>, w: World) returns (rc: Rc)
      requires Valid() && c in sessions && c in prev
      modifies `schemas, `sessions, `prev
      ensures Valid() && Grown(old(schemas), schemas) && c in sessions && c in prev
      ensures sessions == old(sessions)[c := old(sessions)[c].(copies := sessions[c].copies)] && prev == old(prev)[c := prev[c]]
      ensures rc == if exists m :: m in modified && Unknown(old(schemas), m, w) then UnknownModel else Ok
      ensures rc.Ok? ==> sessions[c].copies.Keys == old(sessions)[c].copies.Keys + FilesOf(modified, old(sessions)[c].ds)
      ensures rc.Ok? ==> prev[c] == old(prev)[c] + Watched(modified, watched)
    {
      hide Inv, Grown, Unknown, LoadedFrom, FilesOf, Watched;
      LoadedNothing(schemas, w);
      assert modified[..0] == [];
      NoFiles(sessions[c].ds, watched);
      rc := Ok;
      var i := 0;
      while i < |modified| && rc.Ok?
        invariant 0 <= i <= |modified|
        invariant Valid() && LoadedFrom(old(schemas), schemas, w) && c in sessions && c in prev
        invariant sessions == old(sessions)[c := old(sessions)[c].(copies := sessions[c].copies)] && prev == old(prev)[c := prev[c]]
        invariant rc.Ok? || (rc.UnknownModel? && exists m :: m in modified && Unknown(old(schemas), m, w))
        invariant rc.Ok? ==> forall k :: 0 <= k < i ==> !Unknown(old(schemas), modified[k], w)
        invariant rc.Ok? ==> sessions[c].copies.Keys == old(sessions)[c].copies.Keys + FilesOf(modified[..i], old(sessions)[c].ds)
        invariant rc.Ok? ==> prev[c] == old(prev)[c] + Watched(modified[..i], watched)
      {
        var m := modified[i];
        FilesNext(modified, i, sessions[c].ds, watched);
        ghost var before := schemas;
        KnownStill(old(schemas), schemas, m, w);
        rc := LoadTree(c, m, watched, w);
        LoadedTwice(old(schemas), before, schemas, w);
        i := i + 1;
      }
      LoadedGrown(old(schemas), schemas, w);
      if rc.Ok? { assert modified[..i] == modified; }
    }

    /** After the lock phase: data trees, release after the write, and the end of the context. */
    method FinishCommit(c: Sid, modified: seq<Name>, watched: set<Name>, w: World) returns (rc: Rc, ghost trees: set<File>, ghost kept: set<Name>)
      requires Valid() && c in sessions && c in prev
      modifies `schemas, `locking, `sessions, `dsLock, `prev
      ensures Steady(St()) && Grown(old(schemas), schemas) && sessions == old(sessions) - {c} && prev == old(prev) - {c}
      ensures AllRecoverable(old(sessions)[c].locked) ==> Counted(St())
      ensures rc == if exists m :: m in modified && Unknown(old(schemas), m, w) then UnknownModel else Ok
      ensures rc.Ok? ==> trees == old(sessions)[c].copies.Keys + FilesOf(modified, old(sessions)[c].ds)
      ensures rc.Ok? ==> kept == old(prev)[c] + Watched(modified, watched)
    {
      hide Steady, Counted, Grown, AllRecoverable, Unknown;
      rc := LoadTrees(c, modified, watched, w);
      trees, kept := sessions[c].copies.Keys, prev[c];
      ghost var loaded := schemas;
      UnlockDatastore(c, w);
      GrownTwice(old(schemas), loaded, schemas);
      NoneToRecover(sessions[c].locked);
      ghost var before := schemas;
      FreeCommit(c, w);
      GrownTwice(old(schemas), before, schemas);
    }

    /** A whole commit: lock phase, data trees for the modified modules, previous trees for those
        watched, release after the write, and the end of the context.  Whatever its result, it
        leaves every lock, flag and copy of the other sessions as it found them, and every count
        when the lock files lead back to their modules.  It succeeds if and only if nothing stops it
        at any modified module, and otherwise ends, before any tree is loaded, with the result for
        the first that does. */
    method RunCommit(c: Sid, s: Sid, modified: seq<Name>, disabled: set<Name>, watched: set<Name>, w: World)
      returns (rc: Rc, ghost trees: set<File>, ghost kept: set<Name>)
      requires Valid() && s in sessions && c !in sessions && c !in prev
      modifies this
      ensures Steady(St()) && sessions == old(sessions) && prev == old(prev) && locking == old(locking) && dsLock == old(dsLock)
      ensures (forall m :: m in modified ==> Recoverable(m.text, old(sessions)[s].ds)) ==> Valid() && Unchanged(old(St()), St())
      ensures Decided(old(St()), c, s, modified, disabled, old(sessions)[s].ds, w, rc)
      // no commit goes on with a module that a third session or another process has locked
      ensures rc.Ok? ==> forall m :: m in modified && MayLock(old(schemas), m, w) && old(sessions)[s].ds != Candidate ==>
                var f := File(m, old(sessions)[s].ds);
                (forall t :: HeldBy(old(St()), t, f) ==> t == s) && (HeldBy(old(St()), s, f) || !w.access(f).Busy?)
      ensures rc.Ok? ==> trees == FilesOf(modified, old(sessions)[s].ds) && kept == Watched(modified, watched)
      ensures !rc.Ok? ==> trees == {} && kept == {}
    {
      hide Steady, Counted, Grown, Pending, OwnLock, Recoverable, Unchanged, AllRecoverable, Decided, CommitVerdict, MayLock;
      trees, kept := {}, {};
      ghost var clean := forall m :: m in modified ==> Recoverable(m.text, sessions[s].ds);
      BeginCommit(c, s);
      ghost var begun := St();
      rc := CommitLock(c, s, modified, disabled, w);
      DecidedFrom(old(St()), begun, c, s, modified, disabled, sessions[c].ds, w, rc);
      if rc.Ok? { NoThird(old(St()), c, s, modified, disabled, sessions[c].ds, w); }
      PendingNames(sessions[c].locked, modified, sessions[c].ds);
      if clean { NamesRecoverable(sessions[c].locked, modified, sessions[c].ds); }
      ghost var before := schemas;
      assert sessions - {c} == old(sessions) && prev - {c} == old(prev);
      if rc.Ok? {
        KnownWhenLocked(St(), c, s, modified, w);
        rc, trees, kept := FinishCommit(c, modified, watched, w);
      } else {
        FreeCommit(c, w);
      }
      GrownTwice(old(schemas), before, schemas);
      CommitOver(old(St()), St(), c);
    }
  }

  /** The module was uninstalled, or it is not there and cannot be loaded. */
  ghost predicate Unknown(schemas: map<Name, Schema>, m: Name, w: World) {
    if m in schemas then !schemas[m].alive else w.loads(m).None?
  }

  /** Another session or another process has the lock. */
  ghost predicate TakenElsewhere(st: State, s: Sid, f: File, w: World) {
    w.access(f).Busy? || exists t :: t != s && HeldBy(st, t, f)
  }

  /** Nobody has the lock, and it is not one for a candidate: the lock file is tried. */
  ghost predicate AsksFor(st: State, schemas: map<Name, Schema>, f: File) {
    CanLock(schemas, f.m) && f.ds != Candidate && !Held(st, f)
  }

  /** Why a lock that was asked for stops the loop. */
  ghost predicate FailedAt(st: State, s: Sid, f: File, w: World, rc: Rc) {
    match rc
    case Locked => TakenElsewhere(st, s, f, w)
    case Internal => !Held(st, f) && w.access(f).Broken?
    case UnknownModel => Unknown(st.schemas, f.m, w)
    case _ => false
  }

  /** The last implemented module that is listed. */
  ghost function LastListed(list: seq<(Name, bool)>): Option<Name> {
    if list == [] then None
    else if list[|list| - 1].1 then Some(list[|list| - 1].0)
    else LastListed(list[..|list| - 1])
  }

  ghost predicate LastRefused(st: State, schemas: map<Name, Schema>, list: seq<(Name, bool)>, ds: Ds, w: World) {
    var n := LastListed(list);
    n.Some? && AsksFor(st, schemas, File(n.value, ds)) && w.access(File(n.value, ds)).Refused?
  }

  lemma NobodyRefused(st: State, schemas: map<Name, Schema>, ds: Ds, w: World)
    ensures !LastRefused(st, schemas, [], ds, w)
  {
  }

  lemma LastRefusedNext(st: State, schemas: map<Name, Schema>, list: seq<(Name, bool)>, n: Name, ds: Ds, w: World)
    ensures LastRefused(st, schemas, list + [(n, true)], ds, w) <==> AsksFor(st, schemas, File(n, ds)) && w.access(File(n, ds)).Refused?
  {
  }

  lemma LastRefusedSkip(st: State, schemas: map<Name, Schema>, list: seq<(Name, bool)>, e: (Name, bool), ds: Ds, w: World)
    requires !e.1
    ensures LastRefused(st, schemas, list + [e], ds, w) <==> LastRefused(st, schemas, list, ds, w)
  {
    assert (list + [e])[..|list|] == list;
  }

  lemma FailedHow(st: State, s: Sid, f: File, w: World, rc: Rc)
    requires rc.Locked? || rc.Internal? || rc.UnknownModel?
    requires rc.Locked? ==> TakenElsewhere(st, s, f, w)
    requires rc.Internal? ==> !Held(st, f) && w.access(f).Broken?
    requires rc.UnknownModel? ==> Unknown(st.schemas, f.m, w)
    ensures FailedAt(st, s, f, w, rc)
  {
  }

  /** The locks that were taken had been granted. */
  ghost predicate AllGranted(w: World, base: seq<File>, now: seq<File>) {
    base <= now && forall f :: f in now[|base|..] ==> f.ds == Candidate || w.access(f).Granted?
  }

  lemma GrantedNone(w: World, base: seq<File>)
    ensures AllGranted(w, base, base)
  {
  }

  lemma GrantedMore(w: World, base: seq<File>, now: seq<File>, f: File, now': seq<File>)
    requires AllGranted(w, base, now) && (now' == now || (now' == now + [f] && (f.ds == Candidate || w.access(f).Granted?)))
    ensures AllGranted(w, base, now')
  {
    assert (now + [f])[|base|..] == now[|base|..] + [f];
  }

  /** While s takes locks that are granted, one that is not granted is as free as it was. */
  lemma AsksAsBefore(before: State, st: State, s: Sid, schemas: map<Name, Schema>, f: File, w: World)
    requires OnlyLocks(before.sessions, st.sessions, s) && AllGranted(w, before.sessions[s].locked, st.sessions[s].locked)
    ensures !w.access(f).Granted? ==> (AsksFor(before, schemas, f) <==> AsksFor(st, schemas, f))
  {
    var base, now := before.sessions[s].locked, st.sessions[s].locked;
    if t :| HeldBy(before, t, f) {
      assert HeldBy(st, t, f);
    }
    if t :| HeldBy(st, t, f) {
      if t != s {
        assert HeldBy(before, t, f);
      } else if f in base {
        assert HeldBy(before, s, f);
      } else {
        assert now == base + now[|base|..];
        assert f in now[|base|..];
      }
    }
  }

  lemma RefusedAsBefore(before: State, st: State, s: Sid, schemas: map<Name, Schema>, list: seq<(Name, bool)>, ds: Ds, w: World)
    requires s in before.sessions && SameLocks(before, st)
    ensures LastRefused(st, schemas, list, ds, w) <==> LastRefused(before, schemas, list, ds, w)
  {
    var n := LastListed(list);
    if n.Some? { SameHeld(before, st, File(n.value, ds)); }
  }

  ghost predicate SameLocks(before: State, st: State) {
    st.sessions.Keys == before.sessions.Keys && forall t :: t in st.sessions ==> st.sessions[t].locked == before.sessions[t].locked
  }

  lemma HoldingLocks(before: State, s: Sid, ds: Ds, st: State)
    requires s in before.sessions && st.sessions == before.sessions[s := before.sessions[s].(holds := before.sessions[s].holds + {ds})]
    ensures SameLocks(before, st)
  {
  }

  lemma SameHeld(before: State, st: State, f: File)
    requires SameLocks(before, st)
    ensures forall t :: HeldBy(st, t, f) <==> HeldBy(before, t, f)
    ensures Held(st, f) <==> Held(before, f)
  {
  }

  lemma FailedAsBefore(before: State, st: State, s: Sid, f: File, w: World, rc: Rc)
    requires FailedAt(st, s, f, w, rc) && SameLocks(before, st) && st.schemas == before.schemas
    ensures FailedAt(before, s, f, w, rc)
  {
    SameHeld(before, st, f);
  }

  lemma UnknownBefore(a: map<Name, Schema>, b: map<Name, Schema>, m: Name, w: World)
    requires Grown(a, b) && Unknown(b, m, w)
    ensures Unknown(a, m, w)
  {
  }

  /** Who has a lock now had it when s began to lock. */
  lemma TakenBefore(before: State, st: State, s: Sid, f: File, w: World)
    requires OnlyLocks(before.sessions, st.sessions, s) && !HeldBy(st, s, f) && (Held(st, f) || w.access(f).Busy?)
    ensures TakenElsewhere(before, s, f, w)
  {
    if !w.access(f).Busy? {
      var t :| HeldBy(st, t, f);
      assert HeldBy(before, t, f);
    }
  }

  /** What was held for the modules listed is not held any more. */
  ghost predicate LocksLost(before: seq<File>, now: seq<File>, list: seq<(Name, bool)>, ds: Ds) {
    forall j :: 0 <= j < |list| && list[j].1 && File(list[j].0, ds) in before ==> File(list[j].0, ds) !in now
  }

  lemma HeldTwice(st: State, s: Sid, t: Sid, f: File)
    requires Inv(st) && HeldBy(st, s, f) && f.ds != Candidate && s != t
    ensures !HeldBy(st, t, f)
  {
  }

  lemma KnownWhenHeld(st: State, s: Sid, f: File, w: World)
    requires Inv(st) && HeldBy(st, s, f)
    ensures !Unknown(st.schemas, f.m, w)
  {
    HeldIsAlive(st, s, f);
  }

  lemma NotTakenElsewhere(st: State, s: Sid, f: File, w: World)
    requires Inv(st) && HeldBy(st, s, f) && f.ds != Candidate && !w.access(f).Busy?
    ensures !TakenElsewhere(st, s, f, w)
  {
    hide Counted, Alive, DsLocked;
  }

  ghost predicate CanLock(schemas: map<Name, Schema>, m: Name) {
    m in schemas && schemas[m].alive && schemas[m].lockable
  }

  ghost function Extended(sessions: map<Sid, Session>, s: Sid, f: File): map<Sid, Session>
    requires s in sessions
  {
    sessions[s := sessions[s].(locked := sessions[s].locked + [f])]
  }

  ghost function Shortened(sessions: map<Sid, Session>, s: Sid, i: nat): map<Sid, Session>
    requires s in sessions && i < |sessions[s].locked|
  {
    sessions[s := sessions[s].(locked := RemoveAt(sessions[s].locked, i))]
  }

  /** The locking set tells who holds a startup or running lock file. */
  lemma HolderKnown(before: State, st: State, s: Sid, f: File)
    requires Inv(st) && st.sessions == before.sessions
    ensures HeldBy(before, s, f) <==> HeldBy(st, s, f)
    ensures Held(before, f) <==> Held(st, f)
    ensures f.ds != Candidate ==> (f in st.locking <==> Held(st, f))
    ensures HeldBy(st, s, f) ==> Held(st, f)
  {
    hide Counted, Alive, DsLocked;
    if t :| HeldBy(st, t, f) { assert HeldBy(before, t, f); }
    if t :| HeldBy(before, t, f) { assert HeldBy(st, t, f); }
  }

  lemma GrownCounting(a: map<Name, Schema>, b: map<Name, Schema>, m: Name, n: int)
    requires Grown(a, b) && m in b
    ensures Grown(a, Counting(b, m, n))
  {
  }

  lemma GrownSelf(a: map<Name, Schema>)
    ensures Grown(a, a)
  {
  }

  lemma GrownTwice(a: map<Name, Schema>, b: map<Name, Schema>, c: map<Name, Schema>)
    requires Grown(a, b) && Grown(b, c)
    ensures Grown(a, c)
  {
  }

  /** Only the list of locks of s may have changed. */
  ghost predicate OnlyLocks(before: map<Sid, Session>, now: map<Sid, Session>, s: Sid) {
    s in before && s in now && now == before[s := before[s].(locked := now[s].locked)]
  }

  /** The list is `base` followed by locks for the named modules in the datastore. */
  ghost predicate Pending(l: seq<File>, base: seq<File>, names: seq<Name>, ds: Ds) {
    base <= l && forall f :: f in l[|base|..] ==> f.ds == ds && f.m in names
  }

  lemma PendingNone(base: seq<File>, ds: Ds)
    ensures Pending(base, base, [], ds)
  {
  }

  lemma PendingMore(l: seq<File>, base: seq<File>, names: seq<Name>, n: Name, ds: Ds, l': seq<File>)
    requires Pending(l, base, names, ds) && (l' == l || l' == l + [File(n, ds)])
    ensures l' == l ==> Pending(l', base, names, ds)
    ensures Pending(l', base, names + [n], ds)
  {
    assert (l + [File(n, ds)])[|base|..] == l[|base|..] + [File(n, ds)];
  }

  /** What became of one implemented module: its lock is held if it has data, or it was refused. */
  ghost predicate Settled(w: World, n: Name, ds: Ds, base: seq<File>, locked: seq<Name>, schemas: map<Name, Schema>, now: seq<File>) {
    || (n in locked && n in schemas && schemas[n].alive && (schemas[n].lockable ==> File(n, ds) in now))
    || (w.access(File(n, ds)).Refused? && File(n, ds) !in base)
  }

  ghost predicate Processed(w: World, list: seq<(Name, bool)>, ds: Ds, base: seq<File>, locked: seq<Name>,
                            schemas: map<Name, Schema>, now: seq<File>) {
    forall j :: 0 <= j < |list| && list[j].1 ==> Settled(w, list[j].0, ds, base, locked, schemas, now)
  }

  lemma ProcessedNone(w: World, ds: Ds, base: seq<File>, schemas: map<Name, Schema>)
    ensures Processed(w, [], ds, base, [], schemas, base)
  {
  }

  lemma ProcessedStill(w: World, list: seq<(Name, bool)>, ds: Ds, base: seq<File>, locked: seq<Name>, schemas: map<Name, Schema>,
                       now: seq<File>, schemas': map<Name, Schema>, now': seq<File>)
    requires Processed(w, list, ds, base, locked, schemas, now) && Grown(schemas, schemas') && now <= now'
    ensures Processed(w, list, ds, base, locked, schemas', now')
  {
  }

  lemma ProcessedNext(w: World, list: seq<(Name, bool)>, i: nat, ds: Ds, base: seq<File>, locked: seq<Name>, schemas: map<Name, Schema>,
                      now: seq<File>, locked': seq<Name>, schemas': map<Name, Schema>, now': seq<File>)
    requires i < |list| && Processed(w, list[..i], ds, base, locked, schemas, now)
    requires locked <= locked' && Grown(schemas, schemas') && now <= now'
    requires list[i].1 ==> Settled(w, list[i].0, ds, base, locked', schemas', now')
    ensures Processed(w, list[..i + 1], ds, base, locked', schemas', now')
  {
    forall j | 0 <= j < i + 1 && list[j].1 ensures Settled(w, list[j].0, ds, base, locked', schemas', now') {
      if j < i { assert list[..i][j] == list[j]; }
    }
  }

  /** A lock that is refused was not held. */
  lemma NotHeldThen(st: State, s: Sid, f: File, base: seq<File>, names: seq<Name>)
    requires s in st.sessions && !Held(st, f) && Pending(st.sessions[s].locked, base, names, f.ds)
    ensures f !in base
  {
    assert !HeldBy(st, s, f);
  }

  lemma NoDatastore(h: set<Ds>)
    requires Startup !in h && Running !in h && Candidate !in h
    ensures h == {}
  {
    forall d ensures d !in h {
      match d
      case Startup =>
      case Running =>
      case Candidate =>
    }
  }

  lemma DistinctLocks(st: State, s: Sid)
    requires Inv(st) && s in st.sessions
    ensures Distinct(st.sessions[s].locked)
  {
  }

  /** One module is unlocked: what is pending is what the names behind it account for. */
  lemma PendingNext(l: seq<File>, base: seq<File>, names: seq<Name>, k: nat, ds: Ds, at: nat, l': seq<File>)
    requires k < |names| && Pending(l, base, names[k..], ds) && Distinct(l) && File(names[k], ds) !in base
    requires File(names[k], ds) !in l ==> l' == l
    requires File(names[k], ds) in l ==> at < |l| && l[at] == File(names[k], ds) && l' == RemoveAt(l, at)
    ensures Pending(l', base, names[k + 1..], ds)
  {
    var f := File(names[k], ds);
    assert names[k..] == [names[k]] + names[k + 1..];
    if f in l {
      assert at >= |base|;
      RemovedAt(l, at);
      assert l'[|base|..] == RemoveAt(l[|base|..], at - |base|);
    }
    forall g | g in l'[|base|..] ensures g.ds == ds && g.m in names[k + 1..] {
      assert g in l' && g != f;
      if f in l { InRemoved(l[|base|..], at - |base|, g); }
    }
  }

  lemma InRemoved(l: seq<File>, i: nat, g: File)
    requires i < |l| && g in RemoveAt(l, i)
    ensures g in l
  {
  }

  lemma PendingDone(l: seq<File>, base: seq<File>, names: seq<Name>, k: nat, ds: Ds)
    requires k == |names| && Pending(l, base, names[k..], ds)
    ensures l == base
  {
    if l != base { SomethingLeft(l, base); }
  }

  lemma SomethingLeft(l: seq<File>, base: seq<File>)
    requires base <= l && l != base
    ensures exists f :: f in l[|base|..]
  {
    assert l[|base|] in l[|base|..];
  }

  lemma PendingPrefix(l: seq<File>, base: seq<File>, names: seq<Name>, ds: Ds)
    requires Pending(l, base, names, ds)
    ensures base <= l && forall f :: f in l[|base|..] ==> f.ds == ds && f.m in names
  {
  }

  lemma DsHolderKnown(st: State, s: Sid, d: Ds)
    requires Inv(st) && s in st.sessions
    ensures d in st.dsLock <==> d != Candidate && DsHeld(st, d)
    ensures d in st.sessions[s].holds ==> DsHeld(st, d)
  {
    if d in st.sessions[s].holds { assert DsHeldBy(st, s, d); }
  }

  /** No implemented module listed is locked in the datastore. */
  ghost predicate FreeOf(l: seq<File>, list: seq<(Name, bool)>, ds: Ds) {
    forall j :: 0 <= j < |list| && list[j].1 ==> File(list[j].0, ds) !in l
  }

  lemma AllSettled(w: World, list: seq<(Name, bool)>, ds: Ds, base: seq<File>, locked: seq<Name>, schemas: map<Name, Schema>, now: seq<File>)
    requires Processed(w, list, ds, base, locked, schemas, now)
    ensures SettledAll(w, list, ds, schemas, now)
  {
  }

  /** Every implemented module listed is known, and locked if it can be, or its lock was refused. */
  ghost predicate SettledAll(w: World, list: seq<(Name, bool)>, ds: Ds, schemas: map<Name, Schema>, now: seq<File>) {
    forall j :: 0 <= j < |list| && list[j].1 ==>
      w.access(File(list[j].0, ds)).Refused? || (list[j].0 in schemas && (CanLock(schemas, list[j].0) ==> File(list[j].0, ds) in now))
  }

  /** A module whose lock was held before is among those that are unlocked. */
  lemma HeldWereLocked(w: World, list: seq<(Name, bool)>, ds: Ds, base: seq<File>, locked: seq<Name>, schemas: map<Name, Schema>, now: seq<File>)
    requires Processed(w, list, ds, base, locked, schemas, now)
    ensures WereLocked(list, ds, base, locked)
  {
  }

  ghost predicate WereLocked(list: seq<(Name, bool)>, ds: Ds, base: seq<File>, locked: seq<Name>) {
    forall j :: 0 <= j < |list| && list[j].1 && File(list[j].0, ds) in base ==> list[j].0 in locked
  }

  /** The session is unchanged exactly when nothing that was unlocked had been held before. */
  lemma FailureIff(before: map<Sid, Session>, s: Sid, list: seq<(Name, bool)>, locked: seq<Name>, now: map<Sid, Session>)
    requires s in before && s in now
    requires var x, ds := before[s], before[s].ds;
      && now == before[s := x.(locked := now[s].locked, holds := x.holds + {ds} - {ds})]
      && (forall n :: n in locked ==> (n, true) in list)
      && (forall n :: n in locked ==> File(n, ds) !in now[s].locked)
      && ((forall n :: n in locked ==> File(n, ds) !in x.locked) ==> now[s].locked == x.locked)
      && WereLocked(list, ds, x.locked, locked)
    ensures now == before <==> before[s].ds !in before[s].holds && FreeOf(before[s].locked, list, before[s].ds)
    ensures LocksLost(before[s].locked, now[s].locked, list, before[s].ds)
  {
    var x, ds := before[s], before[s].ds;
    if FreeOf(x.locked, list, ds) {
      forall n | n in locked ensures File(n, ds) !in x.locked {
        var j :| 0 <= j < |list| && list[j] == (n, true);
      }
    }
    if ds !in x.holds { assert x.holds + {ds} - {ds} == x.holds; }
    if now == before { assert now[s] == x; }
  }

  lemma UnchangedIff(a: State, b: State)
    requires Inv(a) && Inv(b) && a.prev == b.prev && Grown(a.schemas, b.schemas)
    ensures Unchanged(a, b) <==> a.sessions == b.sessions
  {
    hide Inv;
    if a.sessions == b.sessions { Restored(a, b); }
  }

  ghost function WithCopyOf(sessions: map<Sid, Session>, s: Sid, f: File, rdonly: bool): map<Sid, Session>
    requires s in sessions
  {
    sessions[s := sessions[s].(copies := sessions[s].copies[f := rdonly])]
  }

  lemma Fewer(copies: map<File, bool>, f: File)
    requires f in copies
    ensures |copies - {f}| < |copies|
  {
    assert (copies - {f}).Keys == copies.Keys - {f};
    assert |copies.Keys| == |copies| && |(copies - {f}).Keys| == |copies - {f}|;
  }

  /** A schema is in use exactly when its count is not zero, and then it is alive. */
  lemma UsedIff(st: State, m: Name)
    requires Inv(st)
    ensures (exists r :: IsRef(st, m, r)) <==> m in st.schemas && st.schemas[m].usage != 0
    ensures m in st.schemas && !st.schemas[m].alive ==> st.schemas[m].usage == 0
  {
    hide Exclusive, DsLocked;
    RefsAre(st, m);
    if m in st.schemas && st.schemas[m].usage != 0 {
      var r :| r in Refs(st, m);
      assert IsRef(st, m, r);
    }
    if r :| IsRef(st, m, r) {
      assert r in Refs(st, m);
    }
  }

  /** The module has data to lock, once it is loaded. */
  ghost predicate MayLock(schemas: map<Name, Schema>, m: Name, w: World) {
    if m in schemas then schemas[m].alive && schemas[m].lockable else w.loads(m) == Some(true)
  }

  /** Schemas that are new are what the world outside gives. */
  ghost predicate LoadedFrom(a: map<Name, Schema>, b: map<Name, Schema>, w: World) {
    && Grown(a, b)
    && forall m :: m in b && m !in a ==> w.loads(m).Some? && b[m].lockable == w.loads(m).value
  }

  lemma LoadedNothing(a: map<Name, Schema>, w: World)
    ensures LoadedFrom(a, a, w)
  {
  }

  lemma LoadedTwice(a: map<Name, Schema>, b: map<Name, Schema>, c: map<Name, Schema>, w: World)
    requires LoadedFrom(a, b, w) && LoadedFrom(b, c, w)
    ensures LoadedFrom(a, c, w)
  {
  }

  lemma KnownStill(a: map<Name, Schema>, b: map<Name, Schema>, m: Name, w: World)
    requires LoadedFrom(a, b, w)
    ensures Unknown(b, m, w) <==> Unknown(a, m, w)
    ensures MayLock(b, m, w) <==> MayLock(a, m, w)
  {
  }

  /** What the lock phase makes of one module: whoever of the two sessions has the lock, it passes;
      otherwise it must be free and granted. */
  ghost function CommitVerdict(st: State, c: Sid, s: Sid, f: File, w: World): Rc {
    if Unknown(st.schemas, f.m, w) then UnknownModel
    else if !MayLock(st.schemas, f.m, w) || f.ds == Candidate || HeldBy(st, c, f) || HeldBy(st, s, f) then Ok
    else if ThirdHas(st, c, s, f, w) then Locked
    else if w.access(f).Refused? then Unauthorized
    else if w.access(f).Broken? then Internal
    else Ok
  }

  /** Nothing stops the commit at the module. */
  ghost predicate Passes(st: State, c: Sid, s: Sid, m: Name, disabled: set<Name>, ds: Ds, w: World) {
    CommitVerdict(st, c, s, File(m, ds), w).Ok? && !(ds == Running && m in disabled)
  }

  /** The result is that of the first module that stops the commit, or success if none does. */
  ghost predicate Decided(st: State, c: Sid, s: Sid, modified: seq<Name>, disabled: set<Name>, ds: Ds, w: World, rc: Rc) {
    && (rc.Ok? <==> forall m :: m in modified ==> Passes(st, c, s, m, disabled, ds, w))
    && (!rc.Ok? ==> exists i :: StopsAt(st, c, s, modified, i, disabled, ds, w, rc))
  }

  ghost predicate StopsAt(st: State, c: Sid, s: Sid, modified: seq<Name>, i: nat, disabled: set<Name>, ds: Ds, w: World, rc: Rc) {
    && i < |modified| && (forall k :: 0 <= k < i ==> Passes(st, c, s, modified[k], disabled, ds, w))
    && !Passes(st, c, s, modified[i], disabled, ds, w)
    && rc == var v := CommitVerdict(st, c, s, File(modified[i], ds), w); if v.Ok? then OperationFailed else v
  }

  lemma DecidedAt(st: State, c: Sid, s: Sid, modified: seq<Name>, i: nat, disabled: set<Name>, ds: Ds, w: World, rc: Rc)
    requires StopsAt(st, c, s, modified, i, disabled, ds, w, rc)
    ensures Decided(st, c, s, modified, disabled, ds, w, rc)
  {
    hide CommitVerdict;
    assert modified[i] in modified;
  }

  lemma DecidedAll(st: State, c: Sid, s: Sid, modified: seq<Name>, disabled: set<Name>, ds: Ds, w: World)
    requires forall k :: 0 <= k < |modified| ==> Passes(st, c, s, modified[k], disabled, ds, w)
    ensures Decided(st, c, s, modified, disabled, ds, w, Ok)
  {
    hide Passes;
  }

  lemma LoadedSame(a: map<Name, Schema>, b: map<Name, Schema>, w: World)
    requires Grown(a, b) && a.Keys == b.Keys
    ensures LoadedFrom(a, b, w)
  {
  }

  ghost function FilesOf(names: seq<Name>, ds: Ds): set<File> {
    set m | m in names :: File(m, ds)
  }

  ghost function Watched(names: seq<Name>, watched: set<Name>): set<Name> {
    set m | m in names && m in watched
  }

  lemma NoFiles(ds: Ds, watched: set<Name>)
    ensures FilesOf([], ds) == {} && Watched([], watched) == {}
  {
  }

  lemma FilesNext(names: seq<Name>, i: nat, ds: Ds, watched: set<Name>)
    requires i < |names|
    ensures FilesOf(names[..i + 1], ds) == FilesOf(names[..i], ds) + {File(names[i], ds)}
    ensures Watched(names[..i + 1], watched) == Watched(names[..i], watched) + if names[i] in watched then {names[i]} else {}
  {
    assert names[..i + 1] == names[..i] + [names[i]];
  }

  lemma LoadedGrown(a: map<Name, Schema>, b: map<Name, Schema>, w: World)
    requires LoadedFrom(a, b, w)
    ensures Grown(a, b)
  {
  }

  /** A commit session that has just begun has nothing to do with the result. */
  lemma DecidedFrom(before: State, st: State, c: Sid, s: Sid, modified: seq<Name>, disabled: set<Name>, ds: Ds, w: World, rc: Rc)
    requires c !in before.sessions && st.schemas == before.schemas && c in st.sessions && st.sessions[c].locked == []
    requires st.sessions == before.sessions[c := st.sessions[c]] && Decided(st, c, s, modified, disabled, ds, w, rc)
    ensures Decided(before, c, s, modified, disabled, ds, w, rc)
  {
    hide CommitVerdict;
    forall m ensures Passes(st, c, s, m, disabled, ds, w) <==> Passes(before, c, s, m, disabled, ds, w)
      ensures CommitVerdict(st, c, s, File(m, ds), w) == CommitVerdict(before, c, s, File(m, ds), w)
    {
      SameVerdict(before, st, c, s, File(m, ds), w);
    }
    if !rc.Ok? {
      var i :| StopsAt(st, c, s, modified, i, disabled, ds, w, rc);
      assert StopsAt(before, c, s, modified, i, disabled, ds, w, rc);
    }
  }

  lemma SameVerdict(before: State, st: State, c: Sid, s: Sid, f: File, w: World)
    requires c !in before.sessions && st.schemas == before.schemas && c in st.sessions && st.sessions[c].locked == []
    requires st.sessions == before.sessions[c := st.sessions[c]]
    ensures CommitVerdict(st, c, s, f, w) == CommitVerdict(before, c, s, f, w)
  {
    forall t ensures HeldBy(st, t, f) <==> HeldBy(before, t, f) {
    }
  }

  /** Who passes the lock phase is locked by nobody else. */
  lemma NoThird(st: State, c: Sid, s: Sid, modified: seq<Name>, disabled: set<Name>, ds: Ds, w: World)
    requires Inv(st) && c !in st.sessions && Decided(st, c, s, modified, disabled, ds, w, Ok)
    ensures forall m :: m in modified && MayLock(st.schemas, m, w) && ds != Candidate ==>
              var f := File(m, ds); (forall t :: HeldBy(st, t, f) ==> t == s) && (HeldBy(st, s, f) || !w.access(f).Busy?)
  {
    hide Inv;
    forall m | m in modified && MayLock(st.schemas, m, w) && ds != Candidate
      ensures var f := File(m, ds); (forall t :: HeldBy(st, t, f) ==> t == s) && (HeldBy(st, s, f) || !w.access(f).Busy?)
    {
      assert Passes(st, c, s, m, disabled, ds, w);
      var f := File(m, ds);
      forall t | HeldBy(st, t, f) ensures t == s {
        if HeldBy(st, s, f) && t != s { HeldTwice(st, s, t, f); }
      }
    }
  }

  lemma KnownWhenLocked(st: State, c: Sid, s: Sid, modified: seq<Name>, w: World)
    requires forall m :: m in modified ==> OwnLock(st, c, s, m)
    ensures forall m :: m in modified ==> !Unknown(st.schemas, m, w)
  {
  }

  /** The locks that the commit session has taken by now change no verdict. */
  lemma VerdictAsBefore(before: State, st: State, c: Sid, s: Sid, done: seq<Name>, m: Name, disabled: set<Name>, ds: Ds, w: World)
    requires OnlyLocks(before.sessions, st.sessions, c) && c != s && LoadedFrom(before.schemas, st.schemas, w)
    requires Pending(st.sessions[c].locked, before.sessions[c].locked, done, ds)
    requires forall k :: 0 <= k < |done| ==> Passes(before, c, s, done[k], disabled, ds, w)
    requires m in done ==> OwnLock(st, c, s, m) && st.sessions[c].ds == ds
    ensures CommitVerdict(st, c, s, File(m, ds), w) == CommitVerdict(before, c, s, File(m, ds), w)
  {
    KnownStill(before.schemas, st.schemas, m, w);
    var f := File(m, ds);
    if m in done {
      assert Passes(before, c, s, m, disabled, ds, w);
    } else {
      assert HeldBy(st, c, f) <==> HeldBy(before, c, f);
      assert HeldBy(st, s, f) <==> HeldBy(before, s, f);
      ThirdSame(before, st, c, s, f, w);
    }
  }

  lemma ThirdSame(before: State, st: State, c: Sid, s: Sid, f: File, w: World)
    requires OnlyLocks(before.sessions, st.sessions, c)
    ensures ThirdHas(st, c, s, f, w) <==> ThirdHas(before, c, s, f, w)
  {
    forall t | t != c ensures HeldBy(st, t, f) <==> HeldBy(before, t, f) {
    }
  }

  /** Neither of the two sessions but a third one, or another process, has the lock. */
  ghost predicate ThirdHas(st: State, c: Sid, s: Sid, f: File, w: World) {
    w.access(f).Busy? || exists t :: t != c && t != s && HeldBy(st, t, f)
  }

  /** Someone else than c has the lock: s or a third one. */
  lemma ThirdKnown(st: State, c: Sid, s: Sid, f: File, w: World)
    ensures !HeldBy(st, c, f) && !HeldBy(st, s, f) ==> (ThirdHas(st, c, s, f, w) <==> Held(st, f) || w.access(f).Busy?)
    ensures HeldBy(st, s, f) ==> Held(st, f)
  {
    if t :| HeldBy(st, t, f) {
      assert HeldBy(st, t, f);
    }
  }

  /** The module is locked, if it can be, by the commit session or the session that commits, and
      by no third one. */
  ghost predicate OwnLock(st: State, c: Sid, s: Sid, m: Name) {
    c in st.sessions && m in st.schemas && st.schemas[m].alive
    && (CanLock(st.schemas, m) ==>
          var f := File(m, st.sessions[c].ds);
          (HeldBy(st, c, f) || HeldBy(st, s, f)) && (f.ds != Candidate ==> forall t :: HeldBy(st, t, f) ==> t == c || t == s))
  }

  lemma OwnLockStill(a: State, b: State, c: Sid, s: Sid, m: Name)
    requires OwnLock(a, c, s, m) && Inv(b) && Grown(a.schemas, b.schemas) && c != s && s in a.sessions
    requires OnlyLocks(a.sessions, b.sessions, c) && a.sessions[c].locked <= b.sessions[c].locked
    ensures OwnLock(b, c, s, m)
  {
    hide Counted, Alive, DsLocked;
  }

  lemma CanLockStill(a: map<Name, Schema>, b: map<Name, Schema>, m: Name)
    requires Grown(a, b) && CanLock(a, m)
    ensures CanLock(b, m)
  {
  }

  lemma PendingWider(l: seq<File>, base: seq<File>, names: seq<Name>, more: seq<Name>, ds: Ds)
    requires Pending(l, base, names, ds) && forall n :: n in names ==> n in more
    ensures Pending(l, base, more, ds)
  {
  }

  lemma PendingNames(l: seq<File>, names: seq<Name>, ds: Ds)
    requires Pending(l, [], names, ds)
    ensures forall f :: f in l ==> f.ds == ds && f.m in names
  {
  }

  lemma CommitStep(st: State, c: Sid, s: Sid, m: Name, now: State, rc: Rc)
    requires c in st.sessions && s in st.sessions && c != s && st.sessions[c].ds == st.sessions[s].ds && Inv(now)
    requires OnlyLocks(st.sessions, now.sessions, c)
    requires now.sessions[c].locked == st.sessions[c].locked || now.sessions[c].locked == st.sessions[c].locked + [File(m, st.sessions[c].ds)]
    requires rc.Ok? ==> m in now.schemas && now.schemas[m].alive
    requires rc.Ok? && CanLock(now.schemas, m) ==> HeldBy(now, c, File(m, st.sessions[c].ds)) || HeldBy(now, s, File(m, st.sessions[c].ds))
    ensures rc.Ok? ==> OwnLock(now, c, s, m)
  {
    hide Counted, Alive, DsLocked;
  }

  /** Once the commit session and the previous trees are gone, everything is as before. */
  lemma CommitOver(before: State, now: State, c: Sid)
    requires Inv(before) && Steady(now) && Grown(before.schemas, now.schemas)
    requires now.sessions == before.sessions && now.prev == before.prev
    ensures now.locking == before.locking && now.dsLock == before.dsLock
    ensures Counted(now) ==> Unchanged(before, now)
  {
    LocksDetermined(before, now);
    DsLocksDetermined(before, now);
    hide Steady, Counted;
    if Counted(now) { Restored(before, now); }
  }

  lemma GrownHas(a: map<Name, Schema>, b: map<Name, Schema>, m: Name)
    requires Grown(a, b) && m in a
    ensures m in b
  {
  }

  lemma CopyIsThere(st: State, s: Sid, f: File)
    requires s in st.sessions && f in st.sessions[s].copies
    ensures HasCopy(st, f.m)
  {
    assert File(f.m, f.ds) in st.sessions[s].copies;
  }

  // ---------------------------------------------------------------- locks given up by file name

  /** Every lock file leads back to its module. */
  ghost predicate AllRecoverable(l: seq<File>) {
    forall f :: f in l ==> Recoverable(f.m.text, f.ds)
  }

  lemma NoneToRecover(l: seq<File>)
    requires l == []
    ensures AllRecoverable(l)
  {
  }

  lemma NamesRecoverable(l: seq<File>, names: seq<Name>, ds: Ds)
    requires forall f :: f in l ==> f.ds == ds && f.m in names
    requires forall m :: m in names ==> Recoverable(m.text, ds)
    ensures AllRecoverable(l)
  {
    hide Recoverable;
  }

  /** What the release of the first lock does to the counts: that of `taken` goes down, which is the
      module itself exactly when its file leads back to it, and otherwise one with a shorter name. */
  ghost predicate Released(st: State, s: Sid, taken: Option<Name>, now: State)
    requires s in st.sessions && st.sessions[s].locked != []
  {
    var f := st.sessions[s].locked[0];
    && s in now.sessions && now.sessions == st.sessions[s := st.sessions[s].(locked := st.sessions[s].locked[1..])]
    && (taken == Some(f.m) <==> Recoverable(f.m.text, f.ds))
    && (taken.Some? && taken.value != f.m ==> |taken.value.text| < |f.m.text|)
    && (forall k :: k in st.schemas ==>
          k in now.schemas && Gap(now, k) == Gap(st, k) + (if f.m == k then 1 else 0) - (if taken == Some(k) then 1 else 0))
    && (taken == Some(f.m) && Counted(st) ==> Counted(now))
  }

  lemma ReleasedList(st: State, s: Sid, taken: Option<Name>, now: State)
    requires s in st.sessions && st.sessions[s].locked != [] && Released(st, s, taken, now)
    ensures now.sessions == st.sessions[s := st.sessions[s].(locked := st.sessions[s].locked[1..])]
  {
  }

  lemma FirstDroppedIs(st: State, s: Sid, now: State)
    requires s in st.sessions && st.sessions[s].locked != []
    requires now == State(now.schemas, if st.sessions[s].locked[0].ds == Candidate then st.locking else st.locking - {st.sessions[s].locked[0]},
                          st.dsLock, st.sessions[s := st.sessions[s].(locked := st.sessions[s].locked[1..])], st.prev)
    ensures now == FirstDropped(st, s, now.schemas)
  {
  }

  lemma ReleasedBy(st: State, s: Sid, taken: Option<Name>, schemas: map<Name, Schema>)
    requires Steady(st) && s in st.sessions && st.sessions[s].locked != []
    requires var f := st.sessions[s].locked[0];
      && f.m in st.schemas && (taken == Some(f.m) <==> Recoverable(f.m.text, f.ds))
      && (taken.Some? && taken.value != f.m ==> |taken.value.text| < |f.m.text|)
    requires forall k :: k in st.schemas ==> k in schemas && schemas[k].usage == st.schemas[k].usage - (if taken == Some(k) then 1 else 0)
    requires taken == Some(st.sessions[s].locked[0].m) ==> schemas == Counting(st.schemas, taken.value, -1)
    ensures Released(st, s, taken, FirstDropped(st, s, schemas))
  {
    hide Recoverable, Exclusive, Alive, DsLocked, Refs, IsRef, Counted, HeldBy, DsHeldBy, Distinct, Gap;
    var now, f := FirstDropped(st, s, schemas), st.sessions[s].locked[0];
    FirstDroppedRefs(st, s, schemas);
    forall k | k in st.schemas
      ensures k in now.schemas && Gap(now, k) == Gap(st, k) + (if f.m == k then 1 else 0) - (if taken == Some(k) then 1 else 0)
    {
      GapStep(st, s, schemas, k, taken);
    }
    if taken == Some(f.m) { CountedBoth(st, now, f.m, LockRef(s, f.ds)); }
  }

  lemma StillCounted(st: State, s: Sid, taken: Option<Name>, now: State)
    requires s in st.sessions && st.sessions[s].locked != [] && Released(st, s, taken, now)
    requires Counted(st) && AllRecoverable(st.sessions[s].locked)
    ensures Counted(now) && AllRecoverable(now.sessions[s].locked)
  {
    hide Counted, Recoverable, Gap;
    assert st.sessions[s].locked[0] in st.sessions[s].locked;
  }

  ghost predicate Lost(l: seq<File>, k: Name) {
    exists f :: f in l && f.m == k && !Recoverable(f.m.text, f.ds)
  }

  ghost predicate Longest(l: seq<File>, k: Name) {
    forall f :: f in l && !Recoverable(f.m.text, f.ds) ==> |f.m.text| <= |k.text|
  }

  /** The count of k is too high, or will be: no other lock file that is left leads to it. */
  ghost predicate Overcounted(st: State, s: Sid, k: Name) {
    && s in st.sessions && k in st.schemas && Gap(st, k) >= 0
    && (Gap(st, k) > 0 || Lost(st.sessions[s].locked, k)) && Longest(st.sessions[s].locked, k)
  }

  lemma StillOver(st: State, s: Sid, k: Name, taken: Option<Name>, now: State)
    requires s in st.sessions && st.sessions[s].locked != [] && Released(st, s, taken, now) && Overcounted(st, s, k)
    ensures Overcounted(now, s, k)
  {
    hide Counted, Recoverable, Gap;
    var l := st.sessions[s].locked;
    assert l[0] in l && l == [l[0]] + l[1..];
  }

  lemma OverAtEnd(st: State, s: Sid, k: Name)
    requires Overcounted(st, s, k) && st.sessions[s].locked == []
    ensures !Counted(st)
  {
    hide Recoverable;
    GapMeansCounted(st);
  }

  lemma {:induction false} LongestIn(l: seq<File>) returns (k: Name)
    requires !AllRecoverable(l)
    ensures Lost(l, k) && Longest(l, k)
  {
    hide Recoverable;
    var f, rest := l[0], l[1..];
    assert l == [f] + rest;
    if AllRecoverable(rest) {
      k := f.m;
    } else {
      k := LongestIn(rest);
      if !Recoverable(f.m.text, f.ds) && |f.m.text| > |k.text| { k := f.m; }
    }
  }

  /** A lock that does not lead back to its module, the name as long as can be. */
  lemma LongestOver(st: State, s: Sid) returns (k: Name)
    requires Inv(st) && s in st.sessions && !AllRecoverable(st.sessions[s].locked)
    ensures Overcounted(st, s, k)
  {
    hide Recoverable, AllRecoverable;
    k := LongestIn(st.sessions[s].locked);
    var f :| f in st.sessions[s].locked && f.m == k && !Recoverable(f.m.text, f.ds);
    assert HeldBy(st, s, f);
    HeldIsAlive(st, s, f);
    GapMeansCounted(st);
  }

  /** Only a session that ended referred to m, and another got a read-only copy: nothing refers to m. */
  lemma NoRefsLeft(st0: State, st1: State, st2: State, c: Sid, s: Sid, m: Name)
    requires c != s && s in st0.sessions && st2.sessions == st1.sessions - {c} && st2.prev == st1.prev && st1.prev == st0.prev
    requires st1.sessions == WithCopyOf(st0.sessions, s, File(m, st0.sessions[s].ds), true)
    requires forall r :: IsRef(st0, m, r) ==> !r.PrevRef? && r.s == c
    ensures forall r :: !IsRef(st2, m, r)
  {
    forall r ensures !IsRef(st2, m, r) {
      if IsRef(st2, m, r) {
        assert r.CopyRef? && r.s == s ==> r.ds != st0.sessions[s].ds;
        assert IsRef(st0, m, r);
      }
    }
  }
}
