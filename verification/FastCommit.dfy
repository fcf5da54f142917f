/** The optimistic commit: a session copy whose time stamp still matches is used as it is, any other
    is reloaded and the operations of the session are replayed (src/data_manager.c,
    src/rp_dt_edit.c). */
module FastCommit {
  import opened DepGraph
  import opened LockFiles

  // ---------------------------------------------------------------- time stamps

  datatype Time = Time(sec: int, nsec: int) {
    predicate Before(other: Time) {
      sec < other.sec || (sec == other.sec && nsec < other.nsec)
    }

    predicate NotAfter(other: Time) {
      this == other || Before(other)
    }
  }

  const NANOSEC_THRESHOLD := 10000000

  /** `dm_is_info_copy_uptodate`: the stamp of the copy against the file, the present and the last
      commit (3676-3687). */
  predicate UpToDate(stamp: Time, mtime: Time, now: Time, lastCommit: Time) {
    !(|| stamp.sec != mtime.sec
      || stamp.nsec != mtime.nsec
      || (now.sec == mtime.sec && now.nsec - mtime.nsec < NANOSEC_THRESHOLD)
      || stamp.sec < lastCommit.sec
      || (stamp.sec == lastCommit.sec && stamp.nsec <= lastCommit.nsec)
      || stamp.nsec == 0)
  }

  /** Up to date means: the stamp of the file, later than the last commit, at a time fine enough to
      tell writes apart, and not so recent that another write could have got the same. */
  lemma UpToDateMeans(stamp: Time, mtime: Time, now: Time, lastCommit: Time)
    ensures UpToDate(stamp, mtime, now, lastCommit) <==>
            && stamp == mtime && lastCommit.Before(stamp) && stamp.nsec != 0
            && (now.sec == mtime.sec ==> mtime.nsec + NANOSEC_THRESHOLD <= now.nsec)
  {
  }

  // ---------------------------------------------------------------- operations

  /** An operation of the session log: where, what, and whether it failed already. */
  datatype Op<E> = Op(xpath: string, edit: E, failed: bool)

  /** `strchr(xpath, ':')`. */
  function Colon(x: string): (r: Option<nat>)
    ensures r.Some? ==> r.value < |x| && x[r.value] == ':' && ':' !in x[..r.value]
    ensures r.None? ==> ':' !in x
  {
    if x == "" then None
    else if x[0] == ':' then Some(0)
    else
      var rest := Colon(x[1..]);
      assert x == [x[0]] + x[1..];
      if rest.None? then None else
        assert x[..rest.value + 1] == [x[0]] + x[1..][..rest.value];
        Some(rest.value + 1)
  }

  /** `sr_cmp_first_ns(xpath, ns) == 0`: the first namespace of the path, compared over its own
      length. */
  predicate MatchesNs(xpath: string, ns: string) {
    if xpath == "" || xpath[0] != '/' then true
    else
      var c := Colon(xpath);
      c.None? || xpath[1..c.value] <= ns
  }

  /** A path into the named module. */
  predicate InModule(xpath: string, m: Name) {
    |xpath| > |m.text| + 1 && xpath[0] == '/' && xpath[1..|m.text| + 1] == m.text && xpath[|m.text| + 1] == ':' && ':' !in m.text
  }

  lemma {:induction false} ColonAt(x: string, n: nat)
    requires n < |x| && x[n] == ':' && ':' !in x[..n]
    ensures Colon(x) == Some(n)
  {
    if n > 0 {
      assert x[..n] == [x[0]] + x[1..][..n - 1];
      ColonAt(x[1..], n - 1);
    }
  }

  /** The comparison holds for every name that begins with the name of the module. */
  lemma MatchesByPrefix(xpath: string, m: Name, ns: string)
    requires InModule(xpath, m)
    ensures MatchesNs(xpath, ns) <==> m.text <= ns
  {
    var n := |m.text| + 1;
    assert xpath[..n] == "/" + xpath[1..n];
    ColonAt(xpath, n);
  }

  /** An operation on module "if" is taken for one on module "if-mib". */
  lemma PrefixMatches()
    ensures InModule("/if:x", Name("if")) && MatchesNs("/if:x", "if-mib")
  {
    var xpath, m := "/if:x", Name("if");
    assert xpath[1..3] == "if" && "if-mib"[..2] == "if";
    MatchesByPrefix(xpath, m, "if-mib");
  }

  lemma OneModule(xpath: string, m: Name, n: Name)
    requires InModule(xpath, m) && InModule(xpath, n)
    ensures m == n
  {
    MatchesByPrefix(xpath, m, n.text);
    MatchesByPrefix(xpath, n, m.text);
    MatchesByPrefix(xpath, m, m.text);
    MatchesByPrefix(xpath, n, n.text);
  }

  /** All operations of the log on module m that have not failed, on a tree. */
  function Replay<T, E>(apply: (E, T) -> Option<T>, ops: seq<Op<E>>, m: Name, t: T): Option<T> {
    if ops == [] then Some(t)
    else
      var before := Replay(apply, ops[..|ops| - 1], m, t);
      var op := ops[|ops| - 1];
      if before.Some? && !op.failed && InModule(op.xpath, m) then apply(op.edit, before.value) else before
  }

  /** One more operation of the log. */
  lemma ReplayNext<T, E>(apply: (E, T) -> Option<T>, ops: seq<Op<E>>, i: nat, m: Name, t: T)
    requires i < |ops|
    ensures Replay(apply, ops[..i + 1], m, t) ==
            var before := Replay(apply, ops[..i], m, t);
            if before.Some? && !ops[i].failed && InModule(ops[i].xpath, m) then apply(ops[i].edit, before.value) else before
  {
    assert ops[..i + 1][..i] == ops[..i];
  }

  /** A replay that fails stays failed. */
  lemma {:induction false} ReplayFailed<T, E>(apply: (E, T) -> Option<T>, ops: seq<Op<E>>, i: nat, m: Name, t: T)
    requires i <= |ops| && Replay(apply, ops[..i], m, t).None?
    ensures Replay(apply, ops, m, t).None?
    decreases |ops| - i
  {
    if i < |ops| {
      ReplayNext(apply, ops, i, m, t);
      ReplayFailed(apply, ops, i + 1, m, t);
    } else {
      assert ops[..i] == ops;
    }
  }

  // ---------------------------------------------------------------- files and session copies

  datatype DataFile<T> = DataFile(content: T, mtime: Time)

  datatype Copy<T> = Copy(tree: T, stamp: Time, modified: bool)

  datatype Key = Key(s: nat, m: Name)

  ghost predicate Timely<T>(files: map<Name, DataFile<T>>, clock: Time) {
    forall m :: m in files ==> files[m].mtime.NotAfter(clock)
  }

  /** A copy is not newer than its file, and with the same stamp after the last commit it was loaded
      from what the file still holds; a copy of a missing file has no stamp. */
  ghost predicate Fresh<T(!new)>(files: map<Name, DataFile<T>>, clock: Time, lastCommit: Time, m: Name, stamp: Time, base: T) {
    stamp.nsec != 0 ==>
      && stamp.NotAfter(clock) && m in files && stamp.NotAfter(files[m].mtime)
      && (files[m].mtime == stamp && lastCommit.Before(stamp) ==> files[m].content == base)
  }

  ghost predicate AllFresh<T(!new)>(files: map<Name, DataFile<T>>, clock: Time, lastCommit: Time, copies: map<Key, Copy<T>>, loaded: map<Key, T>) {
    copies.Keys == loaded.Keys && forall k :: k in copies ==> Fresh(files, clock, lastCommit, k.m, copies[k].stamp, loaded[k])
  }

  function LogOf<E>(logs: map<nat, seq<Op<E>>>, s: nat): seq<Op<E>> {
    if s in logs then logs[s] else []
  }

  /** The operation is on a module that the session has a modified copy of. */
  ghost predicate Recorded<T, E>(copies: map<Key, Copy<T>>, s: nat, op: Op<E>) {
    exists m :: InModule(op.xpath, m) && Key(s, m) in copies && copies[Key(s, m)].modified
  }

  /** The tree of every copy is what the log of its session makes of the tree loaded. */
  ghost predicate Consistent<T(!new), E(!new)>(apply: (E, T) -> Option<T>, logs: map<nat, seq<Op<E>>>, copies: map<Key, Copy<T>>, loaded: map<Key, T>) {
    && copies.Keys == loaded.Keys
    && (forall k :: k in copies ==> Replay(apply, LogOf(logs, k.s), k.m, loaded[k]) == Some(copies[k].tree))
    && (forall s, op :: op in LogOf(logs, s) ==> Recorded(copies, s, op))
  }

  /** A name of the list begins with the name of the module. */
  predicate Shadowed(m: Name, skip: seq<Name>) {
    exists i :: 0 <= i < |skip| && m.text <= skip[i].text
  }

  class Engine<T(!new), E(!new)> {
    const apply: (E, T) -> Option<T>
    const empty: T
    var files: map<Name, DataFile<T>>
    var clock: Time
    var lastCommit: Time
    var copies: map<Key, Copy<T>>
    var logs: map<nat, seq<Op<E>>>
    /** What the copies were loaded with. */
    ghost var loaded: map<Key, T>

    constructor (apply: (E, T) -> Option<T>, empty: T, files: map<Name, DataFile<T>>, clock: Time)
      requires Timely(files, clock)
      ensures Valid() && this.apply == apply && this.empty == empty && this.files == files
    {
      this.apply, this.empty, this.files, this.clock, lastCommit := apply, empty, files, clock, Time(0, 0);
      copies, logs, loaded := map[], map[], map[];
    }

    /** What the file of a module holds. */
    ghost function Content(m: Name): T
      reads this
    {
      if m in files then files[m].content else empty
    }

    ghost predicate Valid()
      reads this
    {
      && Timely(files, clock) && AllFresh(files, clock, lastCommit, copies, loaded) && Consistent(apply, logs, copies, loaded)
    }

    /** Time passes. */
    method Tick(now: Time)
      requires Valid() && clock.NotAfter(now)
      modifies `clock
      ensures Valid() && clock == now
    {
      hide Consistent;
      clock := now;
    }

    /** Someone other than a commit of this engine writes a data file: the time of the file moves
        on. */
    method ExternalWrite(m: Name, content: T, mtime: Time)
      requires Valid() && mtime.NotAfter(clock) && (m in files ==> files[m].mtime.Before(mtime))
      modifies `files
      ensures Valid() && files == old(files)[m := DataFile(content, mtime)]
    {
      hide Consistent;
      files := files[m := DataFile(content, mtime)];
    }

    /** A session loads a data tree, with the time of its file (1391-1400). */
    method Load(s: nat, m: Name)
      requires Valid() && Key(s, m) !in copies
      modifies `copies, `loaded
      ensures Valid()
      ensures copies == old(copies)[Key(s, m) := if m in files then Copy(files[m].content, files[m].mtime, false) else Copy(empty, Time(0, 0), false)]
    {
      hide Consistent;
      var copy := if m in files then Copy(files[m].content, files[m].mtime, false) else Copy(empty, Time(0, 0), false);
      LoadConsistent(apply, logs, copies, loaded, Key(s, m), copy);
      copies := copies[Key(s, m) := copy];
      loaded := loaded[Key(s, m) := copy.tree];
    }

    /** A session edits its copy; an operation that fails leaves no trace. */
    method Edit(s: nat, m: Name, xpath: string, edit: E) returns (ok: bool)
      requires Valid() && Key(s, m) in copies && InModule(xpath, m)
      modifies `copies, `logs
      ensures Valid()
      ensures ok <==> apply(edit, old(copies)[Key(s, m)].tree).Some?
      ensures ok ==> var k := Key(s, m);
        && copies == old(copies)[k := Copy(apply(edit, old(copies)[k].tree).value, old(copies)[k].stamp, true)]
        && logs == old(logs)[s := LogOf(old(logs), s) + [Op(xpath, edit, false)]]
      ensures !ok ==> copies == old(copies) && logs == old(logs)
    {
      hide Consistent, InModule, Fresh;
      var k := Key(s, m);
      var tree := apply(edit, copies[k].tree);
      ok := tree.Some?;
      if ok {
        EditConsistent(apply, logs, copies, loaded, k, Op(xpath, edit, false), tree.value);
        logs := logs[s := LogOf(logs, s) + [Op(xpath, edit, false)]];
        copies := copies[k := Copy(tree.value, copies[k].stamp, true)];
      }
    }

    /** A copy found up to date was loaded from what its file holds now. */
    lemma FreshMeans(k: Key, now: Time)
      requires Valid() && k in copies && k.m in files && UpToDate(copies[k].stamp, files[k.m].mtime, now, lastCommit)
      ensures files[k.m].content == loaded[k]
    {
      hide Consistent;
      UpToDateMeans(copies[k].stamp, files[k.m].mtime, now, lastCommit);
    }

    /** Reload and replay of everything: what a commit should make of the file of m. */
    ghost function Ideal(s: nat, m: Name): Option<T>
      reads this
    {
      Replay(apply, LogOf(logs, s), m, Content(m))
    }

    ghost predicate UpToDateCopy(k: Key, now: Time)
      reads this
    {
      k in copies && k.m in files && UpToDate(copies[k].stamp, files[k.m].mtime, now, lastCommit)
    }

    /** The session tree is used as it is: it is up to date, or taken to be (`force_copy_uptodate`, for
        the commit behind a copy of a datastore). */
    ghost predicate TakenAsIs(k: Key, now: Time, force: bool)
      reads this
    {
      force || UpToDateCopy(k, now)
    }

    /** The load loop of a commit (4400-4442): for each modified module in the list, the session tree
        if it is taken as it is and the content of the file otherwise. */
    method LoadModified(s: nat, list: seq<Name>, now: Time, force: bool) returns (trees: map<Name, T>, skip: seq<Name>)
      requires Valid() && forall m :: m in list <==> Key(s, m) in copies
      ensures forall m :: m in trees <==> m in list && copies[Key(s, m)].modified
      ensures forall m :: m in skip <==> m in trees && TakenAsIs(Key(s, m), now, force)
      ensures forall m :: m in trees ==>
                trees[m] == if TakenAsIs(Key(s, m), now, force) then copies[Key(s, m)].tree else if m in files then files[m].content else empty
    {
      hide Consistent, AllFresh, UpToDate;
      trees, skip := map[], [];
      var i := 0;
      while i < |list|
        invariant 0 <= i <= |list|
        invariant forall m :: m in trees <==> m in list[..i] && copies[Key(s, m)].modified
        invariant forall m :: m in skip <==> m in trees && TakenAsIs(Key(s, m), now, force)
        invariant forall m :: m in trees ==> trees[m] == if TakenAsIs(Key(s, m), now, force) then copies[Key(s, m)].tree else Content(m)
      {
        var m := list[i];
        assert list[..i + 1] == list[..i] + [m];
        if copies[Key(s, m)].modified {
          if force || (m in files && UpToDate(copies[Key(s, m)].stamp, files[m].mtime, now, lastCommit)) {
            skip := skip + [m];
            trees := trees[m := copies[Key(s, m)].tree];
          } else {
            trees := trees[m := if m in files then files[m].content else empty];
          }
        }
        i := i + 1;
      }
      assert list[..i] == list;
    }

    /** `rp_dt_replay_operations` (rp_dt_edit.c:639-691) on the trees of a commit: an operation whose
        first namespace matches an up-to-date module is skipped. */
    method ReplayLog(s: nat, trees: map<Name, T>, skip: seq<Name>) returns (ok: bool, r: map<Name, T>)
      requires Valid() && forall m :: Key(s, m) in copies && copies[Key(s, m)].modified ==> m in trees
      ensures ok ==> r.Keys == trees.Keys && forall m :: m in trees ==>
                if Shadowed(m, skip) then r[m] == trees[m] else Replay(apply, LogOf(logs, s), m, trees[m]) == Some(r[m])
      ensures !ok ==> exists m :: m in trees && !Shadowed(m, skip) && Replay(apply, LogOf(logs, s), m, trees[m]).None?
    {
      hide Consistent, AllFresh, Shadowed, InModule, Replay, MatchesNs;
      var ops := LogOf(logs, s);
      r := trees;
      var i := 0;
      forall m | m in trees ensures Replay(apply, ops[..0], m, trees[m]) == Some(trees[m]) {
        ReplayNothing(apply, ops[..0], m, trees[m]);
      }
      while i < |ops|
        invariant 0 <= i <= |ops| && r.Keys == trees.Keys
        invariant forall m :: m in trees ==>
                    if Shadowed(m, skip) then r[m] == trees[m] else Replay(apply, ops[..i], m, trees[m]) == Some(r[m])
      {
        var op := ops[i];
        forall m | m in trees
          ensures Replay(apply, ops[..i + 1], m, trees[m]) ==
                  var before := Replay(apply, ops[..i], m, trees[m]);
                  if before.Some? && !op.failed && InModule(op.xpath, m) then apply(op.edit, before.value) else before
        {
          ReplayNext(apply, ops, i, m, trees[m]);
        }
        if !op.failed {
          var m := ModuleOfOp(s, op);
          var match_ := Skipped(op.xpath, m, skip);
          if !match_ {
            var t := apply(op.edit, r[m]);
            if t.None? {
              ReplayFailed(apply, ops, i + 1, m, trees[m]);
              return false, r;
            }
            r := r[m := t.value];
          }
          forall n | n in trees && n != m ensures !InModule(op.xpath, n) {
            if InModule(op.xpath, n) { OneModule(op.xpath, m, n); }
          }
        }
        i := i + 1;
      }
      assert ops[..i] == ops;
      ok := true;
    }

    /** The module of an operation of the log, by the first namespace of its path. */
    method ModuleOfOp(s: nat, op: Op<E>) returns (m: Name)
      requires Consistent(apply, logs, copies, loaded) && op in LogOf(logs, s)
      ensures InModule(op.xpath, m) && Key(s, m) in copies && copies[Key(s, m)].modified
    {
      assert Recorded(copies, s, op);
      ghost var n :| InModule(op.xpath, n) && Key(s, n) in copies && copies[Key(s, n)].modified;
      MatchesByPrefix(op.xpath, n, n.text);
      ModuleColon(op.xpath, n);
      m := Name(op.xpath[1..Colon(op.xpath).value]);
    }

    /** The trees that a commit of the session writes: those of a full reload and replay exactly for
        modules that are up to date, or that no module taken as it is shadows, or that the log does
        not change.  When forced, the session trees are written whatever the files hold. */
    method PrepareTrees(s: nat, list: seq<Name>, now: Time, force: bool) returns (ok: bool, r: map<Name, T>, skip: seq<Name>)
      requires Valid() && forall m :: m in list <==> Key(s, m) in copies
      ensures forall m :: m in skip <==>
                && Key(s, m) in copies && copies[Key(s, m)].modified
                && (force || (m in files && UpToDate(copies[Key(s, m)].stamp, files[m].mtime, now, lastCommit)))
      ensures ok ==> forall m :: m in r <==> Key(s, m) in copies && copies[Key(s, m)].modified
      ensures ok && !force ==> forall m :: m in r ==>
                var held := if m in files then files[m].content else empty;
                var due := Replay(apply, LogOf(logs, s), m, held);
                due == Some(r[m]) <==> m in skip || !Shadowed(m, skip) || due == Some(held)
      // an operation that is skipped though its module is not up to date is lost
      ensures ok && !force ==> forall m :: m in r && m !in skip && Shadowed(m, skip) ==> r[m] == if m in files then files[m].content else empty
      ensures ok ==> forall m :: m in r && m in skip ==> r[m] == copies[Key(s, m)].tree
      ensures force ==> ok && forall m :: m in r ==> r[m] == copies[Key(s, m)].tree
      ensures !ok ==> exists m :: Key(s, m) in copies && copies[Key(s, m)].modified && !Shadowed(m, skip) && Ideal(s, m).None?
    {
      hide AllFresh, Shadowed, InModule, Replay, UpToDate, Recorded;
      var trees;
      trees, skip := LoadModified(s, list, now, force);
      forall m | m in skip ensures Shadowed(m, skip) {
        SelfShadowed(m, skip);
      }
      ok, r := ReplayLog(s, trees, skip);
      if ok && !force {
        forall m | m in skip ensures Ideal(s, m) == Some(r[m]) {
          FreshMeans(Key(s, m), now);
        }
      }
    }

    /** `dm_commit_write_files` (4525-4594): the trees go to their files, one by one, and the time of
        the last commit is saved after that.  `times` are the times the files get. */
    method WriteFiles(trees: map<Name, T>, list: seq<Name>, times: map<Name, Time>, end: Time)
      requires Valid() && clock.NotAfter(end) && trees.Keys == times.Keys && forall m :: m in list <==> m in trees
      requires forall m :: m in trees ==> times[m].NotAfter(end) && (m in files ==> files[m].mtime.NotAfter(times[m]))
      modifies `files, `clock, `lastCommit
      ensures Valid() && lastCommit == clock == end
      ensures files.Keys == old(files.Keys) + trees.Keys
      ensures forall m :: m in files ==> files[m] == if m in trees then DataFile(trees[m], times[m]) else old(files)[m]
      ensures forall k, now :: k in copies && k.m in trees ==> !UpToDateCopy(k, now)
      // nor will be a copy loaded from these files later on
      ensures forall m, now :: m in trees ==> !UpToDate(files[m].mtime, files[m].mtime, now, lastCommit)
    {
      hide Consistent, AllFresh;
      var i := 0;
      while i < |list|
        invariant 0 <= i <= |list| && clock == old(clock) && lastCommit == old(lastCommit)
        invariant files.Keys == old(files.Keys) + (set m | m in list[..i])
        invariant forall m :: m in files ==> files[m] == if m in list[..i] then DataFile(trees[m], times[m]) else old(files)[m]
      {
        assert list[..i + 1] == list[..i] + [list[i]];
        files := files[list[i] := DataFile(trees[list[i]], times[list[i]])];
        i := i + 1;
      }
      assert list[..i] == list;
      CommitFresh(old(files), files, clock, lastCommit, end, copies, loaded);
      clock := end;
      lastCommit := end;
    }

    /** `dm_discard_changes` for a whole session (3593-3602): copies and log go. */
    method Discard(s: nat)
      requires Valid()
      modifies `copies, `logs, `loaded
      ensures Valid() && LogOf(logs, s) == []
      ensures copies == map k | k in old(copies) && k.s != s :: old(copies)[k]
      ensures forall t :: t != s ==> LogOf(logs, t) == LogOf(old(logs), t)
    {
      hide Consistent;
      DiscardConsistent(apply, logs, copies, loaded, s);
      loaded := map k | k in loaded && k.s != s :: loaded[k];
      copies := map k | k in copies && k.s != s :: copies[k];
      logs := logs - {s};
    }

    /** A commit that nothing stops (rp_dt_edit.c:844-1000): the trees are prepared and written, and
        the session starts afresh.  Without a modified module nothing is written (845-853).  A replay
        that fails leaves everything as it was. */
    method Commit(s: nat, list: seq<Name>, now: Time, force: bool, modified: seq<Name>, times: map<Name, Time>, end: Time)
      returns (ok: bool, skip: seq<Name>)
      requires Valid() && (forall m :: m in list <==> Key(s, m) in copies) && clock.NotAfter(end)
      requires forall m :: m in modified <==> Key(s, m) in copies && copies[Key(s, m)].modified
      requires forall m :: m in times <==> m in modified
      requires forall m :: m in times ==> times[m].NotAfter(end) && (m in files ==> files[m].mtime.NotAfter(times[m]))
      modifies this
      ensures Valid() && (!ok ==> files == old(files) && copies == old(copies) && logs == old(logs))
      ensures lastCommit == (if ok && modified != [] then end else old(lastCommit)) && clock == (if ok && modified != [] then end else old(clock))
      ensures forall m :: m in skip <==>
                m in modified && (force || (m in old(files) && UpToDate(old(copies)[Key(s, m)].stamp, old(files)[m].mtime, now, old(lastCommit))))
      ensures ok ==> files.Keys == old(files.Keys) + times.Keys && forall m :: m in old(files) && m !in times ==> files[m] == old(files)[m]
      ensures ok && !force ==> forall m :: m in modified ==>
                var held := if m in old(files) then old(files)[m].content else empty;
                var due := Replay(apply, LogOf(old(logs), s), m, held);
                due == Some(files[m].content) <==> m in skip || !Shadowed(m, skip) || due == Some(held)
      ensures force ==> ok && forall m :: m in modified ==> files[m].content == old(copies)[Key(s, m)].tree
      ensures ok && !force ==> forall m :: m in modified && m !in skip && Shadowed(m, skip) ==>
                files[m].content == if m in old(files) then old(files)[m].content else empty
      ensures ok ==> forall m :: m in modified ==> files[m].mtime == times[m]
      ensures !ok ==> !force && exists m :: m in modified && !Shadowed(m, skip) && old(Ideal(s, m)).None?
      ensures ok ==> LogOf(logs, s) == [] && forall t :: t != s ==> LogOf(logs, t) == LogOf(old(logs), t)
      ensures ok ==> copies == map k | k in old(copies) && k.s != s :: old(copies)[k]
      ensures ok ==> forall k, t :: k in copies && k.m in modified ==> !UpToDateCopy(k, t)
    {
      hide AllFresh, Consistent, Shadowed, InModule, Replay, UpToDate;
      if modified == [] {
        Discard(s);
        return true, [];
      }
      var r;
      ok, r, skip := PrepareTrees(s, list, now, force);
      if ok {
        assert r.Keys == times.Keys;
        WriteFiles(r, modified, times, end);
        label written:
        Discard(s);
        forall k, t | k in copies && k.m in modified ensures !UpToDateCopy(k, t) {
          assert !old@written(UpToDateCopy(k, t));
        }
      }
    }
  }

  lemma DiscardConsistent<T(!new), E(!new)>(apply: (E, T) -> Option<T>, logs: map<nat, seq<Op<E>>>, copies: map<Key, Copy<T>>, loaded: map<Key, T>, s: nat)
    requires Consistent(apply, logs, copies, loaded)
    ensures Consistent(apply, logs - {s}, map k | k in copies && k.s != s :: copies[k], map k | k in loaded && k.s != s :: loaded[k])
  {
    hide Replay, InModule;
    var logs', copies' := logs - {s}, map k | k in copies && k.s != s :: copies[k];
    forall t, op | op in LogOf(logs', t) ensures Recorded(copies', t, op) {
      assert op in LogOf(logs, t) && Recorded(copies, t, op);
      var m :| InModule(op.xpath, m) && Key(t, m) in copies && copies[Key(t, m)].modified;
      assert Key(t, m) in copies';
    }
  }

  /** After a commit no copy can be newer than it, so none is taken to be up to date. */
  lemma CommitFresh<T(!new)>(before: map<Name, DataFile<T>>, files: map<Name, DataFile<T>>, clock: Time, lastCommit: Time, end: Time,
                             copies: map<Key, Copy<T>>, loaded: map<Key, T>)
    requires AllFresh(before, clock, lastCommit, copies, loaded) && clock.NotAfter(end)
    requires forall m :: m in before ==> m in files && before[m].mtime.NotAfter(files[m].mtime)
    ensures AllFresh(files, end, end, copies, loaded)
  {
  }

  lemma ModuleColon(xpath: string, m: Name)
    requires InModule(xpath, m)
    ensures Colon(xpath) == Some(|m.text| + 1) && xpath[1..|m.text| + 1] == m.text
  {
    var n := |m.text| + 1;
    assert xpath[..n] == "/" + xpath[1..n];
    ColonAt(xpath, n);
  }

  /** The test against the models to skip. */
  method Skipped(xpath: string, ghost m: Name, skip: seq<Name>) returns (r: bool)
    requires InModule(xpath, m)
    ensures r <==> Shadowed(m, skip)
  {
    var i := 0;
    while i < |skip|
      invariant 0 <= i <= |skip|
      invariant forall k :: 0 <= k < i ==> !(m.text <= skip[k].text)
    {
      MatchesByPrefix(xpath, m, skip[i].text);
      if MatchesNs(xpath, skip[i].text) {
        return true;
      }
      i := i + 1;
    }
    r := false;
  }

  lemma SelfShadowed(m: Name, skip: seq<Name>)
    requires m in skip
    ensures Shadowed(m, skip)
  {
    var i :| 0 <= i < |skip| && skip[i] == m;
  }

  lemma NotRecorded<T, E>(copies: map<Key, Copy<T>>, s: nat, m: Name, op: Op<E>)
    requires Recorded(copies, s, op) && Key(s, m) !in copies
    ensures !InModule(op.xpath, m)
  {
    var n :| InModule(op.xpath, n) && Key(s, n) in copies && copies[Key(s, n)].modified;
    if InModule(op.xpath, m) { OneModule(op.xpath, m, n); }
  }

  lemma {:induction false} ReplayNothing<T, E>(apply: (E, T) -> Option<T>, ops: seq<Op<E>>, m: Name, t: T)
    requires forall op :: op in ops ==> op.failed || !InModule(op.xpath, m)
    ensures Replay(apply, ops, m, t) == Some(t)
  {
    if ops != [] { ReplayNothing(apply, ops[..|ops| - 1], m, t); }
  }

  lemma LoadConsistent<T(!new), E(!new)>(apply: (E, T) -> Option<T>, logs: map<nat, seq<Op<E>>>, copies: map<Key, Copy<T>>, loaded: map<Key, T>,
                                         k: Key, copy: Copy<T>)
    requires Consistent(apply, logs, copies, loaded) && k !in copies
    ensures Consistent(apply, logs, copies[k := copy], loaded[k := copy.tree])
  {
    hide Replay, InModule;
    forall op | op in LogOf(logs, k.s) ensures !InModule(op.xpath, k.m) {
      NotRecorded(copies, k.s, k.m, op);
    }
    ReplayNothing(apply, LogOf(logs, k.s), k.m, copy.tree);
    forall s, op | op in LogOf(logs, s) ensures Recorded(copies[k := copy], s, op) {
      RecordedStill(copies, copies[k := copy], s, op);
    }
  }

  lemma RecordedStill<T, E>(copies: map<Key, Copy<T>>, copies': map<Key, Copy<T>>, s: nat, op: Op<E>)
    requires Recorded(copies, s, op)
    requires forall k :: k in copies && copies[k].modified ==> k in copies' && copies'[k].modified
    ensures Recorded(copies', s, op)
  {
    var m :| InModule(op.xpath, m) && Key(s, m) in copies && copies[Key(s, m)].modified;
    assert Key(s, m) in copies';
  }

  lemma ReplayAppend<T, E>(apply: (E, T) -> Option<T>, ops: seq<Op<E>>, op: Op<E>, m: Name, t: T)
    ensures Replay(apply, ops + [op], m, t) ==
            var before := Replay(apply, ops, m, t);
            if before.Some? && !op.failed && InModule(op.xpath, m) then apply(op.edit, before.value) else before
  {
    assert (ops + [op])[..|ops|] == ops;
  }

  lemma EditConsistent<T(!new), E(!new)>(apply: (E, T) -> Option<T>, logs: map<nat, seq<Op<E>>>, copies: map<Key, Copy<T>>, loaded: map<Key, T>,
                                         k: Key, op: Op<E>, tree: T)
    requires Consistent(apply, logs, copies, loaded) && k in copies && InModule(op.xpath, k.m) && !op.failed
    requires apply(op.edit, copies[k].tree) == Some(tree)
    ensures Consistent(apply, logs[k.s := LogOf(logs, k.s) + [op]], copies[k := Copy(tree, copies[k].stamp, true)], loaded)
  {
    hide Replay, InModule;
    var ops, logs', copies' := LogOf(logs, k.s), logs[k.s := LogOf(logs, k.s) + [op]], copies[k := Copy(tree, copies[k].stamp, true)];
    forall j | j in copies' ensures Replay(apply, LogOf(logs', j.s), j.m, loaded[j]) == Some(copies'[j].tree) {
      if j.s == k.s {
        ReplayAppend(apply, ops, op, j.m, loaded[j]);
        if InModule(op.xpath, j.m) { OneModule(op.xpath, j.m, k.m); }
      }
    }
    forall s, o | o in LogOf(logs', s) ensures Recorded(copies', s, o) {
      if s == k.s && o !in ops {
        assert Key(s, k.m) in copies' && copies'[Key(s, k.m)].modified;
      } else {
        RecordedStill(copies, copies', s, o);
      }
    }
  }
}
