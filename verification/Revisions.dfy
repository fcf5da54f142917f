/** Revisions of modules: the "latest revision" flag, and the search that accepts a missing
    revision (src/module_dependencies.c). */
module Revisions {
  import opened DepGraph

  // ---------------------------------------------------------------- strcmp

  /** `strcmp`, as the sign of its result. */
  function StrCmp(a: string, b: string): (r: int)
    ensures -1 <= r <= 1
    ensures r == 0 <==> a == b
  {
    if a == [] || b == [] then (if a != [] then 1 else if b != [] then -1 else 0)
    else if a[0] < b[0] then -1
    else if a[0] > b[0] then 1
    else
      assert a == [a[0]] + a[1..] && b == [b[0]] + b[1..];
      StrCmp(a[1..], b[1..])
  }

  lemma {:induction false} StrCmpFlip(a: string, b: string)
    ensures StrCmp(a, b) == -StrCmp(b, a)
  {
    if a != [] && b != [] && a[0] == b[0] {
      StrCmpFlip(a[1..], b[1..]);
    }
  }

  lemma {:induction false} StrCmpTrans(a: string, b: string, c: string)
    requires StrCmp(a, b) <= 0 && StrCmp(b, c) <= 0
    ensures StrCmp(a, c) <= 0
    ensures StrCmp(a, b) < 0 || StrCmp(b, c) < 0 ==> StrCmp(a, c) < 0
  {
    if a != [] && b != [] && c != [] && a[0] == b[0] == c[0] {
      StrCmpTrans(a[1..], b[1..], c[1..]);
    }
  }

  // ---------------------------------------------------------------- revision dates

  function Digit(n: int): char
    requires 0 <= n <= 9
  {
    '0' + n as char
  }

  function TwoDigits(n: int): string
    requires 0 <= n <= 99
  {
    [Digit(n / 10), Digit(n % 10)]
  }

  datatype Date = Date(year: int, month: int, day: int) {
    predicate Valid() {
      0 <= year <= 9999 && 1 <= month <= 12 && 1 <= day <= 31
    }

    predicate Before(other: Date) {
      year < other.year || (year == other.year && (month < other.month || (month == other.month && day < other.day)))
    }

    /** YYYY-MM-DD, the form section 7.1.9 of RFC 6020 gives a revision. */
    function Text(): string
      requires Valid()
    {
      TwoDigits(year / 100) + (TwoDigits(year % 100) + ("-" + (TwoDigits(month) + ("-" + TwoDigits(day)))))
    }
  }

  /** Two-digit fields compare as numbers, and then the rest decides. */
  lemma FieldFirst(a: int, b: int, s: string, t: string)
    requires 0 <= a <= 99 && 0 <= b <= 99
    ensures StrCmp(TwoDigits(a) + s, TwoDigits(b) + t) == if a < b then -1 else if a > b then 1 else StrCmp(s, t)
  {
    var x, y := TwoDigits(a) + s, TwoDigits(b) + t;
    assert x[1..][0] == Digit(a % 10) && y[1..][0] == Digit(b % 10);
    assert x[1..][1..] == s && y[1..][1..] == t;
    assert StrCmp(x, y) == if a / 10 == b / 10 then StrCmp(x[1..], y[1..]) else if a / 10 < b / 10 then -1 else 1;
  }

  lemma DashFirst(s: string, t: string)
    ensures StrCmp("-" + s, "-" + t) == StrCmp(s, t)
  {
    assert ("-" + s)[1..] == s && ("-" + t)[1..] == t;
  }

  /** On revision dates `strcmp` is the order of time. */
  lemma DatesCompare(a: Date, b: Date)
    requires a.Valid() && b.Valid()
    ensures StrCmp(a.Text(), b.Text()) < 0 <==> a.Before(b)
    ensures StrCmp(a.Text(), b.Text()) == 0 <==> a == b
  {
    hide StrCmp, TwoDigits;
    var days, days' := TwoDigits(a.day), TwoDigits(b.day);
    assert days + "" == days && days' + "" == days';
    FieldFirst(a.day, b.day, "", "");
    DashFirst(days, days');
    FieldFirst(a.month, b.month, "-" + days, "-" + days');
    var months, months' := TwoDigits(a.month) + ("-" + days), TwoDigits(b.month) + ("-" + days');
    DashFirst(months, months');
    FieldFirst(a.year % 100, b.year % 100, "-" + months, "-" + months');
    FieldFirst(a.year / 100, b.year / 100, TwoDigits(a.year % 100) + ("-" + months), TwoDigits(b.year % 100) + ("-" + months'));
    assert a.year == 100 * (a.year / 100) + a.year % 100 && b.year == 100 * (b.year / 100) + b.year % 100;
  }

  // ---------------------------------------------------------------- the list of modules

  datatype Entry = Entry(name: string, revision: string, latest: bool)

  ghost predicate SameKey(e: Entry, f: Entry) {
    e.name == f.name && e.revision == f.revision
  }

  ghost function Keys(s: seq<Entry>): (r: seq<(string, string)>)
    ensures |r| == |s|
  {
    seq(|s|, i requires 0 <= i < |s| => (s[i].name, s[i].revision))
  }

  ghost predicate DistinctKeys(s: seq<Entry>) {
    forall i, j :: 0 <= i < j < |s| ==> !SameKey(s[i], s[j])
  }

  /** No revision of the same module is later than e's. */
  ghost predicate Greatest(s: seq<Entry>, e: Entry) {
    forall f :: f in s && f.name == e.name ==> StrCmp(f.revision, e.revision) <= 0
  }

  /** Exactly the greatest revision of every name is flagged. */
  ghost predicate Valid(s: seq<Entry>) {
    DistinctKeys(s) && forall e :: e in s ==> (e.latest <==> Greatest(s, e))
  }

  /** The flags follow from the names and revisions. */
  lemma FlagsDetermined(s: seq<Entry>, t: seq<Entry>)
    requires Valid(s) && Valid(t) && Keys(s) == Keys(t)
    ensures s == t
  {
    assert |Keys(s)| == |s| && |Keys(t)| == |t|;
    forall i | 0 <= i < |s| ensures s[i].name == t[i].name && s[i].revision == t[i].revision {
      assert Keys(s)[i] == Keys(t)[i];
    }
    forall i | 0 <= i < |s| ensures s[i] == t[i] {
      if Greatest(s, s[i]) { GreatestByKeys(s, t, i); }
      if Greatest(t, t[i]) { GreatestByKeys(t, s, i); }
    }
  }

  lemma GreatestByKeys(s: seq<Entry>, t: seq<Entry>, i: nat)
    requires |s| == |t| && i < |s| && Greatest(s, s[i])
    requires forall k :: 0 <= k < |s| ==> s[k].name == t[k].name && s[k].revision == t[k].revision
    ensures Greatest(t, t[i])
  {
    forall f | f in t && f.name == t[i].name ensures StrCmp(f.revision, t[i].revision) <= 0 {
      var k :| 0 <= k < |t| && t[k] == f;
      assert s[k] in s && s[k].revision == f.revision;
    }
  }

  /** One flagged revision per name: any two are the same entry. */
  lemma OneLatest(s: seq<Entry>, e: Entry, f: Entry)
    requires Valid(s) && e in s && f in s && e.name == f.name && e.latest && f.latest
    ensures e == f
  {
    assert Greatest(s, e) && Greatest(s, f);
    StrCmpFlip(e.revision, f.revision);
  }

  /** ... and a name that occurs has one. */
  lemma {:induction false} SomeGreatest(s: seq<Entry>, e: Entry) returns (g: Entry)
    requires e in s
    ensures g in s && g.name == e.name && Greatest(s, g)
  {
    if |s| == 1 {
      g := e;
    } else {
      var h, t := s[0], s[1..];
      assert s == [h] + t;
      if e in t || exists f :: f in t && f.name == e.name {
        var f :| f in t && f.name == e.name;
        g := SomeGreatest(t, f);
        if h.name == e.name && StrCmp(h.revision, g.revision) > 0 {
          StrCmpFlip(h.revision, g.revision);
          forall x | x in t && x.name == e.name ensures StrCmp(x.revision, h.revision) <= 0 {
            StrCmpTrans(x.revision, g.revision, h.revision);
          }
          g := h;
        }
      } else {
        g := e;
      }
    }
  }

  // ---------------------------------------------------------------- flags in place

  class ModuleList {
    var modules: seq<Entry>

    /** The scan of `md_insert_lys_module` for the flagged and the equal revision (1888-1901). */
    method Scan(name: string, revision: string) returns (flagged: int, equal: int)
      ensures -1 <= flagged < |modules| && -1 <= equal < |modules|
      ensures flagged >= 0 ==> modules[flagged].name == name && modules[flagged].latest
      ensures flagged < 0 ==> forall e :: e in modules && e.name == name ==> !e.latest
      ensures equal >= 0 ==> modules[equal].name == name && modules[equal].revision == revision
      ensures equal < 0 ==> forall e :: e in modules && e.name == name ==> e.revision != revision
    {
      flagged, equal := -1, -1;
      var n := 0;
      while n < |modules|
        invariant 0 <= n <= |modules| && -1 <= flagged < n && -1 <= equal < n
        invariant flagged >= 0 ==> modules[flagged].name == name && modules[flagged].latest
        invariant flagged < 0 ==> forall k :: 0 <= k < n && modules[k].name == name ==> !modules[k].latest
        invariant equal >= 0 ==> modules[equal].name == name && modules[equal].revision == revision
        invariant equal < 0 ==> forall k :: 0 <= k < n && modules[k].name == name ==> modules[k].revision != revision
      {
        if modules[n].name == name {
          if modules[n].latest {
            flagged := n;
          }
          if modules[n].revision == revision {
            equal := n;
          }
        }
        n := n + 1;
      }
    }

    /** A module is added unless the revision is there (1884-1901, 1975-1988); the new entry is
        flagged by default (150). */
    method Insert(name: string, revision: string)
      requires Valid(modules)
      modifies this
      ensures Valid(modules)
      ensures (name, revision) in Keys(old(modules)) ==> modules == old(modules)
      ensures (name, revision) !in Keys(old(modules)) ==> Keys(modules) == Keys(old(modules)) + [(name, revision)]
    {
      var flagged, equal := Scan(name, revision);
      if equal >= 0 {
        assert Keys(modules)[equal] == (name, revision);
        return;
      }
      NotThere(modules, name, revision);
      ghost var was := modules;
      var latest := true;
      if flagged >= 0 {
        if StrCmp(revision, modules[flagged].revision) < 0 {
          latest := false;
        } else {
          modules := modules[flagged := modules[flagged].(latest := false)];
        }
      }
      modules := modules + [Entry(name, revision, latest)];
      InsertedFlags(was, flagged, Entry(name, revision, latest), modules);
      assert Keys(modules) == Keys(was) + [(name, revision)];
    }

    /** The greatest revision among the other entries of the name of entry k, -1 if there is none
        (2768-2782). */
    method PickLatest(k: nat) returns (latest: int)
      requires k < |modules|
      ensures -1 <= latest < |modules| && latest != k
      ensures latest >= 0 ==> modules[latest].name == modules[k].name
      ensures forall i :: 0 <= i < |modules| && i != k && modules[i].name == modules[k].name ==>
                latest >= 0 && StrCmp(modules[i].revision, modules[latest].revision) <= 0
    {
      latest := -1;
      var n := 0;
      while n < |modules|
        invariant 0 <= n <= |modules| && -1 <= latest < n && latest != k
        invariant latest >= 0 ==> modules[latest].name == modules[k].name
        invariant forall i :: 0 <= i < n && i != k && modules[i].name == modules[k].name ==>
                    latest >= 0 && StrCmp(modules[i].revision, modules[latest].revision) <= 0
      {
        if n != k && modules[n].name == modules[k].name {
          if latest < 0 {
            latest := n;
          } else if StrCmp(modules[latest].revision, modules[n].revision) < 0 {
            BestSoFar(modules, modules[k].name, k, n, latest);
            latest := n;
          } else {
            StrCmpFlip(modules[latest].revision, modules[n].revision);
          }
        }
        n := n + 1;
      }
    }

    /** The entry at k goes; when it was the latest, the greatest of the others is flagged
        (2766-2792). */
    method Remove(k: nat)
      requires k < |modules| && Valid(modules)
      modifies this
      ensures Valid(modules)
      ensures Keys(modules) == Keys(old(modules))[..k] + Keys(old(modules))[k + 1..]
    {
      hide Valid, Keys;
      ghost var was := modules;
      var latest := -1;
      if modules[k].latest {
        latest := PickLatest(k);
      }
      if latest >= 0 {
        modules := modules[latest := modules[latest].(latest := true)];
      }
      RemovedFlags(was, k, latest, modules);
      KeysWithout(was, modules, k);
      modules := modules[..k] + modules[k + 1..];
    }
  }

  lemma KeysWithout(was: seq<Entry>, now: seq<Entry>, k: nat)
    requires k < |was| == |now| && forall i :: 0 <= i < |was| ==> SameKey(was[i], now[i])
    ensures Keys(now[..k] + now[k + 1..]) == Keys(was)[..k] + Keys(was)[k + 1..]
  {
  }

  lemma BestSoFar(s: seq<Entry>, name: string, k: nat, n: nat, latest: nat)
    requires latest < n < |s| && StrCmp(s[latest].revision, s[n].revision) < 0
    requires forall i :: 0 <= i < n && i != k && s[i].name == name ==> StrCmp(s[i].revision, s[latest].revision) <= 0
    ensures forall i :: 0 <= i <= n && i != k && s[i].name == name ==> StrCmp(s[i].revision, s[n].revision) <= 0
  {
    forall i | 0 <= i < n && i != k && s[i].name == name ensures StrCmp(s[i].revision, s[n].revision) <= 0 {
      StrCmpTrans(s[i].revision, s[latest].revision, s[n].revision);
    }
  }

  lemma NotThere(s: seq<Entry>, name: string, revision: string)
    requires forall e :: e in s && e.name == name ==> e.revision != revision
    ensures (name, revision) !in Keys(s)
  {
    forall i | 0 <= i < |s| ensures Keys(s)[i] != (name, revision) {
      assert s[i] in s;
    }
  }

  /** An entry is added whose key is not there; if it is the latest, the flag moves to it. */
  ghost predicate Inserting(was: seq<Entry>, flagged: int, added: Entry, now: seq<Entry>) {
    && Valid(was) && -1 <= flagged < |was|
    && (flagged >= 0 ==> was[flagged].name == added.name && was[flagged].latest)
    && (flagged < 0 ==> forall e :: e in was && e.name == added.name ==> !e.latest)
    && (forall e :: e in was && e.name == added.name ==> e.revision != added.revision)
    && (added.latest <==> flagged < 0 || StrCmp(added.revision, was[flagged].revision) >= 0)
    && now == (if flagged >= 0 && added.latest then was[flagged := was[flagged].(latest := false)] else was) + [added]
  }

  lemma InsertedKeys(was: seq<Entry>, flagged: int, added: Entry, now: seq<Entry>)
    requires Inserting(was, flagged, added, now)
    ensures |now| == |was| + 1 && now[|was|] == added && DistinctKeys(now)
    ensures forall i :: 0 <= i < |was| ==> SameKey(was[i], now[i])
  {
    hide Greatest, StrCmp;
    assert forall i :: 0 <= i < |was| ==> was[i] in was;
  }

  lemma InsertedFlag(was: seq<Entry>, flagged: int, added: Entry, now: seq<Entry>, n: nat)
    requires Inserting(was, flagged, added, now) && n < |was|
    ensures now[n].latest <==> Greatest(now, now[n])
  {
    InsertedKeys(was, flagged, added, now);
    GreatestOfMore(was, now, added, n);
    hide Greatest, StrCmp, DistinctKeys, SameKey;
    assert was[n] in was;
    if was[n].name == added.name && was[n].latest {
      FlaggedOne(was, flagged, added, now, n);
      StrCmpFlip(added.revision, was[n].revision);
    }
  }

  lemma FlaggedOne(was: seq<Entry>, flagged: int, added: Entry, now: seq<Entry>, n: nat)
    requires Inserting(was, flagged, added, now) && n < |was| && was[n].name == added.name && was[n].latest
    ensures n == flagged && was[n].revision != added.revision
  {
    hide Greatest, StrCmp;
    assert was[n] in was && was[flagged] in was;
    OneLatest(was, was[n], was[flagged]);
  }

  /** The flag after an insertion is right for every entry. */
  lemma InsertedFlags(was: seq<Entry>, flagged: int, added: Entry, now: seq<Entry>)
    requires Inserting(was, flagged, added, now)
    ensures Valid(now)
  {
    InsertedKeys(was, flagged, added, now);
    AddedIsGreatest(was, flagged, added);
    GreatestOfMore'(was, now, added);
    hide Greatest, StrCmp, DistinctKeys, SameKey;
    forall n | 0 <= n < |now| ensures now[n].latest <==> Greatest(now, now[n]) {
      if n < |was| {
        InsertedFlag(was, flagged, added, now, n);
      }
    }
  }

  lemma AddedIsGreatest(was: seq<Entry>, flagged: int, added: Entry)
    requires Valid(was) && -1 <= flagged < |was|
    requires flagged >= 0 ==> was[flagged].name == added.name && was[flagged].latest
    requires flagged < 0 ==> forall e :: e in was && e.name == added.name ==> !e.latest
    requires added.latest <==> flagged < 0 || StrCmp(added.revision, was[flagged].revision) >= 0
    ensures added.latest <==> Greatest(was, added)
  {
    if flagged < 0 {
      forall e | e in was && e.name == added.name ensures false {
        var g := SomeGreatest(was, e);
      }
    } else {
      var top := was[flagged];
      StrCmpFlip(added.revision, top.revision);
      if added.latest {
        forall e | e in was && e.name == added.name ensures StrCmp(e.revision, added.revision) <= 0 {
          StrCmpTrans(e.revision, top.revision, added.revision);
        }
      }
    }
  }

  lemma GreatestOfMore(was: seq<Entry>, now: seq<Entry>, added: Entry, n: nat)
    requires |now| == |was| + 1 && n < |was| && now[|was|] == added
    requires forall i :: 0 <= i < |was| ==> SameKey(was[i], now[i])
    ensures Greatest(now, now[n]) <==> Greatest(was, was[n]) && (added.name == was[n].name ==> StrCmp(added.revision, was[n].revision) <= 0)
  {
    if Greatest(now, now[n]) {
      forall e | e in was && e.name == was[n].name ensures StrCmp(e.revision, was[n].revision) <= 0 {
        var i :| 0 <= i < |was| && was[i] == e;
        assert now[i] in now;
      }
      assert now[|was|] in now;
    }
    if Greatest(was, was[n]) && (added.name == was[n].name ==> StrCmp(added.revision, was[n].revision) <= 0) {
      forall f | f in now && f.name == now[n].name ensures StrCmp(f.revision, now[n].revision) <= 0 {
        var i :| 0 <= i < |now| && now[i] == f;
        if i < |was| { assert was[i] in was; }
      }
    }
  }

  lemma GreatestOfMore'(was: seq<Entry>, now: seq<Entry>, added: Entry)
    requires |now| == |was| + 1 && now[|was|] == added
    requires forall i :: 0 <= i < |was| ==> SameKey(was[i], now[i])
    ensures Greatest(now, added) <==> Greatest(was, added)
  {
    if Greatest(now, added) {
      forall e | e in was && e.name == added.name ensures StrCmp(e.revision, added.revision) <= 0 {
        var i :| 0 <= i < |was| && was[i] == e;
        assert now[i] in now;
      }
    }
    if Greatest(was, added) {
      forall f | f in now && f.name == added.name ensures StrCmp(f.revision, added.revision) <= 0 {
        var i :| 0 <= i < |now| && now[i] == f;
        if i < |was| { assert was[i] in was; }
      }
    }
  }

  /** Where entry n was before the entry at k went. */
  ghost function Back(k: nat, n: nat): nat {
    if n < k then n else n + 1
  }

  /** The entries other than the one at k, up to flags. */
  ghost predicate Rest(was: seq<Entry>, k: nat, rest: seq<Entry>) {
    k < |was| && |rest| == |was| - 1 && forall n :: 0 <= n < |rest| ==> SameKey(rest[n], was[Back(k, n)])
  }

  lemma InRest(was: seq<Entry>, k: nat, rest: seq<Entry>, e: Entry)
    requires Rest(was, k, rest) && e in was && e != was[k]
    ensures exists n :: 0 <= n < |rest| && was[Back(k, n)] == e
  {
    var i :| 0 <= i < |was| && was[i] == e;
    assert Back(k, if i < k then i else i - 1) == i;
  }

  lemma GreatestOfLess(was: seq<Entry>, k: nat, rest: seq<Entry>, n: nat)
    requires Rest(was, k, rest) && n < |rest|
    ensures Greatest(was, was[Back(k, n)]) ==> Greatest(rest, rest[n])
  {
    if Greatest(was, was[Back(k, n)]) {
      forall f | f in rest && f.name == rest[n].name ensures StrCmp(f.revision, rest[n].revision) <= 0 {
        var i :| 0 <= i < |rest| && rest[i] == f;
        assert was[Back(k, i)] in was;
      }
    }
  }

  /** The greatest of the rest is at least as late as any other entry of its name. */
  lemma GreatestOverRest(was: seq<Entry>, k: nat, rest: seq<Entry>, n: nat, e: Entry)
    requires Rest(was, k, rest) && n < |rest| && Greatest(rest, rest[n]) && e in was && e != was[k] && e.name == rest[n].name
    ensures StrCmp(e.revision, rest[n].revision) <= 0
  {
    InRest(was, k, rest, e);
    var i :| 0 <= i < |rest| && was[Back(k, i)] == e;
    assert rest[i] in rest;
  }

  /** When the entry that goes was not the latest of this name, the greatest of the rest was. */
  lemma StaysGreatest(was: seq<Entry>, k: nat, rest: seq<Entry>, n: nat)
    requires Valid(was) && Rest(was, k, rest) && n < |rest| && Greatest(rest, rest[n])
    requires was[k].name != rest[n].name || !was[k].latest
    ensures Greatest(was, was[Back(k, n)])
  {
    var b := Back(k, n);
    var g := SomeGreatest(was, was[b]);
    GreatestOverRest(was, k, rest, n, g);
    forall e | e in was && e.name == was[b].name ensures StrCmp(e.revision, was[b].revision) <= 0 {
      StrCmpTrans(e.revision, g.revision, was[b].revision);
    }
  }

  /** With the latest gone, exactly the entry that the loop picked is the greatest of the rest. */
  lemma PickedIsGreatest(was: seq<Entry>, k: nat, latest: int, rest: seq<Entry>, n: nat)
    requires DistinctKeys(was) && Rest(was, k, rest) && n < |rest| && was[k].name == rest[n].name
    requires 0 <= latest < |was| && latest != k && was[latest].name == was[k].name
    requires forall i :: 0 <= i < |was| && i != k && was[i].name == was[k].name ==> StrCmp(was[i].revision, was[latest].revision) <= 0
    ensures Greatest(rest, rest[n]) <==> Back(k, n) == latest
  {
    var b := Back(k, n);
    if Greatest(rest, rest[n]) {
      DistinctEntries(was, latest, k);
      GreatestOverRest(was, k, rest, n, was[latest]);
      StrCmpFlip(was[b].revision, was[latest].revision);
      if b != latest { DistinctEntries(was, b, latest); }
    }
    if b == latest {
      forall f | f in rest && f.name == rest[n].name ensures StrCmp(f.revision, rest[n].revision) <= 0 {
        var i :| 0 <= i < |rest| && rest[i] == f;
        assert SameKey(f, was[Back(k, i)]);
      }
    }
  }

  lemma DistinctEntries(was: seq<Entry>, i: nat, j: nat)
    requires DistinctKeys(was) && i < |was| && j < |was| && i != j
    ensures !SameKey(was[i], was[j])
  {
    if j < i { assert !SameKey(was[j], was[i]); }
  }

  lemma FlagAfter(was: seq<Entry>, k: nat, latest: int, rest: seq<Entry>, n: nat)
    requires Valid(was) && Rest(was, k, rest) && -1 <= latest < |was| && latest != k && n < |rest|
    requires was[k].latest ==> forall i :: 0 <= i < |was| && i != k && was[i].name == was[k].name ==>
               latest >= 0 && StrCmp(was[i].revision, was[latest].revision) <= 0
    requires latest >= 0 ==> was[k].latest && was[latest].name == was[k].name
    requires rest[n].latest == (Back(k, n) == latest || was[Back(k, n)].latest)
    ensures rest[n].latest <==> Greatest(rest, rest[n])
  {
    var b := Back(k, n);
    assert was[b] in was && was[k] in was;
    if was[b].name == was[k].name && was[k].latest {
      PickedIsGreatest(was, k, latest, rest, n);
      DistinctEntries(was, b, k);
      if was[b].latest { OneLatest(was, was[b], was[k]); }
    } else {
      GreatestOfLess(was, k, rest, n);
      if Greatest(rest, rest[n]) { StaysGreatest(was, k, rest, n); }
    }
  }

  /** The flags of the entries that stay are right once the entry at k is gone. */
  lemma RemovedFlags(was: seq<Entry>, k: nat, latest: int, now: seq<Entry>)
    requires Valid(was) && k < |was| && -1 <= latest < |was| && latest != k
    requires was[k].latest ==> forall i :: 0 <= i < |was| && i != k && was[i].name == was[k].name ==>
               latest >= 0 && StrCmp(was[i].revision, was[latest].revision) <= 0
    requires latest >= 0 ==> was[k].latest && was[latest].name == was[k].name
    requires now == if latest >= 0 then was[latest := was[latest].(latest := true)] else was
    ensures Valid(now[..k] + now[k + 1..])
  {
    hide StrCmp, Greatest;
    var rest := now[..k] + now[k + 1..];
    assert forall n :: 0 <= n < |rest| ==> rest[n] == now[Back(k, n)];
    assert Rest(was, k, rest);
    forall n | 0 <= n < |rest| ensures rest[n].latest <==> Greatest(rest, rest[n]) {
      FlagAfter(was, k, latest, rest, n);
    }
    RestDistinct(was, k, rest);
  }

  lemma RestDistinct(was: seq<Entry>, k: nat, rest: seq<Entry>)
    requires DistinctKeys(was) && Rest(was, k, rest)
    ensures DistinctKeys(rest)
  {
    forall i, j | 0 <= i < j < |rest| ensures !SameKey(rest[i], rest[j]) {
      DistinctEntries(was, Back(k, i), Back(k, j));
    }
  }

  // ---------------------------------------------------------------- the search tree

  datatype Tree = Leaf | Node(left: Tree, item: Entry, right: Tree)

  function Items(t: Tree): seq<Entry> {
    if t.Leaf? then [] else Items(t.left) + [t.item] + Items(t.right)
  }

  /** `md_compare_modules` of the item looked up, whose revision may be missing, against an item of
      the tree, which has one (296-317). */
  function Compare(name: string, revision: Option<string>, e: Entry): int {
    if StrCmp(name, e.name) != 0 then StrCmp(name, e.name)
    else if revision.None? then (if e.latest then 0 else 1)
    else StrCmp(revision.value, e.revision)
  }

  function Search(t: Tree, name: string, revision: Option<string>): Option<Entry> {
    if t.Leaf? then None
    else
      var c := Compare(name, revision, t.item);
      if c == 0 then Some(t.item) else if c < 0 then Search(t.left, name, revision) else Search(t.right, name, revision)
  }

  ghost predicate Less(e: Entry, f: Entry) {
    Compare(e.name, Some(e.revision), f) < 0
  }

  /** What the tree keeps: items in the order of `md_compare_modules`. */
  ghost predicate Ordered(t: Tree) {
    t.Node? ==>
      Ordered(t.left) && Ordered(t.right)
      && (forall e :: e in Items(t.left) ==> Less(e, t.item)) && (forall e :: e in Items(t.right) ==> Less(t.item, e))
  }

  /** What a search is for: the entry with the revision, or without one the flagged entry. */
  ghost predicate Wanted(name: string, revision: Option<string>, e: Entry) {
    e.name == name && (if revision.None? then e.latest else e.revision == revision.value)
  }

  /** An entry is sought on the side the comparison says, provided that a flagged entry has the
      greatest revision among those of its name. */
  lemma OnTheRightSide(name: string, revision: Option<string>, root: Entry, e: Entry)
    requires Wanted(name, revision, e)
    requires revision.None? && root.name == name ==> StrCmp(root.revision, e.revision) <= 0
    ensures Less(e, root) ==> Compare(name, revision, root) < 0
    ensures Less(root, e) ==> Compare(name, revision, root) > 0 || (revision.None? && root.latest && root.name == name)
    ensures Compare(name, revision, root) == 0 ==> Wanted(name, revision, root)
  {
    StrCmpFlip(root.name, e.name);
    StrCmpFlip(root.revision, e.revision);
  }

  lemma {:induction false} SearchFinds(t: Tree, name: string, revision: Option<string>, e: Entry)
    requires Ordered(t) && e in Items(t) && Wanted(name, revision, e)
    requires revision.None? ==> forall f :: f in Items(t) && f.name == name ==>
               StrCmp(f.revision, e.revision) <= 0 && (f.latest ==> f == e)
    ensures Search(t, name, revision) == Some(e)
  {
    var root := t.item;
    assert root in Items(t);
    OnTheRightSide(name, revision, root, e);
    if e in Items(t.left) {
      SearchFinds(t.left, name, revision, e);
    } else if e in Items(t.right) {
      SearchFinds(t.right, name, revision, e);
    } else {
      assert e == root;
    }
  }

  lemma {:induction false} SearchIsWanted(t: Tree, name: string, revision: Option<string>)
    ensures Search(t, name, revision).Some? ==> Search(t, name, revision).value in Items(t) && Wanted(name, revision, Search(t, name, revision).value)
  {
    if t.Node? {
      SearchIsWanted(t.left, name, revision);
      SearchIsWanted(t.right, name, revision);
    }
  }

  ghost predicate SameEntries(s: seq<Entry>, t: seq<Entry>) {
    forall e :: e in s <==> e in t
  }

  /** Flags that are right in one order of the entries are right in any. */
  lemma ValidInAnyOrder(s: seq<Entry>, t: seq<Entry>)
    requires Valid(s) && SameEntries(s, t) && DistinctKeys(t)
    ensures Valid(t)
  {
    forall e | e in t ensures Greatest(s, e) <==> Greatest(t, e) {
    }
  }

  /** The list and the tree hold the same modules: without a revision the search in the tree finds
      exactly the greatest revision of the name in the list; it fails only for a name that does not
      occur.  `ModuleList.Insert` and `ModuleList.Remove` keep the list as required here. */
  lemma ListedFound(l: seq<Entry>, t: Tree, name: string)
    requires Valid(l) && Ordered(t) && SameEntries(Items(t), l)
    ensures Search(t, name, None).None? <==> forall e :: e in l ==> e.name != name
    ensures Search(t, name, None).Some? ==>
              var e := Search(t, name, None).value; e in l && e.name == name && e.latest && Greatest(l, e)
  {
    SearchIsWanted(t, name, None);
    if e :| e in l && e.name == name {
      var g := SomeGreatest(l, e);
      forall f | f in Items(t) && f.name == name ensures StrCmp(f.revision, g.revision) <= 0 && (f.latest ==> f == g) {
        if f.latest { OneLatest(l, f, g); }
      }
      SearchFinds(t, name, None, g);
    }
  }

  /** With a revision it finds exactly that entry. */
  lemma RevisionFound(t: Tree, name: string, revision: string)
    requires Ordered(t)
    ensures Search(t, name, Some(revision)).None? <==> forall e :: e in Items(t) ==> e.name != name || e.revision != revision
    ensures forall e :: e in Items(t) && e.name == name && e.revision == revision ==> Search(t, name, Some(revision)) == Some(e)
  {
    SearchIsWanted(t, name, Some(revision));
    forall e | e in Items(t) && e.name == name && e.revision == revision ensures Search(t, name, Some(revision)) == Some(e) {
      SearchFinds(t, name, Some(revision), e);
    }
  }
}
