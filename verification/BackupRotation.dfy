/** The rotation of a backup directory, step by step, and what runs of backups and rotations leave. */
module BackupRotation {
  import opened Basics
  import opened BackupRetention

  /** What the manifest of a directory says; a directory without a readable manifest has none. */
  datatype Stamp = Stamp(time: int, day: int, month: int)

  datatype Entry = Entry(path: Path, manifest: Option<Stamp>)

  ghost predicate UniquePaths(entries: seq<Entry>) {
    forall i, j | 0 <= i < j < |entries| :: entries[i].path != entries[j].path
  }

  function RecordOf(e: Entry): Record
    requires e.manifest.Some?
  {
    Record(e.path, e.manifest.value.time, e.manifest.value.day, e.manifest.value.month)
  }

  function Records(entries: seq<Entry>): seq<Record> {
    if entries == [] then []
    else if entries[0].manifest.Some? then [RecordOf(entries[0])] + Records(entries[1..])
    else Records(entries[1..])
  }

  function InsertNewest(r: Record, s: seq<Record>): seq<Record> {
    if s == [] || r.time >= s[0].time then [r] + s else [s[0]] + InsertNewest(r, s[1..])
  }

  /** The records from the newest to the oldest; records of the same time keep their order. */
  function NewestFirst(rs: seq<Record>): seq<Record> {
    if rs == [] then [] else InsertNewest(rs[0], NewestFirst(rs[1..]))
  }

  predicate Survives(e: Entry, keep: set<Path>) {
    e.manifest.None? || e.path in keep
  }

  function Survivors(entries: seq<Entry>, keep: set<Path>): seq<Entry> {
    if entries == [] then []
    else if Survives(entries[0], keep) then [entries[0]] + Survivors(entries[1..], keep)
    else Survivors(entries[1..], keep)
  }

  function WithoutPath(entries: seq<Entry>, path: Path): seq<Entry> {
    if entries == [] then []
    else if entries[0].path == path then WithoutPath(entries[1..], path)
    else [entries[0]] + WithoutPath(entries[1..], path)
  }

  /** The recorded backups of a directory from the newest to the oldest. */
  function Sorted(entries: seq<Entry>): seq<Record> {
    NewestFirst(Records(entries))
  }

  /** The directory after a rotation. */
  function Rotated(entries: seq<Entry>, current: Path, daily: nat, monthly: nat): seq<Entry> {
    Survivors(entries, KeepPaths(Sorted(entries), current, daily, monthly))
  }

  lemma ChooseNext(p: Period, s: seq<Record>, i: nat, seen: set<int>, limit: nat)
    requires i < |s|
    ensures Choose(p, s[i..], seen, limit) ==
            if |seen| < limit && Label(p, s[i]) !in seen
            then {s[i].path} + Choose(p, s[i + 1..], seen + {Label(p, s[i])}, limit)
            else Choose(p, s[i + 1..], seen, limit)
  {
    assert s[i..][1..] == s[i + 1..];
  }

  /** The directory without the paths in `gone`. */
  function Dropped(entries: seq<Entry>, gone: set<Path>): seq<Entry> {
    if entries == [] then []
    else if entries[0].path in gone then Dropped(entries[1..], gone)
    else [entries[0]] + Dropped(entries[1..], gone)
  }

  /** The paths of the first `k` records that are not kept. */
  function Gone(s: seq<Record>, k: nat, keep: set<Path>): set<Path>
    requires k <= |s|
  {
    set i | 0 <= i < k && s[i].path !in keep :: s[i].path
  }

  lemma {:induction false} DropNone(entries: seq<Entry>)
    ensures Dropped(entries, {}) == entries
  {
    if entries != [] {
      DropNone(entries[1..]);
    }
  }

  lemma {:induction false} DropOne(entries: seq<Entry>, gone: set<Path>, path: Path)
    ensures WithoutPath(Dropped(entries, gone), path) == Dropped(entries, gone + {path})
  {
    if entries != [] {
      var rest := Dropped(entries[1..], gone);
      DropOne(entries[1..], gone, path);
      if entries[0].path in gone {
        assert Dropped(entries, gone) == rest;
      } else {
        assert Dropped(entries, gone) == [entries[0]] + rest;
        assert ([entries[0]] + rest)[1..] == rest;
      }
    }
  }

  lemma UniqueTail(entries: seq<Entry>)
    requires UniquePaths(entries) && entries != []
    ensures UniquePaths(entries[1..]) && forall e | e in entries[1..] :: e.path != entries[0].path
  {
    forall e | e in entries[1..] ensures e.path != entries[0].path {
      var i :| 0 <= i < |entries| - 1 && entries[1..][i] == e;
      assert entries[i + 1] == e;
    }
  }

  /** Dropping a path removes exactly one entry when the path is there, and nothing when it is not. */
  lemma {:induction false} DropSize(entries: seq<Entry>, gone: set<Path>, path: Path)
    requires UniquePaths(entries) && path !in gone
    ensures |Dropped(entries, gone + {path})| ==
            |Dropped(entries, gone)| - if exists e :: e in entries && e.path == path then 1 else 0
  {
    if entries != [] {
      UniqueTail(entries);
      DropSize(entries[1..], gone, path);
      assert entries == [entries[0]] + entries[1..];
      assert entries[0] in entries;
    }
  }

  lemma {:induction false} InsertOwn(r: Record, s: seq<Record>)
    requires OwnRecords(s) && forall x | x in s :: x.path != r.path
    ensures OwnRecords(InsertNewest(r, s))
  {
    if s == [] || r.time >= s[0].time {
    } else {
      var rest := InsertNewest(r, s[1..]);
      InsertOwn(r, s[1..]);
      InsertMember(r, s[1..]);
      forall j | 0 <= j < |rest| ensures rest[j].path != s[0].path {
        assert rest[j] in multiset(rest);
        assert rest[j] == r || rest[j] in multiset(s[1..]);
        if rest[j] != r {
          var i :| 0 <= i < |s| - 1 && s[1..][i] == rest[j];
          assert s[i + 1] == rest[j];
        } else {
          assert s[0] in s;
        }
      }
    }
  }

  lemma {:induction false} SortedOwn(entries: seq<Entry>)
    requires UniquePaths(entries)
    ensures OwnRecords(Sorted(entries))
  {
    if entries != [] {
      UniqueTail(entries);
      SortedOwn(entries[1..]);
      var rest := Records(entries[1..]);
      if entries[0].manifest.Some? {
        var r := RecordOf(entries[0]);
        assert Records(entries) == [r] + rest;
        assert ([r] + rest)[1..] == rest;
        forall x | x in NewestFirst(rest) ensures x.path != r.path {
          SortedMember(entries[1..], x);
        }
        InsertOwn(r, NewestFirst(rest));
      } else {
        assert Records(entries) == rest;
      }
    }
  }

  lemma {:induction false} RecordsMember(entries: seq<Entry>, r: Record)
    ensures r in Records(entries) <==> exists e :: e in entries && e.manifest.Some? && RecordOf(e) == r
  {
    if entries != [] {
      RecordsMember(entries[1..], r);
      assert entries == [entries[0]] + entries[1..];
    }
  }

  lemma {:induction false} InsertMember(r: Record, s: seq<Record>)
    ensures multiset(InsertNewest(r, s)) == multiset(s) + multiset{r}
  {
    if s == [] || r.time >= s[0].time {
    } else {
      InsertMember(r, s[1..]);
      assert s == [s[0]] + s[1..];
    }
  }

  lemma {:induction false} SortMember(rs: seq<Record>)
    ensures multiset(NewestFirst(rs)) == multiset(rs)
  {
    if rs != [] {
      SortMember(rs[1..]);
      InsertMember(rs[0], NewestFirst(rs[1..]));
      assert rs == [rs[0]] + rs[1..];
    }
  }

  /** A sorted record is the manifest of an entry, and every manifest is a sorted record. */
  lemma SortedMember(entries: seq<Entry>, r: Record)
    ensures r in Sorted(entries) <==> exists e :: e in entries && e.manifest.Some? && RecordOf(e) == r
  {
    RecordsMember(entries, r);
    SortMember(Records(entries));
    assert r in Sorted(entries) <==> r in multiset(Sorted(entries));
    assert r in Records(entries) <==> r in multiset(Records(entries));
  }

  lemma SamePathSameEntry(entries: seq<Entry>, e: Entry, e': Entry)
    requires UniquePaths(entries) && e in entries && e' in entries && e.path == e'.path
    ensures e == e'
  {
    var i :| 0 <= i < |entries| && entries[i] == e;
    var j :| 0 <= j < |entries| && entries[j] == e';
  }

  /** Dropping every record that is not kept leaves the survivors. */
  lemma DropAll(entries: seq<Entry>, keep: set<Path>)
    requires UniquePaths(entries)
    ensures var s := Sorted(entries); Dropped(entries, Gone(s, |s|, keep)) == Survivors(entries, keep)
  {
    var s := Sorted(entries);
    var gone := Gone(s, |s|, keep);
    forall e | e in entries ensures e.path in gone <==> !Survives(e, keep) {
      if e.path in gone {
        var i :| 0 <= i < |s| && s[i].path == e.path && s[i].path !in keep;
        SortedMember(entries, s[i]);
        var e' :| e' in entries && e'.manifest.Some? && RecordOf(e') == s[i];
        SamePathSameEntry(entries, e, e');
      }
      if !Survives(e, keep) {
        SortedMember(entries, RecordOf(e));
        var i :| 0 <= i < |s| && s[i] == RecordOf(e);
        assert s[i].path in gone;
      }
    }
    DropIsSurvive(entries, gone, keep);
  }

  lemma {:induction false} DropIsSurvive(entries: seq<Entry>, gone: set<Path>, keep: set<Path>)
    requires forall e | e in entries :: e.path in gone <==> !Survives(e, keep)
    ensures Dropped(entries, gone) == Survivors(entries, keep)
  {
    if entries != [] {
      assert entries[0] in entries;
      DropIsSurvive(entries[1..], gone, keep);
    }
  }

  class BackupRoot {
    var entries: seq<Entry>

    constructor (entries: seq<Entry>)
      ensures this.entries == entries
    {
      this.entries := entries;
    }

    /** The paths to keep: the current backup and the first of each of the first days and months. */
    static method SelectKept(records: seq<Record>, current: Path, daily: nat, monthly: nat) returns (keep: set<Path>)
      ensures keep == KeepPaths(records, current, daily, monthly)
    {
      var days, months := {}, {};
      keep := {current};
      var i := 0;
      while i < |records|
        invariant 0 <= i <= |records|
        invariant keep + Choose(Daily, records[i..], days, daily) + Choose(Monthly, records[i..], months, monthly)
               == KeepPaths(records, current, daily, monthly)
      {
        var record := records[i];
        ChooseNext(Daily, records, i, days, daily);
        ChooseNext(Monthly, records, i, months, monthly);
        if |days| < daily && record.day !in days {
          days := days + {record.day};
          keep := keep + {record.path};
        }
        if |months| < monthly && record.month !in months {
          months := months + {record.month};
          keep := keep + {record.path};
        }
        i := i + 1;
      }
    }

    /** Removes every backup that is not the current one, not among the daily and not among the monthly ones. */
    method Rotate(current: Path, daily: nat, monthly: nat) returns (removed: nat)
      requires UniquePaths(entries)
      modifies this
      ensures entries == Rotated(old(entries), current, daily, monthly)
      ensures removed == |old(entries)| - |entries|
    {
      ghost var before := entries;
      var records := NewestFirst(Records(entries));
      var keep := SelectKept(records, current, daily, monthly);
      removed := 0;
      var i := 0;
      DropNone(entries);
      assert Gone(records, 0, keep) == {};
      while i < |records|
        invariant 0 <= i <= |records|
        invariant entries == Dropped(before, Gone(records, i, keep))
        invariant removed == |before| - |entries|
      {
        DeleteStep(before, i, keep);
        if records[i].path !in keep {
          entries := WithoutPath(entries, records[i].path);
          removed := removed + 1;
        }
        i := i + 1;
      }
      DropAll(before, keep);
    }
  }

  /** Visiting one record deletes its entry exactly when its path is not kept. */
  lemma DeleteStep(entries: seq<Entry>, i: nat, keep: set<Path>)
    requires UniquePaths(entries) && i < |Sorted(entries)|
    ensures var s := Sorted(entries);
      var now, next := Dropped(entries, Gone(s, i, keep)), Dropped(entries, Gone(s, i + 1, keep));
      if s[i].path in keep then next == now else next == WithoutPath(now, s[i].path) && |next| == |now| - 1
  {
    var s := Sorted(entries);
    var gone := Gone(s, i, keep);
    if s[i].path in keep {
      assert Gone(s, i + 1, keep) == gone;
    } else {
      assert Gone(s, i + 1, keep) == gone + {s[i].path};
      SortedOwn(entries);
      assert s[i] in s;
      SortedMember(entries, s[i]);
      DropOne(entries, gone, s[i].path);
      DropSize(entries, gone, s[i].path);
    }
  }

  // ----- The meaning of a rotation -----

  /** The position of a path in a listing. */
  function Place(rs: seq<Record>, x: Path): nat {
    if rs == [] || rs[0].path == x then 0 else 1 + Place(rs[1..], x)
  }

  /** A later creation time, or the same time and an earlier place in the listing. */
  predicate Newer(rs: seq<Record>, a: Record, b: Record) {
    a.time > b.time || (a.time == b.time && Place(rs, a.path) < Place(rs, b.path))
  }

  /** The periods that have a newer backup. */
  function NewerLabels(p: Period, rs: seq<Record>, r: Record): set<int> {
    set x | x in rs && Newer(rs, x, r) :: Label(p, x)
  }

  /** The newest backup of one of the newest `limit` distinct periods. */
  predicate Representative(p: Period, rs: seq<Record>, r: Record, limit: nat) {
    r in rs && First(p, r, NewerLabels(p, rs, r), limit)
  }

  /** Fewer than `limit` distinct days have a newer backup, and the day of this one is not among them. */
  predicate NewestOfDay(rs: seq<Record>, r: Record, limit: nat) {
    var newer := set x | x in rs && Newer(rs, x, r) :: x.day;
    r in rs && r.day !in newer && |newer| < limit
  }

  predicate NewestOfMonth(rs: seq<Record>, r: Record, limit: nat) {
    var newer := set x | x in rs && Newer(rs, x, r) :: x.month;
    r in rs && r.month !in newer && |newer| < limit
  }

  lemma RepresentativeMeans(rs: seq<Record>, r: Record, limit: nat)
    ensures Representative(Daily, rs, r, limit) <==> NewestOfDay(rs, r, limit)
    ensures Representative(Monthly, rs, r, limit) <==> NewestOfMonth(rs, r, limit)
  {
    assert NewerLabels(Daily, rs, r) == set x | x in rs && Newer(rs, x, r) :: x.day;
    assert NewerLabels(Monthly, rs, r) == set x | x in rs && Newer(rs, x, r) :: x.month;
  }

  ghost predicate Descends(rs: seq<Record>, s: seq<Record>) {
    forall i, j | 0 <= i < j < |s| :: Newer(rs, s[i], s[j])
  }

  lemma {:induction false} InsertDescends(rs: seq<Record>, r: Record, s: seq<Record>)
    requires Descends(rs, s) && forall x | x in s :: x.time <= r.time ==> Newer(rs, r, x)
    ensures Descends(rs, InsertNewest(r, s))
  {
    if s == [] || r.time >= s[0].time {
      forall x | x in s ensures Newer(rs, r, x) {
        var i :| 0 <= i < |s| && s[i] == x;
        assert i > 0 ==> Newer(rs, s[0], x);
      }
    } else {
      var rest := InsertNewest(r, s[1..]);
      InsertDescends(rs, r, s[1..]);
      forall x | x in rest ensures Newer(rs, s[0], x) {
        InsertedMember(r, s[1..], x);
        if x != r {
          var i :| 0 <= i < |s| - 1 && s[1..][i] == x;
          assert s[i + 1] == x;
        }
      }
    }
  }

  lemma InsertedMember(r: Record, s: seq<Record>, x: Record)
    ensures x in InsertNewest(r, s) <==> x == r || x in s
  {
    InsertMember(r, s);
    assert x in InsertNewest(r, s) <==> x in multiset(InsertNewest(r, s));
    assert x in s <==> x in multiset(s);
  }

  lemma NewestMember(rs: seq<Record>, x: Record)
    ensures x in NewestFirst(rs) <==> x in rs
  {
    SortMember(rs);
    assert x in NewestFirst(rs) <==> x in multiset(NewestFirst(rs));
    assert x in rs <==> x in multiset(rs);
  }

  /** Sorting is stable: it arranges the records by time and, for the same time, by their place in the listing. */
  lemma {:induction false} NewestFirstDescends(rs: seq<Record>)
    requires OwnRecords(rs)
    ensures Descends(rs, NewestFirst(rs))
  {
    if rs != [] {
      var rest := NewestFirst(rs[1..]);
      NewestFirstDescends(rs[1..]);
      forall x | x in rest ensures x.path != rs[0].path {
        NewestMember(rs[1..], x);
      }
      forall i, j | 0 <= i < j < |rest| ensures Newer(rs, rest[i], rest[j]) {
        assert rest[i] in rest && rest[j] in rest && Newer(rs[1..], rest[i], rest[j]);
      }
      InsertDescends(rs, rs[0], rest);
    }
  }

  /** The periods before a sorted record are the periods with a newer backup. */
  lemma LabelsAreNewer(p: Period, rs: seq<Record>, i: nat)
    requires OwnRecords(rs) && i < |NewestFirst(rs)|
    ensures Labels(p, NewestFirst(rs)[..i]) == NewerLabels(p, rs, NewestFirst(rs)[i])
  {
    var s := NewestFirst(rs);
    NewestFirstDescends(rs);
    forall x ensures x in s[..i] <==> x in rs && Newer(rs, x, s[i]) {
      NewestMember(rs, x);
      if x in s {
        var j :| 0 <= j < |s| && s[j] == x;
        assert j < i ==> s[..i][j] == x;
        assert j > i ==> Newer(rs, s[i], s[j]);
      }
    }
  }

  lemma ChosenIsRepresentative(p: Period, entries: seq<Entry>, r: Record, limit: nat)
    requires UniquePaths(entries) && r in Records(entries)
    ensures r.path in Choose(p, Sorted(entries), {}, limit) <==> Representative(p, Records(entries), r, limit)
  {
    var rs, s := Records(entries), Sorted(entries);
    RecordsOwn(entries);
    SortedOwn(entries);
    NewestMember(rs, r);
    var i :| 0 <= i < |s| && s[i] == r;
    ChosenAt(p, s, {}, i, limit);
    LabelsAreNewer(p, rs, i);
    assert {} + Labels(p, s[..i]) == Labels(p, s[..i]);
  }

  lemma {:induction false} RecordsOwn(entries: seq<Entry>)
    requires UniquePaths(entries)
    ensures OwnRecords(Records(entries))
  {
    if entries != [] {
      UniqueTail(entries);
      RecordsOwn(entries[1..]);
      forall x | x in Records(entries[1..]) ensures x.path != entries[0].path {
        RecordsMember(entries[1..], x);
      }
    }
  }

  /** A rotation keeps the current backup, the newest backup of each of the newest days and months, and every
      directory without a readable manifest; it removes everything else. */
  lemma RotationKeeps(entries: seq<Entry>, e: Entry, current: Path, daily: nat, monthly: nat)
    requires UniquePaths(entries) && e in entries
    ensures e in Rotated(entries, current, daily, monthly) <==>
      || e.manifest.None? || e.path == current
      || NewestOfDay(Records(entries), RecordOf(e), daily) || NewestOfMonth(Records(entries), RecordOf(e), monthly)
  {
    SurvivorsMember(entries, KeepPaths(Sorted(entries), current, daily, monthly), e);
    if e.manifest.Some? {
      RecordsMember(entries, RecordOf(e));
      ChosenIsRepresentative(Daily, entries, RecordOf(e), daily);
      ChosenIsRepresentative(Monthly, entries, RecordOf(e), monthly);
      RepresentativeMeans(Records(entries), RecordOf(e), daily);
      RepresentativeMeans(Records(entries), RecordOf(e), monthly);
    }
  }

  lemma {:induction false} SurvivorsMember(entries: seq<Entry>, keep: set<Path>, e: Entry)
    ensures e in Survivors(entries, keep) <==> e in entries && Survives(e, keep)
  {
    if entries != [] {
      SurvivorsMember(entries[1..], keep, e);
      assert entries == [entries[0]] + entries[1..];
    }
  }

  // ----- Rotating again -----

  ghost predicate ByTime(s: seq<Record>) {
    forall i, j | 0 <= i < j < |s| :: s[i].time >= s[j].time
  }

  lemma {:induction false} KeepingMember(s: seq<Record>, keep: set<Path>, x: Record)
    ensures x in Keeping(s, keep) <==> x in s && x.path in keep
  {
    if s != [] {
      KeepingMember(s[1..], keep, x);
      assert s == [s[0]] + s[1..];
    }
  }

  lemma InsertAtFront(r: Record, s: seq<Record>)
    requires forall x | x in s :: r.time >= x.time
    ensures InsertNewest(r, s) == [r] + s
  {
    assert s != [] ==> s[0] in s;
  }

  /** Inserting commutes with dropping records. */
  lemma {:induction false} InsertKeeping(r: Record, s: seq<Record>, keep: set<Path>)
    requires ByTime(s)
    ensures Keeping(InsertNewest(r, s), keep) ==
            if r.path in keep then InsertNewest(r, Keeping(s, keep)) else Keeping(s, keep)
  {
    if s == [] || r.time >= s[0].time {
      assert ([r] + s)[1..] == s;
      forall x | x in Keeping(s, keep) ensures r.time >= x.time {
        KeepingMember(s, keep, x);
      }
      InsertAtFront(r, Keeping(s, keep));
    } else {
      var rest := InsertNewest(r, s[1..]);
      InsertKeeping(r, s[1..], keep);
      assert ([s[0]] + rest)[1..] == rest;
      KeepingHead(s, keep);
    }
  }

  lemma {:induction false} InsertByTime(r: Record, s: seq<Record>)
    requires ByTime(s)
    ensures ByTime(InsertNewest(r, s))
  {
    if s == [] || r.time >= s[0].time {
    } else {
      var rest := InsertNewest(r, s[1..]);
      InsertByTime(r, s[1..]);
      forall x | x in rest ensures s[0].time >= x.time {
        InsertedMember(r, s[1..], x);
      }
    }
  }

  lemma {:induction false} NewestFirstByTime(rs: seq<Record>)
    ensures ByTime(NewestFirst(rs))
  {
    if rs != [] {
      NewestFirstByTime(rs[1..]);
      InsertByTime(rs[0], NewestFirst(rs[1..]));
    }
  }

  lemma {:induction false} SortKeeping(rs: seq<Record>, keep: set<Path>)
    ensures NewestFirst(Keeping(rs, keep)) == Keeping(NewestFirst(rs), keep)
  {
    if rs != [] {
      SortKeeping(rs[1..], keep);
      NewestFirstByTime(rs[1..]);
      InsertKeeping(rs[0], NewestFirst(rs[1..]), keep);
      KeepingHead(rs, keep);
    }
  }

  lemma RecordsCons(e: Entry, rest: seq<Entry>)
    ensures Records([e] + rest) == if e.manifest.Some? then [RecordOf(e)] + Records(rest) else Records(rest)
  {
    assert ([e] + rest)[1..] == rest;
  }

  lemma SurvivorsCons(e: Entry, rest: seq<Entry>, keep: set<Path>)
    ensures Survivors([e] + rest, keep) == if Survives(e, keep) then [e] + Survivors(rest, keep) else Survivors(rest, keep)
  {
    assert ([e] + rest)[1..] == rest;
  }

  lemma {:induction false} RecordsKeeping(entries: seq<Entry>, keep: set<Path>)
    ensures Records(Survivors(entries, keep)) == Keeping(Records(entries), keep)
  {
    if entries != [] {
      RecordsKeeping(entries[1..], keep);
      RecordsCons(entries[0], Survivors(entries[1..], keep));
      if entries[0].manifest.Some? {
        KeepingHead(Records(entries), keep);
        assert Records(entries)[1..] == Records(entries[1..]);
      }
    }
  }

  /** Sorting what survives is dropping the rest from what was sorted. */
  lemma SurvivorsSorted(entries: seq<Entry>, keep: set<Path>)
    ensures Sorted(Survivors(entries, keep)) == Keeping(Sorted(entries), keep)
  {
    RecordsKeeping(entries, keep);
    SortKeeping(Records(entries), keep);
  }

  lemma {:induction false} SurvivorsTwice(entries: seq<Entry>, keep: set<Path>, fewer: set<Path>)
    requires fewer <= keep
    ensures Survivors(Survivors(entries, keep), fewer) == Survivors(entries, fewer)
  {
    if entries != [] {
      SurvivorsTwice(entries[1..], keep, fewer);
      SurvivorsCons(entries[0], Survivors(entries[1..], keep), fewer);
      if Survives(entries[0], fewer) {
        assert Survives(entries[0], keep);
      }
    }
  }

  /** Rotating any directory between the chosen backups and the whole history is rotating the history. */
  lemma RotateBetween(entries: seq<Entry>, keep: set<Path>, current: Path, daily: nat, monthly: nat)
    requires KeepsChosen(Sorted(entries), daily, monthly, keep) && current in keep
    ensures Rotated(Survivors(entries, keep), current, daily, monthly) == Rotated(entries, current, daily, monthly)
  {
    SurvivorsSorted(entries, keep);
    SameKept(Sorted(entries), current, daily, monthly, keep);
    SurvivorsTwice(entries, keep, KeepPaths(Sorted(entries), current, daily, monthly));
  }

  /** A second rotation with the same current backup changes nothing, so it removes 0 backups. */
  lemma RotationIdempotent(entries: seq<Entry>, current: Path, daily: nat, monthly: nat)
    ensures var once := Rotated(entries, current, daily, monthly); Rotated(once, current, daily, monthly) == once
  {
    RotateBetween(entries, KeepPaths(Sorted(entries), current, daily, monthly), current, daily, monthly);
  }

  lemma {:induction false} KeepingBound(s: seq<Record>, keep: set<Path>)
    requires OwnRecords(s)
    ensures |Keeping(s, keep)| <= |keep|
  {
    if s != [] {
      if s[0].path in keep {
        KeepingBound(s[1..], keep - {s[0].path});
        KeepingOthers(s[1..], keep, s[0].path);
      } else {
        KeepingBound(s[1..], keep);
      }
    }
  }

  lemma {:induction false} KeepingOthers(s: seq<Record>, keep: set<Path>, x: Path)
    requires forall r | r in s :: r.path != x
    ensures Keeping(s, keep - {x}) == Keeping(s, keep)
  {
    if s != [] {
      assert s[0] in s;
      KeepingOthers(s[1..], keep, x);
    }
  }

  /** After a rotation there are at most the current backup and one for each period of the limits. */
  lemma RotationBound(entries: seq<Entry>, current: Path, daily: nat, monthly: nat)
    requires UniquePaths(entries)
    ensures |Records(Rotated(entries, current, daily, monthly))| <= daily + monthly + 1
  {
    var keep := KeepPaths(Sorted(entries), current, daily, monthly);
    RecordsOwn(entries);
    RecordsKeeping(entries, keep);
    KeepingBound(Records(entries), keep);
    KeptBound(Sorted(entries), current, daily, monthly);
  }

  // ----- Rotating after every backup -----

  /** One more directory is made; a rotation follows when the backup was completed with a manifest. */
  function Next(entries: seq<Entry>, made: Entry, daily: nat, monthly: nat): seq<Entry> {
    if made.manifest.None? then entries + [made] else Rotated(entries + [made], made.path, daily, monthly)
  }

  function Incremental(made: seq<Entry>, daily: nat, monthly: nat): seq<Entry> {
    if made == [] then [] else Next(Incremental(made[..|made| - 1], daily, monthly), made[|made| - 1], daily, monthly)
  }

  function PathsOf(entries: seq<Entry>): set<Path> {
    set e | e in entries :: e.path
  }

  lemma {:induction false} AllSurvive(entries: seq<Entry>, keep: set<Path>)
    requires forall e | e in entries :: Survives(e, keep)
    ensures Survivors(entries, keep) == entries
  {
    if entries != [] {
      assert entries[0] in entries;
      AllSurvive(entries[1..], keep);
    }
  }

  lemma {:induction false} SurvivorsConcat(a: seq<Entry>, b: seq<Entry>, keep: set<Path>)
    ensures Survivors(a + b, keep) == Survivors(a, keep) + Survivors(b, keep)
  {
    if a == [] {
      assert a + b == b;
    } else {
      assert (a + b)[1..] == a[1..] + b;
      SurvivorsConcat(a[1..], b, keep);
    }
  }

  lemma {:induction false} SameSurvivors(entries: seq<Entry>, keep: set<Path>, keep': set<Path>)
    requires forall e | e in entries :: Survives(e, keep) <==> Survives(e, keep')
    ensures Survivors(entries, keep) == Survivors(entries, keep')
  {
    if entries != [] {
      assert entries[0] in entries;
      SameSurvivors(entries[1..], keep, keep');
    }
  }

  /** Adding a directory at a path of its own to what survives. */
  lemma SurvivorsAdd(before: seq<Entry>, last: Entry, keep: set<Path>)
    requires forall e | e in before :: e.path != last.path
    ensures Survivors(before, keep) + [last] == Survivors(before + [last], keep + {last.path})
    ensures Survivors(before + [last], PathsOf(before)) == if last.manifest.None? then before + [last] else before
  {
    SurvivorsConcat(before, [last], keep + {last.path});
    SameSurvivors(before, keep, keep + {last.path});
    SurvivorsConcat(before, [last], PathsOf(before));
    AllSurvive(before, PathsOf(before));
  }

  /** The chosen backups after one more directory were chosen before, or are in the new one. */
  lemma AddKeepsChosen(before: seq<Entry>, last: Entry, daily: nat, monthly: nat, keep: set<Path>)
    requires (forall e | e in before :: e.path != last.path) && KeepsChosen(Sorted(before), daily, monthly, keep)
    ensures KeepsChosen(Sorted(before + [last]), daily, monthly, keep + {last.path})
  {
    var all := before + [last];
    SurvivorsAdd(before, last, keep);
    SurvivorsSorted(all, PathsOf(before));
    if last.manifest.None? {
      RecordsConcat(before, last);
    } else {
      forall r | r in Sorted(all) ensures r.path in PathsOf(before) || r.path == last.path {
        SortedMember(all, r);
      }
      ChosenBefore(Sorted(all), daily, monthly, PathsOf(before), last.path, keep);
    }
  }

  lemma {:induction false} RecordsConcat(before: seq<Entry>, last: Entry)
    requires last.manifest.None?
    ensures Records(before + [last]) == Records(before)
  {
    if before == [] {
      assert before + [last] == [last];
    } else {
      assert (before + [last])[1..] == before[1..] + [last];
      RecordsConcat(before[1..], last);
    }
  }

  /** When what is there contains the chosen backups of all that was made, so it does after one more. */
  lemma NextKeeps(before: seq<Entry>, last: Entry, daily: nat, monthly: nat, keep: set<Path>) returns (now: set<Path>)
    requires (forall e | e in before :: e.path != last.path) && KeepsChosen(Sorted(before), daily, monthly, keep)
    ensures Next(Survivors(before, keep), last, daily, monthly) == Survivors(before + [last], now)
    ensures KeepsChosen(Sorted(before + [last]), daily, monthly, now)
    ensures last.manifest.Some? ==>
              Next(Survivors(before, keep), last, daily, monthly) == Rotated(before + [last], last.path, daily, monthly)
  {
    now := keep + {last.path};
    SurvivorsAdd(before, last, keep);
    AddKeepsChosen(before, last, daily, monthly, keep);
    if last.manifest.Some? {
      RotateBetween(before + [last], now, last.path, daily, monthly);
      now := KeepPaths(Sorted(before + [last]), last.path, daily, monthly);
    }
  }

  lemma OwnLast(made: seq<Entry>)
    requires UniquePaths(made) && made != []
    ensures var before, last := made[..|made| - 1], made[|made| - 1];
      made == before + [last] && UniquePaths(before) && forall e | e in before :: e.path != last.path
  {}

  /** What is there after each step: at least the chosen backups of all that was made. */
  lemma {:induction false} IncrementalKeeps(made: seq<Entry>, daily: nat, monthly: nat) returns (keep: set<Path>)
    requires UniquePaths(made)
    ensures Incremental(made, daily, monthly) == Survivors(made, keep) && KeepsChosen(Sorted(made), daily, monthly, keep)
    ensures made != [] && made[|made| - 1].manifest.Some? ==>
              Incremental(made, daily, monthly) == Rotated(made, made[|made| - 1].path, daily, monthly)
  {
    if made == [] {
      keep := {};
    } else {
      OwnLast(made);
      keep := IncrementalKeeps(made[..|made| - 1], daily, monthly);
      keep := NextKeeps(made[..|made| - 1], made[|made| - 1], daily, monthly, keep);
    }
  }

  /** Rotating after every completed backup leaves exactly what one rotation over all directories ever made would leave. */
  lemma IncrementalIsBatch(made: seq<Entry>, daily: nat, monthly: nat)
    requires UniquePaths(made) && made != [] && made[|made| - 1].manifest.Some?
    ensures Incremental(made, daily, monthly) == Rotated(made, made[|made| - 1].path, daily, monthly)
  {
    var _ := IncrementalKeeps(made, daily, monthly);
  }
}
