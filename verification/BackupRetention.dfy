/** Which backups a rotation keeps: the choice of the loop over the sorted records, and what it means. */
module BackupRetention {
  import opened Basics

  type Path = nat

  /** A backup with a readable manifest. Day and month are the labels read off its creation time. */
  datatype Record = Record(path: Path, time: int, day: int, month: int)

  datatype Period = Daily | Monthly

  function Label(p: Period, r: Record): int {
    if p.Daily? then r.day else r.month
  }

  /** What the loop keeps of the records for one kind of period, when it has the labels `seen` already. */
  function Choose(p: Period, s: seq<Record>, seen: set<int>, limit: nat): set<Path> {
    if s == [] then {}
    else if |seen| < limit && Label(p, s[0]) !in seen then {s[0].path} + Choose(p, s[1..], seen + {Label(p, s[0])}, limit)
    else Choose(p, s[1..], seen, limit)
  }

  /** The paths a rotation keeps, given the records from the newest to the oldest. */
  function KeepPaths(s: seq<Record>, current: Path, daily: nat, monthly: nat): set<Path> {
    {current} + Choose(Daily, s, {}, daily) + Choose(Monthly, s, {}, monthly)
  }

  /** The records whose paths are in `keep`. */
  function Keeping(s: seq<Record>, keep: set<Path>): seq<Record> {
    if s == [] then []
    else if s[0].path in keep then [s[0]] + Keeping(s[1..], keep)
    else Keeping(s[1..], keep)
  }

  lemma KeepingHead(s: seq<Record>, keep: set<Path>)
    requires s != []
    ensures s[0].path in keep ==> Keeping(s, keep) != [] && Keeping(s, keep)[0] == s[0] && Keeping(s, keep)[1..] == Keeping(s[1..], keep)
    ensures s[0].path !in keep ==> Keeping(s, keep) == Keeping(s[1..], keep)
  {}

  // ----- What the loop chooses -----

  /** The records stand at pairwise different paths. */
  ghost predicate OwnRecords(s: seq<Record>) {
    forall i, j | 0 <= i < j < |s| :: s[i].path != s[j].path
  }

  function Labels(p: Period, s: seq<Record>): set<int> {
    set r | r in s :: Label(p, r)
  }

  function Paths(s: seq<Record>): set<Path> {
    set r | r in s :: r.path
  }

  lemma {:induction false} ChosenAreRecords(p: Period, s: seq<Record>, seen: set<int>, limit: nat)
    ensures Choose(p, s, seen, limit) <= Paths(s)
  {
    if s != [] {
      assert s[0] in s && Paths(s[1..]) <= Paths(s);
      ChosenAreRecords(p, s[1..], if |seen| < limit && Label(p, s[0]) !in seen then seen + {Label(p, s[0])} else seen, limit);
    }
  }

  lemma HeadChosen(p: Period, s: seq<Record>, seen: set<int>, limit: nat)
    requires OwnRecords(s) && s != []
    ensures s[0].path in Choose(p, s, seen, limit) <==> |seen| < limit && Label(p, s[0]) !in seen
  {
    ChosenAreRecords(p, s[1..], seen, limit);
    assert s[0].path !in Paths(s[1..]);
  }

  lemma LabelsOfPrefix(p: Period, s: seq<Record>, i: nat)
    requires 0 < i < |s|
    ensures Labels(p, s[..i]) == {Label(p, s[0])} + Labels(p, s[1..][..i - 1])
  {
    assert s[..i] == [s[0]] + s[1..][..i - 1];
  }

  /** The loop's labels after a record, while it is below its limit. */
  function Seen(p: Period, r: Record, seen: set<int>): set<int> {
    if Label(p, r) in seen then seen else seen + {Label(p, r)}
  }

  lemma SameBefore(p: Period, s: seq<Record>, seen: set<int>, i: nat)
    requires 0 < i < |s|
    ensures Seen(p, s[0], seen) + Labels(p, s[1..][..i - 1]) == seen + Labels(p, s[..i])
  {
    LabelsOfPrefix(p, s, i);
  }

  /** The first of its period, with fewer than `limit` periods before it. */
  predicate First(p: Period, r: Record, before: set<int>, limit: nat) {
    Label(p, r) !in before && |before| < limit
  }

  lemma TooMany(seen: set<int>, more: set<int>, limit: nat)
    requires |seen| >= limit
    ensures |seen + more| >= limit
  {
    SubsetSize(seen, seen + more);
  }

  /** A record is chosen exactly when it is the first of its period and fewer than `limit` periods come before it. */
  lemma {:induction false} ChosenAt(p: Period, s: seq<Record>, seen: set<int>, i: nat, limit: nat)
    requires OwnRecords(s) && i < |s|
    ensures s[i].path in Choose(p, s, seen, limit) <==> First(p, s[i], seen + Labels(p, s[..i]), limit)
  {
    if i == 0 {
      HeadChosen(p, s, seen, limit);
      assert seen + Labels(p, s[..0]) == seen;
    } else if |seen| >= limit {
      NoneLeft(p, s, seen, limit);
      TooMany(seen, Labels(p, s[..i]), limit);
    } else {
      ChosenAt(p, s[1..], Seen(p, s[0], seen), i - 1, limit);
      SameBefore(p, s, seen, i);
      assert s[i].path != s[0].path;
      assert s[1..][i - 1] == s[i];
    }
  }

  lemma {:induction false} ChooseBound(p: Period, s: seq<Record>, seen: set<int>, limit: nat)
    requires |seen| <= limit
    ensures |Choose(p, s, seen, limit)| <= limit - |seen|
  {
    if s != [] {
      if |seen| < limit && Label(p, s[0]) !in seen {
        ChooseBound(p, s[1..], seen + {Label(p, s[0])}, limit);
      } else {
        ChooseBound(p, s[1..], seen, limit);
      }
    }
  }

  /** A rotation keeps at most the current backup and one backup for each period of the limits. */
  lemma KeptBound(s: seq<Record>, current: Path, daily: nat, monthly: nat)
    ensures |KeepPaths(s, current, daily, monthly)| <= daily + monthly + 1
  {
    ChooseBound(Daily, s, {}, daily);
    ChooseBound(Monthly, s, {}, monthly);
  }

  // ----- Choosing among fewer records -----

  /** Dropping records that are not chosen does not change what is chosen. */
  lemma {:induction false} ChooseSame(p: Period, s: seq<Record>, seen: set<int>, limit: nat, keep: set<Path>)
    requires Choose(p, s, seen, limit) <= keep
    ensures Choose(p, Keeping(s, keep), seen, limit) == Choose(p, s, seen, limit)
  {
    if s != [] {
      KeepingHead(s, keep);
      if |seen| < limit && Label(p, s[0]) !in seen {
        assert s[0].path in Choose(p, s, seen, limit);
        ChooseSame(p, s[1..], seen + {Label(p, s[0])}, limit, keep);
      } else {
        ChooseSame(p, s[1..], seen, limit, keep);
      }
    }
  }

  /** A record that is chosen among more records is chosen among fewer. */
  lemma {:induction false} ChooseFewer(p: Period, s: seq<Record>, seen: set<int>, fewer: set<int>, limit: nat, keep: set<Path>)
    requires fewer <= seen || |seen| >= limit
    ensures Choose(p, s, seen, limit) * keep <= Choose(p, Keeping(s, keep), fewer, limit)
  {
    if s != [] {
      var l := Label(p, s[0]);
      var seen' := if |seen| < limit && l !in seen then seen + {l} else seen;
      var fewer' := if s[0].path in keep && |fewer| < limit && l !in fewer then fewer + {l} else fewer;
      KeepingHead(s, keep);
      if fewer <= seen {
        SubsetSize(fewer, seen);
      }
      ChooseFewer(p, s[1..], seen', fewer', limit, keep);
      if |seen| >= limit {
        NoneLeft(p, s, seen, limit);
      }
    }
  }

  lemma {:induction false} NoneLeft(p: Period, s: seq<Record>, seen: set<int>, limit: nat)
    requires |seen| >= limit
    ensures Choose(p, s, seen, limit) == {}
  {
    if s != [] {
      NoneLeft(p, s[1..], seen, limit);
    }
  }

  /** Both kinds of periods at once. */
  predicate KeepsChosen(s: seq<Record>, daily: nat, monthly: nat, keep: set<Path>) {
    Choose(Daily, s, {}, daily) <= keep && Choose(Monthly, s, {}, monthly) <= keep
  }

  /** Whatever else was dropped: as long as the chosen records are there, a rotation keeps the same paths. */
  lemma SameKept(s: seq<Record>, current: Path, daily: nat, monthly: nat, keep: set<Path>)
    requires KeepsChosen(s, daily, monthly, keep)
    ensures KeepPaths(Keeping(s, keep), current, daily, monthly) == KeepPaths(s, current, daily, monthly)
  {
    ChooseSame(Daily, s, {}, daily, keep);
    ChooseSame(Monthly, s, {}, monthly, keep);
  }

  /** Chosen records of a history with a new backup `x` were chosen before, except perhaps the new one. */
  lemma ChosenBefore(s: seq<Record>, daily: nat, monthly: nat, former: set<Path>, x: Path, keep: set<Path>)
    requires forall r | r in s :: r.path in former || r.path == x
    requires KeepsChosen(Keeping(s, former), daily, monthly, keep)
    ensures KeepsChosen(s, daily, monthly, keep + {x})
  {
    ChosenBeforeIn(Daily, s, daily, former, x, keep);
    ChosenBeforeIn(Monthly, s, monthly, former, x, keep);
  }

  lemma ChosenBeforeIn(p: Period, s: seq<Record>, limit: nat, former: set<Path>, x: Path, keep: set<Path>)
    requires forall r | r in s :: r.path in former || r.path == x
    requires Choose(p, Keeping(s, former), {}, limit) <= keep
    ensures Choose(p, s, {}, limit) <= keep + {x}
  {
    ChooseFewer(p, s, {}, {}, limit, former);
    ChosenAreRecords(p, s, {}, limit);
    forall y | y in Choose(p, s, {}, limit) ensures y in keep + {x} {
      assert y in Paths(s);
    }
  }
}
