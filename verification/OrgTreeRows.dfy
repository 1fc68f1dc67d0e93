/** What the rows of the tree view are: on any parent graph, and on a forest. */
module OrgTreeRows {
  import opened Basics
  import opened OrgTree

  // ----- Any parent graph -----

  function RowCount(rows: seq<Row>, id: nat): nat {
    if rows == [] then 0 else RowCount(rows[..|rows| - 1], id) + if rows[|rows| - 1].unit.id == id then 1 else 0
  }

  predicate ShownId(v: View, id: nat) {
    !v.searching || id in v.visible
  }

  /** Every visited unit that is shown has one row, and there is no other row. */
  ghost predicate Consistent(v: View, p: Progress) {
    && p.visited <= Ids(v.units)
    && (forall id :: RowCount(p.rows, id) == if id in p.visited && ShownId(v, id) then 1 else 0)
    && (forall r | r in p.rows :: r.unit in v.units)
  }

  lemma EmitConsistent(v: View, u: Unit, depth: nat, p: Progress)
    requires Consistent(v, p) && u in v.units && u.id !in p.visited
    ensures Consistent(v, Emit(v, u, depth, p))
  {
    var q := Emit(v, u, depth, p);
    if Shown(v, u) {
      assert q.rows[..|q.rows| - 1] == p.rows;
    } else {
      assert q.rows == p.rows;
    }
  }

  lemma VisitShrinks(v: View, u: Unit, visited: set<nat>)
    requires u in v.units && u.id !in visited
    ensures |Ids(v.units) - (visited + {u.id})| < |Ids(v.units) - visited|
  {
    assert Ids(v.units) - visited == (Ids(v.units) - (visited + {u.id})) + {u.id};
  }

  lemma {:induction false} AppendConsistent(v: View, u: Unit, depth: nat, p: Progress)
    requires Consistent(v, p) && u in v.units
    ensures Consistent(v, Append(v, u, depth, p))
    decreases |Ids(v.units) - p.visited|, 0
  {
    if u.id !in p.visited {
      EmitConsistent(v, u, depth, p);
      var emitted := Emit(v, u, depth, p);
      ChildrenAreUnits(v, Some(u.id));
      VisitShrinks(v, u, p.visited);
      if Traversed(v, u) {
        AppendAllConsistent(v, Children(v, u), depth + 1, emitted);
      }
    }
  }

  lemma {:induction false} AppendAllConsistent(v: View, us: seq<Unit>, depth: nat, p: Progress)
    requires Consistent(v, p) && forall u | u in us :: u in v.units
    ensures Consistent(v, AppendAll(v, us, depth, p))
    decreases |Ids(v.units) - p.visited|, |us|
  {
    if us != [] {
      var first := Append(v, us[0], depth, p);
      AppendConsistent(v, us[0], depth, p);
      SubsetSize(Ids(v.units) - first.visited, Ids(v.units) - p.visited);
      AppendAllConsistent(v, us[1..], depth, first);
    }
  }

  /** On any parent graph, cycles included, every unit that is shown has exactly one row, and no other unit has one. */
  lemma EachShownOnce(v: View, u: Unit)
    requires u in v.units
    ensures RowCount(Flatten(v), u.id) == if Shown(v, u) then 1 else 0
    ensures forall r | r in Flatten(v) :: r.unit in v.units
  {
    var start := Progress({}, []);
    ChildrenAreUnits(v, None);
    assert Consistent(v, start);
    AppendAllConsistent(v, Roots(v), 0, start);
    AppendAllConsistent(v, v.units, 0, AppendAll(v, Roots(v), 0, start));
  }

  /** What a search shows. */
  ghost function Searching(units: seq<Unit>, expanded: set<nat>): View {
    View(units, true, expanded, MatchingIds(units))
  }

  /** A search emits exactly the matching units and all their ancestors, each once. */
  lemma SearchRows(units: seq<Unit>, expanded: set<nat>, u: Unit)
    requires UniqueIds(units) && u in units
    ensures RowCount(Flatten(Searching(units, expanded)), u.id) == if Matching(units, u.id) then 1 else 0
  {
    EachShownOnce(Searching(units, expanded), u);
  }

  // ----- Forests -----

  /** A unit whose depth is recorded: 0 without a parent, one more than its parent's otherwise. */
  ghost predicate Placed(units: seq<Unit>, level: map<nat, nat>, u: Unit) {
    && u in units && u.id in level
    && (u.parentId.None? ==> level[u.id] == 0)
    && (u.parentId.Some? ==> ParentOf(units, u).Some? && u.parentId.value in level && level[u.id] == level[u.parentId.value] + 1)
  }

  /** The depth of every unit; ForestsHaveLevels says when there is one. */
  ghost predicate Levels(units: seq<Unit>, level: map<nat, nat>) {
    forall u {:trigger Placed(units, level, u)} | u in units :: Placed(units, level, u)
  }

  function Top(units: seq<Unit>, level: map<nat, nat>): nat {
    if units == [] then 0
    else
      var rest := Top(units[1..], level);
      if units[0].id in level && level[units[0].id] > rest then level[units[0].id] else rest
  }

  lemma {:induction false} TopBounds(units: seq<Unit>, level: map<nat, nat>, u: Unit)
    requires u in units && u.id in level
    ensures level[u.id] <= Top(units, level)
  {
    if u != units[0] {
      TopBounds(units[1..], level, u);
    }
  }

  /** Units of one level. */
  ghost predicate OnLevel(v: View, level: map<nat, nat>, us: seq<Unit>, k: nat) {
    forall u | u in us :: Placed(v.units, level, u) && level[u.id] == k
  }

  lemma ChildLevels(v: View, level: map<nat, nat>, u: Unit)
    requires Levels(v.units, level) && Placed(v.units, level, u)
    ensures OnLevel(v, level, Children(v, u), level[u.id] + 1)
  {
    ChildrenAreUnits(v, Some(u.id));
    forall c | c in Children(v, u) ensures Placed(v.units, level, c) {}
  }

  lemma RootLevels(v: View, level: map<nat, nat>)
    requires Levels(v.units, level)
    ensures OnLevel(v, level, Roots(v), 0)
  {
    ChildrenAreUnits(v, None);
    forall c | c in Roots(v) ensures Placed(v.units, level, c) {}
  }

  /** The shown part of the subtree of a unit in preorder: the unit, then the subtrees of its children in sibling order. */
  ghost function Preorder(v: View, level: map<nat, nat>, u: Unit): seq<Row>
    requires Levels(v.units, level) && Placed(v.units, level, u)
    decreases Top(v.units, level) - level[u.id], 0
  {
    ChildLevels(v, level, u);
    TopBounds(v.units, level, u);
    if !Shown(v, u) then []
    else [Row(u, level[u.id], Children(v, u) != [])] + PreorderAll(v, level, Children(v, u), level[u.id] + 1)
  }

  ghost function PreorderAll(v: View, level: map<nat, nat>, us: seq<Unit>, k: nat): seq<Row>
    requires Levels(v.units, level) && OnLevel(v, level, us, k)
    decreases Top(v.units, level) - k, |us|
  {
    if us == [] then []
    else
      assert us[0] in us;
      Preorder(v, level, us[0]) + PreorderAll(v, level, us[1..], k)
  }

  /** The units a traversal reaches from a unit. */
  ghost function Reached(v: View, level: map<nat, nat>, u: Unit): set<nat>
    requires Levels(v.units, level) && Placed(v.units, level, u)
    decreases Top(v.units, level) - level[u.id], 0
  {
    ChildLevels(v, level, u);
    TopBounds(v.units, level, u);
    {u.id} + if Traversed(v, u) then ReachedAll(v, level, Children(v, u), level[u.id] + 1) else {}
  }

  ghost function ReachedAll(v: View, level: map<nat, nat>, us: seq<Unit>, k: nat): set<nat>
    requires Levels(v.units, level) && OnLevel(v, level, us, k)
    decreases Top(v.units, level) - k, |us|
  {
    if us == [] then {}
    else
      assert us[0] in us;
      Reached(v, level, us[0]) + ReachedAll(v, level, us[1..], k)
  }

  lemma FindSelf(units: seq<Unit>, u: Unit)
    requires UniqueIds(units) && u in units
    ensures Find(units, u.id) == Some(u)
  {
    SameId(units, Find(units, u.id).value, u);
  }

  /** The unit with this identifier, `n` steps below `u` along parents. */
  ghost predicate Below(units: seq<Unit>, id: nat, u: Unit, n: nat) {
    Find(units, id).Some? && Climb(units, Find(units, id).value, n) == Some(u)
  }

  /** A child of a unit names it as its parent. */
  lemma ChildParent(v: View, u: Unit, c: Unit)
    requires UniqueIds(v.units) && u in v.units && c in Children(v, u)
    ensures c in v.units && ParentOf(v.units, c) == Some(u)
  {
    ChildrenAreUnits(v, Some(u.id));
    FindSelf(v.units, u);
  }

  /** Everything reached from a unit lies below it. */
  lemma {:induction false} ReachedBelow(v: View, level: map<nat, nat>, u: Unit, id: nat) returns (n: nat)
    requires UniqueIds(v.units) && Levels(v.units, level) && Placed(v.units, level, u) && id in Reached(v, level, u)
    ensures Below(v.units, id, u, n)
    decreases Top(v.units, level) - level[u.id], 0
  {
    if id == u.id {
      FindSelf(v.units, u);
      n := 0;
    } else {
      ChildLevels(v, level, u);
      TopBounds(v.units, level, u);
      var c, m := ReachedAllBelow(v, level, Children(v, u), level[u.id] + 1, id);
      ChildParent(v, u, c);
      ClimbFurther(v.units, Find(v.units, id).value, m);
      n := m + 1;
    }
  }

  lemma {:induction false} ReachedAllBelow(v: View, level: map<nat, nat>, us: seq<Unit>, k: nat, id: nat) returns (c: Unit, n: nat)
    requires UniqueIds(v.units) && Levels(v.units, level) && OnLevel(v, level, us, k) && id in ReachedAll(v, level, us, k)
    ensures c in us && Below(v.units, id, c, n)
    decreases Top(v.units, level) - k, |us|
  {
    assert us[0] in us;
    if id in Reached(v, level, us[0]) {
      n := ReachedBelow(v, level, us[0], id);
      c := us[0];
    } else {
      c, n := ReachedAllBelow(v, level, us[1..], k, id);
    }
  }

  lemma {:induction false} ClimbLevel(units: seq<Unit>, level: map<nat, nat>, u: Unit, n: nat)
    requires Levels(units, level) && u in units && Climb(units, u, n).Some?
    ensures Placed(units, level, u) && Placed(units, level, Climb(units, u, n).value)
    ensures level[u.id] == level[Climb(units, u, n).value.id] + n
    decreases n
  {
    assert Placed(units, level, u);
    if n > 0 {
      ClimbLevel(units, level, ParentOf(units, u).value, n - 1);
    }
  }

  lemma BelowLevel(units: seq<Unit>, level: map<nat, nat>, id: nat, u: Unit, n: nat)
    requires Levels(units, level) && Below(units, id, u, n)
    ensures Placed(units, level, u) && id in level && level[id] == level[u.id] + n
  {
    ClimbLevel(units, level, Find(units, id).value, n);
  }

  /** A parent chain that comes back to where it started. */
  ghost predicate Returns(units: seq<Unit>, u: Unit, n: nat) {
    n > 0 && Climb(units, u, n) == Some(u)
  }

  ghost predicate ParentPresent(units: seq<Unit>, u: Unit) {
    u.parentId.Some? ==> ParentOf(units, u).Some?
  }

  /** All parents are present and no parent chain is a cycle. */
  ghost predicate Forest(units: seq<Unit>) {
    && (forall u {:trigger ParentPresent(units, u)} | u in units :: ParentPresent(units, u))
    && forall u, n {:trigger Returns(units, u, n)} | u in units :: !Returns(units, u, n)
  }

  /** `n` steps to the parent lead to a root. */
  ghost predicate RootAt(units: seq<Unit>, u: Unit, n: nat) {
    Climb(units, u, n).Some? && Climb(units, u, n).value.parentId.None?
  }

  /** A chain of parents came through this unit before it arrived at `u`. */
  ghost predicate CameThrough(units: seq<Unit>, u: Unit, id: nat) {
    exists w: Unit, n: nat :: w in units && w.id == id && n > 0 && Climb(units, w, n) == Some(u)
  }

  lemma ComeThrough(units: seq<Unit>, u: Unit, id: nat)
    requires u in units && ParentOf(units, u).Some? && (CameThrough(units, u, id) || id == u.id)
    ensures CameThrough(units, ParentOf(units, u).value, id)
  {
    var parent := ParentOf(units, u).value;
    if id == u.id {
      assert Climb(units, parent, 0) == Some(parent);
      assert u in units && Climb(units, u, 1) == Some(parent);
    } else {
      var w, n: nat :| w in units && w.id == id && n > 0 && Climb(units, w, n) == Some(u);
      ClimbFurther(units, w, n);
      assert w in units && n + 1 > 0 && Climb(units, w, n + 1) == Some(parent);
    }
  }

  lemma ThroughItself(units: seq<Unit>, u: Unit) returns (n: nat)
    requires UniqueIds(units) && u in units && CameThrough(units, u, u.id)
    ensures Returns(units, u, n)
  {
    var w, m: nat :| w in units && w.id == u.id && m > 0 && Climb(units, w, m) == Some(u);
    SameId(units, w, u);
    n := m;
  }

  lemma RootAbove(units: seq<Unit>, u: Unit, n: nat)
    requires ParentOf(units, u).Some? && RootAt(units, ParentOf(units, u).value, n)
    ensures RootAt(units, u, n + 1)
  {}

  lemma {:induction false} ReachesRoot(units: seq<Unit>, u: Unit, past: set<nat>) returns (n: nat)
    requires UniqueIds(units) && Forest(units) && u in units && past <= Ids(units)
    requires forall id | id in past :: CameThrough(units, u, id)
    ensures RootAt(units, u, n)
    decreases |Ids(units) - past|
  {
    assert ParentPresent(units, u);
    if u.parentId.None? {
      n := 0;
    } else {
      if u.id in past {
        var m := ThroughItself(units, u);
      }
      var parent := ParentOf(units, u).value;
      forall id | id in past + {u.id} ensures CameThrough(units, parent, id) {
        ComeThrough(units, u, id);
      }
      assert Ids(units) - past == (Ids(units) - (past + {u.id})) + {u.id};
      n := ReachesRoot(units, parent, past + {u.id});
      RootAbove(units, u, n);
      n := n + 1;
    }
  }

  lemma {:induction false} OneRoot(units: seq<Unit>, u: Unit, n: nat, m: nat)
    requires RootAt(units, u, n) && RootAt(units, u, m)
    ensures n == m
    decreases n
  {
    if n > 0 && m > 0 {
      OneRoot(units, ParentOf(units, u).value, n - 1, m - 1);
    }
  }

  ghost function Depth(units: seq<Unit>, id: nat): nat
    requires UniqueIds(units) && Forest(units) && id in Ids(units)
  {
    var u := Find(units, id).value;
    assert exists n: nat :: RootAt(units, u, n) by {
      var n := ReachesRoot(units, u, {});
    }
    var n: nat :| RootAt(units, u, n);
    n
  }

  lemma DepthPlaced(units: seq<Unit>, level: map<nat, nat>, u: Unit)
    requires UniqueIds(units) && Forest(units) && u in units
    requires level == map id | id in Ids(units) :: Depth(units, id)
    ensures Placed(units, level, u)
  {
    FindSelf(units, u);
    var n := Depth(units, u.id);
    if u.parentId.None? {
      OneRoot(units, u, n, 0);
    } else {
      assert ParentPresent(units, u);
      var parent := ParentOf(units, u).value;
      FindSelf(units, parent);
      OneRoot(units, u, n, Depth(units, parent.id) + 1);
    }
  }

  /** Units have depths if and only if all parents are present and no parent chain is a cycle. */
  lemma ForestsHaveLevels(units: seq<Unit>)
    requires UniqueIds(units)
    ensures Forest(units) <==> exists level :: Levels(units, level)
  {
    if Forest(units) {
      var level := map id | id in Ids(units) :: Depth(units, id);
      forall u | u in units ensures Placed(units, level, u) {
        DepthPlaced(units, level, u);
      }
      assert Levels(units, level);
    }
    if level :| Levels(units, level) {
      forall u | u in units ensures ParentPresent(units, u) {
        assert Placed(units, level, u);
      }
      forall u, n: nat | u in units ensures !Returns(units, u, n) {
        if Climb(units, u, n).Some? {
          ClimbLevel(units, level, u, n);
        }
      }
    }
  }

  /** Two units of one level with something below both are one unit. */
  lemma SameAncestor(units: seq<Unit>, level: map<nat, nat>, id: nat, u: Unit, n: nat, w: Unit, m: nat)
    requires Levels(units, level) && Below(units, id, u, n) && Below(units, id, w, m)
    requires u.id in level && w.id in level && level[u.id] == level[w.id]
    ensures u == w
  {
    BelowLevel(units, level, id, u, n);
    BelowLevel(units, level, id, w, m);
  }

  ghost predicate NoRepeats(us: seq<Unit>) {
    forall i, j | 0 <= i < j < |us| :: us[i] != us[j]
  }

  lemma NoRepeatsTail(us: seq<Unit>)
    requires NoRepeats(us) && us != []
    ensures us[0] in us && us[0] !in us[1..] && NoRepeats(us[1..])
  {
    forall i | 0 <= i < |us| - 1 ensures us[1..][i] != us[0] {
      assert us[1..][i] == us[i + 1];
    }
  }

  lemma {:induction false} CountNoRepeats(us: seq<Unit>)
    requires forall u :: multiset(us)[u] <= 1
    ensures NoRepeats(us)
  {
    if us != [] {
      assert us == [us[0]] + us[1..];
      forall u ensures multiset(us[1..])[u] <= 1 {
        assert multiset(us)[u] <= 1;
      }
      CountNoRepeats(us[1..]);
      forall j | 0 < j < |us| ensures us[0] != us[j] {
        assert us[1..][j - 1] in multiset(us[1..]);
        assert multiset(us)[us[j]] <= 1;
      }
    }
  }

  lemma {:induction false} UnitsCounted(units: seq<Unit>, u: Unit)
    requires UniqueIds(units)
    ensures multiset(units)[u] <= 1
  {
    if units != [] {
      assert units == [units[0]] + units[1..];
      UnitsCounted(units[1..], u);
      assert units[0] !in units[1..] by {
        NoRepeatsTail(units);
      }
      assert units[0] !in multiset(units[1..]);
    }
  }

  lemma ChildrenNoRepeats(units: seq<Unit>, parent: Option<nat>)
    requires UniqueIds(units)
    ensures NoRepeats(ChildrenOf(units, parent))
  {
    forall u ensures multiset(ChildrenOf(units, parent))[u] <= 1 {
      ChildrenMembers(units, parent, u);
      UnitsCounted(units, u);
    }
    CountNoRepeats(ChildrenOf(units, parent));
  }

  /** What one unit reaches is not reached from the siblings after it. */
  lemma SiblingApart(v: View, level: map<nat, nat>, us: seq<Unit>, k: nat, id: nat)
    requires UniqueIds(v.units) && Levels(v.units, level) && OnLevel(v, level, us, k) && us != [] && us[0] in us
    requires us[0] !in us[1..] && id in Reached(v, level, us[0])
    ensures id !in ReachedAll(v, level, us[1..], k)
  {
    if id in ReachedAll(v, level, us[1..], k) {
      var n := ReachedBelow(v, level, us[0], id);
      var c, m := ReachedAllBelow(v, level, us[1..], k, id);
      SameAncestor(v.units, level, id, us[0], n, c, m);
    }
  }

  /** A unit is not reached from its children. */
  lemma NotBelowItself(v: View, level: map<nat, nat>, u: Unit)
    requires UniqueIds(v.units) && Levels(v.units, level) && Placed(v.units, level, u)
    ensures OnLevel(v, level, Children(v, u), level[u.id] + 1)
    ensures u.id !in ReachedAll(v, level, Children(v, u), level[u.id] + 1)
  {
    ChildLevels(v, level, u);
    if u.id in ReachedAll(v, level, Children(v, u), level[u.id] + 1) {
      var c, n := ReachedAllBelow(v, level, Children(v, u), level[u.id] + 1, u.id);
      BelowLevel(v.units, level, u.id, c, n);
    }
  }

  /** A shown unit has a shown parent that the traversal opens. */
  ghost predicate Connected(v: View) {
    forall u, p {:trigger OpenedBy(v, u, p)} | u in v.units && ParentOf(v.units, u) == Some(p) :: OpenedBy(v, u, p)
  }

  predicate OpenedBy(v: View, u: Unit, p: Unit) {
    Shown(v, u) ==> Shown(v, p) && Traversed(v, p)
  }

  lemma {:induction false} NothingShown(v: View, level: map<nat, nat>, us: seq<Unit>, k: nat)
    requires Levels(v.units, level) && OnLevel(v, level, us, k) && forall u | u in us :: !Shown(v, u)
    ensures PreorderAll(v, level, us, k) == []
    decreases |us|
  {
    if us != [] {
      assert us[0] in us;
      NothingShown(v, level, us[1..], k);
    }
  }

  /** Below a unit that is hidden or stays closed nothing is shown. */
  lemma ClosedHides(v: View, level: map<nat, nat>, u: Unit)
    requires UniqueIds(v.units) && Levels(v.units, level) && Connected(v) && Placed(v.units, level, u)
    requires !Shown(v, u) || !Traversed(v, u)
    ensures OnLevel(v, level, Children(v, u), level[u.id] + 1)
    ensures PreorderAll(v, level, Children(v, u), level[u.id] + 1) == []
  {
    ChildLevels(v, level, u);
    forall c | c in Children(v, u) ensures !Shown(v, c) {
      ChildParent(v, u, c);
      assert OpenedBy(v, c, u);
    }
    NothingShown(v, level, Children(v, u), level[u.id] + 1);
  }

  /** What the traversal is expected to add for a unit. */
  ghost predicate AddsSubtree(v: View, level: map<nat, nat>, u: Unit, p: Progress)
    requires Levels(v.units, level) && Placed(v.units, level, u)
  {
    Append(v, u, level[u.id], p) == Progress(p.visited + Reached(v, level, u), p.rows + Preorder(v, level, u))
  }

  ghost predicate AddsSubtrees(v: View, level: map<nat, nat>, us: seq<Unit>, k: nat, p: Progress)
    requires Levels(v.units, level) && OnLevel(v, level, us, k)
  {
    AppendAll(v, us, k, p) == Progress(p.visited + ReachedAll(v, level, us, k), p.rows + PreorderAll(v, level, us, k))
  }

  /** From a fresh unit of a connected forest the traversal adds exactly its subtree in preorder. */
  lemma {:induction false} AppendForest(v: View, level: map<nat, nat>, u: Unit, p: Progress)
    requires UniqueIds(v.units) && Levels(v.units, level) && Connected(v) && Placed(v.units, level, u)
    requires Reached(v, level, u) !! p.visited
    ensures AddsSubtree(v, level, u, p)
    decreases Top(v.units, level) - level[u.id], 0
  {
    ChildLevels(v, level, u);
    if Traversed(v, u) {
      TopBounds(v.units, level, u);
      ChildrenNoRepeats(v.units, Some(u.id));
      NotBelowItself(v, level, u);
      AppendAllForest(v, level, Children(v, u), level[u.id] + 1, Emit(v, u, level[u.id], p));
      AppendOpen(v, level, u, p);
    } else {
      ClosedHides(v, level, u);
    }
  }

  lemma AppendOpen(v: View, level: map<nat, nat>, u: Unit, p: Progress)
    requires UniqueIds(v.units) && Levels(v.units, level) && Connected(v) && Placed(v.units, level, u)
    requires u.id !in p.visited && Traversed(v, u) && OnLevel(v, level, Children(v, u), level[u.id] + 1)
    requires AddsSubtrees(v, level, Children(v, u), level[u.id] + 1, Emit(v, u, level[u.id], p))
    ensures AddsSubtree(v, level, u, p)
  {
    var row := Row(u, level[u.id], Children(v, u) != []);
    var below := PreorderAll(v, level, Children(v, u), level[u.id] + 1);
    if Shown(v, u) {
      assert (p.rows + [row]) + below == p.rows + ([row] + below);
    } else {
      ClosedHides(v, level, u);
    }
  }

  lemma {:induction false} AppendAllForest(v: View, level: map<nat, nat>, us: seq<Unit>, k: nat, p: Progress)
    requires UniqueIds(v.units) && Levels(v.units, level) && Connected(v)
    requires OnLevel(v, level, us, k) && NoRepeats(us) && ReachedAll(v, level, us, k) !! p.visited
    ensures AddsSubtrees(v, level, us, k, p)
    decreases Top(v.units, level) - k, |us|
  {
    if us != [] {
      NoRepeatsTail(us);
      AppendForest(v, level, us[0], p);
      forall id | id in Reached(v, level, us[0]) ensures id !in ReachedAll(v, level, us[1..], k) {
        SiblingApart(v, level, us, k, id);
      }
      AppendAllForest(v, level, us[1..], k, Append(v, us[0], k, p));
      AppendNext(v, level, us, k, p);
    }
  }

  lemma AppendNext(v: View, level: map<nat, nat>, us: seq<Unit>, k: nat, p: Progress)
    requires Levels(v.units, level) && OnLevel(v, level, us, k) && us != [] && us[0] in us
    requires AddsSubtree(v, level, us[0], p) && AddsSubtrees(v, level, us[1..], k, Append(v, us[0], k, p))
    ensures AddsSubtrees(v, level, us, k, p)
  {
    var first := Preorder(v, level, us[0]);
    var rest := PreorderAll(v, level, us[1..], k);
    assert (p.rows + first) + rest == p.rows + (first + rest);
  }

  lemma {:induction false} MemberReached(v: View, level: map<nat, nat>, us: seq<Unit>, k: nat, c: Unit)
    requires Levels(v.units, level) && OnLevel(v, level, us, k) && c in us
    ensures c.id in ReachedAll(v, level, us, k)
    decreases |us|
  {
    assert us[0] in us;
    if c != us[0] {
      MemberReached(v, level, us[1..], k, c);
    }
  }

  /** The children of an open unit are reached wherever the unit is. */
  lemma {:induction false} ReachedDown(v: View, level: map<nat, nat>, u: Unit, parent: Unit, c: Unit)
    requires UniqueIds(v.units) && Levels(v.units, level) && Placed(v.units, level, u)
    requires parent in v.units && Traversed(v, parent) && c in Children(v, parent)
    requires parent.id in Reached(v, level, u)
    ensures c.id in Reached(v, level, u)
    decreases Top(v.units, level) - level[u.id], 0
  {
    ChildLevels(v, level, u);
    TopBounds(v.units, level, u);
    if parent.id == u.id {
      SameId(v.units, parent, u);
      MemberReached(v, level, Children(v, u), level[u.id] + 1, c);
    } else {
      ReachedAllDown(v, level, Children(v, u), level[u.id] + 1, parent, c);
    }
  }

  lemma {:induction false} ReachedAllDown(v: View, level: map<nat, nat>, us: seq<Unit>, k: nat, parent: Unit, c: Unit)
    requires UniqueIds(v.units) && Levels(v.units, level) && OnLevel(v, level, us, k)
    requires parent in v.units && Traversed(v, parent) && c in Children(v, parent)
    requires parent.id in ReachedAll(v, level, us, k)
    ensures c.id in ReachedAll(v, level, us, k)
    decreases Top(v.units, level) - k, |us|
  {
    assert us[0] in us;
    if parent.id in Reached(v, level, us[0]) {
      ReachedDown(v, level, us[0], parent, c);
    } else {
      ReachedAllDown(v, level, us[1..], k, parent, c);
    }
  }

  /** In a connected forest every shown unit is reached from the roots. */
  lemma {:induction false} ShownReached(v: View, level: map<nat, nat>, u: Unit)
    requires UniqueIds(v.units) && Levels(v.units, level) && Connected(v) && Placed(v.units, level, u) && Shown(v, u)
    ensures OnLevel(v, level, Roots(v), 0) && u.id in ReachedAll(v, level, Roots(v), 0)
    decreases level[u.id]
  {
    RootLevels(v, level);
    ChildrenMembers(v.units, u.parentId, u);
    if u.parentId.None? {
      MemberReached(v, level, Roots(v), 0, u);
    } else {
      var parent := ParentOf(v.units, u).value;
      assert OpenedBy(v, u, parent) && Placed(v.units, level, parent);
      ShownReached(v, level, parent);
      ReachedAllDown(v, level, Roots(v), 0, parent, u);
    }
  }

  /** A unit that is hidden in a connected view has no shown child, so a search does not open it. */
  lemma HiddenClosed(v: View, u: Unit)
    requires UniqueIds(v.units) && Connected(v) && u in v.units && !Shown(v, u)
    ensures !Traversed(v, u)
  {
    forall c | c in Children(v, u) ensures c.id !in v.visible {
      ChildParent(v, u, c);
      assert OpenedBy(v, c, u);
    }
  }

  /** Once every shown unit was visited, nothing that is appended emits a row. */
  lemma {:induction false} TrailingSilent(v: View, us: seq<Unit>, p: Progress)
    requires UniqueIds(v.units) && Connected(v) && (forall u | u in us :: u in v.units)
    requires forall u | u in v.units && Shown(v, u) :: u.id in p.visited
    ensures AppendAll(v, us, 0, p).rows == p.rows
    decreases |us|
  {
    if us != [] {
      var u := us[0];
      assert u in us;
      if u.id !in p.visited {
        HiddenClosed(v, u);
      }
      TrailingSilent(v, us[1..], Append(v, u, 0, p));
    }
  }

  /** On a connected forest the rows are the shown units in preorder, each with its true depth. */
  lemma ForestRows(v: View, level: map<nat, nat>)
    requires UniqueIds(v.units) && Levels(v.units, level) && Connected(v)
    ensures OnLevel(v, level, Roots(v), 0) && Flatten(v) == PreorderAll(v, level, Roots(v), 0)
  {
    var start := Progress({}, []);
    RootLevels(v, level);
    ChildrenNoRepeats(v.units, None);
    ChildrenAreUnits(v, None);
    AppendAllForest(v, level, Roots(v), 0, start);
    var p := AppendAll(v, Roots(v), 0, start);
    forall u | u in v.units && Shown(v, u) ensures u.id in p.visited {
      assert Placed(v.units, level, u);
      ShownReached(v, level, u);
    }
    TrailingSilent(v, v.units, p);
  }

  /** A search over a forest is connected: the visible units contain their ancestors. */
  lemma SearchConnected(v: View)
    requires UniqueIds(v.units) && v.searching && UpwardClosed(v.units, v.visible)
    ensures Connected(v)
  {
    forall u, p | u in v.units && ParentOf(v.units, u) == Some(p) ensures OpenedBy(v, u, p) {
      ChildrenMembers(v.units, u.parentId, u);
    }
  }

  lemma {:induction false} ClimbInside(units: seq<Unit>, u: Unit, n: nat)
    requires u in units && Climb(units, u, n).Some?
    ensures Climb(units, u, n).value in units
    decreases n
  {
    if n > 0 {
      ClimbInside(units, ParentOf(units, u).value, n - 1);
    }
  }

  /** What a search shows contains the parents. */
  lemma MatchingClosed(units: seq<Unit>)
    requires UniqueIds(units)
    ensures UpwardClosed(units, MatchingIds(units))
  {
    forall u | u in units && u.id in MatchingIds(units) && ParentOf(units, u).Some? ensures ParentOf(units, u).value.id in MatchingIds(units) {
      var w, n: nat :| w in units && w.hit && Climb(units, w, n).Some? && Climb(units, w, n).value.id == u.id;
      ClimbFurther(units, w, n);
      ClimbInside(units, w, n);
      SameId(units, Climb(units, w, n).value, u);
      assert Climb(units, w, n + 1) == ParentOf(units, u);
      assert Matching(units, ParentOf(units, u).value.id);
    }
  }

  /** A search over a forest lists the matching units and their ancestors in preorder, each with its true depth. */
  lemma SearchForestRows(units: seq<Unit>, expanded: set<nat>, level: map<nat, nat>)
    requires UniqueIds(units) && Levels(units, level)
    ensures var v := Searching(units, expanded);
      OnLevel(v, level, Roots(v), 0) && Flatten(v) == PreorderAll(v, level, Roots(v), 0)
  {
    MatchingClosed(units);
    SearchConnected(Searching(units, expanded));
    ForestRows(Searching(units, expanded), level);
  }

  // ----- Browsing without a search -----

  lemma {:induction false} PreorderDepths(v: View, level: map<nat, nat>, u: Unit, r: Row)
    requires Levels(v.units, level) && Placed(v.units, level, u) && r in Preorder(v, level, u)
    ensures Placed(v.units, level, r.unit) && r.depth == level[r.unit.id]
    decreases Top(v.units, level) - level[u.id], 0
  {
    ChildLevels(v, level, u);
    TopBounds(v.units, level, u);
    if r in PreorderAll(v, level, Children(v, u), level[u.id] + 1) {
      PreorderAllDepths(v, level, Children(v, u), level[u.id] + 1, r);
    }
  }

  lemma {:induction false} PreorderAllDepths(v: View, level: map<nat, nat>, us: seq<Unit>, k: nat, r: Row)
    requires Levels(v.units, level) && OnLevel(v, level, us, k) && r in PreorderAll(v, level, us, k)
    ensures Placed(v.units, level, r.unit) && r.depth == level[r.unit.id]
    decreases Top(v.units, level) - k, |us|
  {
    assert us[0] in us;
    if r in Preorder(v, level, us[0]) {
      PreorderDepths(v, level, us[0], r);
    } else {
      PreorderAllDepths(v, level, us[1..], k, r);
    }
  }

  /** A unit whose parent stays closed is visited only when it is appended itself. */
  lemma {:induction false} ClosedParent(v: View, w: Unit, depth: nat, p: Progress, u: Unit)
    requires UniqueIds(v.units) && w in v.units && u in v.units && u.id !in p.visited && u != w
    requires ParentOf(v.units, u).Some? && !Traversed(v, ParentOf(v.units, u).value)
    ensures u.id !in Append(v, w, depth, p).visited
    decreases |Ids(v.units) - p.visited|, 0
  {
    if w.id !in p.visited && Traversed(v, w) {
      var emitted := Emit(v, w, depth, p);
      ChildrenAreUnits(v, Some(w.id));
      VisitShrinks(v, w, p.visited);
      if u in Children(v, w) {
        ChildParent(v, w, u);
      }
      if u.id == w.id {
        SameId(v.units, u, w);
      }
      ClosedParentAll(v, Children(v, w), depth + 1, emitted, u);
    } else if u.id == w.id {
      SameId(v.units, u, w);
    }
  }

  lemma {:induction false} ClosedParentAll(v: View, us: seq<Unit>, depth: nat, p: Progress, u: Unit)
    requires UniqueIds(v.units) && (forall w | w in us :: w in v.units) && u in v.units && u.id !in p.visited && u !in us
    requires ParentOf(v.units, u).Some? && !Traversed(v, ParentOf(v.units, u).value)
    ensures u.id !in AppendAll(v, us, depth, p).visited
    decreases |Ids(v.units) - p.visited|, |us|
  {
    if us != [] {
      var first := Append(v, us[0], depth, p);
      assert us[0] in us;
      ClosedParent(v, us[0], depth, p, u);
      SubsetSize(Ids(v.units) - first.visited, Ids(v.units) - p.visited);
      ClosedParentAll(v, us[1..], depth, first, u);
    }
  }

  lemma {:induction false} RowsGrow(v: View, u: Unit, depth: nat, p: Progress)
    requires u in v.units
    ensures p.rows <= Append(v, u, depth, p).rows
    decreases |Ids(v.units) - p.visited|, 0
  {
    if u.id !in p.visited && Traversed(v, u) {
      var emitted := Emit(v, u, depth, p);
      ChildrenAreUnits(v, Some(u.id));
      VisitShrinks(v, u, p.visited);
      RowsGrowAll(v, Children(v, u), depth + 1, emitted);
    }
  }

  lemma {:induction false} RowsGrowAll(v: View, us: seq<Unit>, depth: nat, p: Progress)
    requires forall u | u in us :: u in v.units
    ensures p.rows <= AppendAll(v, us, depth, p).rows
    decreases |Ids(v.units) - p.visited|, |us|
  {
    if us != [] {
      var first := Append(v, us[0], depth, p);
      RowsGrow(v, us[0], depth, p);
      SubsetSize(Ids(v.units) - first.visited, Ids(v.units) - p.visited);
      RowsGrowAll(v, us[1..], depth, first);
    }
  }

  /** Appending a fresh, shown unit emits its row at the depth it is appended with. */
  lemma AppendEmits(v: View, u: Unit, depth: nat, p: Progress)
    requires u in v.units && u.id !in p.visited && Shown(v, u)
    ensures Row(u, depth, Children(v, u) != []) in Append(v, u, depth, p).rows
  {
    var emitted := Emit(v, u, depth, p);
    ChildrenAreUnits(v, Some(u.id));
    assert emitted.rows[|p.rows|] == Row(u, depth, Children(v, u) != []);
    if Traversed(v, u) {
      RowsGrowAll(v, Children(v, u), depth + 1, emitted);
      assert AppendAll(v, Children(v, u), depth + 1, emitted).rows[|p.rows|] == emitted.rows[|p.rows|];
    }
  }

  /** The trailing loop emits a unit whose parent stays closed at depth 0. */
  lemma {:induction false} TrailingEmits(v: View, us: seq<Unit>, p: Progress, u: Unit)
    requires UniqueIds(v.units) && (forall w | w in us :: w in v.units) && u in us && u.id !in p.visited && Shown(v, u)
    requires ParentOf(v.units, u).Some? && !Traversed(v, ParentOf(v.units, u).value)
    ensures Row(u, 0, Children(v, u) != []) in AppendAll(v, us, 0, p).rows
    decreases |us|
  {
    assert us[0] in us;
    var first := Append(v, us[0], 0, p);
    if us[0] == u {
      AppendEmits(v, u, 0, p);
      RowsGrowAll(v, us[1..], 0, first);
    } else {
      ClosedParent(v, us[0], 0, p, u);
      TrailingEmits(v, us[1..], first, u);
    }
  }

  /** Every unit that has children is expanded. */
  ghost predicate AllOpen(v: View) {
    forall u | u in v.units && u.parentId.Some? :: u.parentId.value in v.expanded
  }

  /** Without a search the rows of a forest carry the true depths if and only if every unit that has children is expanded:
      a unit below a collapsed one is emitted after the tree, at depth 0. */
  lemma BrowsingDepthsExact(v: View, level: map<nat, nat>)
    requires UniqueIds(v.units) && Levels(v.units, level) && !v.searching
    ensures (forall r | r in Flatten(v) :: r.unit.id in level && r.depth == level[r.unit.id]) <==> AllOpen(v)
  {
    if AllOpen(v) {
      forall u, p | u in v.units && ParentOf(v.units, u) == Some(p) ensures OpenedBy(v, u, p) {
        assert p.id == u.parentId.value;
      }
      ForestRows(v, level);
      forall r | r in Flatten(v) ensures r.unit.id in level && r.depth == level[r.unit.id] {
        PreorderAllDepths(v, level, Roots(v), 0, r);
      }
    } else {
      var u :| u in v.units && u.parentId.Some? && u.parentId.value !in v.expanded;
      assert Placed(v.units, level, u);
      assert ParentOf(v.units, u).value.id == u.parentId.value;
      ChildrenAreUnits(v, None);
      ClosedParentAll(v, Roots(v), 0, Progress({}, []), u);
      TrailingEmits(v, v.units, AppendAll(v, Roots(v), 0, Progress({}, [])), u);
    }
  }

  const ROOT := Unit(0, None, 0, 0, false)
  const CHILD := Unit(1, Some(0), 0, 0, false)

  lemma HeadIsMember(s: seq<Unit>)
    ensures s == [] || exists u :: u in s
  {
    if s != [] {
      assert s[0] in s;
    }
  }

  /** With nothing expanded the child of a root, whose depth is 1, is emitted at depth 0. */
  lemma CollapsedChildMisplaced()
    ensures var v, level := View([ROOT, CHILD], false, {}, {}), map[0 := 0, 1 := 1];
      UniqueIds(v.units) && Levels(v.units, level) && level[CHILD.id] == 1 && Row(CHILD, 0, false) in Flatten(v)
  {
    var v, level := View([ROOT, CHILD], false, {}, {}), map[0 := 0, 1 := 1];
    assert v.units[0] == ROOT && v.units[1] == CHILD;
    assert Find(v.units, 0) == Some(ROOT);
    forall u | u in v.units ensures Placed(v.units, level, u) {}
    ChildrenAreUnits(v, None);
    ChildrenAreUnits(v, Some(CHILD.id));
    HeadIsMember(Children(v, CHILD));
    ClosedParentAll(v, Roots(v), 0, Progress({}, []), CHILD);
    TrailingEmits(v, v.units, AppendAll(v, Roots(v), 0, Progress({}, [])), CHILD);
  }
}
