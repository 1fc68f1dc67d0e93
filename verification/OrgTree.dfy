/** Flattening the organization units into the rows of the tree view, on any parent graph. */
module OrgTree {
  import opened Basics

  /** A unit; `hit` says that its name or its manager matches the search, `nameRank` is its place in the name order. */
  datatype Unit = Unit(id: nat, parentId: Option<nat>, sortOrder: int, nameRank: int, hit: bool)

  datatype Row = Row(unit: Unit, depth: nat, hasChildren: bool)

  ghost predicate UniqueIds(units: seq<Unit>) {
    forall i, j | 0 <= i < j < |units| :: units[i].id != units[j].id
  }

  function Ids(units: seq<Unit>): set<nat> {
    set u | u in units :: u.id
  }

  lemma SameId(units: seq<Unit>, u: Unit, v: Unit)
    requires UniqueIds(units) && u in units && v in units && u.id == v.id
    ensures u == v
  {
    var i :| 0 <= i < |units| && units[i] == u;
    var j :| 0 <= j < |units| && units[j] == v;
  }

  predicate Before(a: Unit, b: Unit) {
    a.sortOrder < b.sortOrder || (a.sortOrder == b.sortOrder && a.nameRank < b.nameRank)
  }

  function InsertUnit(u: Unit, s: seq<Unit>): seq<Unit> {
    if s == [] || !Before(s[0], u) then [u] + s else [s[0]] + InsertUnit(u, s[1..])
  }

  /** The units with this parent, ordered by sort order and name; equal ones keep their order. */
  function ChildrenOf(units: seq<Unit>, parent: Option<nat>): seq<Unit> {
    if units == [] then []
    else
      var rest := ChildrenOf(units[1..], parent);
      if units[0].parentId == parent then InsertUnit(units[0], rest) else rest
  }

  lemma {:induction false} InsertUnitMembers(u: Unit, s: seq<Unit>)
    ensures multiset(InsertUnit(u, s)) == multiset(s) + multiset{u}
  {
    if s == [] || !Before(s[0], u) {
    } else {
      InsertUnitMembers(u, s[1..]);
      assert s == [s[0]] + s[1..];
    }
  }

  /** The children of a parent are exactly the units that name it. */
  lemma {:induction false} ChildrenMembers(units: seq<Unit>, parent: Option<nat>, u: Unit)
    ensures multiset(ChildrenOf(units, parent))[u] == if u.parentId == parent then multiset(units)[u] else 0
    ensures u in ChildrenOf(units, parent) <==> u in units && u.parentId == parent
  {
    if units != [] {
      ChildrenMembers(units[1..], parent, u);
      InsertUnitMembers(units[0], ChildrenOf(units[1..], parent));
      assert units == [units[0]] + units[1..];
    }
    assert u in ChildrenOf(units, parent) <==> u in multiset(ChildrenOf(units, parent));
    assert u in units <==> u in multiset(units);
  }

  predicate SortedUnits(s: seq<Unit>) {
    forall i, j | 0 <= i < j < |s| ::
      s[i].sortOrder < s[j].sortOrder || (s[i].sortOrder == s[j].sortOrder && s[i].nameRank <= s[j].nameRank)
  }

  lemma {:induction false} InsertUnitSorted(u: Unit, s: seq<Unit>)
    requires SortedUnits(s)
    ensures SortedUnits(InsertUnit(u, s))
  {
    if s == [] || !Before(s[0], u) {
    } else {
      var rest := InsertUnit(u, s[1..]);
      InsertUnitSorted(u, s[1..]);
      InsertUnitMembers(u, s[1..]);
      forall j | 0 <= j < |rest| ensures !Before(rest[j], s[0]) {
        assert rest[j] in multiset(rest);
        if rest[j] != u {
          assert rest[j] in multiset(s[1..]);
          var i :| 0 <= i < |s| - 1 && s[1..][i] == rest[j];
          assert s[i + 1] == rest[j];
        }
      }
    }
  }

  /** Siblings are listed by sort order, then by name. */
  lemma {:induction false} SiblingsSorted(units: seq<Unit>, parent: Option<nat>)
    ensures SortedUnits(ChildrenOf(units, parent))
  {
    if units != [] {
      SiblingsSorted(units[1..], parent);
      if units[0].parentId == parent {
        InsertUnitSorted(units[0], ChildrenOf(units[1..], parent));
      }
    }
  }

  // ----- The units a search shows -----

  /** The unit with this identifier, if there is one. */
  function Find(units: seq<Unit>, id: nat): (r: Option<Unit>)
    ensures r.Some? ==> r.value in units && r.value.id == id
    ensures r.None? ==> forall u | u in units :: u.id != id
  {
    if units == [] then None else if units[0].id == id then Some(units[0]) else Find(units[1..], id)
  }

  function ParentOf(units: seq<Unit>, u: Unit): Option<Unit> {
    if u.parentId.None? then None else Find(units, u.parentId.value)
  }

  /** The unit reached after `n` steps to the parent. */
  function Climb(units: seq<Unit>, u: Unit, n: nat): Option<Unit>
    decreases n
  {
    if n == 0 then Some(u)
    else
      var parent := ParentOf(units, u);
      if parent.None? then None else Climb(units, parent.value, n - 1)
  }

  /** A unit that matches the search, or an ancestor of one. */
  ghost predicate Matching(units: seq<Unit>, id: nat) {
    exists u, n :: u in units && u.hit && Climb(units, u, n).Some? && Climb(units, u, n).value.id == id
  }

  /** The units a search shows: those that match, and all their ancestors. */
  ghost function MatchingIds(units: seq<Unit>): set<nat> {
    set u | u in units && Matching(units, u.id) :: u.id
  }

  /** The identifiers of a set of units whose parents belong to it as well. */
  ghost predicate UpwardClosed(units: seq<Unit>, ids: set<nat>) {
    forall u | u in units && u.id in ids && ParentOf(units, u).Some? :: ParentOf(units, u).value.id in ids
  }

  lemma {:induction false} ClimbStays(units: seq<Unit>, ids: set<nat>, u: Unit, n: nat)
    requires UpwardClosed(units, ids) && u in units && u.id in ids && Climb(units, u, n).Some?
    ensures Climb(units, u, n).value.id in ids
    decreases n
  {
    if n > 0 {
      ClimbStays(units, ids, ParentOf(units, u).value, n - 1);
    }
  }

  lemma {:induction false} ClimbFurther(units: seq<Unit>, u: Unit, n: nat)
    requires Climb(units, u, n).Some?
    ensures Climb(units, u, n + 1) == ParentOf(units, Climb(units, u, n).value)
    decreases n
  {
    if n > 0 {
      ClimbFurther(units, ParentOf(units, u).value, n - 1);
    }
  }

  /** Marked units are units, and each of them matches or has a matching descendant. */
  ghost predicate MarkedMatch(units: seq<Unit>, visible: set<nat>) {
    visible <= Ids(units) && forall id | id in visible :: Matching(units, id)
  }

  /** Every marked unit has a marked parent, except perhaps the one whose parent is `current`. */
  ghost predicate ClosedUpTo(units: seq<Unit>, visible: set<nat>, current: Option<Unit>) {
    forall u | u in units && u.id in visible && ParentOf(units, u).Some? ::
      ParentOf(units, u).value.id in visible || current == ParentOf(units, u)
  }

  /** One step of the walk upwards. */
  lemma MarkStep(units: seq<Unit>, start: Unit, n: nat, unit: Unit, visible: set<nat>)
    requires UniqueIds(units) && start in units && start.hit && unit in units && Climb(units, start, n) == Some(unit)
    requires MarkedMatch(units, visible) && ClosedUpTo(units, visible, Some(unit))
    ensures MarkedMatch(units, visible + {unit.id}) && ClosedUpTo(units, visible + {unit.id}, ParentOf(units, unit))
    ensures Climb(units, start, n + 1) == ParentOf(units, unit) && (ParentOf(units, unit).Some? ==> ParentOf(units, unit).value in units)
  {
    assert Matching(units, unit.id);
    ClimbFurther(units, start, n);
    forall u | u in units && u.id == unit.id ensures u == unit {
      SameId(units, u, unit);
    }
  }

  /** Marks a matching unit and its ancestors; the walk stops at the first marked one. */
  method MarkUp(units: seq<Unit>, start: Unit, before: set<nat>) returns (visible: set<nat>)
    requires UniqueIds(units) && start in units && start.hit
    requires MarkedMatch(units, before) && UpwardClosed(units, before)
    ensures before <= visible && start.id in visible
    ensures MarkedMatch(units, visible) && UpwardClosed(units, visible)
  {
    visible := before;
    var current := Some(start);
    ghost var n: nat := 0;
    while current.Some? && current.value.id !in visible
      invariant before <= visible && MarkedMatch(units, visible) && ClosedUpTo(units, visible, current)
      invariant current == Climb(units, start, n) && (current.Some? ==> current.value in units)
      invariant start.id in visible || current == Some(start)
      decreases Ids(units) - visible
    {
      var unit := current.value;
      MarkStep(units, start, n, unit, visible);
      visible := visible + {unit.id};
      current := ParentOf(units, unit);
      n := n + 1;
    }
    WalkEnds(units, visible, current);
  }

  lemma WalkEnds(units: seq<Unit>, visible: set<nat>, current: Option<Unit>)
    requires ClosedUpTo(units, visible, current) && (current.Some? ==> current.value.id in visible)
    ensures UpwardClosed(units, visible)
  {}

  /** Marks that are closed upwards and cover the hits are exactly the matching units. */
  lemma MarkedAll(units: seq<Unit>, visible: set<nat>)
    requires MarkedMatch(units, visible) && UpwardClosed(units, visible)
    requires forall j | 0 <= j < |units| && units[j].hit :: units[j].id in visible
    ensures visible == MatchingIds(units)
  {
    forall id | Matching(units, id) ensures id in visible {
      var u, n :| u in units && u.hit && Climb(units, u, n).Some? && Climb(units, u, n).value.id == id;
      ClimbStays(units, visible, u, n);
    }
    assert visible == MatchingIds(units);
  }

  /** Marks the units that match the search and all their ancestors. */
  method MarkVisible(units: seq<Unit>) returns (visible: set<nat>)
    requires UniqueIds(units)
    ensures visible == MatchingIds(units) && UpwardClosed(units, visible)
  {
    visible := {};
    var i := 0;
    while i < |units|
      invariant 0 <= i <= |units|
      invariant MarkedMatch(units, visible) && UpwardClosed(units, visible)
      invariant forall j | 0 <= j < i && units[j].hit :: units[j].id in visible
    {
      if units[i].hit {
        visible := MarkUp(units, units[i], visible);
      }
      i := i + 1;
    }
    MarkedAll(units, visible);
  }

  // ----- Emitting rows -----

  /** What the traversal depends on. */
  datatype View = View(units: seq<Unit>, searching: bool, expanded: set<nat>, visible: set<nat>)

  predicate Shown(v: View, u: Unit) {
    !v.searching || u.id in v.visible
  }

  function Children(v: View, u: Unit): seq<Unit> {
    ChildrenOf(v.units, Some(u.id))
  }

  predicate Traversed(v: View, u: Unit) {
    if v.searching then exists c :: c in Children(v, u) && c.id in v.visible else u.id in v.expanded
  }

  datatype Progress = Progress(visited: set<nat>, rows: seq<Row>)

  function Emit(v: View, u: Unit, depth: nat, p: Progress): Progress {
    Progress(p.visited + {u.id}, p.rows + if Shown(v, u) then [Row(u, depth, Children(v, u) != [])] else [])
  }

  lemma ChildrenAreUnits(v: View, parent: Option<nat>)
    ensures forall c | c in ChildrenOf(v.units, parent) :: c in v.units && c.parentId == parent
  {
    forall c | c in ChildrenOf(v.units, parent) ensures c in v.units && c.parentId == parent {
      ChildrenMembers(v.units, parent, c);
    }
  }

  /** Appends a unit and, when it is open, its children; a unit that was visited before is skipped. */
  function Append(v: View, u: Unit, depth: nat, p: Progress): (q: Progress)
    requires u in v.units
    ensures p.visited <= q.visited && u.id in q.visited
    decreases |Ids(v.units) - p.visited|, 0
  {
    if u.id in p.visited then p
    else
      var emitted := Emit(v, u, depth, p);
      ChildrenAreUnits(v, Some(u.id));
      assert Ids(v.units) - p.visited == (Ids(v.units) - emitted.visited) + {u.id};
      if Traversed(v, u) then AppendAll(v, Children(v, u), depth + 1, emitted) else emitted
  }

  function AppendAll(v: View, us: seq<Unit>, depth: nat, p: Progress): (q: Progress)
    requires forall u | u in us :: u in v.units
    ensures p.visited <= q.visited && forall u | u in us :: u.id in q.visited
    decreases |Ids(v.units) - p.visited|, |us|
  {
    if us == [] then p
    else
      var first := Append(v, us[0], depth, p);
      SubsetSize(Ids(v.units) - first.visited, Ids(v.units) - p.visited);
      AppendAll(v, us[1..], depth, first)
  }

  function Roots(v: View): seq<Unit> {
    ChildrenOf(v.units, None)
  }

  /** The trailing loop appends every unit that is still missing at depth 0. */
  function Flatten(v: View): seq<Row> {
    ChildrenAreUnits(v, None);
    AppendAll(v, v.units, 0, AppendAll(v, Roots(v), 0, Progress({}, []))).rows
  }

  class TreeBuilder {
    const view: View
    var visited: set<nat>
    var rows: seq<Row>

    constructor (view: View)
      ensures this.view == view && visited == {} && rows == []
    {
      this.view := view;
      visited, rows := {}, [];
    }

    method AppendUnit(u: Unit, depth: nat)
      requires u in view.units
      modifies this
      ensures Progress(visited, rows) == Append(view, u, depth, Progress(old(visited), old(rows)))
      decreases |Ids(view.units) - visited|, 0
    {
      if u.id in visited {
        return;
      }
      ghost var p := Progress(visited, rows);
      visited := visited + {u.id};
      var children := Children(view, u);
      if Shown(view, u) {
        rows := rows + [Row(u, depth, |children| > 0)];
      }
      ChildrenAreUnits(view, Some(u.id));
      assert Ids(view.units) - p.visited == (Ids(view.units) - visited) + {u.id};
      assert Progress(visited, rows) == Emit(view, u, depth, p);
      if Traversed(view, u) {
        AppendUnits(children, depth + 1);
      }
    }

    method AppendUnits(us: seq<Unit>, depth: nat)
      requires forall u | u in us :: u in view.units
      modifies this
      ensures Progress(visited, rows) == AppendAll(view, us, depth, Progress(old(visited), old(rows)))
      decreases |Ids(view.units) - visited|, |us|
    {
      ghost var p := Progress(visited, rows);
      var i := 0;
      while i < |us|
        invariant 0 <= i <= |us|
        invariant p.visited <= visited
        invariant AppendAll(view, us[i..], depth, Progress(visited, rows)) == AppendAll(view, us, depth, p)
      {
        assert us[i..][0] == us[i] && us[i..][1..] == us[i + 1..];
        assert us[i] in us;
        SubsetSize(Ids(view.units) - visited, Ids(view.units) - p.visited);
        AppendUnit(us[i], depth);
        i := i + 1;
      }
    }

    method Build()
      requires visited == {} && rows == []
      modifies this
      ensures rows == Flatten(view)
    {
      ChildrenAreUnits(view, None);
      AppendUnits(Roots(view), 0);
      AppendUnits(view.units, 0);
    }
  }

  /** The rows of the tree view. */
  method CreateOrgTree(units: seq<Unit>, searching: bool, expanded: set<nat>) returns (rows: seq<Row>)
    requires UniqueIds(units)
    ensures rows == Flatten(View(units, searching, expanded, if searching then MatchingIds(units) else {}))
  {
    var visible: set<nat> := {};
    if searching {
      visible := MarkVisible(units);
    }
    var builder := new TreeBuilder(View(units, searching, expanded, visible));
    builder.Build();
    rows := builder.rows;
  }
}
