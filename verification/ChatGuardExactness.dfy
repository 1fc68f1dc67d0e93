/** The version guard protects group conversations exactly from clients that do not run ahead. */
module ChatGuardExactness {
  import opened Basics
  import opened ChatModel
  import opened ChatMachine
  import opened ChatFrames
  import opened ChatSafety
  import opened ChatRuns

  lemma {:induction false} WithinMonotone(gap: int, wider: int, s: System, steps: seq<Step>)
    requires Fitting(s) && gap <= wider && RunWithin(gap, s, steps)
    ensures RunWithin(wider, s, steps)
    decreases |steps|
  {
    if steps != [] {
      WithinMonotone(gap, wider, Apply(s, steps[0]), steps[1..]);
    }
  }

  function Quiet(id: nat): Env {
    Env(true, true, {1, 2, 3}, None, id, 0, false)
  }

  function Client(u: UserId): Actor {
    Actor(u, false, {7})
  }

  const CREATE := CreateThread(Client(1), 0, 7, false, "team", {2, 3})
  const PROMOTE := SetRole(Client(1), 10, 2, Owner, 1, 1)
  const LEAVE := Remove(Client(1), 10, 1, 1, 3)
  const DEMOTE := SetRole(Client(2), 10, 2, Member, 2, 2)

  function Row(role: Role, left: bool, version: nat): Participant {
    Participant(role, left, false, None, version)
  }

  function Table(one: Participant, two: Participant): Seats {
    map[Seat(10, 1) := one, Seat(10, 2) := two, Seat(10, 3) := Row(Member, false, 1)]
  }

  /** The only conversation of the example, at one of its versions. */
  predicate Stands(db: Db, version: nat, one: Participant, two: Participant) {
    && db.threads == map[10 := Thread(Group, 7, None, None, version, None, 0)]
    && db.seats == Table(one, two)
  }

  lemma TableSets(one: Participant, two: Participant)
    requires !one.left && !two.left
    ensures ActiveUsers(Table(one, two), 10) == {1, 2, 3}
    ensures one.role == Owner && two.role == Owner ==> ActiveOwners(Table(one, two), 10) == {1, 2}
    ensures |ActiveUsers(Table(one, two), 10)| == 3
  {
    var seats := Table(one, two);
    forall u
      ensures u in ActiveUsers(seats, 10) <==> u in {1, 2, 3}
      ensures u in ActiveOwners(seats, 10) <==> (u == 1 && one.role == Owner) || (u == 2 && two.role == Owner)
    {
      MemberOf(seats, 10, u);
    }
    assert ActiveUsers(seats, 10) == {1, 2, 3};
  }

  lemma CreateStarts()
    ensures WellFormedCreate(CREATE) && Others(CREATE) == {2, 3}
    ensures StartCreate(EMPTY_DB, CREATE, Quiet(0)) == Move(EMPTY_DB, Inserting)
  {
    assert Others(CREATE) == {2, 3};
    assert |{2, 3}| == 2;
  }

  lemma CreateCommits() returns (db: Db)
    ensures WellFormedCreate(CREATE) && Insert(EMPTY_DB, CREATE, Quiet(10)) == Move(db, Done(Created(10)))
    ensures Stands(db, 1, Row(Owner, false, 1), Row(Member, false, 1))
  {
    CreateStarts();
    db := CreateTx(EMPTY_DB, CREATE, 10, 0).db;
    assert Others(CREATE) + {1} == {1, 2, 3};
    assert db.seats == NewSeats(10, {1, 2, 3}, 1, Owner);
    assert db.seats == Table(Row(Owner, false, 1), Row(Member, false, 1));
  }

  /** User 1 opens a group conversation with users 2 and 3. */
  lemma Opened() returns (s: System)
    ensures Reachable(1, s) && s.calls.Keys == {0}
    ensures Stands(s.db, 1, Row(Owner, false, 1), Row(Member, false, 1))
  {
    CreateStarts();
    var db := CreateCommits();
    StartReachable(1);
    AskReachable(1, INITIAL, 0, CREATE);
    s := System(EMPTY_DB, map[][0 := Call(CREATE, Asked)]);
    AdvanceReachable(1, s, 0, Quiet(0), Move(EMPTY_DB, Inserting));
    s := System(EMPTY_DB, s.calls[0 := Call(CREATE, Inserting)]);
    AdvanceReachable(1, s, 0, Quiet(10), Move(db, Done(Created(10))));
    s := System(db, s.calls[0 := Call(CREATE, Done(Created(10)))]);
  }

  lemma RoleMoves(db: Db, r: Request, version: nat, one: Participant, two: Participant, two': Participant) returns (after: Db)
    requires Stands(db, version, one, two)
    requires r.SetRole? && r.threadId == 10 && r.target == 2 && r.expectedThread == version
    requires ReviewSetRole(db, r, Quiet(0)).Proceed? && r.expectedRow == two.version && !two.left
    requires two' == two.(role := r.role, version := two.version + 1)
    ensures Progress(db, Call(r, Asked), Quiet(0)) == Move(db, Checked(db))
    ensures Progress(db, Call(r, Checked(db)), Quiet(0)) == Move(after, Done(Created(2)))
    ensures Stands(after, version + 1, one, two')
  {
    after := SetRoleTx(db, r).db;
    assert after.seats == Table(one, two');
  }

  /** One managing call runs from its request to its commit. */
  lemma Managed(s: System, c: nat, r: Request, version: nat, one: Participant, two: Participant, two': Participant)
    returns (s': System)
    requires Reachable(1, s) && c !in s.calls && Stands(s.db, version, one, two)
    requires r.SetRole? && r.threadId == 10 && r.target == 2 && r.expectedThread == version
    requires ReviewSetRole(s.db, r, Quiet(0)).Proceed? && r.expectedRow == two.version && !two.left
    requires two' == two.(role := r.role, version := two.version + 1)
    ensures Reachable(1, s') && Stands(s'.db, version + 1, one, two')
    ensures s'.calls.Keys == s.calls.Keys + {c} && forall d | d in s.calls :: s'.calls[d] == s.calls[d]
  {
    var after := RoleMoves(s.db, r, version, one, two, two');
    AskReachable(1, s, c, r);
    s' := System(s.db, s.calls[c := Call(r, Asked)]);
    AdvanceReachable(1, s', c, Quiet(0), Move(s.db, Checked(s.db)));
    s' := System(s.db, s'.calls[c := Call(r, Checked(s.db))]);
    AdvanceReachable(1, s', c, Quiet(0), Move(after, Done(Created(2))));
    s' := System(after, s'.calls[c := Call(r, Done(Created(2)))]);
  }

  /** The removal passes its checks while there are two owners ... */
  lemma LeaveChecked(db: Db)
    requires Stands(db, 2, Row(Owner, false, 1), Row(Owner, false, 2))
    ensures Begin(db, LEAVE, Quiet(0)) == Move(db, Checked(db))
    ensures ReviewSetRole(db, DEMOTE, Quiet(0)).Proceed?
  {
    TableSets(Row(Owner, false, 1), Row(Owner, false, 2));
  }

  /** ... and commits when there is only one left. */
  lemma LeaveCommits(db: Db, seen: Db) returns (after: Db)
    requires Stands(db, 3, Row(Owner, false, 1), Row(Member, false, 3))
    ensures Commit(db, LEAVE, seen, Quiet(0)) == Committed(after)
    ensures Stands(after, 4, Row(Owner, true, 2), Row(Member, false, 3)) && !GroupsSafe(after)
  {
    after := RemoveTx(db, LEAVE).db;
    assert after.seats == Table(Row(Owner, true, 2), Row(Member, false, 3));
    LeaderlessUnsafe(after);
  }

  /** Once user 1 has left and user 2 is a member, nobody owns the conversation. */
  lemma NoOwner(seats: Seats)
    requires seats == Table(Row(Owner, true, 2), Row(Member, false, 3))
    ensures ActiveOwners(seats, 10) == {}
  {
    forall u ensures u !in ActiveOwners(seats, 10) {
      MemberOf(seats, 10, u);
    }
  }

  lemma LeaderlessUnsafe(db: Db)
    requires Stands(db, 4, Row(Owner, true, 2), Row(Member, false, 3))
    ensures !GroupsSafe(db)
  {
    NoOwner(db.seats);
    assert !GroupSafe(db.seats, 10) && db.threads[10].kind == Group;
  }

  /** The removal of user 1 passed its checks while there were two owners, and waits for its commit. */
  lemma LeavePending() returns (s: System, seen: Db)
    ensures Reachable(1, s) && s.db == seen && Stands(seen, 2, Row(Owner, false, 1), Row(Owner, false, 2))
    ensures 2 in s.calls && s.calls[2] == Call(LEAVE, Checked(seen)) && 3 !in s.calls
    ensures ReviewSetRole(seen, DEMOTE, Quiet(0)).Proceed?
  {
    s := Opened();
    TableSets(Row(Owner, false, 1), Row(Member, false, 1));
    s := Managed(s, 1, PROMOTE, 1, Row(Owner, false, 1), Row(Member, false, 1), Row(Owner, false, 2));
    LeaveChecked(s.db);
    seen := s.db;
    AskReachable(1, s, 2, LEAVE);
    s := System(seen, s.calls[2 := Call(LEAVE, Asked)]);
    AdvanceReachable(1, s, 2, Quiet(0), Move(seen, Checked(seen)));
    s := System(seen, s.calls[2 := Call(LEAVE, Checked(seen))]);
  }

  /** A removal that expects the version after next commits on checks that no longer hold, and the group has no owner. */
  lemma AheadLosesOwner() returns (s: System)
    ensures Reachable(1, s) && !GroupsSafe(s.db)
  {
    var seen;
    s, seen := LeavePending();
    s := Managed(s, 3, DEMOTE, 2, Row(Owner, false, 1), Row(Owner, false, 2), Row(Member, false, 3));
    var after := LeaveCommits(s.db, seen);
    AdvanceReachable(1, s, 2, Quiet(0), Move(after, Done(Created(1))));
    s := System(after, s.calls[2 := Call(LEAVE, Done(Created(1)))]);
  }

  /** Groups keep an owner and 2 to 50 members in every interleaving of every run exactly when no
      managing request expects a thread version above the one that was current when its thread was read. */
  lemma GroupSafetyExact(gap: int)
    ensures SafeWithin(gap) <==> gap <= 0
  {
    if gap <= 0 {
      forall steps | RunWithin(gap, INITIAL, steps) ensures GroupsSafe(Run(INITIAL, steps).db) {
        WithinMonotone(gap, 0, INITIAL, steps);
        RunKeepsSafe(INITIAL, steps);
      }
    } else {
      var s := AheadLosesOwner();
      var steps :| RunWithin(1, INITIAL, steps) && Run(INITIAL, steps) == s;
      WithinMonotone(1, gap, INITIAL, steps);
      assert !GroupsSafe(Run(INITIAL, steps).db);
    }
  }
}
