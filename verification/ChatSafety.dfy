/** The invariants of every run: calls act on snapshots that are earlier states, and group
    conversations keep an owner and between 2 and 50 members. */
module ChatSafety {
  import opened Basics
  import opened ChatModel
  import opened ChatMachine
  import opened ChatFrames

  // ----- Every run -----

  /** The checks of a call passed on what it read. */
  ghost predicate Passed(seen: Db, r: Request)
    requires !r.CreateThread? && !r.OpenGroup?
  {
    exists e :: Review(seen, r, e).Proceed?
  }

  /** What a call in progress knows about the database. */
  ghost predicate Grounded(db: Db, c: Call) {
    && Fits(c.request, c.phase)
    && JoinsGroup(db, c.phase)
    && match c.phase
       case Checked(seen) => Extends(seen, db) && Passed(seen, c.request)
       case Cleared(seen) => Extends(seen, db) && Passed(seen, c.request) && (c.request.Add? ==> !AddRefused(seen, c.request))
       case _ => true
  }

  ghost predicate Sound(s: System) {
    && Linked(s.db)
    && forall c | c in s.calls :: Grounded(s.db, s.calls[c])
  }

  lemma GroundedLater(a: Db, b: Db, c: Call)
    requires Grounded(a, c) && Extends(a, b)
    ensures Grounded(b, c)
  {
    match c.phase
    case Checked(seen) => ExtendsTransitive(seen, a, b);
    case Cleared(seen) => ExtendsTransitive(seen, a, b);
    case _ =>
  }

  lemma ProgressGrounded(db: Db, c: Call, e: Env)
    requires Linked(db) && Grounded(db, c)
    ensures Linked(Progress(db, c, e).db) && Extends(db, Progress(db, c, e).db)
    ensures Grounded(Progress(db, c, e).db, Call(c.request, Progress(db, c, e).phase))
  {
    ProgressExtends(db, c, e);
    if c.phase.Asked? && !c.request.CreateThread? && !c.request.OpenGroup? {
      BegunGrounded(db, c.request, e);
    } else if c.phase.Checked? && (c.request.Post? || c.request.Add?) {
      LookedUpGrounded(db, c.request, c.phase.seen);
    } else {
      OtherGrounded(db, c, e);
    }
  }

  lemma LookedUpGrounded(db: Db, r: Request, seen: Db)
    requires (r.Post? || r.Add?) && Extends(seen, db) && Passed(seen, r)
    ensures Grounded(LookUp(db, r, seen).db, Call(r, LookUp(db, r, seen).phase))
  {}

  /** No other step takes a snapshot. */
  lemma OtherGrounded(db: Db, c: Call, e: Env)
    requires Linked(db) && Fits(c.request, c.phase)
    requires c.phase.Asked? ==> c.request.CreateThread? || c.request.OpenGroup?
    requires c.phase.Checked? ==> !c.request.Post? && !c.request.Add?
    ensures Grounded(Progress(db, c, e).db, Call(c.request, Progress(db, c, e).phase))
  {}

  lemma BegunGrounded(db: Db, r: Request, e: Env)
    requires !r.CreateThread? && !r.OpenGroup?
    ensures Grounded(Begin(db, r, e).db, Call(r, Begin(db, r, e).phase))
  {
    ExtendsReflexive(db);
    if Review(db, r, e).Proceed? {
      assert Passed(db, r);
    }
  }

  lemma StepSound(s: System, step: Step)
    requires Sound(s)
    ensures Fitting(s) && Sound(Apply(s, step))
    ensures Extends(s.db, Apply(s, step).db)
  {
    ExtendsReflexive(s.db);
    if step.Advance? && step.call in s.calls {
      ProgressGrounded(s.db, s.calls[step.call], step.env);
      var after := Apply(s, step);
      forall c | c in after.calls ensures Grounded(after.db, after.calls[c]) {
        if c != step.call {
          GroundedLater(s.db, after.db, s.calls[c]);
        }
      }
    }
  }

  lemma {:induction false} RunSound(s: System, steps: seq<Step>)
    requires Sound(s)
    ensures Fitting(s) && Sound(Run(s, steps))
    ensures Extends(s.db, Run(s, steps).db)
    decreases |steps|
  {
    if steps == [] {
      ExtendsReflexive(s.db);
    } else {
      StepSound(s, steps[0]);
      RunSound(Apply(s, steps[0]), steps[1..]);
      ExtendsTransitive(s.db, Apply(s, steps[0]).db, Run(s, steps).db);
    }
  }

  // ----- Group conversations -----

  ghost predicate GroupSafe(seats: Seats, t: ThreadId) {
    && ActiveOwners(seats, t) != {}
    && 2 <= |ActiveUsers(seats, t)| <= 50
  }

  ghost predicate GroupsSafe(db: Db) {
    forall t | t in db.threads && db.threads[t].kind == Group :: GroupSafe(db.seats, t)
  }

  /** The thread version a managing request expects is at most `gap` above the one that was read. */
  predicate Within(gap: int, db: Db, r: Request) {
    Managing(r) && r.threadId in db.threads ==> r.expectedThread <= db.threads[r.threadId].version + gap
  }

  predicate TimelyCall(c: Call) {
    c.phase.Checked? || c.phase.Cleared? ==> Within(0, c.phase.seen, c.request)
  }

  ghost predicate Timely(s: System) {
    forall c | c in s.calls :: TimelyCall(s.calls[c])
  }

  /** The step does not read a thread for a managing request that expects a version further ahead than `gap`. */
  ghost predicate StepWithin(gap: int, s: System, step: Step) {
    step.Advance? && step.call in s.calls && s.calls[step.call].phase.Asked? ==> Within(gap, s.db, s.calls[step.call].request)
  }

  ghost predicate RunWithin(gap: int, s: System, steps: seq<Step>)
    requires Fitting(s)
    decreases |steps|
  {
    steps == [] || (StepWithin(gap, s, steps[0]) && RunWithin(gap, Apply(s, steps[0]), steps[1..]))
  }

  /** The effect of one row on the sets of active users and owners of its thread. */
  lemma RowWriteSets(seats: Seats, s: Seat, row: Participant)
    ensures ActiveUsers(seats[s := row], s.threadId) ==
            if row.left then ActiveUsers(seats, s.threadId) - {s.userId} else ActiveUsers(seats, s.threadId) + {s.userId}
    ensures ActiveOwners(seats[s := row], s.threadId) ==
            if row.left || row.role != Owner then ActiveOwners(seats, s.threadId) - {s.userId}
            else ActiveOwners(seats, s.threadId) + {s.userId}
  {
    forall u
      ensures u in ActiveUsers(seats[s := row], s.threadId) <==>
              if u == s.userId then !row.left else u in ActiveUsers(seats, s.threadId)
      ensures u in ActiveOwners(seats[s := row], s.threadId) <==>
              if u == s.userId then !row.left && row.role == Owner else u in ActiveOwners(seats, s.threadId)
    {
      MemberOf(seats, s.threadId, u);
      MemberOf(seats[s := row], s.threadId, u);
    }
  }

  lemma SafeElsewhere(db: Db, after: Db, t: ThreadId)
    requires GroupsSafe(db) && SameElsewhere(db.seats, after.seats, t)
    requires forall t' | t' in after.threads && t' != t :: t' in db.threads && db.threads[t'].kind == after.threads[t'].kind
    requires t in after.threads && after.threads[t].kind == Group ==> GroupSafe(after.seats, t)
    ensures GroupsSafe(after)
  {
    forall t' | t' in after.threads && after.threads[t'].kind == Group ensures GroupSafe(after.seats, t') {
      if t' != t {
        SameMembersSameSets(db.seats, after.seats, t');
      }
    }
  }

  /** A managing commit meets the membership its checks saw: the version guard leaves no other possibility. */
  lemma GuardMeetsSnapshot(db: Db, seen: Db, t: ThreadId, expected: nat)
    requires Extends(seen, db) && t in seen.threads && seen.threads[t].kind != GroupContext
    requires expected <= seen.threads[t].version && db.threads[t].version == expected
    ensures SameMembers(seen.seats, db.seats, t)
    ensures ActiveUsers(seen.seats, t) == ActiveUsers(db.seats, t)
    ensures ActiveOwners(seen.seats, t) == ActiveOwners(db.seats, t)
  {
    assert seen.threads[t].version == db.threads[t].version;
    SameMembersSameSets(seen.seats, db.seats, t);
  }

  /** One row write keeps every group safe when it keeps its own thread safe. */
  lemma WriteKeepsSafe(db: Db, after: Db, s: Seat)
    requires GroupsSafe(db) && s in after.seats && after.seats == db.seats[s := after.seats[s]]
    requires s in db.seats ==> db.seats[s].version <= after.seats[s].version
    requires forall t | t in after.threads :: t in db.threads && db.threads[t].kind == after.threads[t].kind
    requires s.threadId in after.threads && after.threads[s.threadId].kind == Group ==> GroupSafe(after.seats, s.threadId)
    ensures GroupsSafe(after)
  {
    SeatFrame(db.seats, s, after.seats[s]);
    SafeElsewhere(db, after, s.threadId);
  }

  lemma AddGuard(db: Db, r: Request, seen: Db)
    requires r.Add? && Extends(seen, db) && Passed(seen, r) && !AddRefused(seen, r) && Within(0, seen, r)
    requires r.threadId in db.threads && db.threads[r.threadId].version == r.expectedThread
    ensures |ActiveUsers(db.seats, r.threadId)| < 50 && r.target !in ActiveUsers(db.seats, r.threadId)
  {
    GuardMeetsSnapshot(db, seen, r.threadId, r.expectedThread);
    MemberOf(seen.seats, r.threadId, r.target);
  }

  lemma AddTxSafe(db: Db, r: Request, hadRow: bool)
    requires r.Add? && GroupsSafe(db) && AddTx(db, r, hadRow).Committed?
    requires |ActiveUsers(db.seats, r.threadId)| < 50 && r.target !in ActiveUsers(db.seats, r.threadId)
    ensures GroupsSafe(AddTx(db, r, hadRow).db)
  {
    var s := Seat(r.threadId, r.target);
    var after := AddTx(db, r, hadRow).db;
    RowWriteSets(db.seats, s, after.seats[s]);
    MemberOf(db.seats, r.threadId, r.target);
    assert ActiveUsers(after.seats, r.threadId) == ActiveUsers(db.seats, r.threadId) + {r.target};
    assert ActiveOwners(db.seats, r.threadId) <= ActiveOwners(after.seats, r.threadId);
    WriteKeepsSafe(db, after, s);
  }

  lemma AddKeepsSafe(db: Db, r: Request, seen: Db)
    requires r.Add? && GroupsSafe(db) && Extends(seen, db) && Passed(seen, r) && !AddRefused(seen, r) && Within(0, seen, r)
    requires AddTx(db, r, Seat(r.threadId, r.target) in seen.seats).Committed?
    ensures GroupsSafe(AddTx(db, r, Seat(r.threadId, r.target) in seen.seats).db)
  {
    AddGuard(db, r, seen);
    AddTxSafe(db, r, Seat(r.threadId, r.target) in seen.seats);
  }

  /** The commit of a role change meets an owner besides the target, when the target stops being one. */
  lemma SetRoleGuard(db: Db, r: Request, seen: Db)
    requires r.SetRole? && Extends(seen, db) && Passed(seen, r) && Within(0, seen, r)
    requires r.threadId in db.threads && db.threads[r.threadId].version == r.expectedThread
    ensures r.role != Owner && r.target in ActiveOwners(db.seats, r.threadId) ==> |ActiveOwners(db.seats, r.threadId)| > 1
    ensures r.target in ActiveUsers(db.seats, r.threadId)
  {
    GuardMeetsSnapshot(db, seen, r.threadId, r.expectedThread);
    MemberOf(seen.seats, r.threadId, r.target);
  }

  lemma SetRoleTxSafe(db: Db, r: Request)
    requires r.SetRole? && GroupsSafe(db) && SetRoleTx(db, r).Committed? && r.target in ActiveUsers(db.seats, r.threadId)
    requires r.role != Owner && r.target in ActiveOwners(db.seats, r.threadId) ==> |ActiveOwners(db.seats, r.threadId)| > 1
    ensures GroupsSafe(SetRoleTx(db, r).db)
  {
    var s := Seat(r.threadId, r.target);
    var after := SetRoleTx(db, r).db;
    RowWriteSets(db.seats, s, after.seats[s]);
    MemberOf(db.seats, r.threadId, r.target);
    assert ActiveUsers(after.seats, r.threadId) == ActiveUsers(db.seats, r.threadId);
    WriteKeepsSafe(db, after, s);
  }

  lemma SetRoleKeepsSafe(db: Db, r: Request, seen: Db)
    requires r.SetRole? && GroupsSafe(db) && Extends(seen, db) && Passed(seen, r) && Within(0, seen, r)
    requires SetRoleTx(db, r).Committed?
    ensures GroupsSafe(SetRoleTx(db, r).db)
  {
    SetRoleGuard(db, r, seen);
    SetRoleTxSafe(db, r);
  }

  /** The commit of a removal meets a group of more than two, and an owner besides the target. */
  lemma RemoveGuard(db: Db, r: Request, seen: Db)
    requires r.Remove? && Extends(seen, db) && Passed(seen, r) && Within(0, seen, r)
    requires r.threadId in db.threads && db.threads[r.threadId].version == r.expectedThread
    ensures db.threads[r.threadId].kind == Group ==> |ActiveUsers(db.seats, r.threadId)| > 2
    ensures r.target in ActiveOwners(db.seats, r.threadId) ==> |ActiveOwners(db.seats, r.threadId)| > 1
  {
    GuardMeetsSnapshot(db, seen, r.threadId, r.expectedThread);
    MemberOf(seen.seats, r.threadId, r.target);
  }

  lemma RemoveTxSafe(db: Db, r: Request)
    requires r.Remove? && GroupsSafe(db) && RemoveTx(db, r).Committed?
    requires db.threads[r.threadId].kind == Group ==> |ActiveUsers(db.seats, r.threadId)| > 2
    requires r.target in ActiveOwners(db.seats, r.threadId) ==> |ActiveOwners(db.seats, r.threadId)| > 1
    ensures GroupsSafe(RemoveTx(db, r).db)
  {
    var s := Seat(r.threadId, r.target);
    var after := RemoveTx(db, r).db;
    SeatFrame(db.seats, s, after.seats[s]);
    RowWriteSets(db.seats, s, after.seats[s]);
    MemberOf(db.seats, r.threadId, r.target);
    SafeElsewhere(db, after, r.threadId);
  }

  lemma RemoveKeepsSafe(db: Db, r: Request, seen: Db)
    requires r.Remove? && GroupsSafe(db) && Extends(seen, db) && Passed(seen, r) && Within(0, seen, r)
    requires RemoveTx(db, r).Committed?
    ensures GroupsSafe(RemoveTx(db, r).db)
  {
    RemoveGuard(db, r, seen);
    RemoveTxSafe(db, r);
  }

  lemma RewriteKeepsSafe(db: Db, m: MessageId, expectedRow: nat, text: Option<string>)
    requires GroupsSafe(db) && RewriteTx(db, m, expectedRow, text).Committed?
    ensures GroupsSafe(RewriteTx(db, m, expectedRow, text).db)
  {}

  lemma CommitKeepsSafe(db: Db, r: Request, seen: Db, e: Env)
    requires !r.CreateThread? && !r.OpenGroup? && Commit(db, r, seen, e).Committed?
    requires GroupsSafe(db) && Extends(seen, db) && Passed(seen, r) && Within(0, seen, r)
    requires r.Add? ==> !AddRefused(seen, r)
    ensures GroupsSafe(Commit(db, r, seen, e).db)
  {
    var after := Commit(db, r, seen, e).db;
    match r {
      case Post(_, _, t, _, _, _) => RowKeepsSafe(db, after, Seat(t, r.actor.userId));
      case Add(_, _, _, _, _, _) => AddKeepsSafe(db, r, seen);
      case SetRole(_, _, _, _, _, _) => SetRoleKeepsSafe(db, r, seen);
      case Remove(_, _, _, _, _) => RemoveKeepsSafe(db, r, seen);
      case Edit(_, m, _, _) => RewriteKeepsSafe(db, m, r.expectedRow, Some(r.text));
      case Delete(_, m, _) => RewriteKeepsSafe(db, m, r.expectedRow, None);
      case MarkRead(_, t, _) => RowKeepsSafe(db, after, Seat(t, r.actor.userId));
      case Prefer(_, t, _, _) => RowKeepsSafe(db, after, Seat(t, r.actor.userId));
    }
  }

  /** A write that keeps role and membership of one row keeps every group safe. */
  lemma RowKeepsSafe(db: Db, after: Db, s: Seat)
    requires GroupsSafe(db) && s in db.seats && s in after.seats && after.seats == db.seats[s := after.seats[s]]
    requires db.seats[s].version <= after.seats[s].version
    requires after.seats[s].role == db.seats[s].role && after.seats[s].left == db.seats[s].left
    requires forall t | t in after.threads :: t in db.threads && db.threads[t].kind == after.threads[t].kind
    ensures GroupsSafe(after)
  {
    SeatFrame(db.seats, s, after.seats[s]);
    SameMembersSameSets(db.seats, after.seats, s.threadId);
    SafeElsewhere(db, after, s.threadId);
  }

  lemma NewGroupMembers(db: Db, t: ThreadId, users: set<UserId>, u: UserId)
    requires Linked(db) && t !in db.threads && u in users
    ensures var seats := db.seats + NewSeats(t, users, u, Owner);
      ActiveUsers(seats, t) == users && u in ActiveOwners(seats, t)
  {
    var added := NewSeats(t, users, u, Owner);
    var seats := db.seats + added;
    forall v ensures v in ActiveUsers(seats, t) <==> v in users {
      MemberOf(seats, t, v);
      assert Seat(t, v) in seats <==> v in users;
      assert v in users ==> Seat(t, v) in added;
    }
    MemberOf(seats, t, u);
    assert Seat(t, u) in added;
  }

  /** A new group conversation starts with its creator as owner and with 3 to 50 members. */
  lemma CreateKeepsSafe(db: Db, r: Request, t: ThreadId, now: Time)
    requires Linked(db) && WellFormedCreate(r) && GroupsSafe(db) && CreateTx(db, r, t, now).Committed?
    ensures GroupsSafe(CreateTx(db, r, t, now).db)
  {
    var u := r.actor.userId;
    var users := Others(r) + {u};
    var after := CreateTx(db, r, t, now).db;
    NewSeatsFrame(db, t, users, u, if r.direct then Member else Owner);
    if !r.direct {
      NewGroupMembers(db, t, users, u);
      assert |users| == |Others(r)| + 1;
      SubsetSize(Others(r), r.participantIds);
    }
    SafeElsewhere(db, after, t);
  }

  /** Opening or joining the thread of a working group concerns no group conversation. */
  lemma OpeningKeepsSafe(db: Db, c: Call, e: Env)
    requires Linked(db) && Grounded(db, c) && GroupsSafe(db) && c.phase.Opening?
    ensures GroupsSafe(Progress(db, c, e).db)
  {
    var after := Progress(db, c, e).db;
    if after != db {
      var view, existing := c.phase.view, c.phase.existing;
      if existing.None? {
        NewSeatsFrame(db, e.newId, view.members, view.ownerId, Owner);
        SafeElsewhere(db, after, e.newId);
      } else {
        var s := Seat(existing.value, c.request.actor.userId);
        SeatFrame(db.seats, s, after.seats[s]);
        assert after.seats == db.seats[s := after.seats[s]];
        SafeElsewhere(db, after, existing.value);
      }
    }
  }

  /** Steps that commit on a snapshot. */
  lemma SnapshotKeepsSafe(db: Db, c: Call, e: Env)
    requires Grounded(db, c) && GroupsSafe(db) && TimelyCall(c) && (c.phase.Checked? || c.phase.Cleared?)
    ensures GroupsSafe(Progress(db, c, e).db)
  {
    if Progress(db, c, e).db != db {
      CommitKeepsSafe(db, c.request, c.phase.seen, e);
    }
  }

  lemma ProgressKeepsSafe(db: Db, c: Call, e: Env)
    requires Linked(db) && Grounded(db, c) && GroupsSafe(db)
    requires TimelyCall(c)
    ensures GroupsSafe(Progress(db, c, e).db)
  {
    match c.phase {
      case Checked(_) => SnapshotKeepsSafe(db, c, e);
      case Cleared(_) => SnapshotKeepsSafe(db, c, e);
      case Opening(_, _) => OpeningKeepsSafe(db, c, e);
      case Inserting =>
        if Progress(db, c, e).db != db {
          CreateKeepsSafe(db, c.request, e.newId, e.now);
        }
      case _ =>
    }
  }

  lemma ProgressTimely(db: Db, c: Call, e: Env)
    requires Fits(c.request, c.phase) && TimelyCall(c)
    requires c.phase.Asked? ==> Within(0, db, c.request)
    ensures TimelyCall(Call(c.request, Progress(db, c, e).phase))
  {
  }

  lemma StepKeepsSafe(s: System, step: Step)
    requires Sound(s) && Fitting(s) && Timely(s) && GroupsSafe(s.db) && StepWithin(0, s, step)
    ensures Timely(Apply(s, step)) && GroupsSafe(Apply(s, step).db)
  {
    if step.Advance? && step.call in s.calls {
      ProgressKeepsSafe(s.db, s.calls[step.call], step.env);
      ProgressTimely(s.db, s.calls[step.call], step.env);
    }
  }

  lemma {:induction false} RunKeepsSafe(s: System, steps: seq<Step>)
    requires Sound(s) && Fitting(s) && Timely(s) && GroupsSafe(s.db) && RunWithin(0, s, steps)
    ensures GroupsSafe(Run(s, steps).db)
    decreases |steps|
  {
    if steps != [] {
      StepSound(s, steps[0]);
      StepKeepsSafe(s, steps[0]);
      RunKeepsSafe(Apply(s, steps[0]), steps[1..]);
    }
  }

  /** Clients that stay within `gap` can never break a group conversation. */
  ghost predicate SafeWithin(gap: int) {
    forall steps :: RunWithin(gap, INITIAL, steps) ==> GroupsSafe(Run(INITIAL, steps).db)
  }
}
