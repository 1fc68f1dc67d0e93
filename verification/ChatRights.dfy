/** Who may change what: every change of a row in every run, traced to the call that made it and to the rights of its caller. */
module ChatRights {
  import opened Basics
  import opened ChatModel
  import opened ChatMachine
  import opened ChatFrames
  import opened ChatSafety
  import opened ChatRuns

  // ----- Rights, in terms of rows -----

  /** The user has a row in the thread and has not left. */
  predicate TakesPart(db: Db, t: ThreadId, u: UserId) {
    Seat(t, u) in db.seats && !db.seats[Seat(t, u)].left
  }

  /** The caller takes part, and owns the conversation or is an administrator. */
  predicate Leads(db: Db, t: ThreadId, a: Actor) {
    TakesPart(db, t, a.userId) && (a.admin || db.seats[Seat(t, a.userId)].role == Owner)
  }

  /** The thread is one of the caller's companies, and the caller takes part. */
  predicate Inside(db: Db, t: ThreadId, a: Actor) {
    t in db.threads && db.threads[t].companyId in a.companies && TakesPart(db, t, a.userId)
  }

  /** What a caller needs for a request. */
  predicate Entitled(db: Db, r: Request) {
    match r
    case Post(a, _, t, _, _, _) => Inside(db, t, a)
    case MarkRead(a, t, _) => Inside(db, t, a)
    case Prefer(a, t, _, _) => Inside(db, t, a)
    case Add(a, _, t, _, _, _) => Inside(db, t, a) && Leads(db, t, a)
    case SetRole(a, t, _, _, _, _) => Inside(db, t, a) && Leads(db, t, a)
    case Remove(a, t, u, _, _) => Inside(db, t, a) && (u == a.userId || Leads(db, t, a))
    case Edit(a, m, _, _) => m in db.messages && Inside(db, db.messages[m].threadId, a) && (db.messages[m].authorId == a.userId || a.admin)
    case Delete(a, m, _) => m in db.messages && Inside(db, db.messages[m].threadId, a) && (db.messages[m].authorId == a.userId || a.admin)
    case _ => true
  }

  lemma PassedEntitled(seen: Db, r: Request)
    requires !r.CreateThread? && !r.OpenGroup? && Passed(seen, r)
    ensures Entitled(seen, r)
  {
    var e :| Review(seen, r, e).Proceed?;
  }

  // ----- Snapshots are states of the run -----

  /** `db` is the database of some state of the run. */
  ghost predicate Was(steps: seq<Step>, db: Db) {
    exists k: nat :: k <= |steps| && Run(INITIAL, steps[..k]).db == db
  }

  lemma WasLater(steps: seq<Step>, last: Step, db: Db)
    requires Was(steps, db)
    ensures Was(steps + [last], db)
  {
    var k: nat :| k <= |steps| && Run(INITIAL, steps[..k]).db == db;
    assert (steps + [last])[..k] == steps[..k];
  }

  lemma IsNow(steps: seq<Step>, last: Step)
    ensures Was(steps + [last], Run(INITIAL, steps).db)
  {
    assert (steps + [last])[..|steps|] == steps;
  }

  /** What a call holds after a step it held before, or it is the database that the step read. */
  lemma SnapshotOrigin(s: System, step: Step, c: nat)
    requires Fitting(s) && c in Apply(s, step).calls && (Apply(s, step).calls[c].phase.Checked? || Apply(s, step).calls[c].phase.Cleared?)
    ensures var seen := Apply(s, step).calls[c].phase.seen;
      seen == s.db || (c in s.calls && (s.calls[c].phase.Checked? || s.calls[c].phase.Cleared?) && s.calls[c].phase.seen == seen)
  {}

  lemma {:induction false} SeenWas(steps: seq<Step>, c: nat)
    requires c in Run(INITIAL, steps).calls
    requires Run(INITIAL, steps).calls[c].phase.Checked? || Run(INITIAL, steps).calls[c].phase.Cleared?
    ensures Was(steps, Run(INITIAL, steps).calls[c].phase.seen)
    decreases |steps|
  {
    var init, last := steps[..|steps| - 1], steps[|steps| - 1];
    assert steps == init + [last];
    RunSnoc(0, INITIAL, init, last);
    SnapshotOrigin(Run(INITIAL, init), last, c);
    var seen := Run(INITIAL, steps).calls[c].phase.seen;
    if seen == Run(INITIAL, init).db {
      IsNow(init, last);
    } else {
      SeenWas(init, c);
      WasLater(init, last, seen);
    }
  }

  /** The caller had the rights that the request needs in some earlier state of the run. */
  ghost predicate WasEntitled(steps: seq<Step>, r: Request) {
    exists db :: Was(steps, db) && Entitled(db, r)
  }

  predicate Snapshot(p: Phase) {
    p.Checked? || p.Cleared?
  }

  lemma ActorWasEntitled(steps: seq<Step>, c: nat)
    requires c in Run(INITIAL, steps).calls && Snapshot(Run(INITIAL, steps).calls[c].phase)
    ensures WasEntitled(steps, Run(INITIAL, steps).calls[c].request)
  {
    var s := Run(INITIAL, steps);
    RunSound(INITIAL, steps);
    assert Grounded(s.db, s.calls[c]);
    PassedEntitled(s.calls[c].phase.seen, s.calls[c].request);
    SeenWas(steps, c);
  }

  // ----- What a step writes to a row -----

  /** The row `x` of `after` is what the request `r` makes of the row of `db`. */
  predicate SeatWritten(db: Db, after: Db, r: Request, x: Seat)
    requires x in after.seats
  {
    var row := after.seats[x];
    match r
    case Post(a, _, t, _, _, _) =>
      && x == Seat(t, a.userId) && x in db.seats && row.marker.Some? && row.marker.value !in db.messages
      && row.marker.value in after.messages && row == db.seats[x].(marker := row.marker, version := db.seats[x].version + 1)
    case MarkRead(a, t, m) =>
      x == Seat(t, a.userId) && x in db.seats && row == db.seats[x].(marker := Some(m), version := db.seats[x].version + 1)
    case Prefer(a, t, muted, expected) =>
      && x == Seat(t, a.userId) && TakesPart(db, t, a.userId) && db.seats[x].version == expected
      && row == db.seats[x].(muted := muted, version := expected + 1)
    case SetRole(_, t, u, role, expected, expectedThread) =>
      && x == Seat(t, u) && TakesPart(db, t, u) && db.seats[x].version == expected && AtVersion(db, t, expectedThread)
      && row == db.seats[x].(role := role, version := expected + 1)
    case Remove(_, t, u, expected, expectedThread) =>
      && x == Seat(t, u) && TakesPart(db, t, u) && db.seats[x].version == expected && AtVersion(db, t, expectedThread)
      && row == db.seats[x].(left := true, version := expected + 1)
    case Add(_, _, t, u, role, expectedThread) =>
      && x == Seat(t, u) && AtVersion(db, t, expectedThread)
      && row == if x in db.seats then Participant(role, false, false, db.seats[x].marker, db.seats[x].version + 1)
                else Participant(role, false, false, None, 1)
    case OpenGroup(a, g) =>
      x.threadId in db.threads ==>
        && x.userId == a.userId && db.threads[x.threadId].kind == GroupContext && !row.left
        && row == if x in db.seats then db.seats[x].(left := false, role := row.role, version := db.seats[x].version + 1)
                  else Participant(row.role, false, false, None, 1)
    case CreateThread(_, _, _, _, _, _) => x.threadId !in db.threads
    case Edit(_, _, _, _) => false
    case Delete(_, _, _) => false
  }

  predicate AtVersion(db: Db, t: ThreadId, version: nat) {
    t in db.threads && db.threads[t].version == version
  }

  predicate SeatChanged(db: Db, after: Db, x: Seat) {
    x in after.seats && (x in db.seats ==> after.seats[x] != db.seats[x])
  }

  lemma CommitSeat(db: Db, r: Request, seen: Db, e: Env, x: Seat)
    requires !r.CreateThread? && !r.OpenGroup? && Commit(db, r, seen, e).Committed? && SeatChanged(db, Commit(db, r, seen, e).db, x)
    ensures SeatWritten(db, Commit(db, r, seen, e).db, r, x)
  {}

  lemma NewThreadSeat(db: Db, t: ThreadId, users: set<UserId>, lead: UserId, role: Role, after: Db, x: Seat)
    requires Linked(db) && t !in db.threads && after.seats == db.seats + NewSeats(t, users, lead, role) && SeatChanged(db, after, x)
    ensures x.threadId == t
  {
    NewSeatsFrame(db, t, users, lead, role);
  }

  /** A row changes only in the transaction of a call that holds a snapshot, opens a group thread or creates a thread. */
  lemma ProgressSeat(db: Db, c: Call, e: Env, x: Seat)
    requires Linked(db) && Grounded(db, c) && SeatChanged(db, Progress(db, c, e).db, x)
    ensures SeatWritten(db, Progress(db, c, e).db, c.request, x)
    ensures Snapshot(c.phase) || c.phase.Opening? || c.phase.Inserting?
  {
    if Snapshot(c.phase) {
      SnapshotSeat(db, c, e, x);
    } else if c.phase.Inserting? {
      InsertingSeat(db, c, e, x);
    } else if c.phase.Opening? {
      OpeningSeat(db, c, e, x);
    } else {
      OtherSeats(db, c, e);
    }
  }

  lemma OtherSeats(db: Db, c: Call, e: Env)
    requires Fits(c.request, c.phase) && !Snapshot(c.phase) && !c.phase.Inserting? && !c.phase.Opening?
    ensures Progress(db, c, e).db.seats == db.seats
  {}

  lemma SnapshotSeat(db: Db, c: Call, e: Env, x: Seat)
    requires Fits(c.request, c.phase) && Snapshot(c.phase) && SeatChanged(db, Progress(db, c, e).db, x)
    ensures SeatWritten(db, Progress(db, c, e).db, c.request, x)
  {
    CommitSeat(db, c.request, c.phase.seen, e, x);
  }

  lemma InsertingSeat(db: Db, c: Call, e: Env, x: Seat)
    requires Linked(db) && Fits(c.request, c.phase) && c.phase.Inserting? && SeatChanged(db, Progress(db, c, e).db, x)
    ensures SeatWritten(db, Progress(db, c, e).db, c.request, x)
  {
    var r := c.request;
    NewThreadSeat(db, e.newId, Others(r) + {r.actor.userId}, r.actor.userId, if r.direct then Member else Owner, Progress(db, c, e).db, x);
  }

  lemma OpeningSeat(db: Db, c: Call, e: Env, x: Seat)
    requires Linked(db) && Grounded(db, c) && c.phase.Opening? && SeatChanged(db, Progress(db, c, e).db, x)
    ensures SeatWritten(db, Progress(db, c, e).db, c.request, x)
  {
    if c.phase.existing.None? {
      NewThreadSeat(db, e.newId, c.phase.view.members, c.phase.view.ownerId, Owner, Progress(db, c, e).db, x);
    }
  }

  /** In every run, whenever a row appears or changes, the step is that of a call whose request writes exactly this; the caller
      had the rights for it when the request was checked. */
  lemma SeatsTraced(steps: seq<Step>, step: Step, x: Seat)
    requires SeatChanged(Run(INITIAL, steps).db, Apply(Run(INITIAL, steps), step).db, x)
    ensures var s := Run(INITIAL, steps);
      && step.Advance? && step.call in s.calls
      && SeatWritten(s.db, Apply(s, step).db, s.calls[step.call].request, x)
      && WasEntitled(steps, s.calls[step.call].request)
  {
    var s := Run(INITIAL, steps);
    RunSound(INITIAL, steps);
    ProgressSeat(s.db, s.calls[step.call], step.env, x);
    if Snapshot(s.calls[step.call].phase) {
      ActorWasEntitled(steps, step.call);
    } else {
      IsNow(steps, step);
      assert steps[..|steps|] == steps;
      assert Was(steps, s.db) && Entitled(s.db, s.calls[step.call].request);
    }
  }

  /** The row that a request writes. */
  function RowOf(r: Request): Seat
    requires r.Post? || r.MarkRead? || r.Prefer? || Managing(r)
  {
    Seat(r.threadId, if Managing(r) then r.target else r.actor.userId)
  }

  /** A call that answers as having done its work has written its row, exactly as asked. */
  lemma WorkIsDone(db: Db, c: Call, e: Env)
    requires Fits(c.request, c.phase) && (c.request.Post? || c.request.MarkRead? || c.request.Prefer? || Managing(c.request))
    requires !c.phase.Done? && Progress(db, c, e).phase.Done? && Progress(db, c, e).phase.outcome.Created?
    ensures var after := Progress(db, c, e).db;
      RowOf(c.request) in after.seats && SeatWritten(db, after, c.request, RowOf(c.request))
  {
    assert Snapshot(c.phase) && Commit(db, c.request, c.phase.seen, e).Committed?;
    CommittedRow(db, c.request, c.phase.seen, e);
    CommitSeat(db, c.request, c.phase.seen, e, RowOf(c.request));
  }

  lemma CommittedRow(db: Db, r: Request, seen: Db, e: Env)
    requires (r.Post? || r.MarkRead? || r.Prefer? || Managing(r)) && Commit(db, r, seen, e).Committed?
    ensures SeatChanged(db, Commit(db, r, seen, e).db, RowOf(r))
  {}

  // ----- Who leads at the commit -----

  lemma {:induction false} RunTimely(s: System, steps: seq<Step>)
    requires Sound(s) && Fitting(s) && Timely(s) && GroupsSafe(s.db) && RunWithin(0, s, steps)
    ensures Timely(Run(s, steps))
    decreases |steps|
  {
    if steps != [] {
      StepSound(s, steps[0]);
      StepKeepsSafe(s, steps[0]);
      RunTimely(Apply(s, steps[0]), steps[1..]);
    }
  }

  /** The version guard of a timely managing request meets the rights that its checks saw. */
  lemma StillEntitled(db: Db, r: Request, seen: Db)
    requires Managing(r) && Extends(seen, db) && Passed(seen, r) && Within(0, seen, r) && AtVersion(db, r.threadId, r.expectedThread)
    ensures Collaborative(db.threads[r.threadId].kind) && Entitled(db, r)
  {
    PassedEntitled(seen, r);
    GuardMeetsSnapshot(db, seen, r.threadId, r.expectedThread);
    assert SameMember(seen.seats, db.seats, Seat(r.threadId, r.actor.userId));
  }

  /** When no client runs ahead, a call that adds or removes a participant or changes a role has its rights in the very
      database that its transaction meets. */
  lemma ManagedByLeader(steps: seq<Step>, step: Step, x: Seat)
    requires RunWithin(0, INITIAL, steps) && SeatChanged(Run(INITIAL, steps).db, Apply(Run(INITIAL, steps), step).db, x)
    requires step.Advance? && step.call in Run(INITIAL, steps).calls && Managing(Run(INITIAL, steps).calls[step.call].request)
    ensures var db, r := Run(INITIAL, steps).db, Run(INITIAL, steps).calls[step.call].request;
      x == Seat(r.threadId, r.target) && AtVersion(db, r.threadId, r.expectedThread)
      && Collaborative(db.threads[r.threadId].kind) && Entitled(db, r)
  {
    var s := Run(INITIAL, steps);
    var c := s.calls[step.call];
    RunSound(INITIAL, steps);
    RunTimely(INITIAL, steps);
    ProgressSeat(s.db, c, step.env, x);
    assert Grounded(s.db, c) && TimelyCall(c);
    StillEntitled(s.db, c.request, c.phase.seen);
  }

  /** Somebody leaves only by their own request, or by that of a caller who takes part and is an administrator or an owner: in the
      state of the run that was checked and, when no client runs ahead, in the one that the transaction meets. */
  lemma RemovalEntitled(steps: seq<Step>, step: Step, t: ThreadId, u: UserId)
    requires TakesPart(Run(INITIAL, steps).db, t, u) && !TakesPart(Apply(Run(INITIAL, steps), step).db, t, u)
    ensures var s := Run(INITIAL, steps);
      && step.Advance? && step.call in s.calls
      && var r := s.calls[step.call].request;
         && r.Remove? && r.threadId == t && r.target == u
         && (r.actor.userId == u || exists db :: Was(steps, db) && Leads(db, t, r.actor))
         && (RunWithin(0, INITIAL, steps) ==> r.actor.userId == u || Leads(s.db, t, r.actor))
  {
    var s, x := Run(INITIAL, steps), Seat(t, u);
    RunSound(INITIAL, steps);
    StepSound(s, step);
    SeatsTraced(steps, step, x);
    var r := s.calls[step.call].request;
    var db :| Was(steps, db) && Entitled(db, r);
    assert r.actor.userId != u ==> Leads(db, t, r.actor);
    if RunWithin(0, INITIAL, steps) {
      ManagedByLeader(steps, step, x);
    }
  }

  /** A role in a collaborative thread changes, and a user joins one, only by the request of a caller who leads it, and the role
      is the one that was asked for. */
  lemma RoleEntitled(steps: seq<Step>, step: Step, t: ThreadId, u: UserId)
    requires t in Run(INITIAL, steps).db.threads && Collaborative(Run(INITIAL, steps).db.threads[t].kind)
    requires TakesPart(Apply(Run(INITIAL, steps), step).db, t, u)
    requires TakesPart(Run(INITIAL, steps).db, t, u) ==>
      Apply(Run(INITIAL, steps), step).db.seats[Seat(t, u)].role != Run(INITIAL, steps).db.seats[Seat(t, u)].role
    ensures var s := Run(INITIAL, steps);
      && step.Advance? && step.call in s.calls
      && var r := s.calls[step.call].request;
         && (r.Add? || r.SetRole?) && r.threadId == t && r.target == u
         && Apply(s, step).db.seats[Seat(t, u)].role == r.role
         && (exists db :: Was(steps, db) && Leads(db, t, r.actor))
         && (RunWithin(0, INITIAL, steps) ==> Leads(s.db, t, r.actor))
  {
    var s, x := Run(INITIAL, steps), Seat(t, u);
    SeatsTraced(steps, step, x);
    var r := s.calls[step.call].request;
    var db :| Was(steps, db) && Entitled(db, r);
    assert Leads(db, t, r.actor);
    if RunWithin(0, INITIAL, steps) {
      ManagedByLeader(steps, step, x);
    }
  }

  // ----- Messages -----

  /** The message `m` of `after` is what the request `r` makes of the one of `db`. */
  predicate MessageRewritten(db: Db, after: Db, r: Request, m: MessageId)
    requires m in db.messages && m in after.messages
  {
    var was, now := db.messages[m], after.messages[m];
    match r
    case Edit(_, id, text, expected) =>
      id == m && !was.deleted && was.version == expected && now == was.(text := text, version := expected + 1)
    case Delete(_, id, expected) =>
      id == m && !was.deleted && was.version == expected && now == was.(deleted := true, version := expected + 1)
    case _ => false
  }

  lemma ProgressMessage(db: Db, c: Call, e: Env, m: MessageId)
    requires Fits(c.request, c.phase) && m in db.messages && m in Progress(db, c, e).db.messages
    requires Progress(db, c, e).db.messages[m] != db.messages[m]
    ensures MessageRewritten(db, Progress(db, c, e).db, c.request, m) && c.phase.Checked?
  {}

  /** In every run a message changes only by an edit or a deletion of its author or an administrator, who took part in its thread
      when the request was checked, and under the version the caller knew. */
  lemma MessageEntitled(steps: seq<Step>, step: Step, m: MessageId)
    requires m in Run(INITIAL, steps).db.messages && m in Apply(Run(INITIAL, steps), step).db.messages
    requires Apply(Run(INITIAL, steps), step).db.messages[m] != Run(INITIAL, steps).db.messages[m]
    ensures var s := Run(INITIAL, steps);
      && step.Advance? && step.call in s.calls
      && var r := s.calls[step.call].request;
         && MessageRewritten(s.db, Apply(s, step).db, r, m)
         && (r.actor.userId == s.db.messages[m].authorId || r.actor.admin)
         && exists db :: Was(steps, db) && Inside(db, s.db.messages[m].threadId, r.actor)
  {
    var s := Run(INITIAL, steps);
    var c := s.calls[step.call];
    RunSound(INITIAL, steps);
    ProgressMessage(s.db, c, step.env, m);
    assert Grounded(s.db, c);
    PassedEntitled(c.phase.seen, c.request);
    SeenWas(steps, step.call);
    assert s.db.messages[m].threadId == c.phase.seen.messages[m].threadId;
    assert Was(steps, c.phase.seen) && Inside(c.phase.seen, s.db.messages[m].threadId, c.request.actor);
  }
}
