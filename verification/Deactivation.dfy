/** Deactivating a user: open tasks and documents go to a new owner, and the account and its sessions are closed. */
module Deactivation {
  import opened Basics

  type UserId = nat
  type TaskId = nat

  datatype Status = New | Planned | InProgress | InReview | Done | Blocked | Cancelled | Archived
  datatype Role = Responsible | OtherRole

  datatype Task = Task(status: Status, reporterId: UserId, version: nat)
  datatype Seat = Seat(role: Role, removed: bool, addedById: Option<UserId>)
  datatype Document = Document(ownerId: UserId, archived: bool)
  datatype User = User(workspaceId: nat, admin: bool, active: bool, authorizationVersion: nat)
  datatype Session = Session(userId: UserId, revoked: bool)

  type Seats = map<(TaskId, UserId), Seat>

  datatype Db = Db(tasks: map<TaskId, Task>, seats: Seats, documents: map<nat, Document>,
                   users: map<UserId, User>, sessions: map<nat, Session>)

  datatype Outcome = Forbidden | NotFound | Refused(tasks: nat, documents: nat) | Failed | Deactivated

  predicate Open(t: Task) {
    t.status != Done && t.status != Archived && t.status != Cancelled
  }

  predicate Holds(seats: Seats, t: TaskId, u: UserId) {
    (t, u) in seats && seats[(t, u)].role == Responsible && !seats[(t, u)].removed
  }

  function HeldAmong(seats: Seats, tasks: set<TaskId>, u: UserId): set<TaskId> {
    set t | t in tasks && Holds(seats, t, u)
  }

  /** The open tasks a user reports. */
  function Reported(db: Db, u: UserId): set<TaskId> {
    set t | t in db.tasks && Open(db.tasks[t]) && db.tasks[t].reporterId == u
  }

  /** The open tasks a user is responsible for. */
  function Carried(db: Db, u: UserId): set<TaskId> {
    set t | t in db.tasks && Open(db.tasks[t]) && Holds(db.seats, t, u)
  }

  /** The unarchived documents of a user. */
  function Owned(db: Db, u: UserId): set<nat> {
    set d | d in db.documents && db.documents[d].ownerId == u && !db.documents[d].archived
  }

  function ActiveAdmins(db: Db, workspaceId: nat): set<UserId> {
    set u | u in db.users && db.users[u].workspaceId == workspaceId && db.users[u].admin && db.users[u].active
  }

  // ----- The specification -----

  /** The reasons to answer before the transaction starts. */
  function Decide(db: Db, actor: UserId, workspaceId: nat, target: UserId, newOwner: Option<UserId>): Option<Outcome> {
    var tasks := |Reported(db, target) + Carried(db, target)|;
    var documents := |Owned(db, target)|;
    if target == actor then Some(Forbidden)
    else if target !in db.users || db.users[target].workspaceId != workspaceId then Some(NotFound)
    else if target in ActiveAdmins(db, workspaceId) && |ActiveAdmins(db, workspaceId)| <= 1 then Some(Forbidden)
    else if tasks + documents > 0 && newOwner.None? then Some(Refused(tasks, documents))
    else None
  }

  /** An open task the user reports or is responsible for. */
  predicate Stuck(db: Db, t: TaskId, u: UserId) {
    && t in db.tasks && db.tasks[t].status !in {Done, Archived, Cancelled}
    && (db.tasks[t].reporterId == u
        || ((t, u) in db.seats && db.seats[(t, u)].role == Responsible && !db.seats[(t, u)].removed))
  }

  predicate RunsWorkspace(db: Db, a: UserId, workspaceId: nat) {
    a in db.users && db.users[a].workspaceId == workspaceId && db.users[a].admin && db.users[a].active
  }

  lemma CountsMean(db: Db, u: UserId, workspaceId: nat)
    ensures forall t :: t in Reported(db, u) + Carried(db, u) <==> Stuck(db, t, u)
    ensures forall d :: d in Owned(db, u) <==> d in db.documents && db.documents[d].ownerId == u && !db.documents[d].archived
    ensures forall a :: a in ActiveAdmins(db, workspaceId) <==> RunsWorkspace(db, a, workspaceId)
  {}

  /** Without a new owner the refusal names how many open tasks the target reports or is responsible for, and how many unarchived
      documents the target owns; a deactivation goes on only for another active user's account of the workspace that is not its last
      active administrator. */
  lemma RefusalCounts(db: Db, actor: UserId, workspaceId: nat, target: UserId, newOwner: Option<UserId>,
                      tasks: set<TaskId>, documents: set<nat>, admins: set<UserId>)
    requires forall t :: t in tasks <==> Stuck(db, t, target)
    requires forall d :: d in documents <==> d in db.documents && db.documents[d].ownerId == target && !db.documents[d].archived
    requires forall a :: a in admins <==> RunsWorkspace(db, a, workspaceId)
    ensures var allowed := && target != actor && target in db.users && db.users[target].workspaceId == workspaceId
                           && (target in admins ==> |admins| > 1);
      && (Decide(db, actor, workspaceId, target, newOwner).None?
          <==> allowed && (newOwner.Some? || (tasks == {} && documents == {})))
      && (Decide(db, actor, workspaceId, target, newOwner) == Some(Refused(|tasks|, |documents|))
          <==> allowed && newOwner.None? && (tasks != {} || documents != {}))
      && (Decide(db, actor, workspaceId, target, newOwner) == Some(NotFound)
          <==> target != actor && (target !in db.users || db.users[target].workspaceId != workspaceId))
  {
    CountsMean(db, target, workspaceId);
    assert tasks == Reported(db, target) + Carried(db, target);
    assert documents == Owned(db, target);
    assert admins == ActiveAdmins(db, workspaceId);
  }

  function WithReporter(tasks: map<TaskId, Task>, given: set<TaskId>, newOwner: UserId): map<TaskId, Task> {
    map t | t in tasks :: if t in given then Task(tasks[t].status, newOwner, tasks[t].version + 1) else tasks[t]
  }

  function WithResponsible(seats: Seats, given: set<TaskId>, target: UserId, newOwner: UserId, actor: UserId): Seats
    requires forall t | t in given :: Holds(seats, t, target)
  {
    map s | s in seats.Keys + (set t | t in given :: (t, newOwner)) ::
      if s.0 !in given then seats[s]
      else if s.1 == target then Seat(Responsible, true, if target == newOwner then Some(actor) else seats[s].addedById)
      else if s.1 == newOwner then Seat(Responsible, false, Some(actor))
      else seats[s]
  }

  /** One task: the new owner is added or brought back as responsible, then the target is removed. */
  function PassedOn(seats: Seats, t: TaskId, target: UserId, newOwner: UserId, actor: UserId): Seats {
    if !Holds(seats, t, target) then seats
    else
      var added := seats[(t, newOwner) := Seat(Responsible, false, Some(actor))];
      added[(t, target) := added[(t, target)].(removed := true)]
  }

  function WithOwner(documents: map<nat, Document>, given: set<nat>, newOwner: UserId): map<nat, Document> {
    map d | d in documents :: if d in given then Document(newOwner, documents[d].archived) else documents[d]
  }

  function WithRevoked(sessions: map<nat, Session>, u: UserId): map<nat, Session> {
    map s | s in sessions :: if sessions[s].userId == u then Session(u, true) else sessions[s]
  }

  function HandOver(db: Db, target: UserId, newOwner: UserId, actor: UserId): Db {
    Db(WithReporter(db.tasks, Reported(db, target), newOwner),
       WithResponsible(db.seats, Carried(db, target), target, newOwner, actor),
       WithOwner(db.documents, Owned(db, target), newOwner), db.users, db.sessions)
  }

  function CloseAccount(db: Db, target: UserId): Db
    requires target in db.users
  {
    var u := db.users[target];
    Db(db.tasks, db.seats, db.documents,
       db.users[target := User(u.workspaceId, u.admin, false, u.authorizationVersion + 1)], WithRevoked(db.sessions, target))
  }

  /** Tasks and their participants refer to users: a new owner who does not exist rolls the transaction back. */
  function DeactivateTx(db: Db, target: UserId, newOwner: Option<UserId>, actor: UserId): Option<Db>
    requires target in db.users
  {
    if newOwner.None? then Some(CloseAccount(db, target))
    else if newOwner.value !in db.users && Reported(db, target) + Carried(db, target) != {} then None
    else Some(CloseAccount(HandOver(db, target, newOwner.value, actor), target))
  }

  // ----- What a handover promises -----

  ghost predicate HasResponsible(seats: Seats, t: TaskId) {
    exists u :: Holds(seats, t, u)
  }

  ghost predicate KeepsResponsible(before: Db, after: Db) {
    forall t | t in before.tasks && HasResponsible(before.seats, t) :: HasResponsible(after.seats, t)
  }

  /** A task version rises by one exactly where the reporter changed, and nothing else about a task changes. */
  predicate VersionsFollowReporters(before: Db, after: Db) {
    && after.tasks.Keys == before.tasks.Keys
    && forall t | t in before.tasks ::
         && after.tasks[t].status == before.tasks[t].status
         && after.tasks[t].version
            == before.tasks[t].version + if after.tasks[t].reporterId != before.tasks[t].reporterId then 1 else 0
  }

  ghost predicate HandedOver(before: Db, after: Db, target: UserId) {
    && Reported(after, target) == {} && Carried(after, target) == {} && Owned(after, target) == {}
    && KeepsResponsible(before, after)
    && VersionsFollowReporters(before, after)
  }

  predicate SameSeat(before: Seats, after: Seats, t: TaskId, u: UserId) {
    ((t, u) in before <==> (t, u) in after) && ((t, u) in before ==> after[(t, u)] == before[(t, u)])
  }

  /** Closed tasks with their participants, everybody else's participation, other documents, accounts and sessions stay. */
  ghost predicate Untouched(before: Db, after: Db, target: UserId, newOwner: UserId) {
    && (forall t | t in before.tasks && !Open(before.tasks[t]) :: t in after.tasks && after.tasks[t] == before.tasks[t])
    && (forall t, u | (t in before.tasks && !Open(before.tasks[t])) || (u != target && u != newOwner) ::
          SameSeat(before.seats, after.seats, t, u))
    && after.documents.Keys == before.documents.Keys
    && (forall d | d in before.documents && d !in Owned(before, target) :: after.documents[d] == before.documents[d])
    && after.users.Keys == before.users.Keys && (forall u | u in before.users && u != target :: after.users[u] == before.users[u])
    && after.sessions.Keys == before.sessions.Keys
    && (forall s | s in before.sessions && before.sessions[s].userId != target :: after.sessions[s] == before.sessions[s])
  }

  /** Nothing is lost on the way: the new owner has what was theirs and what was the target's. */
  predicate Received(before: Db, after: Db, target: UserId, newOwner: UserId) {
    && Reported(after, newOwner) == Reported(before, newOwner) + Reported(before, target)
    && Carried(after, newOwner) == Carried(before, newOwner) + Carried(before, target)
    && Owned(after, newOwner) == Owned(before, newOwner) + Owned(before, target)
  }

  predicate Closed(before: Db, after: Db, target: UserId)
    requires target in before.users
  {
    && target in after.users
    && after.users[target] == before.users[target].(active := false, authorizationVersion := before.users[target].authorizationVersion + 1)
    && forall s | s in after.sessions && after.sessions[s].userId == target :: after.sessions[s].revoked
  }

  lemma SeatAfter(seats: Seats, given: set<TaskId>, target: UserId, newOwner: UserId, actor: UserId, t: TaskId, u: UserId)
    requires forall g | g in given :: Holds(seats, g, target)
    ensures var after := WithResponsible(seats, given, target, newOwner, actor);
      && (t !in given || (u != target && u != newOwner) ==> SameSeat(seats, after, t, u))
      && (t in given && u == target ==> !Holds(after, t, u))
      && (t in given && u == newOwner != target ==> Holds(after, t, u))
  {
    var after := WithResponsible(seats, given, target, newOwner, actor);
    assert (t, u) in (set g | g in given :: (g, newOwner)) <==> t in given && u == newOwner;
    if t in given && u == target {
      assert Holds(seats, t, target);
      assert (t, target) in after;
    }
  }

  lemma HandOverUntouched(db: Db, target: UserId, newOwner: UserId, actor: UserId)
    requires target in db.users
    ensures Untouched(db, CloseAccount(HandOver(db, target, newOwner, actor), target), target, newOwner)
    ensures Closed(db, CloseAccount(HandOver(db, target, newOwner, actor), target), target)
  {
    var after := CloseAccount(HandOver(db, target, newOwner, actor), target);
    forall t, u | (t in db.tasks && !Open(db.tasks[t])) || (u != target && u != newOwner)
      ensures SameSeat(db.seats, after.seats, t, u)
    {
      SeatAfter(db.seats, Carried(db, target), target, newOwner, actor, t, u);
    }
  }

  /** Responsibility after a handover to somebody else, task by task. */
  lemma CarriedAfter(db: Db, target: UserId, newOwner: UserId, actor: UserId)
    requires newOwner != target
    ensures var after := HandOver(db, target, newOwner, actor);
      Carried(after, target) == {} && Carried(after, newOwner) == Carried(db, newOwner) + Carried(db, target)
  {
    var after := HandOver(db, target, newOwner, actor);
    forall t | t in db.tasks
      ensures t !in Carried(after, target)
      ensures t in Carried(after, newOwner) <==> t in Carried(db, newOwner) || t in Carried(db, target)
    {
      SeatAfter(db.seats, Carried(db, target), target, newOwner, actor, t, target);
      SeatAfter(db.seats, Carried(db, target), target, newOwner, actor, t, newOwner);
    }
  }

  /** Somebody is still responsible for a task, unless its only responsible person hands it to themselves. */
  lemma ResponsibleAfter(db: Db, target: UserId, newOwner: UserId, actor: UserId, t: TaskId)
    requires t in db.tasks && HasResponsible(db.seats, t)
    ensures HasResponsible(HandOver(db, target, newOwner, actor).seats, t)
      <==> newOwner != target || t !in Carried(db, target) || exists u :: u != target && Holds(db.seats, t, u)
  {
    var given := Carried(db, target);
    var after := HandOver(db, target, newOwner, actor).seats;
    forall u ensures t !in given || (u != target && u != newOwner) ==> (Holds(after, t, u) <==> Holds(db.seats, t, u)) {
      SeatAfter(db.seats, given, target, newOwner, actor, t, u);
    }
    if t in given {
      SeatAfter(db.seats, given, target, newOwner, actor, t, newOwner);
      SeatAfter(db.seats, given, target, newOwner, actor, t, target);
    } else {
      var u :| Holds(db.seats, t, u);
      assert Holds(after, t, u);
    }
  }

  /** A handover to the target themselves is harmless when there is nothing that only they hold. */
  ghost predicate NothingAtStake(db: Db, target: UserId) {
    && Reported(db, target) == {} && Owned(db, target) == {}
    && forall t | t in Carried(db, target) :: exists u :: u != target && Holds(db.seats, t, u)
  }

  /** A committed deactivation with a new owner hands everything over if and only if the new owner is somebody else,
      or the target held nothing alone. */
  lemma HandoverExact(db: Db, target: UserId, newOwner: UserId, actor: UserId)
    requires target in db.users && DeactivateTx(db, target, Some(newOwner), actor).Some?
    ensures HandedOver(db, DeactivateTx(db, target, Some(newOwner), actor).value, target)
      <==> newOwner != target || NothingAtStake(db, target)
  {
    var after := DeactivateTx(db, target, Some(newOwner), actor).value;
    forall t | t in db.tasks && HasResponsible(db.seats, t)
      ensures HasResponsible(after.seats, t)
        <==> newOwner != target || t !in Carried(db, target) || exists u :: u != target && Holds(db.seats, t, u)
    {
      ResponsibleAfter(db, target, newOwner, actor, t);
    }
    if newOwner != target {
      CarriedAfter(db, target, newOwner, actor);
      assert Carried(after, target) == Carried(HandOver(db, target, newOwner, actor), target);
    } else {
      SelfHandover(db, target, actor);
    }
  }

  /** User 2 reports one open task and is named as the new owner: the task stays with the inactive user, and its version rises
      although its reporter is the same. */
  lemma SelfHandoverKeepsTask()
    ensures var user := User(1, false, true, 1);
      var db := Db(map[7 := Task(New, 2, 1)], map[], map[], map[2 := user, 3 := user], map[]);
      var after := DeactivateTx(db, 2, Some(2), 3).value;
      && Decide(db, 3, 1, 2, Some(2)).None? && DeactivateTx(db, 2, Some(2), 3).Some?
      && !HandedOver(db, after, 2) && after.tasks[7] == Task(New, 2, 2) && !after.users[2].active
  {
    var user := User(1, false, true, 1);
    var db := Db(map[7 := Task(New, 2, 1)], map[], map[], map[2 := user, 3 := user], map[]);
    var after := DeactivateTx(db, 2, Some(2), 3).value;
    assert 7 in Reported(db, 2);
    assert 7 in Reported(after, 2);
  }

  lemma SelfHandover(db: Db, target: UserId, actor: UserId)
    requires target in db.users
    ensures var after := CloseAccount(HandOver(db, target, target, actor), target);
      && Reported(after, target) == Reported(db, target) && Owned(after, target) == Owned(db, target)
      && Carried(after, target) == {}
      && (VersionsFollowReporters(db, after) <==> Reported(db, target) == {})
  {
    var after := CloseAccount(HandOver(db, target, target, actor), target);
    forall t | t in db.tasks ensures t !in Carried(after, target) {
      SeatAfter(db.seats, Carried(db, target), target, target, actor, t, target);
    }
    if t :| t in Reported(db, target) {
      assert after.tasks[t].version == db.tasks[t].version + 1;
    }
  }

  /** Whatever the new owner, nothing that is not the target's changes; somebody else receives all of it. */
  lemma HandoverKeeps(db: Db, target: UserId, newOwner: UserId, actor: UserId)
    requires target in db.users && DeactivateTx(db, target, Some(newOwner), actor).Some?
    ensures var after := DeactivateTx(db, target, Some(newOwner), actor).value;
      && Untouched(db, after, target, newOwner) && Closed(db, after, target)
      && (newOwner != target ==> Received(db, after, target, newOwner))
  {
    HandOverUntouched(db, target, newOwner, actor);
    if newOwner != target {
      CarriedAfter(db, target, newOwner, actor);
      var after := DeactivateTx(db, target, Some(newOwner), actor).value;
      assert Carried(after, newOwner) == Carried(HandOver(db, target, newOwner, actor), newOwner);
    }
  }

  /** Without a new owner the transaction moves nothing. */
  lemma NoOwnerExact(db: Db, target: UserId, actor: UserId)
    requires target in db.users
    ensures HandedOver(db, DeactivateTx(db, target, None, actor).value, target)
      <==> Reported(db, target) == {} && Carried(db, target) == {} && Owned(db, target) == {}
  {
    var after := CloseAccount(db, target);
    assert Reported(after, target) == Reported(db, target) && Carried(after, target) == Carried(db, target);
    assert Owned(after, target) == Owned(db, target);
  }

  /** A deactivation fails exactly when it would hand a task to a user who does not exist. */
  lemma MissingOwnerFails(db: Db, target: UserId, newOwner: Option<UserId>, actor: UserId)
    requires target in db.users
    ensures DeactivateTx(db, target, newOwner, actor).None?
      <==> newOwner.Some? && newOwner.value !in db.users && exists t :: Stuck(db, t, target)
  {
    CountsMean(db, target, 0);
    if t :| Stuck(db, t, target) {
      assert t in Reported(db, target) + Carried(db, target);
    }
    if t :| t in Reported(db, target) + Carried(db, target) {
      assert Stuck(db, t, target);
    }
  }

  /** A committed deactivation that was not asked to hand over to its target leaves the target with nothing, if without a new
      owner the target had nothing when the transaction ran. */
  lemma DeactivationHandsOver(db: Db, target: UserId, newOwner: Option<UserId>, actor: UserId)
    requires target in db.users && DeactivateTx(db, target, newOwner, actor).Some? && newOwner != Some(target)
    requires newOwner.None? ==> Reported(db, target) == {} && Carried(db, target) == {} && Owned(db, target) == {}
    ensures HandedOver(db, DeactivateTx(db, target, newOwner, actor).value, target)
    ensures Closed(db, DeactivateTx(db, target, newOwner, actor).value, target)
  {
    if newOwner.Some? {
      HandoverExact(db, target, newOwner.value, actor);
      HandoverKeeps(db, target, newOwner.value, actor);
    } else {
      NoOwnerExact(db, target, actor);
    }
  }

  // ----- The service -----

  class Directory {
    var tasks: map<TaskId, Task>
    var seats: Seats
    var documents: map<nat, Document>
    var users: map<UserId, User>
    var sessions: map<nat, Session>

    function State(): Db
      reads this
    {
      Db(tasks, seats, documents, users, sessions)
    }

    constructor (db: Db)
      ensures State() == db
    {
      tasks, seats, documents, users, sessions := db.tasks, db.seats, db.documents, db.users, db.sessions;
    }

    /** Passes the responsibility for one task on, if the target is still responsible for it. */
    method PassOne(t: TaskId, target: UserId, newOwner: UserId, actor: UserId) returns (ok: bool)
      modifies `seats
      ensures ok <==> newOwner in users || !Holds(old(seats), t, target)
      ensures ok ==> seats == PassedOn(old(seats), t, target, newOwner, actor)
    {
      if !Holds(seats, t, target) {
        return true;
      }
      if newOwner !in users {
        return false;
      }
      seats := seats[(t, newOwner) := Seat(Responsible, false, Some(actor))];
      seats := seats[(t, target) := seats[(t, target)].(removed := true)];
      ok := true;
    }

    /** Passes the responsibility for the affected tasks on, one task after the other in any order. */
    method PassResponsibility(affected: set<TaskId>, target: UserId, newOwner: UserId, actor: UserId) returns (ok: bool)
      modifies `seats
      ensures ok <==> newOwner in users || HeldAmong(old(seats), affected, target) == {}
      ensures ok ==> seats == WithResponsible(old(seats), HeldAmong(old(seats), affected, target), target, newOwner, actor)
    {
      ghost var before := seats;
      ghost var done: set<TaskId> := {};
      var todo := affected;
      WithResponsibleNone(before, target, newOwner, actor);
      while todo != {}
        invariant todo !! done && todo + done == affected
        invariant seats == WithResponsible(before, HeldAmong(before, done, target), target, newOwner, actor)
        invariant newOwner in users || HeldAmong(before, done, target) == {}
        decreases todo
      {
        var t :| t in todo;
        PassedStep(before, done, target, newOwner, actor, t);
        var passed := PassOne(t, target, newOwner, actor);
        if !passed {
          assert t in HeldAmong(before, affected, target);
          return false;
        }
        todo, done := todo - {t}, done + {t};
      }
      ok := true;
    }

    method Rollback(saved: Db)
      modifies this
      ensures State() == saved
    {
      tasks, seats, documents, users, sessions := saved.tasks, saved.seats, saved.documents, saved.users, saved.sessions;
    }

    /** The part of the transaction that moves tasks and documents. */
    method MoveEverything(target: UserId, newOwner: UserId, actor: UserId) returns (ok: bool)
      modifies this
      ensures ok <==> newOwner in old(users) || Reported(old(State()), target) + Carried(old(State()), target) == {}
      ensures State() == if ok then HandOver(old(State()), target, newOwner, actor) else old(State())
    {
      var saved := State();
      var reported, carried, owned := Reported(saved, target), Carried(saved, target), Owned(saved, target);
      AffectedCarried(saved, target);
      if reported != {} && newOwner !in users {
        return false;
      }
      tasks := WithReporter(tasks, reported, newOwner);
      ok := PassResponsibility(reported + carried, target, newOwner, actor);
      if ok {
        documents := WithOwner(documents, owned, newOwner);
      } else {
        Rollback(saved);
      }
    }

    method RunTransaction(target: UserId, newOwner: Option<UserId>, actor: UserId) returns (ok: bool)
      requires target in users
      modifies this
      ensures match DeactivateTx(old(State()), target, newOwner, actor)
        case None => !ok && State() == old(State())
        case Some(db) => ok && State() == db
    {
      if newOwner.Some? {
        ok := MoveEverything(target, newOwner.value, actor);
        if !ok {
          return;
        }
      }
      var u := users[target];
      users := users[target := User(u.workspaceId, u.admin, false, u.authorizationVersion + 1)];
      sessions := WithRevoked(sessions, target);
      ok := true;
    }

    method Deactivate(actor: UserId, workspaceId: nat, target: UserId, newOwner: Option<UserId>) returns (r: Outcome)
      modifies this
      ensures var decision := Decide(old(State()), actor, workspaceId, target, newOwner);
        if decision.Some? then r == decision.value && State() == old(State())
        else match DeactivateTx(old(State()), target, newOwner, actor)
          case None => r == Failed && State() == old(State())
          case Some(db) => r == Deactivated && State() == db
    {
      if target == actor {
        return Forbidden;
      }
      if target !in users || users[target].workspaceId != workspaceId {
        return NotFound;
      }
      if users[target].admin && users[target].active {
        var admins := ActiveAdmins(State(), workspaceId);
        if |admins| <= 1 {
          return Forbidden;
        }
      }
      var affected := Reported(State(), target) + Carried(State(), target);
      var owned := Owned(State(), target);
      if |affected| + |owned| > 0 && newOwner.None? {
        return Refused(|affected|, |owned|);
      }
      var ok := RunTransaction(target, newOwner, actor);
      r := if ok then Deactivated else Failed;
    }
  }

  /** One more task passed on. */
  lemma PassedStep(before: Seats, done: set<TaskId>, target: UserId, newOwner: UserId, actor: UserId, t: TaskId)
    requires t !in done
    ensures var seats := WithResponsible(before, HeldAmong(before, done, target), target, newOwner, actor);
      && (Holds(seats, t, target) <==> Holds(before, t, target))
      && PassedOn(seats, t, target, newOwner, actor)
         == WithResponsible(before, HeldAmong(before, done + {t}, target), target, newOwner, actor)
      && HeldAmong(before, done + {t}, target) == HeldAmong(before, done, target) + if Holds(before, t, target) then {t} else {}
  {
    var given := HeldAmong(before, done, target);
    SeatAfter(before, given, target, newOwner, actor, t, target);
    if Holds(before, t, target) {
      assert HeldAmong(before, done + {t}, target) == given + {t};
      PassedMore(before, given, target, newOwner, actor, t);
    } else {
      assert HeldAmong(before, done + {t}, target) == given;
    }
  }

  lemma PassedMore(before: Seats, given: set<TaskId>, target: UserId, newOwner: UserId, actor: UserId, t: TaskId)
    requires (forall g | g in given :: Holds(before, g, target)) && t !in given && Holds(before, t, target)
    requires Holds(WithResponsible(before, given, target, newOwner, actor), t, target)
    ensures PassedOn(WithResponsible(before, given, target, newOwner, actor), t, target, newOwner, actor)
      == WithResponsible(before, given + {t}, target, newOwner, actor)
  {
    var seats := WithResponsible(before, given, target, newOwner, actor);
    var two := PassedOn(seats, t, target, newOwner, actor);
    var want := WithResponsible(before, given + {t}, target, newOwner, actor);
    assert two.Keys == want.Keys;
    forall s | s in want ensures two[s] == want[s] {}
    assert two == want;
  }

  lemma WithResponsibleNone(before: Seats, target: UserId, newOwner: UserId, actor: UserId)
    ensures HeldAmong(before, {}, target) == {} && WithResponsible(before, {}, target, newOwner, actor) == before
  {}

  lemma AffectedCarried(db: Db, target: UserId)
    ensures HeldAmong(db.seats, Reported(db, target) + Carried(db, target), target) == Carried(db, target)
  {}
}
