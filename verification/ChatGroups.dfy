/** Threads of working groups: an existing one is found and joined, and when a group has at most one. */
module ChatGroups {
  import opened Basics
  import opened ChatModel
  import opened ChatMachine
  import opened ChatFrames
  import opened ChatSafety
  import opened ChatRuns

  /** Thread `t` was opened for this group of this company. */
  ghost predicate ForGroup(db: Db, t: ThreadId, c: CompanyId, g: GroupId) {
    && t in db.threads && db.threads[t].kind == GroupContext
    && db.threads[t].companyId == c && db.threads[t].groupId == Some(g)
  }

  /** Of all threads of the group, `t` is the first in the order (createdAt, id). */
  ghost predicate FirstFor(db: Db, t: ThreadId, c: CompanyId, g: GroupId) {
    ForGroup(db, t, c, g) && forall u | ForGroup(db, u, c, g) :: NotBefore(db, u, t)
  }

  predicate NotBefore(db: Db, u: ThreadId, t: ThreadId)
    requires u in db.threads && t in db.threads
  {
    db.threads[t].createdAt < db.threads[u].createdAt || (db.threads[t].createdAt == db.threads[u].createdAt && t <= u)
  }

  // ----- A thread that exists is joined -----

  /** What becomes of a call that found thread `t` of the group: it is about to join it, it answered with it, or it failed. */
  ghost predicate Joining(db: Db, call: Call, t: ThreadId) {
    && call.request.OpenGroup? && t in db.threads && db.threads[t].kind == GroupContext
    && match call.phase
       case Opening(view, existing) => existing == Some(t)
       case Done(outcome) => outcome.Failed? || ((outcome.Unchanged? || outcome.Existing?) && outcome.id == t)
       case _ => false
  }

  lemma FindsFirst(db: Db, t: ThreadId, c: CompanyId, g: GroupId)
    requires FirstFor(db, t, c, g)
    ensures FindGroupThread(db.threads, c, g) == Some(t)
  {
    assert IsGroupThread(db.threads[t], c, g);
    var u := FindGroupThread(db.threads, c, g).value;
    assert ForGroup(db, u, c, g) && NotBefore(db, u, t);
  }

  /** The first step of an opening finds the oldest thread that exists. */
  lemma OpeningFinds(db: Db, call: Call, e: Env, view: GroupView, t: ThreadId)
    requires call.request.OpenGroup? && call.phase.Asked? && e.group == Some(view) && FirstFor(db, t, view.companyId, call.request.groupId)
    ensures var move := Progress(db, call, e);
      && move.db == db && Joining(db, Call(call.request, move.phase), t)
      && (move.phase == Done(Failed) <==> view.companyId !in call.request.actor.companies)
      && (move.phase.Done? && move.phase != Done(Failed) ==> Active(db.seats, t, call.request.actor.userId))
  {
    FindsFirst(db, t, view.companyId, call.request.groupId);
  }

  /** Every later step of the call joins that thread and inserts none; when it ends well, the caller takes part. */
  lemma JoiningStep(db: Db, call: Call, e: Env, t: ThreadId)
    requires Linked(db) && Grounded(db, call) && Joining(db, call, t)
    ensures var move := Progress(db, call, e);
      && move.db.threads == db.threads && Joining(move.db, Call(call.request, move.phase), t)
      && (call.phase.Opening? ==> move.phase.Done? && (move.phase == Done(Failed) <==> e.fault))
      && (call.phase.Opening? && !e.fault ==> Active(move.db.seats, t, call.request.actor.userId))
  {}

  lemma JoiningLater(a: Db, b: Db, call: Call, t: ThreadId)
    requires Extends(a, b) && Joining(a, call, t)
    ensures Joining(b, call, t)
  {}

  lemma StepJoining(s: System, step: Step, c: nat, t: ThreadId)
    requires Sound(s) && Fitting(s) && c in s.calls && Joining(s.db, s.calls[c], t)
    ensures c in Apply(s, step).calls && Joining(Apply(s, step).db, Apply(s, step).calls[c], t)
    ensures step.Advance? && step.call == c ==> Apply(s, step).db.threads == s.db.threads
  {
    StepSound(s, step);
    if step.Advance? && step.call == c {
      JoiningStep(s.db, s.calls[c], step.env, t);
    } else {
      JoiningLater(s.db, Apply(s, step).db, s.calls[c], t);
    }
  }

  lemma {:induction false} RunJoining(s: System, more: seq<Step>, c: nat, t: ThreadId)
    requires Sound(s) && Fitting(s) && c in s.calls && Joining(s.db, s.calls[c], t)
    ensures Sound(Run(s, more)) && c in Run(s, more).calls && Joining(Run(s, more).db, Run(s, more).calls[c], t)
    decreases |more|
  {
    if more != [] {
      StepSound(s, more[0]);
      StepJoining(s, more[0], c, t);
      RunJoining(Apply(s, more[0]), more[1..], c, t);
    }
  }

  /** A call that ended well has its caller take part in the thread it answers with. */
  ghost predicate AnswersActive(s: System, c: nat) {
    c in s.calls && (s.calls[c].phase.Done? && Succeeded(s.calls[c].phase.outcome) ==>
      Active(s.db.seats, s.calls[c].phase.outcome.id, s.calls[c].request.actor.userId))
  }

  /** In every run: a call that asks for a group whose thread exists inserts no thread in any step. It answers with the oldest thread of
      this group and company, in which its caller then takes part, and fails only if the company is not the caller's or a
      transaction fails. */
  lemma ExistingIsJoined(steps: seq<Step>, c: nat, e: Env, view: GroupView, t: ThreadId, more: seq<Step>, next: Env)
    requires var s := Run(INITIAL, steps);
      && c in s.calls && s.calls[c].request.OpenGroup? && s.calls[c].phase.Asked? && e.group == Some(view)
      && FirstFor(s.db, t, view.companyId, s.calls[c].request.groupId)
    ensures var s, first := Run(INITIAL, steps), Apply(Run(INITIAL, steps), Advance(c, e));
      var end, after := Run(first, more), Apply(Run(first, more), Advance(c, next));
      && first.db.threads == s.db.threads && after.db.threads == end.db.threads
      && c in end.calls && Joining(end.db, end.calls[c], t)
      && AnswersActive(first, c) && (first.calls[c].phase == Done(Failed) <==> view.companyId !in s.calls[c].request.actor.companies)
      && (end.calls[c].phase.Opening? ==> AnswersActive(after, c) && (after.calls[c].phase == Done(Failed) <==> next.fault))
  {
    var s := Run(INITIAL, steps);
    RunSound(INITIAL, steps);
    OpeningFinds(s.db, s.calls[c], e, view, t);
    StepSound(s, Advance(c, e));
    var first := Apply(s, Advance(c, e));
    RunJoining(first, more, c, t);
    var end := Run(first, more);
    StepJoining(end, Advance(c, next), c, t);
    JoiningStep(end.db, end.calls[c], next, t);
  }

  /** From any state of any run on, openings keep finding the same thread if and only if no thread that was inserted for the group
      since sorts before it: two threads of one group do no harm as long as the clock does not go back. */
  lemma SameThreadExact(steps: seq<Step>, more: seq<Step>, t: ThreadId, c: CompanyId, g: GroupId)
    requires FirstFor(Run(INITIAL, steps).db, t, c, g)
    ensures var db, end := Run(INITIAL, steps).db, Run(Run(INITIAL, steps), more).db;
      FindGroupThread(end.threads, c, g) == Some(t)
      <==> forall u | ForGroup(end, u, c, g) && u !in db.threads :: t in end.threads && NotBefore(end, u, t)
  {
    var s := Run(INITIAL, steps);
    var db, end := s.db, Run(s, more).db;
    RunSound(INITIAL, steps);
    RunSound(s, more);
    assert ForGroup(end, t, c, g);
    forall u | ForGroup(end, u, c, g) && u in db.threads ensures NotBefore(end, u, t) {
      assert ForGroup(db, u, c, g) && NotBefore(db, u, t);
    }
    if forall u | ForGroup(end, u, c, g) && u !in db.threads :: NotBefore(end, u, t) {
      FindsFirst(end, t, c, g);
    } else {
      var u :| ForGroup(end, u, c, g) && u !in db.threads && !NotBefore(end, u, t);
      assert IsGroupThread(end.threads[u], c, g);
    }
  }

  /** Whoever joins gets the role that the working group gives them: its owner leads, everybody else is a member. A row that was
      left keeps its marker and its mute flag. */
  lemma JoinedRow(db: Db, call: Call, e: Env)
    requires call.request.OpenGroup? && call.phase.Opening? && call.phase.existing.Some?
    requires Progress(db, call, e).phase == Done(Existing(call.phase.existing.value))
    ensures var after, x := Progress(db, call, e).db.seats, Seat(call.phase.existing.value, call.request.actor.userId);
      var role := if call.request.actor.userId == call.phase.view.ownerId then Owner else Member;
      after == db.seats[x := if x in db.seats then db.seats[x].(left := false, role := role, version := db.seats[x].version + 1)
                             else Participant(role, false, false, None, 1)]
  {}

  // ----- The rows of a new thread -----

  function GroupThreadRow(view: GroupView, g: GroupId, now: Time): Thread {
    Thread(GroupContext, view.companyId, None, Some(g), 1, None, now)
  }

  predicate FreshRow(row: Participant, role: Role) {
    row == Participant(role, false, false, None, 1)
  }

  /** The thread has exactly one row for each of these users, and `lead` leads if the role says so. */
  predicate ExactRows(seats: Seats, t: ThreadId, users: set<UserId>, lead: UserId, leadRole: Role) {
    && (forall s | s in seats && s.threadId == t :: s.userId in users)
    && forall u | u in users :: Seat(t, u) in seats && FreshRow(seats[Seat(t, u)], if u == lead then leadRole else Member)
  }

  lemma NewRowsExact(db: Db, t: ThreadId, users: set<UserId>, lead: UserId, leadRole: Role)
    requires Linked(db) && t !in db.threads
    ensures ExactRows(db.seats + NewSeats(t, users, lead, leadRole), t, users, lead, leadRole)
    ensures forall s | s in db.seats :: (db.seats + NewSeats(t, users, lead, leadRole))[s] == db.seats[s]
  {
    NewSeatsFrame(db, t, users, lead, leadRole);
    forall u | u in users
      ensures Seat(t, u) in db.seats + NewSeats(t, users, lead, leadRole)
      ensures FreshRow((db.seats + NewSeats(t, users, lead, leadRole))[Seat(t, u)], if u == lead then leadRole else Member)
    {
      assert Seat(t, u) in NewSeats(t, users, lead, leadRole) && Seat(t, u) !in db.seats;
    }
  }

  /** A new thread of a working group has exactly one active row for each member of the group, and its owner leads it. */
  lemma OpenedRows(s: System, c: nat, e: Env)
    requires Sound(s) && c in s.calls && s.calls[c].request.OpenGroup? && s.calls[c].phase.Opening?
    requires Progress(s.db, s.calls[c], e).phase.Done? && Progress(s.db, s.calls[c], e).phase.outcome.Created?
    ensures var view, move := s.calls[c].phase.view, Progress(s.db, s.calls[c], e);
      var t := move.phase.outcome.id;
      && t !in s.db.threads && t in move.db.threads
      && move.db.threads[t] == GroupThreadRow(view, s.calls[c].request.groupId, e.now)
      && ExactRows(move.db.seats, t, view.members, view.ownerId, Owner)
  {
    assert Grounded(s.db, s.calls[c]);
    NewRowsExact(s.db, e.newId, s.calls[c].phase.view.members, s.calls[c].phase.view.ownerId, Owner);
  }

  /** A created conversation has exactly one active row for its creator and each of the others; in a group the creator leads. */
  lemma CreatedRows(s: System, c: nat, e: Env)
    requires Sound(s) && c in s.calls && s.calls[c].request.CreateThread? && s.calls[c].phase.Inserting?
    requires Progress(s.db, s.calls[c], e).phase.Done? && Progress(s.db, s.calls[c], e).phase.outcome.Created?
    ensures var r, move := s.calls[c].request, Progress(s.db, s.calls[c], e);
      var t := move.phase.outcome.id;
      && t !in s.db.threads && t in move.db.threads
      && move.db.threads[t].kind == (if r.direct then Direct else Group) && move.db.threads[t].companyId == r.companyId
      && move.db.threads[t].version == 1 && move.db.threads[t].groupId.None? && move.db.threads[t].lastMessageAt.None?
      && move.db.threads[t].createdAt == e.now
      && ExactRows(move.db.seats, t, r.participantIds + {r.actor.userId}, r.actor.userId, if r.direct then Member else Owner)
  {
    var r := s.calls[c].request;
    assert Grounded(s.db, s.calls[c]);
    assert Others(r) + {r.actor.userId} == r.participantIds + {r.actor.userId};
    NewRowsExact(s.db, e.newId, Others(r) + {r.actor.userId}, r.actor.userId, if r.direct then Member else Owner);
  }

  // ----- At most one thread for a group -----

  ghost predicate OneThread(db: Db) {
    forall t, t', c, g | ForGroup(db, t, c, g) && ForGroup(db, t', c, g) :: t == t'
  }

  /** A call that found no thread for the group and has not inserted one yet. */
  predicate FirstOpening(call: Call, c: CompanyId, g: GroupId) {
    && call.request.OpenGroup? && call.phase.Opening? && call.phase.existing.None?
    && call.phase.view.companyId == c && call.request.groupId == g
  }

  function FirstOpenings(s: System, c: CompanyId, g: GroupId): set<nat> {
    set d | d in s.calls && FirstOpening(s.calls[d], c, g)
  }

  /** In every state of the run at most `n` first openings of any one group are under way. */
  ghost predicate OpeningsWithin(n: nat, s: System, steps: seq<Step>)
    requires Fitting(s)
    decreases |steps|
  {
    && (forall c, g :: |FirstOpenings(s, c, g)| <= n)
    && (steps != [] ==> OpeningsWithin(n, Apply(s, steps[0]), steps[1..]))
  }

  /** No such run ends with two threads for one group. */
  ghost predicate OneThreadWithin(n: nat) {
    forall steps :: OpeningsWithin(n, INITIAL, steps) ==> OneThread(Run(INITIAL, steps).db)
  }

  /** While a first opening is under way there is no thread for its group. */
  ghost predicate StillNone(db: Db, call: Call) {
    forall c, g, t | FirstOpening(call, c, g) :: !ForGroup(db, t, c, g)
  }

  ghost predicate Alone(s: System) {
    Sound(s) && OneThread(s.db) && forall d | d in s.calls :: StillNone(s.db, s.calls[d])
  }

  /** A thread for a group appears only with the insert of a first opening of this group. */
  lemma GroupThreadOrigin(db: Db, call: Call, e: Env, t: ThreadId, c: CompanyId, g: GroupId)
    requires Linked(db) && Grounded(db, call) && ForGroup(Progress(db, call, e).db, t, c, g)
    ensures ForGroup(db, t, c, g) || (FirstOpening(call, c, g) && t == e.newId)
  {
    ProgressExtends(db, call, e);
    if t in db.threads {
      assert db.threads[t].kind == Progress(db, call, e).db.threads[t].kind;
    } else {
      NewThreadOrigin(db, call, e, t);
    }
  }

  lemma NewThreadOrigin(db: Db, call: Call, e: Env, t: ThreadId)
    requires Fits(call.request, call.phase) && t !in db.threads && t in Progress(db, call, e).db.threads
    ensures t == e.newId && (call.phase.Inserting? || (call.phase.Opening? && call.phase.existing.None?))
    ensures call.phase.Inserting? ==> Progress(db, call, e).db.threads[t].kind != GroupContext
    ensures call.phase.Opening? ==> Progress(db, call, e).db.threads[t] == GroupThreadRow(call.phase.view, call.request.groupId, e.now)
  {
    if call.phase.Checked? || call.phase.Cleared? {
      if Commit(db, call.request, call.phase.seen, e).Committed? {
        CommitThreads(db, call.request, call.phase.seen, e);
      }
    }
  }

  lemma CommitThreads(db: Db, r: Request, seen: Db, e: Env)
    requires !r.CreateThread? && !r.OpenGroup? && Commit(db, r, seen, e).Committed?
    ensures Commit(db, r, seen, e).db.threads.Keys == db.threads.Keys
  {}

  lemma BeginsNone(db: Db, call: Call, e: Env)
    requires Fits(call.request, call.phase) && StillNone(db, call)
    ensures var move := Progress(db, call, e);
      forall c, g | FirstOpening(Call(call.request, move.phase), c, g) :: call.phase.Asked? && move.db == db && forall t :: !ForGroup(db, t, c, g)
  {}

  lemma OnlyOneOpening(s: System, d: nat, d': nat, c: CompanyId, g: GroupId)
    requires |FirstOpenings(s, c, g)| <= 1 && d in s.calls && d' in s.calls && FirstOpening(s.calls[d], c, g) && FirstOpening(s.calls[d'], c, g)
    ensures d == d'
  {
    SubsetSize({d, d'}, FirstOpenings(s, c, g));
  }

  lemma AdvanceAlone(s: System, d: nat, e: Env)
    requires Alone(s) && Fitting(s) && d in s.calls && forall c, g :: |FirstOpenings(s, c, g)| <= 1
    ensures Alone(Apply(s, Advance(d, e)))
  {
    var after := Apply(s, Advance(d, e));
    StepSound(s, Advance(d, e));
    assert Grounded(s.db, s.calls[d]) && StillNone(s.db, s.calls[d]);
    forall t, t', c, g | ForGroup(after.db, t, c, g) && ForGroup(after.db, t', c, g) ensures t == t' {
      GroupThreadOrigin(s.db, s.calls[d], e, t, c, g);
      GroupThreadOrigin(s.db, s.calls[d], e, t', c, g);
    }
    forall d' | d' in after.calls ensures StillNone(after.db, after.calls[d']) {
      if d' == d {
        BeginsNone(s.db, s.calls[d], e);
      } else {
        OtherNone(s, d, e, d');
      }
    }
  }

  lemma OtherNone(s: System, d: nat, e: Env, d': nat)
    requires Alone(s) && d in s.calls && d' in s.calls && d != d' && forall c, g :: |FirstOpenings(s, c, g)| <= 1
    ensures StillNone(Progress(s.db, s.calls[d], e).db, s.calls[d'])
  {
    assert Grounded(s.db, s.calls[d]) && StillNone(s.db, s.calls[d']);
    forall c, g, t | FirstOpening(s.calls[d'], c, g) ensures !ForGroup(Progress(s.db, s.calls[d], e).db, t, c, g) {
      if ForGroup(Progress(s.db, s.calls[d], e).db, t, c, g) {
        GroupThreadOrigin(s.db, s.calls[d], e, t, c, g);
        OnlyOneOpening(s, d, d', c, g);
      }
    }
  }

  lemma {:induction false} RunAlone(s: System, steps: seq<Step>)
    requires Alone(s) && Fitting(s) && OpeningsWithin(1, s, steps)
    ensures Alone(Run(s, steps))
    decreases |steps|
  {
    if steps != [] {
      if steps[0].Advance? && steps[0].call in s.calls {
        AdvanceAlone(s, steps[0].call, steps[0].env);
      } else {
        StepSound(s, steps[0]);
      }
      RunAlone(Apply(s, steps[0]), steps[1..]);
    }
  }

  // ----- Two first openings at once -----

  const VIEW := GroupView(7, 1, {1, 2})
  const NOBODY := Env(true, true, {1, 2}, Some(VIEW), 0, 0, false)

  function Opens(u: UserId): Request {
    OpenGroup(Actor(u, false, {7}), 3)
  }

  function Inserts(t: ThreadId): Env {
    Env(true, true, {1, 2}, Some(VIEW), t, 0, false)
  }

  ghost predicate Reached(s: System) {
    Fitting(s) && exists steps :: OpeningsWithin(2, INITIAL, steps) && Run(INITIAL, steps) == s
  }

  lemma {:induction false} OpeningsSnoc(n: nat, s: System, steps: seq<Step>, last: Step)
    requires Fitting(s) && OpeningsWithin(n, s, steps) && forall c, g :: |FirstOpenings(Apply(Run(s, steps), last), c, g)| <= n
    ensures OpeningsWithin(n, s, steps + [last])
    decreases |steps|
  {
    if steps == [] {
      assert [] + [last] == [last] && [last][1..] == [];
      assert Run(s, steps) == s;
      assert OpeningsWithin(n, Apply(s, last), []);
    } else {
      assert (steps + [last])[1..] == steps[1..] + [last];
      assert Run(s, steps) == Run(Apply(s, steps[0]), steps[1..]);
      OpeningsSnoc(n, Apply(s, steps[0]), steps[1..], last);
    }
  }

  lemma FewOpenings(s: System)
    requires s.calls.Keys <= {1, 2}
    ensures forall c, g :: |FirstOpenings(s, c, g)| <= 2
  {
    forall c, g ensures |FirstOpenings(s, c, g)| <= 2 {
      SubsetSize(FirstOpenings(s, c, g), {1, 2});
    }
  }

  lemma StepReached(s: System, step: Step)
    requires Reached(s) && Apply(s, step).calls.Keys <= {1, 2}
    ensures Reached(Apply(s, step))
  {
    var steps :| OpeningsWithin(2, INITIAL, steps) && Run(INITIAL, steps) == s;
    FewOpenings(Apply(s, step));
    OpeningsSnoc(2, INITIAL, steps, step);
    RunSnoc(0, INITIAL, steps, step);
  }

  lemma StartReached()
    ensures Reached(INITIAL)
  {
    FewOpenings(INITIAL);
    assert OpeningsWithin(2, INITIAL, []) && Run(INITIAL, []) == INITIAL;
  }

  lemma FindsNone(u: UserId)
    requires u == 1 || u == 2
    ensures Progress(EMPTY_DB, Call(Opens(u), Asked), NOBODY) == Move(EMPTY_DB, Opening(VIEW, None))
  {}

  /** Users 1 and 2 both asked for the thread of group 3 and found none. */
  lemma BothFoundNone() returns (s: System)
    ensures Reached(s) && s.db == EMPTY_DB && s.calls == map[1 := Call(Opens(1), Opening(VIEW, None)), 2 := Call(Opens(2), Opening(VIEW, None))]
  {
    StartReached();
    StepReached(INITIAL, Ask(1, Opens(1)));
    s := System(EMPTY_DB, map[1 := Call(Opens(1), Asked)]);
    assert Apply(INITIAL, Ask(1, Opens(1))) == s;
    FindsNone(1);
    StepReached(s, Advance(1, NOBODY));
    assert Apply(s, Advance(1, NOBODY)).calls == map[1 := Call(Opens(1), Opening(VIEW, None))];
    s := System(EMPTY_DB, map[1 := Call(Opens(1), Opening(VIEW, None))]);
    StepReached(s, Ask(2, Opens(2)));
    s := Apply(s, Ask(2, Opens(2)));
    FindsNone(2);
    StepReached(s, Advance(2, NOBODY));
    s := Apply(s, Advance(2, NOBODY));
    assert s.calls == map[1 := Call(Opens(1), Opening(VIEW, None)), 2 := Call(Opens(2), Opening(VIEW, None))];
  }

  lemma InsertsThread(db: Db, u: UserId, t: ThreadId)
    requires t !in db.threads
    ensures var move := Progress(db, Call(Opens(u), Opening(VIEW, None)), Inserts(t));
      move.phase == Done(Created(t)) && ForGroup(move.db, t, 7, 3) && move.db.threads == db.threads[t := move.db.threads[t]]
  {}

  /** Both insert, and the group has two threads. */
  lemma TwoThreads()
    ensures !OneThreadWithin(2)
  {
    var s := BothFoundNone();
    InsertsThread(s.db, 1, 20);
    StepReached(s, Advance(1, Inserts(20)));
    s := Apply(s, Advance(1, Inserts(20)));
    InsertsThread(s.db, 2, 21);
    StepReached(s, Advance(2, Inserts(21)));
    s := Apply(s, Advance(2, Inserts(21)));
    assert ForGroup(s.db, 20, 7, 3) && ForGroup(s.db, 21, 7, 3);
    var steps :| OpeningsWithin(2, INITIAL, steps) && Run(INITIAL, steps) == s;
  }

  lemma {:induction false} OpeningsMonotone(n: nat, wider: nat, s: System, steps: seq<Step>)
    requires Fitting(s) && n <= wider && OpeningsWithin(n, s, steps)
    ensures OpeningsWithin(wider, s, steps)
    decreases |steps|
  {
    forall c, g ensures |FirstOpenings(s, c, g)| <= wider {
      assert |FirstOpenings(s, c, g)| <= n;
    }
    if steps != [] {
      OpeningsMonotone(n, wider, Apply(s, steps[0]), steps[1..]);
    }
  }

  /** Without a unique key, a working group has at most one thread, in all interleavings of all runs, if and only if no two calls
      that found none for it are under way at once. */
  lemma OneThreadExact(n: nat)
    ensures OneThreadWithin(n) <==> n <= 1
  {
    if n <= 1 {
      forall steps | OpeningsWithin(n, INITIAL, steps) ensures OneThread(Run(INITIAL, steps).db) {
        OpeningsMonotone(n, 1, INITIAL, steps);
        RunAlone(INITIAL, steps);
      }
    } else if OneThreadWithin(n) {
      forall steps | OpeningsWithin(2, INITIAL, steps) ensures OneThread(Run(INITIAL, steps).db) {
        OpeningsMonotone(2, n, INITIAL, steps);
      }
      TwoThreads();
    }
  }
}
