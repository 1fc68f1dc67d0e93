/** Calls that take administrators away, as a state machine: the count of administrators and the transaction are separate
    steps, and the steps of all calls interleave. */
module DeactivationRuns {
  import opened Basics
  import opened Deactivation

  /** `Update` sets the account type and the active flag of a user; `Offboard` completes the offboarding of an employee. */
  datatype Request =
    | Deactivate(actor: UserId, workspaceId: nat, target: UserId, newOwner: Option<UserId>)
    | Update(workspaceId: nat, target: UserId, admin: bool, active: bool)
    | Offboard(workspaceId: nat, target: UserId)

  datatype Phase =
    | Asked
    | Found(guarded: bool)   // the target was read; `guarded` when administrators must be counted
    | Counted                // the count of administrators passed
    | Tallied(tasks: nat)    // the open tasks of the target were counted
    | Cleared                // nothing speaks against the transaction
    | Ended(done: bool)

  datatype Call = Call(request: Request, phase: Phase)

  datatype System = System(db: Db, calls: map<nat, Call>)

  /** A fault refuses the input of a call or fails its transaction; `Change` is everything else the application does. */
  datatype Step = Ask(call: nat, request: Request) | Advance(call: nat, fault: bool) | Change(db: Db)

  datatype Move = Move(db: Db, phase: Phase)

  predicate Removing(r: Request) {
    r.Update? ==> !(r.admin && r.active)
  }

  function UpdateTx(db: Db, r: Request): Db
    requires r.Update? && r.target in db.users
  {
    var u := db.users[r.target];
    Db(db.tasks, db.seats, db.documents,
       db.users[r.target := User(u.workspaceId, r.admin, r.active, u.authorizationVersion + 1)],
       if r.active then db.sessions else WithRevoked(db.sessions, r.target))
  }

  predicate Known(db: Db, r: Request) {
    r.target in db.users && db.users[r.target].workspaceId == r.workspaceId
  }

  /** Completing an offboarding goes to its transaction without counting administrators. */
  function Find(db: Db, r: Request): Phase {
    if (r.Deactivate? && r.target == r.actor) || !Known(db, r) then Ended(false)
    else if r.Offboard? then Cleared
    else Found(Removing(r) && db.users[r.target].admin && db.users[r.target].active)
  }

  function Count(db: Db, r: Request, guarded: bool): Phase {
    if guarded && |ActiveAdmins(db, r.workspaceId)| <= 1 then Ended(false)
    else if r.Deactivate? then Counted
    else Cleared
  }

  function Tally(db: Db, r: Request): nat {
    |Reported(db, r.target) + Carried(db, r.target)|
  }

  function Weigh(db: Db, r: Request, tasks: nat): Phase {
    if r.Deactivate? && r.newOwner.None? && tasks + |Owned(db, r.target)| > 0 then Ended(false) else Cleared
  }

  function Commit(db: Db, r: Request): Option<Db>
    requires r.target in db.users
  {
    match r
    case Deactivate(actor, _, target, newOwner) => DeactivateTx(db, target, newOwner, actor)
    case Update(_, _, _, _) => Some(UpdateTx(db, r))
    case Offboard(_, target) => Some(CloseAccount(db, target))
  }

  function Progress(db: Db, c: Call, fault: bool): Move {
    match c.phase
    case Asked => Move(db, if fault then Ended(false) else Find(db, c.request))
    case Found(guarded) => Move(db, Count(db, c.request, guarded))
    case Counted => Move(db, Tallied(Tally(db, c.request)))
    case Tallied(tasks) => Move(db, Weigh(db, c.request, tasks))
    case Cleared =>
      if fault || c.request.target !in db.users || Commit(db, c.request).None? then Move(db, Ended(false))
      else Move(Commit(db, c.request).value, Ended(true))
    case Ended(_) => Move(db, c.phase)
  }

  /** Other operations keep the users in their workspaces and take no administrator away. */
  ghost predicate Harmless(a: Db, b: Db) {
    && (forall u | u in a.users :: u in b.users && b.users[u].workspaceId == a.users[u].workspaceId)
    && forall w :: ActiveAdmins(a, w) <= ActiveAdmins(b, w)
  }

  ghost function Do(s: System, step: Step): System {
    match step
    case Ask(c, r) => if c in s.calls then s else System(s.db, s.calls[c := Call(r, Asked)])
    case Advance(c, fault) =>
      if c !in s.calls then s
      else
        var move := Progress(s.db, s.calls[c], fault);
        System(move.db, s.calls[c := Call(s.calls[c].request, move.phase)])
    case Change(db) => if Harmless(s.db, db) then System(db, s.calls) else s
  }

  ghost function Run(s: System, steps: seq<Step>): System
    decreases |steps|
  {
    if steps == [] then s else Run(Do(s, steps[0]), steps[1..])
  }

  /** The call passed what the service checks about administrators, and may still take its target away. */
  predicate Underway(c: Call, w: nat) {
    && c.request.workspaceId == w && !c.request.Offboard? && Removing(c.request)
    && (c.phase == Found(false) || c.phase.Counted? || c.phase.Tallied? || c.phase.Cleared?)
  }

  /** The active administrators that the calls under way may take away. */
  function Targets(s: System, w: nat): set<UserId> {
    set c | c in s.calls && Underway(s.calls[c], w) && s.calls[c].request.target in ActiveAdmins(s.db, w) :: s.calls[c].request.target
  }

  /** The step commits the offboarding of an active administrator. */
  predicate Unguarded(s: System, step: Step) {
    && step.Advance? && step.call in s.calls
    && var c := s.calls[step.call];
       c.request.Offboard? && c.phase.Cleared? && c.request.target in ActiveAdmins(s.db, c.request.workspaceId)
  }

  /** In every state of the run the calls under way concern at most `n` active administrators of any one workspace;
      only if `offboarding` is set, offboardings may meet active administrators. */
  ghost predicate RunWithin(n: nat, offboarding: bool, s: System, steps: seq<Step>)
    decreases |steps|
  {
    && (forall w :: |Targets(s, w)| <= n)
    && (steps != [] ==> (Unguarded(s, steps[0]) ==> offboarding) && RunWithin(n, offboarding, Do(s, steps[0]), steps[1..]))
  }

  /** No such run, from any database, leaves a workspace that had an active administrator without one. */
  ghost predicate AdminsSafe(n: nat, offboarding: bool) {
    forall db, steps, w | RunWithin(n, offboarding, System(db, map[]), steps) && ActiveAdmins(db, w) != {} ::
      ActiveAdmins(Run(System(db, map[]), steps).db, w) != {}
  }

  /** An update sets the type and the flag that were asked for, raises the version, and revokes all sessions of the user if it makes
      the account inactive; nothing else changes. */
  lemma UpdateCloses(db: Db, r: Request)
    requires r.Update? && r.target in db.users
    ensures var after, u := UpdateTx(db, r), db.users[r.target];
      && after.users == db.users[r.target := User(u.workspaceId, r.admin, r.active, u.authorizationVersion + 1)]
      && after.tasks == db.tasks && after.seats == db.seats && after.documents == db.documents
      && after.sessions.Keys == db.sessions.Keys
      && forall s | s in db.sessions ::
           && after.sessions[s].userId == db.sessions[s].userId
           && (after.sessions[s].revoked <==> db.sessions[s].revoked || (!r.active && db.sessions[s].userId == r.target))
  {}

  /** Without other steps in between, the checks are those of the serial service. */
  lemma SerialDecides(db: Db, r: Request)
    requires r.Deactivate?
    ensures Decide(db, r.actor, r.workspaceId, r.target, r.newOwner).None? <==>
      Find(db, r).Found? && Count(db, r, Find(db, r).guarded).Counted? && Weigh(db, r, Tally(db, r)).Cleared?
  {}

  // ----- At most one user at a time -----

  /** Without the target of a call under way there is still an administrator. */
  ghost predicate CallOk(db: Db, w: nat, c: Call) {
    && (!c.phase.Asked? && !c.phase.Ended? ==> Known(db, c.request))
    && (Underway(c, w) ==> ActiveAdmins(db, w) - {c.request.target} != {})
  }

  ghost predicate Guarded(w: nat, s: System) {
    ActiveAdmins(s.db, w) != {} && forall c | c in s.calls :: CallOk(s.db, w, s.calls[c])
  }

  /** What a commit does to the administrators of a workspace. */
  lemma CommitAdmins(db: Db, r: Request, w: nat)
    requires Known(db, r) && Commit(db, r).Some?
    ensures var after := Commit(db, r).value;
      && after.users.Keys == db.users.Keys && (forall u | u in db.users :: after.users[u].workspaceId == db.users[u].workspaceId)
      && ActiveAdmins(after, w) == if r.workspaceId != w then ActiveAdmins(db, w)
                                   else if Removing(r) then ActiveAdmins(db, w) - {r.target}
                                   else ActiveAdmins(db, w) + {r.target}
  {
    var after := Commit(db, r).value;
    assert after.users == db.users[r.target := after.users[r.target]];
  }

  lemma SmallerStillSome(admins: set<UserId>, u: UserId)
    requires |admins| > 1
    ensures admins - {u} != {}
  {
    if admins - {u} == {} {
      SubsetSize(admins, {u});
    }
  }

  /** A call that passes a check about administrators leaves another one. */
  lemma CheckedOk(db: Db, w: nat, c: Call, fault: bool)
    requires CallOk(db, w, c) && ActiveAdmins(db, w) != {} && !c.phase.Cleared?
    ensures Progress(db, c, fault).db == db && CallOk(db, w, Call(c.request, Progress(db, c, fault).phase))
  {
    if c.phase == Found(true) && |ActiveAdmins(db, w)| > 1 {
      SmallerStillSome(ActiveAdmins(db, w), c.request.target);
    }
    if c.phase.Asked? && c.request.target !in ActiveAdmins(db, w) {
      assert ActiveAdmins(db, w) - {c.request.target} == ActiveAdmins(db, w);
    }
  }

  lemma SameTarget(s: System, w: nat, c: nat, d: nat)
    requires |Targets(s, w)| <= 1 && c in s.calls && d in s.calls && Underway(s.calls[c], w) && Underway(s.calls[d], w)
    requires s.calls[c].request.target in ActiveAdmins(s.db, w) && s.calls[d].request.target in ActiveAdmins(s.db, w)
    ensures s.calls[c].request.target == s.calls[d].request.target
  {
    var pair := {s.calls[c].request.target, s.calls[d].request.target};
    SubsetSize(pair, Targets(s, w));
  }

  /** Taking one administrator away leaves another one beside the target of any other call under way. */
  lemma StillOther(admins: set<UserId>, gone: UserId, target: UserId)
    requires admins - {gone} != {} && (target in admins ==> target == gone)
    ensures admins - {gone} - {target} != {}
  {
    assert admins - {gone} - {target} == admins - {gone};
  }

  /** A commit leaves the other calls as they should be. */
  lemma CommitOk(s: System, w: nat, c: nat)
    requires Guarded(w, s) && |Targets(s, w)| <= 1 && c in s.calls && s.calls[c].phase.Cleared?
    requires Commit(s.db, s.calls[c].request).Some? && !Unguarded(s, Advance(c, false))
    ensures var after := Commit(s.db, s.calls[c].request).value;
      ActiveAdmins(after, w) != {} && forall d | d in s.calls :: CallOk(after, w, s.calls[d])
  {
    var r := s.calls[c].request;
    var admins, after := ActiveAdmins(s.db, w), Commit(s.db, r).value;
    CommitAdmins(s.db, r, w);
    if r.workspaceId == w && Removing(r) && r.target in admins {
      assert CallOk(s.db, w, s.calls[c]) && Underway(s.calls[c], w);
      forall d | d in s.calls ensures CallOk(after, w, s.calls[d]) {
        if Underway(s.calls[d], w) {
          if s.calls[d].request.target in admins {
            SameTarget(s, w, c, d);
          }
          StillOther(admins, r.target, s.calls[d].request.target);
        }
      }
    } else {
      assert admins <= ActiveAdmins(after, w);
      forall d | d in s.calls ensures CallOk(after, w, s.calls[d]) {
        assert CallOk(s.db, w, s.calls[d]);
      }
    }
  }

  lemma AdvanceOk(s: System, w: nat, c: nat, fault: bool)
    requires Guarded(w, s) && |Targets(s, w)| <= 1 && c in s.calls && !Unguarded(s, Advance(c, fault))
    ensures Guarded(w, Do(s, Advance(c, fault)))
  {
    var call := s.calls[c];
    assert CallOk(s.db, w, call);
    if !call.phase.Cleared? {
      CheckedOk(s.db, w, call, fault);
    } else if !fault && Commit(s.db, call.request).Some? {
      CommitOk(s, w, c);
    }
  }

  lemma StepOk(s: System, w: nat, step: Step)
    requires Guarded(w, s) && |Targets(s, w)| <= 1 && !Unguarded(s, step)
    ensures Guarded(w, Do(s, step))
  {
    match step {
      case Advance(c, fault) =>
        if c in s.calls {
          AdvanceOk(s, w, c, fault);
        }
      case Change(db) =>
        if Harmless(s.db, db) {
          forall c | c in s.calls ensures CallOk(db, w, s.calls[c]) {
            assert CallOk(s.db, w, s.calls[c]) && ActiveAdmins(s.db, w) <= ActiveAdmins(db, w);
          }
        }
      case Ask(_, _) =>
    }
  }

  lemma {:induction false} RunOk(n: nat, s: System, w: nat, steps: seq<Step>)
    requires n <= 1 && Guarded(w, s) && RunWithin(n, false, s, steps)
    ensures Guarded(w, Run(s, steps))
    decreases |steps|
  {
    if steps != [] {
      StepOk(s, w, steps[0]);
      RunOk(n, Do(s, steps[0]), w, steps[1..]);
    }
  }

  // ----- Building a run -----

  lemma {:induction false} RunSnoc(s: System, steps: seq<Step>, last: Step)
    ensures Run(s, steps + [last]) == Do(Run(s, steps), last)
    decreases |steps|
  {
    if steps == [] {
      assert [] + [last] == [last] && [last][1..] == [];
      assert Run(Do(s, last), []) == Do(s, last);
    } else {
      assert (steps + [last])[1..] == steps[1..] + [last];
      RunSnoc(Do(s, steps[0]), steps[1..], last);
    }
  }

  lemma {:induction false} WithinSnoc(n: nat, offboarding: bool, s: System, steps: seq<Step>, last: Step)
    requires RunWithin(n, offboarding, s, steps) && (Unguarded(Run(s, steps), last) ==> offboarding)
    requires forall w :: |Targets(Do(Run(s, steps), last), w)| <= n
    ensures RunWithin(n, offboarding, s, steps + [last])
    decreases |steps|
  {
    if steps == [] {
      assert [] + [last] == [last] && [last][1..] == [];
    } else {
      assert (steps + [last])[1..] == steps[1..] + [last];
      assert Run(s, steps) == Run(Do(s, steps[0]), steps[1..]);
      WithinSnoc(n, offboarding, Do(s, steps[0]), steps[1..], last);
    }
  }

  ghost predicate Reached(n: nat, offboarding: bool, db: Db, s: System) {
    exists steps :: RunWithin(n, offboarding, System(db, map[]), steps) && Run(System(db, map[]), steps) == s
  }

  lemma StartReached(n: nat, offboarding: bool, db: Db)
    ensures Reached(n, offboarding, db, System(db, map[]))
  {
    forall w ensures |Targets(System(db, map[]), w)| <= n {
      assert Targets(System(db, map[]), w) == {};
    }
    assert RunWithin(n, offboarding, System(db, map[]), []) && Run(System(db, map[]), []) == System(db, map[]);
  }

  lemma StepReached(n: nat, offboarding: bool, db: Db, s: System, step: Step)
    requires Reached(n, offboarding, db, s) && (Unguarded(s, step) ==> offboarding)
    requires forall w :: |Targets(Do(s, step), w)| <= n
    ensures Reached(n, offboarding, db, Do(s, step))
  {
    var steps :| RunWithin(n, offboarding, System(db, map[]), steps) && Run(System(db, map[]), steps) == s;
    RunSnoc(System(db, map[]), steps, step);
    WithinSnoc(n, offboarding, System(db, map[]), steps, step);
  }

  lemma Lost(n: nat, offboarding: bool, db: Db, s: System, w: nat)
    requires Reached(n, offboarding, db, s) && ActiveAdmins(db, w) != {} && ActiveAdmins(s.db, w) == {}
    ensures !AdminsSafe(n, offboarding)
  {
    var steps :| RunWithin(n, offboarding, System(db, map[]), steps) && Run(System(db, map[]), steps) == s;
  }

  // ----- Two users at a time -----

  const PAIR := Db(map[], map[], map[], map[1 := User(5, true, true, 1), 2 := User(5, true, true, 1)], map[])

  /** The two last administrators deactivate each other. */
  function Against(target: UserId): Request {
    Deactivate(if target == 1 then 2 else 1, 5, target, None)
  }

  lemma PairAdmins()
    ensures ActiveAdmins(PAIR, 5) == {1, 2} && |ActiveAdmins(PAIR, 5)| == 2
    ensures forall u :: Reported(PAIR, u) == {} && Carried(PAIR, u) == {} && Owned(PAIR, u) == {}
  {
    assert ActiveAdmins(PAIR, 5) == {1, 2};
  }

  lemma AgainstPasses(target: UserId)
    requires target == 1 || target == 2
    ensures Progress(PAIR, Call(Against(target), Asked), false) == Move(PAIR, Found(true))
    ensures Progress(PAIR, Call(Against(target), Found(true)), false) == Move(PAIR, Counted)
    ensures Progress(PAIR, Call(Against(target), Counted), false) == Move(PAIR, Tallied(0))
    ensures Progress(PAIR, Call(Against(target), Tallied(0)), false) == Move(PAIR, Cleared)
  {
    PairAdmins();
  }

  ghost predicate Opposed(calls: map<nat, Call>) {
    calls.Keys <= {1, 2} && forall c | c in calls :: calls[c].request == Against(c)
  }

  lemma TwoTargets(s: System)
    requires Opposed(s.calls)
    ensures forall w :: |Targets(s, w)| <= 2
  {
    forall w ensures |Targets(s, w)| <= 2 {
      SubsetSize(Targets(s, w), {1, 2});
    }
  }

  /** One of the calls goes on, and the database stays. */
  lemma PhaseReached(calls: map<nat, Call>, c: nat, phase: Phase, next: Phase)
    requires Opposed(calls) && (c == 1 || c == 2)
    requires Reached(2, false, PAIR, System(PAIR, calls[c := Call(Against(c), phase)]))
    requires Progress(PAIR, Call(Against(c), phase), false) == Move(PAIR, next)
    ensures Reached(2, false, PAIR, System(PAIR, calls[c := Call(Against(c), next)]))
  {
    var s := System(PAIR, calls[c := Call(Against(c), phase)]);
    assert Do(s, Advance(c, false)).calls == calls[c := Call(Against(c), next)];
    TwoTargets(Do(s, Advance(c, false)));
    StepReached(2, false, PAIR, s, Advance(c, false));
  }

  lemma AskReached(calls: map<nat, Call>, c: nat)
    requires Opposed(calls) && (c == 1 || c == 2) && c !in calls && Reached(2, false, PAIR, System(PAIR, calls))
    ensures Reached(2, false, PAIR, System(PAIR, calls[c := Call(Against(c), Asked)]))
  {
    var s := System(PAIR, calls);
    TwoTargets(Do(s, Ask(c, Against(c))));
    StepReached(2, false, PAIR, s, Ask(c, Against(c)));
  }

  /** One more call, up to its transaction. */
  lemma ClearedReached(calls: map<nat, Call>, c: nat)
    requires Opposed(calls) && (c == 1 || c == 2) && c !in calls && Reached(2, false, PAIR, System(PAIR, calls))
    ensures Reached(2, false, PAIR, System(PAIR, calls[c := Call(Against(c), Cleared)]))
  {
    AgainstPasses(c);
    AskReached(calls, c);
    PhaseReached(calls, c, Asked, Found(true));
    PhaseReached(calls, c, Found(true), Counted);
    PhaseReached(calls, c, Counted, Tallied(0));
    PhaseReached(calls, c, Tallied(0), Cleared);
  }

  lemma BothCleared() returns (s: System)
    ensures Reached(2, false, PAIR, s) && s == System(PAIR, map[1 := Call(Against(1), Cleared), 2 := Call(Against(2), Cleared)])
  {
    StartReached(2, false, PAIR);
    ClearedReached(map[], 1);
    ClearedReached(map[1 := Call(Against(1), Cleared)], 2);
    s := System(PAIR, map[1 := Call(Against(1), Cleared), 2 := Call(Against(2), Cleared)]);
  }

  /** Both transactions commit, and nobody is left. */
  lemma NobodyLeft(s: System)
    requires s == System(PAIR, map[1 := Call(Against(1), Cleared), 2 := Call(Against(2), Cleared)])
    ensures var one := Do(s, Advance(1, false)); var two := Do(one, Advance(2, false));
      && one.calls == map[1 := Call(Against(1), Ended(true)), 2 := Call(Against(2), Cleared)]
      && two.calls == map[1 := Call(Against(1), Ended(true)), 2 := Call(Against(2), Ended(true))]
      && ActiveAdmins(two.db, 5) == {}
  {
    var one := Do(s, Advance(1, false));
    assert one.calls == map[1 := Call(Against(1), Ended(true)), 2 := Call(Against(2), Cleared)];
    assert one.db == CloseAccount(PAIR, 1);
    var two := Do(one, Advance(2, false));
    assert two.db == CloseAccount(one.db, 2);
    assert two.calls == one.calls[2 := Call(Against(2), Ended(true))];
  }

  /** Two administrators who deactivate each other both pass the count while there are two. */
  lemma LastAdminsLost()
    ensures !AdminsSafe(2, false)
  {
    var s := BothCleared();
    NobodyLeft(s);
    TwoTargets(Do(s, Advance(1, false)));
    StepReached(2, false, PAIR, s, Advance(1, false));
    s := Do(s, Advance(1, false));
    TwoTargets(Do(s, Advance(2, false)));
    StepReached(2, false, PAIR, s, Advance(2, false));
    PairAdmins();
    Lost(2, false, PAIR, Do(s, Advance(2, false)), 5);
  }

  // ----- An offboarding -----

  const ALONE := Db(map[], map[], map[], map[1 := User(5, true, true, 1)], map[])
  const LEAVING := Offboard(5, 1)

  /** Offboardings are not calls that passed a count. */
  lemma NoTargets(s: System)
    requires forall c | c in s.calls :: s.calls[c].request.Offboard?
    ensures forall w :: |Targets(s, w)| == 0
  {
    forall w ensures |Targets(s, w)| == 0 {
      assert Targets(s, w) == {};
    }
  }

  lemma OffboardReached(db: Db, phase: Phase, db': Db, next: Phase)
    requires Reached(0, true, ALONE, System(db, map[0 := Call(LEAVING, phase)]))
    requires Progress(db, Call(LEAVING, phase), false) == Move(db', next)
    ensures Reached(0, true, ALONE, System(db', map[0 := Call(LEAVING, next)]))
  {
    var end := System(db', map[0 := Call(LEAVING, next)]);
    assert map[0 := Call(LEAVING, phase)][0 := Call(LEAVING, next)] == end.calls;
    NoTargets(end);
    StepReached(0, true, ALONE, System(db, map[0 := Call(LEAVING, phase)]), Advance(0, false));
  }

  /** Completing the offboarding of the only administrator is not refused. */
  lemma OffboardedAdminLost()
    ensures !AdminsSafe(0, true)
  {
    var asked, gone := Do(System(ALONE, map[]), Ask(0, LEAVING)), CloseAccount(ALONE, 1);
    StartReached(0, true, ALONE);
    assert asked == System(ALONE, map[0 := Call(LEAVING, Asked)]);
    NoTargets(asked);
    StepReached(0, true, ALONE, System(ALONE, map[]), Ask(0, LEAVING));
    OffboardReached(ALONE, Asked, ALONE, Cleared);
    OffboardReached(ALONE, Cleared, gone, Ended(true));
    assert 1 in ActiveAdmins(ALONE, 5);
    assert ActiveAdmins(gone, 5) == {};
    Lost(0, true, ALONE, System(gone, map[0 := Call(LEAVING, Ended(true))]), 5);
  }

  // ----- The theorem -----

  lemma {:induction false} WithinMonotone(n: nat, offboarding: bool, wider: nat, wide: bool, s: System, steps: seq<Step>)
    requires n <= wider && (offboarding ==> wide) && RunWithin(n, offboarding, s, steps)
    ensures RunWithin(wider, wide, s, steps)
    decreases |steps|
  {
    forall w ensures |Targets(s, w)| <= wider {
      assert |Targets(s, w)| <= n;
    }
    if steps != [] {
      WithinMonotone(n, offboarding, wider, wide, Do(s, steps[0]), steps[1..]);
    }
  }

  lemma SafeMonotone(n: nat, offboarding: bool, wider: nat, wide: bool)
    requires n <= wider && (offboarding ==> wide) && AdminsSafe(wider, wide)
    ensures AdminsSafe(n, offboarding)
  {
    forall db, steps, w | RunWithin(n, offboarding, System(db, map[]), steps) && ActiveAdmins(db, w) != {}
      ensures ActiveAdmins(Run(System(db, map[]), steps).db, w) != {}
    {
      WithinMonotone(n, offboarding, wider, wide, System(db, map[]), steps);
    }
  }

  /** Every workspace that had an active administrator keeps one, in all interleavings of all runs, if and only if at any time
      the calls of a workspace that passed the count and are not committed yet concern at most one active administrator, and
      no offboarding meets an active administrator. */
  lemma AdminsSafeExact(n: nat, offboarding: bool)
    ensures AdminsSafe(n, offboarding) <==> n <= 1 && !offboarding
  {
    if n <= 1 && !offboarding {
      forall db, steps, w | RunWithin(n, false, System(db, map[]), steps) && ActiveAdmins(db, w) != {}
        ensures ActiveAdmins(Run(System(db, map[]), steps).db, w) != {}
      {
        RunOk(n, System(db, map[]), w, steps);
      }
    } else if AdminsSafe(n, offboarding) {
      if offboarding {
        SafeMonotone(0, true, n, offboarding);
        OffboardedAdminLost();
      } else {
        SafeMonotone(2, false, n, offboarding);
        LastAdminsLost();
      }
    }
  }
}
