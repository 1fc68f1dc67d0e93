/** Sessions and the authorization version of users. A login or a rotation reads the user first and inserts the session
    later, the guard reads the session first and its user later, and administrators change users in between. */
module Sessions {
  import opened Basics

  type UserId = nat
  type SessionId = nat
  type RequestId = nat
  type Time = nat

  datatype User = User(admin: bool, active: bool, companyId: Option<nat>, version: nat)
  datatype Session = Session(userId: UserId, version: nat, revoked: bool, expiresAt: Time, lastSeenAt: Time)
  datatype Principal = Principal(userId: UserId, version: nat, sessionId: SessionId)

  /** The companies that are active. */
  datatype Tables = Tables(users: map<UserId, User>, companies: set<nat>, sessions: map<SessionId, Session>)

  datatype Verdict = Rejected | TimedOut | Accepted

  predicate CompanyOpen(u: User, companies: set<nat>) {
    u.admin || (u.companyId.Some? && u.companyId.value in companies)
  }

  /** The guard's tests in its order: an idle session is revoked before its version is looked at. */
  function Judge(row: Session, users: map<UserId, User>, companies: set<nat>, idleLimit: nat, now: Time): Verdict {
    if row.revoked || row.expiresAt <= now || row.userId !in users then Rejected
    else
      var u := users[row.userId];
      if !u.active || !CompanyOpen(u, companies) then Rejected
      else if row.lastSeenAt + idleLimit <= now then TimedOut
      else if row.version != u.version then Rejected
      else Accepted
  }

  function Revoked(row: Session): Session {
    Session(row.userId, row.version, true, row.expiresAt, row.lastSeenAt)
  }

  function RevokeOne(sessions: map<SessionId, Session>, id: SessionId): map<SessionId, Session> {
    if id in sessions then sessions[id := Revoked(sessions[id])] else sessions
  }

  function RevokeAll(sessions: map<SessionId, Session>, u: UserId): map<SessionId, Session> {
    map s | s in sessions :: if sessions[s].userId == u then Revoked(sessions[s]) else sessions[s]
  }

  // ----- The machine -----

  /** What a request knows between two of its statements; `at` is the step at which it read the user. */
  datatype InFlight =
    | LoggingIn(userId: UserId, version: nat, at: nat)
    | Checking(sessionId: SessionId, row: Session)
    | Admitted(principal: Principal, at: nat)
    | Rotating(principal: Principal, at: nat)

  datatype Step =
    | AddUser(u: UserId, user: User)
    | ReadUser(rq: RequestId, u: UserId)
    | InsertSession(rq: RequestId, id: SessionId, expiresAt: Time, now: Time)
    | GuardReadsSession(rq: RequestId, id: SessionId)
    | GuardReadsUser(rq: RequestId, idleLimit: nat, now: Time)
    | RotateOut(rq: RequestId)
    | Finish(rq: RequestId)   // the request ends: it was served, or it failed
    | Bump(u: UserId, admin: bool, active: bool, companyId: Option<nat>, revoking: bool)
    | SetCompany(c: nat, active: bool)
    | Revoke(id: SessionId)
    | Touch(id: SessionId, now: Time)

  /** `clock` counts the steps. `learnt` is the step at which the creation of a session read its user, `bumped` the last
      step that bumped a user's version; both are history and no step looks at them. */
  datatype System = System(clock: nat, tables: Tables, learnt: map<SessionId, nat>, bumped: map<UserId, nat>,
                           inFlight: map<RequestId, InFlight>)

  predicate Initial(s: System) {
    s.clock == 0 && s.tables.sessions == map[] && s.learnt == map[] && s.bumped == map[] && s.inFlight == map[]
  }

  function WithSession(s: System, rq: RequestId, id: SessionId, u: UserId, version: nat, at: nat, expiresAt: Time, now: Time): System {
    System(s.clock + 1,
           Tables(s.tables.users, s.tables.companies, s.tables.sessions[id := Session(u, version, false, expiresAt, now)]),
           s.learnt[id := at], s.bumped, s.inFlight - {rq})
  }

  function WithSessions(s: System, sessions: map<SessionId, Session>, inFlight: map<RequestId, InFlight>): System {
    System(s.clock + 1, Tables(s.tables.users, s.tables.companies, sessions), s.learnt, s.bumped, inFlight)
  }

  function Idle(s: System): System {
    WithSessions(s, s.tables.sessions, s.inFlight)
  }

  function GuardStep(s: System, rq: RequestId, id: SessionId, row: Session, idleLimit: nat, now: Time): System {
    match Judge(row, s.tables.users, s.tables.companies, idleLimit, now)
    case Rejected => WithSessions(s, s.tables.sessions, s.inFlight - {rq})
    case TimedOut => WithSessions(s, RevokeOne(s.tables.sessions, id), s.inFlight - {rq})
    case Accepted =>
      WithSessions(s, s.tables.sessions, s.inFlight[rq := Admitted(Principal(row.userId, s.tables.users[row.userId].version, id), s.clock)])
  }

  /** One step. A step that cannot be taken only lets time pass. */
  function Do(s: System, step: Step): System {
    var t := s.tables;
    match step
    case AddUser(u, user) =>
      if u in t.users then Idle(s)
      else System(s.clock + 1, Tables(t.users[u := user], t.companies, t.sessions), s.learnt, s.bumped, s.inFlight)
    case ReadUser(rq, u) =>
      if rq !in s.inFlight && u in t.users && t.users[u].active
      then WithSessions(s, t.sessions, s.inFlight[rq := LoggingIn(u, t.users[u].version, s.clock)])
      else Idle(s)
    case InsertSession(rq, id, expiresAt, now) =>
      if rq !in s.inFlight || id in t.sessions then Idle(s)
      else (match s.inFlight[rq]
            case LoggingIn(u, version, at) => WithSession(s, rq, id, u, version, at, expiresAt, now)
            case Rotating(p, at) => WithSession(s, rq, id, p.userId, p.version, at, expiresAt, now)
            case _ => Idle(s))
    case GuardReadsSession(rq, id) =>
      if rq !in s.inFlight && id in t.sessions then WithSessions(s, t.sessions, s.inFlight[rq := Checking(id, t.sessions[id])])
      else Idle(s)
    case GuardReadsUser(rq, idleLimit, now) =>
      if rq in s.inFlight && s.inFlight[rq].Checking? then GuardStep(s, rq, s.inFlight[rq].sessionId, s.inFlight[rq].row, idleLimit, now)
      else Idle(s)
    case RotateOut(rq) =>
      if rq in s.inFlight && s.inFlight[rq].Admitted?
      then WithSessions(s, RevokeOne(t.sessions, s.inFlight[rq].principal.sessionId),
                        s.inFlight[rq := Rotating(s.inFlight[rq].principal, s.inFlight[rq].at)])
      else Idle(s)
    case Finish(rq) => WithSessions(s, t.sessions, s.inFlight - {rq})
    case Bump(u, admin, active, companyId, revoking) =>
      if u !in t.users then Idle(s)
      else System(s.clock + 1,
                  Tables(t.users[u := User(admin, active, companyId, t.users[u].version + 1)], t.companies,
                         if revoking then RevokeAll(t.sessions, u) else t.sessions),
                  s.learnt, s.bumped[u := s.clock], s.inFlight)
    case SetCompany(c, active) =>
      System(s.clock + 1, Tables(t.users, if active then t.companies + {c} else t.companies - {c}, t.sessions),
             s.learnt, s.bumped, s.inFlight)
    case Revoke(id) => WithSessions(s, RevokeOne(t.sessions, id), s.inFlight)
    case Touch(id, now) =>
      if id in t.sessions
      then WithSessions(s, t.sessions[id := Session(t.sessions[id].userId, t.sessions[id].version, t.sessions[id].revoked,
                                                     t.sessions[id].expiresAt, now)], s.inFlight)
      else Idle(s)
  }

  function After(s: System, steps: seq<Step>): System {
    if steps == [] then s else Do(After(s, steps[..|steps| - 1]), steps[|steps| - 1])
  }

  // ----- The invariant -----

  /** A version that was read from a user is the current one exactly when no bump came after the read. */
  predicate Current(s: System, u: UserId, version: nat, at: nat) {
    && u in s.tables.users && version <= s.tables.users[u].version && at < s.clock
    && (version == s.tables.users[u].version <==> u !in s.bumped || s.bumped[u] < at)
  }

  /** A copy of a session row that some statement read agrees with the row on whose it is and which version it carries. */
  predicate CopyOf(s: System, id: SessionId, row: Session) {
    id in s.tables.sessions && row.userId == s.tables.sessions[id].userId && row.version == s.tables.sessions[id].version
  }

  predicate FlightOk(s: System, f: InFlight) {
    match f
    case LoggingIn(u, version, at) => Current(s, u, version, at)
    case Checking(id, row) => CopyOf(s, id, row)
    case Admitted(p, at) => Current(s, p.userId, p.version, at)
    case Rotating(p, at) => Current(s, p.userId, p.version, at)
  }

  predicate SessionOk(s: System, id: SessionId) {
    id in s.learnt && id in s.tables.sessions && Current(s, s.tables.sessions[id].userId, s.tables.sessions[id].version, s.learnt[id])
  }

  ghost predicate Informed(s: System) {
    && (forall u | u in s.bumped :: s.bumped[u] < s.clock)
    && (forall id | id in s.tables.sessions :: SessionOk(s, id))
    && (forall rq | rq in s.inFlight :: FlightOk(s, s.inFlight[rq]))
  }

  /** Only a bump of the user changes its version, and every bump is recorded. */
  lemma UserAfter(s: System, step: Step, u: UserId)
    requires u in s.tables.users
    ensures var end := Do(s, step);
      && end.clock == s.clock + 1 && u in end.tables.users
      && if step.Bump? && step.u == u
         then end.tables.users[u].version == s.tables.users[u].version + 1 && u in end.bumped && end.bumped[u] == s.clock
         else end.tables.users[u].version == s.tables.users[u].version
              && (u in end.bumped <==> u in s.bumped) && (u in s.bumped ==> end.bumped[u] == s.bumped[u])
  {}

  lemma CurrentKept(s: System, step: Step, u: UserId, version: nat, at: nat)
    requires Informed(s) && Current(s, u, version, at)
    ensures Current(Do(s, step), u, version, at)
  {
    UserAfter(s, step, u);
  }

  lemma CopyKept(s: System, step: Step, id: SessionId, row: Session)
    requires CopyOf(s, id, row)
    ensures CopyOf(Do(s, step), id, row)
  {}

  /** A session after a step is an old one that kept its owner, its version and its history, or carries what the request
      that inserted it had learnt. */
  lemma SessionOrigin(s: System, step: Step, id: SessionId)
    requires id in Do(s, step).tables.sessions && (id in s.tables.sessions ==> id in s.learnt)
    ensures var end := Do(s, step); var row := end.tables.sessions[id];
      id in end.learnt
      && if id in s.tables.sessions
         then end.learnt[id] == s.learnt[id] && row.userId == s.tables.sessions[id].userId && row.version == s.tables.sessions[id].version
         else step.InsertSession? && step.rq in s.inFlight &&
              match s.inFlight[step.rq]
              case LoggingIn(u, version, at) => row.userId == u && row.version == version && end.learnt[id] == at
              case Rotating(p, at) => row.userId == p.userId && row.version == p.version && end.learnt[id] == at
              case _ => false
  {}

  lemma SessionKept(s: System, step: Step, id: SessionId)
    requires Informed(s) && id in Do(s, step).tables.sessions
    ensures SessionOk(Do(s, step), id)
  {
    if id in s.tables.sessions {
      assert SessionOk(s, id);
      SessionOrigin(s, step, id);
      CurrentKept(s, step, s.tables.sessions[id].userId, s.tables.sessions[id].version, s.learnt[id]);
    } else {
      SessionOrigin(s, step, id);
      assert FlightOk(s, s.inFlight[step.rq]);
      match s.inFlight[step.rq]
      case LoggingIn(u, version, at) => CurrentKept(s, step, u, version, at);
      case Rotating(p, at) => CurrentKept(s, step, p.userId, p.version, at);
      case _ =>
    }
  }

  /** A step leaves what a request knows alone, or is one of the steps that learn something. */
  lemma FlightOrigin(s: System, step: Step, rq: RequestId)
    requires rq in Do(s, step).inFlight && !(rq in s.inFlight && s.inFlight[rq] == Do(s, step).inFlight[rq])
    ensures match Do(s, step).inFlight[rq]
      case LoggingIn(u, version, at) => u in s.tables.users && version == s.tables.users[u].version && at == s.clock && step == ReadUser(rq, u)
      case Checking(id, row) => id in s.tables.sessions && row == s.tables.sessions[id]
      case Admitted(p, at) =>
        && step.GuardReadsUser? && step.rq == rq && rq in s.inFlight && s.inFlight[rq].Checking?
        && p.userId == s.inFlight[rq].row.userId && p.userId in s.tables.users
        && p.version == s.tables.users[p.userId].version && at == s.clock
      case Rotating(p, at) => rq in s.inFlight && s.inFlight[rq] == Admitted(p, at)
  {}

  lemma CurrentNow(s: System, step: Step, u: UserId)
    requires Informed(s) && u in s.tables.users && !step.Bump?
    ensures Current(Do(s, step), u, s.tables.users[u].version, s.clock)
  {
    UserAfter(s, step, u);
  }

  lemma FlightKept(s: System, step: Step, rq: RequestId)
    requires Informed(s) && rq in Do(s, step).inFlight
    ensures FlightOk(Do(s, step), Do(s, step).inFlight[rq])
  {
    var f := Do(s, step).inFlight[rq];
    if rq in s.inFlight && s.inFlight[rq] == f {
      OldFlightKept(s, step, f);
    } else {
      FlightOrigin(s, step, rq);
      match f
      case LoggingIn(u, version, at) => CurrentNow(s, step, u);
      case Checking(id, row) => CopyKept(s, step, id, row);
      case Admitted(p, at) => CurrentNow(s, step, p.userId);
      case Rotating(p, at) => OldFlightKept(s, step, Admitted(p, at));
    }
  }

  lemma OldFlightKept(s: System, step: Step, f: InFlight)
    requires Informed(s) && FlightOk(s, f)
    ensures FlightOk(Do(s, step), f)
  {
    match f
    case LoggingIn(u, version, at) => CurrentKept(s, step, u, version, at);
    case Checking(id, row) => CopyKept(s, step, id, row);
    case Admitted(p, at) => CurrentKept(s, step, p.userId, p.version, at);
    case Rotating(p, at) => CurrentKept(s, step, p.userId, p.version, at);
  }

  lemma StepInformed(s: System, step: Step)
    requires Informed(s)
    ensures Informed(Do(s, step))
  {
    forall id | id in Do(s, step).tables.sessions ensures SessionOk(Do(s, step), id) {
      SessionKept(s, step, id);
    }
    forall rq | rq in Do(s, step).inFlight ensures FlightOk(Do(s, step), Do(s, step).inFlight[rq]) {
      FlightKept(s, step, rq);
    }
  }

  lemma Ticks(s: System, step: Step)
    ensures Do(s, step).clock == s.clock + 1
  {}

  lemma AfterStep(s: System, steps: seq<Step>, step: Step)
    ensures After(s, steps + [step]) == Do(After(s, steps), step)
  {
    assert (steps + [step])[..|steps|] == steps;
  }

  lemma {:induction false} RunInformed(s: System, steps: seq<Step>)
    requires Initial(s)
    ensures Informed(After(s, steps)) && After(s, steps).clock == |steps|
  {
    if steps != [] {
      var init, last := steps[..|steps| - 1], steps[|steps| - 1];
      RunInformed(s, init);
      StepInformed(After(s, init), last);
      Ticks(After(s, init), last);
      assert steps == init + [last];
      AfterStep(s, init, last);
    }
  }

  // ----- The history is what it says -----

  /** The step read the user: a login did, or the guard whose request then rotated its session. */
  predicate Reads(s: System, step: Step, u: UserId) {
    || (step.ReadUser? && step.u == u)
    || (step.GuardReadsUser? && step.rq in s.inFlight && s.inFlight[step.rq].Checking? && s.inFlight[step.rq].row.userId == u)
  }

  predicate ReadAt(s: System, steps: seq<Step>, u: UserId, at: nat) {
    at < |steps| && Reads(After(s, steps[..at]), steps[at], u)
  }

  ghost predicate Remembers(s: System, steps: seq<Step>) {
    var end := After(s, steps);
    && (forall id | id in end.tables.sessions :: id in end.learnt && ReadAt(s, steps, end.tables.sessions[id].userId, end.learnt[id]))
    && (forall rq | rq in end.inFlight :: FlightRemembers(s, steps, end.inFlight[rq]))
  }

  predicate FlightRemembers(s: System, steps: seq<Step>, f: InFlight) {
    match f
    case LoggingIn(u, version, at) => ReadAt(s, steps, u, at)
    case Checking(id, row) => true
    case Admitted(p, at) => ReadAt(s, steps, p.userId, at)
    case Rotating(p, at) => ReadAt(s, steps, p.userId, at)
  }

  lemma ReadAtGrows(s: System, steps: seq<Step>, step: Step, u: UserId, at: nat)
    requires ReadAt(s, steps, u, at)
    ensures ReadAt(s, steps + [step], u, at)
  {
    assert (steps + [step])[..at] == steps[..at];
  }

  lemma FlightGrows(s: System, steps: seq<Step>, step: Step, f: InFlight)
    requires FlightRemembers(s, steps, f)
    ensures FlightRemembers(s, steps + [step], f)
  {
    match f
    case LoggingIn(u, version, at) => ReadAtGrows(s, steps, step, u, at);
    case Checking(id, row) =>
    case Admitted(p, at) => ReadAtGrows(s, steps, step, p.userId, at);
    case Rotating(p, at) => ReadAtGrows(s, steps, step, p.userId, at);
  }

  /** A flight after a step remembers a read of the run that the step ends. */
  lemma FlightStillRemembers(s: System, steps: seq<Step>, step: Step, rq: RequestId)
    requires Initial(s) && Remembers(s, steps) && rq in Do(After(s, steps), step).inFlight
    ensures FlightRemembers(s, steps + [step], Do(After(s, steps), step).inFlight[rq])
  {
    var before := After(s, steps);
    var f := Do(before, step).inFlight[rq];
    if rq in before.inFlight && before.inFlight[rq] == f {
      FlightGrows(s, steps, step, f);
    } else {
      FlightOrigin(before, step, rq);
      RunInformed(s, steps);
      assert (steps + [step])[..|steps|] == steps;
      if f.Rotating? {
        FlightGrows(s, steps, step, Admitted(f.principal, f.at));
      }
    }
  }

  lemma SessionStillRemembers(s: System, steps: seq<Step>, step: Step, id: SessionId)
    requires Initial(s) && Remembers(s, steps) && id in Do(After(s, steps), step).tables.sessions
    ensures var end := Do(After(s, steps), step);
      id in end.learnt && ReadAt(s, steps + [step], end.tables.sessions[id].userId, end.learnt[id])
  {
    var before := After(s, steps);
    var end := Do(before, step);
    RunInformed(s, steps);
    assert id in before.tables.sessions ==> SessionOk(before, id);
    SessionOrigin(before, step, id);
    if id !in before.tables.sessions {
      assert FlightRemembers(s, steps, before.inFlight[step.rq]);
    }
    ReadAtGrows(s, steps, step, end.tables.sessions[id].userId, end.learnt[id]);
  }

  /** What the history records for a session is a step at which its owner was read. */
  lemma {:induction false} HistoryTrue(s: System, steps: seq<Step>)
    requires Initial(s)
    ensures Remembers(s, steps)
  {
    if steps != [] {
      var init, last := steps[..|steps| - 1], steps[|steps| - 1];
      HistoryTrue(s, init);
      assert steps == init + [last];
      AfterStep(s, init, last);
      var end := After(s, steps);
      forall id | id in end.tables.sessions
        ensures id in end.learnt && ReadAt(s, steps, end.tables.sessions[id].userId, end.learnt[id])
      {
        SessionStillRemembers(s, init, last, id);
      }
      forall rq | rq in end.inFlight ensures FlightRemembers(s, steps, end.inFlight[rq]) {
        FlightStillRemembers(s, init, last, rq);
      }
    }
  }

  // ----- What the version check gives -----

  /** The tests of the guard that do not look at the version. */
  predicate Usable(row: Session, u: User, companies: set<nat>, idleLimit: nat, now: Time) {
    !row.revoked && now < row.expiresAt && u.active && CompanyOpen(u, companies) && now < row.lastSeenAt + idleLimit
  }

  /** In every run the guard accepts a session exactly when it is usable and no bump came after its creation read the user. */
  lemma GuardExact(s: System, steps: seq<Step>, rq: RequestId, idleLimit: nat, now: Time)
    requires Initial(s) && rq in After(s, steps).inFlight && After(s, steps).inFlight[rq].Checking?
    ensures var end := After(s, steps);
      var id, row := end.inFlight[rq].sessionId, end.inFlight[rq].row;
      && id in end.learnt && row.userId in end.tables.users
      && (Judge(row, end.tables.users, end.tables.companies, idleLimit, now) == Accepted
          <==> Usable(row, end.tables.users[row.userId], end.tables.companies, idleLimit, now)
               && (row.userId !in end.bumped || end.bumped[row.userId] < end.learnt[id]))
  {
    RunInformed(s, steps);
    var end := After(s, steps);
    assert FlightOk(end, end.inFlight[rq]);
    assert SessionOk(end, end.inFlight[rq].sessionId);
  }

  lemma BumpKept(s: System, step: Step, u: UserId, k: nat)
    requires Informed(s) && k <= s.clock && u in s.bumped && k <= s.bumped[u]
    ensures u in Do(s, step).bumped && k <= Do(s, step).bumped[u]
  {}

  /** A bump stays on record, or a later one is. */
  lemma {:induction false} BumpRecorded(s: System, steps: seq<Step>, k: nat)
    requires Initial(s) && k < |steps| && steps[k].Bump? && steps[k].u in After(s, steps[..k]).tables.users
    ensures steps[k].u in After(s, steps).bumped && k <= After(s, steps).bumped[steps[k].u]
  {
    var init, last := steps[..|steps| - 1], steps[|steps| - 1];
    RunInformed(s, init);
    assert steps == init + [last];
    AfterStep(s, init, last);
    if k < |init| {
      assert init[..k] == steps[..k];
      BumpRecorded(s, init, k);
      BumpKept(After(s, init), last, steps[k].u, k);
    } else {
      assert init == steps[..k];
      UserAfter(After(s, init), last, last.u);
    }
  }

  /** Once a user's version was bumped, the guard accepts no session whose creation read the user before the bump,
      however late its row was inserted and whatever happened since. */
  lemma StaleNeverAccepted(s: System, steps: seq<Step>, k: nat, rq: RequestId, idleLimit: nat, now: Time)
    requires Initial(s) && k < |steps| && steps[k].Bump? && steps[k].u in After(s, steps[..k]).tables.users
    requires rq in After(s, steps).inFlight && After(s, steps).inFlight[rq].Checking?
    requires After(s, steps).inFlight[rq].row.userId == steps[k].u
    requires After(s, steps).inFlight[rq].sessionId in After(s, steps).learnt
    requires After(s, steps).learnt[After(s, steps).inFlight[rq].sessionId] <= k
    ensures Judge(After(s, steps).inFlight[rq].row, After(s, steps).tables.users, After(s, steps).tables.companies, idleLimit, now) != Accepted
  {
    BumpRecorded(s, steps, k);
    GuardExact(s, steps, rq, idleLimit, now);
  }

  /** The mass revocation alone does not do it: a login that read the user before the bump inserts its row after
      the revocation, and the row is not revoked. */
  lemma RevocationMissesLateRow() returns (s: System, steps: seq<Step>, id: SessionId)
    ensures Initial(s) && |steps| == 4 && steps[2].Bump? && steps[2].revoking
    ensures id in After(s, steps).tables.sessions && !After(s, steps).tables.sessions[id].revoked
    ensures id in After(s, steps).learnt && After(s, steps).learnt[id] < 2
  {
    var user := User(true, true, None, 1);
    s := System(0, Tables(map[], {}, map[]), map[], map[], map[]);
    id := 7;
    var one := [AddUser(1, user)];
    var two := one + [ReadUser(0, 1)];
    var three := two + [Bump(1, true, false, None, true)];
    steps := three + [InsertSession(0, id, 100, 0)];
    assert After(s, []) == s;
    AfterStep(s, [], one[0]);
    assert [] + [one[0]] == one;
    AfterStep(s, one, two[1]);
    AfterStep(s, two, three[2]);
    AfterStep(s, three, steps[3]);
  }

  // ----- The service -----

  class SessionStore {
    var users: map<UserId, User>
    var companies: set<nat>
    var sessions: map<SessionId, Session>

    function State(): Tables
      reads this
    {
      Tables(users, companies, sessions)
    }

    constructor ()
      ensures State() == Tables(map[], {}, map[])
    {
      users, companies, sessions := map[], {}, map[];
    }

    /** The acceptance decision of the guard for the session that belongs to the presented token, if there is one. */
    method CanActivate(id: Option<SessionId>, idleLimit: nat, now: Time) returns (r: Option<Principal>)
      modifies `sessions
      ensures r.Some? <==> id.Some? && id.value in old(sessions) && Judge(old(sessions)[id.value], users, companies, idleLimit, now) == Accepted
      ensures r.Some? ==> r.value == Principal(old(sessions)[id.value].userId, users[old(sessions)[id.value].userId].version, id.value)
      ensures sessions ==
        if id.Some? && id.value in old(sessions) && Judge(old(sessions)[id.value], users, companies, idleLimit, now) == TimedOut
        then RevokeOne(old(sessions), id.value) else old(sessions)
    {
      if id.None? || id.value !in sessions {
        return None;
      }
      var row := sessions[id.value];
      if row.revoked || row.expiresAt <= now || row.userId !in users {
        return None;
      }
      var user := users[row.userId];
      if !user.active {
        return None;
      }
      if !user.admin && (user.companyId.None? || user.companyId.value !in companies) {
        return None;
      }
      if row.lastSeenAt + idleLimit <= now {
        sessions := sessions[id.value := Revoked(row)];
        return None;
      }
      if row.version != user.version {
        return None;
      }
      r := Some(Principal(row.userId, user.version, id.value));
    }

    method CreateSession(id: SessionId, u: UserId, version: nat, expiresAt: Time, now: Time) returns (ok: bool)
      modifies `sessions
      ensures ok <==> id !in old(sessions)
      ensures sessions == if ok then old(sessions)[id := Session(u, version, false, expiresAt, now)] else old(sessions)
    {
      ok := id !in sessions;
      if ok {
        sessions := sessions[id := Session(u, version, false, expiresAt, now)];
      }
    }

    /** The old session is revoked first and stays revoked when the insert fails. The new one carries the version that the
        guard read for the principal, which need not be the current one. */
    method RotateSession(p: Principal, id: SessionId, expiresAt: Time, now: Time) returns (ok: bool)
      modifies `sessions
      ensures ok <==> id !in old(sessions)
      ensures sessions == var rest := RevokeOne(old(sessions), p.sessionId);
        if ok then rest[id := Session(p.userId, p.version, false, expiresAt, now)] else rest
    {
      if p.sessionId in sessions && !sessions[p.sessionId].revoked {
        sessions := sessions[p.sessionId := Revoked(sessions[p.sessionId])];
      }
      assert sessions == RevokeOne(old(sessions), p.sessionId);
      ok := CreateSession(id, p.userId, p.version, expiresAt, now);
    }

    /** An administrator's change of a user: the version always rises, the sessions go with a deactivation or a reset. */
    method ChangeUser(u: UserId, admin: bool, active: bool, companyId: Option<nat>, revoking: bool) returns (ok: bool)
      modifies this
      ensures ok <==> u in old(users)
      ensures companies == old(companies)
      ensures !ok ==> State() == old(State())
      ensures ok ==> users == old(users)[u := User(admin, active, companyId, old(users)[u].version + 1)]
      ensures ok ==> sessions == if revoking then RevokeAll(old(sessions), u) else old(sessions)
    {
      ok := u in users;
      if ok {
        users := users[u := User(admin, active, companyId, users[u].version + 1)];
        if revoking {
          sessions := RevokeAll(sessions, u);
        }
      }
    }
  }
}
