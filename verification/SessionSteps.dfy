/** What each step does to the rows of sessions, users and companies, and what the guard answers. */
module SessionSteps {
  import opened Basics
  import opened Sessions

  /** A session that is not revoked or expired, of an active user whose company is open. */
  predicate InForce(row: Session, users: map<UserId, User>, companies: set<nat>, now: Time) {
    && !row.revoked && now < row.expiresAt && row.userId in users && users[row.userId].active
    && (users[row.userId].admin || (users[row.userId].companyId.Some? && users[row.userId].companyId.value in companies))
  }

  /** The guard revokes a session in force that was idle for too long, whatever its version, accepts one that was not and carries the
      current version, and rejects every other. */
  lemma GuardAnswers(row: Session, users: map<UserId, User>, companies: set<nat>, idleLimit: nat, now: Time)
    ensures var idle := row.lastSeenAt + idleLimit <= now;
      Judge(row, users, companies, idleLimit, now) ==
        if !InForce(row, users, companies, now) then Rejected
        else if idle then TimedOut
        else if row.version == users[row.userId].version then Accepted
        else Rejected
  {}

  /** The step is the guard's second read, and finds the session idle. */
  predicate TimesOut(s: System, step: Step, id: SessionId) {
    && step.GuardReadsUser? && step.rq in s.inFlight && s.inFlight[step.rq].Checking? && s.inFlight[step.rq].sessionId == id
    && InForce(s.inFlight[step.rq].row, s.tables.users, s.tables.companies, step.now)
    && s.inFlight[step.rq].row.lastSeenAt + step.idleLimit <= step.now
  }

  /** The step is the old session's end in a rotation. */
  predicate RotatesAway(s: System, step: Step, id: SessionId) {
    && step.RotateOut? && step.rq in s.inFlight && s.inFlight[step.rq].Admitted? && s.inFlight[step.rq].principal.sessionId == id
  }

  /** A session is revoked exactly by a timeout, a rotation, a revocation of its own or a revoking change of its user, and for good;
      it is never prolonged; and its last use is that of the last touch. */
  lemma SessionRowAfter(s: System, step: Step, id: SessionId)
    requires id in s.tables.sessions
    ensures id in Do(s, step).tables.sessions
    ensures var row, next := s.tables.sessions[id], Do(s, step).tables.sessions[id];
      && next.userId == row.userId && next.version == row.version && next.expiresAt == row.expiresAt
      && next.lastSeenAt == (if step.Touch? && step.id == id then step.now else row.lastSeenAt)
      && (next.revoked <==>
           || row.revoked || step == Revoke(id) || TimesOut(s, step, id) || RotatesAway(s, step, id)
           || (step.Bump? && step.revoking && step.u == row.userId && step.u in s.tables.users))
  {
    if step.GuardReadsUser? && step.rq in s.inFlight && s.inFlight[step.rq].Checking? {
      GuardAnswers(s.inFlight[step.rq].row, s.tables.users, s.tables.companies, step.idleLimit, step.now);
    }
  }

  /** The request is a login or a rotation that is about to insert its session. */
  predicate Inserts(s: System, rq: RequestId) {
    rq in s.inFlight && (s.inFlight[rq].LoggingIn? || s.inFlight[rq].Rotating?)
  }

  /** A session appears exactly when a login or a rotation inserts it. It starts unrevoked, as of now, with the user and the version
      that its request had read. */
  lemma NewSession(s: System, step: Step, id: SessionId)
    requires id !in s.tables.sessions
    ensures id in Do(s, step).tables.sessions <==> step.InsertSession? && step.id == id && Inserts(s, step.rq)
    ensures id in Do(s, step).tables.sessions ==>
      var row := Do(s, step).tables.sessions[id];
      && !row.revoked && row.expiresAt == step.expiresAt && row.lastSeenAt == step.now
      && match s.inFlight[step.rq]
         case LoggingIn(u, version, _) => row.userId == u && row.version == version
         case Rotating(p, _) => row.userId == p.userId && row.version == p.version
         case _ => false
  {}

  /** A user changes only as an administrator asked, and each change raises the version by one; a company opens and closes as asked. */
  lemma UserRowAfter(s: System, step: Step, u: UserId, c: nat)
    ensures var now, next := s.tables, Do(s, step).tables;
      && (u in now.users ==>
           && u in next.users
           && next.users[u] == if step.Bump? && step.u == u then User(step.admin, step.active, step.companyId, now.users[u].version + 1)
                               else now.users[u])
      && (u !in now.users && u in next.users ==> step.AddUser? && step.u == u && next.users[u] == step.user)
      && (c in next.companies <==> if step.SetCompany? && step.c == c then step.active else c in now.companies)
  {}

  function Held(s: System, rq: RequestId): Option<InFlight> {
    if rq in s.inFlight then Some(s.inFlight[rq]) else None
  }

  /** What a request knows after any step. A login learns the version of an active user; the guard learns the session's row and then,
      if it accepts, the version of the user; a rotation goes on with the principal it was given; every other answer of the guard, an
      inserted session and the end of the request leave nothing behind. */
  lemma RequestAfter(s: System, step: Step, rq: RequestId)
    ensures var t, held := s.tables, Held(s, rq);
      Held(Do(s, step), rq) ==
        match step
        case ReadUser(q, u) =>
          if q == rq && held.None? && u in t.users && t.users[u].active then Some(LoggingIn(u, t.users[u].version, s.clock)) else held
        case GuardReadsSession(q, id) =>
          if q == rq && held.None? && id in t.sessions then Some(Checking(id, t.sessions[id])) else held
        case GuardReadsUser(q, idleLimit, now) =>
          if q != rq || held.None? || !held.value.Checking? then held
          else
            var row := held.value.row;
            if InForce(row, t.users, t.companies, now) && now < row.lastSeenAt + idleLimit && row.version == t.users[row.userId].version
            then Some(Admitted(Principal(row.userId, row.version, held.value.sessionId), s.clock)) else None
        case RotateOut(q) =>
          if q == rq && held.Some? && held.value.Admitted? then Some(Rotating(held.value.principal, held.value.at)) else held
        case InsertSession(q, id, _, _) => if q == rq && Inserts(s, rq) && id !in t.sessions then None else held
        case Finish(q) => if q == rq then None else held
        case _ => held
  {
    if step.GuardReadsUser? && step.rq in s.inFlight && s.inFlight[step.rq].Checking? {
      GuardAnswers(s.inFlight[step.rq].row, s.tables.users, s.tables.companies, step.idleLimit, step.now);
    }
  }
}
