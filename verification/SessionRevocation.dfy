/** What the mass revocation of a user's sessions reaches, and what it misses. */
module SessionRevocation {
  import opened Sessions

  /** A request that read the user and may still insert a session with what it learnt: a login, a request that may rotate its
      session, or a rotation under way. */
  predicate Carries(f: InFlight, u: UserId) {
    match f
    case LoggingIn(v, _, _) => v == u
    case Admitted(p, _) => p.userId == u
    case Rotating(p, _) => p.userId == u
    case Checking(_, _) => false
  }

  function LearntAt(f: InFlight): nat
    requires !f.Checking?
  {
    f.at
  }

  predicate NoCarrier(s: System, u: UserId) {
    forall rq | rq in s.inFlight :: !Carries(s.inFlight[rq], u)
  }

  /** A session of `u` whose creation read the user in step `k` or before is revoked. */
  predicate StaleRevoked(s: System, u: UserId, k: nat, id: SessionId) {
    id in s.tables.sessions && s.tables.sessions[id].userId == u && id in s.learnt && s.learnt[id] <= k ==> s.tables.sessions[id].revoked
  }

  ghost predicate AllStaleRevoked(s: System, u: UserId, k: nat) {
    forall id :: StaleRevoked(s, u, k, id)
  }

  /** No request carries what it learnt of `u` in step `k` or before. */
  predicate NoOldCarrier(s: System, u: UserId, k: nat) {
    forall rq | rq in s.inFlight && Carries(s.inFlight[rq], u) :: LearntAt(s.inFlight[rq]) > k
  }

  predicate Revoking(s: System, step: Step, u: UserId) {
    step.Bump? && step.u == u && step.revoking && u in s.tables.users
  }

  // ----- A row that is there -----

  lemma RevokedStays(s: System, step: Step, id: SessionId)
    requires id in s.tables.sessions && s.tables.sessions[id].revoked
    ensures id in Do(s, step).tables.sessions && Do(s, step).tables.sessions[id].revoked
  {}

  /** A session that was there at a revoking change of its user is revoked in every later state. */
  lemma {:induction false} PresentRevoked(s: System, steps: seq<Step>, more: seq<Step>, u: UserId, step: Step, id: SessionId)
    requires Revoking(After(s, steps), step, u)
    requires id in After(s, steps).tables.sessions && After(s, steps).tables.sessions[id].userId == u
    ensures var end := After(s, steps + [step] + more); id in end.tables.sessions && end.tables.sessions[id].revoked
    decreases |more|
  {
    AfterStep(s, steps, step);
    if more == [] {
      assert steps + [step] + more == steps + [step];
    } else {
      var init, last := more[..|more| - 1], more[|more| - 1];
      PresentRevoked(s, steps, init, u, step, id);
      assert steps + [step] + more == (steps + [step] + init) + [last];
      AfterStep(s, steps + [step] + init, last);
      RevokedStays(After(s, steps + [step] + init), last, id);
    }
  }

  // ----- Everything -----

  /** A step of a system without old carriers adds none. */
  lemma CarriersStayNew(s: System, step: Step, u: UserId, k: nat)
    requires NoOldCarrier(s, u, k) && k < s.clock
    ensures NoOldCarrier(Do(s, step), u, k)
  {
    forall rq | rq in Do(s, step).inFlight && Carries(Do(s, step).inFlight[rq], u) ensures LearntAt(Do(s, step).inFlight[rq]) > k {
      if !(rq in s.inFlight && s.inFlight[rq] == Do(s, step).inFlight[rq]) {
        FlightOrigin(s, step, rq);
      }
    }
  }

  lemma StaleStaysRevoked(s: System, step: Step, u: UserId, k: nat, id: SessionId)
    requires Informed(s) && NoOldCarrier(s, u, k) && StaleRevoked(s, u, k, id)
    ensures StaleRevoked(Do(s, step), u, k, id)
  {
    if id in Do(s, step).tables.sessions {
      if id in s.tables.sessions {
        assert SessionOk(s, id);
        SessionOrigin(s, step, id);
        if s.tables.sessions[id].revoked {
          RevokedStays(s, step, id);
        }
      } else {
        SessionOrigin(s, step, id);
      }
    }
  }

  lemma {:induction false} RevokedForGood(s: System, steps: seq<Step>, more: seq<Step>, u: UserId, k: nat)
    requires Initial(s) && k < |steps| && NoOldCarrier(After(s, steps), u, k) && AllStaleRevoked(After(s, steps), u, k)
    ensures NoOldCarrier(After(s, steps + more), u, k) && AllStaleRevoked(After(s, steps + more), u, k)
    decreases |more|
  {
    if more == [] {
      assert steps + more == steps;
    } else {
      var init, last := more[..|more| - 1], more[|more| - 1];
      RevokedForGood(s, steps, init, u, k);
      assert steps + more == (steps + init) + [last];
      AfterStep(s, steps + init, last);
      RunInformed(s, steps + init);
      CarriersStayNew(After(s, steps + init), last, u, k);
      forall id ensures StaleRevoked(After(s, steps + more), u, k, id) {
        StaleStaysRevoked(After(s, steps + init), last, u, k, id);
      }
    }
  }

  lemma RevokesPresent(s: System, step: Step, u: UserId, k: nat)
    requires Revoking(s, step, u)
    ensures AllStaleRevoked(Do(s, step), u, k) && Do(s, step).inFlight == s.inFlight
  {}

  // ----- A carrier gets its session past the revocation -----

  /** An identifier that is not in use. */
  lemma {:induction false} Unused(ids: set<nat>) returns (id: nat)
    ensures id !in ids && forall x | x in ids :: x < id
  {
    if ids == {} {
      id := 0;
    } else {
      var x :| x in ids;
      var m := Unused(ids - {x});
      id := if m <= x then x + 1 else m;
      forall y | y in ids ensures y < id {
        assert y == x || y in ids - {x};
      }
    }
  }

  lemma InsertsLate(s: System, rq: RequestId, u: UserId, id: SessionId)
    requires rq in s.inFlight && (s.inFlight[rq].LoggingIn? || s.inFlight[rq].Rotating?) && Carries(s.inFlight[rq], u)
    requires id !in s.tables.sessions
    ensures var end := Do(s, InsertSession(rq, id, 0, 0));
      id in end.tables.sessions && end.tables.sessions[id].userId == u && !end.tables.sessions[id].revoked
      && id in end.learnt && end.learnt[id] == LearntAt(s.inFlight[rq])
  {}

  /** The request is about to insert a session with what it learnt of `u` in step `k` or before. */
  predicate Inserting(s: System, rq: RequestId, u: UserId, k: nat) {
    rq in s.inFlight && (s.inFlight[rq].LoggingIn? || s.inFlight[rq].Rotating?) && Carries(s.inFlight[rq], u) && LearntAt(s.inFlight[rq]) <= k
  }

  lemma RotatesOut(s: System, rq: RequestId, u: UserId, k: nat)
    requires rq in s.inFlight && s.inFlight[rq].Admitted? && Carries(s.inFlight[rq], u) && LearntAt(s.inFlight[rq]) <= k
    ensures Inserting(Do(s, RotateOut(rq)), rq, u, k)
  {}

  lemma InsertingInserts(s: System, steps: seq<Step>, rq: RequestId, u: UserId, k: nat) returns (insert: Step)
    requires Inserting(After(s, steps), rq, u, k)
    ensures !AllStaleRevoked(After(s, steps + [insert]), u, k)
  {
    var id := Unused(After(s, steps).tables.sessions.Keys);
    insert := InsertSession(rq, id, 0, 0);
    InsertsLate(After(s, steps), rq, u, id);
    AfterStep(s, steps, insert);
    assert !StaleRevoked(After(s, steps + [insert]), u, k, id);
  }

  lemma CarrierInserts(s: System, steps: seq<Step>, rq: RequestId, u: UserId, k: nat) returns (more: seq<Step>)
    requires rq in After(s, steps).inFlight && Carries(After(s, steps).inFlight[rq], u) && LearntAt(After(s, steps).inFlight[rq]) <= k
    ensures !AllStaleRevoked(After(s, steps + more), u, k)
  {
    if After(s, steps).inFlight[rq].Admitted? {
      RotatesOut(After(s, steps), rq, u, k);
      AfterStep(s, steps, RotateOut(rq));
      var insert := InsertingInserts(s, steps + [RotateOut(rq)], rq, u, k);
      more := [RotateOut(rq), insert];
      assert steps + more == (steps + [RotateOut(rq)]) + [insert];
    } else {
      var insert := InsertingInserts(s, steps, rq, u, k);
      more := [insert];
    }
  }

  /** A mass revocation catches, for good, every session whose creation read the user up to then, if and only if at that moment
      no request carries a version of the user into a session of its own. */
  lemma RevocationExact(s: System, steps: seq<Step>, step: Step, u: UserId)
    requires Initial(s) && Revoking(After(s, steps), step, u)
    ensures (forall more :: AllStaleRevoked(After(s, steps + [step] + more), u, |steps|)) <==> NoCarrier(After(s, steps), u)
  {
    var before, k := After(s, steps), |steps|;
    AfterStep(s, steps, step);
    RevokesPresent(before, step, u, k);
    RunInformed(s, steps);
    if NoCarrier(before, u) {
      forall more ensures AllStaleRevoked(After(s, steps + [step] + more), u, k) {
        RevokedForGood(s, steps + [step], more, u, k);
      }
    } else {
      var rq :| rq in before.inFlight && Carries(before.inFlight[rq], u);
      assert FlightOk(before, before.inFlight[rq]);
      var more := CarrierInserts(s, steps + [step], rq, u, k);
      assert !AllStaleRevoked(After(s, steps + [step] + more), u, k);
    }
  }
}
