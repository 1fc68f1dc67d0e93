/** One event for each idempotency key, and one committed update for each version of a row, in every interleaving. */
module OrgRecordsOnce {
  import opened OrgRecords

  predicate Answered(s: System, c: nat, r: Request, id: nat) {
    && c in s.calls && s.calls[c].request == r && s.calls[c].phase.Done?
    && !s.calls[c].phase.outcome.Failed? && s.calls[c].phase.outcome.id == id
  }

  /** Call `c` committed the event of this key. */
  predicate Saved(s: System, c: nat, k: IdemKey, e: EventId) {
    c in s.calls && s.calls[c].request.Save? && KeyOf(s.calls[c].request) == k && s.calls[c].phase == Done(Created(e))
  }

  /** Call `c` committed an update of the row at this version. */
  predicate Changed(s: System, c: nat, e: EventId, v: nat) {
    && c in s.calls && s.calls[c].request.Update? && s.calls[c].request.eventId == e && s.calls[c].request.expected == v
    && s.calls[c].phase.Done? && s.calls[c].phase.outcome.Updated?
  }

  predicate Switched(s: System, c: nat, k: CapabilityKey, v: nat) {
    && c in s.calls && s.calls[c].request.SetCapability? && s.calls[c].request.capability == k && s.calls[c].request.expected == v
    && s.calls[c].phase.Done? && s.calls[c].phase.outcome.Updated?
  }

  /** A record points at an event of its user and of the company that its fingerprint names. */
  predicate RecordOk(db: Db, k: IdemKey) {
    k in db.idem ==>
      && db.idem[k].eventId in db.events
      && db.events[db.idem[k].eventId].ownerId == k.userId
      && db.events[db.idem[k].eventId].companyId == db.idem[k].fingerprint.companyId
  }

  /** What the outcome of a call says about the database. */
  predicate OutcomeOk(db: Db, c: Call) {
    var r := c.request;
    c.phase.Done? ==>
      match c.phase.outcome
      case Created(id) => r.Save? && id in db.events && KeyOf(r) in db.idem && db.idem[KeyOf(r)] == IdemRecord(FingerprintOf(r), id)
      case Replayed(id) => r.Save? && KeyOf(r) in db.idem && db.idem[KeyOf(r)] == IdemRecord(FingerprintOf(r), id)
      case Updated(id) =>
        if r.Update? then id == r.eventId && id in db.events && r.expected < db.events[id].version
        else r.SetCapability? && r.capability in db.capabilities && r.expected < db.capabilities[r.capability].version
      case Failed => true
  }

  ghost predicate Once(s: System) {
    && Fitting(s)
    && (forall k :: RecordOk(s.db, k))
    && (forall c | c in s.calls :: OutcomeOk(s.db, s.calls[c]))
    && (forall c, d, k, e, f | Saved(s, c, k, e) && Saved(s, d, k, f) :: c == d)
    && (forall c, d, k, l, e | Saved(s, c, k, e) && Saved(s, d, l, e) :: c == d)
    && (forall e | e in s.db.events :: exists c, k :: Saved(s, c, k, e))
    && (forall c, d, e, v | Changed(s, c, e, v) && Changed(s, d, e, v) :: c == d)
    && (forall c, d, k, v | Switched(s, c, k, v) && Switched(s, d, k, v) :: c == d)
  }

  /** Rows stay, their versions do not fall, owners and companies of events and idempotency records do not change. */
  ghost predicate Extends(a: Db, b: Db) {
    && (forall e | e in a.events :: e in b.events && b.events[e].version >= a.events[e].version
          && b.events[e].ownerId == a.events[e].ownerId && b.events[e].companyId == a.events[e].companyId
          && b.events[e].workspaceId == a.events[e].workspaceId)
    && (forall k | k in a.capabilities :: k in b.capabilities && b.capabilities[k].version >= a.capabilities[k].version)
    && (forall k | k in a.idem :: k in b.idem && b.idem[k] == a.idem[k])
  }

  lemma ProgressExtends(db: Db, c: Call, e: Env)
    requires Fits(c.request, c.phase)
    ensures Extends(db, Progress(db, c, e).db)
  {}

  lemma OutcomeLater(a: Db, b: Db, c: Call)
    requires OutcomeOk(a, c) && Extends(a, b)
    ensures OutcomeOk(b, c)
  {}

  lemma RecordsLater(db: Db, c: Call, e: Env, k: IdemKey)
    requires Fits(c.request, c.phase) && RecordOk(db, k)
    ensures RecordOk(Progress(db, c, e).db, k)
  {}

  lemma OwnOutcome(db: Db, c: Call, e: Env)
    requires Fits(c.request, c.phase) && OutcomeOk(db, c) && forall k :: RecordOk(db, k)
    ensures OutcomeOk(Progress(db, c, e).db, Call(c.request, Progress(db, c, e).phase))
  {}

  /** The database before a call committed something new: the key was free, the row still had the expected version. */
  lemma FirstTime(db: Db, c: Call, e: Env)
    requires Fits(c.request, c.phase) && !c.phase.Done? && Progress(db, c, e).phase.Done?
    ensures match Progress(db, c, e).phase.outcome
      case Created(id) => c.request.Save? && KeyOf(c.request) !in db.idem && id !in db.events
      case Updated(id) =>
        if c.request.Update? then id in db.events && id == c.request.eventId && db.events[id].version == c.request.expected
        else c.request.SetCapability?
             && (c.request.capability in db.capabilities ==> db.capabilities[c.request.capability].version == c.request.expected)
      case _ => true
  {}

  lemma EventOrigin(db: Db, c: Call, e: Env, id: EventId)
    requires Fits(c.request, c.phase) && id in Progress(db, c, e).db.events && id !in db.events
    ensures c.request.Save? && Progress(db, c, e).phase == Done(Created(id))
  {}

  lemma AdvanceOutcomes(s: System, c: nat, e: Env)
    requires Once(s) && c in s.calls
    ensures var end := Apply(s, Advance(c, e));
      (forall k :: RecordOk(end.db, k)) && forall d | d in end.calls :: OutcomeOk(end.db, end.calls[d])
  {
    var end := Apply(s, Advance(c, e));
    forall k ensures RecordOk(end.db, k) {
      RecordsLater(s.db, s.calls[c], e, k);
    }
    ProgressExtends(s.db, s.calls[c], e);
    forall d | d in end.calls ensures OutcomeOk(end.db, end.calls[d]) {
      if d == c {
        OwnOutcome(s.db, s.calls[c], e);
      } else {
        OutcomeLater(s.db, end.db, s.calls[d]);
      }
    }
  }

  lemma SavedOnce(s: System, c: nat, e: Env, a: nat, b: nat, k: IdemKey, l: IdemKey, x: EventId, y: EventId)
    requires Once(s) && c in s.calls && (k == l || x == y)
    requires Saved(Apply(s, Advance(c, e)), a, k, x) && Saved(Apply(s, Advance(c, e)), b, l, y)
    ensures a == b
  {
    assert a != c ==> Saved(s, a, k, x);
    assert b != c ==> Saved(s, b, l, y);
    assert a != c ==> OutcomeOk(s.db, s.calls[a]);
    assert b != c ==> OutcomeOk(s.db, s.calls[b]);
    if s.calls[c].phase.Done? {
      assert Saved(s, a, k, x) && Saved(s, b, l, y);
    } else if a == c || b == c {
      if Progress(s.db, s.calls[c], e).phase.Done? {
        FirstTime(s.db, s.calls[c], e);
      }
    }
  }

  lemma ChangedOnce(s: System, c: nat, e: Env, a: nat, b: nat, x: EventId, v: nat)
    requires Once(s) && c in s.calls
    requires Changed(Apply(s, Advance(c, e)), a, x, v) && Changed(Apply(s, Advance(c, e)), b, x, v)
    ensures a == b
  {
    assert a != c ==> Changed(s, a, x, v);
    assert b != c ==> Changed(s, b, x, v);
    assert a != c ==> OutcomeOk(s.db, s.calls[a]);
    assert b != c ==> OutcomeOk(s.db, s.calls[b]);
    if s.calls[c].phase.Done? {
      assert Changed(s, a, x, v) && Changed(s, b, x, v);
    } else if a == c || b == c {
      FirstTime(s.db, s.calls[c], e);
    }
  }

  lemma SwitchedOnce(s: System, c: nat, e: Env, a: nat, b: nat, k: CapabilityKey, v: nat)
    requires Once(s) && c in s.calls
    requires Switched(Apply(s, Advance(c, e)), a, k, v) && Switched(Apply(s, Advance(c, e)), b, k, v)
    ensures a == b
  {
    assert a != c ==> Switched(s, a, k, v);
    assert b != c ==> Switched(s, b, k, v);
    assert a != c ==> OutcomeOk(s.db, s.calls[a]);
    assert b != c ==> OutcomeOk(s.db, s.calls[b]);
    if s.calls[c].phase.Done? {
      assert Switched(s, a, k, v) && Switched(s, b, k, v);
    } else if a == c || b == c {
      FirstTime(s.db, s.calls[c], e);
    }
  }

  lemma EventsStillSaved(s: System, c: nat, e: Env, x: EventId)
    requires Once(s) && c in s.calls && x in Apply(s, Advance(c, e)).db.events
    ensures exists d, k :: Saved(Apply(s, Advance(c, e)), d, k, x)
  {
    var end := Apply(s, Advance(c, e));
    if x in s.db.events {
      var d, k :| Saved(s, d, k, x);
      assert Saved(end, d, k, x);
    } else {
      EventOrigin(s.db, s.calls[c], e, x);
      assert Saved(end, c, KeyOf(s.calls[c].request), x);
    }
  }

  lemma AdvanceOnce(s: System, c: nat, e: Env)
    requires Once(s) && c in s.calls
    ensures Once(Apply(s, Advance(c, e)))
  {
    var end := Apply(s, Advance(c, e));
    AdvanceOutcomes(s, c, e);
    forall a, b, k, x, y | Saved(end, a, k, x) && Saved(end, b, k, y) ensures a == b {
      SavedOnce(s, c, e, a, b, k, k, x, y);
    }
    forall a, b, k, l, x | Saved(end, a, k, x) && Saved(end, b, l, x) ensures a == b {
      SavedOnce(s, c, e, a, b, k, l, x, x);
    }
    forall x | x in end.db.events ensures exists d, k :: Saved(end, d, k, x) {
      EventsStillSaved(s, c, e, x);
    }
    forall a, b, x, v | Changed(end, a, x, v) && Changed(end, b, x, v) ensures a == b {
      ChangedOnce(s, c, e, a, b, x, v);
    }
    forall a, b, k, v | Switched(end, a, k, v) && Switched(end, b, k, v) ensures a == b {
      SwitchedOnce(s, c, e, a, b, k, v);
    }
  }

  lemma AskOnce(s: System, c: nat, r: Request)
    requires Once(s)
    ensures Once(Apply(s, Ask(c, r)))
  {
    var end := Apply(s, Ask(c, r));
    forall d, k, e ensures Saved(end, d, k, e) <==> Saved(s, d, k, e) {}
    forall d, e, v ensures Changed(end, d, e, v) <==> Changed(s, d, e, v) {}
    forall d, k, v ensures Switched(end, d, k, v) <==> Switched(s, d, k, v) {}
    forall e | e in end.db.events ensures exists d, k :: Saved(end, d, k, e) {
      var d, k :| Saved(s, d, k, e);
      assert Saved(end, d, k, e);
    }
  }

  lemma {:induction false} RunOnce(steps: seq<Step>)
    ensures Once(Run(INITIAL, steps))
  {
    if steps != [] {
      var init, last := steps[..|steps| - 1], steps[|steps| - 1];
      RunOnce(init);
      var s := Run(INITIAL, init);
      match last
      case Ask(c, r) => AskOnce(s, c, r);
      case Advance(c, e) =>
        if c in s.calls {
          AdvanceOnce(s, c, e);
        }
    }
  }

  // ----- The guarantees -----

  /** All successful calls under one key answer with one event, and they were made for the same request;
      a call whose fingerprint differs from the recorded one does not succeed. */
  lemma OneEventPerKey(steps: seq<Step>, c: nat, d: nat, r: Request, q: Request, x: EventId, y: EventId)
    requires r.Save? && q.Save? && KeyOf(r) == KeyOf(q)
    requires Answered(Run(INITIAL, steps), c, r, x) && Answered(Run(INITIAL, steps), d, q, y)
    ensures x == y && FingerprintOf(r) == FingerprintOf(q)
  {
    RunOnce(steps);
    var s := Run(INITIAL, steps);
    assert OutcomeOk(s.db, s.calls[c]) && OutcomeOk(s.db, s.calls[d]);
  }

  /** Every event was committed by exactly one call, and no other call under its key committed one. */
  lemma OneEffectPerKey(steps: seq<Step>, e: EventId) returns (c: nat, k: IdemKey)
    requires e in Run(INITIAL, steps).db.events
    ensures Saved(Run(INITIAL, steps), c, k, e)
    ensures forall d, l, f | Saved(Run(INITIAL, steps), d, l, f) && (l == k || f == e) :: d == c && l == k && f == e
  {
    RunOnce(steps);
    var s := Run(INITIAL, steps);
    c, k :| Saved(s, c, k, e);
    forall d, l, f | Saved(s, d, l, f) && (l == k || f == e) ensures d == c && l == k && f == e {
      assert Saved(s, c, k, e) && Saved(s, d, l, f);
    }
  }

  /** A retry finds the event of the recorded request exactly when it comes from the same workspace. */
  lemma ReplayExact(steps: seq<Step>, r: Request)
    requires r.Save? && KeyOf(r) in Run(INITIAL, steps).db.idem
    requires Run(INITIAL, steps).db.idem[KeyOf(r)].fingerprint == FingerprintOf(r)
    ensures var db := Run(INITIAL, steps).db; var e := db.idem[KeyOf(r)].eventId;
      e in db.events && (LookUp(db, r) == Done(Replayed(e)) <==> db.events[e].workspaceId == r.actor.workspaceId)
      && (LookUp(db, r) == Done(Failed) <==> db.events[e].workspaceId != r.actor.workspaceId)
  {
    RunOnce(steps);
    assert RecordOk(Run(INITIAL, steps).db, KeyOf(r));
  }

  /** No update is lost: at most one call commits an update of an event at a given version, and the event is past it. */
  lemma NoStaleEventUpdate(steps: seq<Step>, c: nat, d: nat, e: EventId, v: nat)
    requires Changed(Run(INITIAL, steps), c, e, v)
    ensures e in Run(INITIAL, steps).db.events && v < Run(INITIAL, steps).db.events[e].version
    ensures Changed(Run(INITIAL, steps), d, e, v) ==> d == c
  {
    RunOnce(steps);
    var s := Run(INITIAL, steps);
    assert OutcomeOk(s.db, s.calls[c]);
  }

  lemma NoStaleCapabilityUpdate(steps: seq<Step>, c: nat, d: nat, k: CapabilityKey, v: nat)
    requires Switched(Run(INITIAL, steps), c, k, v)
    ensures k in Run(INITIAL, steps).db.capabilities && v < Run(INITIAL, steps).db.capabilities[k].version
    ensures Switched(Run(INITIAL, steps), d, k, v) ==> d == c
  {
    RunOnce(steps);
    var s := Run(INITIAL, steps);
    assert OutcomeOk(s.db, s.calls[c]);
  }
}
