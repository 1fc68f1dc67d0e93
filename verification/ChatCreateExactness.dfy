/** Exactly which pairs of `create` requests may share an idempotency key. The branch that records an existing
    direct conversation leaves a record that is already there, yet answers with the conversation it found. */
module ChatCreateExactness {
  import opened Basics
  import opened ChatModel
  import opened ChatMachine
  import opened ChatSafety
  import opened ChatOnce
  import opened ChatRuns

  /** All successful calls with these requests get the same answer, in every run. */
  ghost predicate CreatesAgree(q: Request, q': Request) {
    forall steps, c, c', id, id' |
      Answered(Run(INITIAL, steps), c, q, id) && Answered(Run(INITIAL, steps), c', q', id') :: id == id'
  }

  predicate SameKey(q: Request, q': Request) {
    WellFormedCreate(q) && WellFormedCreate(q') && KeyOf(q) == KeyOf(q')
  }

  /** Two requests of one user ask for the same direct conversation exactly when their fingerprints agree. */
  lemma DirectFingerprint(q: Request, q': Request)
    requires WellFormedCreate(q) && WellFormedCreate(q') && q.direct && q'.direct && q.actor.userId == q'.actor.userId
    ensures DirectKeyOf(q) == DirectKeyOf(q') <==> FingerprintOf(q) == FingerprintOf(q')
  {
    assert Others(q) == {Peer(q)} && Others(q') == {Peer(q')};
    assert Peer(q) in Others(q) && Peer(q') in Others(q');
  }

  function Everyone(q: Request, q': Request, id: nat): Env
    requires q.CreateThread? && q'.CreateThread?
  {
    Env(true, true, Others(q) + Others(q'), None, id, 0, false)
  }

  function Waiting(q: Request): Phase
    requires q.CreateThread?
  {
    if q.direct then Searching else Inserting
  }

  /** A well-formed request is asked and finds no record of its key. */
  lemma Started(s: System, c: nat, q: Request, e: Env)
    requires Reachable(0, s) && c !in s.calls && WellFormedCreate(q) && Others(q) <= e.directory && KeyOf(q) !in s.db.idem
    ensures Reachable(0, System(s.db, s.calls[c := Call(q, Waiting(q))]))
  {
    AskReachable(0, s, c, q);
    var s1 := System(s.db, s.calls[c := Call(q, Asked)]);
    AdvanceReachable(0, s1, c, e, Move(s.db, Waiting(q)));
    assert s1.calls[c := Call(q, Waiting(q))] == s.calls[c := Call(q, Waiting(q))];
  }

  /** A waiting request finds no conversation and inserts a new one. */
  lemma Inserted(s: System, c: nat, q: Request, e: Env) returns (db: Db)
    requires Reachable(0, s) && c in s.calls && WellFormedCreate(q) && s.calls[c] == Call(q, Waiting(q))
    requires KeyOf(q) !in s.db.idem && e.newId !in s.db.threads && !e.fault
    requires q.direct ==> !HasDirect(s.db.threads, DirectKeyOf(q))
    ensures CreateTx(s.db, q, e.newId, e.now) == Committed(db)
    ensures Reachable(0, System(db, s.calls[c := Call(q, Done(Created(e.newId)))]))
  {
    db := CreateTx(s.db, q, e.newId, e.now).db;
    var s1 := System(s.db, s.calls[c := Call(q, Inserting)]);
    if q.direct {
      AdvanceReachable(0, s, c, e, Move(s.db, Inserting));
    } else {
      assert s1.calls == s.calls;
    }
    AdvanceReachable(0, s1, c, e, Move(db, Done(Created(e.newId))));
    assert s1.calls[c := Call(q, Done(Created(e.newId)))] == s.calls[c := Call(q, Done(Created(e.newId)))];
  }

  /** A waiting direct request finds the only conversation of its pair and answers with it, whatever the record says. */
  lemma Reused(s: System, c: nat, q: Request, e: Env, t: ThreadId)
    requires Reachable(0, s) && c in s.calls && WellFormedCreate(q) && q.direct && s.calls[c] == Call(q, Searching)
    requires KeyOf(q) in s.db.idem && !e.fault
    requires t in s.db.threads && s.db.threads[t].directKey == Some(DirectKeyOf(q))
    requires forall t' | t' in s.db.threads && s.db.threads[t'].directKey == Some(DirectKeyOf(q)) :: t' == t
    ensures Reachable(0, System(s.db, s.calls[c := Call(q, Done(Existing(t)))]))
  {
    assert HasDirect(s.db.threads, DirectKeyOf(q));
    AdvanceReachable(0, s, c, e, Move(s.db, Found(t)));
    var s1 := System(s.db, s.calls[c := Call(q, Found(t))]);
    AdvanceReachable(0, s1, c, e, Move(s.db, Done(Existing(t))));
    assert s1.calls[c := Call(q, Done(Existing(t)))] == s.calls[c := Call(q, Done(Existing(t)))];
  }

  /** The pair of `q` already has its conversation, created under another key. */
  lemma Prepared(q: Request, q': Request) returns (s: System)
    requires SameKey(q, q') && q.direct
    ensures Reachable(0, s) && s.calls.Keys == {0}
    ensures s.db.threads.Keys == {0} && s.db.threads[0].directKey == Some(DirectKeyOf(q)) && KeyOf(q) !in s.db.idem
  {
    var q0 := CreateThread(q.actor, q.key + 1, q.companyId, q.direct, q.title, q.participantIds);
    assert Others(q0) == Others(q);
    DirectFingerprint(q0, q);
    StartReachable(0);
    Started(INITIAL, 0, q0, Everyone(q, q', 0));
    s := System(EMPTY_DB, map[][0 := Call(q0, Searching)]);
    var first := Inserted(s, 0, q0, Everyone(q, q', 0));
    s := System(first, s.calls[0 := Call(q0, Done(Created(0)))]);
  }

  /** Both requests look their key up, then the other one commits under it. */
  lemma Overtaken(q: Request, q': Request) returns (s: System)
    requires SameKey(q, q') && q.direct && FingerprintOf(q) != FingerprintOf(q')
    ensures Reachable(0, s) && s.calls.Keys == {0, 1, 2}
    ensures s.calls[1] == Call(q, Searching) && s.calls[2] == Call(q', Done(Created(1)))
    ensures s.db.threads.Keys == {0, 1} && s.db.threads[0].directKey == Some(DirectKeyOf(q)) && KeyOf(q) in s.db.idem
    ensures s.db.threads[1].directKey != Some(DirectKeyOf(q))
  {
    s := Prepared(q, q');
    Started(s, 1, q, Everyone(q, q', 0));
    s := System(s.db, s.calls[1 := Call(q, Searching)]);
    Started(s, 2, q', Everyone(q, q', 0));
    s := System(s.db, s.calls[2 := Call(q', Waiting(q'))]);
    if q'.direct {
      DirectFingerprint(q, q');
    }
    var second := Inserted(s, 2, q', Everyone(q, q', 1));
    s := System(second, s.calls[2 := Call(q', Done(Created(1)))]);
  }

  /** A direct request and a different request race under one key, and both succeed with different answers. */
  lemma RaceDisagrees(q: Request, q': Request)
    requires SameKey(q, q') && q.direct && FingerprintOf(q) != FingerprintOf(q')
    ensures !CreatesAgree(q, q')
  {
    var s := Overtaken(q, q');
    Reused(s, 1, q, Everyone(q, q', 0), 0);
    s := System(s.db, s.calls[1 := Call(q, Done(Existing(0)))]);
    var steps :| RunWithin(0, INITIAL, steps) && Run(INITIAL, steps) == s;
    assert Answered(Run(INITIAL, steps), 1, q, 0) && Answered(Run(INITIAL, steps), 2, q', 1);
  }

  /** Two well-formed `create` requests under one key always agree on their answer exactly when they are
      the same request or neither asks for a direct conversation. */
  lemma CreateAgreementExact(q: Request, q': Request)
    requires SameKey(q, q')
    ensures CreatesAgree(q, q') <==> FingerprintOf(q) == FingerprintOf(q') || (!q.direct && !q'.direct)
  {
    if FingerprintOf(q) == FingerprintOf(q') || (!q.direct && !q'.direct) {
      forall steps, c, c', id, id' |
        Answered(Run(INITIAL, steps), c, q, id) && Answered(Run(INITIAL, steps), c', q', id') ensures id == id' {
        if q.direct {
          DirectCreatesAgree(steps, c, c', q, q', id, id');
        } else {
          OneEffectPerKey(steps, c, c', q, q', id, id');
        }
      }
    } else if q.direct {
      RaceDisagrees(q, q');
    } else {
      RaceDisagrees(q', q);
      Symmetric(q, q');
    }
  }

  lemma Symmetric(q: Request, q': Request)
    ensures CreatesAgree(q, q') ==> CreatesAgree(q', q)
  {
    if CreatesAgree(q, q') {
      forall steps, c, c', id, id' |
        Answered(Run(INITIAL, steps), c, q', id) && Answered(Run(INITIAL, steps), c', q, id') ensures id == id' {
        assert Answered(Run(INITIAL, steps), c', q, id') && Answered(Run(INITIAL, steps), c, q', id);
      }
    }
  }
}
