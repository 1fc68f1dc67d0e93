/** Idempotency: what a recorded key promises to every call, and which answers `create` gives. */
module ChatOnce {
  import opened Basics
  import opened ChatModel
  import opened ChatMachine
  import opened ChatFrames
  import opened ChatSafety
  import opened ChatDirect

  /** Thread `t` is the direct conversation a request asks for. */
  ghost predicate Serves(db: Db, r: Request, t: ThreadId) {
    WellFormedCreate(r) && r.direct && t in db.threads && db.threads[t].directKey == Some(DirectKeyOf(r))
  }

  /** A record points at a row of its own operation, made by its own user for the request it fingerprints. */
  ghost predicate RecordOk(db: Db, k: IdemKey, record: IdemRecord) {
    match k.operation
    case Creating =>
      && record.fingerprint.CreateFingerprint?
      && record.resultId in db.threads
      && (record.fingerprint.direct ==> exists p ::
            && record.fingerprint.others == {p}
            && db.threads[record.resultId].directKey == Some(SortedKey(record.fingerprint.companyId, k.userId, p)))
    case Posting =>
      && record.fingerprint.PostFingerprint?
      && record.resultId in db.messages
      && db.messages[record.resultId].authorId == k.userId
      && db.messages[record.resultId].threadId == record.fingerprint.threadId
    case Adding(t) =>
      && record.fingerprint.AddFingerprint?
      && record.resultId == record.fingerprint.userId
      && Seat(t, record.resultId) in db.seats
  }

  ghost predicate RecordsOk(db: Db) {
    forall k | k in db.idem :: RecordOk(db, k, db.idem[k])
  }

  lemma RecordsLater(a: Db, b: Db, k: IdemKey, record: IdemRecord)
    requires RecordOk(a, k, record) && Extends(a, b)
    ensures RecordOk(b, k, record)
  {
  }

  /** The key of `r` is recorded for this very request with the answer `id`. */
  predicate Recorded(db: Db, r: Request, id: nat)
    requires Keyed(r)
  {
    KeyOf(r) in db.idem && db.idem[KeyOf(r)] == IdemRecord(FingerprintOf(r), id)
  }

  ghost predicate AnswerOk(db: Db, c: Call) {
    var r := c.request;
    match c.phase
    case Found(t) => Serves(db, r, t)
    case Done(o) =>
      && (Keyed(r) && (o.Created? || o.Replayed?) ==> Recorded(db, r, o.id))
      && (r.CreateThread? && r.direct && Succeeded(o) ==> Serves(db, r, o.id))
      && (Keyed(r) ==> !o.Unchanged?)
      && (Keyed(r) && o.Existing? ==> r.CreateThread? && r.direct)
    case _ => true
  }

  lemma AnswerLater(a: Db, b: Db, c: Call)
    requires AnswerOk(a, c) && Extends(a, b)
    ensures AnswerOk(b, c)
  {
  }

  ghost predicate Creates(s: System, c: nat, k: IdemKey) {
    && c in s.calls
    && Keyed(s.calls[c].request)
    && KeyOf(s.calls[c].request) == k
    && s.calls[c].phase.Done?
    && s.calls[c].phase.outcome.Created?
  }

  /** Call `c` committed message `m`. */
  ghost predicate Wrote(s: System, c: nat, m: MessageId) {
    && c in s.calls
    && s.calls[c].request.Post?
    && s.calls[c].phase == Done(Created(m))
  }

  ghost predicate Once(s: System) {
    && Sound(s)
    && DirectsOk(s.db)
    && RecordsOk(s.db)
    && (forall c | c in s.calls :: AnswerOk(s.db, s.calls[c]))
    && (forall c, c', k | Creates(s, c, k) && Creates(s, c', k) :: c == c')
    && (forall c, c', m | Wrote(s, c, m) && Wrote(s, c', m) :: c == c')
    && (forall m | m in s.db.messages :: exists c :: Wrote(s, c, m))
  }

  lemma ReplayAnswers(db: Db, r: Request)
    requires RecordsOk(db) && Keyed(r) && KeyOf(r) in db.idem
    requires r.CreateThread? ==> WellFormedCreate(r)
    ensures AnswerOk(db, Call(r, Replay(db, r).phase))
  {
    assert RecordOk(db, KeyOf(r), db.idem[KeyOf(r)]);
    if r.CreateThread? && r.direct && db.idem[KeyOf(r)].fingerprint == FingerprintOf(r) {
      var p :| Others(r) == {p} && db.threads[db.idem[KeyOf(r)].resultId].directKey == Some(SortedKey(r.companyId, r.actor.userId, p));
      assert Peer(r) in Others(r);
    }
  }

  lemma CommitAnswers(db: Db, r: Request, seen: Db, e: Env)
    requires !r.CreateThread? && !r.OpenGroup? && Commit(db, r, seen, e).Committed?
    requires Linked(db) && RecordsOk(db)
    ensures RecordsOk(Commit(db, r, seen, e).db)
    ensures AnswerOk(Commit(db, r, seen, e).db, Call(r, Done(Created(ResultId(r, e)))))
  {
    var after := Commit(db, r, seen, e).db;
    CommitExtends(db, r, seen, e);
    forall k | k in after.idem ensures RecordOk(after, k, after.idem[k]) {
      if k in db.idem {
        RecordsLater(db, after, k, db.idem[k]);
      } else {
        CommitRecord(db, r, seen, e, k);
      }
    }
  }

  /** A commit records its own key only, with what it made. */
  lemma CommitRecord(db: Db, r: Request, seen: Db, e: Env, k: IdemKey)
    requires !r.CreateThread? && !r.OpenGroup? && Commit(db, r, seen, e).Committed?
    requires k !in db.idem && k in Commit(db, r, seen, e).db.idem
    ensures RecordOk(Commit(db, r, seen, e).db, k, Commit(db, r, seen, e).db.idem[k])
  {
  }

  lemma RecordAnswers(db: Db, after: Db, r: Request, t: ThreadId)
    requires RecordsOk(db) && Extends(db, after) && WellFormedCreate(r) && t in after.threads
    requires after.idem == db.idem || after.idem == db.idem[KeyOf(r) := IdemRecord(FingerprintOf(r), t)]
    requires r.direct ==> Serves(after, r, t)
    ensures RecordsOk(after)
  {
    forall k | k in after.idem ensures RecordOk(after, k, after.idem[k]) {
      if k in db.idem && after.idem[k] == db.idem[k] {
        RecordsLater(db, after, k, db.idem[k]);
      } else if r.direct {
        assert Others(r) == {Peer(r)};
      }
    }
  }

  lemma LookUpAnswers(db: Db, r: Request, seen: Db)
    requires RecordsOk(db) && (r.Post? || r.Add?)
    ensures AnswerOk(db, Call(r, LookUp(db, r, seen).phase))
  {
    if KeyOf(r) in db.idem {
      ReplayAnswers(db, r);
    }
  }

  lemma AskedAnswers(db: Db, r: Request, e: Env)
    requires RecordsOk(db)
    ensures AnswerOk(db, Call(r, Progress(db, Call(r, Asked), e).phase))
  {
    if r.CreateThread? && WellFormedCreate(r) && KeyOf(r) in db.idem {
      ReplayAnswers(db, r);
    }
  }

  lemma InsertAnswers(db: Db, r: Request, e: Env)
    requires Linked(db) && RecordsOk(db) && WellFormedCreate(r)
    requires Extends(db, Insert(db, r, e).db)
    ensures RecordsOk(Insert(db, r, e).db) && AnswerOk(Insert(db, r, e).db, Call(r, Insert(db, r, e).phase))
  {
    var move := Insert(db, r, e);
    if move.phase.Done? && move.phase.outcome.Created? {
      RecordAnswers(db, move.db, r, e.newId);
    }
  }

  lemma CommittingAnswers(db: Db, r: Request, seen: Db, e: Env)
    requires !r.CreateThread? && !r.OpenGroup? && Linked(db) && RecordsOk(db)
    ensures var move := Settle(db, Commit(db, r, seen, e), Created(ResultId(r, e)), Done(Failed));
      RecordsOk(move.db) && AnswerOk(move.db, Call(r, move.phase))
  {
    if Commit(db, r, seen, e).Committed? {
      CommitAnswers(db, r, seen, e);
    }
  }

  lemma FoundAnswers(db: Db, r: Request, t: ThreadId, e: Env)
    requires WellFormedCreate(r) && r.direct && RecordsOk(db) && Serves(db, r, t)
    ensures var move := Settle(db, if e.fault then Aborted else UpsertTx(db, r, t), Existing(t), Done(Failed));
      RecordsOk(move.db) && AnswerOk(move.db, Call(r, move.phase))
  {
    if !e.fault {
      RecordAnswers(db, UpsertTx(db, r, t).db, r, t);
    }
  }

  lemma OpenAnswers(db: Db, r: Request, view: GroupView, existing: Option<ThreadId>, e: Env)
    requires r.OpenGroup? && RecordsOk(db) && Extends(db, Open(db, r, view, existing, e).db)
    ensures var move := Open(db, r, view, existing, e);
      RecordsOk(move.db) && AnswerOk(move.db, Call(r, move.phase))
  {
    var move := Open(db, r, view, existing, e);
    forall k | k in move.db.idem ensures RecordOk(move.db, k, move.db.idem[k]) {
      RecordsLater(db, move.db, k, db.idem[k]);
    }
  }

  lemma ProgressAnswers(db: Db, c: Call, e: Env)
    requires Linked(db) && Fits(c.request, c.phase) && RecordsOk(db) && AnswerOk(db, c)
    requires Extends(db, Progress(db, c, e).db)
    ensures RecordsOk(Progress(db, c, e).db)
    ensures AnswerOk(Progress(db, c, e).db, Call(c.request, Progress(db, c, e).phase))
  {
    var r := c.request;
    match c.phase {
      case Asked => AskedAnswers(db, r, e);
      case Checked(seen) =>
        if r.Post? || r.Add? {
          LookUpAnswers(db, r, seen);
        } else {
          CommittingAnswers(db, r, seen, e);
        }
      case Cleared(seen) => CommittingAnswers(db, r, seen, e);
      case Inserting => InsertAnswers(db, r, e);
      case Found(t) => FoundAnswers(db, r, t, e);
      case Opening(view, existing) => OpenAnswers(db, r, view, existing, e);
      case _ =>
    }
  }

  /** A call that committed an effect left its record, and a call that wrote a message left it in the table. */
  lemma CreatesRecorded(s: System, c: nat, k: IdemKey)
    requires Once(s) && Creates(s, c, k)
    ensures k in s.db.idem
    ensures k.operation.Posting? ==> s.calls[c].phase.outcome.id in s.db.messages
  {
    assert AnswerOk(s.db, s.calls[c]);
    assert RecordOk(s.db, k, s.db.idem[k]);
  }

  /** A call that commits under a key finds no record of it. */
  lemma CommitIsFirst(db: Db, c: Call, e: Env)
    requires Fits(c.request, c.phase) && !c.phase.Done? && Keyed(c.request)
    requires Progress(db, c, e).phase.Done? && Progress(db, c, e).phase.outcome.Created?
    ensures KeyOf(c.request) !in db.idem
  {
  }

  lemma CommitMessage(db: Db, r: Request, seen: Db, e: Env, m: MessageId)
    requires !r.CreateThread? && !r.OpenGroup? && Commit(db, r, seen, e).Committed?
    ensures m !in db.messages && m in Commit(db, r, seen, e).db.messages ==> r.Post? && m == e.newId
    ensures r.Post? ==> e.newId !in db.messages
  {
  }

  /** A message appears exactly when a post commits it. */
  lemma MessageIsFirst(db: Db, c: Call, e: Env, m: MessageId)
    requires Fits(c.request, c.phase)
    ensures m !in db.messages && m in Progress(db, c, e).db.messages ==>
              c.request.Post? && Progress(db, c, e).phase == Done(Created(m))
    ensures c.request.Post? && !c.phase.Done? && Progress(db, c, e).phase == Done(Created(m)) ==> m !in db.messages
  {
    if c.phase.Checked? || c.phase.Cleared? {
      if Commit(db, c.request, c.phase.seen, e).Committed? {
        CommitMessage(db, c.request, c.phase.seen, e, m);
      }
    }
  }

  lemma StepOnce(s: System, step: Step)
    requires Once(s)
    ensures Fitting(s) && Once(Apply(s, step))
  {
    StepSound(s, step);
    var after := Apply(s, step);
    if step.Advance? && step.call in s.calls {
      AdvanceOnce(s, step.call, step.env);
    } else if after != s {
      assert forall c, k :: Creates(after, c, k) <==> Creates(s, c, k);
      assert forall c, m :: Wrote(after, c, m) <==> Wrote(s, c, m);
    }
  }

  lemma AdvanceOnce(s: System, c: nat, e: Env)
    requires Once(s) && Fitting(s) && c in s.calls && Sound(Apply(s, Advance(c, e)))
    ensures Once(Apply(s, Advance(c, e)))
  {
    var after := Apply(s, Advance(c, e));
    var call := s.calls[c];
    ProgressExtends(s.db, call, e);
    ProgressDirects(s.db, call, e);
    ProgressAnswers(s.db, call, e);
    forall d | d in after.calls ensures AnswerOk(after.db, after.calls[d]) {
      if d != c {
        AnswerLater(s.db, after.db, s.calls[d]);
      }
    }
    forall d, d', k | Creates(after, d, k) && Creates(after, d', k) ensures d == d' {
      CreatesAfter(s, c, e, d, k);
      CreatesAfter(s, c, e, d', k);
    }
    forall d, d', m | Wrote(after, d, m) && Wrote(after, d', m) ensures d == d' {
      WroteAfter(s, c, e, d, m);
      WroteAfter(s, c, e, d', m);
    }
    forall m | m in after.db.messages ensures exists d :: Wrote(after, d, m) {
      AuthoredAfter(s, c, e, m);
    }
  }

  /** After a step of `c`, a committing call either had committed before, or is `c`, the first to commit under its key. */
  lemma CreatesAfter(s: System, c: nat, e: Env, d: nat, k: IdemKey)
    requires Once(s) && Fitting(s) && c in s.calls && Creates(Apply(s, Advance(c, e)), d, k)
    ensures if k in s.db.idem then Creates(s, d, k) else d == c
  {
    if d == c && !s.calls[c].phase.Done? {
      CommitIsFirst(s.db, s.calls[c], e);
    } else {
      assert Creates(s, d, k);
      CreatesRecorded(s, d, k);
    }
  }

  lemma WroteAfter(s: System, c: nat, e: Env, d: nat, m: MessageId)
    requires Once(s) && Fitting(s) && c in s.calls && Wrote(Apply(s, Advance(c, e)), d, m)
    ensures if m in s.db.messages then Wrote(s, d, m) else d == c
  {
    if d == c && !s.calls[c].phase.Done? {
      MessageIsFirst(s.db, s.calls[c], e, m);
    } else {
      assert Wrote(s, d, m);
      assert Creates(s, d, KeyOf(s.calls[d].request));
      CreatesRecorded(s, d, KeyOf(s.calls[d].request));
    }
  }

  lemma AuthoredAfter(s: System, c: nat, e: Env, m: MessageId)
    requires Once(s) && Fitting(s) && c in s.calls && m in Apply(s, Advance(c, e)).db.messages
    ensures exists d :: Wrote(Apply(s, Advance(c, e)), d, m)
  {
    var after := Apply(s, Advance(c, e));
    if m in s.db.messages {
      var d :| Wrote(s, d, m);
      assert Wrote(after, d, m);
    } else {
      MessageIsFirst(s.db, s.calls[c], e, m);
      assert Wrote(after, c, m);
    }
  }

  lemma {:induction false} RunOnce(s: System, steps: seq<Step>)
    requires Once(s) && Fitting(s)
    ensures Once(Run(s, steps))
    decreases |steps|
  {
    if steps != [] {
      StepOnce(s, steps[0]);
      RunOnce(Apply(s, steps[0]), steps[1..]);
    }
  }

  // ----- What every run promises -----

  /** At most one direct conversation exists for two users of a company, whoever started it. */
  lemma OneDirectThreadPerPair(steps: seq<Step>, t: ThreadId, t': ThreadId)
    requires var db := Run(INITIAL, steps).db;
      && t in db.threads && t' in db.threads
      && db.threads[t].kind == Direct && db.threads[t'].kind == Direct
      && db.threads[t].companyId == db.threads[t'].companyId
      && ActiveUsers(db.seats, t) == ActiveUsers(db.seats, t')
    ensures t == t'
  {
    RunOnce(INITIAL, steps);
    var db := Run(INITIAL, steps).db;
    var k, k' := db.threads[t].directKey.value, db.threads[t'].directKey.value;
    assert DirectThread(db, t) && DirectThread(db, t');
    assert k.low in {k'.low, k'.high} && k.high in {k'.low, k'.high};
  }

  /** All successful direct `create` calls of two users get the same thread, from whichever side and on whichever
      path they were answered, and that thread is the conversation of exactly these two users. */
  lemma DirectCreatesAgree(steps: seq<Step>, c: nat, c': nat, r: Request, r': Request, id: nat, id': nat)
    requires Answered(Run(INITIAL, steps), c, r, id) && Answered(Run(INITIAL, steps), c', r', id')
    requires r.CreateThread? && r'.CreateThread? && r.direct && r'.direct && r.companyId == r'.companyId
    requires Others(r) + {r.actor.userId} == Others(r') + {r'.actor.userId}
    ensures id == id'
    ensures var db := Run(INITIAL, steps).db;
      && id in db.threads && db.threads[id].kind == Direct && db.threads[id].companyId == r.companyId
      && ActiveUsers(db.seats, id) == Others(r) + {r.actor.userId}
  {
    RunOnce(INITIAL, steps);
    AnswersAgree(Run(INITIAL, steps), c, c', r, r', id, id');
  }

  lemma AnswersAgree(s: System, c: nat, c': nat, r: Request, r': Request, id: nat, id': nat)
    requires Once(s) && Answered(s, c, r, id) && Answered(s, c', r', id')
    requires r.CreateThread? && r'.CreateThread? && r.direct && r'.direct && r.companyId == r'.companyId
    requires Others(r) + {r.actor.userId} == Others(r') + {r'.actor.userId}
    ensures id == id' && id in s.db.threads && s.db.threads[id].kind == Direct && s.db.threads[id].companyId == r.companyId
    ensures ActiveUsers(s.db.seats, id) == Others(r) + {r.actor.userId}
  {
    DirectAnswers(s, c, r, id);
    DirectAnswers(s, c', r', id');
    ServedOnce(s.db, r, r', id, id');
    ServedThread(s.db, r, id);
  }

  lemma ServedOnce(db: Db, r: Request, r': Request, t: ThreadId, t': ThreadId)
    requires DirectKeysUnique(db.threads) && Serves(db, r, t) && Serves(db, r', t') && r.companyId == r'.companyId
    requires Others(r) + {r.actor.userId} == Others(r') + {r'.actor.userId}
    ensures t == t'
  {
    SamePairSameKey(r, r');
  }

  lemma DirectAnswers(s: System, c: nat, r: Request, id: nat)
    requires Once(s) && Answered(s, c, r, id) && r.CreateThread? && r.direct
    ensures Serves(s.db, r, id)
  {
    assert AnswerOk(s.db, s.calls[c]);
  }

  lemma ServedThread(db: Db, r: Request, t: ThreadId)
    requires DirectsOk(db) && Serves(db, r, t)
    ensures db.threads[t].kind == Direct && db.threads[t].companyId == r.companyId
    ensures ActiveUsers(db.seats, t) == Others(r) + {r.actor.userId}
  {
    assert DirectThread(db, t);
    SamePairSameKey(r, r);
  }

  /** The direct key depends on the company and the unordered pair only, and determines the pair. */
  lemma SamePairSameKey(r: Request, r': Request)
    requires WellFormedCreate(r) && WellFormedCreate(r') && r.direct && r'.direct && r.companyId == r'.companyId
    requires Others(r) + {r.actor.userId} == Others(r') + {r'.actor.userId}
    ensures DirectKeyOf(r) == DirectKeyOf(r')
    ensures {DirectKeyOf(r).low, DirectKeyOf(r).high} == Others(r) + {r.actor.userId}
  {
    var p, p' := Peer(r), Peer(r');
    assert p in Others(r) && p' in Others(r');
    assert p in Others(r') + {r'.actor.userId} && r.actor.userId in Others(r') + {r'.actor.userId};
  }

  /** Calls under one key: those that succeed made the same request and got the same answer, and at most one of them
      committed an effect. This holds for posting a message, adding a participant and creating a group conversation. */
  lemma OneEffectPerKey(steps: seq<Step>, c: nat, c': nat, r: Request, r': Request, id: nat, id': nat)
    requires Answered(Run(INITIAL, steps), c, r, id) && Answered(Run(INITIAL, steps), c', r', id')
    requires Keyed(r) && Keyed(r') && KeyOf(r) == KeyOf(r')
    requires r.CreateThread? ==> !r.direct && !r'.direct
    ensures id == id' && FingerprintOf(r) == FingerprintOf(r')
    ensures c != c' ==> !(Creates(Run(INITIAL, steps), c, KeyOf(r)) && Creates(Run(INITIAL, steps), c', KeyOf(r)))
  {
    RunOnce(INITIAL, steps);
    var s := Run(INITIAL, steps);
    assert AnswerOk(s.db, s.calls[c]) && AnswerOk(s.db, s.calls[c']);
  }

  /** The messages committed by calls under the key `k`. */
  ghost function MessagesUnder(s: System, k: IdemKey): set<MessageId> {
    set m | m in s.db.messages && exists c :: Wrote(s, c, m) && KeyOf(s.calls[c].request) == k
  }

  /** However often and however concurrently a key is used, it commits at most one message. */
  lemma OneMessagePerKey(steps: seq<Step>, k: IdemKey)
    ensures |MessagesUnder(Run(INITIAL, steps), k)| <= 1
  {
    RunOnce(INITIAL, steps);
    AtMostOneMessage(Run(INITIAL, steps), k);
  }

  lemma AtMostOneMessage(s: System, k: IdemKey)
    requires Once(s)
    ensures |MessagesUnder(s, k)| <= 1
  {
    var ms := MessagesUnder(s, k);
    forall m0, m1 | m0 in ms && m1 in ms ensures m0 == m1 {
      SameKeySameMessage(s, k, m0, m1);
    }
    AtMostOne(ms);
  }

  lemma AtMostOne(ms: set<MessageId>)
    requires forall m0, m1 | m0 in ms && m1 in ms :: m0 == m1
    ensures |ms| <= 1
  {
    if ms != {} {
      var m :| m in ms;
      SubsetSize(ms, {m});
    }
  }

  lemma SameKeySameMessage(s: System, k: IdemKey, m0: MessageId, m1: MessageId)
    requires Once(s) && m0 in MessagesUnder(s, k) && m1 in MessagesUnder(s, k)
    ensures m1 == m0
  {
    var c0 :| Wrote(s, c0, m0) && KeyOf(s.calls[c0].request) == k;
    var c1 :| Wrote(s, c1, m1) && KeyOf(s.calls[c1].request) == k;
    assert Creates(s, c0, k) && Creates(s, c1, k);
  }

  /** Every message there is was committed by exactly one call. */
  lemma OneCallPerMessage(steps: seq<Step>, m: MessageId)
    requires m in Run(INITIAL, steps).db.messages
    ensures exists c :: Wrote(Run(INITIAL, steps), c, m) && forall c' | Wrote(Run(INITIAL, steps), c', m) :: c' == c
  {
    RunOnce(INITIAL, steps);
    var s := Run(INITIAL, steps);
    var c :| Wrote(s, c, m);
    assert forall c' | Wrote(s, c', m) :: c' == c;
  }
}
