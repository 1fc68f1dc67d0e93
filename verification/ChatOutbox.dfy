/** The outbox of the chat service carries every version of every thread exactly once, in order. */
module ChatOutbox {
  import opened VersionLog
  import opened ChatModel
  import opened ChatMachine

  function ThreadLog(db: Db, t: ThreadId): seq<nat> {
    Versions(db.outbox, ThreadAggregate(t))
  }

  /** A thread's events carry 1, 2, ... up to its version; a thread that does not exist has none. */
  ghost predicate LoggedThread(db: Db, t: ThreadId) {
    ThreadLog(db, t) == if t in db.threads then UpTo(db.threads[t].version) else []
  }

  ghost predicate Logged(db: Db) {
    && (forall t :: LoggedThread(db, t))
    && (forall t | t in db.threads :: db.threads[t].version >= 1)
  }

  /** One event with the next version of thread `t` keeps every log complete. */
  lemma AppendLogged(db: Db, after: Db, t: ThreadId, eventType: string)
    requires Logged(db)
    requires after.outbox == db.outbox + [ThreadEvent(t, (if t in db.threads then db.threads[t].version else 0) + 1, eventType)]
    requires t in after.threads && after.threads == db.threads[t := after.threads[t]]
    requires after.threads[t].version == (if t in db.threads then db.threads[t].version else 0) + 1
    ensures Logged(after)
  {
    var e := ThreadEvent(t, after.threads[t].version, eventType);
    forall t' ensures LoggedThread(after, t') {
      assert LoggedThread(db, t');
      AppendExtends(db.outbox, e, ThreadAggregate(t'));
      assert UpTo(after.threads[t].version) == UpTo(after.threads[t].version - 1) + [after.threads[t].version];
    }
  }

  lemma SameLogged(db: Db, after: Db)
    requires Logged(db) && after.outbox == db.outbox && after.threads == db.threads
    ensures Logged(after)
  {
    forall t ensures LoggedThread(after, t) {
      assert LoggedThread(db, t);
    }
  }

  /** The commits that change who takes part. */
  lemma ManagedLogged(db: Db, r: Request, seen: Db, e: Env)
    requires Managing(r) && Commit(db, r, seen, e).Committed? && Logged(db)
    ensures Logged(Commit(db, r, seen, e).db)
  {
    var after := Commit(db, r, seen, e).db;
    match r {
      case Add(_, _, t, _, _, _) => AppendLogged(db, after, t, "message.participant_added");
      case SetRole(_, t, _, _, _, _) => AppendLogged(db, after, t, "message.participant_role_changed");
      case Remove(_, t, _, _, _) => AppendLogged(db, after, t, "message.participant_removed");
    }
  }

  lemma CommitLogged(db: Db, r: Request, seen: Db, e: Env)
    requires !r.CreateThread? && !r.OpenGroup? && Commit(db, r, seen, e).Committed? && Logged(db)
    ensures Logged(Commit(db, r, seen, e).db)
  {
    if Managing(r) {
      ManagedLogged(db, r, seen, e);
    } else {
      OtherLogged(db, r, seen, e);
    }
  }

  lemma OtherLogged(db: Db, r: Request, seen: Db, e: Env)
    requires !r.CreateThread? && !r.OpenGroup? && !Managing(r) && Commit(db, r, seen, e).Committed? && Logged(db)
    ensures Logged(Commit(db, r, seen, e).db)
  {
    var after := Commit(db, r, seen, e).db;
    match r {
      case Post(_, _, t, _, _, _) => AppendLogged(db, after, t, "message.created");
      case Edit(_, m, _, _) => AppendLogged(db, after, db.messages[m].threadId, "message.edited");
      case Delete(_, m, _) => AppendLogged(db, after, db.messages[m].threadId, "message.deleted");
      case MarkRead(_, _, _) => SameLogged(db, after);
      case Prefer(_, _, _, _) => SameLogged(db, after);
    }
  }

  lemma ProgressLogged(db: Db, c: Call, e: Env)
    requires Fits(c.request, c.phase) && Logged(db)
    ensures Logged(Progress(db, c, e).db)
  {
    var after := Progress(db, c, e).db;
    if after != db {
      match c.phase {
        case Checked(seen) => CommitLogged(db, c.request, seen, e);
        case Cleared(seen) => CommitLogged(db, c.request, seen, e);
        case Inserting => AppendLogged(db, after, e.newId, "message.thread_created");
        case Found(_) => SameLogged(db, after);
        case Opening(_, existing) =>
          if existing.None? {
            AppendLogged(db, after, e.newId, "message.group_thread_created");
          } else {
            SameLogged(db, after);
          }
      }
    }
  }

  lemma {:induction false} RunLogged(s: System, steps: seq<Step>)
    requires Fitting(s) && Logged(s.db)
    ensures Logged(Run(s, steps).db)
    decreases |steps|
  {
    if steps != [] {
      if steps[0].Advance? && steps[0].call in s.calls {
        ProgressLogged(s.db, s.calls[steps[0].call], steps[0].env);
      }
      RunLogged(Apply(s, steps[0]), steps[1..]);
    }
  }

  /** In every state of every run, each version of a thread from 1 to the current one is carried by exactly
      one outbox event, the events stand in version order, and no event carries any other version. */
  lemma OutboxComplete(steps: seq<Step>, t: ThreadId, v: nat)
    ensures var db := Run(INITIAL, steps).db;
      var current := if t in db.threads then db.threads[t].version else 0;
      && ThreadLog(db, t) == UpTo(current)
      && |Carrying(db.outbox, ThreadAggregate(t), v)| == if 1 <= v <= current then 1 else 0
  {
    RunLogged(INITIAL, steps);
    var db := Run(INITIAL, steps).db;
    assert LoggedThread(db, t);
    EachVersionOnce(db.outbox, ThreadAggregate(t), if t in db.threads then db.threads[t].version else 0, v);
  }

  /** The unique key on (aggregate, version, event type) never rejects an event: the next version is not in the log. */
  lemma NextVersionIsNew(steps: seq<Step>, t: ThreadId, e: OutboxEvent)
    requires t in Run(INITIAL, steps).db.threads && e in Run(INITIAL, steps).db.outbox && e.aggregate == ThreadAggregate(t)
    ensures 1 <= e.version <= Run(INITIAL, steps).db.threads[t].version
  {
    var db := Run(INITIAL, steps).db;
    OutboxComplete(steps, t, e.version);
    var i :| 0 <= i < |db.outbox| && db.outbox[i] == e;
    assert i in Carrying(db.outbox, ThreadAggregate(t), e.version);
  }
}
