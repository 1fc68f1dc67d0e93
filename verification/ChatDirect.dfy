/** Direct conversations: a pair of users of a company shares at most one. */
module ChatDirect {
  import opened Basics
  import opened ChatModel
  import opened ChatMachine
  import opened ChatFrames
  import opened ChatSafety

  /** A direct conversation has a key, and its members are exactly the pair of that key. */
  ghost predicate DirectThread(db: Db, t: ThreadId)
    requires t in db.threads
  {
    var th := db.threads[t];
    if th.kind == Direct then
      && th.directKey.Some?
      && th.directKey.value.companyId == th.companyId
      && th.directKey.value.low < th.directKey.value.high
      && ActiveUsers(db.seats, t) == {th.directKey.value.low, th.directKey.value.high}
    else th.directKey.None?
  }

  ghost predicate DirectKeysUnique(threads: map<ThreadId, Thread>) {
    forall t, t' | t in threads && t' in threads && threads[t].directKey.Some? && threads[t].directKey == threads[t'].directKey :: t == t'
  }

  ghost predicate DirectsOk(db: Db) {
    && DirectKeysUnique(db.threads)
    && forall t | t in db.threads :: DirectThread(db, t)
  }

  lemma DirectsFrame(db: Db, after: Db, t: ThreadId)
    requires DirectsOk(db) && SameElsewhere(db.seats, after.seats, t)
    requires after.threads.Keys == db.threads.Keys && ThreadsGrow(db.threads, after.threads)
    requires t in db.threads ==> db.threads[t].kind != Direct || ActiveUsers(after.seats, t) == ActiveUsers(db.seats, t)
    ensures DirectsOk(after)
  {
    forall t' | t' in after.threads ensures DirectThread(after, t') {
      assert t' in db.threads && DirectThread(db, t');
      if t' != t {
        SameMembersSameSets(db.seats, after.seats, t');
      }
    }
  }

  /** A managing request that passed its checks concerns a collaborative thread. */
  lemma ManagedKind(db: Db, r: Request, seen: Db)
    requires Managing(r) && Passed(seen, r) && Extends(seen, db)
    ensures r.threadId in db.threads && Collaborative(db.threads[r.threadId].kind)
  {
  }

  lemma ManagedDirects(db: Db, r: Request, seen: Db, e: Env)
    requires Managing(r) && Commit(db, r, seen, e).Committed?
    requires DirectsOk(db) && Extends(seen, db) && Passed(seen, r)
    ensures DirectsOk(Commit(db, r, seen, e).db)
  {
    ManagedKind(db, r, seen);
    MemberRowDirects(db, Commit(db, r, seen, e).db, Seat(r.threadId, r.target));
  }

  /** The only commits that change who sits in a thread are those of collaborative threads. */
  lemma CommitDirects(db: Db, r: Request, seen: Db, e: Env)
    requires !r.CreateThread? && !r.OpenGroup? && Commit(db, r, seen, e).Committed?
    requires DirectsOk(db) && Extends(seen, db) && Passed(seen, r)
    ensures DirectsOk(Commit(db, r, seen, e).db)
  {
    if Managing(r) {
      ManagedDirects(db, r, seen, e);
    } else {
      OtherDirects(db, r, seen, e);
    }
  }

  lemma OtherDirects(db: Db, r: Request, seen: Db, e: Env)
    requires !r.CreateThread? && !r.OpenGroup? && !Managing(r) && Commit(db, r, seen, e).Committed? && DirectsOk(db)
    ensures DirectsOk(Commit(db, r, seen, e).db)
  {
    var after := Commit(db, r, seen, e).db;
    match r {
      case Post(_, _, t, _, _, _) => RowDirects(db, after, Seat(t, r.actor.userId));
      case Edit(_, m, _, _) => DirectsFrame(db, after, db.messages[m].threadId);
      case Delete(_, m, _) => DirectsFrame(db, after, db.messages[m].threadId);
      case MarkRead(_, t, _) => RowDirects(db, after, Seat(t, r.actor.userId));
      case Prefer(_, t, _, _) => RowDirects(db, after, Seat(t, r.actor.userId));
    }
  }

  lemma MemberRowDirects(db: Db, after: Db, s: Seat)
    requires DirectsOk(db) && s in after.seats && after.seats == db.seats[s := after.seats[s]]
    requires s in db.seats ==> db.seats[s].version <= after.seats[s].version
    requires s.threadId in db.threads && db.threads[s.threadId].kind != Direct
    requires after.threads.Keys == db.threads.Keys && ThreadsGrow(db.threads, after.threads)
    ensures DirectsOk(after)
  {
    SeatFrame(db.seats, s, after.seats[s]);
    DirectsFrame(db, after, s.threadId);
  }

  lemma RowDirects(db: Db, after: Db, s: Seat)
    requires DirectsOk(db) && s in db.seats && s in after.seats && after.seats == db.seats[s := after.seats[s]]
    requires db.seats[s].version <= after.seats[s].version
    requires after.seats[s].role == db.seats[s].role && after.seats[s].left == db.seats[s].left
    requires after.threads.Keys == db.threads.Keys && ThreadsGrow(db.threads, after.threads)
    ensures DirectsOk(after)
  {
    SeatFrame(db.seats, s, after.seats[s]);
    SameMembersSameSets(db.seats, after.seats, s.threadId);
    DirectsFrame(db, after, s.threadId);
  }

  lemma NewThreadDirects(db: Db, after: Db, t: ThreadId)
    requires DirectsOk(db) && t !in db.threads && SameElsewhere(db.seats, after.seats, t)
    requires t in after.threads && after.threads == db.threads[t := after.threads[t]]
    requires after.threads[t].directKey.Some? ==> !HasDirect(db.threads, after.threads[t].directKey.value)
    requires DirectThread(after, t)
    ensures DirectsOk(after)
  {
    forall t' | t' in after.threads ensures DirectThread(after, t') {
      if t' != t {
        assert DirectThread(db, t');
        SameMembersSameSets(db.seats, after.seats, t');
      }
    }
  }

  /** The rows of a new thread make exactly its users active. */
  lemma NewSeatsActive(db: Db, t: ThreadId, users: set<UserId>, lead: UserId, leadRole: Role)
    requires Linked(db) && t !in db.threads
    ensures ActiveUsers(db.seats + NewSeats(t, users, lead, leadRole), t) == users
  {
    NewSeatsFrame(db, t, users, lead, leadRole);
    var added := NewSeats(t, users, lead, leadRole);
    forall v ensures v in ActiveUsers(db.seats + added, t) <==> v in users {
      MemberOf(db.seats + added, t, v);
      assert Seat(t, v) in db.seats + added <==> v in users;
      assert v in users ==> Seat(t, v) in added;
    }
  }

  lemma CreateDirects(db: Db, r: Request, t: ThreadId, now: Time)
    requires Linked(db) && WellFormedCreate(r) && DirectsOk(db) && CreateTx(db, r, t, now).Committed?
    ensures DirectsOk(CreateTx(db, r, t, now).db)
  {
    var after := CreateTx(db, r, t, now).db;
    var role := if r.direct then Member else Owner;
    NewSeatsFrame(db, t, Others(r) + {r.actor.userId}, r.actor.userId, role);
    NewSeatsActive(db, t, Others(r) + {r.actor.userId}, r.actor.userId, role);
    if r.direct {
      var p := Peer(r);
      assert p in Others(r) && p != r.actor.userId;
    }
    NewThreadDirects(db, after, t);
  }

  lemma JoinDirects(db: Db, r: Request, view: GroupView, t: ThreadId, after: Db)
    requires DirectsOk(db) && r.OpenGroup? && JoinTx(db, r, view, t) == Committed(after)
    requires db.threads[t].kind == GroupContext
    ensures DirectsOk(after)
  {
    var s := Seat(t, r.actor.userId);
    assert after.seats == db.seats[s := after.seats[s]];
    MemberRowDirects(db, after, s);
  }

  lemma OpenDirects(db: Db, r: Request, view: GroupView, t: ThreadId, now: Time, after: Db)
    requires Linked(db) && DirectsOk(db) && r.OpenGroup? && OpenTx(db, r, view, t, now) == Committed(after)
    ensures DirectsOk(after)
  {
    NewSeatsFrame(db, t, view.members, view.ownerId, Owner);
    NewThreadDirects(db, after, t);
  }

  /** Steps of `groupThread` that write. */
  lemma OpeningDirects(db: Db, c: Call, e: Env)
    requires Linked(db) && Grounded(db, c) && DirectsOk(db) && c.phase.Opening?
    ensures DirectsOk(Progress(db, c, e).db)
  {
    var after := Progress(db, c, e).db;
    if after != db {
      if c.phase.existing.None? {
        OpenDirects(db, c.request, c.phase.view, e.newId, e.now, after);
      } else {
        JoinDirects(db, c.request, c.phase.view, c.phase.existing.value, after);
      }
    }
  }

  /** Steps of `create` that write. */
  lemma CreatingDirects(db: Db, c: Call, e: Env)
    requires Linked(db) && Grounded(db, c) && DirectsOk(db) && (c.phase.Inserting? || c.phase.Found?)
    ensures DirectsOk(Progress(db, c, e).db)
  {
    var after := Progress(db, c, e).db;
    if after != db {
      if c.phase.Inserting? {
        CreateDirects(db, c.request, e.newId, e.now);
      } else {
        DirectsFrame(db, after, c.phase.threadId);
      }
    }
  }

  /** Steps that commit on a snapshot. */
  lemma SnapshotDirects(db: Db, c: Call, e: Env)
    requires Grounded(db, c) && DirectsOk(db) && (c.phase.Checked? || c.phase.Cleared?)
    ensures DirectsOk(Progress(db, c, e).db)
  {
    if Progress(db, c, e).db != db {
      CommitDirects(db, c.request, c.phase.seen, e);
    }
  }

  lemma ProgressDirects(db: Db, c: Call, e: Env)
    requires Linked(db) && Grounded(db, c) && DirectsOk(db)
    ensures DirectsOk(Progress(db, c, e).db)
  {
    match c.phase {
      case Checked(_) => SnapshotDirects(db, c, e);
      case Cleared(_) => SnapshotDirects(db, c, e);
      case Inserting => CreatingDirects(db, c, e);
      case Found(_) => CreatingDirects(db, c, e);
      case Opening(_, _) => OpeningDirects(db, c, e);
      case _ =>
    }
  }

  /** A creation that finds its pair taken when it inserts answers with the conversation of the pair, whatever happens in between. */
  lemma LostRaceRecovers(db: Db, later: Db, last: Db, r: Request, e: Env, e': Env, e'': Env)
    requires WellFormedCreate(r) && r.direct && HasDirect(db.threads, DirectKeyOf(r)) && Extends(db, later)
    ensures Progress(db, Call(r, Inserting), e) == Move(db, Recovering)
    ensures var found := Progress(later, Call(r, Recovering), e');
      && found.db == later && found.phase.Found? && found.phase.threadId in later.threads
      && later.threads[found.phase.threadId].directKey == Some(DirectKeyOf(r))
      && (!e''.fault ==> Progress(last, Call(r, found.phase), e'').phase == Done(Existing(found.phase.threadId)))
  {
    var t :| t in db.threads && db.threads[t].directKey == Some(DirectKeyOf(r));
    assert t in later.threads && later.threads[t].directKey == Some(DirectKeyOf(r));
    assert HasDirect(later.threads, DirectKeyOf(r));
  }

  /** An answer with an existing conversation is on record: every later retry of the request gets the same one. */
  lemma ExistingReplays(db: Db, later: Db, r: Request, t: ThreadId, e: Env, e': Env)
    requires WellFormedCreate(r) && r.direct && KeyOf(r) !in db.idem && Others(r) <= e'.directory
    requires Progress(db, Call(r, Found(t)), e).phase == Done(Existing(t))
    requires Extends(Progress(db, Call(r, Found(t)), e).db, later)
    ensures Progress(later, Call(r, Asked), e') == Move(later, Done(Replayed(t)))
  {
    assert KeyOf(r) in Progress(db, Call(r, Found(t)), e).db.idem;
  }
}
