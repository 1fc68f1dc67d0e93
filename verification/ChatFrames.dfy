/** What every transaction of the chat service leaves in place: the relation between a snapshot
    a call took and any later database. */
module ChatFrames {
  import opened Basics
  import opened ChatModel
  import opened ChatMachine

  /** Rows refer to existing threads. */
  ghost predicate Linked(db: Db) {
    && (forall s | s in db.seats :: s.threadId in db.threads)
    && (forall m | m in db.messages :: db.messages[m].threadId in db.threads)
  }

  ghost predicate SameMember(a: Seats, b: Seats, s: Seat) {
    && (s in a <==> s in b)
    && (s in a ==> a[s].role == b[s].role && a[s].left == b[s].left)
  }

  /** Thread `t` has the same users with the same roles in both tables. */
  ghost predicate SameMembers(a: Seats, b: Seats, t: ThreadId) {
    forall u :: SameMember(a, b, Seat(t, u))
  }

  /** All threads but `t` have the same members in both tables. */
  ghost predicate SameElsewhere(a: Seats, b: Seats, t: ThreadId) {
    forall t' | t' != t :: SameMembers(a, b, t')
  }

  ghost predicate SameEverywhere(a: Seats, b: Seats) {
    forall t :: SameMembers(a, b, t)
  }

  lemma SameMembersSameSets(a: Seats, b: Seats, t: ThreadId)
    requires SameMembers(a, b, t)
    ensures ActiveUsers(a, t) == ActiveUsers(b, t)
    ensures ActiveOwners(a, t) == ActiveOwners(b, t)
  {
    forall u
      ensures u in ActiveUsers(a, t) <==> u in ActiveUsers(b, t)
      ensures u in ActiveOwners(a, t) <==> u in ActiveOwners(b, t)
    {
      assert SameMember(a, b, Seat(t, u));
      MemberOf(a, t, u);
      MemberOf(b, t, u);
    }
  }

  /** Membership in the sets of active users and owners, as a property of one row. */
  lemma MemberOf(seats: Seats, t: ThreadId, u: UserId)
    ensures u in ActiveUsers(seats, t) <==> Active(seats, t, u)
    ensures u in ActiveOwners(seats, t) <==> Active(seats, t, u) && seats[Seat(t, u)].role == Owner
    ensures ActiveOwners(seats, t) <= ActiveUsers(seats, t)
  {
    assert Active(seats, t, u) ==> Seat(t, u) in seats;
  }

  ghost predicate ThreadsGrow(a: map<ThreadId, Thread>, b: map<ThreadId, Thread>) {
    forall t | t in a ::
      && t in b
      && a[t].version <= b[t].version
      && a[t] == b[t].(version := a[t].version, lastMessageAt := a[t].lastMessageAt)
  }

  ghost predicate RowsGrow(a: Seats, b: Seats) {
    forall s | s in a :: s in b && a[s].version <= b[s].version
  }

  ghost predicate MessagesGrow(a: map<MessageId, Message>, b: map<MessageId, Message>) {
    forall m | m in a ::
      && m in b
      && a[m].version <= b[m].version
      && a[m] == b[m].(text := a[m].text, deleted := a[m].deleted, version := a[m].version)
  }

  ghost predicate RecordsGrow(a: map<IdemKey, IdemRecord>, b: map<IdemKey, IdemRecord>) {
    forall k | k in a :: k in b && b[k] == a[k]
  }

  /** An unchanged thread version means an unchanged membership, except for threads of working groups. */
  ghost predicate MembershipVersioned(a: Db, b: Db) {
    forall t | t in a.threads && t in b.threads && a.threads[t].kind != GroupContext
      && a.threads[t].version == b.threads[t].version :: SameMembers(a.seats, b.seats, t)
  }

  /** `b` is a later state of `a`. */
  ghost predicate Extends(a: Db, b: Db) {
    && ThreadsGrow(a.threads, b.threads)
    && RowsGrow(a.seats, b.seats)
    && MessagesGrow(a.messages, b.messages)
    && RecordsGrow(a.idem, b.idem)
    && MembershipVersioned(a, b)
  }

  lemma ExtendsReflexive(a: Db)
    ensures Extends(a, a)
  {
  }

  lemma ExtendsTransitive(a: Db, b: Db, c: Db)
    requires Extends(a, b) && Extends(b, c)
    ensures Extends(a, c)
  {
    forall t | t in a.threads && t in c.threads && a.threads[t].kind != GroupContext && a.threads[t].version == c.threads[t].version
      ensures SameMembers(a.seats, c.seats, t)
    {
      assert b.threads[t].version == a.threads[t].version;
      assert SameMembers(a.seats, b.seats, t) && SameMembers(b.seats, c.seats, t);
      forall u ensures SameMember(a.seats, c.seats, Seat(t, u)) {
        assert SameMember(a.seats, b.seats, Seat(t, u)) && SameMember(b.seats, c.seats, Seat(t, u));
      }
    }
  }

  /** The rows of a new thread leave the members of all other threads alone. */
  lemma NewSeatsFrame(db: Db, t: ThreadId, users: set<UserId>, lead: UserId, leadRole: Role)
    requires Linked(db) && t !in db.threads
    ensures var seats := db.seats + NewSeats(t, users, lead, leadRole);
      && RowsGrow(db.seats, seats)
      && (forall s | s in db.seats :: seats[s] == db.seats[s])
      && (forall s :: s in seats <==> s in db.seats || (s.threadId == t && s.userId in users))
      && SameElsewhere(db.seats, seats, t)
  {
    var added := NewSeats(t, users, lead, leadRole);
    var seats := db.seats + added;
    forall s
      ensures s in seats <==> s in db.seats || (s.threadId == t && s.userId in users)
      ensures s in db.seats ==> seats[s] == db.seats[s]
    {
      assert s == Seat(s.threadId, s.userId);
      assert s in added <==> s.threadId == t && s.userId in users;
    }
  }

  /** A thread that `groupThread` is about to join belongs to a working group. */
  ghost predicate JoinsGroup(db: Db, p: Phase) {
    p.Opening? && p.existing.Some? ==> p.existing.value in db.threads && db.threads[p.existing.value].kind == GroupContext
  }

  /** Writing one participant row touches the membership of its own thread at most. */
  lemma SeatFrame(seats: Seats, s: Seat, row: Participant)
    requires s in seats ==> seats[s].version <= row.version
    ensures RowsGrow(seats, seats[s := row])
    ensures SameElsewhere(seats, seats[s := row], s.threadId)
    ensures s in seats && row.role == seats[s].role && row.left == seats[s].left ==>
              SameEverywhere(seats, seats[s := row])
  {
  }

  lemma JoinExtends(db: Db, r: Request, view: GroupView, t: ThreadId, after: Db)
    requires Linked(db) && r.OpenGroup? && JoinTx(db, r, view, t) == Committed(after)
    requires db.threads[t].kind == GroupContext
    ensures Linked(after) && Extends(db, after)
  {
    var s := Seat(t, r.actor.userId);
    SeatFrame(db.seats, s, after.seats[s]);
    assert after.seats == db.seats[s := after.seats[s]];
  }

  /** A transaction that bumps thread `t` and writes at most the row `s` of it. */
  lemma BumpExtends(db: Db, after: Db, t: ThreadId, s: Seat, row: Participant)
    requires Linked(db) && t in db.threads && s.threadId == t
    requires t in after.threads && after.threads == db.threads[t := after.threads[t]]
    requires ThreadsGrow(map[t := db.threads[t]], map[t := after.threads[t]])
    requires after.threads[t].version > db.threads[t].version
    requires s in db.seats ==> db.seats[s].version <= row.version
    requires after.seats == db.seats[s := row] || after.seats == db.seats
    requires MessagesGrow(db.messages, after.messages) && RecordsGrow(db.idem, after.idem)
    requires forall m | m in after.messages :: after.messages[m].threadId in db.threads
    ensures Linked(after) && Extends(db, after)
  {
    SeatFrame(db.seats, s, row);
    assert ThreadsGrow(db.threads, after.threads) by {
      assert t in map[t := db.threads[t]];
    }
  }

  lemma RewriteExtends(db: Db, m: MessageId, expectedRow: nat, text: Option<string>)
    requires Linked(db) && RewriteTx(db, m, expectedRow, text).Committed?
    ensures Linked(RewriteTx(db, m, expectedRow, text).db)
    ensures Extends(db, RewriteTx(db, m, expectedRow, text).db)
  {
    var t := db.messages[m].threadId;
    BumpExtends(db, RewriteTx(db, m, expectedRow, text).db, t, Seat(t, 0),
                if Seat(t, 0) in db.seats then db.seats[Seat(t, 0)] else Participant(Member, false, false, None, 1));
  }

  lemma PostExtends(db: Db, r: Request, m: MessageId, now: Time)
    requires Linked(db) && r.Post? && PostTx(db, r, m, now).Committed?
    ensures Linked(PostTx(db, r, m, now).db) && Extends(db, PostTx(db, r, m, now).db)
  {
    var s := Seat(r.threadId, r.actor.userId);
    var after := PostTx(db, r, m, now).db;
    BumpExtends(db, after, r.threadId, s, after.seats[s]);
  }

  lemma AddExtends(db: Db, r: Request, hadRow: bool)
    requires Linked(db) && r.Add? && AddTx(db, r, hadRow).Committed?
    ensures Linked(AddTx(db, r, hadRow).db) && Extends(db, AddTx(db, r, hadRow).db)
  {
    var after := AddTx(db, r, hadRow).db;
    BumpExtends(db, after, r.threadId, Seat(r.threadId, r.target), after.seats[Seat(r.threadId, r.target)]);
  }

  lemma SetRoleExtends(db: Db, r: Request)
    requires Linked(db) && r.SetRole? && SetRoleTx(db, r).Committed?
    ensures Linked(SetRoleTx(db, r).db) && Extends(db, SetRoleTx(db, r).db)
  {
    var after := SetRoleTx(db, r).db;
    BumpExtends(db, after, r.threadId, Seat(r.threadId, r.target), after.seats[Seat(r.threadId, r.target)]);
  }

  lemma RemoveExtends(db: Db, r: Request)
    requires Linked(db) && r.Remove? && RemoveTx(db, r).Committed?
    ensures Linked(RemoveTx(db, r).db) && Extends(db, RemoveTx(db, r).db)
  {
    var after := RemoveTx(db, r).db;
    BumpExtends(db, after, r.threadId, Seat(r.threadId, r.target), after.seats[Seat(r.threadId, r.target)]);
  }

  /** A transaction that only writes one row and keeps its role and membership. */
  lemma RowExtends(db: Db, after: Db, s: Seat)
    requires Linked(db) && s in db.seats && s in after.seats && after.seats == db.seats[s := after.seats[s]]
    requires db.seats[s].version <= after.seats[s].version
    requires after.seats[s].role == db.seats[s].role && after.seats[s].left == db.seats[s].left
    requires after.threads == db.threads && after.messages == db.messages && after.idem == db.idem
    ensures Linked(after) && Extends(db, after)
  {
    SeatFrame(db.seats, s, after.seats[s]);
  }

  lemma CommitExtends(db: Db, r: Request, seen: Db, e: Env)
    requires Linked(db) && !r.CreateThread? && !r.OpenGroup? && Commit(db, r, seen, e).Committed?
    ensures Linked(Commit(db, r, seen, e).db)
    ensures Extends(db, Commit(db, r, seen, e).db)
  {
    var after := Commit(db, r, seen, e).db;
    match r {
      case Post(_, _, _, _, _, _) => PostExtends(db, r, e.newId, e.now);
      case Add(_, _, _, _, _, _) => AddExtends(db, r, Seat(r.threadId, r.target) in seen.seats);
      case SetRole(_, _, _, _, _, _) => SetRoleExtends(db, r);
      case Remove(_, _, _, _, _) => RemoveExtends(db, r);
      case Edit(_, m, _, _) => RewriteExtends(db, m, r.expectedRow, Some(r.text));
      case Delete(_, m, _) => RewriteExtends(db, m, r.expectedRow, None);
      case MarkRead(_, t, _) => RowExtends(db, after, Seat(t, r.actor.userId));
      case Prefer(_, t, _, _) => RowExtends(db, after, Seat(t, r.actor.userId));
    }
  }

  lemma CreateExtends(db: Db, r: Request, t: ThreadId, now: Time)
    requires Linked(db) && WellFormedCreate(r) && CreateTx(db, r, t, now).Committed?
    ensures Linked(CreateTx(db, r, t, now).db) && Extends(db, CreateTx(db, r, t, now).db)
  {
    NewSeatsFrame(db, t, Others(r) + {r.actor.userId}, r.actor.userId, if r.direct then Member else Owner);
  }

  lemma OpenExtends(db: Db, r: Request, view: GroupView, t: ThreadId, now: Time)
    requires Linked(db) && r.OpenGroup? && OpenTx(db, r, view, t, now).Committed?
    ensures Linked(OpenTx(db, r, view, t, now).db) && Extends(db, OpenTx(db, r, view, t, now).db)
  {
    NewSeatsFrame(db, t, view.members, view.ownerId, Owner);
  }

  lemma UpsertExtends(db: Db, r: Request, t: ThreadId)
    requires Linked(db) && Keyed(r) && UpsertTx(db, r, t).Committed?
    ensures Linked(UpsertTx(db, r, t).db) && Extends(db, UpsertTx(db, r, t).db)
  {}

  /** Every step of every call leads to a later state, and keeps rows linked. */
  lemma ProgressExtends(db: Db, c: Call, e: Env)
    requires Linked(db) && Fits(c.request, c.phase) && JoinsGroup(db, c.phase)
    ensures Linked(Progress(db, c, e).db)
    ensures Extends(db, Progress(db, c, e).db)
  {
    var r := c.request;
    var after := Progress(db, c, e).db;
    if after != db {
      match c.phase {
        case Checked(seen) => CommitExtends(db, r, seen, e);
        case Cleared(seen) => CommitExtends(db, r, seen, e);
        case Inserting => CreateExtends(db, r, e.newId, e.now);
        case Found(t) => UpsertExtends(db, r, t);
        case Opening(view, existing) =>
          if existing.None? {
            OpenExtends(db, r, view, e.newId, e.now);
          } else {
            JoinExtends(db, r, view, existing.value, after);
          }
      }
    }
  }
}
