/** What single transactions do to read markers and unread counts. */
module ReadMarkers {
  import opened Basics
  import opened ChatModel
  import opened ChatMachine
  import opened ChatFrames

  /** Message `m` sorts after the marker of seat `s`; a marker that is not set or points nowhere is before every message. */
  predicate Ahead(db: Db, s: Seat, time: Time, m: MessageId)
    requires s in db.seats
  {
    var marker := db.seats[s].marker;
    marker.None? || marker.value !in db.messages || After(time, m, db.messages[marker.value].createdAt, marker.value)
  }

  predicate IsUnread(db: Db, s: Seat, m: MessageId)
    requires s in db.seats && m in db.messages
  {
    && db.messages[m].threadId == s.threadId
    && !db.messages[m].deleted
    && db.messages[m].authorId != s.userId
    && Ahead(db, s, db.messages[m].createdAt, m)
  }

  function Unread(db: Db, s: Seat): set<MessageId>
    requires s in db.seats
  {
    set m | m in db.messages && IsUnread(db, s, m)
  }

  /** A marker points at a message of its own thread. */
  ghost predicate MarkersOk(db: Db) {
    forall s | s in db.seats && db.seats[s].marker.Some? ::
      db.seats[s].marker.value in db.messages && db.messages[db.seats[s].marker.value].threadId == s.threadId
  }

  /** A message drawn now with this identifier sorts after every message of the thread. */
  ghost predicate Newest(db: Db, t: ThreadId, now: Time, id: MessageId) {
    forall m | m in db.messages && db.messages[m].threadId == t :: After(now, id, db.messages[m].createdAt, m)
  }

  // ----- Single operations -----

  /** Posting adds the new message to the unread ones of exactly those other users whose marker it sorts after,
      and leaves the author with exactly the messages of others that sort after it. */
  lemma PostUnread(db: Db, r: Request, m: MessageId, now: Time, s: Seat)
    requires r.Post? && PostTx(db, r, m, now).Committed? && MarkersOk(db) && s in db.seats
    ensures var after := PostTx(db, r, m, now).db;
      && MarkersOk(after) && s in after.seats
      && (s.threadId != r.threadId ==> Unread(after, s) == Unread(db, s))
      && (s.threadId == r.threadId && s.userId != r.actor.userId ==>
            Unread(after, s) == Unread(db, s) + if Ahead(db, s, now, m) then {m} else {})
      && (s == Seat(r.threadId, r.actor.userId) ==>
            Unread(after, s) == set x | x in db.messages && db.messages[x].threadId == r.threadId && !db.messages[x].deleted
                                  && db.messages[x].authorId != r.actor.userId && After(db.messages[x].createdAt, x, now, m))
  {
    var after := PostTx(db, r, m, now).db;
    forall x | x in db.messages
      ensures s != Seat(r.threadId, r.actor.userId) ==> (IsUnread(after, s, x) <==> IsUnread(db, s, x))
    {
    }
  }

  /** With a message that sorts after the thread's messages, the author's count becomes 0 and every other count of the thread
      grows by exactly 1; no count of another thread changes. */
  lemma PostCounts(db: Db, r: Request, m: MessageId, now: Time, s: Seat)
    requires r.Post? && PostTx(db, r, m, now).Committed? && MarkersOk(db) && s in db.seats && Newest(db, r.threadId, now, m)
    ensures var after := PostTx(db, r, m, now).db;
      && s in after.seats
      && |Unread(after, s)| ==
           if s.threadId != r.threadId then |Unread(db, s)|
           else if s.userId == r.actor.userId then 0
           else |Unread(db, s)| + 1
  {
    PostUnread(db, r, m, now, s);
    assert m !in Unread(db, s);
    if s == Seat(r.threadId, r.actor.userId) {
      assert Unread(PostTx(db, r, m, now).db, s) == {};
    }
  }

  /** Whether the author's count becomes 0, and whether another user's count grows, depends on the order of the new message alone. */
  lemma PostCountsExact(db: Db, r: Request, m: MessageId, now: Time, s: Seat)
    requires r.Post? && PostTx(db, r, m, now).Committed? && MarkersOk(db) && s in db.seats && s.threadId == r.threadId
    ensures var after := PostTx(db, r, m, now).db;
      && s in after.seats
      && (s.userId == r.actor.userId ==>
            (|Unread(after, s)| == 0 <==>
              forall x | x in db.messages && db.messages[x].threadId == r.threadId && !db.messages[x].deleted
                && db.messages[x].authorId != r.actor.userId :: !After(db.messages[x].createdAt, x, now, m)))
      && (s.userId != r.actor.userId ==> (|Unread(after, s)| == |Unread(db, s)| + 1 <==> Ahead(db, s, now, m)))
  {
    PostUnread(db, r, m, now, s);
    var after := PostTx(db, r, m, now).db;
    assert m !in Unread(db, s);
    if s.userId == r.actor.userId {
      assert |Unread(after, s)| == 0 <==> Unread(after, s) == {};
      forall x | x in db.messages && db.messages[x].threadId == r.threadId && !db.messages[x].deleted
        && db.messages[x].authorId != r.actor.userId && After(db.messages[x].createdAt, x, now, m)
        ensures x in Unread(after, s)
      {
      }
    }
  }

  /** Message 9 of user 2 was written at time 5; user 3 has read it, user 1 has not. */
  function Tied(): Db {
    var row := Participant(Member, false, false, None, 1);
    Db(map[10 := Thread(Group, 7, None, None, 1, Some(5), 0)],
       map[Seat(10, 1) := row, Seat(10, 3) := row.(marker := Some(9))],
       map[9 := Message(10, 2, "a", None, 5, false, 1)], map[], [])
  }

  /** User 1 posts message 4 at time 5: the older identifier loses the tie, so message 9 stays unread for the author, and
      user 3, who has read message 9, does not see the new one as unread. */
  lemma TiedPostMiscounts()
    ensures var r := Post(Actor(1, false, {7}), 0, 10, "b", None, []);
      var tx := PostTx(Tied(), r, 4, 5);
      && MarkersOk(Tied()) && tx.Committed?
      && Seat(10, 1) in tx.db.seats && Unread(tx.db, Seat(10, 1)) == {9}
      && Seat(10, 3) in tx.db.seats && Unread(tx.db, Seat(10, 3)) == Unread(Tied(), Seat(10, 3)) == {}
  {
    var r := Post(Actor(1, false, {7}), 0, 10, "b", None, []);
    PostUnread(Tied(), r, 4, 5, Seat(10, 1));
    PostUnread(Tied(), r, 4, 5, Seat(10, 3));
  }

  /** Marking as read, checked and written on the same database, moves the marker forward and never raises a count. */
  lemma MarkReadUnread(db: Db, r: Request, e: Env, s: Seat)
    requires r.MarkRead? && ReviewMarkRead(db, r, e).Proceed? && MarkersOk(db) && s in db.seats
    requires MarkReadTx(db, r).Committed?
    ensures var after := MarkReadTx(db, r).db;
      && MarkersOk(after) && s in after.seats
      && (s == Seat(r.threadId, r.actor.userId) ==>
            Unread(after, s) == set x | x in Unread(db, s) && After(db.messages[x].createdAt, x, db.messages[r.messageId].createdAt, r.messageId))
      && (s != Seat(r.threadId, r.actor.userId) ==> Unread(after, s) == Unread(db, s))
      && |Unread(after, s)| <= |Unread(db, s)|
  {
    var after := MarkReadTx(db, r).db;
    forall x | x in db.messages && s != Seat(r.threadId, r.actor.userId) ensures IsUnread(after, s, x) <==> IsUnread(db, s, x) {
    }
    assert Unread(after, s) <= Unread(db, s);
    SubsetSize(Unread(after, s), Unread(db, s));
  }

  /** Deleting a message lowers by 1 exactly the counts that included it; editing changes none. */
  lemma RewriteUnread(db: Db, m: MessageId, expectedRow: nat, text: Option<string>, s: Seat)
    requires RewriteTx(db, m, expectedRow, text).Committed? && MarkersOk(db) && s in db.seats
    ensures var after := RewriteTx(db, m, expectedRow, text).db;
      && MarkersOk(after) && s in after.seats
      && Unread(after, s) == (if text.Some? then Unread(db, s) else Unread(db, s) - {m})
      && |Unread(after, s)| == |Unread(db, s)| - if text.None? && m in Unread(db, s) then 1 else 0
  {
    var after := RewriteTx(db, m, expectedRow, text).db;
    forall x | x in db.messages ensures IsUnread(after, s, x) <==> IsUnread(db, s, x) && (text.Some? || x != m) {
    }
  }

  // ----- Markers -----

  /** The marker of `s` stands where it stood, or further on. */
  ghost predicate MarkerForward(a: Db, b: Db, s: Seat)
    requires s in a.seats
  {
    && s in b.seats
    && (a.seats[s].marker.Some? && a.seats[s].marker.value in a.messages ==>
          && b.seats[s].marker.Some? && b.seats[s].marker.value in b.messages
          && var was, now := a.seats[s].marker.value, b.seats[s].marker.value;
             !After(a.messages[was].createdAt, was, b.messages[now].createdAt, now))
  }

  lemma MarkerForwardTransitive(a: Db, b: Db, c: Db, s: Seat)
    requires s in a.seats && MarkerForward(a, b, s) && MarkerForward(b, c, s)
    ensures MarkerForward(a, c, s)
  {
  }

  lemma SameMarkers(a: Db, b: Db, s: Seat)
    requires MarkersOk(a) && MessagesGrow(a.messages, b.messages) && s in a.seats
    requires s in b.seats && b.seats[s].marker == a.seats[s].marker
    ensures MarkerForward(a, b, s)
  {
  }

  /** Seat `s` keeps its marker, and new rows have none. */
  ghost predicate SameMarker(a: Db, b: Db, s: Seat) {
    if s in a.seats then s in b.seats && b.seats[s].marker == a.seats[s].marker
    else s in b.seats ==> b.seats[s].marker == None
  }

  lemma CommitMarkers(db: Db, r: Request, seen: Db, e: Env, s: Seat)
    requires !r.CreateThread? && !r.OpenGroup? && !r.Post? && !r.MarkRead? && Commit(db, r, seen, e).Committed?
    ensures SameMarker(db, Commit(db, r, seen, e).db, s)
  {}

  lemma CreateMarkers(db: Db, r: Request, t: ThreadId, now: Time, s: Seat)
    requires Linked(db) && WellFormedCreate(r) && CreateTx(db, r, t, now).Committed?
    ensures SameMarker(db, CreateTx(db, r, t, now).db, s)
  {
    NewSeatsFrame(db, t, Others(r) + {r.actor.userId}, r.actor.userId, if r.direct then Member else Owner);
  }

  lemma OpenMarkers(db: Db, r: Request, view: GroupView, t: ThreadId, now: Time, s: Seat)
    requires Linked(db) && r.OpenGroup? && OpenTx(db, r, view, t, now).Committed?
    ensures SameMarker(db, OpenTx(db, r, view, t, now).db, s)
  {
    NewSeatsFrame(db, t, view.members, view.ownerId, Owner);
  }

  lemma JoinMarkers(db: Db, r: Request, view: GroupView, t: ThreadId, s: Seat)
    requires r.OpenGroup? && JoinTx(db, r, view, t).Committed?
    ensures SameMarker(db, JoinTx(db, r, view, t).db, s)
  {}

  /** Only posting and marking as read write markers, and only that of the caller. */
  lemma ProgressMarkers(db: Db, c: Call, e: Env, s: Seat)
    requires Linked(db) && Fits(c.request, c.phase) && !c.request.Post? && !c.request.MarkRead?
    ensures SameMarker(db, Progress(db, c, e).db, s)
  {
    if Progress(db, c, e).db != db {
      match c.phase {
        case Checked(seen) => CommitMarkers(db, c.request, seen, e, s);
        case Cleared(seen) => CommitMarkers(db, c.request, seen, e, s);
        case Inserting => CreateMarkers(db, c.request, e.newId, e.now, s);
        case Found(_) =>
        case Opening(view, existing) =>
          if existing.None? {
            OpenMarkers(db, c.request, view, e.newId, e.now, s);
          } else {
            JoinMarkers(db, c.request, view, existing.value, s);
          }
      }
    }
  }

  lemma MarkersStayOk(a: Db, b: Db)
    requires MarkersOk(a) && MessagesGrow(a.messages, b.messages) && forall s :: SameMarker(a, b, s)
    ensures MarkersOk(b)
  {
    forall s | s in b.seats && b.seats[s].marker.Some?
      ensures b.seats[s].marker.value in b.messages && b.messages[b.seats[s].marker.value].threadId == s.threadId
    {
      assert SameMarker(a, b, s);
    }
  }

  lemma StepKeepsMarkers(db: Db, c: Call, e: Env)
    requires Linked(db) && MarkersOk(db) && Fits(c.request, c.phase) && JoinsGroup(db, c.phase)
    requires !c.request.Post? && !c.request.MarkRead?
    ensures var move := Progress(db, c, e);
      Linked(move.db) && MarkersOk(move.db) && MessagesGrow(db.messages, move.db.messages) && forall s :: SameMarker(db, move.db, s)
  {
    ProgressExtends(db, c, e);
    forall s ensures SameMarker(db, Progress(db, c, e).db, s) {
      ProgressMarkers(db, c, e, s);
    }
    MarkersStayOk(db, Progress(db, c, e).db);
  }

  /** A post keeps the marker of its author from moving back if and only if the marker does not sort after the new message. */
  lemma PostMarkerExact(db: Db, r: Request, m: MessageId, now: Time)
    requires r.Post? && PostTx(db, r, m, now).Committed? && MarkersOk(db)
    ensures MarkerForward(db, PostTx(db, r, m, now).db, Seat(r.threadId, r.actor.userId))
      <==> Ahead(db, Seat(r.threadId, r.actor.userId), now, m)
  {
    var s := Seat(r.threadId, r.actor.userId);
    assert db.seats[s].marker.Some? ==> db.seats[s].marker.value != m;
  }

  /** Two markings of one user and thread that were checked on the same database may commit in either order. Neither order
      moves the marker back if and only if they mark the same message. */
  lemma ConcurrentMarkReadExact(db: Db, r: Request, r': Request, e: Env)
    requires r.MarkRead? && r'.MarkRead? && r.threadId == r'.threadId && r.actor == r'.actor
    requires ReviewMarkRead(db, r, e).Proceed? && ReviewMarkRead(db, r', e).Proceed? && MarkersOk(db)
    ensures MarkReadTx(db, r).Committed? && MarkReadTx(db, r').Committed?
    ensures MarkReadTx(MarkReadTx(db, r).db, r').Committed? && MarkReadTx(MarkReadTx(db, r').db, r).Committed?
    ensures var s := Seat(r.threadId, r.actor.userId);
      (MarkerForward(MarkReadTx(db, r).db, MarkReadTx(MarkReadTx(db, r).db, r').db, s)
       && MarkerForward(MarkReadTx(db, r').db, MarkReadTx(MarkReadTx(db, r').db, r).db, s))
      <==> r.messageId == r'.messageId
  {}
}
