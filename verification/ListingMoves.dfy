/** A post seen from the unread listing: what its thread shows, where it moves, and what stays. */
module ListingMoves {
  import opened Basics
  import opened OrderedRows
  import opened ThreadListing

  /** The listing's row of a thread of the chat tables. */
  function RowOf(chat: ChatModel.Db, id: nat): Thread
    requires id in chat.threads
  {
    var th := chat.threads[id];
    Thread(id, th.companyId, th.groupId, th.lastMessageAt, th.createdAt)
  }

  /** The table of the listing holds exactly one row for each thread of the chat tables, in any order. */
  ghost predicate Derived(db: Db) {
    && UniqueIds(db)
    && (forall t | t in db.threads :: t.id in db.chat.threads && t == RowOf(db.chat, t.id))
    && (forall id | id in db.chat.threads :: RowOf(db.chat, id) in db.threads)
  }

  /** The post of `r` takes the listing's tables from `db` to `after`. */
  ghost predicate Posted(db: Db, after: Db, r: ChatModel.Request, m: nat, now: nat) {
    && r.Post? && ChatModel.PostTx(db.chat, r, m, now) == ChatModel.Committed(after.chat)
    && Derived(db) && Derived(after)
    && ReadMarkers.MarkersOk(db.chat) && ReadMarkers.Newest(db.chat, r.threadId, now, m)
  }

  function SeatOf(t: Thread, p: Caller): ChatModel.Seat {
    ChatModel.Seat(t.id, p.userId)
  }

  // ----- Sequences without a thread -----

  function Without(items: seq<Item>, id: nat): seq<Item> {
    if items == [] then []
    else if items[0].thread.id == id then Without(items[1..], id)
    else [items[0]] + Without(items[1..], id)
  }

  function RowsWithout(rows: seq<Thread>, id: nat): seq<Thread> {
    if rows == [] then []
    else if rows[0].id == id then RowsWithout(rows[1..], id)
    else [rows[0]] + RowsWithout(rows[1..], id)
  }

  predicate InOrder(rows: seq<Thread>) {
    forall i, j | 0 <= i < j < |rows| :: Less(Place(rows[j]), Place(rows[i]))
  }

  lemma {:induction false} WithoutMember(rows: seq<Thread>, id: nat, t: Thread)
    ensures t in RowsWithout(rows, id) <==> t in rows && t.id != id
  {
    if rows != [] {
      WithoutMember(rows[1..], id, t);
      assert rows == [rows[0]] + rows[1..];
    }
  }

  lemma OrderTail(rows: seq<Thread>)
    requires InOrder(rows) && rows != []
    ensures InOrder(rows[1..]) && forall t | t in rows[1..] :: Less(Place(t), Place(rows[0]))
  {
    forall t | t in rows[1..] ensures Less(Place(t), Place(rows[0])) {
      var i :| 0 <= i < |rows| - 1 && rows[1..][i] == t;
      assert rows[i + 1] == t;
    }
  }

  lemma {:induction false} WithoutInOrder(rows: seq<Thread>, id: nat)
    requires InOrder(rows)
    ensures InOrder(RowsWithout(rows, id))
  {
    if rows != [] {
      OrderTail(rows);
      WithoutInOrder(rows[1..], id);
      var rest := RowsWithout(rows[1..], id);
      forall i | 0 <= i < |rest| ensures Less(Place(rest[i]), Place(rows[0])) {
        assert rest[i] in rest;
        WithoutMember(rows[1..], id, rest[i]);
      }
    }
  }

  lemma HeadIsMember(rows: seq<Thread>)
    ensures rows == [] || exists t :: t in rows
  {
    if rows != [] {
      assert rows[0] in rows;
    }
  }

  /** There is one arrangement of the same rows in listing order. */
  lemma {:induction false} SameArrangement(a: seq<Thread>, b: seq<Thread>)
    requires InOrder(a) && InOrder(b) && forall t :: t in a <==> t in b
    ensures a == b
  {
    if a == [] {
      HeadIsMember(b);
    } else {
      assert a[0] in b;
      OrderTail(a);
      OrderTail(b);
      assert b[0] in a;
      SameHead(a, b);
      forall t ensures t in a[1..] <==> t in b[1..] {
        TailMember(a, t);
        TailMember(b, t);
      }
      SameArrangement(a[1..], b[1..]);
      assert a == [a[0]] + a[1..] && b == [b[0]] + b[1..];
    }
  }

  lemma TailMember(rows: seq<Thread>, t: Thread)
    requires rows != [] && InOrder(rows)
    ensures t in rows[1..] <==> t in rows && t != rows[0]
  {
    OrderTail(rows);
    assert rows == [rows[0]] + rows[1..];
  }

  lemma SameHead(a: seq<Thread>, b: seq<Thread>)
    requires a != [] && b != [] && InOrder(a) && InOrder(b) && a[0] in b && b[0] in a
    ensures a[0] == b[0]
  {
    TailMember(a, b[0]);
    TailMember(b, a[0]);
    OrderTail(a);
    OrderTail(b);
  }

  lemma CountedTail(db: Db, p: Caller, rows: seq<Thread>)
    requires rows != []
    ensures Counted(db, p, rows) != [] && Counted(db, p, rows)[0] == Item(rows[0], UnreadCount(db, p, rows[0]))
    ensures Counted(db, p, rows)[1..] == Counted(db, p, rows[1..])
  {
    forall i | 0 <= i < |rows| - 1 ensures Counted(db, p, rows)[1..][i] == Counted(db, p, rows[1..])[i] {
      assert rows[1..][i] == rows[i + 1];
    }
  }

  lemma {:induction false} WithoutCounted(db: Db, p: Caller, rows: seq<Thread>, id: nat)
    ensures Without(Counted(db, p, rows), id) == Counted(db, p, RowsWithout(rows, id))
  {
    if rows != [] {
      CountedTail(db, p, rows);
      WithoutCounted(db, p, rows[1..], id);
      if rows[0].id != id {
        CountedTail(db, p, RowsWithout(rows, id));
        assert RowsWithout(rows, id)[1..] == RowsWithout(rows[1..], id);
        assert Without(Counted(db, p, rows), id)[1..] == Counted(db, p, RowsWithout(rows, id))[1..];
      }
    }
  }

  // ----- What a post changes -----

  /** The row of the thread gets the time of the post, the other rows stay. */
  lemma RowsAfter(db: Db, after: Db, r: ChatModel.Request, m: nat, now: nat)
    requires Posted(db, after, r, m, now)
    ensures r.threadId in db.chat.threads && r.threadId in after.chat.threads
    ensures RowOf(after.chat, r.threadId) == RowOf(db.chat, r.threadId).(lastMessageAt := Some(now))
    ensures forall t: Thread | t.id != r.threadId :: t in after.threads <==> t in db.threads
  {
    forall t: Thread | t.id != r.threadId ensures t in after.threads <==> t in db.threads {
      assert t.id in after.chat.threads <==> t.id in db.chat.threads;
      if t.id in db.chat.threads {
        assert RowOf(after.chat, t.id) == RowOf(db.chat, t.id);
      }
    }
  }

  lemma SeatsAfter(db: Db, after: Db, r: ChatModel.Request, m: nat, now: nat, p: Caller, t: Thread)
    requires Posted(db, after, r, m, now)
    ensures Joined(after, p, t) <==> Joined(db, p, t)
  {}

  lemma CountIsSize(db: Db, p: Caller, t: Thread)
    requires Joined(db, p, t)
    ensures UnreadCount(db, p, t) == |ReadMarkers.Unread(db.chat, SeatOf(t, p))|
  {}

  lemma CountUnread(db: Db, p: Caller, t: Thread)
    requires Joined(db, p, t)
    ensures Unread(db, p, t) <==> GroupVisible(p, t) && UnreadCount(db, p, t) > 0
  {
    CountIsSize(db, p, t);
    ExistsIsPositive(db, SeatOf(t, p));
  }

  /** The count of any thread for any participant after the post. */
  lemma CountAfter(db: Db, after: Db, r: ChatModel.Request, m: nat, now: nat, p: Caller, t: Thread, t': Thread)
    requires Posted(db, after, r, m, now) && Joined(db, p, t) && t'.id == t.id && t'.companyId == t.companyId
    ensures Joined(after, p, t')
    ensures UnreadCount(after, p, t') ==
      if t.id != r.threadId then UnreadCount(db, p, t)
      else if p.userId == r.actor.userId then 0
      else UnreadCount(db, p, t) + 1
  {
    ReadMarkers.PostCounts(db.chat, r, m, now, SeatOf(t, p));
    CountIsSize(db, p, t);
    CountIsSize(after, p, t');
  }

  lemma RemainingInOrder(db: Db, p: Caller)
    requires UniqueIds(db)
    ensures InOrder(Remaining(db, p, None))
    ensures forall t :: t in Remaining(db, p, None) <==> t in db.threads && Unread(db, p, t)
  {
    RemainingDescends(db, p, None);
  }

  lemma UnreadElsewhere(db: Db, after: Db, r: ChatModel.Request, m: nat, now: nat, p: Caller, t: Thread)
    requires Posted(db, after, r, m, now) && t.id != r.threadId
    ensures Unread(after, p, t) <==> Unread(db, p, t)
  {
    SeatsAfter(db, after, r, m, now, p, t);
    if Joined(db, p, t) {
      CountAfter(db, after, r, m, now, p, t, t);
      CountUnread(db, p, t);
      CountUnread(after, p, t);
    }
  }

  /** The other threads that a caller has not read are the same, in the same order. */
  lemma OthersRemain(db: Db, after: Db, r: ChatModel.Request, m: nat, now: nat, p: Caller)
    requires Posted(db, after, r, m, now)
    ensures RowsWithout(Remaining(after, p, None), r.threadId) == RowsWithout(Remaining(db, p, None), r.threadId)
  {
    var a, b := Remaining(after, p, None), Remaining(db, p, None);
    RemainingInOrder(after, p);
    RemainingInOrder(db, p);
    RowsAfter(db, after, r, m, now);
    WithoutInOrder(a, r.threadId);
    WithoutInOrder(b, r.threadId);
    forall t ensures t in RowsWithout(a, r.threadId) <==> t in RowsWithout(b, r.threadId) {
      WithoutMember(a, r.threadId, t);
      WithoutMember(b, r.threadId, t);
      if t.id != r.threadId {
        UnreadElsewhere(db, after, r, m, now, p, t);
      }
    }
    SameArrangement(RowsWithout(a, r.threadId), RowsWithout(b, r.threadId));
  }

  lemma SameCounted(db: Db, after: Db, r: ChatModel.Request, m: nat, now: nat, p: Caller, rows: seq<Thread>)
    requires Posted(db, after, r, m, now) && forall t | t in rows :: t.id != r.threadId && Joined(db, p, t)
    ensures Counted(after, p, rows) == Counted(db, p, rows)
  {
    forall i | 0 <= i < |rows| ensures Counted(after, p, rows)[i] == Counted(db, p, rows)[i] {
      assert rows[i] in rows;
      CountAfter(db, after, r, m, now, p, rows[i], rows[i]);
    }
  }

  /** For every caller the rest of the listing stays as it was: the same threads, with their counts, in their order. */
  lemma PostKeepsOthers(db: Db, after: Db, r: ChatModel.Request, m: nat, now: nat, p: Caller, limit: nat)
    requires Posted(db, after, r, m, now) && limit >= 1
    ensures Without(Walk(after, p, None, limit), r.threadId) == Without(Walk(db, p, None, limit), r.threadId)
  {
    var rows := RowsWithout(Remaining(db, p, None), r.threadId);
    WalkLists(db, p, None, limit);
    WalkLists(after, p, None, limit);
    WithoutCounted(db, p, Remaining(db, p, None), r.threadId);
    WithoutCounted(after, p, Remaining(after, p, None), r.threadId);
    OthersRemain(db, after, r, m, now, p);
    RemainingInOrder(db, p);
    forall t | t in rows ensures t.id != r.threadId && Joined(db, p, t) {
      WithoutMember(Remaining(db, p, None), r.threadId, t);
    }
    SameCounted(db, after, r, m, now, p, rows);
  }

  /** The thread of the post as a caller sees it afterwards. */
  lemma PostShown(db: Db, after: Db, r: ChatModel.Request, m: nat, now: nat, p: Caller)
    requires Posted(db, after, r, m, now)
    ensures r.threadId in db.chat.threads && r.threadId in after.chat.threads
    ensures var t, t' := RowOf(db.chat, r.threadId), RowOf(after.chat, r.threadId);
      && t' == t.(lastMessageAt := Some(now)) && t' in after.threads
      && (Unread(after, p, t') <==> Joined(db, p, t) && GroupVisible(p, t) && p.userId != r.actor.userId)
      && (Unread(after, p, t') ==> UnreadCount(after, p, t') == UnreadCount(db, p, t) + 1)
  {
    RowsAfter(db, after, r, m, now);
    var t, t' := RowOf(db.chat, r.threadId), RowOf(after.chat, r.threadId);
    SeatsAfter(db, after, r, m, now, p, t');
    if Joined(db, p, t) {
      CountAfter(db, after, r, m, now, p, t, t');
      CountUnread(after, p, t');
    }
  }

  lemma IdInWalk(db: Db, p: Caller, limit: nat, id: nat)
    requires Derived(db) && limit >= 1 && id in db.chat.threads
    ensures var t, walk := RowOf(db.chat, id), Walk(db, p, None, limit);
      && (Unread(db, p, t) ==> Item(t, UnreadCount(db, p, t)) in walk)
      && (!Unread(db, p, t) ==> forall x | x in walk :: x.thread.id != id)
  {
    var t, rest := RowOf(db.chat, id), Remaining(db, p, None);
    WalkLists(db, p, None, limit);
    RemainingInOrder(db, p);
    if Unread(db, p, t) {
      var i :| 0 <= i < |rest| && rest[i] == t;
      assert Counted(db, p, rest)[i] == Item(t, UnreadCount(db, p, t));
    } else {
      forall x | x in Counted(db, p, rest) ensures x.thread.id != id {
        var i :| 0 <= i < |rest| && Counted(db, p, rest)[i] == x;
        assert rest[i] in rest && x.thread == rest[i];
      }
    }
  }

  /** After a post that sorts last the unread listing of every other participant who may see the thread shows it with one
      message more than before, and at the front exactly when no other thread that is listed sorts after it; nobody else
      has it listed. */
  lemma PostInListing(db: Db, after: Db, r: ChatModel.Request, m: nat, now: nat, p: Caller, limit: nat)
    requires Posted(db, after, r, m, now) && limit >= 1
    ensures r.threadId in db.chat.threads && r.threadId in after.chat.threads
    ensures var t, t' := RowOf(db.chat, r.threadId), RowOf(after.chat, r.threadId);
      var walk := Walk(after, p, None, limit);
      && t' == t.(lastMessageAt := Some(now))
      && if Joined(db, p, t) && GroupVisible(p, t) && p.userId != r.actor.userId then
           && Item(t', UnreadCount(db, p, t) + 1) in walk
           && (walk[0].thread == t' <==> forall x | x in Walk(db, p, None, limit) && x.thread.id != r.threadId :: Less(Place(x.thread), Place(t')))
         else forall x | x in walk :: x.thread.id != r.threadId
  {
    PostShown(db, after, r, m, now, p);
    IdInWalk(after, p, limit, r.threadId);
    var t' := RowOf(after.chat, r.threadId);
    if Unread(after, p, t') {
      PostKeepsOthers(db, after, r, m, now, p, limit);
      FrontExactly(after, p, limit, t', Walk(db, p, None, limit));
    }
  }

  lemma {:induction false} WithoutItem(items: seq<Item>, id: nat, x: Item)
    ensures x in Without(items, id) <==> x in items && x.thread.id != id
  {
    if items != [] {
      WithoutItem(items[1..], id, x);
      assert items == [items[0]] + items[1..];
    }
  }

  /** The walk is in listing order, so a thread is at its front exactly when the others sort before it. */
  lemma FrontExactly(db: Db, p: Caller, limit: nat, t: Thread, before: seq<Item>)
    requires UniqueIds(db) && limit >= 1 && t in db.threads && Unread(db, p, t)
    requires Without(Walk(db, p, None, limit), t.id) == Without(before, t.id)
    ensures Walk(db, p, None, limit) != []
    ensures Walk(db, p, None, limit)[0].thread == t <==> forall x | x in before && x.thread.id != t.id :: Less(Place(x.thread), Place(t))
  {
    var walk, rest := Walk(db, p, None, limit), Remaining(db, p, None);
    WalkLists(db, p, None, limit);
    RemainingInOrder(db, p);
    assert t in rest;
    forall x ensures x in before && x.thread.id != t.id <==> x in walk && x.thread.id != t.id {
      WithoutItem(walk, t.id, x);
      WithoutItem(before, t.id, x);
    }
    FrontOfRows(db, p, rest, t);
  }

  lemma FrontOfRows(db: Db, p: Caller, rest: seq<Thread>, t: Thread)
    requires UniqueIds(db) && InOrder(rest) && t in rest && forall u | u in rest :: u in db.threads
    ensures rest != []
    ensures rest[0] == t <==> forall x | x in Counted(db, p, rest) && x.thread.id != t.id :: Less(Place(x.thread), Place(t))
  {
    var items := Counted(db, p, rest);
    if rest[0] == t {
      forall x | x in items && x.thread.id != t.id ensures Less(Place(x.thread), Place(t)) {
        var i :| 0 <= i < |items| && items[i] == x;
        assert x.thread == rest[i] && i > 0;
      }
    } else {
      var i :| 0 <= i < |rest| && rest[i] == t;
      assert Less(Place(t), Place(rest[0]));
      assert rest[0] in rest;
      if rest[0].id == t.id {
        SameIdSameThread(db, rest[0], t);
      }
      assert items[0] in items && items[0].thread == rest[0];
    }
  }
}
