/** The list of threads of a user: the unread listing, the plain listing and the two unread counters. */
module ThreadListing {
  import opened Basics
  import opened OrderedRows
  import ChatModel
  import ReadMarkers

  type Seat = ChatModel.Seat

  /** The columns of a thread that the listing reads. */
  datatype Thread = Thread(id: nat, companyId: nat, groupId: Option<nat>, lastMessageAt: Option<nat>, createdAt: nat)

  /** The threads in any order, over the tables of the chat service. */
  datatype Db = Db(threads: seq<Thread>, chat: ChatModel.Db)

  /** The caller: the companies of the query and the working groups the caller belongs to. */
  datatype Caller = Caller(userId: nat, companies: set<nat>, groups: set<nat>)

  datatype Cursor = Cursor(lastMessageAt: Option<nat>, createdAt: nat, id: nat)

  function CursorOf(t: Thread): Cursor {
    Cursor(t.lastMessageAt, t.createdAt, t.id)
  }

  /** The order lastMessageAt (a missing one is the smallest), createdAt, id. */
  function PlaceOf(c: Cursor): Key {
    Key(if c.lastMessageAt.Some? then c.lastMessageAt.value + 1 else 0, c.createdAt, c.id)
  }

  function Place(t: Thread): Key {
    PlaceOf(CursorOf(t))
  }

  ghost predicate UniqueIds(db: Db) {
    forall i, j | 0 <= i < j < |db.threads| :: db.threads[i].id != db.threads[j].id
  }

  // ----- Conditions of the queries -----

  predicate Joined(db: Db, p: Caller, t: Thread) {
    && t.companyId in p.companies
    && ChatModel.Seat(t.id, p.userId) in db.chat.seats
    && !db.chat.seats[ChatModel.Seat(t.id, p.userId)].left
  }

  predicate GroupVisible(p: Caller, t: Thread) {
    t.groupId.None? || t.groupId.value in p.groups
  }

  predicate ExistsUnread(db: Db, s: Seat)
    requires s in db.chat.seats
  {
    exists m :: m in db.chat.messages && ReadMarkers.IsUnread(db.chat, s, m)
  }

  /** The condition of the cursor as the unread query spells it out. */
  predicate CursorSql(c: Cursor, t: Thread) {
    if c.lastMessageAt.Some? then
      || (t.lastMessageAt.Some? && t.lastMessageAt.value < c.lastMessageAt.value)
      || t.lastMessageAt.None?
      || (t.lastMessageAt == c.lastMessageAt
          && (t.createdAt < c.createdAt || (t.createdAt == c.createdAt && t.id < c.id)))
    else
      t.lastMessageAt.None? && (t.createdAt < c.createdAt || (t.createdAt == c.createdAt && t.id < c.id))
  }

  lemma CursorSqlIsOrder(c: Cursor, t: Thread)
    ensures CursorSql(c, t) <==> Less(Place(t), PlaceOf(c))
  {
  }

  predicate Past(c: Option<Cursor>, t: Thread) {
    c.Some? ==> CursorSql(c.value, t)
  }

  predicate Unread(db: Db, p: Caller, t: Thread) {
    Joined(db, p, t) && GroupVisible(p, t) && ExistsUnread(db, ChatModel.Seat(t.id, p.userId))
  }

  function IsUnreadPast(db: Db, p: Caller, c: Option<Cursor>): Thread -> bool {
    t => Unread(db, p, t) && Past(c, t)
  }

  function IsUnread(db: Db, p: Caller): Thread -> bool {
    t => Unread(db, p, t)
  }

  // ----- The three unread queries -----

  function UnreadThreadPage(db: Db, p: Caller, c: Option<Cursor>, n: nat): seq<Thread> {
    if p.companies == {} then [] else QueryDesc(db.threads, IsUnreadPast(db, p, c), Place, n)
  }

  datatype Summary = Summary(all: nat, unread: nat)

  function IsVisible(db: Db, p: Caller): Thread -> bool {
    t => Joined(db, p, t) && GroupVisible(p, t)
  }

  function SumUnread(db: Db, p: Caller, rows: seq<Thread>): nat {
    if rows == [] then 0
    else
      var s := ChatModel.Seat(rows[0].id, p.userId);
      (if s in db.chat.seats && ExistsUnread(db, s) then 1 else 0) + SumUnread(db, p, rows[1..])
  }

  function ThreadSummary(db: Db, p: Caller): Summary {
    if p.companies == {} then Summary(0, 0)
    else
      var rows := Filter(db.threads, IsVisible(db, p));
      Summary(|rows|, SumUnread(db, p, rows))
  }

  /** The counts grouped by thread; a thread without unread messages has no row. */
  function UnreadCounts(db: Db, userId: nat, threadIds: set<nat>): map<nat, nat> {
    map t | t in threadIds && ChatModel.Seat(t, userId) in db.chat.seats && !db.chat.seats[ChatModel.Seat(t, userId)].left
          && ReadMarkers.Unread(db.chat, ChatModel.Seat(t, userId)) != {} :: |ReadMarkers.Unread(db.chat, ChatModel.Seat(t, userId))|
  }

  /** What `UnreadCounts` says of one thread; a thread without a row has count 0. */
  function UnreadCount(db: Db, p: Caller, t: Thread): nat {
    var counts := UnreadCounts(db, p.userId, {t.id});
    if t.id in counts then counts[t.id] else 0
  }

  lemma ExistsIsPositive(db: Db, s: Seat)
    requires s in db.chat.seats
    ensures ExistsUnread(db, s) <==> ReadMarkers.Unread(db.chat, s) != {}
  {
    if ExistsUnread(db, s) {
      var m :| m in db.chat.messages && ReadMarkers.IsUnread(db.chat, s, m);
      assert m in ReadMarkers.Unread(db.chat, s);
    }
  }

  // ----- The listing -----

  datatype Item = Item(thread: Thread, unreadCount: nat)

  datatype Page = Page(items: seq<Item>, next: Option<Cursor>)

  function IdsOf(rows: seq<Thread>): set<nat> {
    set t | t in rows :: t.id
  }

  /** The rows of the chosen identifiers. The condition of a cursor takes the place of the group condition. */
  function IsChosen(db: Db, p: Caller, c: Option<Cursor>, ids: set<nat>): Thread -> bool {
    t => Joined(db, p, t) && (if c.Some? then CursorSql(c.value, t) else GroupVisible(p, t)) && t.id in ids
  }

  function ItemOf(counts: map<nat, nat>, t: Thread): Item {
    Item(t, if t.id in counts then counts[t.id] else 0)
  }

  function Items(counts: map<nat, nat>, rows: seq<Thread>): (items: seq<Item>)
    ensures |items| == |rows| && forall i | 0 <= i < |rows| :: items[i] == ItemOf(counts, rows[i])
  {
    seq(|rows|, i requires 0 <= i < |rows| => ItemOf(counts, rows[i]))
  }

  /** The rows of the selected threads. */
  function Loaded(db: Db, p: Caller, c: Option<Cursor>, selected: seq<Thread>, limit: nat): seq<Thread> {
    var rows := if selected == [] then [] else QueryDesc(db.threads, IsChosen(db, p, c, IdsOf(selected)), Place, |db.threads|);
    Take(rows, limit)
  }

  /** The page from the threads that are listed on it. */
  function PageOf(db: Db, p: Caller, listed: seq<Thread>, more: bool): Page {
    Page(Items(UnreadCounts(db, p.userId, IdsOf(listed)), listed),
         if listed != [] && more then Some(CursorOf(listed[|listed| - 1])) else None)
  }

  function UnreadPage(db: Db, p: Caller, c: Option<Cursor>, limit: nat): Page
    requires limit >= 1
  {
    var found := UnreadThreadPage(db, p, c, limit + 1);
    PageOf(db, p, Loaded(db, p, c, Take(found, limit), limit), |found| > limit)
  }

  // ----- The unread walk -----

  /** The unread threads past a cursor, in listing order. */
  function Remaining(db: Db, p: Caller, c: Option<Cursor>): seq<Thread> {
    Filter(Desc(db.threads, Place), IsUnreadPast(db, p, c))
  }

  lemma DistinctPlaces(db: Db)
    requires UniqueIds(db)
    ensures DistinctKeys(db.threads, Place)
  {
    forall i, j | 0 <= i < j < |db.threads| ensures Place(db.threads[i]) != Place(db.threads[j]) {
      assert db.threads[i].id != db.threads[j].id;
    }
  }

  lemma RemainingDescends(db: Db, p: Caller, c: Option<Cursor>)
    requires UniqueIds(db)
    ensures Descending(Remaining(db, p, c), Place)
    ensures forall t :: t in Remaining(db, p, c) <==> t in db.threads && Unread(db, p, t) && Past(c, t)
  {
    DistinctPlaces(db);
    DescSorts(db.threads, Place);
    FilterDescending(Desc(db.threads, Place), IsUnreadPast(db, p, c), Place);
    forall t ensures t in Remaining(db, p, c) <==> t in db.threads && Unread(db, p, t) && Past(c, t) {
      FilterMember(Desc(db.threads, Place), IsUnreadPast(db, p, c), t);
    }
  }

  /** The unread query returns the first of the remaining threads. */
  lemma FoundIsPrefix(db: Db, p: Caller, c: Option<Cursor>, n: nat)
    requires UniqueIds(db)
    ensures UnreadThreadPage(db, p, c, n) == Take(Remaining(db, p, c), n)
  {
    QueryDescends(db.threads, IsUnreadPast(db, p, c), Place, n);
    if p.companies == {} {
      NothingRemains(db, p, c);
    }
  }

  lemma NothingRemains(db: Db, p: Caller, c: Option<Cursor>)
    requires p.companies == {}
    ensures Remaining(db, p, c) == []
  {
    FilterPrefix(Desc(db.threads, Place), IsUnreadPast(db, p, c), 0);
  }

  lemma SameIdSameThread(db: Db, t: Thread, t': Thread)
    requires UniqueIds(db) && t in db.threads && t' in db.threads && t.id == t'.id
    ensures t == t'
  {
    var i :| 0 <= i < |db.threads| && db.threads[i] == t;
    var j :| 0 <= j < |db.threads| && db.threads[j] == t';
  }

  /** Loading the chosen threads returns exactly them, although the cursor replaces the group condition. */
  lemma ChosenAreSelected(db: Db, p: Caller, c: Option<Cursor>, n: nat)
    requires UniqueIds(db) && n <= |Remaining(db, p, c)|
    ensures Filter(Desc(db.threads, Place), IsChosen(db, p, c, IdsOf(Remaining(db, p, c)[..n]))) == Remaining(db, p, c)[..n]
  {
    var all, rest := Desc(db.threads, Place), Remaining(db, p, c);
    var chosen := IsChosen(db, p, c, IdsOf(rest[..n]));
    DistinctPlaces(db);
    DescSorts(db.threads, Place);
    RemainingDescends(db, p, c);
    forall t | t in all ensures chosen(t) <==> IsUnreadPast(db, p, c)(t) && t in rest[..n] {
      if t in rest[..n] {
        assert t in rest && t.id in IdsOf(rest[..n]);
      }
      if chosen(t) {
        var t' :| t' in rest[..n] && t'.id == t.id;
        assert t' in rest;
        SameIdSameThread(db, t, t');
      }
    }
    FilterTwice(all, IsUnreadPast(db, p, c), t => t in rest[..n], chosen);
    MembersOfPrefix(rest, t => t in rest[..n], n, Place);
  }

  /** The rows a page loads are the threads the unread query selected. */
  lemma LoadedAreSelected(db: Db, p: Caller, c: Option<Cursor>, limit: nat)
    requires UniqueIds(db)
    ensures Loaded(db, p, c, Take(Remaining(db, p, c), limit), limit) == Take(Remaining(db, p, c), limit)
  {
    var rest, selected := Remaining(db, p, c), Take(Remaining(db, p, c), limit);
    assert selected == rest[..|selected|];
    ChosenAreSelected(db, p, c, |selected|);
    QueryDescends(db.threads, IsChosen(db, p, c, IdsOf(selected)), Place, |db.threads|);
    FilterSize(Desc(db.threads, Place), IsUnreadPast(db, p, c));
    DistinctPlaces(db);
    DescSorts(db.threads, Place);
  }

  /** A page lists the first `limit` remaining threads and names the last one when more remain. */
  lemma PageIsPrefix(db: Db, p: Caller, c: Option<Cursor>, limit: nat)
    requires UniqueIds(db) && limit >= 1
    ensures var rest, page := Remaining(db, p, c), UnreadPage(db, p, c, limit);
      && page.items == Items(UnreadCounts(db, p.userId, IdsOf(Take(rest, limit))), Take(rest, limit))
      && page.next == if |rest| > limit then Some(CursorOf(rest[limit - 1])) else None
  {
    UnreadPageOf(db, p, c, limit);
    PageOfPrefix(db, p, Remaining(db, p, c), limit);
  }

  lemma FoundTakes(db: Db, p: Caller, c: Option<Cursor>, limit: nat)
    requires UniqueIds(db)
    ensures Take(UnreadThreadPage(db, p, c, limit + 1), limit) == Take(Remaining(db, p, c), limit)
    ensures |UnreadThreadPage(db, p, c, limit + 1)| > limit <==> |Remaining(db, p, c)| > limit
  {
    FoundIsPrefix(db, p, c, limit + 1);
    TakeTwice(Remaining(db, p, c), limit);
  }

  lemma UnreadPageOf(db: Db, p: Caller, c: Option<Cursor>, limit: nat)
    requires UniqueIds(db) && limit >= 1
    ensures UnreadPage(db, p, c, limit) == PageOf(db, p, Take(Remaining(db, p, c), limit), |Remaining(db, p, c)| > limit)
  {
    FoundTakes(db, p, c, limit);
    LoadedAreSelected(db, p, c, limit);
  }

  lemma PageOfPrefix(db: Db, p: Caller, rest: seq<Thread>, limit: nat)
    requires limit >= 1
    ensures var page := PageOf(db, p, Take(rest, limit), |rest| > limit);
      && page.items == Items(UnreadCounts(db, p.userId, IdsOf(Take(rest, limit))), Take(rest, limit))
      && page.next == if |rest| > limit then Some(CursorOf(rest[limit - 1])) else None
  {
    assert |rest| > limit ==> Take(rest, limit)[limit - 1] == rest[limit - 1];
  }

  /** Every thread of a page has the count that `UnreadCounts` gives it, and that count is positive. */
  lemma ItemsCount(db: Db, p: Caller, rows: seq<Thread>, i: nat)
    requires i < |rows| && Unread(db, p, rows[i])
    ensures Items(UnreadCounts(db, p.userId, IdsOf(rows)), rows)[i] == Item(rows[i], UnreadCount(db, p, rows[i]))
    ensures UnreadCount(db, p, rows[i]) > 0
  {
    ExistsIsPositive(db, ChatModel.Seat(rows[i].id, p.userId));
    assert rows[i] in rows;
    assert rows[i].id in IdsOf(rows);
  }

  /** Listing pages along `nextCursor` until there is none. */
  ghost function Walk(db: Db, p: Caller, c: Option<Cursor>, limit: nat): seq<Item>
    requires UniqueIds(db) && limit >= 1
    decreases |Remaining(db, p, c)|
  {
    var page := UnreadPage(db, p, c, limit);
    PageIsPrefix(db, p, c, limit);
    if page.next.None? then page.items
    else
      NextRemaining(db, p, c, limit);
      page.items + Walk(db, p, page.next, limit)
  }

  /** Behind the last thread of a full page remain exactly the threads the page left out. */
  lemma NextRemaining(db: Db, p: Caller, c: Option<Cursor>, limit: nat)
    requires UniqueIds(db) && limit >= 1 && |Remaining(db, p, c)| > limit
    ensures Remaining(db, p, Some(CursorOf(Remaining(db, p, c)[limit - 1]))) == Remaining(db, p, c)[limit..]
  {
    var all, rest := Desc(db.threads, Place), Remaining(db, p, c);
    var last := rest[limit - 1];
    var next := Some(CursorOf(last));
    var below := (t: Thread) => CursorSql(CursorOf(last), t);
    RemainingDescends(db, p, c);
    assert last in rest;
    forall t: Thread ensures below(t) <==> Less(Place(t), Place(last)) {
      CursorSqlIsOrder(CursorOf(last), t);
    }
    forall t | t in all ensures IsUnreadPast(db, p, next)(t) <==> IsUnreadPast(db, p, c)(t) && below(t) {
      if c.Some? {
        CursorSqlIsOrder(c.value, t);
        CursorSqlIsOrder(c.value, last);
      }
    }
    FilterTwice(all, IsUnreadPast(db, p, c), below, IsUnreadPast(db, p, next));
    BelowIsSuffix(rest, below, limit - 1, Place);
  }

  /** The threads with their counts. */
  function Counted(db: Db, p: Caller, rows: seq<Thread>): (items: seq<Item>)
    ensures |items| == |rows| && forall i | 0 <= i < |rows| :: items[i] == Item(rows[i], UnreadCount(db, p, rows[i]))
  {
    seq(|rows|, i requires 0 <= i < |rows| => Item(rows[i], UnreadCount(db, p, rows[i])))
  }

  lemma ItemsCounted(db: Db, p: Caller, rows: seq<Thread>)
    requires forall t | t in rows :: Unread(db, p, t)
    ensures Items(UnreadCounts(db, p.userId, IdsOf(rows)), rows) == Counted(db, p, rows)
  {
    forall i | 0 <= i < |rows| ensures Items(UnreadCounts(db, p.userId, IdsOf(rows)), rows)[i] == Counted(db, p, rows)[i] {
      ItemsCount(db, p, rows, i);
    }
  }

  lemma PageCounted(db: Db, p: Caller, c: Option<Cursor>, limit: nat)
    requires UniqueIds(db) && limit >= 1
    ensures UnreadPage(db, p, c, limit).items == Counted(db, p, Take(Remaining(db, p, c), limit))
  {
    PageIsPrefix(db, p, c, limit);
    RemainingDescends(db, p, c);
    forall t | t in Take(Remaining(db, p, c), limit) ensures Unread(db, p, t) {
      assert t in Remaining(db, p, c);
    }
    ItemsCounted(db, p, Take(Remaining(db, p, c), limit));
  }

  /** One step of the walk, in terms of the remaining threads. */
  lemma WalkStep(db: Db, p: Caller, c: Option<Cursor>, limit: nat)
    requires UniqueIds(db) && limit >= 1
    ensures var rest := Remaining(db, p, c);
      Walk(db, p, c, limit) == Counted(db, p, Take(rest, limit)) +
        if |rest| > limit then Walk(db, p, Some(CursorOf(rest[limit - 1])), limit) else []
  {
    PageIsPrefix(db, p, c, limit);
    PageCounted(db, p, c, limit);
  }

  lemma CountedSplit(db: Db, p: Caller, rows: seq<Thread>, n: nat)
    requires n <= |rows|
    ensures Counted(db, p, rows[..n]) + Counted(db, p, rows[n..]) == Counted(db, p, rows)
  {
  }

  /** The walk lists the remaining threads, in order, each with its count. */
  lemma {:induction false} WalkLists(db: Db, p: Caller, c: Option<Cursor>, limit: nat)
    requires UniqueIds(db) && limit >= 1
    ensures Walk(db, p, c, limit) == Counted(db, p, Remaining(db, p, c))
    decreases |Remaining(db, p, c)|
  {
    var rest := Remaining(db, p, c);
    WalkStep(db, p, c, limit);
    if |rest| > limit {
      NextRemaining(db, p, c, limit);
      WalkLists(db, p, Some(CursorOf(rest[limit - 1])), limit);
      CountedSplit(db, p, rest, limit);
    }
  }

  /** Walking all pages of the unread listing gives every visible thread with a positive unread count exactly once,
      with that count, in the order lastMessageAt (missing last), createdAt, id, descending. */
  lemma UnreadWalkComplete(db: Db, p: Caller, limit: nat, t: Thread)
    requires UniqueIds(db) && limit >= 1
    ensures var walk := Walk(db, p, None, limit);
      && (forall i, j | 0 <= i < j < |walk| :: Less(Place(walk[j].thread), Place(walk[i].thread)))
      && (t in db.threads && Joined(db, p, t) && GroupVisible(p, t) && UnreadCount(db, p, t) > 0
          <==> Item(t, UnreadCount(db, p, t)) in walk)
  {
    var rest, walk := Remaining(db, p, None), Walk(db, p, None, limit);
    WalkLists(db, p, None, limit);
    RemainingDescends(db, p, None);
    if Joined(db, p, t) {
      ExistsIsPositive(db, ChatModel.Seat(t.id, p.userId));
    }
    assert UnreadCount(db, p, t) > 0 && Joined(db, p, t) ==> ExistsUnread(db, ChatModel.Seat(t.id, p.userId));
    if Item(t, UnreadCount(db, p, t)) in walk {
      var i :| 0 <= i < |walk| && walk[i] == Item(t, UnreadCount(db, p, t));
      assert rest[i] == t;
      assert t in rest;
    }
    if t in rest {
      var i :| 0 <= i < |rest| && rest[i] == t;
      assert walk[i] == Item(t, UnreadCount(db, p, t));
    }
  }

  lemma {:induction false} SumIsSize(db: Db, p: Caller, rows: seq<Thread>)
    ensures SumUnread(db, p, Filter(rows, IsVisible(db, p))) == |Filter(rows, IsUnread(db, p))|
  {
    if rows != [] {
      var rest := Filter(rows[1..], IsVisible(db, p));
      SumIsSize(db, p, rows[1..]);
      if IsVisible(db, p)(rows[0]) {
        assert Filter(rows, IsVisible(db, p)) == [rows[0]] + rest;
        assert ([rows[0]] + rest)[1..] == rest;
      } else {
        assert Filter(rows, IsVisible(db, p)) == rest;
      }
    }
  }

  /** The unread counter of the summary is the number of threads the unread listing walks through. */
  lemma SummaryCountsWalk(db: Db, p: Caller, limit: nat)
    requires UniqueIds(db) && limit >= 1
    ensures ThreadSummary(db, p).unread == |Walk(db, p, None, limit)|
  {
    WalkLists(db, p, None, limit);
    SumIsSize(db, p, db.threads);
    DistinctPlaces(db);
    SameFilter(Desc(db.threads, Place), IsUnreadPast(db, p, None), IsUnread(db, p));
    FilterSorted(db.threads, IsUnread(db, p));
    if p.companies == {} {
      NothingRemains(db, p, None);
    }
  }

  lemma {:induction false} FilterCounts(rows: seq<Thread>, keep: Thread -> bool)
    requires forall i, j | 0 <= i < j < |rows| :: rows[i].id != rows[j].id
    ensures |Filter(rows, keep)| == |set t | t in rows && keep(t)|
  {
    if rows != [] {
      FilterCounts(rows[1..], keep);
      var rest := set t | t in rows[1..] && keep(t);
      assert rows[0] !in rows[1..];
      assert (set t | t in rows && keep(t)) == rest + if keep(rows[0]) then {rows[0]} else {};
    }
  }

  /** The other counter is the number of threads the caller takes part in and may see. */
  lemma SummaryCountsAll(db: Db, p: Caller)
    requires UniqueIds(db)
    ensures ThreadSummary(db, p).all == |set t | t in db.threads && Joined(db, p, t) && GroupVisible(p, t)|
  {
    FilterCounts(db.threads, IsVisible(db, p));
    assert (set t | t in db.threads && IsVisible(db, p)(t)) == set t | t in db.threads && Joined(db, p, t) && GroupVisible(p, t);
    if p.companies == {} {
      assert (set t | t in db.threads && Joined(db, p, t) && GroupVisible(p, t)) == {};
    }
  }

  /** Ordering a table does not change how many of its rows satisfy a condition. */
  lemma FilterSorted(rows: seq<Thread>, keep: Thread -> bool)
    requires DistinctKeys(rows, Place)
    ensures |Filter(Desc(rows, Place), keep)| == |Filter(rows, keep)|
  {
    FilterReverse(Asc(rows, Place), keep);
    ReverseAt(Filter(Asc(rows, Place), keep));
    AscFilterSize(rows, keep);
  }

  lemma {:induction false} AscFilterSize(rows: seq<Thread>, keep: Thread -> bool)
    ensures |Filter(Asc(rows, Place), keep)| == |Filter(rows, keep)|
  {
    if rows != [] {
      AscFilterSize(rows[1..], keep);
      InsertFilterSize(rows[0], Asc(rows[1..], Place), keep);
    }
  }

  lemma {:induction false} InsertFilterSize(t: Thread, s: seq<Thread>, keep: Thread -> bool)
    ensures |Filter(Insert(t, s, Place), keep)| == |Filter(s, keep)| + if keep(t) then 1 else 0
  {
    if s == [] || Less(Place(t), Place(s[0])) {
      assert ([t] + s)[1..] == s;
    } else {
      InsertFilterSize(t, s[1..], keep);
      assert ([s[0]] + Insert(t, s[1..], Place))[1..] == Insert(t, s[1..], Place);
    }
  }

  // ----- The plain listing -----

  /** Past the first page the cursor takes the place of the group condition. */
  function IsPlain(db: Db, p: Caller, c: Option<Cursor>): Thread -> bool {
    t => Joined(db, p, t) && (if c.Some? then CursorSql(c.value, t) else GroupVisible(p, t))
  }

  datatype PlainPage = PlainPage(items: seq<Thread>, next: Option<Cursor>)

  function ListPage(db: Db, p: Caller, c: Option<Cursor>, limit: nat): PlainPage
    requires limit >= 1
  {
    var found := QueryDesc(db.threads, IsPlain(db, p, c), Place, limit + 1);
    var listed := Take(found, limit);
    PlainPage(listed, if |found| > limit then Some(CursorOf(listed[|listed| - 1])) else None)
  }

  /** The threads of a plain page with their counts; a thread without unread messages has count 0. */
  function PlainItems(db: Db, p: Caller, c: Option<Cursor>, limit: nat): seq<Item>
    requires limit >= 1
  {
    var listed := ListPage(db, p, c, limit).items;
    Items(UnreadCounts(db, p.userId, IdsOf(listed)), listed)
  }

  lemma PlainItemsCount(db: Db, p: Caller, c: Option<Cursor>, limit: nat, i: nat)
    requires UniqueIds(db) && limit >= 1 && i < |PlainItems(db, p, c, limit)|
    ensures var t := ListPage(db, p, c, limit).items[i];
      && ChatModel.Seat(t.id, p.userId) in db.chat.seats
      && PlainItems(db, p, c, limit)[i] == Item(t, |ReadMarkers.Unread(db.chat, ChatModel.Seat(t.id, p.userId))|)
  {
    var listed := ListPage(db, p, c, limit).items;
    var t := listed[i];
    ListPageIsPrefix(db, p, c, limit);
    assert t in Matching(db, p, c);
    FilterMember(Desc(db.threads, Place), IsPlain(db, p, c), t);
    assert t.id in IdsOf(listed);
  }

  function Matching(db: Db, p: Caller, c: Option<Cursor>): seq<Thread> {
    Filter(Desc(db.threads, Place), IsPlain(db, p, c))
  }

  lemma ListPageIsPrefix(db: Db, p: Caller, c: Option<Cursor>, limit: nat)
    requires limit >= 1
    ensures ListPage(db, p, c, limit).items == Take(Matching(db, p, c), limit)
    ensures ListPage(db, p, c, limit).next ==
            if |Matching(db, p, c)| > limit then Some(CursorOf(Matching(db, p, c)[limit - 1])) else None
  {
    var rows := Matching(db, p, c);
    QueryDescends(db.threads, IsPlain(db, p, c), Place, limit + 1);
    TakeTwice(rows, limit);
    assert |rows| > limit ==> Take(rows, limit)[limit - 1] == rows[limit - 1];
  }

  /** From a cursor on, what remains behind a full page is what the page left out. */
  lemma NextMatching(db: Db, p: Caller, c: Cursor, limit: nat)
    requires UniqueIds(db) && limit >= 1 && |Matching(db, p, Some(c))| > limit
    ensures Matching(db, p, Some(CursorOf(Matching(db, p, Some(c))[limit - 1]))) == Matching(db, p, Some(c))[limit..]
  {
    var all, rest := Desc(db.threads, Place), Matching(db, p, Some(c));
    var last := rest[limit - 1];
    var below := (t: Thread) => CursorSql(CursorOf(last), t);
    DistinctPlaces(db);
    DescSorts(db.threads, Place);
    FilterDescending(all, IsPlain(db, p, Some(c)), Place);
    assert last in rest;
    FilterMember(all, IsPlain(db, p, Some(c)), last);
    forall t: Thread ensures below(t) <==> Less(Place(t), Place(last)) {
      CursorSqlIsOrder(CursorOf(last), t);
    }
    forall t | t in all ensures IsPlain(db, p, Some(CursorOf(last)))(t) <==> IsPlain(db, p, Some(c))(t) && below(t) {
      CursorSqlIsOrder(c, t);
      CursorSqlIsOrder(c, last);
    }
    FilterTwice(all, IsPlain(db, p, Some(c)), below, IsPlain(db, p, Some(CursorOf(last))));
    BelowIsSuffix(rest, below, limit - 1, Place);
  }

  /** Listing pages from a cursor on until there is no next one. */
  ghost function PlainWalkFrom(db: Db, p: Caller, c: Cursor, limit: nat): seq<Thread>
    requires UniqueIds(db) && limit >= 1
    decreases |Matching(db, p, Some(c))|
  {
    var page := ListPage(db, p, Some(c), limit);
    ListPageIsPrefix(db, p, Some(c), limit);
    if page.next.None? then page.items
    else
      NextMatching(db, p, c, limit);
      page.items + PlainWalkFrom(db, p, page.next.value, limit)
  }

  ghost function PlainWalk(db: Db, p: Caller, limit: nat): seq<Thread>
    requires UniqueIds(db) && limit >= 1
  {
    var page := ListPage(db, p, None, limit);
    if page.next.None? then page.items else page.items + PlainWalkFrom(db, p, page.next.value, limit)
  }

  lemma {:induction false} PlainWalkFromLists(db: Db, p: Caller, c: Cursor, limit: nat)
    requires UniqueIds(db) && limit >= 1
    ensures PlainWalkFrom(db, p, c, limit) == Matching(db, p, Some(c))
    decreases |Matching(db, p, Some(c))|
  {
    var page := ListPage(db, p, Some(c), limit);
    ListPageIsPrefix(db, p, Some(c), limit);
    if page.next.Some? {
      NextMatching(db, p, c, limit);
      PlainWalkFromLists(db, p, page.next.value, limit);
    }
  }

  /** The threads the caller may see, in listing order. */
  function VisibleThreads(db: Db, p: Caller): seq<Thread> {
    Matching(db, p, None)
  }

  /** A thread of the caller that belongs to a working group the caller is not in. */
  predicate Hidden(db: Db, p: Caller, t: Thread) {
    Joined(db, p, t) && !GroupVisible(p, t)
  }

  /** The visible threads behind the last one of the first page are the visible ones among those the next pages list. */
  lemma VisibleBehindFirstPage(db: Db, p: Caller, limit: nat)
    requires UniqueIds(db) && limit >= 1 && |VisibleThreads(db, p)| > limit
    ensures var last := VisibleThreads(db, p)[limit - 1];
      Filter(Matching(db, p, Some(CursorOf(last))), t => GroupVisible(p, t)) == VisibleThreads(db, p)[limit..]
  {
    var all, seen := Desc(db.threads, Place), VisibleThreads(db, p);
    var last := seen[limit - 1];
    var below := (t: Thread) => CursorSql(CursorOf(last), t);
    var shown := (t: Thread) => GroupVisible(p, t);
    var both := (t: Thread) => Joined(db, p, t) && GroupVisible(p, t) && CursorSql(CursorOf(last), t);
    DistinctPlaces(db);
    DescSorts(db.threads, Place);
    FilterDescending(all, IsPlain(db, p, None), Place);
    forall t: Thread ensures below(t) <==> Less(Place(t), Place(last)) {
      CursorSqlIsOrder(CursorOf(last), t);
    }
    FilterTwice(all, IsPlain(db, p, None), below, both);
    FilterTwice(all, IsPlain(db, p, Some(CursorOf(last))), shown, both);
    BelowIsSuffix(seen, below, limit - 1, Place);
  }

  lemma {:induction false} FilterAll(s: seq<Thread>, keep: Thread -> bool)
    ensures Filter(s, keep) == s <==> forall t | t in s :: keep(t)
  {
    if s != [] {
      FilterAll(s[1..], keep);
      FilterSize(s[1..], keep);
      assert s == [s[0]] + s[1..];
      if Filter(s, keep) == s {
        assert keep(s[0]);
        assert Filter(s, keep)[1..] == Filter(s[1..], keep);
      }
    }
  }

  /** The plain listing walks through exactly the visible threads, each once and in order, if and only if it ends on
      its first page or no hidden thread sorts behind that page. */
  lemma PlainWalkExact(db: Db, p: Caller, limit: nat)
    requires UniqueIds(db) && limit >= 1
    ensures PlainWalk(db, p, limit) == VisibleThreads(db, p) <==>
            var seen := VisibleThreads(db, p);
            |seen| <= limit || forall t | t in db.threads && Hidden(db, p, t) :: !Less(Place(t), Place(seen[limit - 1]))
  {
    var seen := VisibleThreads(db, p);
    ListPageIsPrefix(db, p, None, limit);
    if |seen| > limit {
      var last := seen[limit - 1];
      var rest := Matching(db, p, Some(CursorOf(last)));
      PlainWalkFromLists(db, p, CursorOf(last), limit);
      VisibleBehindFirstPage(db, p, limit);
      FilterAll(rest, t => GroupVisible(p, t));
      DistinctPlaces(db);
      DescSorts(db.threads, Place);
      forall t ensures t in rest <==> t in db.threads && Joined(db, p, t) && Less(Place(t), Place(last)) {
        FilterMember(Desc(db.threads, Place), IsPlain(db, p, Some(CursorOf(last))), t);
        CursorSqlIsOrder(CursorOf(last), t);
      }
      assert PlainWalk(db, p, limit) == seen[..limit] + rest;
      assert seen == seen[..limit] + seen[limit..];
      assert PlainWalk(db, p, limit) == seen <==> rest == seen[limit..];
    }
  }

  // ----- A listing that shows a hidden thread -----

  function Visible(id: nat): Thread {
    Thread(id, 1, None, None, 0)
  }

  /** Caller 5 sits in three threads; the last one belongs to working group 9, which the caller is not in. */
  function Leaky(): Db {
    var row := ChatModel.Participant(ChatModel.Member, false, false, None, 1);
    Db([Visible(3), Visible(2), Thread(1, 1, Some(9), None, 0)],
       ChatModel.Db(map[], map[ChatModel.Seat(1, 5) := row, ChatModel.Seat(2, 5) := row, ChatModel.Seat(3, 5) := row], map[], map[], []))
  }

  const STRANGER := Caller(5, {1}, {})

  lemma VisibleMember(db: Db, p: Caller, t: Thread)
    requires UniqueIds(db)
    ensures t in VisibleThreads(db, p) <==> t in db.threads && Joined(db, p, t) && GroupVisible(p, t)
  {
    DistinctPlaces(db);
    DescSorts(db.threads, Place);
    FilterMember(Desc(db.threads, Place), IsPlain(db, p, None), t);
  }

  /** Two threads are visible, and the hidden one sorts behind both. */
  lemma LeakyVisible()
    ensures UniqueIds(Leaky())
    ensures |VisibleThreads(Leaky(), STRANGER)| > 1 && VisibleThreads(Leaky(), STRANGER)[0] in {Visible(2), Visible(3)}
  {
    var db, seen := Leaky(), VisibleThreads(Leaky(), STRANGER);
    assert db.threads[0] == Visible(3) && db.threads[1] == Visible(2);
    VisibleMember(db, STRANGER, Visible(3));
    VisibleMember(db, STRANGER, Visible(2));
    TwoMembers(seen, Visible(3), Visible(2));
    assert seen[0] in seen;
    VisibleMember(db, STRANGER, seen[0]);
  }

  /** With one thread on a page, the second page lists the thread of the working group. */
  lemma HiddenThreadListed()
    ensures UniqueIds(Leaky()) && Hidden(Leaky(), STRANGER, Thread(1, 1, Some(9), None, 0))
    ensures PlainWalk(Leaky(), STRANGER, 1) != VisibleThreads(Leaky(), STRANGER)
  {
    var hidden := Thread(1, 1, Some(9), None, 0);
    LeakyVisible();
    PlainWalkExact(Leaky(), STRANGER, 1);
    assert Leaky().threads[2] == hidden;
    assert Less(Place(hidden), Place(VisibleThreads(Leaky(), STRANGER)[0]));
  }

  lemma TwoMembers(s: seq<Thread>, a: Thread, b: Thread)
    requires a in s && b in s && a != b
    ensures |s| > 1
  {
    var i :| 0 <= i < |s| && s[i] == a;
    var j :| 0 <= j < |s| && s[j] == b;
  }
}
