/** Pages of the messages of one thread, and the walks along their cursors. */
module MessagePaging {
  import opened Basics
  import opened OrderedRows

  /** A message of the thread: the columns of its key, and the rest, which pages only carry along. */
  datatype Message = Message(id: nat, createdAt: nat, body: string)

  /** What a message cursor carries. */
  datatype Cursor = Cursor(createdAt: nat, id: nat)

  datatype Page = Page(items: seq<Message>, older: Option<Cursor>, newer: Option<Cursor>)

  function CursorOf(m: Message): Cursor {
    Cursor(m.createdAt, m.id)
  }

  /** The order (createdAt, id). */
  function Place(m: Message): Key {
    Key(m.createdAt, m.id, 0)
  }

  function PlaceOf(c: Cursor): Key {
    Key(c.createdAt, c.id, 0)
  }

  predicate BeforeWhere(m: Message, c: Cursor) {
    m.createdAt < c.createdAt || (m.createdAt == c.createdAt && m.id < c.id)
  }

  predicate AfterWhere(m: Message, c: Cursor) {
    m.createdAt > c.createdAt || (m.createdAt == c.createdAt && m.id > c.id)
  }

  /** Which messages of the thread a query asks for. */
  datatype Where = Before(cursor: Option<Cursor>) | After(anchor: Cursor)

  predicate Admits(w: Where, m: Message) {
    match w
    case Before(cursor) => cursor.Some? ==> BeforeWhere(m, cursor.value)
    case After(anchor) => AfterWhere(m, anchor)
  }

  function Select(s: seq<Message>, w: Where): seq<Message> {
    if s == [] then [] else (if Admits(w, s[0]) then [s[0]] else []) + Select(s[1..], w)
  }

  /** WHERE w ORDER BY createdAt, id LIMIT n, over the messages of a thread in their total order. */
  function FindAsc(all: seq<Message>, w: Where, n: nat): seq<Message> {
    Take(Select(all, w), n)
  }

  /** The same in descending order. */
  function FindDesc(all: seq<Message>, w: Where, n: nat): seq<Message> {
    Take(Reverse(Select(all, w)), n)
  }

  /** The messages stand in their total order. */
  ghost predicate InOrder(all: seq<Message>) {
    forall i, j | 0 <= i < j < |all| :: Less(Place(all[i]), Place(all[j]))
  }

  /** The page from the rows that were found before a cursor, newest first. */
  function OlderPage(found: seq<Message>, cursor: Option<Cursor>, limit: nat): Page
    requires limit >= 1
  {
    var selected := Reverse(Take(found, limit));
    Page(selected,
         if |found| > limit && selected != [] then Some(CursorOf(selected[0])) else None,
         if cursor.Some? && selected != [] then Some(CursorOf(selected[|selected| - 1])) else None)
  }

  /** The page from the rows that were found after a cursor. */
  function NewerPage(found: seq<Message>, limit: nat): Page
    requires limit >= 1
  {
    var selected := Take(found, limit);
    Page(selected,
         if selected != [] then Some(CursorOf(selected[0])) else None,
         if |found| > limit && selected != [] then Some(CursorOf(selected[|selected| - 1])) else None)
  }

  function BeforeLimit(limit: nat): nat
    requires limit >= 1
  {
    (limit - 1) / 2
  }

  function AfterLimit(limit: nat): nat
    requires limit >= 1
  {
    limit - 1 - BeforeLimit(limit)
  }

  /** The page from a message and the rows that were found on its two sides. */
  function MiddlePage(beforeRows: seq<Message>, target: Message, afterRows: seq<Message>, limit: nat): Page
    requires limit >= 1
  {
    var selected := Reverse(Take(beforeRows, BeforeLimit(limit))) + [target] + Take(afterRows, AfterLimit(limit));
    Page(selected,
         if |beforeRows| > BeforeLimit(limit) then Some(CursorOf(selected[0])) else None,
         if |afterRows| > AfterLimit(limit) then Some(CursorOf(selected[|selected| - 1])) else None)
  }

  /** The page before a cursor, or the newest page when there is none. */
  function PageBefore(all: seq<Message>, cursor: Option<Cursor>, limit: nat): Page
    requires limit >= 1
  {
    OlderPage(FindDesc(all, Before(cursor), limit + 1), cursor, limit)
  }

  function PageAfter(all: seq<Message>, cursor: Cursor, limit: nat): Page
    requires limit >= 1
  {
    NewerPage(FindAsc(all, After(cursor), limit + 1), limit)
  }

  /** The page around a message of the thread. */
  function PageAround(all: seq<Message>, target: Message, limit: nat): Page
    requires limit >= 1
  {
    MiddlePage(FindDesc(all, Before(Some(CursorOf(target))), BeforeLimit(limit) + 1), target,
               FindAsc(all, After(CursorOf(target)), AfterLimit(limit) + 1), limit)
  }

  /** How many messages come before the key. */
  function Rank(s: seq<Message>, k: Key): (n: nat)
    ensures n <= |s|
  {
    if s == [] || !Less(Place(s[0]), k) then 0 else 1 + Rank(s[1..], k)
  }

  lemma {:induction false} RankSplits(s: seq<Message>, k: Key)
    requires InOrder(s)
    ensures forall i | 0 <= i < |s| :: Less(Place(s[i]), k) <==> i < Rank(s, k)
  {
    if s != [] && Less(Place(s[0]), k) {
      RankSplits(s[1..], k);
      forall i | 0 <= i < |s| ensures Less(Place(s[i]), k) <==> i < Rank(s, k) {
        if i > 0 {
          assert s[i] == s[1..][i - 1];
        }
      }
    }
  }

  lemma RankOf(s: seq<Message>, i: nat)
    requires InOrder(s) && i < |s|
    ensures Rank(s, Place(s[i])) == i
  {
    RankSplits(s, Place(s[i]));
    if i > 0 {
      assert Less(Place(s[i - 1]), Place(s[i]));
    }
  }

  /** A condition that holds exactly of the first `n` messages selects that prefix. */
  lemma {:induction false} SelectPrefix(s: seq<Message>, w: Where, n: nat)
    requires n <= |s| && forall i | 0 <= i < |s| :: Admits(w, s[i]) <==> i < n
    ensures Select(s, w) == s[..n]
  {
    if s != [] {
      forall i | 0 <= i < |s| - 1 ensures Admits(w, s[1..][i]) <==> i < n - 1 {
        assert s[1..][i] == s[i + 1];
      }
      SelectPrefix(s[1..], w, if n > 0 then n - 1 else 0);
      assert n > 0 ==> s[..n] == [s[0]] + s[1..][..n - 1];
    }
  }

  /** A condition that holds exactly from position `n` on selects that suffix. */
  lemma {:induction false} SelectSuffix(s: seq<Message>, w: Where, n: nat)
    requires n <= |s| && forall i | 0 <= i < |s| :: Admits(w, s[i]) <==> i >= n
    ensures Select(s, w) == s[n..]
  {
    if s != [] {
      forall i | 0 <= i < |s| - 1 ensures Admits(w, s[1..][i]) <==> i >= n - 1 {
        assert s[1..][i] == s[i + 1];
      }
      SelectSuffix(s[1..], w, if n > 0 then n - 1 else 0);
      assert n == 0 ==> s[n..] == [s[0]] + s[1..];
    }
  }

  /** The number of messages before a cursor. */
  function Older(all: seq<Message>, cursor: Option<Cursor>): (n: nat)
    ensures n <= |all|
  {
    if cursor.None? then |all| else Rank(all, PlaceOf(cursor.value))
  }

  /** The query for the messages before a cursor reads the thread backwards from it. */
  lemma BeforeRows(all: seq<Message>, cursor: Option<Cursor>, n: nat)
    requires InOrder(all)
    ensures FindDesc(all, Before(cursor), n) == Take(Reverse(all[..Older(all, cursor)]), n)
  {
    var k := Older(all, cursor);
    if cursor.Some? {
      RankSplits(all, PlaceOf(cursor.value));
    }
    forall i | 0 <= i < |all| ensures Admits(Before(cursor), all[i]) <==> i < k {
      assert cursor.Some? ==> (BeforeWhere(all[i], cursor.value) <==> Less(Place(all[i]), PlaceOf(cursor.value)));
    }
    SelectPrefix(all, Before(cursor), k);
  }

  /** The page holds the last `limit` of the first `k` messages. It names the first one when more come before it, and the last
      one when it was asked for with a cursor. */
  predicate EndsAt(all: seq<Message>, k: nat, cursor: Option<Cursor>, limit: nat, page: Page)
    requires limit >= 1
  {
    && k <= |all|
    && page.items == Last(all[..k], limit)
    && page.older == (if k <= limit then None else Some(CursorOf(all[k - limit])))
    && page.newer == (if cursor.Some? && k > 0 then Some(CursorOf(all[k - 1])) else None)
  }

  lemma OlderPageSlice(all: seq<Message>, k: nat, cursor: Option<Cursor>, limit: nat)
    requires limit >= 1 && k <= |all|
    ensures EndsAt(all, k, cursor, limit, OlderPage(Take(Reverse(all[..k]), limit + 1), cursor, limit))
  {
    var found := Take(Reverse(all[..k]), limit + 1);
    assert Reverse(Take(found, limit)) == Last(all[..k], limit) && (|found| > limit <==> k > limit) by {
      ReverseAt(all[..k]);
      TakeTwice(Reverse(all[..k]), limit);
      TakeReverse(all[..k], limit);
      ReverseTwice(Last(all[..k], limit));
    }
    LastEnds(all, k, limit);
  }

  lemma LastEnds(all: seq<Message>, k: nat, limit: nat)
    requires limit >= 1 && k <= |all|
    ensures var last := Last(all[..k], limit);
      && (last == [] <==> k == 0)
      && (k > limit ==> last[0] == all[k - limit])
      && (k > 0 ==> last[|last| - 1] == all[k - 1])
  {}

  lemma PageBeforeIs(all: seq<Message>, cursor: Option<Cursor>, limit: nat)
    requires InOrder(all) && limit >= 1
    ensures PageBefore(all, cursor, limit) == OlderPage(Take(Reverse(all[..Older(all, cursor)]), limit + 1), cursor, limit)
  {
    BeforeRows(all, cursor, limit + 1);
  }

  /** The page before a cursor is the `limit` messages that come directly before it. */
  lemma PageBeforeSlice(all: seq<Message>, cursor: Option<Cursor>, limit: nat)
    requires InOrder(all) && limit >= 1
    ensures EndsAt(all, Older(all, cursor), cursor, limit, PageBefore(all, cursor, limit))
  {
    PageBeforeIs(all, cursor, limit);
    OlderPageSlice(all, Older(all, cursor), cursor, limit);
  }

  lemma CursorRank(all: seq<Message>, i: nat)
    requires InOrder(all) && i < |all|
    ensures Older(all, Some(CursorOf(all[i]))) == i
  {
    RankOf(all, i);
  }

  /** The number of messages that are not after a cursor, which need not belong to a message of the thread. */
  function Upto(all: seq<Message>, cursor: Cursor): (n: nat)
    ensures n <= |all|
  {
    var k := Rank(all, PlaceOf(cursor));
    if k < |all| && Place(all[k]) == PlaceOf(cursor) then k + 1 else k
  }

  lemma CursorUpto(all: seq<Message>, i: nat)
    requires InOrder(all) && i < |all|
    ensures Upto(all, CursorOf(all[i])) == i + 1
  {
    RankOf(all, i);
  }

  /** The query for the messages after a cursor reads the thread on from there. */
  lemma AfterRows(all: seq<Message>, cursor: Cursor, n: nat)
    requires InOrder(all)
    ensures FindAsc(all, After(cursor), n) == Take(all[Upto(all, cursor)..], n)
  {
    var k := Rank(all, PlaceOf(cursor));
    var w := After(cursor);
    RankSplits(all, PlaceOf(cursor));
    forall j | 0 <= j < |all| ensures Admits(w, all[j]) <==> j >= Upto(all, cursor) {
      assert AfterWhere(all[j], cursor) <==> Less(PlaceOf(cursor), Place(all[j]));
      assert Less(Place(all[j]), PlaceOf(cursor)) <==> j < k;
      if j > k {
        assert Less(Place(all[k]), Place(all[j]));
      }
    }
    SelectSuffix(all, w, Upto(all, cursor));
  }

  /** All pages reached by following `olderCursor`, in the order in which they are fetched: the newest page first. */
  ghost function OlderPages(all: seq<Message>, cursor: Option<Cursor>, limit: nat): seq<seq<Message>>
    requires InOrder(all) && limit >= 1
    decreases Older(all, cursor)
  {
    var page := PageBefore(all, cursor, limit);
    PageBeforeSlice(all, cursor, limit);
    if page.older.None? then [page.items]
    else
      CursorRank(all, Older(all, cursor) - limit);
      [page.items] + OlderPages(all, page.older, limit)
  }

  /** The page holds `limit` messages from position `k` on. It names the last one when more come after it. */
  predicate StartsAt(all: seq<Message>, k: nat, limit: nat, page: Page)
    requires limit >= 1
  {
    && k <= |all|
    && page.items == Take(all[k..], limit)
    && page.older == (if k < |all| then Some(CursorOf(all[k])) else None)
    && page.newer == (if k + limit < |all| then Some(CursorOf(all[k + limit - 1])) else None)
  }

  lemma NewerPageSlice(all: seq<Message>, k: nat, limit: nat)
    requires limit >= 1 && k <= |all|
    ensures StartsAt(all, k, limit, NewerPage(Take(all[k..], limit + 1), limit))
  {
    TakeTwice(all[k..], limit);
  }

  /** The page after a cursor is the `limit` messages that come directly after it. */
  lemma PageAfterSlice(all: seq<Message>, cursor: Cursor, limit: nat)
    requires InOrder(all) && limit >= 1
    ensures StartsAt(all, Upto(all, cursor), limit, PageAfter(all, cursor, limit))
  {
    AfterRows(all, cursor, limit + 1);
    NewerPageSlice(all, Upto(all, cursor), limit);
  }

  /** All pages reached by following `newerCursor`, in order. */
  ghost function NewerPages(all: seq<Message>, cursor: Cursor, limit: nat): seq<seq<Message>>
    requires InOrder(all) && limit >= 1
    decreases |all| - Upto(all, cursor)
  {
    var page := PageAfter(all, cursor, limit);
    PageAfterSlice(all, cursor, limit);
    if page.newer.None? then [page.items]
    else
      CursorUpto(all, Upto(all, cursor) + limit - 1);
      [page.items] + NewerPages(all, page.newer.value, limit)
  }

  function Join(pages: seq<seq<Message>>): seq<Message> {
    if pages == [] then [] else pages[0] + Join(pages[1..])
  }

  /** The pages joined from the last one to the first. */
  function JoinBack(pages: seq<seq<Message>>): seq<Message> {
    if pages == [] then [] else JoinBack(pages[1..]) + pages[0]
  }

  lemma JoinBackCons(first: seq<Message>, pages: seq<seq<Message>>)
    ensures JoinBack([first] + pages) == JoinBack(pages) + first
  {
    assert ([first] + pages)[1..] == pages;
  }

  lemma JoinCons(first: seq<Message>, pages: seq<seq<Message>>)
    ensures Join([first] + pages) == first + Join(pages)
  {
    assert ([first] + pages)[1..] == pages;
  }

  lemma SplitAt(all: seq<Message>, from: nat, n: nat)
    requires from + n <= |all|
    ensures Take(all[from..], n) + all[from + n..] == all[from..]
  {
  }

  /** One step of the walk to older messages, in terms of the thread. */
  lemma OlderStep(all: seq<Message>, cursor: Option<Cursor>, limit: nat)
    requires InOrder(all) && limit >= 1
    ensures var k := Older(all, cursor);
      if k <= limit then OlderPages(all, cursor, limit) == [Last(all[..k], limit)]
      else OlderPages(all, cursor, limit) == [Last(all[..k], limit)] + OlderPages(all, Some(CursorOf(all[k - limit])), limit)
  {
    PageBeforeSlice(all, cursor, limit);
    assert PageBefore(all, cursor, limit).items == Last(all[..Older(all, cursor)], limit);
  }

  /** The pages that the first `k` messages fall into when they are read backwards. */
  function SlicesBefore(all: seq<Message>, k: nat, limit: nat): seq<seq<Message>>
    requires limit >= 1 && k <= |all|
  {
    [Last(all[..k], limit)] + (if k <= limit then [] else SlicesBefore(all, k - limit, limit))
  }

  lemma {:induction false} JoinSlicesBefore(all: seq<Message>, k: nat, limit: nat)
    requires limit >= 1 && k <= |all|
    ensures JoinBack(SlicesBefore(all, k, limit)) == all[..k]
  {
    if k <= limit {
      JoinBackCons(Last(all[..k], limit), []);
    } else {
      JoinSlicesBefore(all, k - limit, limit);
      JoinBackCons(Last(all[..k], limit), SlicesBefore(all, k - limit, limit));
      BeforeAndLast(all, k, limit);
    }
  }

  lemma BeforeAndLast(all: seq<Message>, k: nat, limit: nat)
    requires limit < k <= |all|
    ensures all[..k - limit] + Last(all[..k], limit) == all[..k]
  {}

  lemma OlderPagesMore(all: seq<Message>, cursor: Option<Cursor>, limit: nat)
    requires InOrder(all) && 1 <= limit < Older(all, cursor)
    requires OlderPages(all, Some(CursorOf(all[Older(all, cursor) - limit])), limit) == SlicesBefore(all, Older(all, cursor) - limit, limit)
    ensures OlderPages(all, cursor, limit) == SlicesBefore(all, Older(all, cursor), limit)
  {
    var k := Older(all, cursor);
    OlderStep(all, cursor, limit);
    SlicesBeforeMore(all, k, limit, OlderPages(all, Some(CursorOf(all[k - limit])), limit), OlderPages(all, cursor, limit));
  }

  lemma OlderPagesEnd(all: seq<Message>, cursor: Option<Cursor>, limit: nat)
    requires InOrder(all) && limit >= 1 && Older(all, cursor) <= limit
    ensures OlderPages(all, cursor, limit) == SlicesBefore(all, Older(all, cursor), limit)
  {
    OlderStep(all, cursor, limit);
    SlicesBeforeEnd(all, Older(all, cursor), limit, OlderPages(all, cursor, limit));
  }

  lemma {:induction false} OlderPagesAre(all: seq<Message>, cursor: Option<Cursor>, limit: nat)
    requires InOrder(all) && limit >= 1
    ensures OlderPages(all, cursor, limit) == SlicesBefore(all, Older(all, cursor), limit)
    decreases Older(all, cursor)
  {
    var k := Older(all, cursor);
    if k > limit {
      CursorRank(all, k - limit);
      OlderPagesAre(all, Some(CursorOf(all[k - limit])), limit);
      OlderPagesMore(all, cursor, limit);
    } else {
      OlderPagesEnd(all, cursor, limit);
    }
  }

  lemma SlicesBeforeMore(all: seq<Message>, k: nat, limit: nat, rest: seq<seq<Message>>, pages: seq<seq<Message>>)
    requires 1 <= limit < k <= |all| && rest == SlicesBefore(all, k - limit, limit) && pages == [Last(all[..k], limit)] + rest
    ensures pages == SlicesBefore(all, k, limit)
  {}

  lemma SlicesBeforeEnd(all: seq<Message>, k: nat, limit: nat, pages: seq<seq<Message>>)
    requires limit >= 1 && k <= |all| && k <= limit && pages == [Last(all[..k], limit)]
    ensures pages == SlicesBefore(all, k, limit)
  {
    assert [Last(all[..k], limit)] + [] == [Last(all[..k], limit)];
  }

  /** Following `olderCursor` to its end yields exactly the messages before the start, each once and in order. */
  lemma OlderWalk(all: seq<Message>, cursor: Option<Cursor>, limit: nat)
    requires InOrder(all) && limit >= 1
    ensures JoinBack(OlderPages(all, cursor, limit)) == all[..Older(all, cursor)]
  {
    OlderPagesAre(all, cursor, limit);
    JoinSlicesBefore(all, Older(all, cursor), limit);
  }

  /** The messages of a table in their total order. */
  function Thread(rows: seq<Message>): seq<Message> {
    Asc(rows, Place)
  }

  /** The table may hold the messages in any order; all other statements are about the ordered thread. */
  lemma ThreadOrders(rows: seq<Message>)
    requires DistinctKeys(rows, Place)
    ensures InOrder(Thread(rows)) && multiset(Thread(rows)) == multiset(rows)
  {
    AscSorts(rows, Place);
  }

  /** From an uncursored page the walk yields the whole thread in ascending order, each message exactly once. */
  lemma WholeThreadWalk(rows: seq<Message>, limit: nat)
    requires DistinctKeys(rows, Place) && limit >= 1
    ensures InOrder(Thread(rows))
    ensures var read := JoinBack(OlderPages(Thread(rows), None, limit));
      multiset(read) == multiset(rows) && InOrder(read)
  {
    ThreadOrders(rows);
    OlderWalk(Thread(rows), None, limit);
    assert Thread(rows)[..|Thread(rows)|] == Thread(rows);
  }

  /** One step of the walk to newer messages, in terms of the thread. */
  lemma NewerStep(all: seq<Message>, cursor: Cursor, limit: nat)
    requires InOrder(all) && limit >= 1
    ensures var k := Upto(all, cursor);
      if k + limit < |all| then NewerPages(all, cursor, limit) == [Take(all[k..], limit)] + NewerPages(all, CursorOf(all[k + limit - 1]), limit)
      else NewerPages(all, cursor, limit) == [Take(all[k..], limit)]
  {
    PageAfterSlice(all, cursor, limit);
    assert PageAfter(all, cursor, limit).items == Take(all[Upto(all, cursor)..], limit);
  }

  /** The pages that the messages from position `k` on fall into. */
  function SlicesAfter(all: seq<Message>, k: nat, limit: nat): seq<seq<Message>>
    requires limit >= 1 && k <= |all|
    decreases |all| - k
  {
    [Take(all[k..], limit)] + (if k + limit < |all| then SlicesAfter(all, k + limit, limit) else [])
  }

  lemma {:induction false} JoinSlicesAfter(all: seq<Message>, k: nat, limit: nat)
    requires limit >= 1 && k <= |all|
    ensures Join(SlicesAfter(all, k, limit)) == all[k..]
    decreases |all| - k
  {
    if k + limit < |all| {
      JoinSlicesAfter(all, k + limit, limit);
      JoinCons(Take(all[k..], limit), SlicesAfter(all, k + limit, limit));
      SplitAt(all, k, limit);
    } else {
      JoinCons(all[k..], []);
    }
  }

  lemma NewerPagesMore(all: seq<Message>, cursor: Cursor, limit: nat)
    requires InOrder(all) && limit >= 1 && Upto(all, cursor) + limit < |all|
    requires var k := Upto(all, cursor); NewerPages(all, CursorOf(all[k + limit - 1]), limit) == SlicesAfter(all, k + limit, limit)
    ensures NewerPages(all, cursor, limit) == SlicesAfter(all, Upto(all, cursor), limit)
  {
    var k := Upto(all, cursor);
    NewerStep(all, cursor, limit);
    SlicesAfterMore(all, k, limit, NewerPages(all, CursorOf(all[k + limit - 1]), limit), NewerPages(all, cursor, limit));
  }

  lemma NewerPagesEnd(all: seq<Message>, cursor: Cursor, limit: nat)
    requires InOrder(all) && limit >= 1 && |all| <= Upto(all, cursor) + limit
    ensures NewerPages(all, cursor, limit) == SlicesAfter(all, Upto(all, cursor), limit)
  {
    NewerStep(all, cursor, limit);
    SlicesAfterEnd(all, Upto(all, cursor), limit, NewerPages(all, cursor, limit));
  }

  lemma {:induction false} NewerPagesAre(all: seq<Message>, cursor: Cursor, limit: nat)
    requires InOrder(all) && limit >= 1
    ensures NewerPages(all, cursor, limit) == SlicesAfter(all, Upto(all, cursor), limit)
    decreases |all| - Upto(all, cursor)
  {
    var k := Upto(all, cursor);
    if k + limit < |all| {
      CursorUpto(all, k + limit - 1);
      NewerPagesAre(all, CursorOf(all[k + limit - 1]), limit);
      NewerPagesMore(all, cursor, limit);
    } else {
      NewerPagesEnd(all, cursor, limit);
    }
  }

  lemma SlicesAfterMore(all: seq<Message>, k: nat, limit: nat, rest: seq<seq<Message>>, pages: seq<seq<Message>>)
    requires limit >= 1 && k + limit < |all| && rest == SlicesAfter(all, k + limit, limit) && pages == [Take(all[k..], limit)] + rest
    ensures pages == SlicesAfter(all, k, limit)
  {}

  lemma SlicesAfterEnd(all: seq<Message>, k: nat, limit: nat, pages: seq<seq<Message>>)
    requires limit >= 1 && k <= |all| <= k + limit && pages == [Take(all[k..], limit)]
    ensures pages == SlicesAfter(all, k, limit)
  {
    assert [Take(all[k..], limit)] + [] == [Take(all[k..], limit)];
  }

  /** Following `newerCursor` to its end yields exactly the messages after the start, each once and in order. */
  lemma NewerWalk(all: seq<Message>, cursor: Cursor, limit: nat)
    requires InOrder(all) && limit >= 1
    ensures Join(NewerPages(all, cursor, limit)) == all[Upto(all, cursor)..]
  {
    NewerPagesAre(all, cursor, limit);
    JoinSlicesAfter(all, Upto(all, cursor), limit);
  }

  /** Where the page around the message at position `i` begins and ends. */
  function AroundFrom(i: nat, limit: nat): nat
    requires limit >= 1
  {
    if i <= BeforeLimit(limit) then 0 else i - BeforeLimit(limit)
  }

  function AroundTo(size: nat, i: nat, limit: nat): nat
    requires limit >= 1
  {
    if i + AfterLimit(limit) + 1 <= size then i + AfterLimit(limit) + 1 else size
  }

  /** The page holds the messages from position `from` up to `to`, which include position `i`, and its cursors are the
      ends of the slice where something remains behind them. */
  predicate IsSlice(all: seq<Message>, i: nat, from: nat, to: nat, page: Page) {
    && from <= i < to <= |all|
    && page.items == all[from..to]
    && page.older == (if from > 0 then Some(CursorOf(all[from])) else None)
    && page.newer == (if to < |all| then Some(CursorOf(all[to - 1])) else None)
  }

  lemma BeforePart(all: seq<Message>, i: nat, n: nat)
    requires i <= |all|
    ensures var found := Take(Reverse(all[..i]), n + 1); var from := if i <= n then 0 else i - n;
      Reverse(Take(found, n)) == all[from..i] && (|found| > n <==> from > 0)
  {
    ReverseAt(all[..i]);
    TakeTwice(Reverse(all[..i]), n);
    TakeReverse(all[..i], n);
    ReverseTwice(Last(all[..i], n));
  }

  lemma AfterPart(all: seq<Message>, i: nat, n: nat)
    requires i < |all|
    ensures var found := Take(all[i + 1..], n + 1); var to := if i + n + 1 <= |all| then i + n + 1 else |all|;
      Take(found, n) == all[i + 1..to] && (|found| > n <==> to < |all|)
  {
    TakeTwice(all[i + 1..], n);
  }

  /** Once both parts are slices of the thread, so is the whole page. */
  lemma MiddlePageSlice(all: seq<Message>, i: nat, limit: nat, before: seq<Message>, after: seq<Message>)
    requires limit >= 1 && i < |all|
    requires var from, to := AroundFrom(i, limit), AroundTo(|all|, i, limit);
      && Reverse(Take(before, BeforeLimit(limit))) == all[from..i] && (|before| > BeforeLimit(limit) <==> from > 0)
      && Take(after, AfterLimit(limit)) == all[i + 1..to] && (|after| > AfterLimit(limit) <==> to < |all|)
    ensures IsSlice(all, i, AroundFrom(i, limit), AroundTo(|all|, i, limit), MiddlePage(before, all[i], after, limit))
  {
    JoinMiddle(all, AroundFrom(i, limit), i, AroundTo(|all|, i, limit));
  }

  lemma JoinMiddle(all: seq<Message>, from: nat, i: nat, to: nat)
    requires from <= i < to <= |all|
    ensures all[from..i] + [all[i]] + all[i + 1..to] == all[from..to]
  {}

  lemma AroundParts(all: seq<Message>, i: nat, limit: nat)
    requires limit >= 1 && i < |all|
    ensures IsSlice(all, i, AroundFrom(i, limit), AroundTo(|all|, i, limit),
                    MiddlePage(Take(Reverse(all[..i]), BeforeLimit(limit) + 1), all[i], Take(all[i + 1..], AfterLimit(limit) + 1), limit))
  {
    BeforePart(all, i, BeforeLimit(limit));
    AfterPart(all, i, AfterLimit(limit));
    MiddlePageSlice(all, i, limit, Take(Reverse(all[..i]), BeforeLimit(limit) + 1), Take(all[i + 1..], AfterLimit(limit) + 1));
  }

  lemma AroundFound(all: seq<Message>, i: nat, limit: nat)
    requires InOrder(all) && limit >= 1 && i < |all|
    ensures IsSlice(all, i, AroundFrom(i, limit), AroundTo(|all|, i, limit), PageAround(all, all[i], limit))
  {
    CursorRank(all, i);
    BeforeRows(all, Some(CursorOf(all[i])), BeforeLimit(limit) + 1);
    CursorUpto(all, i);
    AfterRows(all, CursorOf(all[i]), AfterLimit(limit) + 1);
    AroundParts(all, i, limit);
  }

  /** A page around the message at position `i` is a slice of the thread: the message, the `(limit - 1) / 2` messages before it or
      all there are, and as many after it as then fit. Each cursor is the end of the slice where more remains. */
  lemma AroundSlice(all: seq<Message>, i: nat, limit: nat)
    requires InOrder(all) && limit >= 1 && i < |all|
    ensures var half := (limit - 1) / 2;
      var before := if i < half then i else half;
      var after := if |all| - 1 - i < limit - 1 - half then |all| - 1 - i else limit - 1 - half;
      && 0 <= before && 0 <= after
      && IsSlice(all, i, i - before, i + 1 + after, PageAround(all, all[i], limit))
      && |PageAround(all, all[i], limit).items| == before + 1 + after
  {
    AroundFound(all, i, limit);
    AroundNumbers(|all|, i, limit);
  }

  lemma AroundNumbers(size: nat, i: nat, limit: nat)
    requires limit >= 1 && i < size
    ensures var half := (limit - 1) / 2;
      && AroundFrom(i, limit) == i - (if i < half then i else half)
      && AroundTo(size, i, limit) == i + 1 + (if size - 1 - i < limit - 1 - half then size - 1 - i else limit - 1 - half)
  {}

  predicate Bounded(all: seq<Message>, i: nat, limit: nat, page: Page)
    requires i < |all|
  {
    && 1 <= |page.items| <= limit && all[i] in page.items
    && (page.older.None? <==> page.items[0] == all[0])
    && (page.newer.None? <==> page.items[|page.items| - 1] == all[|all| - 1])
  }

  lemma SliceBounds(all: seq<Message>, i: nat, limit: nat, page: Page)
    requires limit >= 1 && i < |all| && InOrder(all)
    requires IsSlice(all, i, AroundFrom(i, limit), AroundTo(|all|, i, limit), page)
    ensures Bounded(all, i, limit, page)
  {
    var from, to := AroundFrom(i, limit), AroundTo(|all|, i, limit);
    assert page.items[i - from] == all[i];
    DifferentPlaces(all, 0, from);
    DifferentPlaces(all, to - 1, |all| - 1);
  }

  /** A page around a message has at most `limit` messages and contains it, and a cursor is missing
      exactly when nothing is left on its side. */
  lemma AroundBounds(all: seq<Message>, i: nat, limit: nat)
    requires InOrder(all) && limit >= 1 && i < |all|
    ensures Bounded(all, i, limit, PageAround(all, all[i], limit))
  {
    AroundFound(all, i, limit);
    SliceBounds(all, i, limit, PageAround(all, all[i], limit));
  }

  lemma DifferentPlaces(all: seq<Message>, i: nat, j: nat)
    requires InOrder(all) && i <= j < |all|
    ensures all[i] == all[j] <==> i == j
  {
  }

  /** What the walk along a cursor of an `around` page adds to it. */
  ghost function OlderRest(all: seq<Message>, page: Page, limit: nat): seq<Message>
    requires InOrder(all) && limit >= 1
  {
    if page.older.None? then [] else JoinBack(OlderPages(all, page.older, limit))
  }

  ghost function NewerRest(all: seq<Message>, page: Page, limit: nat): seq<Message>
    requires InOrder(all) && limit >= 1
  {
    if page.newer.None? then [] else Join(NewerPages(all, page.newer.value, limit))
  }

  lemma OlderRestPrefix(all: seq<Message>, i: nat, limit: nat)
    requires InOrder(all) && limit >= 1 && i < |all|
    ensures OlderRest(all, PageAround(all, all[i], limit), limit) == all[..AroundFrom(i, limit)]
  {
    var page := PageAround(all, all[i], limit);
    AroundFound(all, i, limit);
    if page.older.Some? {
      CursorRank(all, AroundFrom(i, limit));
      OlderWalk(all, page.older, limit);
    }
  }

  lemma NewerRestIs(all: seq<Message>, page: Page, to: nat, limit: nat)
    requires InOrder(all) && limit >= 1 && 1 <= to <= |all|
    requires page.newer == if to < |all| then Some(CursorOf(all[to - 1])) else None
    ensures NewerRest(all, page, limit) == all[to..]
  {
    if page.newer.Some? {
      CursorUpto(all, to - 1);
      NewerWalk(all, page.newer.value, limit);
    }
  }

  lemma NewerRestSuffix(all: seq<Message>, i: nat, from: nat, to: nat, page: Page, limit: nat)
    requires InOrder(all) && limit >= 1 && IsSlice(all, i, from, to, page)
    ensures NewerRest(all, page, limit) == all[to..]
  {
    NewerRestIs(all, page, to, limit);
  }

  /** Continuing from both cursors completes the page to the whole thread, without gap or overlap. */
  lemma AroundReconstructs(all: seq<Message>, i: nat, limit: nat)
    requires InOrder(all) && limit >= 1 && i < |all|
    ensures var page := PageAround(all, all[i], limit);
      OlderRest(all, page, limit) + page.items + NewerRest(all, page, limit) == all
  {
    var from, to := AroundFrom(i, limit), AroundTo(|all|, i, limit);
    var page := PageAround(all, all[i], limit);
    AroundFound(all, i, limit);
    OlderRestPrefix(all, i, limit);
    NewerRestSuffix(all, i, from, to, page, limit);
    ThreeParts(all, from, to);
  }

  lemma ThreeParts(all: seq<Message>, from: nat, to: nat)
    requires from <= to <= |all|
    ensures all[..from] + all[from..to] + all[to..] == all
  {
  }
}
