/** When read markers are safe, exactly: two runs that move a marker back, and the theorem. */
module MarkerExactness {
  import opened Basics
  import opened ChatModel
  import opened ChatMachine
  import opened ChatRuns
  import opened ReadMarkers
  import opened MarkerRuns
  import opened ChatGuardExactness

  // ----- Building a run -----

  ghost predicate Reached(n: nat, ordered: bool, s: System) {
    Fitting(s) && exists steps :: RunMarked(n, ordered, steps) && Run(INITIAL, steps) == s
  }

  lemma RunMarkedSnoc(n: nat, ordered: bool, steps: seq<Step>, last: Step)
    requires RunMarked(n, ordered, steps) && StepMarked(n, ordered, Run(INITIAL, steps), last)
    ensures RunMarked(n, ordered, steps + [last]) && Run(INITIAL, steps + [last]) == Apply(Run(INITIAL, steps), last)
  {
    var all := steps + [last];
    RunSnoc(0, INITIAL, steps, last);
    forall k | 0 <= k < |all| ensures StepMarked(n, ordered, Run(INITIAL, all[..k]), all[k]) {
      if k < |steps| {
        assert all[..k] == steps[..k];
      } else {
        assert all[..k] == steps;
      }
    }
  }

  lemma StartReached(n: nat, ordered: bool)
    ensures Reached(n, ordered, INITIAL)
  {
    assert RunMarked(n, ordered, []) && Run(INITIAL, []) == INITIAL;
  }

  /** The calls that are not done. */
  function Busy(s: System): set<nat> {
    set c | c in s.calls && !s.calls[c].phase.Done?
  }

  predicate OnlyPosts(s: System) {
    forall c | c in s.calls :: !s.calls[c].request.MarkRead?
  }

  /** Where nobody marks, or only `n` calls are busy, the calls of a seat are apart. */
  predicate Few(n: nat, s: System) {
    OnlyPosts(s) || |Busy(s)| <= n
  }

  lemma StillPosts(s: System, c: nat, call: Call, db: Db)
    requires OnlyPosts(s) && !call.request.MarkRead?
    ensures OnlyPosts(System(db, s.calls[c := call]))
  {}

  lemma FewApart(n: nat, s: System)
    requires Few(n, s)
    ensures Apart(n, s)
  {
    forall seat | Marking(s, seat) ensures |Overlap(s, seat)| <= n {
      SubsetSize(Overlap(s, seat), Busy(s));
    }
  }

  lemma StepReached(n: nat, ordered: bool, s: System, step: Step)
    requires Reached(n, ordered, s) && (ordered ==> PostOrdered(s, step)) && Few(n, Apply(s, step))
    ensures StepMarked(n, ordered, s, step) && Reached(n, ordered, Apply(s, step))
  {
    FewApart(n, Apply(s, step));
    var steps :| RunMarked(n, ordered, steps) && Run(INITIAL, steps) == s;
    RunMarkedSnoc(n, ordered, steps, step);
  }

  lemma AskReached(n: nat, ordered: bool, s: System, c: nat, r: Request)
    requires Reached(n, ordered, s) && c !in s.calls && ((OnlyPosts(s) && !r.MarkRead?) || |Busy(s)| < n)
    ensures var end := System(s.db, s.calls[c := Call(r, Asked)]);
      Reached(n, ordered, end) && Busy(end) == Busy(s) + {c} && Few(n, end)
  {
    AskFew(n, s, c, r);
    StepReached(n, ordered, s, Ask(c, r));
  }

  lemma AskFew(n: nat, s: System, c: nat, r: Request)
    requires c !in s.calls && ((OnlyPosts(s) && !r.MarkRead?) || |Busy(s)| < n)
    ensures var end := System(s.db, s.calls[c := Call(r, Asked)]); Busy(end) == Busy(s) + {c} && Few(n, end)
  {
    var end := System(s.db, s.calls[c := Call(r, Asked)]);
    assert Busy(end) == Busy(s) + {c};
    if OnlyPosts(s) && !r.MarkRead? {
      StillPosts(s, c, Call(r, Asked), s.db);
    }
  }

  lemma AdvanceReached(n: nat, ordered: bool, s: System, c: nat, e: Env, move: Move)
    requires Reached(n, ordered, s) && c in Busy(s) && (ordered ==> PostOrdered(s, Advance(c, e))) && Few(n, s)
    requires Fits(s.calls[c].request, s.calls[c].phase) && Progress(s.db, s.calls[c], e) == move
    ensures var end := System(move.db, s.calls[c := Call(s.calls[c].request, move.phase)]);
      Reached(n, ordered, end) && Few(n, end) && Busy(end) == if move.phase.Done? then Busy(s) - {c} else Busy(s)
  {
    var end := System(move.db, s.calls[c := Call(s.calls[c].request, move.phase)]);
    assert Busy(end) == if move.phase.Done? then Busy(s) - {c} else Busy(s);
    SubsetSize(Busy(end), Busy(s));
    StepReached(n, ordered, s, Advance(c, e));
  }

  /** A call that is asked for and reviewed. */
  lemma ReviewReached(n: nat, ordered: bool, s: System, c: nat, r: Request, e: Env)
    requires Reached(n, ordered, s) && c !in s.calls && ((OnlyPosts(s) && !r.MarkRead?) || |Busy(s)| < n)
    requires Progress(s.db, Call(r, Asked), e) == Move(s.db, Checked(s.db))
    ensures var end := System(s.db, s.calls[c := Call(r, Checked(s.db))]);
      Reached(n, ordered, end) && Busy(end) == Busy(s) + {c} && Few(n, end)
  {
    AskReached(n, ordered, s, c, r);
    var asked := System(s.db, s.calls[c := Call(r, Asked)]);
    AskedOrdered(asked, c, e);
    AdvanceReached(n, ordered, asked, c, e, Move(s.db, Checked(s.db)));
    Overwritten(s.calls, c, Call(r, Asked), Call(r, Checked(s.db)));
  }

  lemma AskedOrdered(s: System, c: nat, e: Env)
    requires c in s.calls && s.calls[c].phase.Asked?
    ensures PostOrdered(s, Advance(c, e))
  {}

  lemma Overwritten(calls: map<nat, Call>, c: nat, one: Call, two: Call)
    ensures calls[c := one][c := two] == calls[c := two]
  {}

  /** A call that was reviewed and takes a step that keeps it under way. */
  lemma ClearReached(n: nat, ordered: bool, s: System, c: nat, r: Request, e: Env)
    requires Reached(n, ordered, s) && c in s.calls && s.calls[c] == Call(r, Checked(s.db)) && Few(n, s) && Fits(r, Checked(s.db))
    requires Progress(s.db, Call(r, Checked(s.db)), e) == Move(s.db, Cleared(s.db))
    ensures var end := System(s.db, s.calls[c := Call(r, Cleared(s.db))]); Reached(n, ordered, end) && Busy(end) == Busy(s)
  {
    AdvanceReached(n, ordered, s, c, e, Move(s.db, Cleared(s.db)));
  }

  lemma CommitReached(n: nat, ordered: bool, s: System, c: nat, e: Env, after: Db, id: nat)
    requires Reached(n, ordered, s) && c in Busy(s) && Few(n, s) && (ordered ==> PostOrdered(s, Advance(c, e)))
    requires Fits(s.calls[c].request, s.calls[c].phase) && Progress(s.db, s.calls[c], e) == Move(after, Done(Created(id)))
    ensures var end := System(after, s.calls[c := Call(s.calls[c].request, Done(Created(id)))]);
      Reached(n, ordered, end) && Busy(end) == Busy(s) - {c}
  {
    AdvanceReached(n, ordered, s, c, e, Move(after, Done(Created(id))));
  }

  lemma BusyAfter(s: System, c: nat, call: Call, db: Db)
    requires c in Busy(s) && call.phase.Done?
    ensures Busy(System(db, s.calls[c := call])) == Busy(s) - {c}
  {}

  /** A step that moves a marker back ends the safety of all runs like this one. */
  lemma StepBack(n: nat, ordered: bool, s: System, step: Step, seat: Seat)
    requires Reached(n, ordered, s) && (ordered ==> PostOrdered(s, step)) && Few(n, Apply(s, step))
    requires seat in s.db.seats && !MarkerForward(s.db, Apply(s, step).db, seat)
    ensures !MarkersSafe(n, ordered)
  {
    StepReached(n, ordered, s, step);
    var steps :| RunMarked(n, ordered, steps) && Run(INITIAL, steps) == s;
    RunMarkedSnoc(n, ordered, steps, step);
    var all := steps + [step];
    assert all[..|steps|] == steps;
    assert !NeverBack(all) by {
      assert seat in Run(INITIAL, all[..|steps|]).db.seats;
      assert !MarkerForward(Run(INITIAL, all[..|steps|]).db, Run(INITIAL, all).db, seat);
    }
  }

  // ----- A group with two messages -----

  function At(id: nat, now: Time): Env {
    Env(true, true, {1, 2, 3}, None, id, now, false)
  }

  function Writing(key: nat): Request {
    Post(Client(1), key, 10, "a", None, [])
  }

  function Reading(m: MessageId): Request {
    MarkRead(Client(2), 10, m)
  }

  /** Users 1 and 2 are in the group conversation 10, user 2 read nothing, and keys from `key` on are free. */
  predicate Room(db: Db, key: nat) {
    && 10 in db.threads && db.threads[10].kind == Group && db.threads[10].companyId == 7
    && Active(db.seats, 10, 1) && Active(db.seats, 10, 2) && db.seats[Seat(10, 2)].marker.None?
    && forall k | k in db.idem :: k.operation.Creating? || k.key < key
  }

  /** Message `m` of user 1 was written at `time`. */
  predicate Written(db: Db, m: MessageId, time: Time) {
    m in db.messages && db.messages[m].threadId == 10 && db.messages[m].createdAt == time
  }

  lemma RoomCreated() returns (db: Db)
    ensures WellFormedCreate(CREATE) && Insert(EMPTY_DB, CREATE, Quiet(10)) == Move(db, Done(Created(10)))
    ensures Room(db, 1) && db.messages == map[] && db.seats[Seat(10, 1)].marker.None?
  {
    db := CreateCommits();
    assert db.messages == map[] && db.idem.Keys == {KeyOf(CREATE)};
  }

  lemma RoomAsked(n: nat, ordered: bool) returns (s: System)
    ensures Reached(n, ordered, s) && OnlyPosts(s) && Busy(s) == {0} && s.calls.Keys == {0} && s.db == EMPTY_DB
    ensures WellFormedCreate(CREATE) && s.calls[0] == Call(CREATE, Inserting)
  {
    CreateStarts();
    StartReached(n, ordered);
    assert Busy(INITIAL) == {};
    AskReached(n, ordered, INITIAL, 0, CREATE);
    s := System(EMPTY_DB, map[][0 := Call(CREATE, Asked)]);
    AdvanceReached(n, ordered, s, 0, Quiet(0), Move(EMPTY_DB, Inserting));
    s := System(EMPTY_DB, s.calls[0 := Call(CREATE, Inserting)]);
  }

  lemma RoomOpened(n: nat, ordered: bool) returns (s: System)
    ensures Reached(n, ordered, s) && OnlyPosts(s) && Busy(s) == {} && s.calls.Keys == {0}
    ensures Room(s.db, 1) && s.db.messages == map[] && s.db.seats[Seat(10, 1)].marker.None?
  {
    var db := RoomCreated();
    s := RoomAsked(n, ordered);
    AdvanceReached(n, ordered, s, 0, Quiet(10), Move(db, Done(Created(10))));
    s := System(db, s.calls[0 := Call(CREATE, Done(Created(10)))]);
  }

  /** What the commit of a post of user 1 leaves. */
  predicate Landed(db: Db, key: nat, m: MessageId, now: Time, after: Db) {
    && Room(after, key + 1) && Written(after, m, now) && after.seats[Seat(10, 1)].marker == Some(m)
    && after.messages.Keys == db.messages.Keys + {m} && forall x | x in db.messages :: after.messages[x] == db.messages[x]
  }

  lemma WritingMoves(db: Db, key: nat, m: MessageId, now: Time) returns (after: Db)
    requires Room(db, key) && m !in db.messages
    ensures Progress(db, Call(Writing(key), Asked), At(0, 0)) == Move(db, Checked(db))
    ensures Progress(db, Call(Writing(key), Checked(db)), At(0, 0)) == Move(db, Cleared(db))
    ensures Progress(db, Call(Writing(key), Cleared(db)), At(m, now)) == Move(after, Done(Created(m)))
    ensures Landed(db, key, m, now, after)
  {
    assert KeyOf(Writing(key)) !in db.idem;
    assert ReviewPost(db, Writing(key), At(0, 0)).Proceed?;
    after := PostTx(db, Writing(key), m, now).db;
  }

  /** A post up to its commit. */
  lemma WritingPending(n: nat, ordered: bool, s: System, c: nat, key: nat, m: MessageId, now: Time) returns (end: System, after: Db)
    requires Reached(n, ordered, s) && OnlyPosts(s) && Busy(s) == {} && c !in s.calls && Room(s.db, key) && m !in s.db.messages
    ensures Reached(n, ordered, end) && OnlyPosts(end) && Busy(end) == {c} && end.db == s.db && end.calls.Keys == s.calls.Keys + {c}
    ensures end.calls[c] == Call(Writing(key), Cleared(s.db))
    ensures Progress(s.db, end.calls[c], At(m, now)) == Move(after, Done(Created(m)))
    ensures Landed(s.db, key, m, now, after)
  {
    after := WritingMoves(s.db, key, m, now);
    end := WritingCleared(n, ordered, s, c, key);
  }

  lemma WritingCleared(n: nat, ordered: bool, s: System, c: nat, key: nat) returns (end: System)
    requires Reached(n, ordered, s) && OnlyPosts(s) && Busy(s) == {} && c !in s.calls
    requires Progress(s.db, Call(Writing(key), Asked), At(0, 0)) == Move(s.db, Checked(s.db))
    requires Progress(s.db, Call(Writing(key), Checked(s.db)), At(0, 0)) == Move(s.db, Cleared(s.db))
    ensures Reached(n, ordered, end) && OnlyPosts(end) && Busy(end) == {c} && end.db == s.db && end.calls.Keys == s.calls.Keys + {c}
    ensures end.calls[c] == Call(Writing(key), Cleared(s.db))
  {
    ReviewReached(n, ordered, s, c, Writing(key), At(0, 0));
    var mid := System(s.db, s.calls[c := Call(Writing(key), Checked(s.db))]);
    ClearReached(n, ordered, mid, c, Writing(key), At(0, 0));
    end := System(s.db, mid.calls[c := Call(Writing(key), Cleared(s.db))]);
    StillPosts(s, c, Call(Writing(key), Checked(s.db)), s.db);
    StillPosts(mid, c, Call(Writing(key), Cleared(s.db)), s.db);
  }

  lemma WritingOrdered(s: System, c: nat, key: nat, m: MessageId, now: Time)
    requires c in s.calls && s.calls[c] == Call(Writing(key), Cleared(s.db)) && Seat(10, 1) in s.db.seats && Ahead(s.db, Seat(10, 1), now, m)
    ensures PostOrdered(s, Advance(c, At(m, now)))
  {}

  lemma WritingCommitted(n: nat, ordered: bool, s: System, c: nat, key: nat, m: MessageId, now: Time, after: Db)
    requires Reached(n, ordered, s) && OnlyPosts(s) && Busy(s) == {c} && s.calls[c] == Call(Writing(key), Cleared(s.db))
    requires PostOrdered(s, Advance(c, At(m, now)))
    requires Progress(s.db, s.calls[c], At(m, now)) == Move(after, Done(Created(m)))
    ensures var end := System(after, s.calls[c := Call(Writing(key), Done(Created(m)))]);
      Reached(n, ordered, end) && OnlyPosts(end) && Busy(end) == {}
  {
    CommitReached(n, ordered, s, c, At(m, now), after, m);
  }

  lemma WritingDone(n: nat, ordered: bool, s: System, c: nat, key: nat, m: MessageId, now: Time) returns (end: System)
    requires Reached(n, ordered, s) && OnlyPosts(s) && Busy(s) == {} && c !in s.calls && Room(s.db, key) && m !in s.db.messages
    requires Ahead(s.db, Seat(10, 1), now, m)
    ensures Reached(n, ordered, end) && OnlyPosts(end) && Busy(end) == {} && end.calls.Keys == s.calls.Keys + {c}
    ensures Landed(s.db, key, m, now, end.db)
  {
    var mid, after := WritingPending(n, ordered, s, c, key, m, now);
    WritingOrdered(mid, c, key, m, now);
    WritingCommitted(n, ordered, mid, c, key, m, now, after);
    end := System(after, mid.calls[c := Call(Writing(key), Done(Created(m)))]);
  }

  /** Two posts of user 1: the first committed at time 5, the second is about to commit at time 3. */
  lemma OlderPending() returns (s: System, after: Db)
    ensures Reached(0, false, s) && OnlyPosts(s) && 2 in Busy(s) && s.calls[2] == Call(Writing(2), Cleared(s.db))
    ensures Progress(s.db, s.calls[2], At(21, 3)) == Move(after, Done(Created(21)))
    ensures Written(s.db, 20, 5) && Seat(10, 1) in s.db.seats && s.db.seats[Seat(10, 1)].marker == Some(20)
    ensures Landed(s.db, 2, 21, 3, after)
  {
    s := RoomOpened(0, false);
    s := WritingDone(0, false, s, 1, 1, 20, 5);
    s, after := WritingPending(0, false, s, 2, 2, 21, 3);
  }

  /** A clock that goes back: the second post of a user sorts before the first. */
  lemma UnorderedPostMovesBack()
    ensures !MarkersSafe(0, false)
  {
    var s, after := OlderPending();
    StillPosts(s, 2, Call(Writing(2), Done(Created(21))), after);
    assert Apply(s, Advance(2, At(21, 3))) == System(after, s.calls[2 := Call(Writing(2), Done(Created(21)))]);
    StepBack(0, false, s, Advance(2, At(21, 3)), Seat(10, 1));
  }

  lemma ReadingMoves(db: Db, key: nat, m: MessageId, time: Time)
    requires Room(db, key) && Written(db, m, time)
    ensures Progress(db, Call(Reading(m), Asked), At(0, 0)) == Move(db, Checked(db))
  {
    assert ReviewMarkRead(db, Reading(m), At(0, 0)).Proceed?;
  }

  lemma TwoWritten(n: nat) returns (s: System)
    requires n >= 2
    ensures Reached(n, true, s) && Busy(s) == {} && Room(s.db, 3) && s.calls.Keys == {0, 1, 2}
    ensures Written(s.db, 20, 1) && Written(s.db, 21, 2)
  {
    s := RoomOpened(n, true);
    s := WritingDone(n, true, s, 1, 1, 20, 1);
    s := WritingDone(n, true, s, 2, 2, 21, 2);
  }

  /** Two markings of user 2 passed their reviews, of an older and of a newer message. */
  lemma ReadingsPending(n: nat) returns (s: System)
    requires n >= 2
    ensures Reached(n, true, s) && Busy(s) == {3, 4} && Room(s.db, 3)
    ensures Written(s.db, 20, 1) && Written(s.db, 21, 2)
    ensures s.calls[3] == Call(Reading(20), Checked(s.db)) && s.calls[4] == Call(Reading(21), Checked(s.db))
  {
    s := TwoWritten(n);
    ReadingReviewed(n, s, 3, 20, 1);
    s := System(s.db, s.calls[3 := Call(Reading(20), Checked(s.db))]);
    ReadingReviewed(n, s, 4, 21, 2);
    s := System(s.db, s.calls[4 := Call(Reading(21), Checked(s.db))]);
  }

  lemma ReadingReviewed(n: nat, s: System, c: nat, m: MessageId, time: Time)
    requires Reached(n, true, s) && |Busy(s)| < n && c !in s.calls && Room(s.db, 3) && Written(s.db, m, time)
    ensures var end := System(s.db, s.calls[c := Call(Reading(m), Checked(s.db))]); Reached(n, true, end) && Busy(end) == Busy(s) + {c}
  {
    ReadingMoves(s.db, 3, m, time);
    ReviewReached(n, true, s, c, Reading(m), At(0, 0));
  }

  lemma ReadingCommits(db: Db, seen: Db, m: MessageId) returns (after: Db)
    requires Active(db.seats, 10, 2)
    ensures Progress(db, Call(Reading(m), Checked(seen)), At(0, 0)) == Move(after, Done(Created(m)))
    ensures after.messages == db.messages && Active(after.seats, 10, 2) && after.seats[Seat(10, 2)].marker == Some(m)
  {
    after := MarkReadTx(db, Reading(m)).db;
  }

  /** The newer marking commits first ... */
  lemma NewerMarked(n: nat) returns (s: System, seen: Db)
    requires n >= 2
    ensures Reached(n, true, s) && Busy(s) == {3} && s.calls[3] == Call(Reading(20), Checked(seen))
    ensures Written(s.db, 20, 1) && Written(s.db, 21, 2) && Active(s.db.seats, 10, 2) && s.db.seats[Seat(10, 2)].marker == Some(21)
  {
    s := ReadingsPending(n);
    seen := s.db;
    var after := ReadingCommits(s.db, seen, 21);
    AdvanceReached(n, true, s, 4, At(0, 0), Move(after, Done(Created(21))));
    s := System(after, s.calls[4 := Call(Reading(21), Done(Created(21)))]);
  }

  /** ... and the older one last. */
  lemma TwoMarkingsMoveBack(n: nat)
    requires n >= 2
    ensures !MarkersSafe(n, true)
  {
    var s, seen := NewerMarked(n);
    var after := ReadingCommits(s.db, seen, 20);
    assert Apply(s, Advance(3, At(0, 0))) == System(after, s.calls[3 := Call(Reading(20), Done(Created(20)))]);
    BusyAfter(s, 3, Call(Reading(20), Done(Created(20))), after);
    StepBack(n, true, s, Advance(3, At(0, 0)), Seat(10, 2));
  }

  // ----- The theorem -----

  /** More runs are allowed with a larger `n`, and without ordered posts. */
  lemma MarkersSafeMonotone(n: nat, ordered: bool, wider: nat, wide: bool)
    requires n <= wider && (wide ==> ordered) && MarkersSafe(wider, wide)
    ensures MarkersSafe(n, ordered)
  {
    forall steps | RunMarked(n, ordered, steps) ensures NeverBack(steps) {
      forall k | 0 <= k < |steps| ensures StepMarked(wider, wide, Run(INITIAL, steps[..k]), steps[k]) {
        var s := Run(INITIAL, steps[..k]);
        assert StepMarked(n, ordered, s, steps[k]);
        forall seat | Marking(Apply(s, steps[k]), seat) ensures |Overlap(Apply(s, steps[k]), seat)| <= wider {
          assert |Overlap(Apply(s, steps[k]), seat)| <= n;
        }
      }
      assert RunMarked(wider, wide, steps);
    }
  }

  /** Over all interleavings of all calls, no read marker ever moves back if and only if no other call of its seat is under way
      beside a marking, and posts sort after the marker of their author; posts may overlap posts. */
  lemma MarkerSafetyExact(n: nat, ordered: bool)
    ensures MarkersSafe(n, ordered) <==> n <= 1 && ordered
  {
    if n <= 1 && ordered {
      OrderedSafe(n);
    } else if MarkersSafe(n, ordered) {
      if ordered {
        TwoMarkingsMoveBack(n);
      } else {
        MarkersSafeMonotone(0, false, n, ordered);
        UnorderedPostMovesBack();
      }
    }
  }
}
