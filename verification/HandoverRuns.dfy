/** Deactivations over runs: the open work of the target is counted before the transaction, and other steps come in between. */
module HandoverRuns {
  import opened Basics
  import opened Deactivation
  import opened DeactivationRuns

  /** From `a` to `b` the user gets an open task to report or to be responsible for. */
  predicate GivesTasks(a: Db, b: Db, u: UserId) {
    !(Reported(b, u) <= Reported(a, u) && Carried(b, u) <= Carried(a, u))
  }

  predicate GivesDocuments(a: Db, b: Db, u: UserId) {
    !(Owned(b, u) <= Owned(a, u))
  }

  /** A deactivation without a new owner whose target's tasks were counted; in `Cleared` the documents were, too. */
  predicate Weighed(c: Call) {
    c.request.Deactivate? && c.request.newOwner.None? && (c.phase.Tallied? || c.phase.Cleared?)
  }

  /** The step gives the target of call `c` something of a kind that the call has counted already. */
  ghost predicate Gift(c: nat, s: System, step: Step) {
    && c in s.calls && Weighed(s.calls[c])
    && var u, after := s.calls[c].request.target, Do(s, step).db;
       GivesTasks(s.db, after, u) || (s.calls[c].phase.Cleared? && GivesDocuments(s.db, after, u))
  }

  /** How many steps of the run give something to the target of call `c` between the count and the transaction. */
  ghost function Gifts(c: nat, s: System, steps: seq<Step>): nat
    decreases |steps|
  {
    if steps == [] then 0 else (if Gift(c, s, steps[0]) then 1 else 0) + Gifts(c, Do(s, steps[0]), steps[1..])
  }

  ghost predicate GiftsWithin(n: nat, s: System, steps: seq<Step>) {
    forall c :: Gifts(c, s, steps) <= n
  }

  /** The step commits a deactivation. */
  ghost predicate Commits(s: System, step: Step) {
    && step.Advance? && step.call in s.calls && s.calls[step.call].request.Deactivate? && s.calls[step.call].phase.Cleared?
    && Do(s, step).calls[step.call].phase == Ended(true)
  }

  /** A deactivation that commits, and was not asked to hand over to its target, leaves the target with nothing. */
  ghost predicate StepHandsOver(s: System, step: Step) {
    Commits(s, step) && s.calls[step.call].request.newOwner != Some(s.calls[step.call].request.target) ==>
      HandedOver(s.db, Do(s, step).db, s.calls[step.call].request.target)
  }

  ghost predicate RunHandsOver(s: System, steps: seq<Step>)
    decreases |steps|
  {
    steps != [] ==> StepHandsOver(s, steps[0]) && RunHandsOver(Do(s, steps[0]), steps[1..])
  }

  /** In every run, from any database, with at most `n` gifts to the target of any one call. */
  ghost predicate HandsOverWithin(n: nat) {
    forall db, steps | GiftsWithin(n, System(db, map[]), steps) :: RunHandsOver(System(db, map[]), steps)
  }

  // ----- Without gifts -----

  /** What was counted as nothing is still nothing. */
  predicate StillNothing(db: Db, c: Call) {
    Weighed(c) ==>
      var u := c.request.target;
      && (c.phase.Cleared? || c.phase.tasks == 0 ==> Reported(db, u) == {} && Carried(db, u) == {})
      && (c.phase.Cleared? ==> Owned(db, u) == {})
  }

  ghost predicate Quiet(s: System) {
    forall c | c in s.calls :: StillNothing(s.db, s.calls[c])
  }

  lemma NothingTallied(db: Db, r: Request)
    requires Tally(db, r) == 0
    ensures Reported(db, r.target) == {} && Carried(db, r.target) == {}
  {
    assert Reported(db, r.target) + Carried(db, r.target) == {};
  }

  /** The counts of a call that goes on found nothing. */
  lemma OwnQuiet(db: Db, c: Call, fault: bool)
    requires StillNothing(db, c) && !c.phase.Cleared?
    ensures StillNothing(db, Call(c.request, Progress(db, c, fault).phase))
  {
    if c.phase.Counted? && Tally(db, c.request) == 0 {
      NothingTallied(db, c.request);
    }
  }

  /** Without a gift the counts stay true. */
  lemma OtherQuiet(s: System, step: Step, c: nat)
    requires c in s.calls && StillNothing(s.db, s.calls[c]) && !Gift(c, s, step)
    ensures StillNothing(Do(s, step).db, s.calls[c])
  {}

  lemma StepQuiet(s: System, step: Step)
    requires Quiet(s) && forall c :: !Gift(c, s, step)
    ensures Quiet(Do(s, step))
  {
    var end := Do(s, step);
    forall c | c in end.calls ensures StillNothing(end.db, end.calls[c]) {
      if step.Advance? && step.call == c && c in s.calls {
        if !s.calls[c].phase.Cleared? {
          OwnQuiet(s.db, s.calls[c], step.fault);
        }
      } else if c in s.calls {
        OtherQuiet(s, step, c);
      }
    }
  }

  lemma QuietHandsOver(s: System, step: Step)
    requires Quiet(s)
    ensures StepHandsOver(s, step)
  {
    if Commits(s, step) && s.calls[step.call].request.newOwner != Some(s.calls[step.call].request.target) {
      var r := s.calls[step.call].request;
      assert StillNothing(s.db, s.calls[step.call]);
      DeactivationHandsOver(s.db, r.target, r.newOwner, r.actor);
    }
  }

  lemma {:induction false} NoGifts(s: System, steps: seq<Step>)
    requires Quiet(s) && GiftsWithin(0, s, steps)
    ensures RunHandsOver(s, steps)
    decreases |steps|
  {
    if steps != [] {
      forall c ensures !Gift(c, s, steps[0]) && Gifts(c, Do(s, steps[0]), steps[1..]) <= 0 {
        assert Gifts(c, s, steps) <= 0;
      }
      QuietHandsOver(s, steps[0]);
      StepQuiet(s, steps[0]);
      NoGifts(Do(s, steps[0]), steps[1..]);
    }
  }

  // ----- One gift -----

  lemma {:induction false} GiftsSnoc(c: nat, s: System, steps: seq<Step>, last: Step)
    ensures Gifts(c, s, steps + [last]) == Gifts(c, s, steps) + if Gift(c, Run(s, steps), last) then 1 else 0
    decreases |steps|
  {
    if steps == [] {
      assert [] + [last] == [last] && [last][1..] == [];
      assert Gifts(c, Do(s, last), []) == 0;
    } else {
      assert (steps + [last])[1..] == steps[1..] + [last];
      GiftsSnoc(c, Do(s, steps[0]), steps[1..], last);
    }
  }

  lemma {:induction false} LastHandsOver(s: System, steps: seq<Step>, last: Step)
    requires RunHandsOver(s, steps + [last])
    ensures StepHandsOver(Run(s, steps), last)
    decreases |steps|
  {
    if steps == [] {
      assert [] + [last] == [last];
    } else {
      assert (steps + [last])[1..] == steps[1..] + [last];
      LastHandsOver(Do(s, steps[0]), steps[1..], last);
    }
  }

  const LONE := Db(map[], map[], map[], map[1 := User(5, true, true, 1), 2 := User(5, false, true, 1)], map[])
  const LATE := Db(map[7 := Task(New, 2, 1)], map[], map[], LONE.users, map[])
  const CLOSING := Deactivate(1, 5, 2, None)

  /** A run with at most `n` gifts leads to this state. */
  ghost predicate Arrived(n: nat, s: System) {
    exists steps :: GiftsWithin(n, System(LONE, map[]), steps) && Run(System(LONE, map[]), steps) == s
  }

  lemma StepArrived(n: nat, s: System, step: Step)
    requires Arrived(n, s)
    ensures Arrived(n + 1, Do(s, step))
    ensures Do(s, step).db == s.db ==> Arrived(n, Do(s, step))
  {
    var start := System(LONE, map[]);
    var steps :| GiftsWithin(n, start, steps) && Run(start, steps) == s;
    RunSnoc(start, steps, step);
    forall c ensures Gifts(c, start, steps + [step]) <= n + 1 && (Do(s, step).db == s.db ==> Gifts(c, start, steps + [step]) <= n) {
      assert Gifts(c, start, steps) <= n;
      GiftsSnoc(c, start, steps, step);
    }
    assert GiftsWithin(n + 1, start, steps + [step]);
    assert Do(s, step).db == s.db ==> GiftsWithin(n, start, steps + [step]);
  }

  lemma LateChecks()
    ensures Progress(LONE, Call(CLOSING, Asked), false) == Move(LONE, Found(false))
    ensures Progress(LONE, Call(CLOSING, Found(false)), false) == Move(LONE, Counted)
    ensures Progress(LONE, Call(CLOSING, Counted), false) == Move(LONE, Tallied(0))
    ensures Progress(LONE, Call(CLOSING, Tallied(0)), false) == Move(LONE, Cleared)
    ensures Harmless(LONE, LATE)
  {
    assert Reported(LONE, 2) == {} && Carried(LONE, 2) == {} && Owned(LONE, 2) == {};
    forall w ensures ActiveAdmins(LONE, w) == ActiveAdmins(LATE, w) {}
  }

  lemma ClosingAdvances(phase: Phase, next: Phase)
    requires Arrived(0, System(LONE, map[0 := Call(CLOSING, phase)]))
    requires Progress(LONE, Call(CLOSING, phase), false) == Move(LONE, next)
    ensures Arrived(0, System(LONE, map[0 := Call(CLOSING, next)]))
  {
    assert map[0 := Call(CLOSING, phase)][0 := Call(CLOSING, next)] == map[0 := Call(CLOSING, next)];
    StepArrived(0, System(LONE, map[0 := Call(CLOSING, phase)]), Advance(0, false));
  }

  lemma ClosingCleared()
    ensures Arrived(0, System(LONE, map[0 := Call(CLOSING, Cleared)]))
  {
    LateChecks();
    assert GiftsWithin(0, System(LONE, map[]), []) && Run(System(LONE, map[]), []) == System(LONE, map[]);
    StepArrived(0, System(LONE, map[]), Ask(0, CLOSING));
    ClosingAdvances(Asked, Found(false));
    ClosingAdvances(Found(false), Counted);
    ClosingAdvances(Counted, Tallied(0));
    ClosingAdvances(Tallied(0), Cleared);
  }

  /** User 2 had nothing when it was counted, and reports a task when the transaction is about to run. */
  lemma TaskCameLate() returns (s: System)
    ensures Arrived(1, s) && s == System(LATE, map[0 := Call(CLOSING, Cleared)])
  {
    LateChecks();
    ClosingCleared();
    s := System(LATE, map[0 := Call(CLOSING, Cleared)]);
    assert Do(System(LONE, map[0 := Call(CLOSING, Cleared)]), Change(LATE)) == s;
    StepArrived(0, System(LONE, map[0 := Call(CLOSING, Cleared)]), Change(LATE));
  }

  lemma LateTransaction(s: System)
    requires s == System(LATE, map[0 := Call(CLOSING, Cleared)])
    ensures var end := Do(s, Advance(0, false));
      Commits(s, Advance(0, false)) && 7 in Reported(end.db, 2) && 2 in end.db.users && !end.db.users[2].active
  {
    assert Progress(LATE, Call(CLOSING, Cleared), false) == Move(CloseAccount(LATE, 2), Ended(true));
  }

  /** A task given to the target after the count and before the transaction stays with the closed account. */
  lemma LateTaskStays()
    ensures !HandsOverWithin(1)
  {
    var s := TaskCameLate();
    LateTransaction(s);
    assert !StepHandsOver(s, Advance(0, false));
    var start, steps :| start == System(LONE, map[]) && GiftsWithin(1, start, steps) && Run(start, steps) == s;
    LateRun(steps, s);
  }

  lemma LateRun(steps: seq<Step>, s: System)
    requires GiftsWithin(1, System(LONE, map[]), steps) && Run(System(LONE, map[]), steps) == s
    requires s == System(LATE, map[0 := Call(CLOSING, Cleared)]) && !StepHandsOver(s, Advance(0, false))
    ensures !HandsOverWithin(1)
  {
    var all, start := steps + [Advance(0, false)], System(LONE, map[]);
    forall c ensures Gifts(c, start, all) <= 1 {
      assert Gifts(c, start, steps) <= 1;
      GiftsSnoc(c, start, steps, Advance(0, false));
      CommitGivesNothing(s, c);
    }
    if RunHandsOver(start, all) {
      LastHandsOver(start, steps, Advance(0, false));
    }
  }

  lemma CommitGivesNothing(s: System, c: nat)
    requires s == System(LATE, map[0 := Call(CLOSING, Cleared)])
    ensures !Gift(c, s, Advance(0, false))
  {
    assert Progress(LATE, Call(CLOSING, Cleared), false) == Move(CloseAccount(LATE, 2), Ended(true));
  }

  // ----- The theorem -----

  /** In all interleavings of all runs, every committed deactivation that was not asked to hand over to its target leaves the
      target with nothing and every task with the responsible persons it needs, if and only if no step gives the target of a
      deactivation without a new owner something after it was counted. */
  lemma HandsOverExact(n: nat)
    ensures HandsOverWithin(n) <==> n == 0
  {
    if n == 0 {
      forall db, steps | GiftsWithin(0, System(db, map[]), steps) ensures RunHandsOver(System(db, map[]), steps) {
        NoGifts(System(db, map[]), steps);
      }
    } else if HandsOverWithin(n) {
      forall db, steps | GiftsWithin(1, System(db, map[]), steps) ensures RunHandsOver(System(db, map[]), steps) {
        forall c ensures Gifts(c, System(db, map[]), steps) <= n {
          assert Gifts(c, System(db, map[]), steps) <= 1;
        }
      }
      LateTaskStays();
    }
  }
}
