/** Building runs one step at a time. */
module ChatRuns {
  import opened ChatModel
  import opened ChatMachine
  import opened ChatSafety

  lemma {:induction false} RunSnoc(gap: int, s: System, steps: seq<Step>, last: Step)
    requires Fitting(s)
    ensures Run(s, steps + [last]) == Apply(Run(s, steps), last)
    ensures RunWithin(gap, s, steps + [last]) <==> RunWithin(gap, s, steps) && StepWithin(gap, Run(s, steps), last)
    decreases |steps|
  {
    if steps == [] {
      assert steps + [last] == [last];
      assert Run(Apply(s, last), []) == Apply(s, last);
      assert [last][1..] == [];
    } else {
      assert (steps + [last])[0] == steps[0];
      assert (steps + [last])[1..] == steps[1..] + [last];
      RunSnoc(gap, Apply(s, steps[0]), steps[1..], last);
    }
  }

  /** Some run that stays within `gap` leads from the start to `s`. */
  ghost predicate Reachable(gap: int, s: System) {
    Fitting(s) && exists steps :: RunWithin(gap, INITIAL, steps) && Run(INITIAL, steps) == s
  }

  lemma StartReachable(gap: int)
    ensures Reachable(gap, INITIAL)
  {
    assert RunWithin(gap, INITIAL, []) && Run(INITIAL, []) == INITIAL;
  }

  lemma StepReachable(gap: int, s: System, step: Step)
    requires Reachable(gap, s) && StepWithin(gap, s, step)
    ensures Reachable(gap, Apply(s, step))
  {
    var steps :| RunWithin(gap, INITIAL, steps) && Run(INITIAL, steps) == s;
    RunSnoc(gap, INITIAL, steps, step);
  }

  lemma AskReachable(gap: int, s: System, c: nat, r: Request)
    requires Reachable(gap, s) && c !in s.calls
    ensures Reachable(gap, System(s.db, s.calls[c := Call(r, Asked)]))
  {
    StepReachable(gap, s, Ask(c, r));
  }

  lemma AdvanceReachable(gap: int, s: System, c: nat, e: Env, move: Move)
    requires Reachable(gap, s) && c in s.calls && StepWithin(gap, s, Advance(c, e))
    requires Fits(s.calls[c].request, s.calls[c].phase) && Progress(s.db, s.calls[c], e) == move
    ensures Reachable(gap, System(move.db, s.calls[c := Call(s.calls[c].request, move.phase)]))
  {
    StepReachable(gap, s, Advance(c, e));
  }
}
