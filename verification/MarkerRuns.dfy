/** Read markers over runs: when no marker ever moves back, in all interleavings. */
module MarkerRuns {
  import opened Basics
  import opened ChatModel
  import opened ChatMachine
  import opened ChatFrames
  import opened ChatSafety
  import opened ChatRuns
  import opened ReadMarkers

  /** A call that writes the marker of seat `s` and stands between its review and its commit. */
  predicate Underway(c: Call, s: Seat) {
    && (c.request.Post? || c.request.MarkRead?)
    && (c.phase.Checked? || c.phase.Cleared?)
    && Seat(c.request.threadId, c.request.actor.userId) == s
  }

  function Overlap(s: System, seat: Seat): set<nat> {
    set c | c in s.calls && Underway(s.calls[c], seat)
  }

  /** A marking of seat `seat` is under way. */
  predicate Marking(s: System, seat: Seat) {
    exists c :: c in s.calls && Underway(s.calls[c], seat) && s.calls[c].request.MarkRead?
  }

  /** A post that the step may commit draws a message that sorts after the marker of its author. */
  predicate PostOrdered(s: System, step: Step) {
    step.Advance? && step.call in s.calls && s.calls[step.call].request.Post? && s.calls[step.call].phase.Cleared? ==>
      var r := s.calls[step.call].request;
      Seat(r.threadId, r.actor.userId) in s.db.seats ==>
        Ahead(s.db, Seat(r.threadId, r.actor.userId), step.env.now, step.env.newId)
  }

  /** Where a marking is under way, at most `n` calls of its seat are; posts may overlap freely, and so do other seats. */
  ghost predicate Apart(n: nat, s: System) {
    forall seat | Marking(s, seat) :: |Overlap(s, seat)| <= n
  }

  ghost predicate StepMarked(n: nat, ordered: bool, s: System, step: Step)
    requires Fitting(s)
  {
    Apart(n, Apply(s, step)) && (ordered ==> PostOrdered(s, step))
  }

  ghost predicate RunMarked(n: nat, ordered: bool, steps: seq<Step>) {
    forall k | 0 <= k < |steps| :: StepMarked(n, ordered, Run(INITIAL, steps[..k]), steps[k])
  }

  /** No marker stands further back at the end of the run than in any state before. */
  ghost predicate NeverBack(steps: seq<Step>) {
    forall k, s | 0 <= k <= |steps| && s in Run(INITIAL, steps[..k]).db.seats ::
      MarkerForward(Run(INITIAL, steps[..k]).db, Run(INITIAL, steps).db, s)
  }

  /** No run with at most `n` calls of a seat beside a marking of it, and with ordered posts if that is asked for, moves a
      marker back. */
  ghost predicate MarkersSafe(n: nat, ordered: bool) {
    forall steps :: RunMarked(n, ordered, steps) ==> NeverBack(steps)
  }

  // ----- The invariant -----

  /** A marking under way: its seat still has the marker that its review saw. */
  ghost predicate Undisturbed(db: Db, c: Call) {
    c.request.MarkRead? && c.phase.Checked? ==>
      var s, seen := Seat(c.request.threadId, c.request.actor.userId), c.phase.seen;
      MarkersOk(seen) && s in seen.seats && s in db.seats && db.seats[s].marker == seen.seats[s].marker
  }

  ghost predicate Marked(n: nat, s: System) {
    && Sound(s) && MarkersOk(s.db)
    && (forall c | c in s.calls :: Undisturbed(s.db, s.calls[c]))
    && Apart(n, s)
  }

  /** A marking that meets the marker it saw moves it forward, whatever else happened in between. */
  lemma UndisturbedForward(db: Db, seen: Db, r: Request)
    requires r.MarkRead? && Extends(seen, db) && Passed(seen, r) && MarkersOk(seen) && MarkersOk(db)
    requires var s := Seat(r.threadId, r.actor.userId); s in seen.seats && s in db.seats && db.seats[s].marker == seen.seats[s].marker
    ensures MarkReadTx(db, r).Committed? && MarkersOk(MarkReadTx(db, r).db)
    ensures MarkerForward(db, MarkReadTx(db, r).db, Seat(r.threadId, r.actor.userId))
  {
    var e :| Review(seen, r, e).Proceed?;
    assert ReviewMarkRead(seen, r, e).Proceed?;
  }

  /** What a post or a marking under way does: nothing, or its transaction. */
  lemma WriterMoves(db: Db, c: Call, e: Env)
    requires Fits(c.request, c.phase) && (c.request.Post? || c.request.MarkRead?)
    ensures var after := Progress(db, c, e).db;
      after == db
      || (c.request.Post? && c.phase.Cleared? && PostTx(db, c.request, e.newId, e.now) == Committed(after))
      || (c.request.MarkRead? && c.phase.Checked? && MarkReadTx(db, c.request) == Committed(after))
  {}

  /** One step of a call keeps all markers, or writes the marker of its own seat while it is under way. */
  lemma OwnMarkerOnly(db: Db, c: Call, e: Env, s: Seat)
    requires Linked(db) && Fits(c.request, c.phase)
    ensures SameMarker(db, Progress(db, c, e).db, s) || (Underway(c, s) && s in db.seats)
  {
    if c.request.Post? || c.request.MarkRead? {
      WriterMoves(db, c, e);
    } else {
      ProgressMarkers(db, c, e, s);
    }
  }

  lemma MarkersOkAfter(db: Db, c: Call, e: Env)
    requires Linked(db) && MarkersOk(db) && Grounded(db, c)
    ensures MarkersOk(Progress(db, c, e).db)
  {
    if c.request.Post? || c.request.MarkRead? {
      WriterMoves(db, c, e);
      var after := Progress(db, c, e).db;
      if after != db && c.request.MarkRead? {
        var e' :| Review(c.phase.seen, c.request, e').Proceed?;
      }
    } else {
      StepKeepsMarkers(db, c, e);
    }
  }

  /** No marker moves back in a step of an undisturbed call when posts are ordered. */
  lemma AdvanceForward(s: System, c: nat, e: Env, seat: Seat)
    requires Sound(s) && MarkersOk(s.db) && c in s.calls && seat in s.db.seats && Undisturbed(s.db, s.calls[c])
    requires Underway(s.calls[c], seat) ==> PostOrdered(s, Advance(c, e))
    ensures MarkerForward(s.db, Progress(s.db, s.calls[c], e).db, seat)
  {
    var call := s.calls[c];
    var after := Progress(s.db, call, e).db;
    ProgressGrounded(s.db, call, e);
    OwnMarkerOnly(s.db, call, e, seat);
    if SameMarker(s.db, after, seat) {
      SameMarkers(s.db, after, seat);
    } else {
      WriterMoves(s.db, call, e);
      if call.request.Post? {
        PostMarkerExact(s.db, call.request, e.newId, e.now);
      } else {
        UndisturbedForward(s.db, call.phase.seen, call.request);
      }
    }
  }

  /** Another marking of the seat would be a second call under way. */
  lemma OtherUndisturbed(s: System, c: nat, e: Env, d: nat)
    requires Marked(1, s) && c in s.calls && d in s.calls && c != d
    ensures Undisturbed(Progress(s.db, s.calls[c], e).db, s.calls[d])
  {
    if s.calls[d].request.MarkRead? && s.calls[d].phase.Checked? {
      var seat := Seat(s.calls[d].request.threadId, s.calls[d].request.actor.userId);
      assert Marking(s, seat);
      OnlyOneUnderway(s, c, d, seat);
      OwnMarkerOnly(s.db, s.calls[c], e, seat);
      StillUndisturbed(s.db, Progress(s.db, s.calls[c], e).db, s.calls[d], seat);
    }
  }

  lemma OnlyOneUnderway(s: System, c: nat, d: nat, seat: Seat)
    requires |Overlap(s, seat)| <= 1 && c in s.calls && d in s.calls && c != d && Underway(s.calls[d], seat)
    ensures !Underway(s.calls[c], seat)
  {
    if Underway(s.calls[c], seat) {
      SubsetSize({c, d}, Overlap(s, seat));
    }
  }

  lemma StillUndisturbed(db: Db, after: Db, c: Call, seat: Seat)
    requires c.request.MarkRead? && seat == Seat(c.request.threadId, c.request.actor.userId)
    requires Undisturbed(db, c) && SameMarker(db, after, seat)
    ensures Undisturbed(after, c)
  {}

  lemma OwnUndisturbed(s: System, c: nat, e: Env)
    requires Marked(1, s) && c in s.calls
    ensures var move := Progress(s.db, s.calls[c], e);
      Undisturbed(move.db, Call(s.calls[c].request, move.phase))
  {}

  lemma AdvanceMarked(n: nat, s: System, c: nat, e: Env)
    requires n <= 1 && Marked(n, s) && Fitting(s) && c in s.calls && Apart(n, Apply(s, Advance(c, e)))
    ensures Marked(n, Apply(s, Advance(c, e)))
  {
    var end := Apply(s, Advance(c, e));
    StepSound(s, Advance(c, e));
    MarkersOkAfter(s.db, s.calls[c], e);
    forall d | d in end.calls ensures Undisturbed(end.db, end.calls[d]) {
      if d == c {
        OwnUndisturbed(s, c, e);
      } else {
        OtherUndisturbed(s, c, e, d);
      }
    }
  }

  /** One step of a marked system: it stays marked, and no marker moves back. */
  lemma StepForward(n: nat, s: System, step: Step)
    requires n <= 1 && Marked(n, s) && Fitting(s) && StepMarked(n, true, s, step)
    ensures Marked(n, Apply(s, step)) && MessagesGrow(s.db.messages, Apply(s, step).db.messages)
    ensures forall seat | seat in s.db.seats :: MarkerForward(s.db, Apply(s, step).db, seat)
  {
    StepSound(s, step);
    if step.Advance? && step.call in s.calls {
      AdvanceMarked(n, s, step.call, step.env);
      forall seat | seat in s.db.seats ensures MarkerForward(s.db, Apply(s, step).db, seat) {
        AdvanceForward(s, step.call, step.env, seat);
      }
    } else {
      forall seat | seat in s.db.seats ensures MarkerForward(s.db, Apply(s, step).db, seat) {
        SameMarkers(s.db, Apply(s, step).db, seat);
      }
    }
  }

  lemma RunStep(steps: seq<Step>, k: nat)
    requires k < |steps|
    ensures Run(INITIAL, steps[..k + 1]) == Apply(Run(INITIAL, steps[..k]), steps[k])
  {
    assert steps[..k + 1] == steps[..k] + [steps[k]];
    RunSnoc(0, INITIAL, steps[..k], steps[k]);
  }

  lemma InitialMarked(n: nat)
    ensures Marked(n, INITIAL)
  {
    assert forall seat :: !Marking(INITIAL, seat);
  }

  lemma {:induction false} RunForward(n: nat, steps: seq<Step>, k: nat)
    requires n <= 1 && RunMarked(n, true, steps) && k <= |steps|
    ensures Marked(n, Run(INITIAL, steps[..k]))
  {
    if k == 0 {
      assert steps[..0] == [];
      InitialMarked(n);
    } else {
      RunForward(n, steps, k - 1);
      RunStep(steps, k - 1);
      assert StepMarked(n, true, Run(INITIAL, steps[..k - 1]), steps[k - 1]);
      StepForward(n, Run(INITIAL, steps[..k - 1]), steps[k - 1]);
    }
  }

  lemma NextForward(n: nat, steps: seq<Step>, k: nat, s: Seat)
    requires n <= 1 && RunMarked(n, true, steps) && k < |steps| && s in Run(INITIAL, steps[..k]).db.seats
    ensures var now, next := Run(INITIAL, steps[..k]).db, Run(INITIAL, steps[..k + 1]).db;
      MarkerForward(now, next, s) && MessagesGrow(now.messages, next.messages)
  {
    RunForward(n, steps, k);
    RunStep(steps, k);
    assert StepMarked(n, true, Run(INITIAL, steps[..k]), steps[k]);
    StepForward(n, Run(INITIAL, steps[..k]), steps[k]);
  }

  lemma {:induction false} ForwardFrom(n: nat, steps: seq<Step>, k: nat, m: nat, s: Seat)
    requires n <= 1 && RunMarked(n, true, steps) && k <= m <= |steps| && s in Run(INITIAL, steps[..k]).db.seats
    ensures MarkerForward(Run(INITIAL, steps[..k]).db, Run(INITIAL, steps[..m]).db, s)
  {
    var from, to := Run(INITIAL, steps[..k]), Run(INITIAL, steps[..m]);
    if m == k {
      RunForward(n, steps, k);
      SameMarkers(from.db, to.db, s);
    } else {
      var mid := Run(INITIAL, steps[..m - 1]);
      ForwardFrom(n, steps, k, m - 1, s);
      NextForward(n, steps, m - 1, s);
      MarkerForwardTransitive(from.db, mid.db, to.db, s);
    }
  }

  lemma OrderedSafe(n: nat)
    requires n <= 1
    ensures MarkersSafe(n, true)
  {
    forall steps | RunMarked(n, true, steps) ensures NeverBack(steps) {
      assert steps[..|steps|] == steps;
      forall k, s | 0 <= k <= |steps| && s in Run(INITIAL, steps[..k]).db.seats
        ensures MarkerForward(Run(INITIAL, steps[..k]).db, Run(INITIAL, steps).db, s)
      {
        ForwardFrom(n, steps, k, |steps|, s);
      }
    }
  }
}
