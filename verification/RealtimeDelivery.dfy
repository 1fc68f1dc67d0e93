/** The delivery guarantees of the live stream: access was checked after the publication, the first failed check ends the
    stream with one reset, and nothing is missed exactly when every subscription finds its subject registered. */
module RealtimeDelivery {
  import opened Basics
  import opened Realtime
  import opened RealtimeSafety

  // ----- Every delivery was checked -----

  predicate WasPublished(steps: seq<Step>, p: Publication) {
    p.at < |steps| && steps[p.at] == Publish(p.threadId)
  }

  /** At this step the participant row was there, and its thread was of this kind. */
  predicate Present(s: System, steps: seq<Step>, t: ThreadId, u: UserId, kind: Kind, at: nat) {
    at < |steps|
    && var tables := After(s, steps[..at]).tables;
       (t, u) in tables.participants && t in tables.kinds && tables.kinds[t] == kind
  }

  predicate Member(s: System, steps: seq<Step>, g: GroupId, u: UserId, at: nat) {
    at < |steps| && (g, u) in After(s, steps[..at]).tables.members
  }

  /** Both queries of an access check succeeded, each at its own step; a thread outside a group needs the first only. */
  ghost predicate Checked(s: System, steps: seq<Step>, t: ThreadId, u: UserId, first: nat, last: nat) {
    || (first == last && Present(s, steps, t, u, Plain, first))
    || (exists g :: Present(s, steps, t, u, OfGroup(Some(g)), first) && Member(s, steps, g, u, last))
  }

  ghost predicate SubTrue(s: System, steps: seq<Step>, sub: Sub) {
    && (forall r | r in sub.received && r.Got? :: Checked(s, steps, sub.threadId, sub.userId, r.first, r.last))
    && (sub.check.Some? ==>
          Present(s, steps, sub.threadId, sub.userId, OfGroup(Some(sub.check.value.group)), sub.check.value.first))
  }

  lemma PresentGrows(s: System, steps: seq<Step>, step: Step, t: ThreadId, u: UserId, kind: Kind, at: nat)
    requires Present(s, steps, t, u, kind, at)
    ensures Present(s, steps + [step], t, u, kind, at)
  {
    assert (steps + [step])[..at] == steps[..at];
  }

  lemma CheckedGrows(s: System, steps: seq<Step>, step: Step, t: ThreadId, u: UserId, first: nat, last: nat)
    requires Checked(s, steps, t, u, first, last)
    ensures Checked(s, steps + [step], t, u, first, last)
  {
    if first == last && Present(s, steps, t, u, Plain, first) {
      PresentGrows(s, steps, step, t, u, Plain, first);
    } else {
      var g :| Present(s, steps, t, u, OfGroup(Some(g)), first) && Member(s, steps, g, u, last);
      PresentGrows(s, steps, step, t, u, OfGroup(Some(g)), first);
      assert (steps + [step])[..last] == steps[..last];
      assert Member(s, steps + [step], g, u, last);
    }
  }

  /** What the participant query finds. */
  predicate Enters(s: System, sub: Sub, kind: Kind) {
    (sub.threadId, sub.userId) in s.tables.participants && sub.threadId in s.tables.kinds && s.tables.kinds[sub.threadId] == kind
  }

  /** A chat event that a step adds was checked with this step as the last query. */
  predicate NewReceipt(s: System, sub: Sub, r: Received) {
    r.Got? ==>
      && r.last == s.clock
      && if sub.check.None? then r.first == s.clock && Enters(s, sub, Plain)
         else r.first == sub.check.value.first && (sub.check.value.group, sub.userId) in s.tables.members
  }

  /** What a step may do to a subscriber, as far as checks are concerned. */
  ghost predicate Grows(s: System, sub: Sub, end: Sub) {
    && end.userId == sub.userId && end.threadId == sub.threadId
    && (end.check == sub.check || end.check.None? || (end.check.value.first == s.clock && Enters(s, sub, OfGroup(Some(end.check.value.group)))))
    && (end.received == sub.received || end.received == [Ready] || exists r :: end.received == sub.received + [r] && NewReceipt(s, sub, r))
  }

  lemma SettleGrows(s: System, sub: Sub, what: Received)
    requires sub.queue != [] && NewReceipt(s, sub, what)
    ensures Grows(s, sub, Settle(sub, what)) && Grows(s, sub, Close(Settle(sub, what)))
  {}

  lemma BeginGrows(s: System, id: SubId)
    requires id in s.subs && s.subs[id].queue != [] && s.subs[id].check.None?
    ensures id in Do(s, Begin(id)).subs && Grows(s, s.subs[id], Do(s, Begin(id)).subs[id])
  {
    var sub := s.subs[id];
    SettleGrows(s, sub, Pinged);
    SettleGrows(s, sub, Reset);
    if Enters(s, sub, Plain) {
      SettleGrows(s, sub, Receipt(sub.queue[0], s.clock, s.clock));
    }
  }

  lemma FinishGrows(s: System, id: SubId)
    requires id in s.subs && s.subs[id].queue != [] && s.subs[id].check.Some?
    ensures id in Do(s, Finish(id)).subs && Grows(s, s.subs[id], Do(s, Finish(id)).subs[id])
  {
    var sub := s.subs[id];
    SettleGrows(s, sub, Reset);
    if (sub.check.value.group, sub.userId) in s.tables.members {
      SettleGrows(s, sub, Receipt(sub.queue[0], sub.check.value.first, s.clock));
    }
  }

  lemma OwnGrows(s: System, step: Step)
    requires Own(step) && step.id in s.subs
    ensures step.id in Do(s, step).subs && Grows(s, s.subs[step.id], Do(s, step).subs[step.id])
  {
    var sub := s.subs[step.id];
    if sub.queue != [] {
      if step.Begin? && sub.check.None? {
        BeginGrows(s, step.id);
      } else if step.Finish? && sub.check.Some? {
        FinishGrows(s, step.id);
      } else {
        SettleGrows(s, sub, Errored);
      }
    }
  }

  lemma GrowsTrue(s: System, steps: seq<Step>, step: Step, sub: Sub, end: Sub)
    requires Initial(s) && After(s, steps).clock == |steps| && SubTrue(s, steps, sub) && Grows(After(s, steps), sub, end)
    ensures SubTrue(s, steps + [step], end)
  {
    var now := |steps|;
    assert (steps + [step])[..now] == steps;
    if end.check.Some? {
      if end.check == sub.check {
        PresentGrows(s, steps, step, sub.threadId, sub.userId, OfGroup(Some(sub.check.value.group)), sub.check.value.first);
      }
    }
    forall r | r in end.received && r.Got? ensures Checked(s, steps + [step], end.threadId, end.userId, r.first, r.last) {
      if r in sub.received {
        CheckedGrows(s, steps, step, sub.threadId, sub.userId, r.first, r.last);
      } else {
        if sub.check.Some? {
          PresentGrows(s, steps, step, sub.threadId, sub.userId, OfGroup(Some(sub.check.value.group)), sub.check.value.first);
          assert Member(s, steps + [step], sub.check.value.group, sub.userId, now);
        } else {
          assert Present(s, steps + [step], sub.threadId, sub.userId, Plain, now);
        }
      }
    }
  }

  /** Where the subscribers of the next state come from. */
  lemma SubOrigin(s: System, step: Step, id: SubId)
    requires id in Do(s, step).subs
    ensures var end := Do(s, step).subs[id];
      if id in s.subs then Grows(s, s.subs[id], end) else end.received == [] && end.check.None?
  {
    if Own(step) && step.id in s.subs {
      OwnGrows(s, step);
      OwnStep(s, step);
    }
  }

  lemma NextTrue(s: System, steps: seq<Step>, step: Step, id: SubId)
    requires Initial(s) && After(s, steps).clock == |steps| && id in After(s, steps + [step]).subs
    requires id in After(s, steps).subs ==> SubTrue(s, steps, After(s, steps).subs[id])
    ensures SubTrue(s, steps + [step], After(s, steps + [step]).subs[id])
  {
    var before := After(s, steps);
    AfterStep(s, steps, step);
    SubOrigin(before, step, id);
    if id in before.subs {
      GrowsTrue(s, steps, step, before.subs[id], Do(before, step).subs[id]);
    }
  }

  lemma {:induction false} SubsTrue(s: System, steps: seq<Step>, id: SubId)
    requires Initial(s) && id in After(s, steps).subs
    ensures SubTrue(s, steps, After(s, steps).subs[id])
  {
    var init, last := steps[..|steps| - 1], steps[|steps| - 1];
    assert steps == init + [last];
    RunSound(s, init);
    if id in After(s, init).subs {
      SubsTrue(s, init, id);
    }
    NextTrue(s, init, last, id);
  }

  lemma PublishedBy(s: System, step: Step)
    ensures Do(s, step).published == s.published
      || (step.Publish? && exists x :: Do(s, step).published == s.published + [Publication(step.t, x, s.clock)])
  {}

  lemma {:induction false} PublicationsTrue(s: System, steps: seq<Step>, p: Publication)
    requires Initial(s) && p in After(s, steps).published
    ensures WasPublished(steps, p)
  {
    var init, last := steps[..|steps| - 1], steps[|steps| - 1];
    RunSound(s, init);
    assert steps == init + [last];
    AfterStep(s, init, last);
    PublishedBy(After(s, init), last);
    if p in After(s, init).published {
      PublicationsTrue(s, init, p);
    }
  }

  /** In every run the chat events a subscriber received are, in publish order and without a gap, the first publications to
      its subject since it subscribed; each belongs to its thread, and an access check that began after the publication
      succeeded before the delivery. A reset or an error can only be the last thing it received. */
  lemma DeliveredInOrder(s: System, steps: seq<Step>, id: SubId)
    requires Initial(s) && id in After(s, steps).subs
    ensures var end := After(s, steps); var sub := end.subs[id];
      && (sub.subscribed ==> sub.since <= |end.published| && ChatsOf(sub.received) <= PublishedTo(end.published, sub.subject, sub.since))
      && EndsOnce(sub)
  {
    RunSound(s, steps);
    var end := After(s, steps);
    assert SubOk(end.published, end.clock, end.subs[id]);
  }

  lemma DeliveredAfterCheck(s: System, steps: seq<Step>, id: SubId, r: Received)
    requires Initial(s) && id in After(s, steps).subs && r in After(s, steps).subs[id].received && r.Got?
    ensures var end := After(s, steps); var sub := end.subs[id];
      && r.n < |end.published| && end.published[r.n].threadId == sub.threadId && WasPublished(steps, end.published[r.n])
      && end.published[r.n].at < r.first <= r.last
      && Checked(s, steps, sub.threadId, sub.userId, r.first, r.last)
  {
    RunSound(s, steps);
    SubsTrue(s, steps, id);
    var end := After(s, steps);
    var sub := end.subs[id];
    assert SubOk(end.published, end.clock, sub) && HomeOk(end, sub) && ReceiptTimed(end.published, end.clock, r);
    PublicationsTrue(s, steps, end.published[r.n]);
    GotFromSubject(end.published, sub, r);
  }

  lemma {:induction false} ChatsHas(received: seq<Received>, r: Received)
    requires r in received && r.Got?
    ensures r.n in ChatsOf(received)
  {
    var last := |received| - 1;
    if received[last] != r {
      assert r in received[..last];
      ChatsHas(received[..last], r);
    }
  }

  lemma GotFromSubject(published: seq<Publication>, sub: Sub, r: Received)
    requires sub.subscribed && sub.since <= |published| && Ordered(published, sub) && r in sub.received && r.Got?
    ensures r.n < |published| && published[r.n].subject == Some(sub.subject)
  {
    ChatsHas(sub.received, r);
    PublishedAscend(published, sub.subject, sub.since);
    var i :| 0 <= i < |ChatsOf(sub.received)| && ChatsOf(sub.received)[i] == r.n;
    assert PublishedTo(published, sub.subject, sub.since)[i] == r.n;
  }

  // ----- The first failed check ends the stream -----

  /** The step asks one of the two queries for the next item of an open stream, and the query lets nobody in. */
  ghost predicate CheckFails(s: System, step: Step, id: SubId) {
    && Own(step) && step.id == id && id in s.subs && Listening(s.subs[id]) && s.subs[id].queue != []
    && var sub := s.subs[id];
       || (step.Begin? && sub.check.None? && !Enters(s, sub, Plain) && forall g :: !Enters(s, sub, OfGroup(Some(g))))
       || (step.Finish? && sub.check.Some? && (sub.check.value.group, sub.userId) !in s.tables.members)
  }

  lemma FailureEnds(s: System, step: Step, id: SubId)
    requires CheckFails(s, step, id)
    ensures id in Do(s, step).subs && Do(s, step).subs[id].closed && Do(s, step).subs[id].received == s.subs[id].received + [Reset]
  {
    var sub := s.subs[id];
    if step.Begin? && sub.threadId in s.tables.kinds && s.tables.kinds[sub.threadId].OfGroup? && s.tables.kinds[sub.threadId].group.Some? {
      assert !Enters(s, sub, OfGroup(Some(s.tables.kinds[sub.threadId].group.value)));
    }
  }

  /** The stream receives nothing, or something that is not a reset. */
  ghost predicate NoReset(sub: Sub, end: Sub) {
    end.received == sub.received || exists r :: end.received == sub.received + [r] && !r.Reset?
  }

  lemma NoResetKeeps(sub: Sub, end: Sub)
    requires NoReset(sub, end)
    ensures Reset in end.received <==> Reset in sub.received
  {}

  lemma PassedBegins(s: System, id: SubId)
    requires id in s.subs && s.subs[id].subscribed && s.subs[id].queue != [] && s.subs[id].check.None? && !CheckFails(s, Begin(id), id)
    ensures id in Do(s, Begin(id)).subs && NoReset(s.subs[id], Do(s, Begin(id)).subs[id])
  {
    var sub := s.subs[id];
    if Enters(s, sub, Plain) && !sub.closed {
      assert !Receipt(sub.queue[0], s.clock, s.clock).Reset?;
    }
  }

  lemma PassedFinishes(s: System, id: SubId)
    requires id in s.subs && s.subs[id].subscribed && s.subs[id].queue != [] && s.subs[id].check.Some? && !CheckFails(s, Finish(id), id)
    ensures id in Do(s, Finish(id)).subs && NoReset(s.subs[id], Do(s, Finish(id)).subs[id])
  {
    var sub := s.subs[id];
    assert !Receipt(sub.queue[0], sub.check.value.first, s.clock).Reset?;
  }

  lemma OtherReceives(s: System, step: Step)
    requires Own(step) && step.id in s.subs && SubOk(s.published, s.clock, s.subs[step.id])
    requires !(step.Begin? && s.subs[step.id].check.None?) && !(step.Finish? && s.subs[step.id].check.Some?)
    ensures step.id in Do(s, step).subs && NoReset(s.subs[step.id], Do(s, step).subs[step.id])
  {
    var sub := s.subs[step.id];
    if step.Fail? && sub.queue != [] && !sub.closed {
      assert !Errored.Reset?;
    }
    if step.Subscribe? && !sub.subscribed {
      assert [] + [Ready] == [Ready] && !Ready.Reset?;
    }
  }

  /** A step adds a reset to what a stream received exactly when a check of the stream fails in it. */
  lemma ResetStep(s: System, step: Step, id: SubId)
    requires Sound(s) && id in Do(s, step).subs
    ensures Reset in Do(s, step).subs[id].received <==> CheckFails(s, step, id) || (id in s.subs && Reset in s.subs[id].received)
  {
    if Own(step) && step.id in s.subs {
      OwnStep(s, step);
      if step.id == id {
        OwnResetStep(s, step);
      }
    } else {
      ReceivedElsewhere(s, step, id);
    }
  }

  lemma ReceivedElsewhere(s: System, step: Step, id: SubId)
    requires id in Do(s, step).subs && !(Own(step) && step.id in s.subs)
    ensures Do(s, step).subs[id].received == if id in s.subs then s.subs[id].received else []
  {}

  lemma OwnResetStep(s: System, step: Step)
    requires Sound(s) && Own(step) && step.id in s.subs
    ensures step.id in Do(s, step).subs
    ensures Reset in Do(s, step).subs[step.id].received <==> CheckFails(s, step, step.id) || Reset in s.subs[step.id].received
  {
    var sub := s.subs[step.id];
    OwnStep(s, step);
    assert SubOk(s.published, s.clock, sub);
    if CheckFails(s, step, step.id) {
      FailureEnds(s, step, step.id);
      assert Do(s, step).subs[step.id].received[|sub.received|] == Reset;
    } else {
      PassedReceives(s, step);
      NoResetKeeps(sub, Do(s, step).subs[step.id]);
    }
  }

  lemma PassedReceives(s: System, step: Step)
    requires Own(step) && step.id in s.subs && SubOk(s.published, s.clock, s.subs[step.id]) && !CheckFails(s, step, step.id)
    ensures step.id in Do(s, step).subs && NoReset(s.subs[step.id], Do(s, step).subs[step.id])
  {
    var sub := s.subs[step.id];
    if sub.queue != [] && step.Begin? && sub.check.None? {
      PassedBegins(s, step.id);
    } else if sub.queue != [] && step.Finish? && sub.check.Some? {
      PassedFinishes(s, step.id);
    } else if sub.queue != [] || !(step.Begin? || step.Finish?) {
      OtherReceives(s, step);
    }
  }

  lemma ClosedBecomes(s: System, sub: Sub, end: Sub)
    requires sub.subscribed && sub.closed && Becomes(s, sub, end)
    ensures end.closed && end.received == sub.received
  {}

  lemma ClosedStep(s: System, step: Step, id: SubId)
    requires Sound(s) && id in s.subs && s.subs[id].closed
    ensures id in Do(s, step).subs && Do(s, step).subs[id].closed && Do(s, step).subs[id].received == s.subs[id].received
  {
    if Own(step) && step.id in s.subs {
      OwnStep(s, step);
      if step.id == id {
        assert SubOk(s.published, s.clock, s.subs[id]);
        ClosedBecomes(s, s.subs[id], Do(s, step).subs[id]);
      }
    }
  }

  /** A closed stream, after a reset, an error or an unsubscription, receives nothing more, whatever is still queued. */
  lemma {:induction false} NothingAfterClose(s: System, steps: seq<Step>, k: nat, id: SubId)
    requires Initial(s) && k <= |steps| && id in After(s, steps[..k]).subs && After(s, steps[..k]).subs[id].closed
    ensures id in After(s, steps).subs && After(s, steps).subs[id].closed
    ensures After(s, steps).subs[id].received == After(s, steps[..k]).subs[id].received
    decreases |steps|
  {
    if k == |steps| {
      assert steps[..k] == steps;
    } else {
      var init, last := steps[..|steps| - 1], steps[|steps| - 1];
      assert init[..k] == steps[..k] && steps == init + [last];
      AfterStep(s, init, last);
      NothingAfterClose(s, init, k, id);
      RunSound(s, init);
      ClosedStep(After(s, init), last, id);
    }
  }

  /** In the `k`-th step of the run a check of the stream fails. */
  ghost predicate FailsAt(s: System, steps: seq<Step>, k: nat, id: SubId) {
    k < |steps| && CheckFails(After(s, steps[..k]), steps[k], id)
  }

  lemma FailedSoFar(s: System, steps: seq<Step>, last: Step, id: SubId)
    ensures (exists k: nat :: FailsAt(s, steps + [last], k, id)) <==>
            (exists k: nat :: FailsAt(s, steps, k, id)) || CheckFails(After(s, steps), last, id)
  {
    var all := steps + [last];
    assert all[..|steps|] == steps;
    forall k: nat | k < |steps| ensures FailsAt(s, all, k, id) <==> FailsAt(s, steps, k, id) {
      assert all[..k] == steps[..k];
    }
    if CheckFails(After(s, steps), last, id) {
      assert FailsAt(s, all, |steps|, id);
    }
    if k: nat :| FailsAt(s, all, k, id) {
      assert k < |steps| ==> FailsAt(s, steps, k, id);
    }
    if k: nat :| FailsAt(s, steps, k, id) {
      assert FailsAt(s, all, k, id);
    }
  }

  lemma {:induction false} ResetCaused(s: System, steps: seq<Step>, id: SubId)
    requires Initial(s) && id in After(s, steps).subs
    ensures Reset in After(s, steps).subs[id].received <==> exists k: nat :: FailsAt(s, steps, k, id)
  {
    var init, last := steps[..|steps| - 1], steps[|steps| - 1];
    assert steps == init + [last];
    RunSound(s, init);
    AfterStep(s, init, last);
    FailedSoFar(s, init, last, id);
    ResetStep(After(s, init), last, id);
    if id in After(s, init).subs {
      ResetCaused(s, init, id);
    } else {
      NeverThere(s, init, id);
    }
  }

  /** A check fails only for a subscriber that is there, and subscribers stay. */
  lemma {:induction false} NeverThere(s: System, steps: seq<Step>, id: SubId)
    requires id !in After(s, steps).subs
    ensures !exists k: nat :: FailsAt(s, steps, k, id)
  {
    if steps != [] {
      var init, last := steps[..|steps| - 1], steps[|steps| - 1];
      assert steps == init + [last];
      AfterStep(s, init, last);
      SubsStay(After(s, init), last, id);
      FailedSoFar(s, init, last, id);
      NeverThere(s, init, id);
    }
  }

  lemma SubsStay(s: System, step: Step, id: SubId)
    ensures id in s.subs ==> id in Do(s, step).subs
  {
    if Own(step) && step.id in s.subs {
      OwnStep(s, step);
    }
  }

  lemma FailsOnce(s: System, steps: seq<Step>, k: nat, m: nat, id: SubId)
    requires Initial(s) && k < m && FailsAt(s, steps, k, id) && m < |steps|
    ensures !FailsAt(s, steps, m, id)
  {
    FailureEnds(After(s, steps[..k]), steps[k], id);
    assert steps[..k + 1] == steps[..k] + [steps[k]];
    AfterStep(s, steps[..k], steps[k]);
    assert steps[..m][..k + 1] == steps[..k + 1];
    NothingAfterClose(s, steps[..m], k + 1, id);
  }

  /** In every run a stream receives a reset if and only if some step of the run finds no access for its next item while it
      is open; there is at most one such step, and nothing is received after the reset. */
  lemma ResetExactly(s: System, steps: seq<Step>, id: SubId)
    requires Initial(s) && id in After(s, steps).subs
    ensures var received := After(s, steps).subs[id].received;
      && (Reset in received <==> exists k: nat :: FailsAt(s, steps, k, id))
      && (forall k: nat, m: nat | FailsAt(s, steps, k, id) && FailsAt(s, steps, m, id) :: k == m)
      && (forall i | 0 <= i < |received| && received[i] == Reset :: i == |received| - 1)
  {
    ResetCaused(s, steps, id);
    forall k: nat, m: nat | FailsAt(s, steps, k, id) && FailsAt(s, steps, m, id) ensures k == m {
      if k < m {
        FailsOnce(s, steps, k, m, id);
      } else if m < k {
        FailsOnce(s, steps, m, k, id);
      }
    }
    DeliveredInOrder(s, steps, id);
  }
}
