/** What the live stream delivers: with access and without failures every queued event arrives, in order, after one or two queries. */
module RealtimeProgress {
  import opened Basics
  import opened Realtime
  import opened RealtimeSafety
  import opened RealtimeDelivery
  import opened RealtimeRegistry

  // ----- Access -----

  /** The subscriber takes part in the thread and, if it belongs to a working group, is a member of it. */
  predicate HasAccess(tables: Tables, sub: Sub) {
    && (sub.threadId, sub.userId) in tables.participants && sub.threadId in tables.kinds
    && match tables.kinds[sub.threadId]
       case Plain => true
       case OfGroup(group) => group.Some? && (group.value, sub.userId) in tables.members
  }

  /** The access rows of a user are those that the last change of them left. */
  lemma AccessChanges(s: System, step: Step, t: ThreadId, g: GroupId, u: UserId)
    ensures var now, next := s.tables, Do(s, step).tables;
      && next.kinds == now.kinds
      && ((t, u) in next.participants <==>
           if step.SetParticipant? && step.t == t && step.u == u then step.present else (t, u) in now.participants)
      && ((g, u) in next.members <==>
           if step.SetMember? && step.g == g && step.u == u then step.present else (g, u) in now.members)
  {
    AccessFrame(s, step);
  }

  lemma AccessFrame(s: System, step: Step)
    ensures !step.SetParticipant? && !step.SetMember? ==> Do(s, step).tables == s.tables
  {}

  // ----- One item -----

  /** The head of the queue was delivered with this receipt, and nothing else happened to the stream. */
  predicate Delivered(sub: Sub, end: Sub, receipt: Received)
    requires sub.queue != []
  {
    && end.queue == sub.queue[1..] && end.received == sub.received + [receipt] && end.check.None?
    && end.subscribed == sub.subscribed && end.closed == sub.closed && end.since == sub.since
    && end.userId == sub.userId && end.threadId == sub.threadId && end.subject == sub.subject
  }

  predicate SameElse(s: System, end: System, id: SubId) {
    && id in s.subs && id in end.subs && end.subs == s.subs[id := end.subs[id]]
    && end.tables == s.tables && end.registry == s.registry && end.published == s.published
  }

  /** An open stream, and what its next item becomes for the client. */
  predicate Busy(s: System, id: SubId) {
    id in s.subs && Listening(s.subs[id]) && s.subs[id].queue != []
  }

  function ReceiptOf(item: Item, first: nat, last: nat): Received {
    match item
    case Ping => Pinged
    case Chat(n) => Got(n, first, last)
  }

  /** Outside working groups one query delivers the next item. */
  lemma PlainDelivers(s: System, id: SubId)
    requires Busy(s, id) && s.subs[id].check.None? && Enters(s, s.subs[id], Plain)
    ensures var end := Do(s, Begin(id));
      SameElse(s, end, id) && Delivered(s.subs[id], end.subs[id], ReceiptOf(s.subs[id].queue[0], s.clock, s.clock))
  {}

  /** In a working group the first query only asks for the second. */
  lemma GroupBegins(s: System, id: SubId, g: GroupId)
    requires Busy(s, id) && s.subs[id].check.None? && Enters(s, s.subs[id], OfGroup(Some(g)))
    ensures var end := Do(s, Begin(id));
      SameElse(s, end, id) && end.subs[id] == Between(s.subs[id], g, s.clock)
  {}

  /** The second query delivers. */
  lemma GroupDelivers(s: System, id: SubId)
    requires Busy(s, id) && s.subs[id].check.Some? && (s.subs[id].check.value.group, s.subs[id].userId) in s.tables.members
    ensures var end := Do(s, Finish(id));
      SameElse(s, end, id) && Delivered(s.subs[id], end.subs[id], ReceiptOf(s.subs[id].queue[0], s.subs[id].check.value.first, s.clock))
  {}

  /** A query that throws ends an open stream with an error; a heartbeat queues a ping. */
  lemma FailureErrs(s: System, id: SubId)
    requires id in s.subs && Listening(s.subs[id])
    ensures var sub, failed, beaten := s.subs[id], Do(s, Fail(id)), Do(s, Heartbeat(id));
      && id in failed.subs && id in beaten.subs && beaten.subs[id] == sub.(queue := sub.queue + [Ping])
      && (sub.queue != [] ==> failed.subs[id].received == sub.received + [Errored] && failed.subs[id].closed)
  {}

  /** Once a stream is closed, its waiting items are dropped without a query, and the client receives none of them. */
  lemma ClosedDrops(s: System, id: SubId)
    requires id in s.subs && s.subs[id].closed && s.subs[id].queue != [] && s.subs[id].check.None?
    ensures var sub, end := s.subs[id], Do(s, Begin(id));
      && SameElse(s, end, id) && end.subs[id].queue == sub.queue[1..] && end.subs[id].received == sub.received
      && end.subs[id].closed && end.subs[id].check.None?
  {}

  // ----- The whole queue -----

  /** The items a client received, in order. */
  function ItemsOf(received: seq<Received>): seq<Item> {
    if received == [] then []
    else
      var last := received[|received| - 1];
      ItemsOf(received[..|received| - 1])
        + if last.Got? then [Chat(last.n)] else if last.Pinged? then [Ping] else []
  }

  lemma ItemsExtend(received: seq<Received>, item: Item, first: nat, last: nat)
    ensures ItemsOf(received + [ReceiptOf(item, first, last)]) == ItemsOf(received) + [item]
  {
    assert (received + [ReceiptOf(item, first, last)])[..|received|] == received;
  }

  /** Steps of one subscriber's access checks. */
  predicate ChecksOf(steps: seq<Step>, id: SubId) {
    forall step | step in steps :: step == Begin(id) || step == Finish(id)
  }

  /** Nothing waits, and the client received what it had received and then the queue. */
  predicate Drained(sub: Sub, end: Sub) {
    && Listening(end) && end.queue == [] && ItemsOf(end.received) == ItemsOf(sub.received) + sub.queue
    && end.since == sub.since && end.subject == sub.subject && end.threadId == sub.threadId
  }

  /** A check that is under way is of a group the subscriber is in. */
  predicate CheckPasses(tables: Tables, sub: Sub) {
    sub.check.Some? ==> (sub.check.value.group, sub.userId) in tables.members
  }

  function Then(s: System, steps: seq<Step>): System
    decreases |steps|
  {
    if steps == [] then s else Then(Do(s, steps[0]), steps[1..])
  }

  /** One or two queries deliver the next item. */
  lemma NextDelivered(s: System, id: SubId) returns (steps: seq<Step>)
    requires Busy(s, id) && HasAccess(s.tables, s.subs[id]) && CheckPasses(s.tables, s.subs[id])
    ensures ChecksOf(steps, id) && 1 <= |steps| <= 2 && SameElse(s, Then(s, steps), id)
    ensures exists first, last :: Delivered(s.subs[id], Then(s, steps).subs[id], ReceiptOf(s.subs[id].queue[0], first, last))
  {
    if s.subs[id].check.Some? {
      steps := [Finish(id)];
      GroupDelivers(s, id);
      OneStep(s, Finish(id));
    } else if Enters(s, s.subs[id], Plain) {
      steps := [Begin(id)];
      PlainDelivers(s, id);
      OneStep(s, Begin(id));
    } else {
      steps := [Begin(id), Finish(id)];
      TwoQueries(s, id);
    }
  }

  lemma OneStep(s: System, step: Step)
    ensures Then(s, [step]) == Do(s, step)
  {
    assert [step][1..] == [];
  }

  lemma TwoQueries(s: System, id: SubId)
    requires Busy(s, id) && HasAccess(s.tables, s.subs[id]) && s.subs[id].check.None? && !Enters(s, s.subs[id], Plain)
    ensures var end := Then(s, [Begin(id), Finish(id)]);
      SameElse(s, end, id) && Delivered(s.subs[id], end.subs[id], ReceiptOf(s.subs[id].queue[0], s.clock, s.clock + 1))
  {
    var mid := Do(s, Begin(id));
    var g := s.tables.kinds[s.subs[id].threadId].group.value;
    GroupBegins(s, id, g);
    GroupDelivers(mid, id);
    Ticks(s, Begin(id));
    assert [Begin(id), Finish(id)][1..] == [Finish(id)];
    OneStep(mid, Finish(id));
  }

  lemma {:induction false} ThenConcat(s: System, a: seq<Step>, b: seq<Step>)
    ensures Then(s, a + b) == Then(Then(s, a), b)
    decreases |a|
  {
    if a == [] {
      assert a + b == b;
    } else {
      assert (a + b)[1..] == a[1..] + b;
      ThenConcat(Do(s, a[0]), a[1..], b);
    }
  }

  /** As long as the subscriber has access, at most two queries for each item empty the queue, and the client receives all of it. */
  lemma {:induction false} QueueDrains(s: System, id: SubId) returns (steps: seq<Step>)
    requires id in s.subs && Listening(s.subs[id]) && HasAccess(s.tables, s.subs[id]) && CheckPasses(s.tables, s.subs[id])
    ensures ChecksOf(steps, id) && |steps| <= 2 * |s.subs[id].queue|
    ensures id in Then(s, steps).subs && Drained(s.subs[id], Then(s, steps).subs[id]) && Then(s, steps).published == s.published
    decreases |s.subs[id].queue|
  {
    var sub := s.subs[id];
    if sub.queue == [] {
      steps := [];
      assert ItemsOf(sub.received) + [] == ItemsOf(sub.received);
    } else {
      var now := NextDelivered(s, id);
      var mid := Then(s, now);
      var first, last :| Delivered(sub, mid.subs[id], ReceiptOf(sub.queue[0], first, last));
      var rest := QueueDrains(mid, id);
      ThenConcat(s, now, rest);
      ItemsExtend(sub.received, sub.queue[0], first, last);
      Regrouped(ItemsOf(sub.received), sub.queue);
      steps := now + rest;
    }
  }

  lemma Regrouped(a: seq<Item>, queue: seq<Item>)
    requires queue != []
    ensures (a + [queue[0]]) + queue[1..] == a + queue
  {}

  lemma {:induction false} ThenAfter(s: System, steps: seq<Step>, more: seq<Step>)
    ensures Then(After(s, steps), more) == After(s, steps + more)
    decreases |more|
  {
    if more == [] {
      assert steps + more == steps;
    } else {
      AfterStep(s, steps, more[0]);
      assert (steps + [more[0]]) + more[1..] == steps + more;
      ThenAfter(s, steps + [more[0]], more[1..]);
    }
  }

  lemma {:induction false} KindsStay(s: System, steps: seq<Step>, k: nat)
    requires k <= |steps|
    ensures After(s, steps).tables.kinds == After(s, steps[..k]).tables.kinds
    decreases |steps|
  {
    if k == |steps| {
      assert steps[..k] == steps;
    } else {
      var init, last := steps[..|steps| - 1], steps[|steps| - 1];
      assert steps == init + [last] && init[..k] == steps[..k];
      AfterStep(s, init, last);
      AccessChanges(After(s, init), last, 0, 0, 0);
      KindsStay(s, init, k);
    }
  }

  /** A check under way is of the thread's own group, so whoever has access passes it. */
  lemma CheckStillPasses(s: System, steps: seq<Step>, id: SubId)
    requires Initial(s) && id in After(s, steps).subs && HasAccess(After(s, steps).tables, After(s, steps).subs[id])
    ensures CheckPasses(After(s, steps).tables, After(s, steps).subs[id])
  {
    var sub := After(s, steps).subs[id];
    SubsTrue(s, steps, id);
    if sub.check.Some? {
      KindsStay(s, steps, sub.check.value.first);
    }
  }

  /** From every state of every run: while an open stream keeps its access and nothing fails, finitely many access queries deliver
      everything. The client has then received all publications to the subject since the subscription, and, when every
      subscription of the run was in time, all publications to the thread. */
  lemma EverythingArrives(s: System, steps: seq<Step>, id: SubId) returns (more: seq<Step>)
    requires Initial(s) && id in After(s, steps).subs && Listening(After(s, steps).subs[id])
    requires HasAccess(After(s, steps).tables, After(s, steps).subs[id])
    ensures ChecksOf(more, id) && |more| <= 2 * |After(s, steps).subs[id].queue|
    ensures var sub, end := After(s, steps).subs[id], After(s, steps + more);
      && id in end.subs && Drained(sub, end.subs[id]) && end.published == After(s, steps).published
      && ChatsOf(end.subs[id].received) == PublishedTo(end.published, sub.subject, sub.since)
      && (AlwaysInTime(s, steps) ==> ChatsOf(end.subs[id].received) == PublishedIn(end.published, sub.threadId, sub.since))
  {
    CheckStillPasses(s, steps, id);
    more := QueueDrains(After(s, steps), id);
    ThenAfter(s, steps, more);
    RunSound(s, steps + more);
    var end := After(s, steps + more);
    assert SubOk(end.published, end.clock, end.subs[id]);
    assert ChatsOf(end.subs[id].received) + [] == ChatsOf(end.subs[id].received);
    if AlwaysInTime(s, steps) {
      InTimeNow(s, steps, id);
    }
  }

  lemma InTimeNow(s: System, steps: seq<Step>, id: SubId)
    requires Initial(s) && AlwaysInTime(s, steps) && id in After(s, steps).subs && Listening(After(s, steps).subs[id])
    ensures Unmissed(After(s, steps).published, After(s, steps).subs[id])
  {
    assert steps[..|steps|] == steps;
    InTimeLive(s, steps, |steps|);
  }
}
