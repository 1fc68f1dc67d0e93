/** What a subscriber of a thread receives, in every run. */
module RealtimeSafety {
  import opened Basics
  import opened Realtime

  /** The publications to a subject since a subscription, in publish order. */
  function PublishedTo(published: seq<Publication>, x: SubjectId, since: nat): seq<nat> {
    if |published| <= since then []
    else
      var last := |published| - 1;
      PublishedTo(published[..last], x, since) + if published[last].subject == Some(x) then [last] else []
  }

  lemma PublishedExtends(published: seq<Publication>, p: Publication, x: SubjectId, since: nat)
    requires since <= |published|
    ensures PublishedTo(published + [p], x, since)
      == PublishedTo(published, x, since) + if p.subject == Some(x) then [|published|] else []
  {
    assert (published + [p])[..|published|] == published;
  }

  /** They are in publish order, and they are publications to the subject. */
  lemma {:induction false} PublishedAscend(published: seq<Publication>, x: SubjectId, since: nat)
    ensures forall i | 0 <= i < |PublishedTo(published, x, since)| ::
      since <= PublishedTo(published, x, since)[i] < |published| && published[PublishedTo(published, x, since)[i]].subject == Some(x)
    ensures forall i, j | 0 <= i < j < |PublishedTo(published, x, since)| ::
      PublishedTo(published, x, since)[i] < PublishedTo(published, x, since)[j]
  {
    if |published| > since {
      PublishedAscend(published[..|published| - 1], x, since);
    }
  }

  function ChatsOf(received: seq<Received>): seq<nat> {
    if received == [] then []
    else
      var last := received[|received| - 1];
      ChatsOf(received[..|received| - 1]) + if last.Got? then [last.n] else []
  }

  lemma ChatsExtend(received: seq<Received>, r: Received)
    ensures ChatsOf(received + [r]) == ChatsOf(received) + if r.Got? then [r.n] else []
  {
    assert (received + [r])[..|received|] == received;
  }

  function Waiting(queue: seq<Item>): seq<nat> {
    if queue == [] then [] else (if queue[0].Chat? then [queue[0].n] else []) + Waiting(queue[1..])
  }

  lemma {:induction false} WaitingExtends(queue: seq<Item>, item: Item)
    ensures Waiting(queue + [item]) == Waiting(queue) + if item.Chat? then [item.n] else []
  {
    if queue != [] {
      assert (queue + [item])[1..] == queue[1..] + [item];
      WaitingExtends(queue[1..], item);
    }
  }

  // ----- The invariant of one subscriber -----

  /** While the stream is open, what was delivered and what waits are together the publications since the subscription. */
  predicate Ordered(published: seq<Publication>, sub: Sub) {
    var all := PublishedTo(published, sub.subject, sub.since);
    if sub.closed then ChatsOf(sub.received) <= all else ChatsOf(sub.received) + Waiting(sub.queue) == all
  }

  predicate Final(r: Received) {
    r.Reset? || r.Errored?
  }

  /** A reset or an error is the last thing a client sees, and it closes the stream. */
  predicate EndsOnce(sub: Sub) {
    && (forall i | 0 <= i < |sub.received| - 1 :: !Final(sub.received[i]))
    && (sub.received != [] && Final(sub.received[|sub.received| - 1]) ==> sub.closed)
  }

  predicate ReceiptTimed(published: seq<Publication>, clock: nat, r: Received) {
    r.Got? ==> r.n < |published| && published[r.n].at < r.first <= r.last < clock
  }

  predicate ItemTimed(published: seq<Publication>, clock: nat, item: Item) {
    item.Chat? ==> item.n < |published| && published[item.n].at < clock
  }

  predicate Timed(published: seq<Publication>, clock: nat, sub: Sub) {
    && (forall r | r in sub.received :: ReceiptTimed(published, clock, r))
    && (forall item | item in sub.queue :: ItemTimed(published, clock, item))
    && (sub.check.Some? ==> sub.check.value.first < clock && sub.queue != [] && ItemTimed(published, sub.check.value.first, sub.queue[0]))
  }

  predicate SubOk(published: seq<Publication>, clock: nat, sub: Sub) {
    && (!sub.subscribed ==> !sub.closed && sub.queue == [] && sub.check.None? && sub.received == [])
    && (sub.subscribed ==> sub.since <= |published| && Ordered(published, sub))
    && EndsOnce(sub) && Timed(published, clock, sub)
  }

  lemma SubscribedOk(published: seq<Publication>, clock: nat, sub: Sub)
    ensures SubOk(published, clock, Subscribed(sub, |published|))
  {
    assert ChatsOf([Ready]) == [];
  }

  lemma PingQueued(published: seq<Publication>, clock: nat, sub: Sub)
    requires SubOk(published, clock, sub) && Listening(sub)
    ensures SubOk(published, clock, Enqueue(sub, Ping))
  {
    WaitingExtends(sub.queue, Ping);
  }

  lemma BetweenOk(published: seq<Publication>, clock: nat, sub: Sub, g: GroupId)
    requires SubOk(published, clock, sub) && sub.queue != [] && sub.subscribed
    ensures SubOk(published, clock + 1, Between(sub, g, clock))
  {}

  lemma CloseOk(published: seq<Publication>, clock: nat, sub: Sub)
    requires SubOk(published, clock, sub) && sub.subscribed
    ensures SubOk(published, clock, Close(sub))
  {}

  lemma TimePasses(published: seq<Publication>, clock: nat, sub: Sub)
    requires SubOk(published, clock, sub)
    ensures SubOk(published, clock + 1, sub)
  {}

  lemma DropOk(published: seq<Publication>, clock: nat, sub: Sub, what: Received)
    requires SubOk(published, clock, sub) && sub.queue != [] && sub.closed
    ensures SubOk(published, clock, Settle(sub, what))
  {}

  /** Delivering the head of the queue after a check that began after its publication. */
  lemma DeliverOk(published: seq<Publication>, clock: nat, sub: Sub, first: nat)
    requires SubOk(published, clock, sub) && sub.queue != []
    requires first <= clock && ItemTimed(published, first, sub.queue[0])
    ensures SubOk(published, clock + 1, Settle(sub, Receipt(sub.queue[0], first, clock)))
  {
    var what := Receipt(sub.queue[0], first, clock);
    if sub.closed {
      DropOk(published, clock, sub, what);
      TimePasses(published, clock, Settle(sub, what));
    } else {
      DeliverOrdered(published, sub, what);
      DeliverTimed(published, clock, sub, what);
    }
  }

  lemma DeliverOrdered(published: seq<Publication>, sub: Sub, what: Received)
    requires Ordered(published, sub) && sub.queue != [] && !sub.closed
    requires if sub.queue[0].Chat? then what.Got? && what.n == sub.queue[0].n else !what.Got?
    ensures Ordered(published, Settle(sub, what))
  {
    ChatsExtend(sub.received, what);
    Regroup(ChatsOf(sub.received), if what.Got? then [what.n] else [], Waiting(sub.queue[1..]));
  }

  lemma DeliverTimed(published: seq<Publication>, clock: nat, sub: Sub, what: Received)
    requires Timed(published, clock, sub) && sub.queue != [] && !sub.closed && ReceiptTimed(published, clock + 1, what)
    ensures Timed(published, clock + 1, Settle(sub, what))
  {
    var settled := Settle(sub, what);
    forall item | item in settled.queue ensures ItemTimed(published, clock + 1, item) {
      assert item in sub.queue;
    }
    forall r | r in settled.received ensures ReceiptTimed(published, clock + 1, r) {
      assert r in sub.received || r == what;
    }
  }

  lemma Regroup(a: seq<nat>, b: seq<nat>, c: seq<nat>)
    ensures (a + b) + c == a + (b + c)
  {}

  /** A stream that stops ends with its last event. */
  lemma StoppedOk(published: seq<Publication>, clock: nat, sub: Sub, what: Received)
    requires SubOk(published, clock, sub) && sub.queue != [] && !sub.closed && Final(what)
    ensures SubOk(published, clock, Close(Settle(sub, what)))
  {
    ChatsExtend(sub.received, what);
  }

  lemma TimedGrows(published: seq<Publication>, clock: nat, sub: Sub, p: Publication)
    requires Timed(published, clock, sub)
    ensures Timed(published + [p], clock + 1, sub)
  {}

  lemma NotPublishedOk(published: seq<Publication>, clock: nat, sub: Sub, p: Publication)
    requires SubOk(published, clock, sub) && !(Listening(sub) && p.subject == Some(sub.subject))
    ensures SubOk(published + [p], clock + 1, sub)
  {
    TimedGrows(published, clock, sub, p);
    if sub.subscribed {
      PublishedExtends(published, p, sub.subject, sub.since);
    }
  }

  lemma PublishedOk(published: seq<Publication>, clock: nat, sub: Sub, p: Publication)
    requires SubOk(published, clock, sub) && p.at == clock && Listening(sub) && p.subject == Some(sub.subject)
    ensures SubOk(published + [p], clock + 1, Enqueue(sub, Chat(|published|)))
  {
    TimedGrows(published, clock, sub, p);
    PublishedExtends(published, p, sub.subject, sub.since);
    WaitingExtends(sub.queue, Chat(|published|));
    Regroup(ChatsOf(sub.received), Waiting(sub.queue), [|published|]);
  }

  // ----- Steps -----

  ghost predicate Sound(s: System) {
    && (forall t | t in s.registry :: s.registry[t] in s.home && s.home[s.registry[t]] == t)
    && (forall id | id in s.subs :: HomeOk(s, s.subs[id]) && SubOk(s.published, s.clock, s.subs[id]))
    && (forall p | p in s.published :: p.subject.Some? ==> p.subject.value in s.home && s.home[p.subject.value] == p.threadId)
  }

  predicate HomeOk(s: System, sub: Sub) {
    sub.subject in s.home && s.home[sub.subject] == sub.threadId
  }

  /** The steps that are about one subscriber. */
  predicate Own(step: Step) {
    step.Subscribe? || step.Heartbeat? || step.Begin? || step.Finish? || step.Fail? || step.Unsubscribe?
  }

  /** What one step may make of the subscriber it is about. */
  ghost predicate Becomes(s: System, sub: Sub, end: Sub) {
    || end == sub
    || (!sub.subscribed && end == Subscribed(sub, |s.published|))
    || (Listening(sub) && (end == Enqueue(sub, Ping) || end == Close(sub)))
    || (sub.queue != [] && Advances(s, sub, end))
  }

  ghost predicate Advances(s: System, sub: Sub, end: Sub)
    requires sub.queue != []
  {
    || (sub.closed && end == Settle(sub, Pinged))
    || (!sub.closed && (end == Close(Settle(sub, Reset)) || end == Close(Settle(sub, Errored))))
    || Checks(s, sub, end)
  }

  /** A query that passed: it asks for the second one, or it delivers the head of the queue. */
  predicate Checks(s: System, sub: Sub, end: Sub)
    requires sub.queue != []
  {
    || (sub.check.None? && end.check.Some? && end == Between(sub, end.check.value.group, s.clock))
    || (sub.check.None? && end == Settle(sub, Receipt(sub.queue[0], s.clock, s.clock)))
    || (sub.check.Some? && end == Settle(sub, Receipt(sub.queue[0], sub.check.value.first, s.clock)))
  }

  /** A step that is about one subscriber changes that subscriber only. */
  lemma OwnStep(s: System, step: Step)
    requires Own(step) && step.id in s.subs
    ensures Do(s, step).subs == s.subs[step.id := Do(s, step).subs[step.id]]
    ensures Do(s, step).published == s.published && Do(s, step).home == s.home
    ensures forall t | t in Do(s, step).registry :: t in s.registry && Do(s, step).registry[t] == s.registry[t]
    ensures Becomes(s, s.subs[step.id], Do(s, step).subs[step.id])
  {
    OwnFrame(s, step);
    if step.Begin? || step.Finish? || step.Fail? {
      QueueBecomes(s, step);
    } else {
      StreamBecomes(s, step);
    }
  }

  lemma OwnFrame(s: System, step: Step)
    requires Own(step) && step.id in s.subs
    ensures step.id in Do(s, step).subs && Do(s, step).subs == s.subs[step.id := Do(s, step).subs[step.id]]
    ensures Do(s, step).published == s.published && Do(s, step).home == s.home
    ensures forall t | t in Do(s, step).registry :: t in s.registry && Do(s, step).registry[t] == s.registry[t]
  {
    assert s.subs == s.subs[step.id := s.subs[step.id]];
  }

  /** Steps that deal with the head of the queue. */
  lemma QueueBecomes(s: System, step: Step)
    requires (step.Begin? || step.Finish? || step.Fail?) && step.id in s.subs
    ensures step.id in Do(s, step).subs && Becomes(s, s.subs[step.id], Do(s, step).subs[step.id])
  {
    var sub := s.subs[step.id];
    if sub.queue != [] {
      if step.Begin? && sub.check.None? {
        BeginBecomes(s, step.id, sub);
      } else if step.Finish? && sub.check.Some? {
        FinishBecomes(s, step.id, sub, sub.check.value);
      }
    }
  }

  lemma BeginBecomes(s: System, id: SubId, sub: Sub)
    requires sub.queue != [] && sub.check.None?
    ensures id in BeginStep(s, id, sub).subs && Becomes(s, sub, BeginStep(s, id, sub).subs[id])
  {}

  lemma FinishBecomes(s: System, id: SubId, sub: Sub, joined: Joined)
    requires sub.queue != [] && sub.check == Some(joined)
    ensures id in FinishStep(s, id, sub, joined).subs && Becomes(s, sub, FinishStep(s, id, sub, joined).subs[id])
  {}

  /** Steps that subscribe, close or queue a ping. */
  lemma StreamBecomes(s: System, step: Step)
    requires (step.Subscribe? || step.Heartbeat? || step.Unsubscribe?) && step.id in s.subs
    ensures step.id in Do(s, step).subs && Becomes(s, s.subs[step.id], Do(s, step).subs[step.id])
  {}

  lemma HeadTimed(published: seq<Publication>, clock: nat, sub: Sub)
    requires Timed(published, clock, sub) && sub.queue != []
    ensures ItemTimed(published, clock, sub.queue[0])
    ensures sub.check.Some? ==> sub.check.value.first < clock && ItemTimed(published, sub.check.value.first, sub.queue[0])
  {
    assert sub.queue[0] in sub.queue;
  }

  lemma EndingOk(s: System, sub: Sub, end: Sub)
    requires SubOk(s.published, s.clock, sub) && sub.queue != []
    requires if sub.closed then end == Settle(sub, Pinged) else end == Close(Settle(sub, Reset)) || end == Close(Settle(sub, Errored))
    ensures SubOk(s.published, s.clock + 1, end)
  {
    TimePasses(s.published, s.clock, sub);
    if sub.closed {
      DropOk(s.published, s.clock + 1, sub, Pinged);
    } else {
      StoppedOk(s.published, s.clock + 1, sub, Reset);
      StoppedOk(s.published, s.clock + 1, sub, Errored);
    }
  }

  /** The check of the head passed: its first query came after the publication. */
  lemma CheckedOk(s: System, sub: Sub)
    requires SubOk(s.published, s.clock, sub) && sub.queue != []
    ensures var first := if sub.check.None? then s.clock else sub.check.value.first;
      SubOk(s.published, s.clock + 1, Settle(sub, Receipt(sub.queue[0], first, s.clock)))
  {
    HeadTimed(s.published, s.clock, sub);
    DeliverOk(s.published, s.clock, sub, if sub.check.None? then s.clock else sub.check.value.first);
  }

  lemma CheckOk(s: System, sub: Sub, end: Sub)
    requires SubOk(s.published, s.clock, sub) && sub.queue != [] && Checks(s, sub, end)
    ensures SubOk(s.published, s.clock + 1, end)
  {
    if sub.check.None? && end.check.Some? && end == Between(sub, end.check.value.group, s.clock) {
      BetweenOk(s.published, s.clock, sub, end.check.value.group);
    } else {
      CheckedOk(s, sub);
    }
  }

  lemma BecomesOk(s: System, sub: Sub, end: Sub)
    requires SubOk(s.published, s.clock, sub) && Becomes(s, sub, end)
    ensures SubOk(s.published, s.clock + 1, end) && end.subject == sub.subject && end.threadId == sub.threadId
  {
    TimePasses(s.published, s.clock, sub);
    if !sub.subscribed && end == Subscribed(sub, |s.published|) {
      SubscribedOk(s.published, s.clock + 1, sub);
    } else if Listening(sub) && end == Enqueue(sub, Ping) {
      PingQueued(s.published, s.clock + 1, sub);
    } else if Listening(sub) && end == Close(sub) {
      CloseOk(s.published, s.clock + 1, sub);
    } else if end != sub {
      if (sub.closed && end == Settle(sub, Pinged)) || (!sub.closed && (end == Close(Settle(sub, Reset)) || end == Close(Settle(sub, Errored)))) {
        EndingOk(s, sub, end);
      } else {
        CheckOk(s, sub, end);
      }
    }
  }

  lemma PublishSound(s: System, t: ThreadId)
    requires Sound(s)
    ensures Sound(PublishStep(s, t))
  {
    var end := PublishStep(s, t);
    var p := end.published[|s.published|];
    forall id | id in end.subs ensures HomeOk(end, end.subs[id]) && SubOk(end.published, end.clock, end.subs[id]) {
      if Listening(s.subs[id]) && p.subject == Some(s.subs[id].subject) {
        PublishedOk(s.published, s.clock, s.subs[id], p);
      } else {
        NotPublishedOk(s.published, s.clock, s.subs[id], p);
      }
    }
  }

  lemma OpenSound(s: System, id: SubId, u: UserId, t: ThreadId, spare: SubjectId)
    requires Sound(s)
    ensures Sound(OpenStep(s, id, u, t, spare))
  {
    var end := OpenStep(s, id, u, t, spare);
    forall other | other in end.subs ensures HomeOk(end, end.subs[other]) && SubOk(end.published, end.clock, end.subs[other]) {
      if other in s.subs {
        assert HomeOk(s, s.subs[other]);
        TimePasses(s.published, s.clock, s.subs[other]);
      }
    }
  }

  lemma QuietSound(s: System, tables: Tables)
    requires Sound(s)
    ensures Sound(WithTables(s, tables))
  {
    forall id | id in s.subs ensures SubOk(s.published, s.clock + 1, s.subs[id]) {
      TimePasses(s.published, s.clock, s.subs[id]);
    }
  }

  lemma OwnSound(s: System, step: Step)
    requires Sound(s) && Own(step) && step.id in s.subs
    ensures Sound(Do(s, step))
  {
    OwnStep(s, step);
    Ticks(s, step);
    BecomesOk(s, s.subs[step.id], Do(s, step).subs[step.id]);
    SoundWith(s, step.id, Do(s, step).subs[step.id], Do(s, step));
  }

  lemma SoundWith(s: System, id: SubId, sub: Sub, end: System)
    requires Sound(s) && id in s.subs && end.subs == s.subs[id := sub] && end.published == s.published && end.home == s.home
    requires forall t | t in end.registry :: t in s.registry && end.registry[t] == s.registry[t]
    requires sub.subject == s.subs[id].subject && sub.threadId == s.subs[id].threadId
    requires SubOk(s.published, s.clock + 1, sub) && end.clock == s.clock + 1
    ensures Sound(end)
  {
    forall other | other in end.subs ensures HomeOk(end, end.subs[other]) && SubOk(end.published, end.clock, end.subs[other]) {
      TimePasses(s.published, s.clock, s.subs[other]);
      assert HomeOk(s, s.subs[other]);
    }
  }

  lemma StepSound(s: System, step: Step)
    requires Sound(s)
    ensures Sound(Do(s, step))
  {
    if Own(step) && step.id in s.subs {
      OwnSound(s, step);
    } else {
      match step
      case Publish(t) => PublishSound(s, t);
      case OpenStream(id, u, t, spare) => OpenSound(s, id, u, t, spare);
      case _ => QuietSound(s, Do(s, step).tables);
    }
  }

  lemma {:induction false} RunSound(s: System, steps: seq<Step>)
    requires Initial(s)
    ensures Sound(After(s, steps)) && After(s, steps).clock == |steps|
  {
    if steps != [] {
      var init, last := steps[..|steps| - 1], steps[|steps| - 1];
      RunSound(s, init);
      StepSound(After(s, init), last);
      Ticks(After(s, init), last);
      assert steps == init + [last];
      AfterStep(s, init, last);
    }
  }
}
