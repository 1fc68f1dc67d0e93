/** Whether a publication reaches every open stream of its thread. A stream takes its subject when it is opened and
    subscribes to it later; in between the registry may have dropped that subject. */
module RealtimeRegistry {
  import opened Basics
  import opened Realtime
  import opened RealtimeSafety

  predicate Registered(s: System, sub: Sub) {
    sub.threadId in s.registry && s.registry[sub.threadId] == sub.subject
  }

  /** Every open stream listens to the subject that the registry holds for its thread. */
  ghost predicate Live(s: System) {
    forall id | id in s.subs && Listening(s.subs[id]) :: Registered(s, s.subs[id])
  }

  /** A subscription that takes effect finds its subject in the registry. */
  predicate InTime(s: System, step: Step) {
    step.Subscribe? && step.id in s.subs && !s.subs[step.id].subscribed ==> Registered(s, s.subs[step.id])
  }

  /** The publications to a thread since a subscription, whatever subject they went to. */
  function PublishedIn(published: seq<Publication>, t: ThreadId, since: nat): seq<nat> {
    if |published| <= since then []
    else
      var last := |published| - 1;
      PublishedIn(published[..last], t, since) + if published[last].threadId == t then [last] else []
  }

  lemma PublishedInExtends(published: seq<Publication>, p: Publication, t: ThreadId, since: nat)
    requires since <= |published|
    ensures PublishedIn(published + [p], t, since)
      == PublishedIn(published, t, since) + if p.threadId == t then [|published|] else []
  {
    assert (published + [p])[..|published|] == published;
  }

  predicate Unmissed(published: seq<Publication>, sub: Sub) {
    PublishedTo(published, sub.subject, sub.since) == PublishedIn(published, sub.threadId, sub.since)
  }

  ghost predicate NoneMissed(s: System) {
    forall id | id in s.subs && Listening(s.subs[id]) :: Unmissed(s.published, s.subs[id])
  }

  /** A publication reaches every open stream of its thread exactly when the registry is live. */
  lemma LiveReaches(s: System)
    requires Sound(s)
    ensures Live(s) <==>
      forall id | id in s.subs && Listening(s.subs[id]) ::
        id in PublishStep(s, s.subs[id].threadId).subs
        && PublishStep(s, s.subs[id].threadId).subs[id] == Enqueue(s.subs[id], Chat(|s.published|))
  {
    forall id | id in s.subs && Listening(s.subs[id])
      ensures var end := PublishStep(s, s.subs[id].threadId);
        id in end.subs && (Registered(s, s.subs[id]) <==> end.subs[id] == Enqueue(s.subs[id], Chat(|s.published|)))
    {
      var sub := s.subs[id];
      assert Enqueue(sub, Chat(|s.published|)).queue[|sub.queue|] == Chat(|s.published|);
      assert |Enqueue(sub, Chat(|s.published|)).queue| != |sub.queue|;
    }
  }

  /** What a step about one subscriber does to the registry: an entry goes only with the last stream that observed it. */
  lemma RegistryStep(s: System, step: Step)
    requires Sound(s) && Own(step) && step.id in s.subs
    ensures var sub, end := s.subs[step.id], Do(s, step);
      end.registry == s.registry
      || (end.registry == s.registry - {sub.threadId} && Listening(sub) && !Observed(end.subs, sub.subject))
  {
    var sub := s.subs[step.id];
    assert SubOk(s.published, s.clock, sub);
    if sub.queue != [] && step.Begin? && sub.check.None? {
      BeginRegistry(s, step.id, sub);
    } else if sub.queue != [] && step.Finish? && sub.check.Some? {
      FinishRegistry(s, step.id, sub, sub.check.value);
    }
  }

  lemma BeginRegistry(s: System, id: SubId, sub: Sub)
    requires sub.queue != [] && sub.subscribed
    ensures var end := BeginStep(s, id, sub);
      end.registry == s.registry
      || (end.registry == s.registry - {sub.threadId} && Listening(sub) && !Observed(end.subs, sub.subject))
  {}

  lemma FinishRegistry(s: System, id: SubId, sub: Sub, joined: Joined)
    requires sub.queue != [] && sub.subscribed
    ensures var end := FinishStep(s, id, sub, joined);
      end.registry == s.registry
      || (end.registry == s.registry - {sub.threadId} && Listening(sub) && !Observed(end.subs, sub.subject))
  {}

  lemma OwnLive(s: System, step: Step, id: SubId)
    requires Sound(s) && Live(s) && Own(step) && step.id in s.subs && InTime(s, step)
    requires id in Do(s, step).subs && Listening(Do(s, step).subs[id])
    ensures Registered(Do(s, step), Do(s, step).subs[id])
  {
    OwnStep(s, step);
    RegistryStep(s, step);
    var end := Do(s, step);
    var closing := s.subs[step.id];
    BecomesListening(s, closing, end.subs[step.id]);
    assert Registered(s, s.subs[id]);
    if Listening(closing) && s.subs[id].threadId == closing.threadId {
      assert Registered(s, closing) && end.subs[id].subject == closing.subject;
      assert Observed(end.subs, closing.subject);
    }
  }

  lemma BecomesListening(s: System, sub: Sub, end: Sub)
    requires Becomes(s, sub, end)
    ensures end.subject == sub.subject && end.threadId == sub.threadId
    ensures Listening(end) ==> Listening(sub) || (!sub.subscribed && end == Subscribed(sub, |s.published|))
  {}

  lemma StepLive(s: System, step: Step)
    requires Sound(s) && Live(s) && InTime(s, step)
    ensures Live(Do(s, step))
  {
    var end := Do(s, step);
    forall id | id in end.subs && Listening(end.subs[id]) ensures Registered(end, end.subs[id]) {
      if Own(step) && step.id in s.subs {
        OwnLive(s, step, id);
      } else {
        assert Registered(s, s.subs[id]);
      }
    }
  }

  /** A late subscription listens to a subject that is not registered. */
  lemma LateNotLive(s: System, step: Step)
    requires !InTime(s, step)
    ensures !Live(Do(s, step))
  {
    var end := Do(s, step);
    assert Listening(end.subs[step.id]) && !Registered(end, end.subs[step.id]);
  }

  ghost predicate AlwaysLive(s: System, steps: seq<Step>) {
    forall k | 0 <= k <= |steps| :: Live(After(s, steps[..k]))
  }

  ghost predicate AlwaysInTime(s: System, steps: seq<Step>) {
    forall k | 0 <= k < |steps| :: InTime(After(s, steps[..k]), steps[k])
  }

  lemma NextState(s: System, steps: seq<Step>, k: nat)
    requires k < |steps|
    ensures After(s, steps[..k + 1]) == Do(After(s, steps[..k]), steps[k])
  {
    assert steps[..k + 1] == steps[..k] + [steps[k]];
    AfterStep(s, steps[..k], steps[k]);
  }

  lemma {:induction false} InTimeLive(s: System, steps: seq<Step>, k: nat)
    requires Initial(s) && AlwaysInTime(s, steps) && k <= |steps|
    ensures Live(After(s, steps[..k])) && NoneMissed(After(s, steps[..k]))
  {
    if k > 0 {
      InTimeLive(s, steps, k - 1);
      NextState(s, steps, k - 1);
      RunSound(s, steps[..k - 1]);
      assert InTime(After(s, steps[..k - 1]), steps[k - 1]);
      StepLive(After(s, steps[..k - 1]), steps[k - 1]);
      StepUnmissed(After(s, steps[..k - 1]), steps[k - 1]);
    }
  }

  /** Throughout a run every open stream is reached by the publications to its thread if and only if every subscription
      of the run finds its subject registered. */
  lemma RegistryExact(s: System, steps: seq<Step>)
    requires Initial(s)
    ensures AlwaysLive(s, steps) <==> AlwaysInTime(s, steps)
  {
    if AlwaysInTime(s, steps) {
      forall k | 0 <= k <= |steps| ensures Live(After(s, steps[..k])) {
        InTimeLive(s, steps, k);
      }
    }
    if AlwaysLive(s, steps) {
      forall k | 0 <= k < |steps| ensures InTime(After(s, steps[..k]), steps[k]) {
        NextState(s, steps, k);
        assert Live(After(s, steps[..k + 1]));
        if !InTime(After(s, steps[..k]), steps[k]) {
          LateNotLive(After(s, steps[..k]), steps[k]);
        }
      }
    }
  }

  lemma PublishUnmissed(s: System, t: ThreadId, id: SubId)
    requires Sound(s) && Live(s) && NoneMissed(s) && id in s.subs && Listening(s.subs[id])
    ensures Unmissed(PublishStep(s, t).published, s.subs[id])
  {
    var sub := s.subs[id];
    var p := PublishStep(s, t).published[|s.published|];
    assert SubOk(s.published, s.clock, sub) && HomeOk(s, sub) && Registered(s, sub) && Unmissed(s.published, sub);
    PublishedExtends(s.published, p, sub.subject, sub.since);
    PublishedInExtends(s.published, p, sub.threadId, sub.since);
  }

  /** What a listening stream knows about publications does not change with a step about one subscriber. */
  lemma OwnUnmissed(s: System, step: Step, id: SubId)
    requires Sound(s) && NoneMissed(s) && Own(step) && step.id in s.subs
    requires id in Do(s, step).subs && Listening(Do(s, step).subs[id])
    ensures Unmissed(Do(s, step).published, Do(s, step).subs[id])
  {
    OwnStep(s, step);
    var sub, end := s.subs[step.id], Do(s, step).subs[step.id];
    BecomesListening(s, sub, end);
    if id == step.id && Listening(sub) {
      SinceKept(s, sub, end);
      assert Unmissed(s.published, sub);
    } else if id != step.id {
      assert Unmissed(s.published, s.subs[id]);
    }
  }

  lemma SinceKept(s: System, sub: Sub, end: Sub)
    requires Becomes(s, sub, end) && sub.subscribed
    ensures end.since == sub.since && end.subject == sub.subject && end.threadId == sub.threadId
  {}

  lemma StepUnmissed(s: System, step: Step)
    requires Sound(s) && Live(s) && NoneMissed(s)
    ensures NoneMissed(Do(s, step))
  {
    var end := Do(s, step);
    forall id | id in end.subs && Listening(end.subs[id]) ensures Unmissed(end.published, end.subs[id]) {
      if Own(step) && step.id in s.subs {
        OwnUnmissed(s, step, id);
      } else if step.Publish? {
        PublishUnmissed(s, step.t, id);
      } else {
        assert Unmissed(s.published, s.subs[id]);
      }
    }
  }

  /** When every subscription is in time, what an open stream received and what still waits for it are exactly the
      publications to its thread since it subscribed, in order. */
  lemma NothingMissed(s: System, steps: seq<Step>, id: SubId)
    requires Initial(s) && AlwaysInTime(s, steps) && id in After(s, steps).subs && Listening(After(s, steps).subs[id])
    ensures var end := After(s, steps); var sub := end.subs[id];
      ChatsOf(sub.received) + Waiting(sub.queue) == PublishedIn(end.published, sub.threadId, sub.since)
  {
    assert steps[..|steps|] == steps;
    InTimeLive(s, steps, |steps|);
    RunSound(s, steps);
    var end := After(s, steps);
    assert SubOk(end.published, end.clock, end.subs[id]) && Unmissed(end.published, end.subs[id]);
  }

  // ----- A late subscription -----

  function Opened(subscribed: bool): Sub {
    Sub(1, 7, 0, subscribed, false, [], None, if subscribed then [Ready] else [], 0)
  }

  function Empty(): System {
    System(0, Tables(map[7 := Plain], {(7, 1)}, {}), map[], map[], map[], [])
  }

  /** One stream is subscribed; another one was opened on the same subject. */
  function BothOpen(): System {
    System(3, Empty().tables, map[7 := 0], map[0 := 7], map[1 := Opened(true), 2 := Opened(false)], [])
  }

  /** The first stream closed, and the registry dropped the subject. */
  function Dropped(): System {
    System(4, Empty().tables, map[], map[0 := 7], map[1 := Close(Opened(true)), 2 := Opened(false)], [])
  }

  lemma BothOpenReached()
    ensures After(Empty(), [OpenStream(1, 1, 7, 0), Subscribe(1), OpenStream(2, 1, 7, 1)]) == BothOpen()
  {
    assert After(Empty(), []) == Empty();
    AfterStep(Empty(), [], OpenStream(1, 1, 7, 0));
    assert [] + [OpenStream(1, 1, 7, 0)] == [OpenStream(1, 1, 7, 0)];
    AfterStep(Empty(), [OpenStream(1, 1, 7, 0)], Subscribe(1));
    AfterStep(Empty(), [OpenStream(1, 1, 7, 0), Subscribe(1)], OpenStream(2, 1, 7, 1));
    assert Do(Do(Do(Empty(), OpenStream(1, 1, 7, 0)), Subscribe(1)), OpenStream(2, 1, 7, 1)).subs == BothOpen().subs;
  }

  lemma DroppedNext()
    ensures Do(BothOpen(), Unsubscribe(1)) == Dropped()
  {
    assert BothOpen().subs[1 := Close(Opened(true))] == Dropped().subs;
    assert !Observed(Dropped().subs, 0);
    assert BothOpen().registry - {7} == map[];
  }

  lemma MissedNext(s: System)
    requires s == Do(Do(Dropped(), Subscribe(2)), Publish(7))
    ensures 2 in s.subs && s.subs[2] == Opened(true) && s.published == [Publication(7, None, 5)]
  {}

  /** A stream that was opened before the last other one closed, and subscribes after it, misses a publication. */
  lemma LateSubscriptionMisses() returns (s: System, steps: seq<Step>)
    ensures Initial(s) && !AlwaysInTime(s, steps)
    ensures 2 in After(s, steps).subs && Listening(After(s, steps).subs[2])
    ensures var sub := After(s, steps).subs[2];
      ChatsOf(sub.received) + Waiting(sub.queue) == [] && PublishedIn(After(s, steps).published, sub.threadId, sub.since) == [0]
  {
    s := Empty();
    var c := [OpenStream(1, 1, 7, 0), Subscribe(1), OpenStream(2, 1, 7, 1)];
    var d := c + [Unsubscribe(1)];
    var e := d + [Subscribe(2)];
    steps := e + [Publish(7)];
    BothOpenReached();
    AfterStep(s, c, Unsubscribe(1));
    DroppedNext();
    AfterStep(s, d, Subscribe(2));
    AfterStep(s, e, Publish(7));
    MissedNext(After(s, steps));
    assert steps[..4] == d && steps[4] == Subscribe(2);
    assert !InTime(After(s, steps[..4]), steps[4]);
    PublishedInExtends([], Publication(7, None, 5), 7, 0);
    assert [] + [Publication(7, None, 5)] == [Publication(7, None, 5)];
    ChatsExtend([], Ready);
    assert [] + [Ready] == [Ready];
  }
}
