/** The live event stream of a chat thread: subjects in a registry, and one queue for every subscriber whose items are
    delivered one after the other, each after an access check of one or two queries. */
module Realtime {
  import opened Basics

  type UserId = nat
  type ThreadId = nat
  type GroupId = nat
  type SubjectId = nat
  type SubId = nat

  datatype Kind = Plain | OfGroup(group: Option<GroupId>)

  /** The rows the access check reads: threads, active participants, and the active members of active groups. */
  datatype Tables = Tables(kinds: map<ThreadId, Kind>, participants: set<(ThreadId, UserId)>, members: set<(GroupId, UserId)>)

  /** A queued item; a chat event is named by its place in the log of publications. */
  datatype Item = Ping | Chat(n: nat)

  /** What the client sees. For a chat event `first` and `last` are the steps of the first and the last access query. */
  datatype Received = Ready | Pinged | Got(n: nat, first: nat, last: nat) | Reset | Errored

  /** An access check between its two queries. */
  datatype Joined = Joined(group: GroupId, first: nat)

  /** `since` is the number of publications before the subscription. */
  datatype Sub = Sub(userId: UserId, threadId: ThreadId, subject: SubjectId, subscribed: bool, closed: bool,
                     queue: seq<Item>, check: Option<Joined>, received: seq<Received>, since: nat)

  datatype Publication = Publication(threadId: ThreadId, subject: Option<SubjectId>, at: nat)

  /** `home` is the thread a subject was made for; `clock` counts steps. */
  datatype System = System(clock: nat, tables: Tables, registry: map<ThreadId, SubjectId>, home: map<SubjectId, ThreadId>,
                           subs: map<SubId, Sub>, published: seq<Publication>)

  datatype Step =
    | SetParticipant(t: ThreadId, u: UserId, present: bool)
    | SetMember(g: GroupId, u: UserId, present: bool)
    | OpenStream(id: SubId, u: UserId, t: ThreadId, spare: SubjectId)
    | Subscribe(id: SubId)
    | Publish(t: ThreadId)
    | Heartbeat(id: SubId)
    | Begin(id: SubId)
    | Finish(id: SubId)
    | Fail(id: SubId)
    | Unsubscribe(id: SubId)

  predicate Initial(s: System) {
    s.clock == 0 && s.registry == map[] && s.home == map[] && s.subs == map[] && s.published == []
  }

  predicate Listening(sub: Sub) {
    sub.subscribed && !sub.closed
  }

  predicate Observed(subs: map<SubId, Sub>, x: SubjectId) {
    exists id :: id in subs && Listening(subs[id]) && subs[id].subject == x
  }

  // ----- One subscriber -----

  function Subscribed(sub: Sub, since: nat): Sub {
    Sub(sub.userId, sub.threadId, sub.subject, true, false, [], None, [Ready], since)
  }

  function Enqueue(sub: Sub, item: Item): Sub {
    Sub(sub.userId, sub.threadId, sub.subject, sub.subscribed, sub.closed, sub.queue + [item], sub.check, sub.received, sub.since)
  }

  function Between(sub: Sub, g: GroupId, first: nat): Sub {
    Sub(sub.userId, sub.threadId, sub.subject, sub.subscribed, sub.closed, sub.queue, Some(Joined(g, first)), sub.received, sub.since)
  }

  function Close(sub: Sub): Sub {
    Sub(sub.userId, sub.threadId, sub.subject, sub.subscribed, true, sub.queue, sub.check, sub.received, sub.since)
  }

  function Receipt(item: Item, first: nat, last: nat): Received {
    match item
    case Ping => Pinged
    case Chat(n) => Got(n, first, last)
  }

  /** The head of the queue is dealt with; a closed subscriber receives nothing. */
  function Settle(sub: Sub, what: Received): Sub
    requires sub.queue != []
  {
    Sub(sub.userId, sub.threadId, sub.subject, sub.subscribed, sub.closed, sub.queue[1..], None,
        if sub.closed then sub.received else sub.received + [what], sub.since)
  }

  // ----- Steps -----

  function WithSub(s: System, id: SubId, sub: Sub): System {
    System(s.clock + 1, s.tables, s.registry, s.home, s.subs[id := sub], s.published)
  }

  function WithTables(s: System, tables: Tables): System {
    System(s.clock + 1, tables, s.registry, s.home, s.subs, s.published)
  }

  /** The subscriber closes; the registry entry of its thread goes when nobody observes its subject any more. */
  function Teardown(s: System, id: SubId, sub: Sub): System {
    var subs := s.subs[id := sub];
    System(s.clock + 1, s.tables, if Observed(subs, sub.subject) then s.registry else s.registry - {sub.threadId}, s.home, subs, s.published)
  }

  /** The stream ends with a last event, unless it was closed already. */
  function Stop(s: System, id: SubId, sub: Sub, what: Received): System
    requires sub.queue != []
  {
    if sub.closed then WithSub(s, id, Settle(sub, what)) else Teardown(s, id, Close(Settle(sub, what)))
  }

  function OpenStep(s: System, id: SubId, u: UserId, t: ThreadId, spare: SubjectId): System {
    if id in s.subs || (t !in s.registry && spare in s.home) then WithTables(s, s.tables)
    else
      var x := if t in s.registry then s.registry[t] else spare;
      System(s.clock + 1, s.tables, s.registry[t := x], s.home[x := t],
             s.subs[id := Sub(u, t, x, false, false, [], None, [], 0)], s.published)
  }

  function Fanned(subs: map<SubId, Sub>, x: SubjectId, item: Item): map<SubId, Sub> {
    map id | id in subs :: if Listening(subs[id]) && subs[id].subject == x then Enqueue(subs[id], item) else subs[id]
  }

  function PublishStep(s: System, t: ThreadId): System {
    var x := if t in s.registry then Some(s.registry[t]) else None;
    System(s.clock + 1, s.tables, s.registry, s.home,
           if x.Some? then Fanned(s.subs, x.value, Chat(|s.published|)) else s.subs,
           s.published + [Publication(t, x, s.clock)])
  }

  /** The first query of the check: the participant row with the kind of its thread. */
  function BeginStep(s: System, id: SubId, sub: Sub): System
    requires sub.queue != []
  {
    if sub.closed then WithSub(s, id, Settle(sub, Pinged))
    else if (sub.threadId, sub.userId) !in s.tables.participants || sub.threadId !in s.tables.kinds then Stop(s, id, sub, Reset)
    else
      match s.tables.kinds[sub.threadId]
      case Plain => WithSub(s, id, Settle(sub, Receipt(sub.queue[0], s.clock, s.clock)))
      case OfGroup(None) => Stop(s, id, sub, Reset)
      case OfGroup(Some(g)) => WithSub(s, id, Between(sub, g, s.clock))
  }

  /** The second query of the check: the group membership. */
  function FinishStep(s: System, id: SubId, sub: Sub, joined: Joined): System
    requires sub.queue != []
  {
    if (joined.group, sub.userId) in s.tables.members
    then WithSub(s, id, Settle(sub, Receipt(sub.queue[0], joined.first, s.clock)))
    else Stop(s, id, sub, Reset)
  }

  function Toggle<T>(s: set<T>, x: T, present: bool): set<T> {
    if present then s + {x} else s - {x}
  }

  /** One step. A step that cannot be taken only lets time pass. */
  function Do(s: System, step: Step): System {
    var t := s.tables;
    match step
    case SetParticipant(thread, u, present) => WithTables(s, Tables(t.kinds, Toggle(t.participants, (thread, u), present), t.members))
    case SetMember(g, u, present) => WithTables(s, Tables(t.kinds, t.participants, Toggle(t.members, (g, u), present)))
    case OpenStream(id, u, thread, spare) => OpenStep(s, id, u, thread, spare)
    case Publish(thread) => PublishStep(s, thread)
    case Subscribe(id) =>
      if id in s.subs && !s.subs[id].subscribed then WithSub(s, id, Subscribed(s.subs[id], |s.published|)) else WithTables(s, t)
    case Heartbeat(id) =>
      if id in s.subs && Listening(s.subs[id]) then WithSub(s, id, Enqueue(s.subs[id], Ping)) else WithTables(s, t)
    case Begin(id) =>
      if id in s.subs && s.subs[id].queue != [] && s.subs[id].check.None? then BeginStep(s, id, s.subs[id]) else WithTables(s, t)
    case Finish(id) =>
      if id in s.subs && s.subs[id].queue != [] && s.subs[id].check.Some? then FinishStep(s, id, s.subs[id], s.subs[id].check.value)
      else WithTables(s, t)
    case Fail(id) =>
      if id in s.subs && s.subs[id].queue != [] then Stop(s, id, s.subs[id], Errored) else WithTables(s, t)
    case Unsubscribe(id) =>
      if id in s.subs && Listening(s.subs[id]) then Teardown(s, id, Close(s.subs[id])) else WithTables(s, t)
  }

  function After(s: System, steps: seq<Step>): System {
    if steps == [] then s else Do(After(s, steps[..|steps| - 1]), steps[|steps| - 1])
  }

  lemma AfterStep(s: System, steps: seq<Step>, step: Step)
    ensures After(s, steps + [step]) == Do(After(s, steps), step)
  {
    assert (steps + [step])[..|steps|] == steps;
  }

  lemma Ticks(s: System, step: Step)
    ensures Do(s, step).clock == s.clock + 1
  {}
}
