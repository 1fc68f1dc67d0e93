/** The live event service with its mutable registry and queues; every method takes one step of the stream machine. */
module RealtimeHub {
  import opened Basics
  import opened Realtime
  import opened RealtimeSafety

  class Hub {
    var clock: nat
    var tables: Tables
    var registry: map<ThreadId, SubjectId>
    var home: map<SubjectId, ThreadId>
    var subs: map<SubId, Sub>
    var published: seq<Publication>

    function State(): System
      reads this
    {
      System(clock, tables, registry, home, subs, published)
    }

    constructor (tables: Tables)
      ensures Initial(State()) && State().tables == tables
    {
      this.tables := tables;
      clock, registry, home, subs, published := 0, map[], map[], map[], [];
    }

    /** The subject of a thread, made when there is none. */
    method ThreadSubject(t: ThreadId, spare: SubjectId) returns (x: SubjectId)
      requires t in registry || spare !in home
      modifies `registry, `home
      ensures x == if t in old(registry) then old(registry)[t] else spare
      ensures registry == old(registry)[t := x]
      ensures home == if t in old(registry) then old(home) else old(home)[x := t]
    {
      if t in registry {
        x := registry[t];
      } else {
        x := spare;
        registry := registry[t := x];
        home := home[x := t];
      }
    }

    method Stream(id: SubId, u: UserId, t: ThreadId, spare: SubjectId)
      requires id !in subs && (if t in registry then registry[t] in home && home[registry[t]] == t else spare !in home)
      modifies this
      ensures State() == Do(old(State()), OpenStream(id, u, t, spare))
    {
      var x := ThreadSubject(t, spare);
      assert home == old(home)[x := t];
      subs := subs[id := Sub(u, t, x, false, false, [], None, [], 0)];
      clock := clock + 1;
    }

    method SubscribeTo(id: SubId)
      requires id in subs && !subs[id].subscribed
      modifies `clock, `registry, `subs
      ensures State() == Do(old(State()), Subscribe(id))
    {
      subs := subs[id := Subscribed(subs[id], |published|)];
      clock := clock + 1;
    }

    /** Hands an event to every observer of a subject, one observer after the other. */
    method Next(x: SubjectId, item: Item)
      modifies `subs
      ensures subs == Fanned(old(subs), x, item)
    {
      ghost var before := subs;
      var todo := set id | id in subs && Listening(subs[id]) && subs[id].subject == x;
      ghost var all := todo;
      while todo != {}
        invariant todo <= all && subs.Keys == before.Keys
        invariant forall id | id in before :: subs[id] == if id in all - todo then Enqueue(before[id], item) else before[id]
        decreases todo
      {
        var id :| id in todo;
        subs := subs[id := Enqueue(subs[id], item)];
        todo := todo - {id};
      }
      assert all - todo == all;
      assert subs == Fanned(before, x, item);
    }

    method PublishTo(t: ThreadId)
      modifies this
      ensures State() == Do(old(State()), Publish(t))
    {
      var n := |published|;
      if t in registry {
        published := published + [Publication(t, Some(registry[t]), clock)];
        Next(registry[t], Chat(n));
      } else {
        published := published + [Publication(t, None, clock)];
      }
      clock := clock + 1;
    }

    method Beat(id: SubId)
      requires id in subs && Listening(subs[id])
      modifies `clock, `registry, `subs
      ensures State() == Do(old(State()), Heartbeat(id))
    {
      subs := subs[id := Enqueue(subs[id], Ping)];
      clock := clock + 1;
    }

    /** The subscriber unsubscribes from its subject; an unobserved subject leaves the registry. */
    method Release(id: SubId)
      requires id in subs
      modifies `subs, `registry
      ensures subs == old(subs)[id := Close(old(subs)[id])]
      ensures registry == if Observed(subs, subs[id].subject) then old(registry) else old(registry) - {subs[id].threadId}
    {
      subs := subs[id := Close(subs[id])];
      if !Observed(subs, subs[id].subject) {
        registry := registry - {subs[id].threadId};
      }
    }

    /** Ends an open stream with a last event. */
    method End(id: SubId, what: Received)
      requires id in subs && subs[id].queue != [] && !subs[id].closed
      modifies `clock, `registry, `subs
      ensures State() == Stop(old(State()), id, old(subs)[id], what)
    {
      subs := subs[id := Settle(subs[id], what)];
      Release(id);
      assert subs == old(subs)[id := Close(Settle(old(subs)[id], what))];
      clock := clock + 1;
    }

    /** The head of the queue: dropped when the stream is closed, else the first access query decides or leads to the second. */
    method BeginItem(id: SubId)
      requires id in subs && subs[id].queue != [] && subs[id].check.None?
      modifies `clock, `registry, `subs
      ensures State() == Do(old(State()), Begin(id))
    {
      var sub := subs[id];
      if sub.closed {
        subs := subs[id := Settle(sub, Pinged)];
        clock := clock + 1;
        return;
      }
      if (sub.threadId, sub.userId) !in tables.participants || sub.threadId !in tables.kinds {
        End(id, Reset);
        return;
      }
      match tables.kinds[sub.threadId]
      case Plain =>
        subs := subs[id := Settle(sub, Receipt(sub.queue[0], clock, clock))];
        clock := clock + 1;
      case OfGroup(None) =>
        End(id, Reset);
      case OfGroup(Some(g)) =>
        subs := subs[id := Between(sub, g, clock)];
        clock := clock + 1;
    }

    /** The second access query. The client may have left in between; then nothing is delivered. */
    method FinishItem(id: SubId)
      requires id in subs && subs[id].queue != [] && subs[id].check.Some?
      modifies `clock, `registry, `subs
      ensures State() == Do(old(State()), Finish(id))
    {
      var sub := subs[id];
      var joined := sub.check.value;
      if (joined.group, sub.userId) in tables.members {
        subs := subs[id := Settle(sub, Receipt(sub.queue[0], joined.first, clock))];
        clock := clock + 1;
      } else if sub.closed {
        subs := subs[id := Settle(sub, Reset)];
        clock := clock + 1;
      } else {
        End(id, Reset);
      }
    }

    method Leave(id: SubId)
      requires id in subs && Listening(subs[id])
      modifies `clock, `registry, `subs
      ensures State() == Do(old(State()), Unsubscribe(id))
    {
      Release(id);
      clock := clock + 1;
    }

    /** Every step of the stream machine, on the mutable registry and queues; a step that cannot be taken lets time pass. */
    method Take(step: Step)
      requires forall t | t in registry :: registry[t] in home && home[registry[t]] == t
      modifies this
      ensures State() == Do(old(State()), step)
      ensures forall t | t in registry :: registry[t] in home && home[registry[t]] == t
    {
      match step
      case OpenStream(id, u, t, spare) =>
        if id !in subs && (t in registry || spare !in home) {
          Stream(id, u, t, spare);
        } else {
          clock := clock + 1;
        }
      case Publish(t) => PublishTo(t);
      case SetParticipant(t, u, present) =>
        tables := Tables(tables.kinds, Toggle(tables.participants, (t, u), present), tables.members);
        clock := clock + 1;
      case SetMember(g, u, present) =>
        tables := Tables(tables.kinds, tables.participants, Toggle(tables.members, (g, u), present));
        clock := clock + 1;
      case _ => TakeOwn(step);
    }

    /** The steps that are about one subscriber. */
    method TakeOwn(step: Step)
      requires Own(step)
      modifies `clock, `registry, `subs
      ensures State() == Do(old(State()), step)
    {
      var id := step.id;
      if step.Subscribe? && id in subs && !subs[id].subscribed {
        SubscribeTo(id);
      } else if step.Heartbeat? && id in subs && Listening(subs[id]) {
        Beat(id);
      } else if step.Begin? && id in subs && subs[id].queue != [] && subs[id].check.None? {
        BeginItem(id);
      } else if step.Finish? && id in subs && subs[id].queue != [] && subs[id].check.Some? {
        FinishItem(id);
      } else if step.Fail? && id in subs && subs[id].queue != [] {
        FailItem(id);
      } else if step.Unsubscribe? && id in subs && Listening(subs[id]) {
        Leave(id);
      } else {
        clock := clock + 1;
      }
    }

    /** A query throws: an open stream ends with an error. */
    method FailItem(id: SubId)
      requires id in subs && subs[id].queue != []
      modifies `clock, `registry, `subs
      ensures State() == Do(old(State()), Fail(id))
    {
      if subs[id].closed {
        subs := subs[id := Settle(subs[id], Errored)];
        clock := clock + 1;
      } else {
        End(id, Errored);
      }
    }
  }
}
