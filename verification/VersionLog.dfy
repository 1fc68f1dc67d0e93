/** The transactional outbox, seen from one versioned aggregate: the versions its events
    carry, in the order in which the events were appended. */
module VersionLog {

  datatype Aggregate = ThreadAggregate(threadId: nat) | EventAggregate(eventId: nat) | CapabilityAggregate(capabilityId: nat)

  datatype OutboxEvent = OutboxEvent(aggregate: Aggregate, version: nat, eventType: string)

  function Versions(log: seq<OutboxEvent>, a: Aggregate): seq<nat> {
    if log == [] then []
    else
      var rest := Versions(log[..|log| - 1], a);
      var last := log[|log| - 1];
      if last.aggregate == a then rest + [last.version] else rest
  }

  function UpTo(n: nat): seq<nat> {
    if n == 0 then [] else UpTo(n - 1) + [n]
  }

  /** Appending an event extends exactly the log of its own aggregate. */
  lemma AppendExtends(log: seq<OutboxEvent>, e: OutboxEvent, a: Aggregate)
    ensures Versions(log + [e], a) == if e.aggregate == a then Versions(log, a) + [e.version] else Versions(log, a)
  {
    assert (log + [e])[..|log|] == log;
  }

  lemma {:induction false} UpToAt(n: nat)
    ensures |UpTo(n)| == n && forall i :: 0 <= i < n ==> UpTo(n)[i] == i + 1
  {
    if n > 0 {
      UpToAt(n - 1);
    }
  }

  /** Where in the log the events of `a` with version `v` stand. */
  function Carrying(log: seq<OutboxEvent>, a: Aggregate, v: nat): set<nat> {
    set i | 0 <= i < |log| && log[i].aggregate == a && log[i].version == v
  }

  /** A log that ends with an event of `a` and whose versions are 1, 2, ..., n ends with n. */
  lemma LastVersion(log: seq<OutboxEvent>, a: Aggregate, n: nat)
    requires log != [] && log[|log| - 1].aggregate == a && Versions(log, a) == UpTo(n)
    ensures n > 0 && log[|log| - 1].version == n && Versions(log[..|log| - 1], a) == UpTo(n - 1)
  {
    UpToAt(n);
    var rest := Versions(log[..|log| - 1], a);
    assert rest + [log[|log| - 1].version] == UpTo(n - 1) + [n];
    assert (rest + [log[|log| - 1].version])[..|rest|] == rest;
    assert (UpTo(n - 1) + [n])[..|UpTo(n - 1)|] == UpTo(n - 1);
  }

  /** One event more, at the end. */
  lemma CarryingNext(log: seq<OutboxEvent>, a: Aggregate, v: nat)
    requires log != []
    ensures var last := log[|log| - 1];
      Carrying(log, a, v) == Carrying(log[..|log| - 1], a, v) + if last.aggregate == a && last.version == v then {|log| - 1} else {}
    ensures |log| - 1 !in Carrying(log[..|log| - 1], a, v)
  {}

  /** A log whose versions are 1, 2, ..., n carries each of them exactly once and no other version. */
  lemma {:induction false} EachVersionOnce(log: seq<OutboxEvent>, a: Aggregate, n: nat, v: nat)
    requires Versions(log, a) == UpTo(n)
    ensures |Carrying(log, a, v)| == if 1 <= v <= n then 1 else 0
  {
    if log == [] {
      UpToAt(n);
      assert n == 0;
    } else {
      var init := log[..|log| - 1];
      CarryingNext(log, a, v);
      if log[|log| - 1].aggregate == a {
        LastVersion(log, a, n);
        EachVersionOnce(init, a, n - 1, v);
      } else {
        EachVersionOnce(init, a, n, v);
      }
    }
  }
}
