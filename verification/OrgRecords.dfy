/** Calendar events and company capabilities: versioned rows that share the outbox. A call reads and commits in separate
    steps, and the steps of all calls interleave freely. */
module OrgRecords {
  import opened Basics
  import opened VersionLog

  type UserId = nat
  type CompanyId = nat
  type EventId = nat

  datatype Actor = Actor(userId: UserId, workspaceId: nat, companies: set<CompanyId>)
  datatype Operation = Creating | CreatingFromMessage

  datatype Event = Event(workspaceId: nat, companyId: CompanyId, ownerId: UserId, content: nat, version: nat)
  datatype Capability = Capability(id: nat, enabled: bool, version: nat)
  datatype CapabilityKey = CapabilityKey(companyId: CompanyId, code: nat)

  datatype IdemKey = IdemKey(userId: UserId, key: nat, operation: Operation)
  datatype Fingerprint = Fingerprint(companyId: CompanyId, messageId: Option<nat>, content: nat)
  datatype IdemRecord = IdemRecord(fingerprint: Fingerprint, eventId: EventId)

  datatype Db = Db(events: map<EventId, Event>, capabilities: map<CapabilityKey, Capability>, idem: map<IdemKey, IdemRecord>,
                   outbox: seq<OutboxEvent>)

  const EMPTY_DB := Db(map[], map[], map[], [])

  datatype Request =
    | Save(actor: Actor, companyId: CompanyId, messageId: Option<nat>, content: nat, key: nat, operation: Operation)
    | Update(actor: Actor, eventId: EventId, expected: nat, content: nat)
    | SetCapability(actor: Actor, capability: CapabilityKey, expected: nat, enabled: bool)

  /** What a step takes from outside: a new identifier, and a failure of a check that is not part of this model
      (a missing company, a disabled capability, an invalid time zone) or of the database. */
  datatype Env = Env(newId: nat, fault: bool)

  datatype Outcome = Created(id: nat) | Replayed(id: nat) | Updated(id: nat) | Failed

  datatype Phase =
    | Asked                                   // nothing read yet
    | Cleared                                 // the reads of an event call passed
    | Compared(current: Option<Capability>)   // the capability was read, and its version is the expected one
    | Done(outcome: Outcome)

  datatype Call = Call(request: Request, phase: Phase)
  datatype System = System(db: Db, calls: map<nat, Call>)
  datatype Step = Ask(call: nat, request: Request) | Advance(call: nat, env: Env)
  datatype Move = Move(db: Db, phase: Phase)

  const INITIAL := System(EMPTY_DB, map[])

  function KeyOf(r: Request): IdemKey
    requires r.Save?
  {
    IdemKey(r.actor.userId, r.key, r.operation)
  }

  function FingerprintOf(r: Request): Fingerprint
    requires r.Save?
  {
    Fingerprint(r.companyId, r.messageId, r.content)
  }

  // ----- Transactions -----

  function SaveTx(db: Db, r: Request, id: EventId): Option<Db>
    requires r.Save?
  {
    if id in db.events || KeyOf(r) in db.idem then None
    else Some(Db(db.events[id := Event(r.actor.workspaceId, r.companyId, r.actor.userId, r.content, 1)], db.capabilities,
                 db.idem[KeyOf(r) := IdemRecord(FingerprintOf(r), id)],
                 db.outbox + [OutboxEvent(EventAggregate(id), 1, "calendar.event.created")]))
  }

  function UpdateTx(db: Db, r: Request): Option<Db>
    requires r.Update?
  {
    if r.eventId !in db.events || db.events[r.eventId].ownerId != r.actor.userId || db.events[r.eventId].version != r.expected then None
    else
      var e := db.events[r.eventId];
      Some(Db(db.events[r.eventId := Event(e.workspaceId, e.companyId, e.ownerId, r.content, e.version + 1)], db.capabilities,
              db.idem, db.outbox + [OutboxEvent(EventAggregate(r.eventId), r.expected + 1, "calendar.event.updated")]))
  }

  predicate IdTaken(capabilities: map<CapabilityKey, Capability>, id: nat) {
    exists k :: k in capabilities && capabilities[k].id == id
  }

  /** A row that was read is updated under its id and the expected version; a row that was not there is inserted,
      and the unique key on company and code rejects a second one. */
  function CapabilityTx(db: Db, r: Request, current: Option<Capability>, newId: nat): Option<Db>
    requires r.SetCapability?
  {
    var k := r.capability;
    var id := if current.Some? then current.value.id else newId;
    var ok :=
      if current.Some? then k in db.capabilities && db.capabilities[k].id == id && db.capabilities[k].version == r.expected
      else k !in db.capabilities && !IdTaken(db.capabilities, id);
    if !ok then None
    else Some(Db(db.events, db.capabilities[k := Capability(id, r.enabled, r.expected + 1)], db.idem,
                 db.outbox + [OutboxEvent(CapabilityAggregate(id), r.expected + 1, "capability.changed")]))
  }

  // ----- The machine -----

  function Settle(db: Db, tx: Option<Db>, outcome: Outcome): Move {
    if tx.None? then Move(db, Done(Failed)) else Move(tx.value, Done(outcome))
  }

  /** The lookup by key, and the event of an earlier call under it. */
  function LookUp(db: Db, r: Request): Phase
    requires r.Save?
  {
    if KeyOf(r) !in db.idem then Cleared
    else
      var record := db.idem[KeyOf(r)];
      if record.fingerprint != FingerprintOf(r) then Done(Failed)
      else if record.eventId !in db.events then Done(Failed)
      else
        var e := db.events[record.eventId];
        if e.workspaceId == r.actor.workspaceId && e.companyId == r.companyId && e.ownerId == r.actor.userId
        then Done(Replayed(record.eventId)) else Done(Failed)
  }

  function Read(db: Db, r: Request): Phase {
    match r
    case Save(_, _, _, _, _, _) => LookUp(db, r)
    case Update(a, e, _, _) =>
      if e in db.events && db.events[e].workspaceId == a.workspaceId && db.events[e].companyId in a.companies && db.events[e].ownerId == a.userId
      then Cleared else Done(Failed)
    case SetCapability(_, k, expected, _) =>
      var current := if k in db.capabilities then Some(db.capabilities[k]) else None;
      if (if current.Some? then current.value.version else 0) == expected then Compared(current) else Done(Failed)
  }

  predicate Fits(r: Request, p: Phase) {
    match p
    case Cleared => !r.SetCapability?
    case Compared(current) => r.SetCapability? && (current.None? ==> r.expected == 0)
    case _ => true
  }

  function Progress(db: Db, c: Call, e: Env): (m: Move)
    requires Fits(c.request, c.phase)
    ensures Fits(c.request, m.phase)
  {
    var r := c.request;
    if e.fault && !c.phase.Done? then Move(db, Done(Failed))
    else
      match c.phase
      case Asked => Move(db, Read(db, r))
      case Cleared =>
        if r.Save? then Settle(db, SaveTx(db, r, e.newId), Created(e.newId)) else Settle(db, UpdateTx(db, r), Updated(r.eventId))
      case Compared(current) =>
        Settle(db, CapabilityTx(db, r, current, e.newId), Updated(if current.Some? then current.value.id else e.newId))
      case Done(_) => Move(db, c.phase)
  }

  ghost predicate Fitting(s: System) {
    forall c | c in s.calls :: Fits(s.calls[c].request, s.calls[c].phase)
  }

  ghost function Apply(s: System, step: Step): (s': System)
    requires Fitting(s)
    ensures Fitting(s')
  {
    match step
    case Ask(c, r) => if c in s.calls then s else System(s.db, s.calls[c := Call(r, Asked)])
    case Advance(c, e) =>
      if c !in s.calls then s
      else
        var move := Progress(s.db, s.calls[c], e);
        System(move.db, s.calls[c := Call(s.calls[c].request, move.phase)])
  }

  ghost function Run(s: System, steps: seq<Step>): (s': System)
    requires Fitting(s)
    ensures Fitting(s')
  {
    if steps == [] then s else Apply(Run(s, steps[..|steps| - 1]), steps[|steps| - 1])
  }

  // ----- The outbox -----

  ghost predicate EventLogged(db: Db, e: EventId) {
    Versions(db.outbox, EventAggregate(e)) == UpTo(if e in db.events then db.events[e].version else 0)
  }

  ghost predicate CapabilityLogged(db: Db, k: CapabilityKey) {
    k in db.capabilities ==> Versions(db.outbox, CapabilityAggregate(db.capabilities[k].id)) == UpTo(db.capabilities[k].version)
  }

  ghost predicate SpareUnlogged(db: Db, id: nat) {
    !IdTaken(db.capabilities, id) ==> Versions(db.outbox, CapabilityAggregate(id)) == []
  }

  ghost predicate OneRowPerId(capabilities: map<CapabilityKey, Capability>) {
    forall k, l | k in capabilities && l in capabilities && capabilities[k].id == capabilities[l].id :: k == l
  }

  ghost predicate Logged(db: Db) {
    && (forall e :: EventLogged(db, e))
    && (forall k :: CapabilityLogged(db, k))
    && (forall id :: SpareUnlogged(db, id))
    && OneRowPerId(db.capabilities)
  }

  lemma EventAppended(db: Db, after: Db, e: EventId, v: nat, eventType: string)
    requires Logged(db) && after.capabilities == db.capabilities
    requires v == (if e in db.events then db.events[e].version else 0) + 1
    requires after.outbox == db.outbox + [OutboxEvent(EventAggregate(e), v, eventType)]
    requires e in after.events && after.events[e].version == v && after.events == db.events[e := after.events[e]]
    ensures Logged(after)
  {
    var o := OutboxEvent(EventAggregate(e), v, eventType);
    forall e' ensures EventLogged(after, e') {
      assert EventLogged(db, e');
      AppendExtends(db.outbox, o, EventAggregate(e'));
      assert UpTo(v) == UpTo(v - 1) + [v];
    }
    forall k ensures CapabilityLogged(after, k) {
      assert CapabilityLogged(db, k);
      if k in db.capabilities {
        AppendExtends(db.outbox, o, CapabilityAggregate(db.capabilities[k].id));
      }
    }
    forall id ensures SpareUnlogged(after, id) {
      assert SpareUnlogged(db, id);
      AppendExtends(db.outbox, o, CapabilityAggregate(id));
    }
  }

  lemma CapabilityAppended(db: Db, after: Db, k: CapabilityKey, v: nat, eventType: string)
    requires Logged(db) && after.events == db.events
    requires k in after.capabilities && after.capabilities[k].version == v
    requires after.capabilities == db.capabilities[k := after.capabilities[k]]
    requires if k in db.capabilities then after.capabilities[k].id == db.capabilities[k].id && v == db.capabilities[k].version + 1
             else !IdTaken(db.capabilities, after.capabilities[k].id) && v == 1
    requires after.outbox == db.outbox + [OutboxEvent(CapabilityAggregate(after.capabilities[k].id), v, eventType)]
    ensures Logged(after)
  {
    var id := after.capabilities[k].id;
    var o := OutboxEvent(CapabilityAggregate(id), v, eventType);
    forall e ensures EventLogged(after, e) {
      assert EventLogged(db, e);
      AppendExtends(db.outbox, o, EventAggregate(e));
    }
    CapabilityRows(db, after, k);
    forall l ensures CapabilityLogged(after, l) {
      assert CapabilityLogged(db, l) && SpareUnlogged(db, id);
      if l in after.capabilities {
        AppendExtends(db.outbox, o, CapabilityAggregate(after.capabilities[l].id));
        assert UpTo(v) == UpTo(v - 1) + [v];
      }
    }
    forall i ensures SpareUnlogged(after, i) {
      assert SpareUnlogged(db, i);
      AppendExtends(db.outbox, o, CapabilityAggregate(i));
      if !IdTaken(after.capabilities, i) {
        assert after.capabilities[k].id != i;
        forall l | l in db.capabilities ensures db.capabilities[l].id != i {
          assert l in after.capabilities;
        }
      }
    }
  }

  lemma CapabilityRows(db: Db, after: Db, k: CapabilityKey)
    requires OneRowPerId(db.capabilities) && k in after.capabilities && after.capabilities == db.capabilities[k := after.capabilities[k]]
    requires if k in db.capabilities then after.capabilities[k].id == db.capabilities[k].id
             else !IdTaken(db.capabilities, after.capabilities[k].id)
    ensures OneRowPerId(after.capabilities)
    ensures forall l | l in after.capabilities && l != k :: l in db.capabilities && after.capabilities[l].id != after.capabilities[k].id
  {}

  lemma ProgressLogged(db: Db, c: Call, e: Env)
    requires Fits(c.request, c.phase) && Logged(db)
    ensures Logged(Progress(db, c, e).db)
  {
    var r := c.request;
    var after := Progress(db, c, e).db;
    if after != db {
      match r
      case Save(_, _, _, _, _, _) => EventAppended(db, after, e.newId, 1, "calendar.event.created");
      case Update(_, id, expected, _) => EventAppended(db, after, id, expected + 1, "calendar.event.updated");
      case SetCapability(_, k, expected, _) => CapabilityAppended(db, after, k, expected + 1, "capability.changed");
    }
  }

  lemma {:induction false} RunLogged(steps: seq<Step>)
    ensures Logged(Run(INITIAL, steps).db)
  {
    if steps != [] {
      var init, last := steps[..|steps| - 1], steps[|steps| - 1];
      RunLogged(init);
      var s := Run(INITIAL, init);
      if last.Advance? && last.call in s.calls {
        ProgressLogged(s.db, s.calls[last.call], last.env);
      }
    }
  }

  /** In every state of every run the outbox carries each version of an event from 1 to the current one exactly once. */
  lemma EventOutboxComplete(steps: seq<Step>, e: EventId, v: nat)
    ensures var db := Run(INITIAL, steps).db;
      var current := if e in db.events then db.events[e].version else 0;
      && Versions(db.outbox, EventAggregate(e)) == UpTo(current)
      && |Carrying(db.outbox, EventAggregate(e), v)| == if 1 <= v <= current then 1 else 0
  {
    RunLogged(steps);
    var db := Run(INITIAL, steps).db;
    assert EventLogged(db, e);
    EachVersionOnce(db.outbox, EventAggregate(e), if e in db.events then db.events[e].version else 0, v);
  }

  /** The same for the row of a capability. */
  lemma CapabilityOutboxComplete(steps: seq<Step>, k: CapabilityKey, v: nat)
    requires k in Run(INITIAL, steps).db.capabilities
    ensures var db := Run(INITIAL, steps).db;
      var row := db.capabilities[k];
      && Versions(db.outbox, CapabilityAggregate(row.id)) == UpTo(row.version)
      && |Carrying(db.outbox, CapabilityAggregate(row.id), v)| == if 1 <= v <= row.version then 1 else 0
  {
    RunLogged(steps);
    var db := Run(INITIAL, steps).db;
    assert CapabilityLogged(db, k);
    EachVersionOnce(db.outbox, CapabilityAggregate(db.capabilities[k].id), db.capabilities[k].version, v);
  }
}
