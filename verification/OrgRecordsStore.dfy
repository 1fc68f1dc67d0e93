/** The calendar and capability transactions as statements on mutable tables. A statement that violates a unique key, and a
    guarded update that matches no row, roll the whole transaction back. */
module OrgRecordsStore {
  import opened Basics
  import opened VersionLog
  import opened OrgRecords

  class Store {
    var events: map<EventId, Event>
    var capabilities: map<CapabilityKey, Capability>
    var idem: map<IdemKey, IdemRecord>
    var outbox: seq<OutboxEvent>

    function State(): Db
      reads this
    {
      Db(events, capabilities, idem, outbox)
    }

    /** The transaction specified by `tx` committed, or it left the tables as they were. */
    twostate predicate Performed(tx: Option<Db>, ok: bool)
      reads this
    {
      ok == tx.Some? && State() == if tx.Some? then tx.value else old(State())
    }

    constructor ()
      ensures State() == EMPTY_DB
    {
      events, capabilities, idem, outbox := map[], map[], map[], [];
    }

    method Rollback(saved: Db)
      modifies this
      ensures State() == saved
    {
      events, capabilities, idem, outbox := saved.events, saved.capabilities, saved.idem, saved.outbox;
    }

    method InsertEvent(r: Request, id: EventId) returns (ok: bool)
      requires r.Save?
      modifies this
      ensures Performed(SaveTx(old(State()), r, id), ok)
    {
      var saved := State();
      if id in events {
        return false;
      }
      events := events[id := Event(r.actor.workspaceId, r.companyId, r.actor.userId, r.content, 1)];
      if KeyOf(r) in idem {
        Rollback(saved);
        return false;
      }
      idem := idem[KeyOf(r) := IdemRecord(FingerprintOf(r), id)];
      outbox := outbox + [OutboxEvent(EventAggregate(id), events[id].version, "calendar.event.created")];
      ok := true;
    }

    /** An event call that runs without interruption: lookup, then transaction. */
    method PersistEvent(r: Request, id: EventId) returns (outcome: Outcome)
      requires r.Save?
      modifies this
      ensures match LookUp(old(State()), r)
        case Done(o) => outcome == o && State() == old(State())
        case _ => Move(State(), Done(outcome)) == Settle(old(State()), SaveTx(old(State()), r, id), Created(id))
    {
      if KeyOf(r) in idem {
        var record := idem[KeyOf(r)];
        if record.fingerprint != FingerprintOf(r) {
          return Failed;
        }
        if record.eventId in events
           && events[record.eventId].workspaceId == r.actor.workspaceId
           && events[record.eventId].companyId == r.companyId
           && events[record.eventId].ownerId == r.actor.userId
        {
          return Replayed(record.eventId);
        }
        return Failed;
      }
      var ok := InsertEvent(r, id);
      outcome := if ok then Created(id) else Failed;
    }

    method UpdateEvent(r: Request) returns (ok: bool)
      requires r.Update?
      modifies this
      ensures Performed(UpdateTx(old(State()), r), ok)
    {
      var nextVersion := r.expected + 1;
      if r.eventId !in events || events[r.eventId].ownerId != r.actor.userId || events[r.eventId].version != r.expected {
        return false;
      }
      var e := events[r.eventId];
      events := events[r.eventId := Event(e.workspaceId, e.companyId, e.ownerId, r.content, e.version + 1)];
      outbox := outbox + [OutboxEvent(EventAggregate(r.eventId), nextVersion, "calendar.event.updated")];
      ok := true;
    }

    /** Writes the capability that was read as `current`. */
    method WriteCapability(r: Request, current: Option<Capability>, newId: nat) returns (ok: bool)
      requires r.SetCapability?
      modifies this
      ensures Performed(CapabilityTx(old(State()), r, current, newId), ok)
    {
      var k := r.capability;
      var nextVersion := r.expected + 1;
      if current.Some? {
        if k !in capabilities || capabilities[k].id != current.value.id || capabilities[k].version != r.expected {
          return false;
        }
        capabilities := capabilities[k := Capability(capabilities[k].id, r.enabled, nextVersion)];
      } else {
        if k in capabilities || IdTaken(capabilities, newId) {
          return false;
        }
        capabilities := capabilities[k := Capability(newId, r.enabled, nextVersion)];
      }
      outbox := outbox + [OutboxEvent(CapabilityAggregate(capabilities[k].id), nextVersion, "capability.changed")];
      ok := true;
    }

    /** A capability call that runs without interruption succeeds exactly when the version it expects is the current one,
        0 standing for a capability that was never set. */
    method UpdateCapability(r: Request, newId: nat) returns (ok: bool)
      requires r.SetCapability? && !IdTaken(capabilities, newId)
      modifies this
      ensures ok <==> r.expected == if r.capability in old(capabilities) then old(capabilities)[r.capability].version else 0
      ensures !ok ==> State() == old(State())
      ensures ok ==>
        && r.capability in capabilities
        && capabilities[r.capability].version == r.expected + 1
        && capabilities[r.capability].enabled == r.enabled
    {
      var current := if r.capability in capabilities then Some(capabilities[r.capability]) else None;
      if (if current.Some? then current.value.version else 0) != r.expected {
        return false;
      }
      ok := WriteCapability(r, current, newId);
    }
  }
}
