/** What calendar events and capabilities hold, in every run, and which calls may change them. */
module OrgRecordsHistory {
  import opened Basics
  import opened OrgRecords

  /** The step commits the effect of its call, which answers with this outcome. */
  ghost predicate Ends(s: System, step: Step, o: Outcome)
    requires Fitting(s)
  {
    && step.Advance? && step.call in s.calls && !s.calls[step.call].phase.Done?
    && Apply(s, step).calls[step.call].phase == Done(o)
  }

  ghost predicate Saves(s: System, step: Step, e: EventId)
    requires Fitting(s)
  {
    Ends(s, step, Created(e))
  }

  ghost predicate Rewrites(s: System, step: Step, e: EventId)
    requires Fitting(s)
  {
    Ends(s, step, Updated(e)) && s.calls[step.call].request.Update?
  }

  ghost predicate Switches(s: System, step: Step, k: CapabilityKey)
    requires Fitting(s)
  {
    && step.Advance? && step.call in s.calls && s.calls[step.call].request.SetCapability? && s.calls[step.call].request.capability == k
    && !s.calls[step.call].phase.Done? && Apply(s, step).calls[step.call].phase.Done? && Apply(s, step).calls[step.call].phase.outcome.Updated?
  }

  // ----- Events -----

  /** The content that was last asked for in a committed save or update of the event. */
  ghost function LastContent(steps: seq<Step>, e: EventId): Option<nat> {
    if steps == [] then None
    else
      var init, last := steps[..|steps| - 1], steps[|steps| - 1];
      var s := Run(INITIAL, init);
      if Saves(s, last, e) || Rewrites(s, last, e) then Some(s.calls[last.call].request.content) else LastContent(init, e)
  }

  /** The committed save of the event came from this caller, for this company. */
  ghost predicate SavedBy(steps: seq<Step>, e: EventId, owner: UserId, workspaceId: nat, companyId: CompanyId) {
    steps != [] &&
    var init, last := steps[..|steps| - 1], steps[|steps| - 1];
    var s := Run(INITIAL, init);
    if Saves(s, last, e) then
      var r := s.calls[last.call].request;
      r.actor.userId == owner && r.actor.workspaceId == workspaceId && r.companyId == companyId
    else SavedBy(init, e, owner, workspaceId, companyId)
  }

  /** Every committed update of an event came from its owner under the version it had. */
  lemma EventStep(s: System, step: Step, e: EventId)
    requires Fitting(s)
    ensures var db, after := s.db, Apply(s, step).db;
      && (Saves(s, step, e) ==>
           && s.calls[step.call].request.Save? && e !in db.events && e in after.events
           && var r := s.calls[step.call].request;
              after.events[e] == Event(r.actor.workspaceId, r.companyId, r.actor.userId, r.content, 1))
      && (Rewrites(s, step, e) ==>
           && e in db.events && e in after.events
           && var r := s.calls[step.call].request;
              r.actor.userId == db.events[e].ownerId && r.expected == db.events[e].version
              && after.events[e] == db.events[e].(content := r.content, version := db.events[e].version + 1))
      && (!Saves(s, step, e) && !Rewrites(s, step, e) ==>
           (e in after.events <==> e in db.events) && (e in db.events ==> after.events[e] == db.events[e]))
  {}

  lemma LastStep(steps: seq<Step>)
    requires steps != []
    ensures Run(INITIAL, steps) == Apply(Run(INITIAL, steps[..|steps| - 1]), steps[|steps| - 1])
  {}

  /** In every run an event holds what the last committed save or update asked for, and belongs to whoever saved it. */
  lemma {:induction false} EventIsItsHistory(steps: seq<Step>, e: EventId)
    ensures var db := Run(INITIAL, steps).db;
      if e in db.events then
        var row := db.events[e];
        LastContent(steps, e) == Some(row.content) && SavedBy(steps, e, row.ownerId, row.workspaceId, row.companyId)
      else LastContent(steps, e).None?
  {
    if steps != [] {
      LastStep(steps);
      EventIsItsHistory(steps[..|steps| - 1], e);
      EventStep(Run(INITIAL, steps[..|steps| - 1]), steps[|steps| - 1], e);
    }
  }

  // ----- Capabilities -----

  ghost function LastSwitch(steps: seq<Step>, k: CapabilityKey): Option<bool> {
    if steps == [] then None
    else
      var init, last := steps[..|steps| - 1], steps[|steps| - 1];
      var s := Run(INITIAL, init);
      if Switches(s, last, k) then Some(s.calls[last.call].request.enabled) else LastSwitch(init, k)
  }

  lemma CapabilityStep(s: System, step: Step, k: CapabilityKey)
    requires Fitting(s)
    ensures var db, after := s.db, Apply(s, step).db;
      && (Switches(s, step, k) ==>
           && k in after.capabilities && after.capabilities[k].enabled == s.calls[step.call].request.enabled
           && s.calls[step.call].request.expected == (if k in db.capabilities then db.capabilities[k].version else 0)
           && after.capabilities[k].version == s.calls[step.call].request.expected + 1
           && (k in db.capabilities ==> after.capabilities[k].id == db.capabilities[k].id))
      && (!Switches(s, step, k) ==>
           (k in after.capabilities <==> k in db.capabilities) && (k in db.capabilities ==> after.capabilities[k] == db.capabilities[k]))
  {}

  /** In every run a capability is on or off as the last committed call asked, and a row is there exactly when one was committed. */
  lemma {:induction false} CapabilityIsItsHistory(steps: seq<Step>, k: CapabilityKey)
    ensures var db := Run(INITIAL, steps).db;
      LastSwitch(steps, k) == if k in db.capabilities then Some(db.capabilities[k].enabled) else None
  {
    if steps != [] {
      LastStep(steps);
      CapabilityIsItsHistory(steps[..|steps| - 1], k);
      CapabilityStep(Run(INITIAL, steps[..|steps| - 1]), steps[|steps| - 1], k);
    }
  }

  // ----- An uninterrupted call -----

  /** The two steps of a call with nothing in between. */
  function Served(db: Db, r: Request, e: Env): Phase
    requires Fits(r, Asked)
  {
    var first := Progress(db, Call(r, Asked), e);
    if first.phase.Done? then first.phase else Progress(first.db, Call(r, first.phase), e).phase
  }

  /** A key stands for one user and one of the two ways to create an event. */
  lemma KeysDistinguish(r: Request, r': Request)
    requires r.Save? && r'.Save?
    ensures KeyOf(r) == KeyOf(r') <==> r.actor.userId == r'.actor.userId && r.key == r'.key && r.operation == r'.operation
  {}

  /** A save creates the event unless its key was used: then the same request finds its event again, and any other fails. */
  lemma SaveServed(db: Db, r: Request, e: Env)
    requires r.Save?
    ensures Served(db, r, e) == Done(
        if e.fault then Failed
        else if KeyOf(r) in db.idem then
          var record := db.idem[KeyOf(r)];
          if record.fingerprint == Fingerprint(r.companyId, r.messageId, r.content) && record.eventId in db.events
             && db.events[record.eventId].workspaceId == r.actor.workspaceId && db.events[record.eventId].companyId == r.companyId
             && db.events[record.eventId].ownerId == r.actor.userId
          then Replayed(record.eventId) else Failed
        else if e.newId in db.events then Failed
        else Created(e.newId))
  {}

  lemma UpdateServed(db: Db, r: Request, e: Env)
    requires r.Update?
    ensures Served(db, r, e) == Done(
        if !e.fault && r.eventId in db.events && db.events[r.eventId].ownerId == r.actor.userId
           && db.events[r.eventId].workspaceId == r.actor.workspaceId && db.events[r.eventId].companyId in r.actor.companies
           && db.events[r.eventId].version == r.expected
        then Updated(r.eventId) else Failed)
  {}

  lemma CapabilityServed(db: Db, r: Request, e: Env)
    requires r.SetCapability?
    ensures var k := r.capability;
      Served(db, r, e) == Done(
        if e.fault then Failed
        else if k in db.capabilities then
          if db.capabilities[k].version == r.expected then Updated(db.capabilities[k].id) else Failed
        else if r.expected == 0 && !IdTaken(db.capabilities, e.newId) then Updated(e.newId) else Failed)
  {}
}
