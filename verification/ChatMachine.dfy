/** Calls of the chat service as a state machine. A call reads, looks up and commits in separate steps,
    and the steps of all calls interleave freely. Each step sees the database as it is at that moment. */
module ChatMachine {
  import opened Basics
  import opened ChatModel

  datatype Outcome =
    | Created(id: nat)    // the call committed its own effect
    | Existing(id: nat)   // `create` answered with a direct conversation that was already there
    | Replayed(id: nat)   // the idempotency record of an earlier call answered
    | Unchanged(id: nat)  // there was nothing to do
    | Failed

  datatype Phase =
    | Asked                                     // nothing read yet
    | Checked(seen: Db)                         // the thread was read and the checks passed
    | Cleared(seen: Db)                         // the idempotency lookup found no record
    | Searching                                 // `create` is about to look for the direct conversation
    | Inserting                                 // `create` is about to insert the thread
    | Found(threadId: ThreadId)                 // `create` is about to record an existing conversation
    | Recovering                                // the insert of a direct conversation aborted
    | Opening(view: GroupView, existing: Option<ThreadId>)  // `groupThread` is about to join or insert
    | Done(outcome: Outcome)

  datatype Call = Call(request: Request, phase: Phase)

  datatype System = System(db: Db, calls: map<nat, Call>)

  const INITIAL := System(EMPTY_DB, map[])

  datatype Step = Ask(call: nat, request: Request) | Advance(call: nat, env: Env)

  /** The database and the phase of the call after one step of it. */
  datatype Move = Move(db: Db, phase: Phase)

  function Stop(db: Db): Move {
    Move(db, Done(Failed))
  }

  function Review(db: Db, r: Request, e: Env): Verdict
    requires !r.CreateThread? && !r.OpenGroup?
  {
    match r
    case Post(_, _, _, _, _, _) => ReviewPost(db, r, e)
    case Add(_, _, _, _, _, _) => ReviewAdd(db, r, e)
    case SetRole(_, _, _, _, _, _) => ReviewSetRole(db, r, e)
    case Remove(_, _, _, _, _) => ReviewRemove(db, r, e)
    case Edit(_, _, _, _) => ReviewEdit(db, r, e)
    case Delete(_, _, _) => ReviewDelete(db, r, e)
    case MarkRead(_, _, _) => ReviewMarkRead(db, r, e)
    case Prefer(_, _, _, _) => ReviewPrefer(db, r, e)
  }

  /** First step of `create`: validate the input, then look the key up. */
  function StartCreate(db: Db, r: Request, e: Env): Move
    requires r.CreateThread?
  {
    if !WellFormedCreate(r) || !(Others(r) <= e.directory) then Stop(db)
    else if KeyOf(r) in db.idem then Replay(db, r)
    else Move(db, if r.direct then Searching else Inserting)
  }

  function Replay(db: Db, r: Request): Move
    requires Keyed(r) && KeyOf(r) in db.idem
  {
    var record := db.idem[KeyOf(r)];
    if record.fingerprint != FingerprintOf(r) then Stop(db) else Move(db, Done(Replayed(record.resultId)))
  }

  /** First step of `groupThread`: read the working group and the thread that may already exist for it. */
  ghost function StartOpen(db: Db, r: Request, e: Env): Move
    requires r.OpenGroup?
  {
    if e.group.None? || e.group.value.companyId !in r.actor.companies then Stop(db)
    else
      var view := e.group.value;
      var existing := FindGroupThread(db.threads, view.companyId, r.groupId);
      if existing.Some? then
        if Active(db.seats, existing.value, r.actor.userId) then Move(db, Done(Unchanged(existing.value)))
        else Move(db, Opening(view, existing))
      else if r.actor.userId !in view.members || !(view.members <= e.directory) then Stop(db)
      else Move(db, Opening(view, None))
  }

  function Begin(db: Db, r: Request, e: Env): Move
    requires !r.CreateThread? && !r.OpenGroup?
  {
    match Review(db, r, e)
    case Refused => Stop(db)
    case Nothing(id) => Move(db, Done(Unchanged(id)))
    case Proceed => Move(db, Checked(db))
  }

  function LookUp(db: Db, r: Request, seen: Db): Move
    requires r.Post? || r.Add?
  {
    if KeyOf(r) in db.idem then Replay(db, r)
    else if r.Add? && AddRefused(seen, r) then Stop(db)
    else Move(db, Cleared(seen))
  }

  /** The transaction of a call whose checks passed on the snapshot `seen`. */
  function Commit(db: Db, r: Request, seen: Db, e: Env): TxResult
    requires !r.CreateThread? && !r.OpenGroup?
  {
    if e.fault then Aborted
    else match r
      case Post(_, _, _, _, _, _) => PostTx(db, r, e.newId, e.now)
      case Add(_, _, _, _, _, _) => AddTx(db, r, Seat(r.threadId, r.target) in seen.seats)
      case SetRole(_, _, _, _, _, _) => SetRoleTx(db, r)
      case Remove(_, _, _, _, _) => RemoveTx(db, r)
      case Edit(_, _, _, _) => RewriteTx(db, r.messageId, r.expectedRow, Some(r.text))
      case Delete(_, _, _) => RewriteTx(db, r.messageId, r.expectedRow, None)
      case MarkRead(_, _, _) => MarkReadTx(db, r)
      case Prefer(_, _, _, _) => PreferTx(db, r)
  }

  function ResultId(r: Request, e: Env): nat
    requires !r.CreateThread? && !r.OpenGroup?
  {
    match r
    case Post(_, _, _, _, _, _) => e.newId
    case Add(_, _, _, _, _, _) => r.target
    case SetRole(_, _, _, _, _, _) => r.target
    case Remove(_, _, _, _, _) => r.target
    case Edit(_, _, _, _) => r.messageId
    case Delete(_, _, _) => r.messageId
    case MarkRead(_, _, _) => r.messageId
    case Prefer(_, _, _, _) => r.threadId
  }

  function Settle(db: Db, tx: TxResult, outcome: Outcome, otherwise: Phase): Move {
    match tx
    case Aborted => Move(db, otherwise)
    case Committed(after) => Move(after, Done(outcome))
  }

  ghost function Insert(db: Db, r: Request, e: Env): Move
    requires WellFormedCreate(r)
  {
    Settle(db, if e.fault then Aborted else CreateTx(db, r, e.newId, e.now), Created(e.newId),
           if r.direct then Recovering else Done(Failed))
  }

  function Open(db: Db, r: Request, view: GroupView, existing: Option<ThreadId>, e: Env): Move
    requires r.OpenGroup?
  {
    if existing.Some? then
      Settle(db, if e.fault then Aborted else JoinTx(db, r, view, existing.value), Existing(existing.value), Done(Failed))
    else
      Settle(db, if e.fault then Aborted else OpenTx(db, r, view, e.newId, e.now), Created(e.newId), Done(Failed))
  }

  /** A phase that the requests of this kind go through. */
  predicate Fits(r: Request, p: Phase) {
    match p
    case Asked => true
    case Checked(_) => !r.CreateThread? && !r.OpenGroup?
    case Cleared(_) => r.Post? || r.Add?
    case Searching => WellFormedCreate(r) && r.direct
    case Inserting => WellFormedCreate(r)
    case Found(_) => WellFormedCreate(r) && r.direct
    case Recovering => WellFormedCreate(r) && r.direct
    case Opening(_, _) => r.OpenGroup?
    case Done(_) => true
  }

  ghost function Progress(db: Db, c: Call, e: Env): (m: Move)
    requires Fits(c.request, c.phase)
    ensures Fits(c.request, m.phase)
  {
    var r := c.request;
    match c.phase
    case Asked =>
      if r.CreateThread? then StartCreate(db, r, e)
      else if r.OpenGroup? then StartOpen(db, r, e)
      else Begin(db, r, e)
    case Checked(seen) =>
      if r.Post? || r.Add? then LookUp(db, r, seen)
      else Settle(db, Commit(db, r, seen, e), Created(ResultId(r, e)), Done(Failed))
    case Cleared(seen) =>
      Settle(db, Commit(db, r, seen, e), Created(ResultId(r, e)), Done(Failed))
    case Searching =>
      var direct := FindDirect(db.threads, DirectKeyOf(r));
      Move(db, if direct.Some? then Found(direct.value) else Inserting)
    case Inserting => Insert(db, r, e)
    case Found(t) =>
      Settle(db, if e.fault then Aborted else UpsertTx(db, r, t), Existing(t), Done(Failed))
    case Recovering =>
      var direct := FindDirect(db.threads, DirectKeyOf(r));
      Move(db, if direct.Some? then Found(direct.value) else Done(Failed))
    case Opening(view, existing) => Open(db, r, view, existing, e)
    case Done(_) => Move(db, c.phase)
  }

  ghost predicate Fitting(s: System) {
    forall c | c in s.calls :: Fits(s.calls[c].request, s.calls[c].phase)
  }

  /** One step of the system; a step of an unknown call and a second use of a call's name do nothing. */
  ghost function Apply(s: System, step: Step): (s': System)
    requires Fitting(s)
    ensures Fitting(s')
  {
    match step
    case Ask(c, r) => if c in s.calls then s else s.(calls := s.calls[c := Call(r, Asked)])
    case Advance(c, e) =>
      if c !in s.calls then s
      else
        var move := Progress(s.db, s.calls[c], e);
        System(move.db, s.calls[c := Call(s.calls[c].request, move.phase)])
  }

  ghost function Run(s: System, steps: seq<Step>): (s': System)
    requires Fitting(s)
    ensures Fitting(s')
    decreases |steps|
  {
    if steps == [] then s else Run(Apply(s, steps[0]), steps[1..])
  }

  predicate Succeeded(o: Outcome) {
    !o.Failed?
  }

  /** Call `c` has ended well with the answer `id`. */
  ghost predicate Answered(s: System, c: nat, r: Request, id: nat) {
    && c in s.calls
    && s.calls[c].request == r
    && s.calls[c].phase.Done?
    && Succeeded(s.calls[c].phase.outcome)
    && s.calls[c].phase.outcome.id == id
  }
}
