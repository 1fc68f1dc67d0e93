/** Rows, requests and transactions of the chat service. A table is a map from its unique key
    to its row; a transaction either commits a whole new database or aborts and changes nothing. */
module ChatModel {
  import opened Basics
  import opened VersionLog

  type UserId = nat
  type ThreadId = nat
  type MessageId = nat
  type CompanyId = nat
  type GroupId = nat
  type Time = nat

  /** `GroupContext` is a CONTEXTUAL thread opened for a working group; `Contextual` is any other one. */
  datatype Kind = Direct | Group | Contextual | GroupContext

  datatype Role = Owner | Member

  /** The fingerprint of a company and an unordered pair of users, kept as the sorted pair itself. */
  datatype DirectKey = DirectKey(companyId: CompanyId, low: UserId, high: UserId)

  datatype Thread = Thread(
    kind: Kind,
    companyId: CompanyId,
    directKey: Option<DirectKey>,
    groupId: Option<GroupId>,
    version: nat,
    lastMessageAt: Option<Time>,
    createdAt: Time)

  /** The unique key of a participant row. */
  datatype Seat = Seat(threadId: ThreadId, userId: UserId)

  datatype Participant = Participant(role: Role, left: bool, muted: bool, marker: Option<MessageId>, version: nat)

  datatype Message = Message(
    threadId: ThreadId,
    authorId: UserId,
    text: string,
    replyTo: Option<MessageId>,
    createdAt: Time,
    deleted: bool,
    version: nat)

  datatype Operation = Creating | Posting | Adding(threadId: ThreadId)

  datatype IdemKey = IdemKey(userId: UserId, key: nat, operation: Operation)

  datatype Fingerprint =
    | CreateFingerprint(companyId: CompanyId, direct: bool, title: string, others: set<UserId>)
    | PostFingerprint(threadId: ThreadId, text: string, replyTo: Option<MessageId>, attachments: seq<nat>)
    | AddFingerprint(userId: UserId, role: Role, expectedThread: nat)

  datatype IdemRecord = IdemRecord(fingerprint: Fingerprint, resultId: nat)

  type Seats = map<Seat, Participant>

  datatype Db = Db(
    threads: map<ThreadId, Thread>,
    seats: Seats,
    messages: map<MessageId, Message>,
    idem: map<IdemKey, IdemRecord>,
    outbox: seq<OutboxEvent>)

  const EMPTY_DB := Db(map[], map[], map[], map[], [])

  datatype Actor = Actor(userId: UserId, admin: bool, companies: set<CompanyId>)

  datatype Request =
    | CreateThread(actor: Actor, key: nat, companyId: CompanyId, direct: bool, title: string, participantIds: set<UserId>)
    | OpenGroup(actor: Actor, groupId: GroupId)
    | Post(actor: Actor, key: nat, threadId: ThreadId, text: string, replyTo: Option<MessageId>, attachments: seq<nat>)
    | Add(actor: Actor, key: nat, threadId: ThreadId, target: UserId, role: Role, expectedThread: nat)
    | SetRole(actor: Actor, threadId: ThreadId, target: UserId, role: Role, expectedRow: nat, expectedThread: nat)
    | Remove(actor: Actor, threadId: ThreadId, target: UserId, expectedRow: nat, expectedThread: nat)
    | Edit(actor: Actor, messageId: MessageId, text: string, expectedRow: nat)
    | Delete(actor: Actor, messageId: MessageId, expectedRow: nat)
    | MarkRead(actor: Actor, threadId: ThreadId, messageId: MessageId)
    | Prefer(actor: Actor, threadId: ThreadId, muted: bool, expectedRow: nat)

  /** Requests that manage the membership of a thread and carry the thread version they expect. */
  predicate Managing(r: Request) {
    r.Add? || r.SetRole? || r.Remove?
  }

  /** Requests protected by an idempotency key. */
  predicate Keyed(r: Request) {
    r.CreateThread? || r.Post? || r.Add?
  }

  function KeyOf(r: Request): IdemKey
    requires Keyed(r)
  {
    IdemKey(r.actor.userId, r.key, if r.CreateThread? then Creating else if r.Post? then Posting else Adding(r.threadId))
  }

  function FingerprintOf(r: Request): Fingerprint
    requires Keyed(r)
  {
    match r
    case CreateThread(_, _, companyId, direct, title, _) =>
      CreateFingerprint(companyId, direct, if direct then "" else title, Others(r))
    case Post(_, _, threadId, text, replyTo, attachments) => PostFingerprint(threadId, text, replyTo, attachments)
    case Add(_, _, _, target, role, expectedThread) => AddFingerprint(target, role, expectedThread)
  }

  // ----- Reading -----

  function ActiveUsers(seats: Seats, t: ThreadId): set<UserId> {
    set s | s in seats && s.threadId == t && !seats[s].left :: s.userId
  }

  function ActiveOwners(seats: Seats, t: ThreadId): set<UserId> {
    set s | s in seats && s.threadId == t && !seats[s].left && seats[s].role == Owner :: s.userId
  }

  predicate Active(seats: Seats, t: ThreadId, u: UserId) {
    Seat(t, u) in seats && !seats[Seat(t, u)].left
  }

  /** The total order (createdAt, id) on messages. */
  predicate After(nextTime: Time, nextId: MessageId, time: Time, id: MessageId) {
    nextTime > time || (nextTime == time && nextId > id)
  }

  /** What a request reads from outside the chat tables while it runs. */
  datatype GroupView = GroupView(companyId: CompanyId, ownerId: UserId, members: set<UserId>)

  datatype Env = Env(
    contextOk: bool,            // the caller is a member of the working group behind the thread
    attachmentsOk: bool,        // every attachment may be attached
    directory: set<UserId>,     // active users of the company
    group: Option<GroupView>,   // the working group, when the caller is one of its members
    newId: nat,                 // the identifier drawn for the row to insert
    now: Time,
    fault: bool)                // the transaction fails for a reason of its own

  predicate Readable(db: Db, a: Actor, t: ThreadId, contextOk: bool) {
    && t in db.threads
    && db.threads[t].companyId in a.companies
    && Active(db.seats, t, a.userId)
    && (db.threads[t].kind == GroupContext ==> contextOk)
  }

  predicate Collaborative(k: Kind) {
    k == Group || k == Contextual
  }

  predicate Manages(db: Db, a: Actor, t: ThreadId)
    requires Seat(t, a.userId) in db.seats
  {
    db.seats[Seat(t, a.userId)].role == Owner || a.admin
  }

  /** The outcome of the checks a call makes on what it read. */
  datatype Verdict = Refused | Nothing(id: nat) | Proceed

  function ReviewPost(db: Db, r: Request, e: Env): Verdict
    requires r.Post?
  {
    if !Readable(db, r.actor, r.threadId, e.contextOk) then Refused
    else if r.text == "" || |r.text| > 8000 then Refused
    else if r.replyTo.Some? && !(
      && r.replyTo.value in db.messages
      && db.messages[r.replyTo.value].threadId == r.threadId
      && db.messages[r.replyTo.value].replyTo.None?
      && !db.messages[r.replyTo.value].deleted) then Refused
    else if !e.attachmentsOk then Refused
    else Proceed
  }

  /** The check that the target already sits in the thread comes after the idempotency lookup: see `AddRefused`. */
  function ReviewAdd(db: Db, r: Request, e: Env): Verdict
    requires r.Add?
  {
    if !Readable(db, r.actor, r.threadId, e.contextOk) then Refused
    else if !Collaborative(db.threads[r.threadId].kind) || !Manages(db, r.actor, r.threadId) then Refused
    else if r.target == r.actor.userId then Refused
    else if |ActiveUsers(db.seats, r.threadId)| >= 50 then Refused
    else if r.target !in e.directory then Refused
    else Proceed
  }

  predicate AddRefused(db: Db, r: Request)
    requires r.Add?
  {
    Active(db.seats, r.threadId, r.target)
  }

  function ReviewSetRole(db: Db, r: Request, e: Env): Verdict
    requires r.SetRole?
  {
    if !Readable(db, r.actor, r.threadId, e.contextOk) then Refused
    else if !Collaborative(db.threads[r.threadId].kind) || !Manages(db, r.actor, r.threadId) then Refused
    else if !Active(db.seats, r.threadId, r.target) then Refused
    else
      var target := db.seats[Seat(r.threadId, r.target)];
      if target.version != r.expectedRow then Refused
      else if target.role == r.role then Nothing(r.target)
      else if target.role == Owner && r.role != Owner && |ActiveOwners(db.seats, r.threadId)| <= 1 then Refused
      else Proceed
  }

  function ReviewRemove(db: Db, r: Request, e: Env): Verdict
    requires r.Remove?
  {
    if !Readable(db, r.actor, r.threadId, e.contextOk) then Refused
    else if !Collaborative(db.threads[r.threadId].kind) then Refused
    else if !Active(db.seats, r.threadId, r.target) then Refused
    else if r.target != r.actor.userId && !Manages(db, r.actor, r.threadId) then Refused
    else
      var target := db.seats[Seat(r.threadId, r.target)];
      if target.version != r.expectedRow then Refused
      else if db.threads[r.threadId].kind == Group && |ActiveUsers(db.seats, r.threadId)| <= 2 then Refused
      else if target.role == Owner && |ActiveOwners(db.seats, r.threadId)| <= 1 then Refused
      else Proceed
  }

  predicate MessageReadable(db: Db, a: Actor, m: MessageId, contextOk: bool) {
    m in db.messages && Readable(db, a, db.messages[m].threadId, contextOk)
  }

  function ReviewEdit(db: Db, r: Request, e: Env): Verdict
    requires r.Edit?
  {
    if !MessageReadable(db, r.actor, r.messageId, e.contextOk) then Refused
    else
      var m := db.messages[r.messageId];
      if m.authorId != r.actor.userId && !r.actor.admin then Refused
      else if m.deleted || m.version != r.expectedRow then Refused
      else if m.text == r.text then Nothing(r.messageId)
      else Proceed
  }

  function ReviewDelete(db: Db, r: Request, e: Env): Verdict
    requires r.Delete?
  {
    if !MessageReadable(db, r.actor, r.messageId, e.contextOk) then Refused
    else
      var m := db.messages[r.messageId];
      if m.authorId != r.actor.userId && !r.actor.admin then Refused
      else if m.deleted then Nothing(r.messageId)
      else Proceed
  }

  function ReviewMarkRead(db: Db, r: Request, e: Env): Verdict
    requires r.MarkRead?
  {
    if !Readable(db, r.actor, r.threadId, e.contextOk) then Refused
    else if r.messageId !in db.messages || db.messages[r.messageId].threadId != r.threadId then Refused
    else
      var target := db.messages[r.messageId];
      var marker := db.seats[Seat(r.threadId, r.actor.userId)].marker;
      if marker.Some? && marker.value in db.messages
         && !After(target.createdAt, r.messageId, db.messages[marker.value].createdAt, marker.value)
      then Nothing(marker.value)
      else Proceed
  }

  function ReviewPrefer(db: Db, r: Request, e: Env): Verdict
    requires r.Prefer?
  {
    if !Readable(db, r.actor, r.threadId, e.contextOk) then Refused
    else if db.seats[Seat(r.threadId, r.actor.userId)].muted == r.muted then Nothing(r.threadId)
    else Proceed
  }

  // ----- Creating a thread -----

  function Others(r: Request): set<UserId>
    requires r.CreateThread?
  {
    r.participantIds - {r.actor.userId}
  }

  /** The request passes the schema of the endpoint and the checks `create` makes on its input alone. */
  predicate WellFormedCreate(r: Request) {
    && r.CreateThread?
    && r.companyId in r.actor.companies
    && |r.participantIds| <= 49
    && (if r.direct then |Others(r)| == 1 else |Others(r)| >= 2 && 2 <= |r.title| <= 120)
  }

  /** The other user of a direct conversation. */
  ghost function Peer(r: Request): (p: UserId)
    requires WellFormedCreate(r) && r.direct
    ensures Others(r) == {p}
  {
    var p :| p in Others(r);
    assert Others(r) == {p} by {
      assert Others(r) == {p} + (Others(r) - {p});
    }
    p
  }

  function SortedKey(c: CompanyId, a: UserId, b: UserId): DirectKey {
    if a <= b then DirectKey(c, a, b) else DirectKey(c, b, a)
  }

  ghost function DirectKeyOf(r: Request): DirectKey
    requires WellFormedCreate(r) && r.direct
  {
    SortedKey(r.companyId, r.actor.userId, Peer(r))
  }

  predicate HasDirect(threads: map<ThreadId, Thread>, k: DirectKey) {
    exists t :: t in threads && threads[t].directKey == Some(k)
  }

  ghost function FindDirect(threads: map<ThreadId, Thread>, k: DirectKey): (r: Option<ThreadId>)
    ensures r.Some? <==> HasDirect(threads, k)
    ensures r.Some? ==> r.value in threads && threads[r.value].directKey == Some(k)
  {
    if HasDirect(threads, k) then
      var t :| t in threads && threads[t].directKey == Some(k);
      Some(t)
    else None
  }

  ghost predicate IsGroupThread(th: Thread, c: CompanyId, g: GroupId) {
    th.kind == GroupContext && th.companyId == c && th.groupId == Some(g)
  }

  /** The first of some threads in the order (createdAt, id). */
  ghost function Oldest(threads: map<ThreadId, Thread>, ids: set<ThreadId>): (t: ThreadId)
    requires ids != {} && ids <= threads.Keys
    ensures t in ids
    ensures forall u | u in ids :: !After(threads[t].createdAt, t, threads[u].createdAt, u)
  {
    var u :| u in ids;
    if ids == {u} then u
    else
      var t := Oldest(threads, ids - {u});
      if After(threads[t].createdAt, t, threads[u].createdAt, u) then u else t
  }

  /** The oldest thread of a working group. */
  ghost function FindGroupThread(threads: map<ThreadId, Thread>, c: CompanyId, g: GroupId): (r: Option<ThreadId>)
    ensures r.Some? <==> exists t :: t in threads && IsGroupThread(threads[t], c, g)
    ensures r.Some? ==> r.value in threads && IsGroupThread(threads[r.value], c, g)
    ensures r.Some? ==> forall t | t in threads && IsGroupThread(threads[t], c, g) ::
      !After(threads[r.value].createdAt, r.value, threads[t].createdAt, t)
  {
    var ids := set t | t in threads && IsGroupThread(threads[t], c, g);
    assert forall t :: t in ids <==> t in threads && IsGroupThread(threads[t], c, g);
    if ids == {} then None else Some(Oldest(threads, ids))
  }

  // ----- Transactions -----

  datatype TxResult = Aborted | Committed(db: Db)

  /** The rows of a new thread; `lead` gets the leading role when it is one of the users. */
  function NewSeats(t: ThreadId, users: set<UserId>, lead: UserId, leadRole: Role): Seats {
    map u | u in users :: Seat(t, u) := Participant(if u == lead then leadRole else Member, false, false, None, 1)
  }

  function ThreadEvent(t: ThreadId, version: nat, eventType: string): OutboxEvent {
    OutboxEvent(ThreadAggregate(t), version, eventType)
  }

  ghost function CreateTx(db: Db, r: Request, t: ThreadId, now: Time): TxResult
    requires WellFormedCreate(r)
  {
    var directKey := if r.direct then Some(DirectKeyOf(r)) else None;
    if t in db.threads then Aborted
    else if directKey.Some? && HasDirect(db.threads, directKey.value) then Aborted
    else if KeyOf(r) in db.idem then Aborted
    else Committed(Db(
      db.threads[t := Thread(if r.direct then Direct else Group, r.companyId, directKey, None, 1, None, now)],
      db.seats + NewSeats(t, Others(r) + {r.actor.userId}, r.actor.userId, if r.direct then Member else Owner),
      db.messages,
      db.idem[KeyOf(r) := IdemRecord(FingerprintOf(r), t)],
      db.outbox + [ThreadEvent(t, 1, "message.thread_created")]))
  }

  /** Records the existing direct conversation as the result; a record that is already there stays as it is. */
  function UpsertTx(db: Db, r: Request, t: ThreadId): TxResult
    requires Keyed(r)
  {
    if KeyOf(r) in db.idem then Committed(db)
    else Committed(db.(idem := db.idem[KeyOf(r) := IdemRecord(FingerprintOf(r), t)]))
  }

  function OpenTx(db: Db, r: Request, g: GroupView, t: ThreadId, now: Time): TxResult
    requires r.OpenGroup?
  {
    if t in db.threads then Aborted
    else Committed(Db(
      db.threads[t := Thread(GroupContext, g.companyId, None, Some(r.groupId), 1, None, now)],
      db.seats + NewSeats(t, g.members, g.ownerId, Owner),
      db.messages,
      db.idem,
      db.outbox + [ThreadEvent(t, 1, "message.group_thread_created")]))
  }

  /** Joining an existing group thread inserts the caller's row or revives it; the thread version does not move. */
  function JoinTx(db: Db, r: Request, g: GroupView, t: ThreadId): TxResult
    requires r.OpenGroup?
  {
    var s := Seat(t, r.actor.userId);
    var role := if r.actor.userId == g.ownerId then Owner else Member;
    if t !in db.threads then Aborted
    else if s in db.seats then
      Committed(db.(seats := db.seats[s := db.seats[s].(left := false, role := role, version := db.seats[s].version + 1)]))
    else
      Committed(db.(seats := db.seats[s := Participant(role, false, false, None, 1)]))
  }

  function Bump(threads: map<ThreadId, Thread>, t: ThreadId): map<ThreadId, Thread>
    requires t in threads
  {
    threads[t := threads[t].(version := threads[t].version + 1)]
  }

  function PostTx(db: Db, r: Request, m: MessageId, now: Time): TxResult
    requires r.Post?
  {
    var s := Seat(r.threadId, r.actor.userId);
    if m in db.messages || r.threadId !in db.threads || s !in db.seats || KeyOf(r) in db.idem then Aborted
    else
      var version := db.threads[r.threadId].version + 1;
      Committed(Db(
        db.threads[r.threadId := db.threads[r.threadId].(lastMessageAt := Some(now), version := version)],
        db.seats[s := db.seats[s].(marker := Some(m), version := db.seats[s].version + 1)],
        db.messages[m := Message(r.threadId, r.actor.userId, r.text, r.replyTo, now, false, 1)],
        db.idem[KeyOf(r) := IdemRecord(FingerprintOf(r), m)],
        db.outbox + [ThreadEvent(r.threadId, version, "message.created")]))
  }

  /** `hadRow` says whether the snapshot of the call held a (left) row of the target. */
  function AddTx(db: Db, r: Request, hadRow: bool): TxResult
    requires r.Add?
  {
    var s := Seat(r.threadId, r.target);
    if r.threadId !in db.threads || db.threads[r.threadId].version != r.expectedThread then Aborted
    else if hadRow != (s in db.seats) then Aborted
    else if KeyOf(r) in db.idem then Aborted
    else
      var row := if hadRow
                 then db.seats[s].(role := r.role, left := false, muted := false, version := db.seats[s].version + 1)
                 else Participant(r.role, false, false, None, 1);
      Committed(Db(
        Bump(db.threads, r.threadId),
        db.seats[s := row],
        db.messages,
        db.idem[KeyOf(r) := IdemRecord(FingerprintOf(r), r.target)],
        db.outbox + [ThreadEvent(r.threadId, r.expectedThread + 1, "message.participant_added")]))
  }

  function SetRoleTx(db: Db, r: Request): TxResult
    requires r.SetRole?
  {
    var s := Seat(r.threadId, r.target);
    if r.threadId !in db.threads || db.threads[r.threadId].version != r.expectedThread then Aborted
    else if s !in db.seats || db.seats[s].version != r.expectedRow || db.seats[s].left then Aborted
    else
      Committed(Db(
        Bump(db.threads, r.threadId),
        db.seats[s := db.seats[s].(role := r.role, version := db.seats[s].version + 1)],
        db.messages,
        db.idem,
        db.outbox + [ThreadEvent(r.threadId, r.expectedThread + 1, "message.participant_role_changed")]))
  }

  function RemoveTx(db: Db, r: Request): TxResult
    requires r.Remove?
  {
    var s := Seat(r.threadId, r.target);
    if r.threadId !in db.threads || db.threads[r.threadId].version != r.expectedThread then Aborted
    else if s !in db.seats || db.seats[s].version != r.expectedRow || db.seats[s].left then Aborted
    else
      Committed(Db(
        Bump(db.threads, r.threadId),
        db.seats[s := db.seats[s].(left := true, version := db.seats[s].version + 1)],
        db.messages,
        db.idem,
        db.outbox + [ThreadEvent(r.threadId, r.expectedThread + 1, "message.participant_removed")]))
  }

  /** Editing and deleting write one message row under its version and bump the thread. */
  function RewriteTx(db: Db, m: MessageId, expectedRow: nat, text: Option<string>): TxResult {
    if m !in db.messages || db.messages[m].version != expectedRow || db.messages[m].deleted then Aborted
    else if db.messages[m].threadId !in db.threads then Aborted
    else
      var t := db.messages[m].threadId;
      var row := db.messages[m].(version := expectedRow + 1);
      Committed(Db(
        Bump(db.threads, t),
        db.seats,
        db.messages[m := if text.Some? then row.(text := text.value) else row.(deleted := true)],
        db.idem,
        db.outbox + [ThreadEvent(t, db.threads[t].version + 1, if text.Some? then "message.edited" else "message.deleted")]))
  }

  /** The read marker is written without any version guard. */
  function MarkReadTx(db: Db, r: Request): TxResult
    requires r.MarkRead?
  {
    var s := Seat(r.threadId, r.actor.userId);
    if s !in db.seats then Aborted
    else Committed(db.(seats := db.seats[s := db.seats[s].(marker := Some(r.messageId), version := db.seats[s].version + 1)]))
  }

  function PreferTx(db: Db, r: Request): TxResult
    requires r.Prefer?
  {
    var s := Seat(r.threadId, r.actor.userId);
    if s !in db.seats || db.seats[s].version != r.expectedRow || db.seats[s].left then Aborted
    else Committed(db.(seats := db.seats[s := db.seats[s].(muted := r.muted, version := db.seats[s].version + 1)]))
  }
}
