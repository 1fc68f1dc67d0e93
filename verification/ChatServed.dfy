/** What an uninterrupted call comes to, exactly, in terms of the rows it meets. */
module ChatServed {
  import opened ChatModel
  import opened ChatMachine
  import opened ChatRights

  /** At most `n` steps of a call with nothing in between. */
  ghost function Served(db: Db, c: Call, e: Env, n: nat): Move
    requires Fits(c.request, c.phase)
    decreases n
  {
    if n == 0 || c.phase.Done? then Move(db, c.phase)
    else
      var move := Progress(db, c, e);
      Served(move.db, Call(c.request, move.phase), e, n - 1)
  }

  ghost function Outcome(db: Db, r: Request, e: Env): Phase {
    Served(db, Call(r, Asked), e, 6).phase
  }

  /** The caller may read the thread; a thread of a working group needs a membership in the group as well. */
  predicate Reads(db: Db, t: ThreadId, a: Actor, e: Env) {
    Inside(db, t, a) && (db.threads[t].kind == GroupContext ==> e.contextOk)
  }

  /** Participants of group conversations, and of contextual threads outside working groups, can be managed. */
  predicate Managed(db: Db, t: ThreadId) {
    t in db.threads && (db.threads[t].kind == Group || db.threads[t].kind == Contextual)
  }

  predicate MayRewrite(db: Db, m: MessageId, a: Actor, e: Env) {
    m in db.messages && Reads(db, db.messages[m].threadId, a, e) && (db.messages[m].authorId == a.userId || a.admin)
  }

  lemma PostServed(db: Db, r: Request, e: Env)
    requires r.Post?
    ensures var checked := && Reads(db, r.threadId, r.actor, e) && 1 <= |r.text| <= 8000 && e.attachmentsOk
                           && (r.replyTo.Some? ==>
                                && r.replyTo.value in db.messages && db.messages[r.replyTo.value].threadId == r.threadId
                                && db.messages[r.replyTo.value].replyTo.None? && !db.messages[r.replyTo.value].deleted);
      Outcome(db, r, e) == Done(
        if !checked then Failed
        else if KeyOf(r) in db.idem then
          if db.idem[KeyOf(r)].fingerprint == FingerprintOf(r) then Replayed(db.idem[KeyOf(r)].resultId) else Failed
        else if e.fault || e.newId in db.messages then Failed
        else Created(e.newId))
  {}

  lemma AddServed(db: Db, r: Request, e: Env)
    requires r.Add?
    ensures var checked := && Inside(db, r.threadId, r.actor) && Managed(db, r.threadId) && Leads(db, r.threadId, r.actor)
                           && r.target != r.actor.userId && r.target in e.directory && |ActiveUsers(db.seats, r.threadId)| < 50;
      Outcome(db, r, e) == Done(
        if !checked then Failed
        else if KeyOf(r) in db.idem then
          if db.idem[KeyOf(r)].fingerprint == FingerprintOf(r) then Replayed(db.idem[KeyOf(r)].resultId) else Failed
        else if TakesPart(db, r.threadId, r.target) || e.fault || db.threads[r.threadId].version != r.expectedThread then Failed
        else Created(r.target))
  {}

  lemma SetRoleServed(db: Db, r: Request, e: Env)
    requires r.SetRole?
    ensures var checked := && Inside(db, r.threadId, r.actor) && Managed(db, r.threadId) && Leads(db, r.threadId, r.actor)
                           && TakesPart(db, r.threadId, r.target) && db.seats[Seat(r.threadId, r.target)].version == r.expectedRow;
      Outcome(db, r, e) == Done(
        if !checked then Failed
        else if db.seats[Seat(r.threadId, r.target)].role == r.role then Unchanged(r.target)
        else if r.role == Member && |ActiveOwners(db.seats, r.threadId)| <= 1 then Failed
        else if e.fault || db.threads[r.threadId].version != r.expectedThread then Failed
        else Created(r.target))
  {}

  lemma RemoveServed(db: Db, r: Request, e: Env)
    requires r.Remove?
    ensures var checked := && Inside(db, r.threadId, r.actor) && Managed(db, r.threadId) && TakesPart(db, r.threadId, r.target)
                           && (r.target == r.actor.userId || Leads(db, r.threadId, r.actor))
                           && db.seats[Seat(r.threadId, r.target)].version == r.expectedRow
                           && (db.threads[r.threadId].kind == Group ==> |ActiveUsers(db.seats, r.threadId)| > 2)
                           && (db.seats[Seat(r.threadId, r.target)].role == Owner ==> |ActiveOwners(db.seats, r.threadId)| > 1);
      Outcome(db, r, e) == Done(
        if !checked || e.fault || db.threads[r.threadId].version != r.expectedThread then Failed else Created(r.target))
  {}

  lemma EditServed(db: Db, r: Request, e: Env)
    requires r.Edit?
    ensures var checked := && MayRewrite(db, r.messageId, r.actor, e)
                           && !db.messages[r.messageId].deleted && db.messages[r.messageId].version == r.expectedRow;
      Outcome(db, r, e) == Done(
        if !checked then Failed
        else if db.messages[r.messageId].text == r.text then Unchanged(r.messageId)
        else if e.fault then Failed
        else Created(r.messageId))
  {}

  lemma DeleteServed(db: Db, r: Request, e: Env)
    requires r.Delete?
    ensures Outcome(db, r, e) == Done(
        if !MayRewrite(db, r.messageId, r.actor, e) then Failed
        else if db.messages[r.messageId].deleted then Unchanged(r.messageId)
        else if e.fault || db.messages[r.messageId].version != r.expectedRow then Failed
        else Created(r.messageId))
  {}

  lemma MarkReadServed(db: Db, r: Request, e: Env)
    requires r.MarkRead?
    ensures var checked := && Reads(db, r.threadId, r.actor, e)
                           && r.messageId in db.messages && db.messages[r.messageId].threadId == r.threadId;
      Outcome(db, r, e) == Done(
        if !checked then Failed
        else
          var marker, target := db.seats[Seat(r.threadId, r.actor.userId)].marker, db.messages[r.messageId];
          if marker.Some? && marker.value in db.messages && !After(target.createdAt, r.messageId, db.messages[marker.value].createdAt, marker.value)
          then Unchanged(marker.value)
          else if e.fault then Failed
          else Created(r.messageId))
  {}

  lemma PreferServed(db: Db, r: Request, e: Env)
    requires r.Prefer?
    ensures Outcome(db, r, e) == Done(
        if !Reads(db, r.threadId, r.actor, e) then Failed
        else
          var row := db.seats[Seat(r.threadId, r.actor.userId)];
          if row.muted == r.muted then Unchanged(r.threadId)
          else if e.fault || row.version != r.expectedRow then Failed
          else Created(r.threadId))
  {}

  /** The input of a creation: the caller's company, one other user for a direct conversation, or at least two and a title. */
  predicate CreateInput(r: Request)
    requires r.CreateThread?
  {
    var others := r.participantIds - {r.actor.userId};
    && r.companyId in r.actor.companies && |r.participantIds| <= 49
    && if r.direct then |others| == 1 else |others| >= 2 && 2 <= |r.title| <= 120
  }

  lemma GroupCreateServed(db: Db, r: Request, e: Env)
    requires r.CreateThread? && !r.direct
    ensures Outcome(db, r, e) == Done(
        if !CreateInput(r) || !(r.participantIds - {r.actor.userId} <= e.directory) then Failed
        else if KeyOf(r) in db.idem then
          if db.idem[KeyOf(r)].fingerprint == FingerprintOf(r) then Replayed(db.idem[KeyOf(r)].resultId) else Failed
        else if e.fault || e.newId in db.threads then Failed
        else Created(e.newId))
  {}

  /** A direct conversation that exists is the answer; otherwise a new one is. */
  lemma DirectCreateServed(db: Db, r: Request, e: Env)
    requires r.CreateThread? && r.direct
    ensures Outcome(db, r, e) ==
        if !CreateInput(r) || !(r.participantIds - {r.actor.userId} <= e.directory) then Done(Failed)
        else if KeyOf(r) in db.idem then
          if db.idem[KeyOf(r)].fingerprint == FingerprintOf(r) then Done(Replayed(db.idem[KeyOf(r)].resultId)) else Done(Failed)
        else if HasDirect(db.threads, DirectKeyOf(r)) then
          if e.fault then Done(Failed) else Done(Existing(FindDirect(db.threads, DirectKeyOf(r)).value))
        else if e.fault || e.newId in db.threads then Done(Failed)
        else Done(Created(e.newId))
  {}

  /** The thread of the caller's working group, joined if it exists and opened for its members if it does not. */
  lemma OpenServed(db: Db, r: Request, e: Env)
    requires r.OpenGroup?
    ensures Outcome(db, r, e) == Done(
        if e.group.None? || e.group.value.companyId !in r.actor.companies then Failed
        else
          var view := e.group.value;
          var existing := FindGroupThread(db.threads, view.companyId, r.groupId);
          if existing.Some? then
            if TakesPart(db, existing.value, r.actor.userId) then Unchanged(existing.value)
            else if e.fault then Failed
            else Existing(existing.value)
          else if r.actor.userId !in view.members || !(view.members <= e.directory) || e.fault || e.newId in db.threads then Failed
          else Created(e.newId))
  {}

  /** A key stands for one user, one operation and, for a new participant, one thread. */
  lemma KeysDistinguish(r: Request, r': Request)
    requires Keyed(r) && Keyed(r')
    ensures KeyOf(r) == KeyOf(r') <==>
      && r.actor.userId == r'.actor.userId && r.key == r'.key
      && ((r.CreateThread? && r'.CreateThread?) || (r.Post? && r'.Post?) || (r.Add? && r'.Add? && r.threadId == r'.threadId))
  {}

  /** Under one key, a retry is taken for the recorded request exactly when it asks for the same thing. */
  lemma FingerprintsDistinguish(r: Request, r': Request)
    requires Keyed(r) && Keyed(r') && KeyOf(r) == KeyOf(r')
    ensures FingerprintOf(r) == FingerprintOf(r') <==>
      match r
      case Post(_, _, t, text, replyTo, attachments) =>
        t == r'.threadId && text == r'.text && replyTo == r'.replyTo && attachments == r'.attachments
      case Add(_, _, _, target, role, expectedThread) => target == r'.target && role == r'.role && expectedThread == r'.expectedThread
      case CreateThread(a, _, companyId, direct, title, participantIds) =>
        && companyId == r'.companyId && direct == r'.direct && (direct || title == r'.title)
        && participantIds - {a.userId} == r'.participantIds - {a.userId}
  {}
}
