/** The transactions of the chat service as statements on mutable tables. A statement that violates a unique key,
    or updates a row that is not there, rolls the whole transaction back. */
module ChatStore {
  import opened Basics
  import opened VersionLog
  import opened ChatModel
  import opened ChatMachine

  class Store {
    var threads: map<ThreadId, Thread>
    var seats: Seats
    var messages: map<MessageId, Message>
    var idem: map<IdemKey, IdemRecord>
    var outbox: seq<OutboxEvent>

    function State(): Db
      reads this
    {
      Db(threads, seats, messages, idem, outbox)
    }

    /** The transaction specified by `tx` committed, or it aborted and left the tables as they were. */
    twostate predicate Performed(tx: TxResult, ok: bool)
      reads this
    {
      match tx
      case Committed(db) => ok && State() == db
      case Aborted => !ok && State() == old(State())
    }

    constructor ()
      ensures State() == EMPTY_DB
    {
      threads, seats, messages, idem, outbox := map[], map[], map[], map[], [];
    }

    method Rollback(saved: Db) returns (ok: bool)
      modifies this
      ensures !ok && State() == saved
    {
      threads, seats, messages, idem, outbox := saved.threads, saved.seats, saved.messages, saved.idem, saved.outbox;
      ok := false;
    }

    method CreateThread(r: Request, t: ThreadId, now: Time) returns (ok: bool)
      requires WellFormedCreate(r)
      modifies this
      ensures Performed(CreateTx(old(State()), r, t, now), ok)
    {
      var saved := State();
      var directKey: Option<DirectKey> := None;
      if r.direct {
        ghost var peer := Peer(r);
        assert peer in Others(r);
        var p: UserId :| p in Others(r);
        directKey := Some(SortedKey(r.companyId, r.actor.userId, p));
      }
      if t in threads || (directKey.Some? && HasDirect(threads, directKey.value)) {
        return false;
      }
      threads := threads[t := Thread(if r.direct then Direct else Group, r.companyId, directKey, None, 1, None, now)];
      seats := seats + NewSeats(t, Others(r) + {r.actor.userId}, r.actor.userId, if r.direct then Member else Owner);
      if KeyOf(r) in idem {
        ok := Rollback(saved);
        return;
      }
      idem := idem[KeyOf(r) := IdemRecord(FingerprintOf(r), t)];
      outbox := outbox + [ThreadEvent(t, threads[t].version, "message.thread_created")];
      ok := true;
    }

    method OpenGroupThread(r: Request, g: GroupView, t: ThreadId, now: Time) returns (ok: bool)
      requires r.OpenGroup?
      modifies this
      ensures Performed(OpenTx(old(State()), r, g, t, now), ok)
    {
      if t in threads {
        return false;
      }
      threads := threads[t := Thread(GroupContext, g.companyId, None, Some(r.groupId), 1, None, now)];
      seats := seats + NewSeats(t, g.members, g.ownerId, Owner);
      outbox := outbox + [ThreadEvent(t, threads[t].version, "message.group_thread_created")];
      ok := true;
    }

    method JoinGroupThread(r: Request, g: GroupView, t: ThreadId) returns (ok: bool)
      requires r.OpenGroup?
      modifies this
      ensures Performed(JoinTx(old(State()), r, g, t), ok)
    {
      if t !in threads {
        return false;
      }
      var s := Seat(t, r.actor.userId);
      var role := if r.actor.userId == g.ownerId then Owner else Member;
      if s in seats {
        seats := seats[s := seats[s].(left := false, role := role, version := seats[s].version + 1)];
      } else {
        seats := seats[s := Participant(role, false, false, None, 1)];
      }
      ok := true;
    }

    method PostMessage(r: Request, m: MessageId, now: Time) returns (ok: bool)
      requires r.Post?
      modifies this
      ensures Performed(PostTx(old(State()), r, m, now), ok)
    {
      var saved := State();
      if m in messages || r.threadId !in threads {
        return false;
      }
      messages := messages[m := Message(r.threadId, r.actor.userId, r.text, r.replyTo, now, false, 1)];
      threads := Bump(threads, r.threadId);
      threads := threads[r.threadId := threads[r.threadId].(lastMessageAt := Some(now))];
      var s := Seat(r.threadId, r.actor.userId);
      if s !in seats {
        ok := Rollback(saved);
        return;
      }
      seats := seats[s := seats[s].(marker := Some(m), version := seats[s].version + 1)];
      if KeyOf(r) in idem {
        ok := Rollback(saved);
        return;
      }
      idem := idem[KeyOf(r) := IdemRecord(FingerprintOf(r), m)];
      outbox := outbox + [ThreadEvent(r.threadId, threads[r.threadId].version, "message.created")];
      ok := true;
    }

    /** Bumps the thread if it still has the expected version. */
    method ClaimVersion(t: ThreadId, expected: nat) returns (ok: bool)
      modifies this`threads
      ensures ok <==> t in old(threads) && old(threads)[t].version == expected
      ensures threads == if ok then Bump(old(threads), t) else old(threads)
    {
      ok := t in threads && threads[t].version == expected;
      if ok {
        threads := Bump(threads, t);
      }
    }

    method AddParticipant(r: Request, hadRow: bool) returns (ok: bool)
      requires r.Add?
      modifies this
      ensures Performed(AddTx(old(State()), r, hadRow), ok)
    {
      var saved := State();
      ok := ClaimVersion(r.threadId, r.expectedThread);
      if !ok {
        return;
      }
      var s := Seat(r.threadId, r.target);
      if hadRow != (s in seats) {
        ok := Rollback(saved);
        return;
      }
      if hadRow {
        seats := seats[s := seats[s].(role := r.role, left := false, muted := false, version := seats[s].version + 1)];
      } else {
        seats := seats[s := Participant(r.role, false, false, None, 1)];
      }
      if KeyOf(r) in idem {
        ok := Rollback(saved);
        return;
      }
      idem := idem[KeyOf(r) := IdemRecord(FingerprintOf(r), r.target)];
      outbox := outbox + [ThreadEvent(r.threadId, r.expectedThread + 1, "message.participant_added")];
    }

    method UpdateParticipant(r: Request) returns (ok: bool)
      requires r.SetRole?
      modifies this
      ensures Performed(SetRoleTx(old(State()), r), ok)
    {
      var saved := State();
      ok := ClaimVersion(r.threadId, r.expectedThread);
      if !ok {
        return;
      }
      var s := Seat(r.threadId, r.target);
      if s !in seats || seats[s].version != r.expectedRow || seats[s].left {
        ok := Rollback(saved);
        return;
      }
      seats := seats[s := seats[s].(role := r.role, version := seats[s].version + 1)];
      outbox := outbox + [ThreadEvent(r.threadId, r.expectedThread + 1, "message.participant_role_changed")];
    }

    method RemoveParticipant(r: Request) returns (ok: bool)
      requires r.Remove?
      modifies this
      ensures Performed(RemoveTx(old(State()), r), ok)
    {
      var saved := State();
      ok := ClaimVersion(r.threadId, r.expectedThread);
      if !ok {
        return;
      }
      var s := Seat(r.threadId, r.target);
      if s !in seats || seats[s].version != r.expectedRow || seats[s].left {
        ok := Rollback(saved);
        return;
      }
      seats := seats[s := seats[s].(left := true, version := seats[s].version + 1)];
      outbox := outbox + [ThreadEvent(r.threadId, r.expectedThread + 1, "message.participant_removed")];
    }

    method RewriteMessage(m: MessageId, expectedRow: nat, text: Option<string>) returns (ok: bool)
      modifies this
      ensures Performed(RewriteTx(old(State()), m, expectedRow, text), ok)
    {
      var saved := State();
      if m !in messages || messages[m].version != expectedRow || messages[m].deleted {
        return false;
      }
      var t := messages[m].threadId;
      if text.Some? {
        messages := messages[m := messages[m].(text := text.value, version := expectedRow + 1)];
      } else {
        messages := messages[m := messages[m].(deleted := true, version := expectedRow + 1)];
      }
      if t !in threads {
        ok := Rollback(saved);
        return;
      }
      threads := Bump(threads, t);
      outbox := outbox + [ThreadEvent(t, threads[t].version, if text.Some? then "message.edited" else "message.deleted")];
      ok := true;
    }

    method MarkRead(r: Request) returns (ok: bool)
      requires r.MarkRead?
      modifies this`seats
      ensures Performed(MarkReadTx(old(State()), r), ok)
    {
      var s := Seat(r.threadId, r.actor.userId);
      ok := s in seats;
      if ok {
        seats := seats[s := seats[s].(marker := Some(r.messageId), version := seats[s].version + 1)];
      }
    }

    method UpdatePreference(r: Request) returns (ok: bool)
      requires r.Prefer?
      modifies this`seats
      ensures Performed(PreferTx(old(State()), r), ok)
    {
      var s := Seat(r.threadId, r.actor.userId);
      ok := s in seats && seats[s].version == r.expectedRow && !seats[s].left;
      if ok {
        seats := seats[s := seats[s].(muted := r.muted, version := seats[s].version + 1)];
      }
    }

    /** The transaction of any call whose checks passed on the snapshot `seen`. */
    method Transact(r: Request, seen: Db, e: Env) returns (ok: bool)
      requires !r.CreateThread? && !r.OpenGroup?
      modifies this
      ensures Performed(Commit(old(State()), r, seen, e), ok)
    {
      if e.fault {
        return false;
      }
      match r
      case Post(_, _, _, _, _, _) => ok := PostMessage(r, e.newId, e.now);
      case Add(_, _, _, _, _, _) => ok := AddParticipant(r, Seat(r.threadId, r.target) in seen.seats);
      case SetRole(_, _, _, _, _, _) => ok := UpdateParticipant(r);
      case Remove(_, _, _, _, _) => ok := RemoveParticipant(r);
      case Edit(_, m, text, expectedRow) => ok := RewriteMessage(m, expectedRow, Some(text));
      case Delete(_, m, expectedRow) => ok := RewriteMessage(m, expectedRow, None);
      case MarkRead(_, _, _) => ok := MarkRead(r);
      case Prefer(_, _, _, _) => ok := UpdatePreference(r);
    }

    /** The transaction of `groupThread`: a row in the thread that was found, or a new thread with all rows. */
    method GroupThread(r: Request, view: GroupView, existing: Option<ThreadId>, e: Env) returns (ok: bool)
      requires r.OpenGroup?
      modifies this
      ensures Open(old(State()), r, view, existing, e) ==
        Move(State(), Done(if !ok then Failed else if existing.Some? then Existing(existing.value) else Created(e.newId)))
    {
      if e.fault {
        return false;
      }
      if existing.Some? {
        ok := JoinGroupThread(r, view, existing.value);
      } else {
        ok := OpenGroupThread(r, view, e.newId, e.now);
      }
    }
  }
}
