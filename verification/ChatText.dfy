/** What a message says, in every run: the post that wrote it, the edits and deletions that were committed for it. */
module ChatText {
  import opened Basics
  import opened ChatModel
  import opened ChatMachine
  import opened ChatFrames
  import opened ChatSafety
  import opened ChatRuns

  // ----- Committed steps -----

  /** The step commits the effect of its call, which answers with this identifier. */
  ghost predicate Commits(s: System, step: Step, id: nat)
    requires Fitting(s)
  {
    && step.Advance? && step.call in s.calls && !s.calls[step.call].phase.Done?
    && Apply(s, step).calls[step.call].phase == Done(Created(id))
  }

  ghost predicate Posts(s: System, step: Step, m: MessageId)
    requires Fitting(s)
  {
    Commits(s, step, m) && s.calls[step.call].request.Post?
  }

  ghost predicate Edits(s: System, step: Step, m: MessageId)
    requires Fitting(s)
  {
    Commits(s, step, m) && s.calls[step.call].request.Edit?
  }

  ghost predicate Deletes(s: System, step: Step, m: MessageId)
    requires Fitting(s)
  {
    Commits(s, step, m) && s.calls[step.call].request.Delete?
  }

  // ----- The history of a message -----

  /** The text that was last asked for in a committed post or edit of the message. */
  ghost function LastText(steps: seq<Step>, m: MessageId): Option<string>
    decreases |steps|
  {
    if steps == [] then None
    else
      var init, last := steps[..|steps| - 1], steps[|steps| - 1];
      var s := Run(INITIAL, init);
      if Posts(s, last, m) || Edits(s, last, m) then Some(s.calls[last.call].request.text) else LastText(init, m)
  }

  /** A deletion of the message was committed. */
  ghost predicate WasDeleted(steps: seq<Step>, m: MessageId)
    decreases |steps|
  {
    steps != [] && (Deletes(Run(INITIAL, steps[..|steps| - 1]), steps[|steps| - 1], m) || WasDeleted(steps[..|steps| - 1], m))
  }

  /** A post of this run, with this caller, thread, reply target and time, wrote the message. */
  ghost predicate WrittenBy(steps: seq<Step>, m: MessageId, author: UserId, t: ThreadId, replyTo: Option<MessageId>, at: Time)
    decreases |steps|
  {
    steps != [] &&
    var init, last := steps[..|steps| - 1], steps[|steps| - 1];
    var s := Run(INITIAL, init);
    if Posts(s, last, m) then
      var r := s.calls[last.call].request;
      r.actor.userId == author && r.threadId == t && r.replyTo == replyTo && last.env.now == at
    else WrittenBy(init, m, author, t, replyTo, at)
  }

  /** How often a committed edit or deletion raised the version of the message. */
  ghost function Rewrites(steps: seq<Step>, m: MessageId): nat
    decreases |steps|
  {
    if steps == [] then 0
    else
      var init, last := steps[..|steps| - 1], steps[|steps| - 1];
      var s := Run(INITIAL, init);
      (if Edits(s, last, m) || Deletes(s, last, m) then 1 else 0) + Rewrites(init, m)
  }

  // ----- One step -----

  lemma CommitMessages(db: Db, r: Request, seen: Db, e: Env)
    requires !r.CreateThread? && !r.OpenGroup? && Commit(db, r, seen, e).Committed?
    ensures var after := Commit(db, r, seen, e).db;
      if r.Post? then
        && e.newId !in db.messages
        && after.messages == db.messages[e.newId := Message(r.threadId, r.actor.userId, r.text, r.replyTo, e.now, false, 1)]
      else if r.Edit? then
        && r.messageId in db.messages && !db.messages[r.messageId].deleted && db.messages[r.messageId].version == r.expectedRow
        && after.messages == db.messages[r.messageId := db.messages[r.messageId].(text := r.text, version := r.expectedRow + 1)]
      else if r.Delete? then
        && r.messageId in db.messages && !db.messages[r.messageId].deleted && db.messages[r.messageId].version == r.expectedRow
        && after.messages == db.messages[r.messageId := db.messages[r.messageId].(deleted := true, version := r.expectedRow + 1)]
      else after.messages == db.messages
  {}

  /** The messages of a state stay in every step, except those that the step posts, edits or deletes. */
  lemma StepMessage(s: System, step: Step, m: MessageId)
    requires Fitting(s)
    ensures var after := Apply(s, step);
      && (Posts(s, step, m) ==>
           && m !in s.db.messages && m in after.db.messages
           && var r := s.calls[step.call].request;
              after.db.messages[m] == Message(r.threadId, r.actor.userId, r.text, r.replyTo, step.env.now, false, 1))
      && (Edits(s, step, m) ==>
           && m in s.db.messages && m in after.db.messages
           && after.db.messages[m] == s.db.messages[m].(text := s.calls[step.call].request.text, version := s.db.messages[m].version + 1))
      && (Deletes(s, step, m) ==>
           && m in s.db.messages && m in after.db.messages
           && after.db.messages[m] == s.db.messages[m].(deleted := true, version := s.db.messages[m].version + 1))
      && (!Posts(s, step, m) && !Edits(s, step, m) && !Deletes(s, step, m) ==>
           (m in after.db.messages <==> m in s.db.messages) && (m in s.db.messages ==> after.db.messages[m] == s.db.messages[m]))
  {
    if step.Advance? && step.call in s.calls {
      var c := s.calls[step.call];
      if c.phase.Checked? || c.phase.Cleared? {
        if Commit(s.db, c.request, c.phase.seen, step.env).Committed? {
          CommitMessages(s.db, c.request, c.phase.seen, step.env);
        }
      } else {
        OtherMessages(s.db, c, step.env);
      }
    }
  }

  predicate Ends(p: Phase) {
    p.Done? && p.outcome.Created?
  }

  lemma OtherMessages(db: Db, c: Call, e: Env)
    requires Fits(c.request, c.phase) && !c.phase.Checked? && !c.phase.Cleared?
    ensures Progress(db, c, e).db.messages == db.messages
    ensures (c.request.Post? || c.request.Edit? || c.request.Delete?) && !c.phase.Done? ==> !Ends(Progress(db, c, e).phase)
  {}

  // ----- Every run -----

  lemma LastStep(steps: seq<Step>)
    requires steps != []
    ensures var init, last := steps[..|steps| - 1], steps[|steps| - 1]; Run(INITIAL, steps) == Apply(Run(INITIAL, init), last)
  {
    assert steps == steps[..|steps| - 1] + [steps[|steps| - 1]];
    RunSnoc(0, INITIAL, steps[..|steps| - 1], steps[|steps| - 1]);
  }

  /** In every run a message says what the last committed edit asked for, or else its post; it is deleted exactly when a deletion was
      committed, so an edit never brings it back and a deletion never changes its text; its author, thread, reply target and time are
      those of its post; and its version counts the rewrites. */
  lemma {:induction false} MessageIsItsHistory(steps: seq<Step>, m: MessageId)
    ensures var db := Run(INITIAL, steps).db;
      m in db.messages ==>
        var row := db.messages[m];
        && LastText(steps, m) == Some(row.text)
        && (row.deleted <==> WasDeleted(steps, m))
        && WrittenBy(steps, m, row.authorId, row.threadId, row.replyTo, row.createdAt)
        && row.version == 1 + Rewrites(steps, m)
    ensures m !in Run(INITIAL, steps).db.messages ==> LastText(steps, m).None? && !WasDeleted(steps, m) && Rewrites(steps, m) == 0
    decreases |steps|
  {
    if steps != [] {
      LastStep(steps);
      MessageIsItsHistory(steps[..|steps| - 1], m);
      StepMessage(Run(INITIAL, steps[..|steps| - 1]), steps[|steps| - 1], m);
    }
  }

  // ----- Replies -----

  /** A reply answers a message of its thread that is not a reply itself. */
  ghost predicate RepliesOk(db: Db) {
    forall m | m in db.messages && db.messages[m].replyTo.Some? :: AnswersTop(db, db.messages[m].replyTo.value, db.messages[m].threadId)
  }

  predicate AnswersTop(db: Db, parent: MessageId, t: ThreadId) {
    parent in db.messages && db.messages[parent].threadId == t && db.messages[parent].replyTo.None?
  }

  lemma PostAnswersTop(db: Db, seen: Db, r: Request)
    requires r.Post? && Passed(seen, r) && Extends(seen, db)
    ensures r.replyTo.Some? ==> AnswersTop(db, r.replyTo.value, r.threadId)
    ensures 1 <= |r.text| <= 8000
  {
    var e :| Review(seen, r, e).Proceed?;
  }

  lemma StepReplies(s: System, step: Step)
    requires Sound(s) && Fitting(s) && RepliesOk(s.db)
    ensures RepliesOk(Apply(s, step).db)
  {
    var after := Apply(s, step).db;
    StepSound(s, step);
    forall m | m in after.messages && after.messages[m].replyTo.Some?
      ensures AnswersTop(after, after.messages[m].replyTo.value, after.messages[m].threadId)
    {
      StepMessage(s, step, m);
      if Posts(s, step, m) {
        PostedReply(s, step, m);
      } else {
        assert AnswersTop(s.db, s.db.messages[m].replyTo.value, s.db.messages[m].threadId);
      }
    }
  }

  /** A committed post has a text of 1 to 8000 characters, and answers a message of its thread that is not a reply, or none. */
  lemma PostedReply(s: System, step: Step, m: MessageId)
    requires Sound(s) && Fitting(s) && Posts(s, step, m)
    ensures var r := s.calls[step.call].request;
      1 <= |r.text| <= 8000 && (r.replyTo.Some? ==> AnswersTop(s.db, r.replyTo.value, r.threadId))
  {
    var c := s.calls[step.call];
    assert Grounded(s.db, c);
    if c.phase.Cleared? {
      PostAnswersTop(s.db, c.phase.seen, c.request);
    }
  }

  /** In every run replies are one level deep and stay in the thread of the message they answer. */
  lemma {:induction false} RepliesFlat(s: System, steps: seq<Step>)
    requires Sound(s) && Fitting(s) && RepliesOk(s.db)
    ensures RepliesOk(Run(s, steps).db)
    decreases |steps|
  {
    if steps != [] {
      StepReplies(s, steps[0]);
      StepSound(s, steps[0]);
      RepliesFlat(Apply(s, steps[0]), steps[1..]);
    }
  }

  // ----- The thread's last message -----

  /** A thread's time of the last message changes only with a post to it, to the time of the new message. */
  lemma LastMessageMoves(s: System, step: Step, t: ThreadId)
    requires Fitting(s) && Linked(s.db) && t in s.db.threads && t in Apply(s, step).db.threads
    ensures var before, after := s.db.threads[t].lastMessageAt, Apply(s, step).db.threads[t].lastMessageAt;
      if exists m :: Posts(s, step, m) && s.calls[step.call].request.threadId == t then after == Some(step.env.now) else after == before
  {
    if step.Advance? && step.call in s.calls {
      var c := s.calls[step.call];
      if c.phase.Checked? || c.phase.Cleared? {
        CommitTimes(s.db, c.request, c.phase.seen, step.env, t);
        if Commit(s.db, c.request, c.phase.seen, step.env).Committed? && c.request.Post? && c.phase.Cleared? {
          assert Posts(s, step, step.env.newId);
        }
      } else {
        OtherMessages(s.db, c, step.env);
        OtherTimes(s.db, c, step.env, t);
      }
    }
  }

  predicate Times(db: Db, after: Db, r: Request, e: Env, t: ThreadId)
    requires t in db.threads
  {
    && t in after.threads
    && after.threads[t].lastMessageAt == if r.Post? && r.threadId == t then Some(e.now) else db.threads[t].lastMessageAt
  }

  lemma CommitTimes(db: Db, r: Request, seen: Db, e: Env, t: ThreadId)
    requires !r.CreateThread? && !r.OpenGroup? && t in db.threads
    ensures Commit(db, r, seen, e).Committed? ==> Times(db, Commit(db, r, seen, e).db, r, e, t)
  {}

  lemma OtherTimes(db: Db, c: Call, e: Env, t: ThreadId)
    requires Fits(c.request, c.phase) && !c.phase.Checked? && !c.phase.Cleared? && t in db.threads
    ensures t in Progress(db, c, e).db.threads && Progress(db, c, e).db.threads[t] == db.threads[t]
  {}
}
