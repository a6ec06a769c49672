/**
 * The repositories and workers of the outbound protocol, changing the rows step by step. Each
 * public step is proved to take the tables where the functions of `Outbound` say.
 */
module OutboundDatabase {
  import opened Wrappers
  import opened RetryPolicies
  import opened Outbound

  /** The rows one database session reads and writes. */
  class Session {
    var questions: seq<Question>
    var versions: seq<Version>
    var commands: seq<Command>
    var active: Option<nat>

    function Contents(): Store
      reads this
    {
      Store(questions, versions, commands, active)
    }

    constructor ()
      ensures Contents() == EMPTY.store
    {
      questions, versions, commands, active := [], [], [], None;
    }

    /** What leaving a transaction block with an exception does. */
    method Rollback(saved: Store)
      modifies this
      ensures Contents() == saved
    {
      questions, versions, commands, active := saved.questions, saved.versions, saved.commands, saved.active;
    }
  }

  /** What was attempted at Telegram and which retries were scheduled: no rollback undoes these. */
  class Journal {
    ghost var sends: seq<Attempt>
    ghost var retries: seq<Retry>
    ghost var edits: seq<EditAttempt>

    constructor ()
      ensures sends == [] && retries == [] && edits == []
    {
      sends, retries, edits := [], [], [];
    }
  }

  ghost function WorldOf(session: Session, journal: Journal): World
    reads session, journal
  {
    World(session.Contents(), journal.sends, journal.retries, journal.edits)
  }

  // ----- Drafts and feedback -----

  class ReplyDraftRepository {
    const session: Session

    constructor (session: Session)
      ensures this.session == session
    {
      this.session := session;
    }

    /** Not ok means `DraftUnavailableError`; what was written stays for the caller to keep or roll back. */
    method OpenQuestion(q: nat) returns (ok: bool)
      modifies session`questions
      ensures (session.Contents(), ok) == OpenDraft(old(session.Contents()), q)
    {
      if q >= |session.questions| || session.questions[q].status !in {Detected, WaitingForDraft, WaitingConfirmation} {
        return false;
      }
      session.questions := session.questions[q := session.questions[q].(status := WaitingForDraft)];
      return session.questions[q].chat.Some?;
    }

    method CreateVersion(q: nat, text: string) returns (ok: bool)
      modifies session`questions, session`versions
      ensures ok <==> Outbound.CreateVersion(old(session.Contents()), q, text).Some?
      ensures ok ==> session.Contents() == Outbound.CreateVersion(old(session.Contents()), q, text).value
    {
      if q >= |session.questions| || session.questions[q].status != WaitingForDraft {
        return false;
      }
      var number := LatestNumber(session.versions, q) + 1;
      if VersionTaken(session.versions, q, number) {
        return false;
      }
      session.versions := session.versions + [Version(q, number, text, Draft)];
      session.questions := session.questions[q := session.questions[q].(status := WaitingConfirmation)];
      return session.questions[q].chat.Some?;
    }

    method ReopenForEdit(q: nat) returns (ok: bool)
      modifies session`questions
      ensures ok <==> Outbound.ReopenForEdit(old(session.Contents()), q).Some?
      ensures ok ==> session.Contents() == Outbound.ReopenForEdit(old(session.Contents()), q).value
    {
      if q >= |session.questions| || session.questions[q].status != WaitingConfirmation {
        return false;
      }
      session.questions := session.questions[q := session.questions[q].(status := WaitingForDraft)];
      return true;
    }

    method Cancel(q: nat) returns (changed: Option<bool>)
      modifies session`questions
      ensures changed.Some? <==> CancelDraft(old(session.Contents()), q).Some?
      ensures changed.Some? ==> (changed.value <==> old(session.questions)[q].status != Cancelled)
      ensures session.Contents() == if changed.Some? then CancelDraft(old(session.Contents()), q).value else old(session.Contents())
    {
      if q >= |session.questions| {
        return None;
      }
      if session.questions[q].status == Cancelled {
        return Some(false);
      }
      if session.questions[q].status !in {WaitingForDraft, WaitingConfirmation} {
        return None;
      }
      session.questions := session.questions[q := session.questions[q].(status := Cancelled)];
      return Some(true);
    }
  }

  class QuestionFeedbackRepository {
    const session: Session

    constructor (session: Session)
      ensures this.session == session
    {
      this.session := session;
    }

    method Dismiss(q: nat) returns (changed: Option<bool>)
      modifies session`questions
      ensures changed.Some? <==> Outbound.Dismiss(old(session.Contents()), q).Some?
      ensures changed.Some? ==> (changed.value <==> old(session.questions)[q].status != Dismissed)
      ensures session.Contents() == if changed.Some? then Outbound.Dismiss(old(session.Contents()), q).value else old(session.Contents())
    {
      if q >= |session.questions| {
        return None;
      }
      if session.questions[q].status == Dismissed {
        return Some(false);
      }
      if session.questions[q].status != Detected {
        return None;
      }
      session.questions := session.questions[q := session.questions[q].(status := Dismissed)];
      return Some(true);
    }

    method Reopen(q: nat) returns (changed: Option<bool>)
      modifies session`questions
      ensures changed.Some? <==> Outbound.Reopen(old(session.Contents()), q).Some?
      ensures changed.Some? ==> (changed.value <==> old(session.questions)[q].status != Detected)
      ensures session.Contents() == if changed.Some? then Outbound.Reopen(old(session.Contents()), q).value else old(session.Contents())
    {
      if q >= |session.questions| {
        return None;
      }
      if session.questions[q].status == Detected {
        return Some(false);
      }
      if session.questions[q].status != Dismissed {
        return None;
      }
      session.questions := session.questions[q := session.questions[q].(status := Detected)];
      return Some(true);
    }
  }

  // ----- Commands -----

  /** A due command that no other due command precedes, by due time and then by creation. */
  ghost predicate IsOldestDue(s: Store, c: nat, kind: Kind, now: int) {
    Due(s, c, kind, now)
    && forall d: nat :: Due(s, d, kind, now) ==>
         s.commands[c].nextAttemptAt < s.commands[d].nextAttemptAt
         || (s.commands[c].nextAttemptAt == s.commands[d].nextAttemptAt && c <= d)
  }

  class OutboundCommandRepository {
    const session: Session

    constructor (session: Session)
      ensures this.session == session
    {
      this.session := session;
    }

    method ConfirmSend(q: nat, now: int) returns (r: Option<Confirmed>)
      modifies session`questions, session`versions, session`commands
      ensures var spec := Outbound.ConfirmSend(old(session.Contents()), q, now);
              && (r.Some? <==> spec.Some?)
              && (r.Some? ==> spec == Some((session.Contents(), r.value)))
    {
      if q >= |session.questions| {
        return None;
      }
      var existing := FindSend(session.commands, q);
      if existing.Some? {
        if session.questions[q].status != SendRequested {
          return None;
        }
        var c := session.commands[existing.value];
        return Some(Confirmed(existing.value, c.replyVersion, c.text, false));
      }
      if session.questions[q].status != WaitingConfirmation {
        return None;
      }
      var preview := LatestRow(session.versions, q);
      if preview.None? || preview.value.action != Draft {
        return None;
      }
      var final, text := LatestNumber(session.versions, q) + 1, preview.value.text;
      if VersionTaken(session.versions, q, final) {
        return None;
      }
      var command := NewCommand(session.Contents(), q, SendReply, final, final, None, text, now);
      session.versions := session.versions + [Version(q, final, text, FinalSent)];
      if KeyTaken(session.commands, command.key) {
        return None;
      }
      session.commands := session.commands + [command];
      session.questions := session.questions[q := session.questions[q].(status := SendRequested)];
      return Some(Confirmed(|session.commands| - 1, final, text, true));
    }

    /** The oldest due command of a kind: first by due time, then by creation. */
    method OldestDue(kind: Kind, now: int) returns (c: Option<nat>)
      ensures c.Some? ==> IsOldestDue(session.Contents(), c.value, kind, now)
      ensures c.None? ==> forall d: nat :: !Due(session.Contents(), d, kind, now)
    {
      c := None;
      for i := 0 to |session.commands|
        invariant c.Some? ==> c.value < i && Due(session.Contents(), c.value, kind, now)
        invariant c.Some? ==> forall d: nat :: d < i && Due(session.Contents(), d, kind, now) ==>
                    session.commands[c.value].nextAttemptAt < session.commands[d].nextAttemptAt
                    || (session.commands[c.value].nextAttemptAt == session.commands[d].nextAttemptAt && c.value <= d)
        invariant c.None? ==> forall d: nat :: d < i ==> !Due(session.Contents(), d, kind, now)
      {
        var row := session.commands[i];
        if row.kind == kind && row.status == Pending && row.nextAttemptAt <= now {
          if c.None? || row.nextAttemptAt < session.commands[c.value].nextAttemptAt {
            c := Some(i);
          }
        }
      }
    }

    /** `claim_send` and `claim_edit`. */
    method ClaimNext(kind: Kind, now: int) returns (c: Option<nat>)
      modifies session`commands
      ensures c.Some? ==> IsOldestDue(old(session.Contents()), c.value, kind, now)
      ensures c.Some? ==> session.Contents() == Claim(old(session.Contents()), c.value, now)
      ensures c.None? ==> session.Contents() == old(session.Contents())
      ensures c.None? ==> forall d: nat :: !Due(session.Contents(), d, kind, now)
    {
      c := OldestDue(kind, now);
      if c.Some? {
        var row := session.commands[c.value];
        session.commands :=
          session.commands[c.value := row.(status := Processing, attempts := row.attempts + 1, lockedAt := Some(now))];
      }
    }

    method CompleteSend(c: nat, sentId: int, now: int) returns (ok: bool)
      requires c < |session.commands|
      modifies session`commands, session`questions
      ensures ok <==> Outbound.CompleteSend(old(session.Contents()), c, sentId, now).Some?
      ensures ok ==> session.Contents() == Outbound.CompleteSend(old(session.Contents()), c, sentId, now).value
    {
      var row := session.commands[c];
      if row.question >= |session.questions| || session.questions[row.question].status != SendRequested {
        return false;
      }
      row := row.(sentId := Some(sentId), status := Succeeded);
      row := row.(completedAt := Some(now), lockedAt := None);
      session.commands := session.commands[c := row];
      session.questions := session.questions[row.question := session.questions[row.question].(status := Sent)];
      return true;
    }

    method RetrySend(c: nat, code: ErrorCode, now: int, delay: int)
      requires c < |session.commands|
      modifies session`commands
      ensures session.Contents() == Outbound.RetrySend(old(session.Contents()), c, code, now, delay)
    {
      var row := session.commands[c].(status := Pending, nextAttemptAt := now + delay);
      session.commands := session.commands[c := row.(lastError := Some(code), lockedAt := None)];
    }

    method FailSend(c: nat, code: ErrorCode, needsReview: bool)
      requires c < |session.commands| && session.commands[c].question < |session.questions|
      modifies session`commands, session`questions
      ensures session.Contents() == Outbound.FailSend(old(session.Contents()), c, code, needsReview)
    {
      var row := session.commands[c].(status := if needsReview then NeedsReview else Failed);
      session.commands := session.commands[c := row.(lastError := Some(code), lockedAt := None)];
      session.questions := session.questions[row.question := session.questions[row.question].(status := SendFailed)];
    }

    method PrepareEdit(q: nat, text: string) returns (ok: bool)
      modifies session`versions
      ensures ok <==> Outbound.PrepareEdit(old(session.Contents()), q, text).Some?
      ensures ok ==> session.Contents() == Outbound.PrepareEdit(old(session.Contents()), q, text).value
    {
      if q >= |session.questions| || session.questions[q].status != Sent {
        return false;
      }
      if LatestFinal(session.versions, q).None? || StoredSentId(session.commands, q).None? {
        return false;
      }
      var number := LatestNumber(session.versions, q) + 1;
      if VersionTaken(session.versions, q, number) {
        return false;
      }
      session.versions := session.versions + [Version(q, number, text, Draft)];
      return true;
    }

    method ConfirmEdit(q: nat, now: int) returns (r: Option<Confirmed>)
      modifies session`commands
      ensures var spec := Outbound.ConfirmEdit(old(session.Contents()), q, now);
              && (r.Some? <==> spec.Some?)
              && (r.Some? ==> spec == Some((session.Contents(), r.value)))
    {
      if q >= |session.questions| || session.questions[q].status != Sent {
        return None;
      }
      var preview := LatestRow(session.versions, q);
      if preview.None? || preview.value.action != Draft {
        return None;
      }
      var number := preview.value.number;
      var existing := FindKey(session.commands, Key(q, EditReply, number));
      if existing.Some? {
        var c := session.commands[existing.value];
        return Some(Confirmed(existing.value, c.replyVersion, c.text, false));
      }
      var sentId := StoredSentId(session.commands, q);
      if sentId.None? {
        return None;
      }
      var command := NewCommand(session.Contents(), q, EditReply, number + 1, number, sentId, preview.value.text, now);
      session.commands := session.commands + [command];
      return Some(Confirmed(|session.commands| - 1, number + 1, preview.value.text, true));
    }

    method CompleteEdit(c: nat, now: int) returns (ok: bool)
      requires c < |session.commands|
      modifies session`commands, session`versions
      ensures ok <==> Outbound.CompleteEdit(old(session.Contents()), c, now).Some?
      ensures ok ==> session.Contents() == Outbound.CompleteEdit(old(session.Contents()), c, now).value
    {
      var row := session.commands[c];
      if row.question >= |session.questions| || session.questions[row.question].status != Sent {
        return false;
      }
      if VersionTaken(session.versions, row.question, row.replyVersion) {
        return false;
      }
      session.versions := session.versions + [Version(row.question, row.replyVersion, row.text, FinalEdited)];
      session.commands := session.commands[c := row.(status := Succeeded, completedAt := Some(now), lockedAt := None)];
      return true;
    }

    method FailEdit(c: nat, code: ErrorCode)
      requires c < |session.commands|
      modifies session`commands
      ensures session.Contents() == Outbound.FailEdit(old(session.Contents()), c, code)
    {
      session.commands :=
        session.commands[c := session.commands[c].(status := Failed, lastError := Some(code), lockedAt := None)];
    }

    method RetryFailed(c: nat, now: int) returns (ok: bool)
      modifies session`commands
      ensures ok <==> Outbound.RetryFailed(old(session.Contents()), c, now).Some?
      ensures session.Contents() ==
              if ok then Outbound.RetryFailed(old(session.Contents()), c, now).value else old(session.Contents())
    {
      if c >= |session.commands| || !ManualRetryAllowed(session.commands[c]) {
        return false;
      }
      session.commands := session.commands[c := session.commands[c].(status := Pending, nextAttemptAt := now, lockedAt := None)];
      return true;
    }

    /** Moves expired claims to review, and reports which they were. */
    method ReviewStaleCommands(staleBefore: int) returns (recovered: seq<nat>)
      modifies session`commands
      ensures session.commands == RecoveredCommands(old(session.commands), staleBefore)
      ensures forall c: nat :: c in recovered <==> c < |old(session.commands)| && Stale(old(session.commands)[c], staleBefore)
    {
      ghost var before := session.commands;
      recovered := [];
      for c := 0 to |session.commands|
        invariant |session.commands| == |before|
        invariant forall d :: 0 <= d < c ==> session.commands[d] == RecoveredCommands(before, staleBefore)[d]
        invariant forall d :: c <= d < |before| ==> session.commands[d] == before[d]
        invariant forall d: nat :: d in recovered <==> d < c && Stale(before[d], staleBefore)
      {
        var row := session.commands[c];
        if Stale(row, staleBefore) {
          recovered := recovered + [c];
          session.commands := session.commands[c := row.(status := NeedsReview, lastError := Some(StaleLockRecovered), lockedAt := None)];
        }
      }
    }

    /** Fails the questions of the send commands among `recovered`. */
    method FailQuestions(recovered: seq<nat>)
      requires forall i :: 0 <= i < |recovered| ==> recovered[i] < |session.commands|
      modifies session`questions
      ensures |session.questions| == |old(session.questions)|
      ensures forall q: nat :: q < |session.questions| ==>
                session.questions[q] ==
                if SendAmong(session.commands, recovered, q) then old(session.questions)[q].(status := SendFailed)
                else old(session.questions)[q]
    {
      for i := 0 to |recovered|
        invariant |session.questions| == |old(session.questions)|
        invariant forall q: nat :: q < |session.questions| ==>
                    session.questions[q] ==
                    if SendAmong(session.commands, recovered[..i], q) then old(session.questions)[q].(status := SendFailed)
                    else old(session.questions)[q]
      {
        var command := session.commands[recovered[i]];
        SendAmongSnoc(session.commands, recovered, i);
        if command.kind == SendReply && command.question < |session.questions| {
          session.questions :=
            session.questions[command.question := session.questions[command.question].(status := SendFailed)];
        }
      }
      assert recovered[..|recovered|] == recovered;
    }

    /** Expired claims go to review, then the questions of the sends among them fail. */
    method RecoverStale(staleBefore: int) returns (recovered: seq<nat>)
      modifies session`commands, session`questions
      ensures session.Contents() == Outbound.RecoverStale(old(session.Contents()), staleBefore)
      ensures forall c: nat :: c in recovered <==> c < |old(session.commands)| && Stale(old(session.commands)[c], staleBefore)
    {
      ghost var s := session.Contents();
      recovered := ReviewStaleCommands(staleBefore);
      assert forall i :: 0 <= i < |recovered| ==> recovered[i] in recovered;
      FailQuestions(recovered);
      StaleSendsAreAmong(s.commands, recovered, staleBefore);
    }
  }

  /** Some listed command is a send of the question. */
  predicate SendAmong(commands: seq<Command>, ids: seq<nat>, q: nat) {
    exists i :: 0 <= i < |ids| && ids[i] < |commands| && commands[ids[i]].kind == SendReply && commands[ids[i]].question == q
  }

  lemma SendAmongSnoc(commands: seq<Command>, ids: seq<nat>, i: nat)
    requires i < |ids| && ids[i] < |commands|
    ensures forall q :: SendAmong(commands, ids[..i + 1], q) <==>
              SendAmong(commands, ids[..i], q) || (commands[ids[i]].kind == SendReply && commands[ids[i]].question == q)
  {
    assert ids[..i + 1] == ids[..i] + [ids[i]];
    forall q ensures SendAmong(commands, ids[..i + 1], q) <==>
              SendAmong(commands, ids[..i], q) || (commands[ids[i]].kind == SendReply && commands[ids[i]].question == q)
    {
      assert ids[..i + 1][i] == ids[i];
      assert forall j :: 0 <= j < i ==> ids[..i + 1][j] == ids[..i][j];
    }
  }

  lemma StaleSendsAreAmong(commands: seq<Command>, recovered: seq<nat>, staleBefore: int)
    requires forall c: nat :: c in recovered <==> c < |commands| && Stale(commands[c], staleBefore)
    ensures forall q :: SendAmong(RecoveredCommands(commands, staleBefore), recovered, q) <==> HasStaleSend(commands, q, staleBefore)
  {
  }

  // ----- Workers -----

  class SendReplyWorker {
    const session: Session
    const journal: Journal

    constructor (session: Session, journal: Journal)
      ensures this.session == session && this.journal == journal
    {
      this.session, this.journal := session, journal;
    }

    /** `_record_error` for the claimed command `c`. */
    method RecordError(repository: OutboundCommandRepository, c: nat, failure: SendFailure, now: int)
      requires repository.session == session
      requires c < |session.commands| && session.commands[c].question < |session.questions|
      modifies session`commands, session`questions, journal`retries
      ensures WorldOf(session, journal) == Outbound.RecordError(old(WorldOf(session, journal)), c, failure, now)
    {
      if failure.kind.Temporary? {
        var delay;
        if failure.code == FloodWait {
          delay := if failure.kind.retryAfter.Some? then failure.kind.retryAfter.value else 0;
        } else if MayRetry(session.commands[c].attempts) {
          delay := RetryDelay(session.commands[c].attempts);
        } else {
          repository.FailSend(c, failure.code, true);
          return;
        }
        repository.RetrySend(c, failure.code, now, delay);
        journal.retries := journal.retries + [Retry(c, failure.code)];
        return;
      }
      repository.FailSend(c, failure.code, failure.kind.Ambiguous?);
    }

    /**
     * One iteration: `check` is what verifying the chat and the source message meets, `answer`
     * what Telegram replies if the message is sent. `c` is the command worked on, if any.
     */
    method RunOnce(now: int, check: Check, answer: SendAnswer) returns (claimed: bool, ghost c: nat)
      modifies session, journal`sends, journal`retries
      ensures claimed <==> exists d: nat :: Due(old(session.Contents()), d, SendReply, now)
      ensures claimed ==> IsOldestDue(old(session.Contents()), c, SendReply, now)
      ensures WorldOf(session, journal) ==
              if claimed then SendRun(old(WorldOf(session, journal)), c, now, check, answer) else old(WorldOf(session, journal))
    {
      var saved := session.Contents();
      var repository := new OutboundCommandRepository(session);
      var next := repository.ClaimNext(SendReply, now);
      if next.None? {
        return false, 0;
      }
      c := next.value;
      var command := session.commands[next.value];
      if !DestinationMatches(session.Contents(), next.value) || check.Raises? {
        session.Rollback(saved);
        return true, c;
      }
      if check.Refuses? {
        RecordError(repository, next.value, SendFailure(check.code, Permanent), now);
        return true, c;
      }
      if check.Transient? {
        RecordError(repository, next.value, SendFailure(UnknownError, Temporary(None)), now);
        return true, c;
      }
      journal.sends := journal.sends + [Attempt(c, command.to, command.text, SendResult(answer))];
      if answer.SendError? {
        RecordError(repository, next.value, answer.failure, now);
        return true, c;
      }
      if answer.SendLost? {
        session.Rollback(saved);
        return true, c;
      }
      // The destination check has found the question SEND_REQUESTED, so completing cannot raise.
      var ok := repository.CompleteSend(next.value, answer.messageId, now);
      return true, c;
    }
  }

  class EditReplyWorker {
    const session: Session
    const journal: Journal

    constructor (session: Session, journal: Journal)
      ensures this.session == session && this.journal == journal
    {
      this.session, this.journal := session, journal;
    }

    method RunOnce(now: int, answer: EditAnswer) returns (claimed: bool, ghost c: nat)
      modifies session, journal`edits
      ensures claimed <==> exists d: nat :: Due(old(session.Contents()), d, EditReply, now)
      ensures claimed ==> IsOldestDue(old(session.Contents()), c, EditReply, now)
      ensures WorldOf(session, journal) ==
              if claimed then EditRun(old(WorldOf(session, journal)), c, now, answer) else old(WorldOf(session, journal))
    {
      var saved := session.Contents();
      var repository := new OutboundCommandRepository(session);
      var next := repository.ClaimNext(EditReply, now);
      if next.None? {
        return false, 0;
      }
      c := next.value;
      var command := session.commands[next.value];
      if !HasStatus(session.Contents(), command.question, {Sent}) || command.sentId.None?
         || command.to.chatId != session.questions[command.question].to.chatId
      {
        repository.FailEdit(next.value, InvalidEditTarget);
        return true, c;
      }
      journal.edits := journal.edits + [EditAttempt(c, command.sentId.value, command.text)];
      if answer.EditError? {
        repository.FailEdit(next.value, answer.code);
        return true, c;
      }
      if answer.EditLost? {
        session.Rollback(saved);
        return true, c;
      }
      var ok := repository.CompleteEdit(next.value, now);
      if !ok {
        session.Rollback(saved);
      }
      return true, c;
    }
  }

  // ----- Operator handlers, one transaction each -----

  class ReplyHandlers {
    const session: Session

    constructor (session: Session)
      ensures this.session == session
    {
      this.session := session;
    }

    /** `_open_question`: returning early still commits what was written. */
    method OpenQuestion(q: nat, replace: bool)
      modifies session
      ensures session.Contents() == HandleOpen(old(session.Contents()), q, replace)
    {
      var active := session.active;
      if active.Some? && active.value != q && !replace {
        return;
      }
      var drafts := new ReplyDraftRepository(session);
      if replace && active.Some? && active.value != q {
        var cancelled := drafts.Cancel(active.value);
      }
      var ok := drafts.OpenQuestion(q);
      if !ok {
        return;
      }
      session.active := Some(q);
    }

    method AcceptDraft(q: nat, text: string)
      modifies session
      ensures var s := old(session.Contents());
              session.Contents() == if HandleDraftText(s, q, text).Some? then HandleDraftText(s, q, text).value else s
    {
      var saved := session.Contents();
      if session.active != Some(q) {
        return;
      }
      var drafts := new ReplyDraftRepository(session);
      var ok := drafts.CreateVersion(q, text);
      if !ok {
        session.Rollback(saved);
      }
    }

    method EditDraft(q: nat)
      modifies session
      ensures var s := old(session.Contents());
              session.Contents() == if HandleEditDraft(s, q).Some? then HandleEditDraft(s, q).value else s
    {
      var saved := session.Contents();
      if session.active != Some(q) {
        return;
      }
      var drafts := new ReplyDraftRepository(session);
      var ok := drafts.ReopenForEdit(q);
      if !ok {
        session.Rollback(saved);
      }
    }

    method CancelDraft(q: nat)
      modifies session
      ensures var s := old(session.Contents());
              session.Contents() == if HandleCancel(s, q).Some? then HandleCancel(s, q).value else s
    {
      if session.active != Some(q) {
        return;
      }
      var drafts := new ReplyDraftRepository(session);
      var changed := drafts.Cancel(q);
      if changed.Some? {
        session.active := None;
      }
    }

    method ConfirmDraft(q: nat, now: int) returns (confirmed: Option<Confirmed>)
      modifies session
      ensures var s := old(session.Contents());
              && confirmed.Some? == HandleConfirm(s, q, now).Some?
              && (confirmed.Some? ==> HandleConfirm(s, q, now).value == (session.Contents(), confirmed.value))
              && (confirmed.None? ==> session.Contents() == s)
    {
      var saved := session.Contents();
      if session.active != Some(q) {
        return None;
      }
      var repository := new OutboundCommandRepository(session);
      confirmed := repository.ConfirmSend(q, now);
      if confirmed.None? {
        session.Rollback(saved);
      } else {
        session.active := None;
      }
    }

    method AcceptSentEdit(q: nat, text: string)
      modifies session
      ensures var s := old(session.Contents());
              session.Contents() == if PrepareEdit(s, q, text).Some? then PrepareEdit(s, q, text).value else s
    {
      var saved := session.Contents();
      var repository := new OutboundCommandRepository(session);
      var ok := repository.PrepareEdit(q, text);
      if !ok {
        session.Rollback(saved);
      }
    }

    method ConfirmSentEdit(q: nat, now: int) returns (confirmed: Option<Confirmed>)
      modifies session
      ensures var s := old(session.Contents());
              && confirmed.Some? == ConfirmEdit(s, q, now).Some?
              && (confirmed.Some? ==> ConfirmEdit(s, q, now).value == (session.Contents(), confirmed.value))
              && (confirmed.None? ==> session.Contents() == s)
    {
      var saved := session.Contents();
      var repository := new OutboundCommandRepository(session);
      confirmed := repository.ConfirmEdit(q, now);
      if confirmed.None? {
        session.Rollback(saved);
      }
    }
  }
}
