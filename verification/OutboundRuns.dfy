/** The outbound protocol over whole runs: every interleaving of operators, workers and recovery. */
module OutboundRuns {
  import opened Wrappers
  import opened RetryPolicies
  import opened Outbound
  import opened OutboundInvariants

  // ----- Every step keeps the tables sound -----

  lemma LiveSendIsRequested(s: Store, c: nat)
    requires Sound(s) && c < |s.commands| && s.commands[c].kind == SendReply
    requires s.commands[c].status in {Pending, Processing}
    ensures DestinationMatches(s, c)
  {
    assert Rooted(s, s.commands[c]);
    assert Coupled(s, s.commands[c].question);
  }

  lemma SameStatus(s: Store, q: nat)
    requires q < |s.questions|
    ensures SetStatus(s, q, s.questions[q].status) == s
  {
  }

  lemma ClaimKeepsSound(s: Store, c: nat, now: int)
    requires Sound(s) && c < |s.commands| && s.commands[c].status == Pending
    ensures Sound(Claim(s, c, now))
  {
    var d := Claim(s, c, now).commands[c];
    if s.commands[c].kind == SendReply {
      LiveSendIsRequested(s, c);
      MoveSend(s, c, d, SendRequested);
      SameStatus(SetCommand(s, c, d), d.question);
    } else {
      MoveEdit(s, c, d);
    }
  }

  lemma RetrySendKeepsSound(s: Store, c: nat, code: ErrorCode, now: int, delay: int)
    requires Sound(s) && c < |s.commands| && s.commands[c].kind == SendReply && s.commands[c].status == Processing
    ensures Sound(RetrySend(s, c, code, now, delay))
  {
    var d := RetrySend(s, c, code, now, delay).commands[c];
    LiveSendIsRequested(s, c);
    MoveSend(s, c, d, SendRequested);
    SameStatus(SetCommand(s, c, d), d.question);
  }

  lemma FailSendKeepsSound(s: Store, c: nat, code: ErrorCode, needsReview: bool)
    requires Sound(s) && c < |s.commands| && s.commands[c].kind == SendReply && s.commands[c].status == Processing
    ensures s.commands[c].question < |s.questions|
    ensures Sound(FailSend(s, c, code, needsReview))
  {
    LiveSendIsRequested(s, c);
    MoveSend(s, c, Released(s.commands[c], if needsReview then NeedsReview else Failed, Some(code)), SendFailed);
  }

  lemma RecordErrorKeepsSound(w: World, c: nat, failure: SendFailure, now: int)
    requires Sound(w.store) && c < |w.store.commands|
    requires w.store.commands[c].kind == SendReply && w.store.commands[c].status == Processing
    ensures w.store.commands[c].question < |w.store.questions|
    ensures Sound(RecordError(w, c, failure, now).store)
  {
    FailSendKeepsSound(w.store, c, failure.code, failure.kind != Permanent);
    match failure.kind
    case Temporary(retryAfter) =>
      if failure.code == FloodWait {
        RetrySendKeepsSound(w.store, c, failure.code, now, if retryAfter.Some? then retryAfter.value else 0);
      } else if MayRetry(w.store.commands[c].attempts) {
        RetrySendKeepsSound(w.store, c, failure.code, now, RetryDelay(w.store.commands[c].attempts));
      }
    case _ =>
  }

  lemma CompleteSendSucceeds(s: Store, c: nat, sentId: int, now: int)
    requires Sound(s) && c < |s.commands| && s.commands[c].kind == SendReply && s.commands[c].status == Processing
    ensures CompleteSend(s, c, sentId, now).Some? && Sound(CompleteSend(s, c, sentId, now).value)
  {
    LiveSendIsRequested(s, c);
    MoveSend(s, c, s.commands[c].(status := Succeeded, sentId := Some(sentId), completedAt := Some(now), lockedAt := None), Sent);
  }

  lemma SendRunKeepsSound(w: World, c: nat, now: int, check: Check, answer: SendAnswer)
    requires Sound(w.store)
    ensures Sound(SendRun(w, c, now, check, answer).store)
  {
    if Due(w.store, c, SendReply, now) {
      var claimed := w.(store := Claim(w.store, c, now));
      ClaimKeepsSound(w.store, c, now);
      LiveSendIsRequested(claimed.store, c);
      match check
      case Raises =>
      case Refuses(code) => RecordErrorKeepsSound(claimed, c, SendFailure(code, Permanent), now);
      case Transient => RecordErrorKeepsSound(claimed, c, SendFailure(UnknownError, Temporary(None)), now);
      case Passed =>
        match answer
        case SendError(failure) =>
          var command := claimed.store.commands[c];
          RecordErrorKeepsSound(
            claimed.(sends := w.sends + [Attempt(c, command.to, command.text, SendResult(answer))]), c, failure, now);
        case SendAccepted(id) => CompleteSendSucceeds(claimed.store, c, id, now);
        case SendLost(_) =>
    }
  }

  /** An edit's version number is never beyond the next free one. */
  lemma EditVersionIsWithinNext(s: Store, c: nat)
    requires Sound(s) && c < |s.commands| && s.commands[c].kind == EditReply
    ensures 2 <= s.commands[c].replyVersion <= Count(s.versions, s.commands[c].question) + 1
  {
    var command := s.commands[c];
    assert Rooted(s, command);
    var v := Version(command.question, command.replyVersion - 1, command.text, Draft);
    assert v in s.versions;
    assert VersionTaken(s.versions, command.question, command.replyVersion - 1);
    TakenNumbersAreOneToN(s.versions, command.question, command.replyVersion - 1);
  }

  /**
   * Completing an accepted edit appends the next version, or is rejected by the unique
   * constraint: it succeeds exactly when no version has been added since the edit was confirmed.
   */
  lemma CompleteEditExactlyWhenNext(s: Store, c: nat, now: int)
    requires Sound(s) && c < |s.commands| && s.commands[c].kind == EditReply
    ensures var command, done := s.commands[c], CompleteEdit(s, c, now);
            && (done.Some? <==> LatestNumber(s.versions, command.question) < command.replyVersion)
            && (done.Some? ==>
                  && done.value.versions == s.versions + [Version(command.question, command.replyVersion, command.text, FinalEdited)]
                  && command.replyVersion == LatestNumber(s.versions, command.question) + 1
                  && done.value.commands[c].status == Succeeded
                  && Sound(done.value))
  {
    var command := s.commands[c];
    assert Aimed(s, command);
    EditVersionIsWithinNext(s, c);
    LatestIsCount(s.versions, command.question);
    var v := Version(command.question, command.replyVersion, command.text, FinalEdited);
    AddVersionExactlyNext(s, v);
    if v.number == Count(s.versions, v.question) + 1 {
      AppendVersion(s, v);
      MoveEdit(s.(versions := s.versions + [v]), c,
               command.(status := Succeeded, completedAt := Some(now), lockedAt := None));
    }
  }

  /** The guard that would record INVALID_EDIT_TARGET never fires. */
  lemma EditTargetIsValid(s: Store, c: nat)
    requires Sound(s) && c < |s.commands| && s.commands[c].kind == EditReply
    ensures HasStatus(s, s.commands[c].question, {Sent})
    ensures s.commands[c].sentId.Some? && s.commands[c].to.chatId == s.questions[s.commands[c].question].to.chatId
  {
  }

  lemma EditRunKeepsSound(w: World, c: nat, now: int, answer: EditAnswer)
    requires Sound(w.store)
    ensures Sound(EditRun(w, c, now, answer).store)
  {
    if Due(w.store, c, EditReply, now) {
      var s := Claim(w.store, c, now);
      ClaimKeepsSound(w.store, c, now);
      EditTargetIsValid(s, c);
      match answer
      case EditError(code) => MoveEdit(s, c, Released(s.commands[c], Failed, Some(code)));
      case EditAccepted => CompleteEditExactlyWhenNext(s, c, now);
      case EditLost =>
    }
  }

  /** The next version of a question is always accepted. */
  lemma AppendNext(s: Store, q: nat, text: string, action: Action)
    requires Sound(s)
    ensures var v := Version(q, LatestNumber(s.versions, q) + 1, text, action);
            AddVersion(s, v) == Some(s.(versions := s.versions + [v])) && Sound(s.(versions := s.versions + [v]))
  {
    LatestIsCount(s.versions, q);
    AppendVersion(s, Version(q, LatestNumber(s.versions, q) + 1, text, action));
  }

  lemma NoSendNoKey(s: Store, q: nat, number: int)
    requires AllRooted(s) && FindSend(s.commands, q).None?
    ensures !KeyTaken(s.commands, Key(q, SendReply, number))
  {
  }

  /** The command `ConfirmSend` queues carries the newest draft's text, now also the final version's. */
  lemma QueuedSendIsRooted(s: Store, q: nat, now: int)
    requires Numbered(s.versions) && q < |s.questions|
    requires LatestRow(s.versions, q).Some? && LatestRow(s.versions, q).value.action == Draft
    ensures var final, text := LatestNumber(s.versions, q) + 1, LatestRow(s.versions, q).value.text;
            Rooted(s.(versions := s.versions + [Version(q, final, text, FinalSent)]),
                   NewCommand(s, q, SendReply, final, final, None, text, now))
  {
    LatestIsCount(s.versions, q);
    LatestRowIsRow(s.versions, q);
  }

  lemma ConfirmSendKeepsSound(s: Store, q: nat, now: int)
    requires Sound(s) && ConfirmSend(s, q, now).Some?
    ensures Sound(ConfirmSend(s, q, now).value.0)
  {
    if FindSend(s.commands, q).None? {
      var final, text := LatestNumber(s.versions, q) + 1, LatestRow(s.versions, q).value.text;
      var v := Version(q, final, text, FinalSent);
      AppendNext(s, q, text, FinalSent);
      NoSendNoKey(s, q, final);
      QueuedSendIsRooted(s, q, now);
      AddSend(s.(versions := s.versions + [v]), NewCommand(s, q, SendReply, final, final, None, text, now));
    }
  }

  /** The edit `ConfirmEdit` queues, if it queues one. */
  function QueuedEdit(s: Store, q: nat, now: int): Command
    requires q < |s.questions| && LatestRow(s.versions, q).Some?
  {
    var preview := LatestRow(s.versions, q).value;
    NewCommand(s, q, EditReply, preview.number + 1, preview.number, StoredSentId(s.commands, q), preview.text, now)
  }

  lemma ConfirmedEditForm(s: Store, q: nat, now: int)
    requires ConfirmEdit(s, q, now).Some?
    ensures HasStatus(s, q, {Sent}) && LatestRow(s.versions, q).Some? && LatestRow(s.versions, q).value.action == Draft
    ensures var t := ConfirmEdit(s, q, now).value.0;
            t == s
            || (t == s.(commands := s.commands + [QueuedEdit(s, q, now)])
                && StoredSentId(s.commands, q).Some? && !KeyTaken(s.commands, QueuedEdit(s, q, now).key))
  {
  }

  lemma QueuedEditIsRooted(s: Store, q: nat, now: int)
    requires Numbered(s.versions) && q < |s.questions|
    requires LatestRow(s.versions, q).Some? && LatestRow(s.versions, q).value.action == Draft
    ensures Rooted(s, QueuedEdit(s, q, now))
  {
    LatestIsCount(s.versions, q);
    LatestRowIsRow(s.versions, q);
  }

  lemma ConfirmEditKeepsSound(s: Store, q: nat, now: int)
    requires Sound(s) && ConfirmEdit(s, q, now).Some?
    ensures Sound(ConfirmEdit(s, q, now).value.0)
  {
    ConfirmedEditForm(s, q, now);
    if ConfirmEdit(s, q, now).value.0 != s {
      QueuedEditIsRooted(s, q, now);
      AddEdit(s, QueuedEdit(s, q, now));
    }
  }

  lemma PreparedForm(s: Store, q: nat, text: string)
    requires PrepareEdit(s, q, text).Some?
    ensures PrepareEdit(s, q, text).value ==
            s.(versions := s.versions + [Version(q, LatestNumber(s.versions, q) + 1, text, Draft)])
  {
  }

  lemma PrepareEditKeepsSound(s: Store, q: nat, text: string)
    requires Sound(s) && PrepareEdit(s, q, text).Some?
    ensures Sound(PrepareEdit(s, q, text).value)
  {
    PreparedForm(s, q, text);
    AppendNext(s, q, text, Draft);
  }

  lemma CreateVersionKeepsSound(s: Store, q: nat, text: string)
    requires Sound(s) && CreateVersion(s, q, text).Some?
    ensures Sound(CreateVersion(s, q, text).value)
  {
    AppendNext(s, q, text, Draft);
    var v := Version(q, LatestNumber(s.versions, q) + 1, text, Draft);
    MoveWithoutSend(s.(versions := s.versions + [v]), q, WaitingConfirmation);
  }

  lemma CancelKeepsSound(s: Store, q: nat)
    requires Sound(s) && CancelDraft(s, q).Some?
    ensures Sound(CancelDraft(s, q).value)
  {
    if !HasStatus(s, q, {Cancelled}) {
      MoveWithoutSend(s, q, Cancelled);
    }
  }

  /** Which question the operator has open plays no part in soundness. */
  lemma ActiveKeepsSound(s: Store, active: Option<nat>)
    requires Sound(s)
    ensures Sound(s.(active := active))
  {
    var t := s.(active := active);
    forall c | 0 <= c < |t.commands| ensures Rooted(t, t.commands[c]) && Aimed(t, t.commands[c]) {
      assert Rooted(s, s.commands[c]) && Aimed(s, s.commands[c]);
    }
    forall q | 0 <= q < |t.questions| ensures Coupled(t, q) {
      assert Coupled(s, q);
    }
  }

  lemma OpenDraftKeepsSound(s: Store, q: nat)
    requires Sound(s)
    ensures Sound(OpenDraft(s, q).0)
  {
    if HasStatus(s, q, {Detected, WaitingForDraft, WaitingConfirmation}) {
      MoveWithoutSend(s, q, WaitingForDraft);
    }
  }

  lemma OpenKeepsSound(s: Store, q: nat, replace: bool)
    requires Sound(s)
    ensures Sound(HandleOpen(s, q, replace))
  {
    var before := BeforeOpen(s, q);
    if BeforeOpen(s, q) != s {
      CancelKeepsSound(s, s.active.value);
    }
    OpenDraftKeepsSound(before, q);
    ActiveKeepsSound(OpenDraft(before, q).0, Some(q));
  }

  lemma DraftStepKeepsSound(s: Store, q: nat, text: string)
    requires Sound(s)
    ensures HandleDraftText(s, q, text).Some? ==> Sound(HandleDraftText(s, q, text).value)
    ensures HandleEditDraft(s, q).Some? ==> Sound(HandleEditDraft(s, q).value)
    ensures HandleCancel(s, q).Some? ==> Sound(HandleCancel(s, q).value)
  {
    if HandleDraftText(s, q, text).Some? {
      CreateVersionKeepsSound(s, q, text);
    }
    if HasStatus(s, q, {WaitingConfirmation}) {
      MoveWithoutSend(s, q, WaitingForDraft);
    }
    if HandleCancel(s, q).Some? {
      CancelKeepsSound(s, q);
      ActiveKeepsSound(CancelDraft(s, q).value, None);
    }
  }

  lemma HandleConfirmKeepsSound(s: Store, q: nat, now: int)
    requires Sound(s) && HandleConfirm(s, q, now).Some?
    ensures Sound(HandleConfirm(s, q, now).value.0)
  {
    ConfirmSendKeepsSound(s, q, now);
    ActiveKeepsSound(ConfirmSend(s, q, now).value.0, None);
  }

  lemma FeedbackKeepsSound(s: Store, q: nat)
    requires Sound(s)
    ensures Dismiss(s, q).Some? ==> Sound(Dismiss(s, q).value)
    ensures Reopen(s, q).Some? ==> Sound(Reopen(s, q).value)
  {
    if HasStatus(s, q, {Detected}) {
      MoveWithoutSend(s, q, Dismissed);
    }
    if HasStatus(s, q, {Dismissed}) {
      MoveWithoutSend(s, q, Detected);
    }
  }

  lemma RetryFailedKeepsSound(s: Store, c: nat, now: int)
    requires Sound(s) && RetryFailed(s, c, now).Some?
    ensures Sound(RetryFailed(s, c, now).value)
  {
    MoveEdit(s, c, s.commands[c].(status := Pending, nextAttemptAt := now, lockedAt := None));
  }

  lemma QuestionRowsKeepSound(s: Store, chat: int, to: Destination)
    requires Sound(s)
    ensures Sound(s.(questions := s.questions + [Question(Detected, Some(chat), to)]))
    ensures Sound(s.(questions := Detached(s.questions, chat)))
  {
    QuestionsGrow(s, s.questions + [Question(Detected, Some(chat), to)]);
    QuestionsGrow(s, Detached(s.questions, chat));
  }

  /** Steps by which the operator moves a question or prepares what is to be sent. */
  predicate ByOperator(e: Event) {
    e.Open? || e.DraftText? || e.EditDraft? || e.CancelActive? || e.Confirm? || e.DismissQuestion? || e.ReopenQuestion?
    || e.EditText? || e.EditConfirm?
  }

  lemma OperatorKeepsSound(w: World, e: Event)
    requires Sound(w.store) && ByOperator(e)
    ensures Sound(Next(w, e).store)
  {
    var s := w.store;
    match e
    case Open(q, replace) => OpenKeepsSound(s, q, replace);
    case DraftText(q, text) => DraftStepKeepsSound(s, q, text);
    case EditDraft(q) => DraftStepKeepsSound(s, q, "");
    case CancelActive(q) => DraftStepKeepsSound(s, q, "");
    case Confirm(q, now) => if HandleConfirm(s, q, now).Some? { HandleConfirmKeepsSound(s, q, now); }
    case DismissQuestion(q) => FeedbackKeepsSound(s, q);
    case ReopenQuestion(q) => FeedbackKeepsSound(s, q);
    case EditText(q, text) => if PrepareEdit(s, q, text).Some? { PrepareEditKeepsSound(s, q, text); }
    case EditConfirm(q, now) => if ConfirmEdit(s, q, now).Some? { ConfirmEditKeepsSound(s, q, now); }
    case _ =>
  }

  /** Every step of every participant keeps the tables sound. */
  lemma StepKeepsSound(w: World, e: Event)
    requires Sound(w.store)
    ensures Sound(Next(w, e).store)
  {
    var s := w.store;
    match e
    case Detect(chat, to) => QuestionRowsKeepSound(s, chat, to);
    case RemoveChat(chat) => QuestionRowsKeepSound(s, chat, Destination(0, 0, None));
    case ManualRetry(c, now) => if RetryFailed(s, c, now).Some? { RetryFailedKeepsSound(s, c, now); }
    case SendOnce(c, now, check, answer) => SendRunKeepsSound(w, c, now, check, answer);
    case EditOnce(c, now, answer) => EditRunKeepsSound(w, c, now, answer);
    case ClaimOnly(c, kind, now) => if Due(s, c, kind, now) { ClaimKeepsSound(s, c, now); }
    case Recover(staleBefore) => RecoveryKeepsSound(s, staleBefore);
    case _ => OperatorKeepsSound(w, e);
  }

  lemma {:induction false} AlwaysSound(h: seq<Event>)
    ensures Sound(After(h).store)
  {
    if h != [] {
      AlwaysSound(h[..|h| - 1]);
      StepKeepsSound(After(h[..|h| - 1]), h[|h| - 1]);
    }
  }
}
