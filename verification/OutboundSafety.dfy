/** What was attempted at Telegram over a whole run, against what the tables say. */
module OutboundSafety {
  import opened Wrappers
  import opened Outbound
  import opened OutboundInvariants
  import opened OutboundRuns

  // ----- The log and the tables -----

  /** An attempt carries its command's destination and text. */
  ghost predicate Faithful(s: Store, a: Attempt) {
    a.command < |s.commands| && s.commands[a.command].kind == SendReply
    && a.to == s.commands[a.command].to && a.text == s.commands[a.command].text
  }

  /** An accepted or ambiguous attempt has decided its command. */
  ghost predicate Decided(s: Store, a: Attempt)
    requires a.command < |s.commands|
  {
    var c := s.commands[a.command];
    match a.result
    case Accepted(id) => c.status == Succeeded && c.sentId == Some(id)
    case Unknown(_) => c.status == NeedsReview
    case NotAccepted => true
    case Lost(_) => true
  }

  /** Telegram refused the attempt, or its transaction never completed. */
  predicate LeavesOpen(r: Outbound.Result) {
    r == NotAccepted || r.Lost?
  }

  ghost predicate AttemptsLogged(s: Store, sends: seq<Attempt>) {
    forall i :: 0 <= i < |sends| ==> Faithful(s, sends[i]) && Decided(s, sends[i])
  }

  /** Only the last attempt of a command may decide it. */
  ghost predicate OnlyLastMayLand(sends: seq<Attempt>) {
    forall i, j :: 0 <= i < j < |sends| && sends[i].command == sends[j].command ==> LeavesOpen(sends[i].result)
  }

  ghost predicate WasAccepted(sends: seq<Attempt>, c: nat, id: Option<int>) {
    exists i :: 0 <= i < |sends| && sends[i].command == c && sends[i].result.Accepted? && id == Some(sends[i].result.messageId)
  }

  ghost predicate SuccessIsAccepted(s: Store, sends: seq<Attempt>) {
    forall c :: 0 <= c < |s.commands| && s.commands[c].kind == SendReply && s.commands[c].status == Succeeded ==>
      WasAccepted(sends, c, s.commands[c].sentId)
  }

  ghost predicate SendsSound(s: Store, sends: seq<Attempt>) {
    AttemptsLogged(s, sends) && OnlyLastMayLand(sends) && SuccessIsAccepted(s, sends)
  }

  /** Retries that Telegram did not itself ask for. */
  function PlainRetries(retries: seq<Retry>, c: nat): nat {
    if retries == [] then 0
    else
      var last := retries[|retries| - 1];
      PlainRetries(retries[..|retries| - 1], c) + if last.command == c && last.code != FloodWait then 1 else 0
  }

  function RetryBudget(s: Store, c: nat): int {
    if c >= |s.commands| then 0 else if s.commands[c].attempts <= 4 then s.commands[c].attempts else 4
  }

  ghost predicate RetriesSound(s: Store, retries: seq<Retry>) {
    forall c: nat :: PlainRetries(retries, c) <= RetryBudget(s, c)
  }

  ghost predicate EditsSound(s: Store, edits: seq<EditAttempt>) {
    forall i :: 0 <= i < |edits| ==> EditLogged(s, edits[i])
  }

  ghost predicate EditLogged(s: Store, e: EditAttempt) {
    e.command < |s.commands| && s.commands[e.command].kind == EditReply
    && Some(e.messageId) == s.commands[e.command].sentId && e.text == s.commands[e.command].text
  }

  ghost predicate LogSound(w: World) {
    SendsSound(w.store, w.sends) && RetriesSound(w.store, w.retries) && EditsSound(w.store, w.edits)
  }

  // ----- Steps that attempt nothing -----

  /** What any step may do to an existing command. */
  ghost predicate Evolves(c: Command, d: Command) {
    SameIdentity(c, d) && c.attempts <= d.attempts && (c.kind == EditReply ==> c.sentId == d.sentId)
  }

  /** Beyond that, nothing but an attempt decides a send, and nothing undoes it. */
  ghost predicate Undisturbed(c: Command, d: Command) {
    c.kind == SendReply ==>
      && (c.status in {Succeeded, Failed, NeedsReview} ==> d.status == c.status && d.sentId == c.sentId)
      && (d.status == Succeeded ==> c.status == Succeeded)
  }

  ghost predicate AllEvolve(s: Store, t: Store) {
    && |s.commands| <= |t.commands|
    && (forall c :: 0 <= c < |s.commands| ==> Evolves(s.commands[c], t.commands[c]))
    && (forall c :: |s.commands| <= c < |t.commands| ==> t.commands[c].status == Pending && t.commands[c].attempts >= 0)
  }

  ghost predicate Quiet(s: Store, t: Store) {
    AllEvolve(s, t) && forall c :: 0 <= c < |s.commands| ==> Undisturbed(s.commands[c], t.commands[c])
  }

  lemma QuietTransitive(s: Store, t: Store, u: Store)
    requires Quiet(s, t) && Quiet(t, u) && |t.commands| == |u.commands|
    requires |s.commands| == |t.commands|
    ensures Quiet(s, u)
  {
  }

  lemma QuietKeepsSends(s: Store, t: Store, sends: seq<Attempt>)
    requires SendsSound(s, sends) && Quiet(s, t)
    ensures SendsSound(t, sends)
  {
  }

  lemma EvolvingKeepsRetries(s: Store, t: Store, retries: seq<Retry>)
    requires RetriesSound(s, retries) && AllEvolve(s, t)
    ensures RetriesSound(t, retries)
  {
  }

  lemma EvolvingKeepsEdits(s: Store, t: Store, edits: seq<EditAttempt>)
    requires EditsSound(s, edits) && AllEvolve(s, t)
    ensures EditsSound(t, edits)
  {
  }

  lemma QuietKeepsLog(w: World, t: Store)
    requires LogSound(w) && Quiet(w.store, t)
    ensures LogSound(w.(store := t))
  {
  }

  // ----- Attempts -----

  /** An attempt on a command that is still open; whatever it decides, it decides last. */
  lemma AttemptKeepsSends(s: Store, t: Store, sends: seq<Attempt>, a: Attempt)
    requires SendsSound(s, sends) && AllEvolve(s, t)
    requires Faithful(s, a) && s.commands[a.command].status in {Pending, Processing}
    requires forall c :: 0 <= c < |s.commands| && c != a.command ==> Undisturbed(s.commands[c], t.commands[c])
    requires Decided(t, a)
    requires t.commands[a.command].status == Succeeded ==> a.result.Accepted?
    ensures SendsSound(t, sends + [a])
  {
    forall i | 0 <= i < |sends| && sends[i].command == a.command ensures LeavesOpen(sends[i].result) {
      assert Decided(s, sends[i]);
    }
    AttemptIsLogged(s, t, sends, a);
    AttemptAccountsForSuccess(s, t, sends, a);
  }

  lemma AttemptIsLogged(s: Store, t: Store, sends: seq<Attempt>, a: Attempt)
    requires AttemptsLogged(s, sends) && AllEvolve(s, t)
    requires Faithful(s, a) && Decided(t, a)
    requires forall i :: 0 <= i < |sends| && sends[i].command == a.command ==> LeavesOpen(sends[i].result)
    requires forall c :: 0 <= c < |s.commands| && c != a.command ==> Undisturbed(s.commands[c], t.commands[c])
    ensures AttemptsLogged(t, sends + [a])
  {
  }

  lemma AcceptedStays(sends: seq<Attempt>, a: Attempt, c: nat, id: Option<int>)
    requires WasAccepted(sends, c, id)
    ensures WasAccepted(sends + [a], c, id)
  {
    var i :| 0 <= i < |sends| && sends[i].command == c && sends[i].result.Accepted? && id == Some(sends[i].result.messageId);
    assert (sends + [a])[i] == sends[i];
  }

  lemma AttemptAccountsForSuccess(s: Store, t: Store, sends: seq<Attempt>, a: Attempt)
    requires SuccessIsAccepted(s, sends) && AllEvolve(s, t)
    requires Faithful(s, a) && Decided(t, a)
    requires t.commands[a.command].status == Succeeded ==> a.result.Accepted?
    requires forall c :: 0 <= c < |s.commands| && c != a.command ==> Undisturbed(s.commands[c], t.commands[c])
    ensures SuccessIsAccepted(t, sends + [a])
  {
    var all := sends + [a];
    assert all[|sends|] == a;
    forall c | 0 <= c < |t.commands| && t.commands[c].kind == SendReply && t.commands[c].status == Succeeded
      ensures WasAccepted(all, c, t.commands[c].sentId)
    {
      if c != a.command {
        assert Evolves(s.commands[c], t.commands[c]) && Undisturbed(s.commands[c], t.commands[c]);
        AcceptedStays(sends, a, c, s.commands[c].sentId);
      }
    }
  }

  /** A fresh claim earns one more retry, up to the fourth claim. */
  lemma RetryKeepsRetries(s: Store, t: Store, retries: seq<Retry>, r: Retry)
    requires RetriesSound(s, retries) && AllEvolve(s, t)
    requires r.command < |s.commands|
    requires r.code != FloodWait ==> s.commands[r.command].attempts < t.commands[r.command].attempts <= 4
    ensures RetriesSound(t, retries + [r])
  {
  }

  // ----- Every step keeps the log sound -----

  lemma ClaimIsQuiet(s: Store, c: nat, now: int)
    requires c < |s.commands| && s.commands[c].status == Pending
    ensures Quiet(s, Claim(s, c, now))
  {
  }

  /** Recording a failure decides nothing but an ambiguous attempt, and retries at most as often as the schedule. */
  lemma RecordErrorOutcome(w: World, c: nat, failure: SendFailure, now: int)
    requires c < |w.store.commands| && w.store.commands[c].question < |w.store.questions|
    requires w.store.commands[c].kind == SendReply && w.store.commands[c].status == Processing
    ensures var r := RecordError(w, c, failure, now);
            && |r.store.commands| == |w.store.commands|
            && Quiet(w.store, r.store)
            && r.sends == w.sends && r.edits == w.edits
            && r.store.commands[c].attempts == w.store.commands[c].attempts
            && r.store.commands[c].status != Succeeded
            && (failure.kind.Ambiguous? ==> r.store.commands[c].status == NeedsReview)
            && (r.retries == w.retries
                || (r.retries == w.retries + [Retry(c, failure.code)]
                    && (failure.code != FloodWait ==> w.store.commands[c].attempts <= 4)))
  {
  }

  /**
   * A failed attempt is retried after the given or scheduled delay exactly when it is temporary
   * with retries left; it fails exactly when permanent, and otherwise needs review. The question
   * leaves SEND_REQUESTED exactly when the command is not retried.
   */
  lemma ErrorsAreClassified(w: World, c: nat, failure: SendFailure, now: int)
    requires c < |w.store.commands| && HasStatus(w.store, w.store.commands[c].question, {SendRequested})
    requires w.store.commands[c].attempts >= 1
    ensures var attempts, r := w.store.commands[c].attempts, RecordError(w, c, failure, now).store;
            var d, flood := r.commands[c], failure.code == FloodWait;
            && (d.status == Pending <==> failure.kind.Temporary? && (flood || attempts <= 4))
            && (d.status == Failed <==> failure.kind.Permanent?)
            && (d.status == NeedsReview <==> failure.kind.Ambiguous? || (failure.kind.Temporary? && !flood && attempts > 4))
            && (r.questions[d.question].status == SendRequested <==> d.status == Pending)
            && d.lockedAt == None && d.lastError == Some(failure.code)
            && (d.status == Pending && !flood ==> d.nextAttemptAt == now + [15, 60, 300, 1800][attempts - 1])
            && (d.status == Pending && flood && failure.kind.retryAfter.Some? ==>
                  d.nextAttemptAt == now + failure.kind.retryAfter.value)
  {
  }

  lemma ClaimedErrorKeepsRetries(w: World, claimed: World, c: nat, failure: SendFailure, now: int)
    requires RetriesSound(w.store, w.retries)
    requires c < |w.store.commands| && w.store.commands[c].question < |w.store.questions|
    requires w.store.commands[c].kind == SendReply && w.store.commands[c].status == Pending
    requires claimed.store == Claim(w.store, c, now) && claimed.retries == w.retries
    ensures var r := RecordError(claimed, c, failure, now); Quiet(w.store, r.store) && RetriesSound(r.store, r.retries)
  {
    var r := RecordError(claimed, c, failure, now);
    ClaimIsQuiet(w.store, c, now);
    RecordErrorOutcome(claimed, c, failure, now);
    QuietTransitive(w.store, claimed.store, r.store);
    if r.retries == w.retries {
      EvolvingKeepsRetries(w.store, r.store, w.retries);
    } else {
      RetryKeepsRetries(w.store, r.store, w.retries, Retry(c, failure.code));
    }
  }

  /** A failed check before the attempt: nothing is sent. */
  lemma RefusedCheckKeepsLog(w: World, c: nat, failure: SendFailure, now: int)
    requires LogSound(w) && Due(w.store, c, SendReply, now) && w.store.commands[c].question < |w.store.questions|
    ensures LogSound(RecordError(w.(store := Claim(w.store, c, now)), c, failure, now))
  {
    var claimed := w.(store := Claim(w.store, c, now));
    var r := RecordError(claimed, c, failure, now);
    RecordErrorOutcome(claimed, c, failure, now);
    ClaimedErrorKeepsRetries(w, claimed, c, failure, now);
    QuietKeepsSends(w.store, r.store, w.sends);
    EvolvingKeepsEdits(w.store, r.store, w.edits);
  }

  /** An attempt that Telegram refuses, or leaves in doubt. */
  lemma FailedAttemptKeepsLog(w: World, c: nat, failure: SendFailure, now: int)
    requires LogSound(w) && Due(w.store, c, SendReply, now) && w.store.commands[c].question < |w.store.questions|
    ensures var command := w.store.commands[c];
            var a := Attempt(c, command.to, command.text, SendResult(SendError(failure)));
            LogSound(RecordError(w.(store := Claim(w.store, c, now), sends := w.sends + [a]), c, failure, now))
  {
    var command := w.store.commands[c];
    var a := Attempt(c, command.to, command.text, SendResult(SendError(failure)));
    var sent := w.(store := Claim(w.store, c, now), sends := w.sends + [a]);
    var r := RecordError(sent, c, failure, now);
    RecordErrorOutcome(sent, c, failure, now);
    ClaimedErrorKeepsRetries(w, sent, c, failure, now);
    AttemptKeepsSends(w.store, r.store, w.sends, a);
    EvolvingKeepsEdits(w.store, r.store, w.edits);
  }

  /** An attempt that Telegram accepts is stored in the same transaction. */
  lemma AcceptedAttemptKeepsLog(w: World, c: nat, id: int, now: int)
    requires LogSound(w) && Due(w.store, c, SendReply, now)
    requires CompleteSend(Claim(w.store, c, now), c, id, now).Some?
    ensures var command := w.store.commands[c];
            LogSound(w.(store := CompleteSend(Claim(w.store, c, now), c, id, now).value,
                        sends := w.sends + [Attempt(c, command.to, command.text, Accepted(id))]))
  {
    var t := CompleteSend(Claim(w.store, c, now), c, id, now).value;
    var command := w.store.commands[c];
    AttemptKeepsSends(w.store, t, w.sends, Attempt(c, command.to, command.text, Accepted(id)));
    EvolvingKeepsRetries(w.store, t, w.retries);
    EvolvingKeepsEdits(w.store, t, w.edits);
  }

  /** An attempt whose transaction is lost changes nothing but the log. */
  lemma LostAttemptKeepsLog(w: World, c: nat, landed: bool, now: int)
    requires LogSound(w) && Due(w.store, c, SendReply, now)
    ensures var command := w.store.commands[c];
            LogSound(w.(sends := w.sends + [Attempt(c, command.to, command.text, Lost(landed))]))
  {
    var command := w.store.commands[c];
    SameCommandsAreQuiet(w.store, w.store);
    AttemptKeepsSends(w.store, w.store, w.sends, Attempt(c, command.to, command.text, Lost(landed)));
  }

  lemma SendRunKeepsLog(w: World, c: nat, now: int, check: Check, answer: SendAnswer)
    requires Sound(w.store) && LogSound(w)
    ensures LogSound(SendRun(w, c, now, check, answer))
  {
    if Due(w.store, c, SendReply, now) {
      LiveSendIsRequested(w.store, c);
      match check
      case Raises =>
      case Refuses(code) => RefusedCheckKeepsLog(w, c, SendFailure(code, Permanent), now);
      case Transient => RefusedCheckKeepsLog(w, c, SendFailure(UnknownError, Temporary(None)), now);
      case Passed =>
        match answer
        case SendError(failure) => FailedAttemptKeepsLog(w, c, failure, now);
        case SendLost(landed) => LostAttemptKeepsLog(w, c, landed, now);
        case SendAccepted(id) =>
          ClaimKeepsSound(w.store, c, now);
          CompleteSendSucceeds(Claim(w.store, c, now), c, id, now);
          AcceptedAttemptKeepsLog(w, c, id, now);
    }
  }

  lemma OneEditMovesQuietly(s: Store, t: Store, c: nat, d: Command)
    requires c < |s.commands| && s.commands[c].kind == EditReply && Evolves(s.commands[c], d)
    requires t.commands == s.commands[c := d]
    ensures Quiet(s, t)
  {
  }

  /** Whatever the answer, an edit run changes at most its own command. */
  lemma EditRunChangesOneCommand(w: World, c: nat, now: int, answer: EditAnswer)
    requires Due(w.store, c, EditReply, now)
    ensures var s, r := w.store, EditRun(w, c, now, answer);
            c < |r.store.commands| && r.store.commands == s.commands[c := r.store.commands[c]]
            && Evolves(s.commands[c], r.store.commands[c])
  {
  }

  /** One edit run attempts exactly the command's own text on the stored message. */
  lemma EditRunOutcome(w: World, c: nat, now: int, answer: EditAnswer)
    requires Sound(w.store) && Due(w.store, c, EditReply, now)
    ensures var s, r := w.store, EditRun(w, c, now, answer);
            && r.sends == w.sends && r.retries == w.retries
            && s.commands[c].sentId.Some?
            && r.edits == w.edits + [EditAttempt(c, s.commands[c].sentId.value, s.commands[c].text)]
  {
  }

  lemma EditAppended(s: Store, edits: seq<EditAttempt>, e: EditAttempt)
    requires EditsSound(s, edits) && EditLogged(s, e)
    ensures EditsSound(s, edits + [e])
  {
  }

  lemma EditRunKeepsLog(w: World, c: nat, now: int, answer: EditAnswer)
    requires Sound(w.store) && LogSound(w)
    ensures LogSound(EditRun(w, c, now, answer))
  {
    if Due(w.store, c, EditReply, now) {
      var s, r := w.store, EditRun(w, c, now, answer);
      EditRunOutcome(w, c, now, answer);
      EditRunChangesOneCommand(w, c, now, answer);
      OneEditMovesQuietly(s, r.store, c, r.store.commands[c]);
      QuietKeepsLog(w, r.store);
      EditAppended(s, w.edits, EditAttempt(c, s.commands[c].sentId.value, s.commands[c].text));
      EvolvingKeepsEdits(s, r.store, r.edits);
    }
  }

  lemma SameCommandsAreQuiet(s: Store, t: Store)
    requires s.commands == t.commands
    ensures Quiet(s, t)
  {
  }

  /** Drafting and feedback touch no command. */
  lemma DraftingTouchesNoCommand(s: Store, q: nat, text: string, replace: bool)
    ensures HandleOpen(s, q, replace).commands == s.commands
    ensures HandleDraftText(s, q, text).Some? ==> HandleDraftText(s, q, text).value.commands == s.commands
    ensures HandleEditDraft(s, q).Some? ==> HandleEditDraft(s, q).value.commands == s.commands
    ensures HandleCancel(s, q).Some? ==> HandleCancel(s, q).value.commands == s.commands
    ensures Dismiss(s, q).Some? ==> Dismiss(s, q).value.commands == s.commands
    ensures Reopen(s, q).Some? ==> Reopen(s, q).value.commands == s.commands
    ensures PrepareEdit(s, q, text).Some? ==> PrepareEdit(s, q, text).value.commands == s.commands
  {
  }

  /** A confirmation leaves every existing command alone. */
  lemma SendConfirmationQueues(s: Store, q: nat, now: int)
    requires HandleConfirm(s, q, now).Some?
    ensures var t := HandleConfirm(s, q, now).value.0;
            t.commands == s.commands
            || exists c: Command :: c.status == Pending && c.attempts == 0 && t.commands == s.commands + [c]
  {
  }

  lemma EditConfirmationQueues(s: Store, q: nat, now: int)
    requires ConfirmEdit(s, q, now).Some?
    ensures var t := ConfirmEdit(s, q, now).value.0;
            t.commands == s.commands
            || exists c: Command :: c.status == Pending && c.attempts == 0 && t.commands == s.commands + [c]
  {
  }

  lemma QueueingOneIsQuiet(s: Store, t: Store)
    requires t.commands == s.commands
             || exists c: Command :: c.status == Pending && c.attempts == 0 && t.commands == s.commands + [c]
    ensures Quiet(s, t)
  {
  }

  lemma ConfirmationIsQuiet(s: Store, q: nat, now: int)
    ensures HandleConfirm(s, q, now).Some? ==> Quiet(s, HandleConfirm(s, q, now).value.0)
    ensures ConfirmEdit(s, q, now).Some? ==> Quiet(s, ConfirmEdit(s, q, now).value.0)
  {
    if HandleConfirm(s, q, now).Some? {
      SendConfirmationQueues(s, q, now);
      QueueingOneIsQuiet(s, HandleConfirm(s, q, now).value.0);
    }
    if ConfirmEdit(s, q, now).Some? {
      EditConfirmationQueues(s, q, now);
      QueueingOneIsQuiet(s, ConfirmEdit(s, q, now).value.0);
    }
  }

  lemma RecoveryIsQuiet(s: Store, staleBefore: int)
    ensures Quiet(s, RecoverStale(s, staleBefore))
  {
  }

  /** Steps that touch no command at all. */
  predicate TouchesNoCommand(e: Event) {
    e.Detect? || e.RemoveChat? || e.Open? || e.DraftText? || e.EditDraft? || e.CancelActive? || e.DismissQuestion?
    || e.ReopenQuestion? || e.EditText?
  }

  lemma SomeStepsTouchNoCommand(w: World, e: Event)
    requires TouchesNoCommand(e)
    ensures Next(w, e) == w.(store := Next(w, e).store) && Next(w, e).store.commands == w.store.commands
  {
    var s := w.store;
    match e
    case Open(q, replace) => DraftingTouchesNoCommand(s, q, "", replace);
    case DraftText(q, text) => DraftingTouchesNoCommand(s, q, text, false);
    case EditDraft(q) => DraftingTouchesNoCommand(s, q, "", false);
    case CancelActive(q) => DraftingTouchesNoCommand(s, q, "", false);
    case DismissQuestion(q) => DraftingTouchesNoCommand(s, q, "", false);
    case ReopenQuestion(q) => DraftingTouchesNoCommand(s, q, "", false);
    case EditText(q, text) => DraftingTouchesNoCommand(s, q, text, false);
    case _ =>
  }

  /** Every step that is not a worker run is quiet. */
  lemma StepIsQuiet(w: World, e: Event)
    requires !e.SendOnce? && !e.EditOnce?
    ensures Next(w, e) == w.(store := Next(w, e).store)
    ensures Quiet(w.store, Next(w, e).store)
  {
    var s := w.store;
    SameCommandsAreQuiet(s, s);
    match e
    case Confirm(q, now) => ConfirmationIsQuiet(s, q, now);
    case EditConfirm(q, now) => ConfirmationIsQuiet(s, q, now);
    case ManualRetry(c, now) =>
    case ClaimOnly(c, kind, now) => if Due(s, c, kind, now) { ClaimIsQuiet(s, c, now); }
    case Recover(staleBefore) => RecoveryIsQuiet(s, staleBefore);
    case _ =>
      SomeStepsTouchNoCommand(w, e);
      SameCommandsAreQuiet(s, Next(w, e).store);
  }

  lemma QuietStepKeepsLog(w: World, e: Event)
    requires LogSound(w) && !e.SendOnce? && !e.EditOnce?
    ensures LogSound(Next(w, e))
  {
    StepIsQuiet(w, e);
    QuietKeepsLog(w, Next(w, e).store);
  }

  lemma StepKeepsLog(w: World, e: Event)
    requires Sound(w.store) && LogSound(w)
    ensures LogSound(Next(w, e))
  {
    match e
    case SendOnce(c, now, check, answer) => SendRunKeepsLog(w, c, now, check, answer);
    case EditOnce(c, now, answer) => EditRunKeepsLog(w, c, now, answer);
    case _ => QuietStepKeepsLog(w, e);
  }

  lemma NothingLoggedIsSound()
    ensures LogSound(EMPTY)
  {
  }

  lemma {:induction false} AlwaysLogSound(h: seq<Event>)
    ensures Sound(After(h).store) && LogSound(After(h))
  {
    AlwaysSound(h);
    if h == [] {
      NothingLoggedIsSound();
    } else {
      AlwaysLogSound(h[..|h| - 1]);
      StepKeepsLog(After(h[..|h| - 1]), h[|h| - 1]);
    }
  }
}
