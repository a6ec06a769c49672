/** What each step of the outbound protocol writes, row by row and in terms of the rows alone. */
module OutboundOutcomes {
  import opened Wrappers
  import opened Outbound
  import opened OutboundInvariants
  import opened OutboundRuns
  import opened OutboundSafety

  // ----- Rows that stay -----

  /** Every row but command `c` and question `q` is as before. */
  ghost predicate ChangesAtMost(s: Store, t: Store, c: nat, q: nat) {
    && t.versions == s.versions && t.active == s.active
    && |t.questions| == |s.questions| && |t.commands| == |s.commands|
    && (forall d :: 0 <= d < |s.commands| && d != c ==> t.commands[d] == s.commands[d])
    && (forall p :: 0 <= p < |s.questions| && p != q ==> t.questions[p] == s.questions[p])
  }

  /** Question `q` is now `status`; no other question has changed, and `q` in nothing else. */
  ghost predicate Moves(before: seq<Question>, after: seq<Question>, q: nat, status: QuestionStatus) {
    && q < |before| == |after|
    && after[q] == before[q].(status := status)
    && forall p :: 0 <= p < |before| && p != q ==> after[p] == before[p]
  }

  /** No command has a negative count of attempts. */
  lemma {:induction false} AttemptsAreCounted(h: seq<Event>, c: nat)
    requires c < |After(h).store.commands|
    ensures After(h).store.commands[c].attempts >= 0
  {
    AlwaysLogSound(h);
    assert PlainRetries(After(h).retries, c) <= RetryBudget(After(h).store, c);
  }

  // ----- Claims -----

  /** A claim whose worker vanishes leaves a pending command that is due locked and counted, and touches no other. */
  lemma ClaimIsWritten(w: World, c: nat, kind: Kind, now: int)
    ensures var cs, r := w.store.commands, Next(w, ClaimOnly(c, kind, now));
            if c < |cs| && cs[c].kind == kind && cs[c].status == Pending && cs[c].nextAttemptAt <= now
            then r == w.(store := w.store.(commands :=
                           cs[c := cs[c].(status := Processing, attempts := cs[c].attempts + 1, lockedAt := Some(now))]))
            else r == w
  {
  }

  // ----- The send worker -----

  /** A pending send that is due, whose question requests it and has its destination. */
  predicate Sendable(s: Store, c: nat, now: int) {
    && c < |s.commands|
    && s.commands[c].kind == SendReply && s.commands[c].status == Pending && s.commands[c].nextAttemptAt <= now
    && s.commands[c].question < |s.questions|
    && s.questions[s.commands[c].question].status == SendRequested
    && s.questions[s.commands[c].question].to == s.commands[c].to
  }

  /** In every reachable state that is every pending send that is due. */
  lemma {:induction false} DueSendsAreSendable(h: seq<Event>, c: nat, now: int)
    requires Due(After(h).store, c, SendReply, now)
    ensures Sendable(After(h).store, c, now) && After(h).store.commands[c].attempts >= 0
  {
    AlwaysSound(h);
    LiveSendIsRequested(After(h).store, c);
    AttemptsAreCounted(h, c);
  }

  /** No other run of the send worker leaves a trace, nor does one whose check raises anything but a refusal. */
  lemma OtherSendRunsDoNothing(w: World, c: nat, now: int, check: Check, answer: SendAnswer)
    requires !Sendable(w.store, c, now) || check == Raises
    ensures Next(w, SendOnce(c, now, check, answer)) == w
  {
  }

  /** A check that refuses the chat or the source message fails the send at once: nothing is sent or scheduled. */
  lemma RefusedCheckFails(w: World, c: nat, now: int, code: ErrorCode, answer: SendAnswer)
    requires Sendable(w.store, c, now)
    ensures var before, r := w.store.commands[c], Next(w, SendOnce(c, now, Refuses(code), answer));
            && r.sends == w.sends && r.retries == w.retries && r.edits == w.edits
            && ChangesAtMost(w.store, r.store, c, before.question)
            && Moves(w.store.questions, r.store.questions, before.question, SendFailed)
            && r.store.commands[c] ==
               before.(status := Failed, attempts := before.attempts + 1, lockedAt := None, lastError := Some(code))
  {
  }

  /**
   * What the failure of a send that had failed `attempts` times before leaves: a retry after
   * Telegram's own delay or after 15, 60, 300 and 1800 seconds, a failed command, or one to review.
   */
  ghost predicate FailureWritten(w: World, r: World, c: nat, failure: SendFailure, now: int)
    requires c < |w.store.commands| && w.store.commands[c].attempts >= 0
  {
    var before := w.store.commands[c];
    var flood := failure.code == FloodWait;
    var tried := before.(attempts := before.attempts + 1, lockedAt := None, lastError := Some(failure.code));
    && r.edits == w.edits
    && ChangesAtMost(w.store, r.store, c, before.question)
    && (if failure.kind.Temporary? && (flood || before.attempts < 4) then
          var delay := if !flood then [15, 60, 300, 1800][before.attempts]
                       else if failure.kind.retryAfter.Some? then failure.kind.retryAfter.value else 0;
          && r.store.commands[c] == tried.(status := Pending, nextAttemptAt := now + delay)
          && r.store.questions == w.store.questions
          && r.retries == w.retries + [Retry(c, failure.code)]
        else
          && r.store.commands[c] == tried.(status := if failure.kind.Permanent? then Failed else NeedsReview)
          && Moves(w.store.questions, r.store.questions, before.question, SendFailed)
          && r.retries == w.retries)
  }

  lemma ErrorIsWritten(w: World, c: nat, sends: seq<Attempt>, failure: SendFailure, now: int)
    requires c < |w.store.commands| && w.store.commands[c].attempts >= 0
    requires w.store.commands[c].question < |w.store.questions|
    ensures var r := RecordError(w.(store := Claim(w.store, c, now), sends := sends), c, failure, now);
            FailureWritten(w, r, c, failure, now) && r.sends == sends
  {
  }

  /** A check that meets a temporary condition counts as a temporary failure of unknown cause; nothing is sent. */
  lemma TransientCheckIsRetried(w: World, c: nat, now: int, answer: SendAnswer)
    requires Sendable(w.store, c, now) && w.store.commands[c].attempts >= 0
    ensures var r := Next(w, SendOnce(c, now, Transient, answer));
            r.sends == w.sends && FailureWritten(w, r, c, SendFailure(UnknownError, Temporary(None)), now)
  {
    ErrorIsWritten(w, c, w.sends, SendFailure(UnknownError, Temporary(None)), now);
  }

  /** An attempt that Telegram refuses or leaves in doubt is logged once and written as its failure says. */
  lemma FailedSendIsWritten(w: World, c: nat, now: int, failure: SendFailure)
    requires Sendable(w.store, c, now) && w.store.commands[c].attempts >= 0
    ensures var before, r := w.store.commands[c], Next(w, SendOnce(c, now, Passed, SendError(failure)));
            var result := if failure.kind.Ambiguous? then Unknown(failure.kind.landed) else NotAccepted;
            && r.sends == w.sends + [Attempt(c, w.store.questions[before.question].to, before.text, result)]
            && FailureWritten(w, r, c, failure, now)
  {
    var before := w.store.commands[c];
    var result := if failure.kind.Ambiguous? then Unknown(failure.kind.landed) else NotAccepted;
    ErrorIsWritten(w, c, w.sends + [Attempt(c, before.to, before.text, result)], failure, now);
  }

  /** An accepted attempt finishes command and question together, with the id Telegram gave. */
  lemma AcceptedSendIsWritten(w: World, c: nat, now: int, id: int)
    requires Sendable(w.store, c, now)
    ensures var before, r := w.store.commands[c], Next(w, SendOnce(c, now, Passed, SendAccepted(id)));
            && r.sends == w.sends + [Attempt(c, w.store.questions[before.question].to, before.text, Accepted(id))]
            && r.retries == w.retries && r.edits == w.edits
            && ChangesAtMost(w.store, r.store, c, before.question)
            && Moves(w.store.questions, r.store.questions, before.question, Sent)
            && r.store.commands[c] ==
               before.(status := Succeeded, sentId := Some(id), attempts := before.attempts + 1, lockedAt := None,
                       completedAt := Some(now))
  {
  }

  /** An attempt whose transaction is lost leaves its trace at Telegram only. */
  lemma LostSendWritesNothing(w: World, c: nat, now: int, landed: bool)
    requires Sendable(w.store, c, now)
    ensures var before, r := w.store.commands[c], Next(w, SendOnce(c, now, Passed, SendLost(landed)));
            r == w.(sends := w.sends + [Attempt(c, w.store.questions[before.question].to, before.text, Lost(landed))])
  {
  }

  // ----- The edit worker -----

  /** A pending edit that is due. */
  predicate EditDue(s: Store, c: nat, now: int) {
    && c < |s.commands|
    && s.commands[c].kind == EditReply && s.commands[c].status == Pending && s.commands[c].nextAttemptAt <= now
  }

  /** Its question is sent, in the same chat, and the id of the message to edit is known. */
  predicate HasTarget(s: Store, c: nat)
    requires c < |s.commands|
  {
    && s.commands[c].sentId.Some?
    && s.commands[c].question < |s.questions|
    && s.questions[s.commands[c].question].status == Sent
    && s.questions[s.commands[c].question].to.chatId == s.commands[c].to.chatId
  }

  /** In every reachable state every edit has its target. */
  lemma {:induction false} EditsHaveTargets(h: seq<Event>, c: nat)
    requires c < |After(h).store.commands| && After(h).store.commands[c].kind == EditReply
    ensures HasTarget(After(h).store, c)
  {
    AlwaysSound(h);
    EditTargetIsValid(After(h).store, c);
  }

  /** The edit has failed with this code; no other row has changed. */
  ghost predicate EditFailed(w: World, r: World, c: nat, code: ErrorCode)
    requires c < |w.store.commands|
  {
    var before := w.store.commands[c];
    && r.store == w.store.(commands := r.store.commands)
    && r.store.commands == w.store.commands[c :=
         before.(status := Failed, attempts := before.attempts + 1, lockedAt := None, lastError := Some(code))]
  }

  /** One edit of the stored message with the command's text was attempted, and nothing else. */
  ghost predicate EditTried(w: World, r: World, c: nat)
    requires c < |w.store.commands| && HasTarget(w.store, c)
  {
    && r.edits == w.edits + [EditAttempt(c, w.store.commands[c].sentId.value, w.store.commands[c].text)]
    && r.sends == w.sends && r.retries == w.retries
  }

  /** An edit without its target fails untried; one that is not due is left alone. */
  lemma UntriedEditIsWritten(w: World, c: nat, now: int, answer: EditAnswer)
    requires !EditDue(w.store, c, now) || !HasTarget(w.store, c)
    ensures var r := Next(w, EditOnce(c, now, answer));
            if EditDue(w.store, c, now) then EditFailed(w, r, c, InvalidEditTarget) && r == w.(store := r.store) else r == w
  {
  }

  /** A refused edit fails: the question stays sent, and its versions and all other commands stay as they were. */
  lemma RefusedEditFails(w: World, c: nat, now: int, code: ErrorCode)
    requires EditDue(w.store, c, now) && HasTarget(w.store, c)
    ensures var r := Next(w, EditOnce(c, now, EditError(code))); EditTried(w, r, c) && EditFailed(w, r, c, code)
  {
  }

  /**
   * An accepted edit appends its text as a final version and succeeds, unless a version of that
   * number exists: then the tables stay as they were.
   */
  lemma AcceptedEditIsWritten(w: World, c: nat, now: int)
    requires EditDue(w.store, c, now) && HasTarget(w.store, c)
    ensures var s, r := w.store, Next(w, EditOnce(c, now, EditAccepted));
            var before := s.commands[c];
            && EditTried(w, r, c)
            && (if exists i :: 0 <= i < |s.versions| && s.versions[i].question == before.question
                               && s.versions[i].number == before.replyVersion
                then r.store == s
                else
                  && r.store.questions == s.questions && r.store.active == s.active
                  && r.store.versions == s.versions + [Version(before.question, before.replyVersion, before.text, FinalEdited)]
                  && r.store.commands == s.commands[c :=
                       before.(status := Succeeded, attempts := before.attempts + 1, lockedAt := None, completedAt := Some(now))])
  {
  }

  /** An edit whose transaction is lost leaves its trace at Telegram only. */
  lemma LostEditWritesNothing(w: World, c: nat, now: int)
    requires EditDue(w.store, c, now) && HasTarget(w.store, c)
    ensures var r := Next(w, EditOnce(c, now, EditLost)); EditTried(w, r, c) && r.store == w.store
  {
  }

  /**
   * The operator may retry exactly a failed edit of a stored message whose error is of unknown
   * cause; it is due at once.
   */
  lemma ManualRetryIsWritten(w: World, c: nat, now: int)
    ensures var cs, r := w.store.commands, Next(w, ManualRetry(c, now));
            if c < |cs| && cs[c].kind == EditReply && cs[c].status == Failed && cs[c].sentId.Some?
               && cs[c].lastError == Some(UnknownError)
            then r == w.(store := w.store.(commands :=
                           cs[c := cs[c].(status := Pending, nextAttemptAt := now, lockedAt := None)]))
            else r == w
  {
  }

  // ----- Stale claims -----

  /** A claim made before the cutoff. */
  predicate ClaimedBefore(c: Command, cutoff: int) {
    match c.lockedAt
    case None => false
    case Some(time) => c.status == Processing && time < cutoff
  }

  /**
   * Recovery sends exactly the claims made before the cutoff to review, and fails exactly the
   * questions of the sends among them; younger claims and all else stay.
   */
  lemma RecoveryIsWritten(w: World, cutoff: int)
    ensures var s, r := w.store, Next(w, Recover(cutoff));
            var t := r.store;
            && r == w.(store := t) && t.versions == s.versions && t.active == s.active
            && |t.commands| == |s.commands| && |t.questions| == |s.questions|
            && (forall c :: 0 <= c < |s.commands| ==>
                  t.commands[c] == if ClaimedBefore(s.commands[c], cutoff)
                                   then s.commands[c].(status := NeedsReview, lockedAt := None, lastError := Some(StaleLockRecovered))
                                   else s.commands[c])
            && (forall q :: 0 <= q < |s.questions| ==>
                  t.questions[q] == if exists c :: 0 <= c < |s.commands| && s.commands[c].kind == SendReply
                                                   && s.commands[c].question == q && ClaimedBefore(s.commands[c], cutoff)
                                    then s.questions[q].(status := SendFailed) else s.questions[q])
  {
    var s := w.store;
    assert forall c :: 0 <= c < |s.commands| ==> (Stale(s.commands[c], cutoff) <==> ClaimedBefore(s.commands[c], cutoff));
  }

  // ----- Questions and feedback -----

  lemma DetectionIsWritten(w: World, chat: int, to: Destination)
    ensures Next(w, Detect(chat, to)) ==
            w.(store := w.store.(questions := w.store.questions + [Question(Detected, Some(chat), to)]))
  {
  }

  /** Removing a chat detaches exactly its questions. */
  lemma RemovalDetaches(w: World, chat: int)
    ensures var s, r := w.store, Next(w, RemoveChat(chat));
            && r == w.(store := s.(questions := r.store.questions)) && |r.store.questions| == |s.questions|
            && forall q :: 0 <= q < |s.questions| ==>
                 && r.store.questions[q].status == s.questions[q].status && r.store.questions[q].to == s.questions[q].to
                 && r.store.questions[q].chat == if s.questions[q].chat == Some(chat) then None else s.questions[q].chat
  {
  }

  /** Exactly a detected question can be dismissed, and exactly a dismissed one reopened. */
  lemma FeedbackIsWritten(w: World, q: nat)
    ensures var s, dismissed, reopened := w.store, Next(w, DismissQuestion(q)), Next(w, ReopenQuestion(q));
            && (if q < |s.questions| && s.questions[q].status == Detected
                then Moves(s.questions, dismissed.store.questions, q, Dismissed)
                     && dismissed == w.(store := s.(questions := dismissed.store.questions))
                else dismissed == w)
            && (if q < |s.questions| && s.questions[q].status == Dismissed
                then Moves(s.questions, reopened.store.questions, q, Detected)
                     && reopened == w.(store := s.(questions := reopened.store.questions))
                else reopened == w)
  {
  }

  /** A repeated dismissal or reopening is accepted without a change; from any other status both are refused. */
  lemma FeedbackIsAnswered(s: Store, q: nat)
    ensures Dismiss(s, q).Some? <==> q < |s.questions| && s.questions[q].status in {Detected, Dismissed}
    ensures Reopen(s, q).Some? <==> q < |s.questions| && s.questions[q].status in {Detected, Dismissed}
    ensures CancelDraft(s, q).Some? <==>
              q < |s.questions| && s.questions[q].status in {WaitingForDraft, WaitingConfirmation, Cancelled}
  {
  }

  // ----- Drafting -----

  /**
   * Opening is refused without a trace while another question is active and is not to be replaced.
   * Otherwise that question's open draft is cancelled, the opened one waits for a draft if its
   * status allows, and it is the active one if its chat row exists too.
   */
  lemma OpeningIsWritten(w: World, q: nat, replace: bool)
    ensures var s, r := w.store, Next(w, Open(q, replace));
            var t, openable := r.store, {Detected, WaitingForDraft, WaitingConfirmation};
            && r == w.(store := t) && t.versions == s.versions && t.commands == s.commands
            && |t.questions| == |s.questions|
            && (if s.active.Some? && s.active.value != q && !replace then t == s
                else
                  && (forall p :: 0 <= p < |s.questions| ==>
                        t.questions[p] ==
                        if p == q && s.questions[p].status in openable then s.questions[p].(status := WaitingForDraft)
                        else if p != q && s.active == Some(p) && s.questions[p].status in {WaitingForDraft, WaitingConfirmation}
                        then s.questions[p].(status := Cancelled)
                        else s.questions[p])
                  && t.active == if q < |s.questions| && s.questions[q].status in openable && s.questions[q].chat.Some?
                                 then Some(q) else s.active)
  {
  }

  /** A draft is stored, as the next version, exactly for the active question while it waits for one and its chat row exists. */
  lemma DraftIsWritten(w: World, q: nat, text: string)
    requires Numbered(w.store.versions)
    ensures var s, r := w.store, Next(w, DraftText(q, text));
            if s.active == Some(q) && q < |s.questions| && s.questions[q].status == WaitingForDraft && s.questions[q].chat.Some?
            then
              && r == w.(store := s.(questions := r.store.questions, versions := r.store.versions))
              && r.store.versions == s.versions + [Version(q, Count(s.versions, q) + 1, text, Draft)]
              && Moves(s.questions, r.store.questions, q, WaitingConfirmation)
            else r == w
  {
    LatestIsCount(w.store.versions, q);
    TakenNumbersAreOneToN(w.store.versions, q, Count(w.store.versions, q) + 1);
  }

  /** The active question's preview is reopened for editing exactly while it awaits confirmation. */
  lemma EditingIsWritten(w: World, q: nat)
    ensures var s, r := w.store, Next(w, EditDraft(q));
            if s.active == Some(q) && q < |s.questions| && s.questions[q].status == WaitingConfirmation
            then r == w.(store := s.(questions := r.store.questions)) && Moves(s.questions, r.store.questions, q, WaitingForDraft)
            else r == w
  {
  }

  /** Cancelling ends the active question's draft and clears the session together. */
  lemma CancellationIsWritten(w: World, q: nat)
    ensures var s, r := w.store, Next(w, CancelActive(q));
            if s.active == Some(q) && q < |s.questions|
               && s.questions[q].status in {WaitingForDraft, WaitingConfirmation, Cancelled}
            then
              && r == w.(store := s.(questions := r.store.questions, active := None))
              && Moves(s.questions, r.store.questions, q, Cancelled)
            else r == w
  {
  }
}
