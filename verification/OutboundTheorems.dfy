/** What the outbound protocol promises of every run. */
module OutboundTheorems {
  import opened Wrappers
  import opened Outbound
  import opened OutboundInvariants
  import opened OutboundRuns
  import opened OutboundSafety

  // ----- At most one send per question -----

  function QuestionOf(w: World, i: nat): nat
    requires i < |w.sends| && w.sends[i].command < |w.store.commands|
  {
    w.store.commands[w.sends[i].command].question
  }

  lemma OneCommandPerQuestion(s: Store, c: nat, d: nat)
    requires Sound(s) && c < |s.commands| && d < |s.commands|
    requires s.commands[c].kind == s.commands[d].kind == SendReply && s.commands[c].question == s.commands[d].question
    ensures c == d
  {
  }

  /** Every send that was attempted in the run belongs to a transaction that completed. */
  ghost predicate Completes(h: seq<Event>) {
    forall i :: 0 <= i < |h| && h[i].SendOnce? ==> !h[i].sendAnswer.SendLost?
  }

  lemma SendRunLogs(w: World, c: nat, now: int, check: Check, answer: SendAnswer)
    ensures var r := SendRun(w, c, now, check, answer);
            r.sends == w.sends
            || (|r.sends| == |w.sends| + 1 && r.sends[..|w.sends|] == w.sends && r.sends[|w.sends|].result == SendResult(answer))
  {
  }

  lemma EditRunLogs(w: World, c: nat, now: int, answer: EditAnswer)
    ensures EditRun(w, c, now, answer).sends == w.sends
  {
  }

  lemma {:induction false} NothingIsLost(h: seq<Event>, i: nat)
    requires Completes(h) && i < |After(h).sends|
    ensures !After(h).sends[i].result.Lost?
  {
    var init, w, e := h[..|h| - 1], After(h[..|h| - 1]), h[|h| - 1];
    match e
    {
      case SendOnce(c, now, check, answer) => SendRunLogs(w, c, now, check, answer);
      case EditOnce(c, now, answer) => EditRunLogs(w, c, now, answer);
      case _ => StepIsQuiet(w, e);
    }
    if i < |w.sends| {
      NothingIsLost(init, i);
    }
  }

  /**
   * Of all attempts ever made for one question, every attempt but the last was refused or lost with
   * its transaction. Where no transaction is lost, Telegram so accepts at most one, and an attempt
   * in doubt is never followed by another.
   */
  lemma {:induction false} OnlyTheLastAttemptMayLand(h: seq<Event>, i: nat, j: nat)
    requires i < j < |After(h).sends|
    ensures After(h).sends[i].command < |After(h).store.commands| && After(h).sends[j].command < |After(h).store.commands|
    ensures QuestionOf(After(h), i) == QuestionOf(After(h), j) ==>
              LeavesOpen(After(h).sends[i].result) && (Completes(h) ==> After(h).sends[i].result == NotAccepted)
  {
    var w := After(h);
    AlwaysLogSound(h);
    assert Faithful(w.store, w.sends[i]) && Faithful(w.store, w.sends[j]);
    if QuestionOf(w, i) == QuestionOf(w, j) {
      OneCommandPerQuestion(w.store, w.sends[i].command, w.sends[j].command);
      if Completes(h) {
        NothingIsLost(h, i);
      }
    }
  }

  ghost predicate AcceptedFor(w: World, q: nat, id: int) {
    exists i :: 0 <= i < |w.sends| && w.sends[i].command < |w.store.commands|
                && QuestionOf(w, i) == q && w.sends[i].result == Accepted(id)
  }

  lemma AcceptedMeansStored(w: World, q: nat, i: nat)
    requires AttemptsLogged(w.store, w.sends) && OneSendEach(w.store.commands)
    requires i < |w.sends| && w.sends[i].result.Accepted?
    requires w.sends[i].command < |w.store.commands| && QuestionOf(w, i) == q
    ensures StoredSentId(w.store.commands, q) == Some(w.sends[i].result.messageId)
  {
  }

  lemma StoredMeansAccepted(w: World, q: nat)
    requires SuccessIsAccepted(w.store, w.sends)
    requires StoredSentId(w.store.commands, q).Some?
    ensures AcceptedFor(w, q, StoredSentId(w.store.commands, q).value)
  {
  }

  lemma SentMeansStored(s: Store, q: nat)
    requires AllCoupled(s) && q < |s.questions|
    ensures s.questions[q].status == Sent <==> StoredSentId(s.commands, q).Some?
  {
    assert Coupled(s, q);
  }

  /** A question is SENT exactly when Telegram accepted a send for it, and its id is what the row stores. */
  lemma {:induction false} SentExactlyWhenAccepted(h: seq<Event>, q: nat)
    requires q < |After(h).store.questions|
    ensures var w := After(h);
            && (w.store.questions[q].status == Sent <==> exists id :: AcceptedFor(w, q, id))
            && (forall id :: AcceptedFor(w, q, id) ==> StoredSentId(w.store.commands, q) == Some(id))
  {
    var w := After(h);
    AlwaysLogSound(h);
    SentMeansStored(w.store, q);
    if w.store.questions[q].status == Sent {
      StoredMeansAccepted(w, q);
    }
    forall id | AcceptedFor(w, q, id) ensures StoredSentId(w.store.commands, q) == Some(id) {
      var i :| 0 <= i < |w.sends| && w.sends[i].command < |w.store.commands|
               && QuestionOf(w, i) == q && w.sends[i].result == Accepted(id);
      AcceptedMeansStored(w, q, i);
    }
  }

  /** At most four retries per command that Telegram did not itself schedule. */
  lemma {:induction false} AtMostFourPlainRetries(h: seq<Event>, c: nat)
    ensures PlainRetries(After(h).retries, c) <= 4
  {
    AlwaysLogSound(h);
    assert PlainRetries(After(h).retries, c) <= RetryBudget(After(h).store, c);
  }

  // ----- Texts -----

  /** A text that is a stored final version of the question and equal to the draft just before it. */
  ghost predicate IsConfirmedFinal(s: Store, q: nat, number: int, text: string) {
    HasRow(s.versions, Version(q, number, text, FinalSent)) && HasRow(s.versions, Version(q, number - 1, text, Draft))
  }

  ghost predicate SendsConfirmedText(s: Store, a: Attempt) {
    && a.command < |s.commands|
    && s.commands[a.command].question < |s.questions|
    && a.to == s.questions[s.commands[a.command].question].to
    && IsConfirmedFinal(s, s.commands[a.command].question, s.commands[a.command].replyVersion, a.text)
  }

  lemma LoggedAttemptIsConfirmed(s: Store, a: Attempt)
    requires AllRooted(s) && Faithful(s, a)
    ensures SendsConfirmedText(s, a)
  {
  }

  /** Every send goes to its question's own message with the text frozen at confirmation. */
  lemma {:induction false} EverySendIsConfirmedText(h: seq<Event>, i: nat)
    requires i < |After(h).sends|
    ensures SendsConfirmedText(After(h).store, After(h).sends[i])
  {
    AlwaysLogSound(h);
    assert Faithful(After(h).store, After(h).sends[i]);
    LoggedAttemptIsConfirmed(After(h).store, After(h).sends[i]);
  }

  /** An edit with a stored draft's text on the very message Telegram accepted for the question. */
  ghost predicate EditsAcceptedMessage(w: World, e: EditAttempt) {
    && e.command < |w.store.commands|
    && (var c := w.store.commands[e.command];
        && HasRow(w.store.versions, Version(c.question, c.replyVersion - 1, e.text, Draft))
        && AcceptedFor(w, c.question, e.messageId))
  }

  lemma LoggedEditIsOnTarget(w: World, e: EditAttempt)
    requires AllRooted(w.store) && AllAimed(w.store) && EditLogged(w.store, e)
    requires SuccessIsAccepted(w.store, w.sends)
    ensures EditsAcceptedMessage(w, e)
  {
  }

  lemma {:induction false} EveryEditIsOnTarget(h: seq<Event>, i: nat)
    requires i < |After(h).edits|
    ensures EditsAcceptedMessage(After(h), After(h).edits[i])
  {
    AlwaysLogSound(h);
    assert EditLogged(After(h).store, After(h).edits[i]);
    LoggedEditIsOnTarget(After(h), After(h).edits[i]);
  }

  /** Version numbers of every question are 1..n, each taken exactly once. */
  lemma {:induction false} VersionNumbersAreOneToN(h: seq<Event>, q: nat)
    ensures var versions := After(h).store.versions;
            && (forall n :: VersionTaken(versions, q, n) <==> 1 <= n <= LatestNumber(versions, q))
            && (forall i, j :: 0 <= i < j < |versions| && versions[i].question == versions[j].question ==>
                  versions[i].number < versions[j].number)
  {
    var versions := After(h).store.versions;
    AlwaysSound(h);
    LatestIsCount(versions, q);
    forall n ensures VersionTaken(versions, q, n) <==> 1 <= n <= LatestNumber(versions, q) {
      TakenNumbersAreOneToN(versions, q, n);
    }
    forall i, j | 0 <= i < j < |versions| && versions[i].question == versions[j].question
      ensures versions[i].number < versions[j].number
    {
      CountGrows(versions, i, j);
    }
  }

  lemma {:induction false} CountGrows(versions: seq<Version>, i: nat, j: nat)
    requires i < j <= |versions|
    ensures Count(versions[..i], versions[i].question) < Count(versions[..j], versions[i].question)
  {
    assert versions[..j][..j - 1] == versions[..j - 1];
    if i < j - 1 {
      CountGrows(versions, i, j - 1);
    }
  }

  // ----- What no later step undoes -----

  /** A send that has succeeded, failed or gone to review is final. */
  ghost predicate Settles(c: Command, d: Command) {
    c.kind == SendReply && c.status in {Succeeded, Failed, NeedsReview} ==> d.status == c.status && d.sentId == c.sentId
  }

  ghost predicate Continues(s: Store, t: Store) {
    && |s.questions| <= |t.questions|
    && s.versions <= t.versions
    && |s.commands| <= |t.commands|
    && (forall c :: 0 <= c < |s.commands| ==> SameIdentity(s.commands[c], t.commands[c]))
    && (forall c :: 0 <= c < |s.commands| ==> Settles(s.commands[c], t.commands[c]))
  }

  lemma OneOpenCommandMoves(s: Store, t: Store, c: nat, d: Command)
    requires c < |s.commands| && SameIdentity(s.commands[c], d)
    requires s.commands[c].kind == SendReply ==> s.commands[c].status == Pending
    requires t.commands == s.commands[c := d] && s.versions <= t.versions && |s.questions| == |t.questions|
    ensures Continues(s, t)
  {
  }

  lemma RecordErrorChangesOneCommand(w: World, c: nat, failure: SendFailure, now: int)
    requires c < |w.store.commands| && w.store.commands[c].question < |w.store.questions|
    ensures var s, t := w.store, RecordError(w, c, failure, now).store;
            && c < |t.commands| && t.commands == s.commands[c := t.commands[c]]
            && SameIdentity(s.commands[c], t.commands[c])
            && s.versions == t.versions && |s.questions| == |t.questions|
  {
  }

  lemma SendRunChangesOneCommand(w: World, c: nat, now: int, check: Check, answer: SendAnswer)
    requires Due(w.store, c, SendReply, now)
    ensures var s, t := w.store, SendRun(w, c, now, check, answer).store;
            && c < |t.commands| && t.commands == s.commands[c := t.commands[c]]
            && SameIdentity(s.commands[c], t.commands[c])
            && s.versions == t.versions && |s.questions| == |t.questions|
  {
    var claimed := w.(store := Claim(w.store, c, now));
    if DestinationMatches(claimed.store, c) {
      match check
      case Raises =>
      case Refuses(code) => RecordErrorChangesOneCommand(claimed, c, SendFailure(code, Permanent), now);
      case Transient => RecordErrorChangesOneCommand(claimed, c, SendFailure(UnknownError, Temporary(None)), now);
      case Passed =>
        var command := claimed.store.commands[c];
        var sent := claimed.(sends := w.sends + [Attempt(c, command.to, command.text, SendResult(answer))]);
        match answer
        case SendError(failure) => RecordErrorChangesOneCommand(sent, c, failure, now);
        case SendAccepted(id) =>
        case SendLost(_) =>
    }
  }

  lemma SendRunContinues(w: World, c: nat, now: int, check: Check, answer: SendAnswer)
    ensures Continues(w.store, SendRun(w, c, now, check, answer).store)
  {
    if Due(w.store, c, SendReply, now) {
      SendRunChangesOneCommand(w, c, now, check, answer);
      var t := SendRun(w, c, now, check, answer).store;
      OneOpenCommandMoves(w.store, t, c, t.commands[c]);
    }
  }

  lemma EditRunContinues(w: World, c: nat, now: int, answer: EditAnswer)
    ensures Continues(w.store, EditRun(w, c, now, answer).store)
  {
  }

  lemma OtherStepsKeepHistory(w: World, e: Event)
    requires !e.SendOnce? && !e.EditOnce?
    ensures |w.store.questions| <= |Next(w, e).store.questions| && w.store.versions <= Next(w, e).store.versions
  {
  }

  lemma QuietContinues(s: Store, t: Store)
    requires Quiet(s, t) && |s.questions| <= |t.questions| && s.versions <= t.versions
    ensures Continues(s, t)
  {
    forall c | 0 <= c < |s.commands|
      ensures SameIdentity(s.commands[c], t.commands[c]) && Settles(s.commands[c], t.commands[c])
    {
      assert Evolves(s.commands[c], t.commands[c]) && Undisturbed(s.commands[c], t.commands[c]);
    }
  }

  lemma StepContinues(w: World, e: Event)
    ensures Continues(w.store, Next(w, e).store)
  {
    match e
    case SendOnce(c, now, check, answer) => SendRunContinues(w, c, now, check, answer);
    case EditOnce(c, now, answer) => EditRunContinues(w, c, now, answer);
    case _ =>
      StepIsQuiet(w, e);
      OtherStepsKeepHistory(w, e);
      QuietContinues(w.store, Next(w, e).store);
  }

  lemma ContinuesTransitive(s: Store, t: Store, u: Store)
    requires Continues(s, t) && Continues(t, u)
    ensures Continues(s, u)
  {
  }

  lemma InitOfMore<T>(h: seq<T>, more: seq<T>)
    requires more != []
    ensures h + more != [] && (h + more)[|h + more| - 1] == more[|more| - 1]
    ensures (h + more)[..|h + more| - 1] == h + more[..|more| - 1]
  {
  }

  lemma {:induction false} AfterMore(h: seq<Event>, more: seq<Event>)
    ensures more == [] ==> After(h + more) == After(h)
    ensures more != [] ==> After(h + more) == Next(After(h + more[..|more| - 1]), more[|more| - 1])
  {
    if more == [] {
      assert h + more == h;
    } else {
      InitOfMore(h, more);
    }
  }

  /** Histories are append-only: versions are never changed, nor a command's text, target or final outcome. */
  lemma {:induction false} HistoryIsAppendOnly(h: seq<Event>, more: seq<Event>)
    ensures Continues(After(h).store, After(h + more).store)
  {
    AfterMore(h, more);
    if more != [] {
      var init := more[..|more| - 1];
      HistoryIsAppendOnly(h, init);
      StepContinues(After(h + init), more[|more| - 1]);
      ContinuesTransitive(After(h).store, After(h + init).store, After(h + more).store);
    }
  }

  lemma OutcomeCarriesOver(s: Store, t: Store, q: nat)
    requires q < |s.questions| <= |t.questions| && Coupled(s, q) && Coupled(t, q)
    requires s.questions[q].status in {Sent, SendFailed}
    requires OneSendEach(t.commands) && |s.commands| <= |t.commands|
    requires forall c :: 0 <= c < |s.commands| ==> SameIdentity(s.commands[c], t.commands[c])
    requires forall c :: 0 <= c < |s.commands| ==> Settles(s.commands[c], t.commands[c])
    ensures t.questions[q].status == s.questions[q].status
    ensures StoredSentId(t.commands, q) == StoredSentId(s.commands, q)
  {
  }

  /** SENT and SEND_FAILED are absorbing, and the stored message id never changes. */
  lemma {:induction false} SendOutcomeIsAbsorbing(h: seq<Event>, more: seq<Event>, q: nat)
    requires HasStatus(After(h).store, q, {Sent, SendFailed})
    ensures var s, t := After(h).store, After(h + more).store;
            && q < |t.questions| && t.questions[q].status == s.questions[q].status
            && StoredSentId(t.commands, q) == StoredSentId(s.commands, q)
  {
    AlwaysSound(h);
    AlwaysSound(h + more);
    HistoryIsAppendOnly(h, more);
    OutcomeCarriesOver(After(h).store, After(h + more).store, q);
  }

  // ----- Repeated confirmations -----

  /** Confirming a send again returns the same command and adds nothing. */
  lemma RepeatedConfirmAddsNothing(s: Store, q: nat, now: int, later: int)
    requires Sound(s) && ConfirmSend(s, q, now).Some?
    ensures var (t, confirmed) := ConfirmSend(s, q, now).value;
            && ConfirmSend(t, q, later) == Some((t, confirmed.(created := false)))
            && (confirmed.created ==>
                  && LatestRow(s.versions, q).Some?
                  && confirmed.text == LatestRow(s.versions, q).value.text
                  && t.commands[confirmed.command].text == confirmed.text)
  {
  }

  lemma RepeatedEditConfirmAddsNothing(s: Store, q: nat, now: int, later: int)
    requires Sound(s) && ConfirmEdit(s, q, now).Some?
    ensures var (t, confirmed) := ConfirmEdit(s, q, now).value;
            && ConfirmEdit(t, q, later) == Some((t, confirmed.(created := false)))
            && LatestRow(s.versions, q).Some?
            && (confirmed.created ==> confirmed.text == LatestRow(s.versions, q).value.text)
  {
  }
}
