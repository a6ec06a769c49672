/** How often a send is attempted, against how often a retry was scheduled. */
module OutboundAttempts {
  import opened Wrappers
  import opened Outbound
  import opened OutboundInvariants
  import opened OutboundRuns
  import opened OutboundSafety
  import opened OutboundTheorems

  /** Attempts on the command whose transaction completed. */
  function AttemptCount(sends: seq<Attempt>, c: nat): nat {
    if sends == [] then 0
    else
      var last := sends[|sends| - 1];
      AttemptCount(sends[..|sends| - 1], c) + if last.command == c && !last.result.Lost? then 1 else 0
  }

  /** Retries scheduled for the command, flood waits included. */
  function RetryCount(retries: seq<Retry>, c: nat): nat {
    if retries == [] then 0
    else RetryCount(retries[..|retries| - 1], c) + if retries[|retries| - 1].command == c then 1 else 0
  }

  function FloodCount(retries: seq<Retry>, c: nat): nat {
    if retries == [] then 0
    else
      var last := retries[|retries| - 1];
      FloodCount(retries[..|retries| - 1], c) + if last.command == c && last.code == FloodWait then 1 else 0
  }

  lemma {:induction false} RetriesArePlainOrFlood(retries: seq<Retry>, c: nat)
    ensures RetryCount(retries, c) == PlainRetries(retries, c) + FloodCount(retries, c)
  {
    if retries != [] {
      RetriesArePlainOrFlood(retries[..|retries| - 1], c);
    }
  }

  lemma AttemptCountSnoc(sends: seq<Attempt>, a: Attempt, c: nat)
    ensures AttemptCount(sends + [a], c) == AttemptCount(sends, c) + if a.command == c && !a.result.Lost? then 1 else 0
  {
    assert (sends + [a])[..|sends|] == sends;
  }

  lemma RetryCountSnoc(retries: seq<Retry>, r: Retry, c: nat)
    ensures RetryCount(retries + [r], c) == RetryCount(retries, c) + if r.command == c then 1 else 0
  {
    assert (retries + [r])[..|retries|] == retries;
  }

  /** A decided send may have had one attempt that scheduled nothing. */
  function Decisions(s: Store, c: nat): nat {
    if c < |s.commands| && s.commands[c].kind == SendReply && s.commands[c].status in {Succeeded, Failed, NeedsReview}
    then 1 else 0
  }

  ghost predicate WithinSchedule(w: World, c: nat) {
    AttemptCount(w.sends, c) <= RetryCount(w.retries, c) + Decisions(w.store, c)
  }

  lemma QuietKeepsSchedule(w: World, t: Store, c: nat)
    requires WithinSchedule(w, c) && Quiet(w.store, t)
    ensures WithinSchedule(w.(store := t), c)
  {
    if c < |w.store.commands| {
      assert Evolves(w.store.commands[c], t.commands[c]) && Undisturbed(w.store.commands[c], t.commands[c]);
    }
  }

  /** A recorded failure either schedules a retry or decides the command. */
  lemma ErrorSchedulesOrDecides(w: World, c: nat, failure: SendFailure, now: int)
    requires c < |w.store.commands| && w.store.commands[c].question < |w.store.questions|
    requires w.store.commands[c].kind == SendReply
    ensures var r := RecordError(w, c, failure, now);
            && r.sends == w.sends
            && ((r.retries == w.retries && Decisions(r.store, c) == 1) || r.retries == w.retries + [Retry(c, failure.code)])
            && (forall d: nat :: d != c ==> Decisions(r.store, d) == Decisions(w.store, d))
  {
  }

  lemma ClaimDecidesNothing(s: Store, c: nat, now: int, d: nat)
    requires c < |s.commands| && s.commands[c].status == Pending
    ensures Decisions(Claim(s, c, now), d) == Decisions(s, d)
  {
  }

  /** One more attempt on `c` is paid for by a retry or a decision. */
  lemma OneMoreAttempt(w: World, r: World, c: nat, retry: Retry, d: nat)
    requires WithinSchedule(w, d) && retry.command == c && Decisions(w.store, c) == 0
    requires AttemptCount(r.sends, d) <= AttemptCount(w.sends, d) + if d == c then 1 else 0
    requires (r.retries == w.retries && Decisions(r.store, c) == 1) || r.retries == w.retries + [retry]
    requires d != c ==> Decisions(r.store, d) == Decisions(w.store, d)
    ensures WithinSchedule(r, d)
  {
    RetryCountSnoc(w.retries, retry, d);
  }

  lemma FailedRunKeepsSchedule(w: World, c: nat, sends: seq<Attempt>, failure: SendFailure, now: int, d: nat)
    requires WithinSchedule(w, d) && Due(w.store, c, SendReply, now) && w.store.commands[c].question < |w.store.questions|
    requires AttemptCount(sends, d) <= AttemptCount(w.sends, d) + if d == c then 1 else 0
    ensures WithinSchedule(RecordError(w.(store := Claim(w.store, c, now), sends := sends), c, failure, now), d)
  {
    var claimed := w.(store := Claim(w.store, c, now), sends := sends);
    ClaimDecidesNothing(w.store, c, now, d);
    ErrorSchedulesOrDecides(claimed, c, failure, now);
    OneMoreAttempt(w, RecordError(claimed, c, failure, now), c, Retry(c, failure.code), d);
  }

  lemma AcceptedRunKeepsSchedule(w: World, c: nat, id: int, now: int, d: nat)
    requires WithinSchedule(w, d) && Due(w.store, c, SendReply, now)
    requires CompleteSend(Claim(w.store, c, now), c, id, now).Some?
    ensures var command := w.store.commands[c];
            WithinSchedule(w.(store := CompleteSend(Claim(w.store, c, now), c, id, now).value,
                              sends := w.sends + [Attempt(c, command.to, command.text, Accepted(id))]), d)
  {
    var command := w.store.commands[c];
    AttemptCountSnoc(w.sends, Attempt(c, command.to, command.text, Accepted(id)), d);
  }

  lemma SendRunKeepsSchedule(w: World, c: nat, now: int, check: Check, answer: SendAnswer, d: nat)
    requires Sound(w.store) && WithinSchedule(w, d)
    ensures WithinSchedule(SendRun(w, c, now, check, answer), d)
  {
    if Due(w.store, c, SendReply, now) {
      LiveSendIsRequested(w.store, c);
      var command := w.store.commands[c];
      AttemptCountSnoc(w.sends, Attempt(c, command.to, command.text, SendResult(answer)), d);
      match check
      case Raises =>
      case Refuses(code) => FailedRunKeepsSchedule(w, c, w.sends, SendFailure(code, Permanent), now, d);
      case Transient => FailedRunKeepsSchedule(w, c, w.sends, SendFailure(UnknownError, Temporary(None)), now, d);
      case Passed =>
        match answer
        case SendError(failure) =>
          FailedRunKeepsSchedule(
            w, c, w.sends + [Attempt(c, command.to, command.text, SendResult(answer))], failure, now, d);
        case SendAccepted(id) =>
          ClaimKeepsSound(w.store, c, now);
          CompleteSendSucceeds(Claim(w.store, c, now), c, id, now);
          AcceptedRunKeepsSchedule(w, c, id, now, d);
        case SendLost(_) =>
    }
  }

  lemma EditRunKeepsSchedule(w: World, c: nat, now: int, answer: EditAnswer, d: nat)
    requires Sound(w.store) && WithinSchedule(w, d)
    ensures WithinSchedule(EditRun(w, c, now, answer), d)
  {
    if Due(w.store, c, EditReply, now) {
      EditRunOutcome(w, c, now, answer);
      EditRunChangesOneCommand(w, c, now, answer);
    }
  }

  lemma StepKeepsSchedule(w: World, e: Event, c: nat)
    requires Sound(w.store) && WithinSchedule(w, c)
    ensures WithinSchedule(Next(w, e), c)
  {
    match e
    case SendOnce(d, now, check, answer) => SendRunKeepsSchedule(w, d, now, check, answer, c);
    case EditOnce(d, now, answer) => EditRunKeepsSchedule(w, d, now, answer, c);
    case _ =>
      StepIsQuiet(w, e);
      QuietKeepsSchedule(w, Next(w, e).store, c);
  }

  lemma {:induction false} AlwaysWithinSchedule(h: seq<Event>, c: nat)
    ensures WithinSchedule(After(h), c)
  {
    if h != [] {
      AlwaysSound(h[..|h| - 1]);
      AlwaysWithinSchedule(h[..|h| - 1], c);
      StepKeepsSchedule(After(h[..|h| - 1]), h[|h| - 1], c);
    }
  }

  /**
   * The sends attempted for a command, in transactions that completed, are at most one more than the
   * retries scheduled for it; so at most five and one more for each flood wait.
   */
  lemma {:induction false} AttemptsAreBounded(h: seq<Event>, c: nat)
    ensures AttemptCount(After(h).sends, c) <= RetryCount(After(h).retries, c) + 1
    ensures AttemptCount(After(h).sends, c) <= 5 + FloodCount(After(h).retries, c)
  {
    AlwaysWithinSchedule(h, c);
    RetriesArePlainOrFlood(After(h).retries, c);
    AtMostFourPlainRetries(h, c);
  }
}
