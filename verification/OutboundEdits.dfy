/** Overlapping edits: when an accepted edit cannot be completed. */
module OutboundEdits {
  import opened Wrappers
  import opened Outbound
  import opened OutboundInvariants
  import opened OutboundRuns
  import opened OutboundSafety
  import opened OutboundTheorems

  lemma {:induction false} FinalRowIsFound(versions: seq<Version>, v: Version)
    requires HasRow(versions, v) && v.action != Draft
    ensures LatestFinal(versions, v.question).Some?
  {
    var last := |versions| - 1;
    if versions[last] != v {
      assert v in versions[..last];
      FinalRowIsFound(versions[..last], v);
    }
  }

  /** An edit can be prepared for exactly the sent questions. */
  lemma EditIsPreparedExactlyWhenSent(s: Store, q: nat, text: string)
    requires Sound(s)
    ensures PrepareEdit(s, q, text).Some? <==> HasStatus(s, q, {Sent})
  {
    if HasStatus(s, q, {Sent}) {
      SentMeansStored(s, q);
      var c := s.commands[FindSend(s.commands, q).value];
      assert Rooted(s, c);
      FinalRowIsFound(s.versions, Version(q, c.replyVersion, c.text, FinalSent));
      AppendNext(s, q, text, Draft);
    }
  }

  lemma NewestRowIsLatest(versions: seq<Version>, v: Version)
    requires Numbered(versions) && v.number == Count(versions, v.question) + 1
    ensures LatestRow(versions + [v], v.question) == Some(v)
  {
    assert (versions + [v])[..|versions|] == versions;
    LatestIsCount(versions, v.question);
  }

  lemma EditKeyIsTakenByItsDraft(s: Store, q: nat, number: int)
    requires Numbered(s.versions) && AllRooted(s) && number > Count(s.versions, q)
    ensures !KeyTaken(s.commands, Key(q, EditReply, number))
  {
    TakenNumbersAreOneToN(s.versions, q, number);
    forall c | 0 <= c < |s.commands| ensures s.commands[c].key != Key(q, EditReply, number) {
      KeyMeansTaken(s, s.commands[c]);
    }
  }

  lemma KeyMeansTaken(s: Store, c: Command)
    requires Rooted(s, c)
    ensures c.key.kind == EditReply ==> VersionTaken(s.versions, c.key.question, c.key.number)
  {
  }

  lemma NewestDraftIsConfirmed(s: Store, q: nat, v: Version, now: int)
    requires HasStatus(s, q, {Sent}) && StoredSentId(s.commands, q).Some?
    requires LatestRow(s.versions, q) == Some(v) && v.action == Draft && !KeyTaken(s.commands, Key(q, EditReply, v.number))
    ensures var c := NewCommand(s, q, EditReply, v.number + 1, v.number, StoredSentId(s.commands, q), v.text, now);
            ConfirmEdit(s, q, now) ==
            Some((s.(commands := s.commands + [c]), Confirmed(|s.commands|, v.number + 1, v.text, true)))
  {
  }

  lemma PreparedState(s: Store, q: nat, text: string)
    requires Sound(s) && HasStatus(s, q, {Sent})
    ensures var v := Version(q, LatestNumber(s.versions, q) + 1, text, Draft);
            && PrepareEdit(s, q, text) == Some(s.(versions := s.versions + [v]))
            && LatestRow(s.versions + [v], q) == Some(v)
            && !KeyTaken(s.commands, Key(q, EditReply, v.number))
            && StoredSentId(s.commands, q).Some?
  {
    EditIsPreparedExactlyWhenSent(s, q, text);
    PreparedForm(s, q, text);
    SentMeansStored(s, q);
    NextDraftIsNew(s, q, text);
  }

  lemma NextDraftIsNew(s: Store, q: nat, text: string)
    requires Numbered(s.versions) && AllRooted(s)
    ensures var v := Version(q, LatestNumber(s.versions, q) + 1, text, Draft);
            LatestRow(s.versions + [v], q) == Some(v) && !KeyTaken(s.commands, Key(q, EditReply, v.number))
  {
    LatestIsCount(s.versions, q);
    NewestRowIsLatest(s.versions, Version(q, LatestNumber(s.versions, q) + 1, text, Draft));
    EditKeyIsTakenByItsDraft(s, q, LatestNumber(s.versions, q) + 1);
  }

  /** A draft prepared on a sent question can always be confirmed, and asks for the version after it. */
  lemma PreparedEditIsConfirmed(s: Store, q: nat, text: string, now: int)
    requires Sound(s) && HasStatus(s, q, {Sent})
    ensures PrepareEdit(s, q, text).Some?
    ensures ConfirmEdit(PrepareEdit(s, q, text).value, q, now) ==
            Some((PrepareEdit(s, q, text).value.(commands := s.commands + [NextEdit(s, q, text, now)]),
                  Confirmed(|s.commands|, LatestNumber(s.versions, q) + 2, text, true)))
  {
    PreparedState(s, q, text);
    NewestDraftIsConfirmed(PrepareEdit(s, q, text).value, q, NextDraft(s, q, text), now);
  }

  lemma LatestAfterAppend(versions: seq<Version>, v: Version, q: nat)
    requires Numbered(versions) && v.number == Count(versions, v.question) + 1
    ensures LatestNumber(versions + [v], q) == LatestNumber(versions, q) + if v.question == q then 1 else 0
  {
    NumberedSnoc(versions, v);
    CountSnoc(versions, v, q);
    LatestIsCount(versions, q);
    LatestIsCount(versions + [v], q);
  }

  /** A later version exists than the one the edit would append. */
  ghost predicate Overtaken(s: Store, c: nat) {
    && c < |s.commands| && s.commands[c].kind == EditReply && s.commands[c].status != Succeeded
    && LatestNumber(s.versions, s.commands[c].question) >= s.commands[c].replyVersion
  }

  lemma PreparingRaisesLatest(s: Store, q: nat, text: string)
    requires Sound(s) && HasStatus(s, q, {Sent})
    ensures PrepareEdit(s, q, text).Some?
    ensures var t := PrepareEdit(s, q, text).value;
            t.commands == s.commands && LatestNumber(t.versions, q) == LatestNumber(s.versions, q) + 1
  {
    EditIsPreparedExactlyWhenSent(s, q, text);
    LatestIsCount(s.versions, q);
    LatestAfterAppend(s.versions, Version(q, LatestNumber(s.versions, q) + 1, text, Draft), q);
  }

  lemma SecondDraftOvertakes(w: World, q: nat, c: nat, text: string)
    requires Sound(w.store) && c < |w.store.commands| && w.store.commands[c].kind == EditReply
    requires w.store.commands[c].question == q && HasStatus(w.store, q, {Sent})
    requires w.store.commands[c].replyVersion == LatestNumber(w.store.versions, q) + 1
    ensures var t := Next(w, EditText(q, text)).store;
            && t.commands == w.store.commands
            && LatestNumber(t.versions, q) >= t.commands[c].replyVersion
  {
    PreparingRaisesLatest(w.store, q, text);
    NextPrepares(w, q, text, PrepareEdit(w.store, q, text).value);
  }

  /** An overtaken edit, once accepted by Telegram, leaves the tables as they were. */
  lemma AcceptedEditRollsBack(w: World, c: nat, now: int)
    requires Sound(w.store) && Due(w.store, c, EditReply, now)
    requires LatestNumber(w.store.versions, w.store.commands[c].question) >= w.store.commands[c].replyVersion
    ensures var r := EditRun(w, c, now, EditAccepted);
            r.store == w.store && |r.edits| == |w.edits| + 1 && r.edits[|w.edits|].text == w.store.commands[c].text
  {
    ClaimKeepsSound(w.store, c, now);
    CompleteEditExactlyWhenNext(Claim(w.store, c, now), c, now);
    EditTargetIsValid(w.store, c);
  }

  /** Prepare and confirm an edit of a sent question. */
  function EditConfirmed(w: World, q: nat, text: string, now: int): World {
    Next(Next(w, EditText(q, text)), EditConfirm(q, now))
  }

  lemma EditConfirmedIsSound(w: World, q: nat, text: string, now: int)
    requires Sound(w.store)
    ensures Sound(EditConfirmed(w, q, text, now).store)
  {
    StepKeepsSound(w, EditText(q, text));
    StepKeepsSound(Next(w, EditText(q, text)), EditConfirm(q, now));
  }

  lemma NextPrepares(w: World, q: nat, text: string, t: Store)
    requires PrepareEdit(w.store, q, text) == Some(t)
    ensures Next(w, EditText(q, text)) == w.(store := t)
  {
  }

  lemma NextConfirms(w: World, q: nat, now: int, t: Store, confirmed: Confirmed)
    requires ConfirmEdit(w.store, q, now) == Some((t, confirmed))
    ensures Next(w, EditConfirm(q, now)) == w.(store := t)
  {
  }

  lemma PreparedThenConfirmed(w: World, q: nat, text: string, now: int, prepared: Store, t: Store, confirmed: Confirmed)
    requires PrepareEdit(w.store, q, text) == Some(prepared) && ConfirmEdit(prepared, q, now) == Some((t, confirmed))
    ensures EditConfirmed(w, q, text, now).store == t
  {
    NextPrepares(w, q, text, prepared);
    NextConfirms(w.(store := prepared), q, now, t, confirmed);
  }

  /** The edit queued when a draft `text` of `q` has been prepared on `s` and is confirmed. */
  function NextEdit(s: Store, q: nat, text: string, now: int): Command
    requires q < |s.questions|
  {
    var number := LatestNumber(s.versions, q) + 1;
    NewCommand(s, q, EditReply, number + 1, number, StoredSentId(s.commands, q), text, now)
  }

  function NextDraft(s: Store, q: nat, text: string): Version {
    Version(q, LatestNumber(s.versions, q) + 1, text, Draft)
  }

  lemma ConfirmedAfterPrepared(w: World, q: nat, text: string, now: int, v: Version, c: Command, confirmed: Confirmed)
    requires PrepareEdit(w.store, q, text) == Some(w.store.(versions := w.store.versions + [v]))
    requires ConfirmEdit(PrepareEdit(w.store, q, text).value, q, now) ==
             Some((PrepareEdit(w.store, q, text).value.(commands := w.store.commands + [c]), confirmed))
    ensures EditConfirmed(w, q, text, now).store ==
            w.store.(versions := w.store.versions + [v], commands := w.store.commands + [c])
  {
    var prepared := w.store.(versions := w.store.versions + [v]);
    PreparedThenConfirmed(w, q, text, now, prepared, prepared.(commands := w.store.commands + [c]), confirmed);
  }

  lemma EditConfirmedState(w: World, q: nat, text: string, now: int)
    requires Sound(w.store) && HasStatus(w.store, q, {Sent})
    ensures var s := w.store;
            EditConfirmed(w, q, text, now).store ==
            s.(versions := s.versions + [NextDraft(s, q, text)], commands := s.commands + [NextEdit(s, q, text, now)])
  {
    var s := w.store;
    PreparedState(s, q, text);
    PreparedEditIsConfirmed(s, q, text, now);
    ConfirmedAfterPrepared(w, q, text, now, NextDraft(s, q, text), NextEdit(s, q, text, now),
                           Confirmed(|s.commands|, LatestNumber(s.versions, q) + 2, text, true));
  }

  lemma ConfirmedEditIsDue(w: World, q: nat, text: string, now: int)
    requires Sound(w.store) && HasStatus(w.store, q, {Sent})
    ensures var c, t := |w.store.commands|, EditConfirmed(w, q, text, now).store;
            && HasStatus(t, q, {Sent})
            && |t.commands| == c + 1 && Due(t, c, EditReply, now)
            && t.commands[c].question == q && t.commands[c].text == text
            && t.commands[c].replyVersion == LatestNumber(t.versions, q) + 1
  {
    EditConfirmedState(w, q, text, now);
    LatestIsCount(w.store.versions, q);
    LatestAfterAppend(w.store.versions, Version(q, LatestNumber(w.store.versions, q) + 1, text, Draft), q);
  }

  /**
   * For any sent question in any sound state: prepare and confirm one edit, prepare a second, and
   * the first is attempted at Telegram, accepted, and then rejected by the unique constraint. The
   * tables roll back while the message has been edited.
   */
  lemma OverlappingEditIsRejected(w: World, q: nat, first: string, second: string, now: int)
    requires Sound(w.store) && HasStatus(w.store, q, {Sent})
    ensures var u := Next(EditConfirmed(w, q, first, now), EditText(q, second));
            var r := EditRun(u, |w.store.commands|, now, EditAccepted);
            && Overtaken(u.store, |w.store.commands|)
            && r.store == u.store
            && |r.edits| == |u.edits| + 1 && r.edits[|u.edits|].text == first
  {
    ConfirmedEditIsDue(w, q, first, now);
    EditConfirmedIsSound(w, q, first, now);
    OvertakenEditRollsBack(EditConfirmed(w, q, first, now), q, |w.store.commands|, second, now);
  }

  lemma OvertakenEditRollsBack(w: World, q: nat, c: nat, text: string, now: int)
    requires Sound(w.store) && Due(w.store, c, EditReply, now)
    requires w.store.commands[c].question == q && HasStatus(w.store, q, {Sent})
    requires w.store.commands[c].replyVersion == LatestNumber(w.store.versions, q) + 1
    ensures var u := Next(w, EditText(q, text));
            var r := EditRun(u, c, now, EditAccepted);
            && Overtaken(u.store, c)
            && r.store == u.store
            && |r.edits| == |u.edits| + 1 && r.edits[|u.edits|].text == w.store.commands[c].text
  {
    SecondDraftOvertakes(w, q, c, text);
    StepKeepsSound(w, EditText(q, text));
    AcceptedEditRollsBack(Next(w, EditText(q, text)), c, now);
  }

  function Drafted(chat: int, to: Destination, text: string): seq<Event> {
    [Detect(chat, to)] + [Open(0, false)] + [DraftText(0, text)]
  }

  lemma DraftedState(chat: int, to: Destination, text: string)
    ensures After(Drafted(chat, to, text)).store ==
            Store([Question(WaitingConfirmation, Some(chat), to)], [Version(0, 1, text, Draft)], [], Some(0))
  {
    AfterOne(Detect(chat, to));
    AfterSnoc([Detect(chat, to)], Open(0, false));
    AfterSnoc([Detect(chat, to)] + [Open(0, false)], DraftText(0, text));
  }

  lemma DraftIsConfirmed(s: Store, chat: int, to: Destination, text: string, now: int)
    requires s == Store([Question(WaitingConfirmation, Some(chat), to)], [Version(0, 1, text, Draft)], [], Some(0))
    ensures HandleConfirm(s, 0, now).Some?
    ensures HandleConfirm(s, 0, now).value.0 ==
            Store([Question(SendRequested, Some(chat), to)],
                  [Version(0, 1, text, Draft), Version(0, 2, text, FinalSent)],
                  [Command(0, SendReply, 2, Key(0, SendReply, 2), to, None, text, Pending, 0, now, None, None, None)],
                  None)
  {
    var draft := Version(0, 1, text, Draft);
    assert [draft][..0] == [];
    assert LatestRow([draft], 0) == Some(draft);
    var final := Version(0, 2, text, FinalSent);
    assert !VersionTaken([draft], 0, 2) && [draft] + [final] == [draft, final];
  }

  lemma NextConfirmsSend(w: World, q: nat, now: int)
    requires HandleConfirm(w.store, q, now).Some?
    ensures Next(w, Confirm(q, now)) == w.(store := HandleConfirm(w.store, q, now).value.0)
  {
  }

  lemma ConfirmedState(chat: int, to: Destination, text: string, now: int)
    ensures After(Drafted(chat, to, text) + [Confirm(0, now)]).store ==
            Store([Question(SendRequested, Some(chat), to)],
                  [Version(0, 1, text, Draft), Version(0, 2, text, FinalSent)],
                  [Command(0, SendReply, 2, Key(0, SendReply, 2), to, None, text, Pending, 0, now, None, None, None)],
                  None)
  {
    var w := After(Drafted(chat, to, text));
    DraftedState(chat, to, text);
    DraftIsConfirmed(w.store, chat, to, text, now);
    NextConfirmsSend(w, 0, now);
    AfterSnoc(Drafted(chat, to, text), Confirm(0, now));
  }

  /** Such a question exists: detect, draft, confirm and send one. */
  lemma SomeRunSends(chat: int, to: Destination, text: string, id: int, now: int)
    ensures var h := Drafted(chat, to, text) + [Confirm(0, now)] + [SendOnce(0, now, Passed, SendAccepted(id))];
            HasStatus(After(h).store, 0, {Sent}) && StoredSentId(After(h).store.commands, 0) == Some(id)
  {
    ConfirmedState(chat, to, text, now);
    AfterSnoc(Drafted(chat, to, text) + [Confirm(0, now)], SendOnce(0, now, Passed, SendAccepted(id)));
  }

  /** A lost transaction is repeated: Telegram then has the reply twice. */
  lemma LostSendIsRepeated(chat: int, to: Destination, text: string, id: int, now: int)
    ensures var h := Drafted(chat, to, text) + [Confirm(0, now)] + [SendOnce(0, now, Passed, SendLost(true))]
                     + [SendOnce(0, now, Passed, SendAccepted(id))];
            After(h).sends == [Attempt(0, to, text, Lost(true)), Attempt(0, to, text, Accepted(id))]
  {
    var h := Drafted(chat, to, text) + [Confirm(0, now)];
    ConfirmedState(chat, to, text, now);
    NothingSentYet(chat, to, text, now);
    AfterSnoc(h, SendOnce(0, now, Passed, SendLost(true)));
    AfterSnoc(h + [SendOnce(0, now, Passed, SendLost(true))], SendOnce(0, now, Passed, SendAccepted(id)));
  }

  lemma NothingSentYet(chat: int, to: Destination, text: string, now: int)
    ensures After(Drafted(chat, to, text) + [Confirm(0, now)]).sends == []
  {
    AfterOne(Detect(chat, to));
    AfterSnoc([Detect(chat, to)], Open(0, false));
    AfterSnoc([Detect(chat, to)] + [Open(0, false)], DraftText(0, text));
    AfterSnoc(Drafted(chat, to, text), Confirm(0, now));
  }

  lemma AfterSnoc(h: seq<Event>, e: Event)
    ensures After(h + [e]) == Next(After(h), e)
  {
  }

  lemma AfterOne(e: Event)
    ensures After([e]) == Next(EMPTY, e)
  {
  }

  // ----- Once overtaken, never completed -----

  lemma {:induction false} CountOfPrefix(versions: seq<Version>, more: seq<Version>, q: nat)
    requires versions <= more
    ensures Count(versions, q) <= Count(more, q)
  {
    if versions != more {
      var init := more[..|more| - 1];
      assert versions <= init;
      CountOfPrefix(versions, init, q);
    }
  }

  lemma EditRunLeavesOvertaken(w: World, d: nat, now: int, answer: EditAnswer, c: nat)
    requires Sound(w.store) && Overtaken(w.store, c)
    ensures c < |EditRun(w, d, now, answer).store.commands|
    ensures EditRun(w, d, now, answer).store.commands[c].status != Succeeded
  {
    if Due(w.store, d, EditReply, now) {
      EditRunChangesOneCommand(w, d, now, answer);
      if c == d {
        ClaimKeepsSound(w.store, c, now);
        CompleteEditExactlyWhenNext(Claim(w.store, c, now), c, now);
      }
    }
  }

  lemma SendRunLeavesEdit(w: World, d: nat, now: int, check: Check, answer: SendAnswer, c: nat)
    requires c < |w.store.commands| && w.store.commands[c].kind == EditReply
    ensures c < |SendRun(w, d, now, check, answer).store.commands|
    ensures SendRun(w, d, now, check, answer).store.commands[c] == w.store.commands[c]
  {
  }

  /** Nothing but an edit run completes an edit. */
  lemma OtherStepsCompleteNoEdit(w: World, e: Event, c: nat)
    requires !e.SendOnce? && !e.EditOnce?
    requires c < |w.store.commands| && w.store.commands[c].kind == EditReply && w.store.commands[c].status != Succeeded
    ensures c < |Next(w, e).store.commands| && Next(w, e).store.commands[c].status != Succeeded
  {
  }

  lemma StepLeavesEditOpen(w: World, e: Event, c: nat)
    requires Sound(w.store) && Overtaken(w.store, c)
    ensures c < |Next(w, e).store.commands| && Next(w, e).store.commands[c].status != Succeeded
  {
    match e
    case SendOnce(d, now, check, answer) => SendRunLeavesEdit(w, d, now, check, answer, c);
    case EditOnce(d, now, answer) => EditRunLeavesOvertaken(w, d, now, answer, c);
    case _ => OtherStepsCompleteNoEdit(w, e, c);
  }

  lemma OvertakenContinues(s: Store, t: Store, c: nat)
    requires Overtaken(s, c) && Continues(s, t) && Numbered(s.versions) && Numbered(t.versions)
    requires t.commands[c].status != Succeeded
    ensures Overtaken(t, c)
  {
    var q := s.commands[c].question;
    assert SameIdentity(s.commands[c], t.commands[c]);
    CountOfPrefix(s.versions, t.versions, q);
    LatestIsCount(s.versions, q);
    LatestIsCount(t.versions, q);
  }

  lemma StepKeepsOvertaken(w: World, e: Event, c: nat)
    requires Sound(w.store) && Overtaken(w.store, c)
    ensures Overtaken(Next(w, e).store, c)
  {
    StepLeavesEditOpen(w, e, c);
    StepContinues(w, e);
    StepKeepsSound(w, e);
    OvertakenContinues(w.store, Next(w, e).store, c);
  }

  /** An overtaken edit is never completed, however often it is attempted or retried by hand. */
  lemma {:induction false} OvertakenEditNeverCompletes(h: seq<Event>, more: seq<Event>, c: nat)
    requires Overtaken(After(h).store, c)
    ensures Overtaken(After(h + more).store, c)
  {
    AfterMore(h, more);
    if more != [] {
      var init := more[..|more| - 1];
      OvertakenEditNeverCompletes(h, init, c);
      AlwaysSound(h + init);
      StepKeepsOvertaken(After(h + init), more[|more| - 1], c);
    }
  }
}
