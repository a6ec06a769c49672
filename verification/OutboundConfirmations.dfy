/** What a confirmation queues, and that a preview shown to the operator can always be confirmed. */
module OutboundConfirmations {
  import opened Wrappers
  import opened Outbound
  import opened OutboundInvariants
  import opened OutboundRuns
  import opened OutboundDrafts
  import opened OutboundEdits
  import opened OutboundOutcomes

  // ----- The newest version of a question -----

  /** The version with the greatest number is this text as a draft. */
  ghost predicate NewestIsDraft(versions: seq<Version>, q: nat, text: string) {
    HasRow(versions, Version(q, Count(versions, q), text, Draft))
  }

  lemma {:induction false} GreatestNumberIsLatest(versions: seq<Version>, v: Version)
    requires Numbered(versions) && HasRow(versions, v) && v.number == Count(versions, v.question)
    ensures LatestRow(versions, v.question) == Some(v)
  {
    var init, last := versions[..|versions| - 1], versions[|versions| - 1];
    assert versions == init + [last];
    NumberedInit(versions);
    LatestIsCount(init, v.question);
    if last.question == v.question {
      TakenNumbersAreOneToN(init, v.question, v.number);
      assert forall i :: 0 <= i < |init| && init[i] == v ==> VersionTaken(init, v.question, v.number);
    } else {
      GreatestNumberIsLatest(init, v);
    }
  }

  lemma NewestDraftIsLatest(versions: seq<Version>, q: nat, text: string)
    requires Numbered(versions) && NewestIsDraft(versions, q, text)
    ensures LatestRow(versions, q) == Some(Version(q, Count(versions, q), text, Draft))
  {
    GreatestNumberIsLatest(versions, Version(q, Count(versions, q), text, Draft));
  }

  lemma LatestDraftIsNewest(versions: seq<Version>, q: nat)
    requires Numbered(versions) && LatestRow(versions, q).Some? && LatestRow(versions, q).value.action == Draft
    ensures NewestIsDraft(versions, q, LatestRow(versions, q).value.text)
  {
    LatestIsCount(versions, q);
    LatestRowIsRow(versions, q);
  }

  // ----- Confirming a send -----

  /** Nothing stands in the way of the next version and the send that carries it. */
  ghost predicate SendIsFree(s: Store, q: nat, number: int) {
    FindSend(s.commands, q).None? && !VersionTaken(s.versions, q, number) && !KeyTaken(s.commands, Key(q, SendReply, number))
  }

  lemma AwaitingSendIsFree(s: Store, q: nat)
    requires Numbered(s.versions) && AllRooted(s) && HasStatus(s, q, {WaitingConfirmation}) && Coupled(s, q)
    ensures SendIsFree(s, q, Count(s.versions, q) + 1)
  {
    NoSendNoKey(s, q, Count(s.versions, q) + 1);
    TakenNumbersAreOneToN(s.versions, q, Count(s.versions, q) + 1);
  }

  /** The tables after a first confirmation. */
  function WithSend(s: Store, q: nat, number: int, text: string, now: int): Store
    requires q < |s.questions|
  {
    Store(
      s.questions[q := s.questions[q].(status := SendRequested)],
      s.versions + [Version(q, number, text, FinalSent)],
      s.commands + [Command(q, SendReply, number, Key(q, SendReply, number), s.questions[q].to, None, text,
                            Pending, 0, now, None, None, None)],
      None)
  }

  /** What the handler of a confirmation leaves. */
  function AfterConfirm(s: Store, q: nat, now: int): Store {
    if HandleConfirm(s, q, now).Some? then HandleConfirm(s, q, now).value.0 else s
  }

  lemma FirstConfirmation(s: Store, q: nat, now: int, v: Version)
    requires s.active == Some(q) && HasStatus(s, q, {WaitingConfirmation})
    requires LatestRow(s.versions, q) == Some(v) && v.action == Draft && SendIsFree(s, q, v.number + 1)
    ensures HandleConfirm(s, q, now) ==
            Some((WithSend(s, q, v.number + 1, v.text, now), Confirmed(|s.commands|, v.number + 1, v.text, true)))
  {
  }

  /**
   * Confirming the active question's preview freezes its text as the next version, queues one send
   * of that text to the question's own message, due at once, and closes the session.
   */
  lemma SendIsQueued(s: Store, q: nat, now: int, text: string)
    requires Numbered(s.versions) && AllRooted(s)
    requires s.active == Some(q) && HasStatus(s, q, {WaitingConfirmation}) && Coupled(s, q)
    requires NewestIsDraft(s.versions, q, text)
    ensures var number := Count(s.versions, q) + 1;
            HandleConfirm(s, q, now) == Some((WithSend(s, q, number, text, now), Confirmed(|s.commands|, number, text, true)))
  {
    NewestDraftIsLatest(s.versions, q, text);
    AwaitingSendIsFree(s, q);
    FirstConfirmation(s, q, now, Version(q, Count(s.versions, q), text, Draft));
  }

  lemma OtherConfirmation(s: Store, q: nat, now: int)
    requires q < |s.questions| ==> Coupled(s, q)
    requires s.active != Some(q) || !HasStatus(s, q, {WaitingConfirmation})
             || LatestRow(s.versions, q).None? || LatestRow(s.versions, q).value.action != Draft
    ensures AfterConfirm(s, q, now) == if s.active == Some(q) && HasStatus(s, q, {SendRequested}) then s.(active := None) else s
  {
  }

  /** Any other confirmation is refused or, for a send already requested, only closes the session. */
  lemma OtherConfirmationsQueueNothing(s: Store, q: nat, now: int)
    requires Numbered(s.versions) && (q < |s.questions| ==> Coupled(s, q))
    requires s.active != Some(q) || !HasStatus(s, q, {WaitingConfirmation})
             || forall text :: !NewestIsDraft(s.versions, q, text)
    ensures AfterConfirm(s, q, now) == if s.active == Some(q) && HasStatus(s, q, {SendRequested}) then s.(active := None) else s
  {
    if LatestRow(s.versions, q).Some? && LatestRow(s.versions, q).value.action == Draft {
      LatestDraftIsNewest(s.versions, q);
    }
    OtherConfirmation(s, q, now);
  }

  // ----- A preview can always be confirmed -----

  /** The newest version of every question that awaits confirmation is a draft. */
  ghost predicate PreviewsExist(s: Store) {
    forall q :: 0 <= q < |s.questions| ==> PreviewExists(s, q)
  }

  ghost predicate PreviewExists(s: Store, q: nat) {
    HasStatus(s, q, {WaitingConfirmation}) ==> exists text :: NewestIsDraft(s.versions, q, text)
  }

  lemma {:induction false} NewestStays(versions: seq<Version>, v: Version, q: nat, text: string)
    requires NewestIsDraft(versions, q, text) && v.question != q
    ensures NewestIsDraft(versions + [v], q, text)
  {
    CountSnoc(versions, v, q);
  }

  lemma AppendedIsNewest(versions: seq<Version>, q: nat, text: string)
    ensures NewestIsDraft(versions + [Version(q, Count(versions, q) + 1, text, Draft)], q, text)
  {
    CountSnoc(versions, Version(q, Count(versions, q) + 1, text, Draft), q);
  }

  /** A step that adds no version to a question awaiting confirmation, and moves none there. */
  lemma NoPreviewIsLost(s: Store, t: Store)
    requires PreviewsExist(s) && |s.questions| <= |t.questions|
    requires t.versions == s.versions
             || exists v :: t.versions == s.versions + [v] && !HasStatus(t, v.question, {WaitingConfirmation})
    requires forall q :: 0 <= q < |t.questions| && HasStatus(t, q, {WaitingConfirmation}) ==>
               HasStatus(s, q, {WaitingConfirmation})
    ensures PreviewsExist(t)
  {
    forall q | 0 <= q < |t.questions| && HasStatus(t, q, {WaitingConfirmation}) ensures PreviewExists(t, q) {
      assert PreviewExists(s, q);
      var text :| NewestIsDraft(s.versions, q, text);
      if t.versions != s.versions {
        var v :| t.versions == s.versions + [v] && !HasStatus(t, v.question, {WaitingConfirmation});
        NewestStays(s.versions, v, q, text);
      }
    }
  }

  lemma PreviewAfterDraft(s: Store, t: Store, q: nat, text: string, p: nat)
    requires Moves(s.questions, t.questions, q, WaitingConfirmation) && PreviewExists(s, p)
    requires t.versions == s.versions + [Version(q, Count(s.versions, q) + 1, text, Draft)]
    ensures PreviewExists(t, p)
  {
    if p == q {
      AppendedIsNewest(s.versions, q, text);
    } else if HasStatus(t, p, {WaitingConfirmation}) {
      var before :| NewestIsDraft(s.versions, p, before);
      NewestStays(s.versions, Version(q, Count(s.versions, q) + 1, text, Draft), p, before);
    }
  }

  lemma DraftKeepsPreviews(s: Store, t: Store, q: nat, text: string)
    requires PreviewsExist(s) && Moves(s.questions, t.questions, q, WaitingConfirmation)
    requires t.versions == s.versions + [Version(q, Count(s.versions, q) + 1, text, Draft)]
    ensures PreviewsExist(t)
  {
    forall p | 0 <= p < |t.questions| ensures PreviewExists(t, p) {
      PreviewAfterDraft(s, t, q, text, p);
    }
  }

  lemma DraftingKeepsPreviews(w: World, q: nat, text: string)
    requires Numbered(w.store.versions) && PreviewsExist(w.store)
    ensures PreviewsExist(Next(w, DraftText(q, text)).store)
  {
    DraftIsWritten(w, q, text);
    if Next(w, DraftText(q, text)).store != w.store {
      DraftKeepsPreviews(w.store, Next(w, DraftText(q, text)).store, q, text);
    }
  }

  lemma QueueingKeepsPreviews(s: Store, q: nat, number: int, text: string, now: int)
    requires PreviewsExist(s) && q < |s.questions|
    ensures PreviewsExist(WithSend(s, q, number, text, now))
  {
    var t, v := WithSend(s, q, number, text, now), Version(q, number, text, FinalSent);
    assert t.versions == s.versions + [v] && !HasStatus(t, v.question, {WaitingConfirmation});
    NoPreviewIsLost(s, t);
  }

  lemma ConfirmingKeepsPreviews(s: Store, q: nat, now: int)
    requires Sound(s) && PreviewsExist(s)
    ensures PreviewsExist(AfterConfirm(s, q, now))
  {
    assert q < |s.questions| ==> Coupled(s, q);
    if s.active == Some(q) && HasStatus(s, q, {WaitingConfirmation}) {
      assert PreviewExists(s, q);
      var text :| NewestIsDraft(s.versions, q, text);
      SendIsQueued(s, q, now, text);
      QueueingKeepsPreviews(s, q, Count(s.versions, q) + 1, text, now);
    } else {
      OtherConfirmationsQueueNothing(s, q, now);
      NoPreviewIsLost(s, AfterConfirm(s, q, now));
    }
  }

  /** Editing adds versions to sent questions only. */
  lemma EditingAddsToSent(w: World, e: Event)
    requires e.EditText? || e.EditOnce?
    ensures var s, t := w.store, Next(w, e).store;
            && t.questions == s.questions
            && (t.versions == s.versions || exists v :: t.versions == s.versions + [v] && HasStatus(t, v.question, {Sent}))
  {
  }

  lemma SendRunKeepsVersions(w: World, c: nat, now: int, check: Check, answer: SendAnswer)
    ensures SendRun(w, c, now, check, answer).store.versions == w.store.versions
  {
  }

  /** All other steps add no version and bring no question to confirmation. */
  lemma OtherStepsKeepPreviews(w: World, e: Event)
    requires PreviewsExist(w.store) && !e.DraftText? && !e.Confirm? && !e.EditText? && !e.EditOnce?
    ensures PreviewsExist(Next(w, e).store)
  {
    var s, t := w.store, Next(w, e).store;
    match e
    {
      case Open(q, replace) => OpeningIsWritten(w, q, replace);
      case EditDraft(q) => EditingIsWritten(w, q);
      case CancelActive(q) => CancellationIsWritten(w, q);
      case SendOnce(c, now, check, answer) =>
        OtherStepsOpenNothing(w, e);
        SendRunKeepsVersions(w, c, now, check, answer);
      case _ => OtherStepsOpenNothing(w, e);
    }
    forall q | 0 <= q < |t.questions| && HasStatus(t, q, {WaitingConfirmation}) ensures HasStatus(s, q, {WaitingConfirmation}) {
      assert !Drafting(e) && q < |s.questions| ==> OpensNothingAt(s, t, q);
    }
    NoPreviewIsLost(s, t);
  }

  lemma StepKeepsPreviews(w: World, e: Event)
    requires Sound(w.store) && PreviewsExist(w.store)
    ensures PreviewsExist(Next(w, e).store)
  {
    if e.EditText? || e.EditOnce? {
      EditingAddsToSent(w, e);
      NoPreviewIsLost(w.store, Next(w, e).store);
    } else {
      match e
      case DraftText(q, text) => DraftingKeepsPreviews(w, q, text);
      case Confirm(q, now) => ConfirmingKeepsPreviews(w.store, q, now);
      case _ => OtherStepsKeepPreviews(w, e);
    }
  }

  lemma {:induction false} PreviewsAlwaysExist(h: seq<Event>)
    ensures PreviewsExist(After(h).store)
  {
    if h != [] {
      AlwaysSound(h[..|h| - 1]);
      PreviewsAlwaysExist(h[..|h| - 1]);
      StepKeepsPreviews(After(h[..|h| - 1]), h[|h| - 1]);
    }
  }

  lemma ConfirmedExactlyWhenAwaited(s: Store, q: nat, now: int)
    requires Sound(s) && PreviewsExist(s) && s.active == Some(q)
    ensures |AfterConfirm(s, q, now).commands| > |s.commands| <==> HasStatus(s, q, {WaitingConfirmation})
  {
    assert q < |s.questions| ==> Coupled(s, q);
    if HasStatus(s, q, {WaitingConfirmation}) {
      assert PreviewExists(s, q);
      var text :| NewestIsDraft(s.versions, q, text);
      SendIsQueued(s, q, now, text);
    } else {
      OtherConfirmationsQueueNothing(s, q, now);
    }
  }

  /** In every run a confirmation of the active question queues its send exactly while it awaits confirmation. */
  lemma {:induction false} PreviewIsConfirmedExactlyWhenAwaited(h: seq<Event>, q: nat, now: int)
    requires After(h).store.active == Some(q)
    ensures |AfterConfirm(After(h).store, q, now).commands| > |After(h).store.commands| <==>
            HasStatus(After(h).store, q, {WaitingConfirmation})
  {
    AlwaysSound(h);
    PreviewsAlwaysExist(h);
    ConfirmedExactlyWhenAwaited(After(h).store, q, now);
  }

  // ----- Editing -----

  /** A draft of an edit is stored, as the next version, exactly for a sent question. */
  lemma EditDraftIsWritten(w: World, q: nat, text: string)
    requires Sound(w.store)
    ensures var s := w.store;
            Next(w, EditText(q, text)) ==
            if HasStatus(s, q, {Sent})
            then w.(store := s.(versions := s.versions + [Version(q, Count(s.versions, q) + 1, text, Draft)])) else w
  {
    EditIsPreparedExactlyWhenSent(w.store, q, text);
    LatestIsCount(w.store.versions, q);
    if HasStatus(w.store, q, {Sent}) {
      PreparedForm(w.store, q, text);
    }
  }

  lemma StoredIdOfSend(s: Store, q: nat, d: nat)
    requires Sound(s) && HasStatus(s, q, {Sent})
    requires d < |s.commands| && s.commands[d].kind == SendReply && s.commands[d].question == q
    ensures s.commands[d].sentId.Some? && StoredSentId(s.commands, q) == s.commands[d].sentId
  {
    assert Coupled(s, q);
    assert FindSend(s.commands, q) == Some(d);
  }

  /** The tables after a first confirmation of an edit. */
  function WithEdit(s: Store, q: nat, number: int, text: string, sentId: Option<int>, now: int): Store
    requires q < |s.questions|
  {
    s.(commands := s.commands + [Command(q, EditReply, number + 1, Key(q, EditReply, number), s.questions[q].to, sentId, text,
                                         Pending, 0, now, None, None, None)])
  }

  lemma FirstEditConfirmation(s: Store, q: nat, now: int, v: Version, sentId: Option<int>)
    requires HasStatus(s, q, {Sent}) && LatestRow(s.versions, q) == Some(v) && v.action == Draft
    requires StoredSentId(s.commands, q) == sentId && sentId.Some?
    ensures ConfirmEdit(s, q, now).Some?
    ensures if KeyTaken(s.commands, Key(q, EditReply, v.number)) then ConfirmEdit(s, q, now).value.0 == s
            else ConfirmEdit(s, q, now).value ==
                 (WithEdit(s, q, v.number, v.text, sentId, now), Confirmed(|s.commands|, v.number + 1, v.text, true))
  {
  }

  /**
   * Confirming the newest draft of a sent question queues one edit of the message its send `d`
   * stored, with the draft's text and due at once, unless that draft's edit was queued before.
   */
  lemma EditIsQueued(s: Store, q: nat, now: int, text: string, d: nat)
    requires Sound(s) && HasStatus(s, q, {Sent}) && NewestIsDraft(s.versions, q, text)
    requires d < |s.commands| && s.commands[d].kind == SendReply && s.commands[d].question == q
    ensures ConfirmEdit(s, q, now).Some?
    ensures var number := Count(s.versions, q);
            if exists c :: 0 <= c < |s.commands| && s.commands[c].key == Key(q, EditReply, number)
            then ConfirmEdit(s, q, now).value.0 == s
            else ConfirmEdit(s, q, now).value ==
                 (WithEdit(s, q, number, text, s.commands[d].sentId, now), Confirmed(|s.commands|, number + 1, text, true))
  {
    NewestDraftIsLatest(s.versions, q, text);
    StoredIdOfSend(s, q, d);
    FirstEditConfirmation(s, q, now, Version(q, Count(s.versions, q), text, Draft), s.commands[d].sentId);
  }

  /** Of any other question no edit is queued. */
  lemma OtherEditsAreRefused(s: Store, q: nat, now: int)
    requires Numbered(s.versions)
    requires !HasStatus(s, q, {Sent}) || forall text :: !NewestIsDraft(s.versions, q, text)
    ensures ConfirmEdit(s, q, now).None?
  {
    if LatestRow(s.versions, q).Some? && LatestRow(s.versions, q).value.action == Draft {
      LatestDraftIsNewest(s.versions, q);
    }
  }
}
