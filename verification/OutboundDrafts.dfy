/** At most one draft is open at a time (app/bot/handlers/replies.py). */
module OutboundDrafts {
  import opened Wrappers
  import opened Outbound

  const OPEN: set<QuestionStatus> := {WaitingForDraft, WaitingConfirmation}

  /** An open draft is the operator's active question, unless its chat row has been removed. */
  ghost predicate OpenIsActive(s: Store) {
    forall q :: 0 <= q < |s.questions| ==> OpenIsActiveAt(s, q)
  }

  ghost predicate OpenIsActiveAt(s: Store, q: nat) {
    HasStatus(s, q, OPEN) ==> s.active == Some(q) || s.questions[q].chat.None?
  }

  /** An open draft is the operator's active question, without exception. */
  ghost predicate OnlyActiveIsOpen(s: Store) {
    forall q :: 0 <= q < |s.questions| && HasStatus(s, q, OPEN) ==> s.active == Some(q)
  }

  lemma OpeningKeepsOpenIsActive(s: Store, q: nat, replace: bool)
    requires OpenIsActive(s)
    ensures OpenIsActive(HandleOpen(s, q, replace))
  {
    var t := HandleOpen(s, q, replace);
    forall p | 0 <= p < |t.questions| ensures OpenIsActiveAt(t, p) {
      assert OpenIsActiveAt(s, p);
    }
  }

  lemma ActiveStatusKeepsOpenIsActive(s: Store, t: Store, q: nat)
    requires OpenIsActive(s) && s.active == Some(q) && q < |s.questions| == |t.questions|
    requires t.questions == s.questions[q := t.questions[q]]
    requires t.active == Some(q) || (t.active == None && !HasStatus(t, q, OPEN))
    ensures OpenIsActive(t)
  {
    forall p | 0 <= p < |t.questions| ensures OpenIsActiveAt(t, p) {
      assert OpenIsActiveAt(s, p);
    }
  }

  lemma DraftingKeepsOpenIsActive(s: Store, q: nat, text: string)
    requires OpenIsActive(s)
    ensures HandleDraftText(s, q, text).Some? ==> OpenIsActive(HandleDraftText(s, q, text).value)
    ensures HandleEditDraft(s, q).Some? ==> OpenIsActive(HandleEditDraft(s, q).value)
    ensures HandleCancel(s, q).Some? ==> OpenIsActive(HandleCancel(s, q).value)
  {
    if HandleDraftText(s, q, text).Some? {
      ActiveStatusKeepsOpenIsActive(s, HandleDraftText(s, q, text).value, q);
    }
    if HandleEditDraft(s, q).Some? {
      ActiveStatusKeepsOpenIsActive(s, HandleEditDraft(s, q).value, q);
    }
    if HandleCancel(s, q).Some? {
      ActiveStatusKeepsOpenIsActive(s, HandleCancel(s, q).value, q);
    }
  }

  lemma ConfirmingKeepsOpenIsActive(s: Store, q: nat, now: int)
    requires OpenIsActive(s) && HandleConfirm(s, q, now).Some?
    ensures OpenIsActive(HandleConfirm(s, q, now).value.0)
  {
    var t := HandleConfirm(s, q, now).value.0;
    forall p | 0 <= p < |t.questions| ensures OpenIsActiveAt(t, p) {
      assert OpenIsActiveAt(s, p);
    }
  }

  /** Steps that open nothing, detach at most, and leave the session alone. */
  ghost predicate OpensNothing(s: Store, t: Store) {
    && t.active == s.active
    && |s.questions| <= |t.questions|
    && (forall q :: 0 <= q < |s.questions| ==> OpensNothingAt(s, t, q))
    && (forall q :: |s.questions| <= q < |t.questions| ==> t.questions[q].status == Detected)
  }

  ghost predicate OpensNothingAt(s: Store, t: Store, q: nat)
    requires q < |s.questions| <= |t.questions|
  {
    && (t.questions[q].status == s.questions[q].status || t.questions[q].status !in OPEN)
    && (t.questions[q].chat == s.questions[q].chat || t.questions[q].chat.None?)
  }

  lemma OpeningNothingKeepsOpenIsActive(s: Store, t: Store)
    requires OpenIsActive(s) && OpensNothing(s, t)
    ensures OpenIsActive(t)
  {
    forall q | 0 <= q < |t.questions| ensures OpenIsActiveAt(t, q) {
      if q < |s.questions| {
        assert OpenIsActiveAt(s, q) && OpensNothingAt(s, t, q);
      }
    }
  }

  lemma SendRunOpensNothing(w: World, c: nat, now: int, check: Check, answer: SendAnswer)
    ensures OpensNothing(w.store, SendRun(w, c, now, check, answer).store)
  {
  }

  lemma EditRunOpensNothing(w: World, c: nat, now: int, answer: EditAnswer)
    ensures OpensNothing(w.store, EditRun(w, c, now, answer).store)
  {
  }

  predicate Drafting(e: Event) {
    e.Open? || e.DraftText? || e.EditDraft? || e.CancelActive? || e.Confirm?
  }

  lemma OtherStepsOpenNothing(w: World, e: Event)
    requires !Drafting(e)
    ensures OpensNothing(w.store, Next(w, e).store)
  {
    match e
    case SendOnce(c, now, check, answer) => SendRunOpensNothing(w, c, now, check, answer);
    case EditOnce(c, now, answer) => EditRunOpensNothing(w, c, now, answer);
    case _ =>
  }

  lemma StepKeepsOpenIsActive(w: World, e: Event)
    requires OpenIsActive(w.store)
    ensures OpenIsActive(Next(w, e).store)
  {
    var s := w.store;
    match e
    case Open(q, replace) => OpeningKeepsOpenIsActive(s, q, replace);
    case DraftText(q, text) => DraftingKeepsOpenIsActive(s, q, text);
    case EditDraft(q) => DraftingKeepsOpenIsActive(s, q, "");
    case CancelActive(q) => DraftingKeepsOpenIsActive(s, q, "");
    case Confirm(q, now) => if HandleConfirm(s, q, now).Some? { ConfirmingKeepsOpenIsActive(s, q, now); }
    case _ =>
      OtherStepsOpenNothing(w, e);
      OpeningNothingKeepsOpenIsActive(s, Next(w, e).store);
  }

  lemma {:induction false} AlwaysOpenIsActive(h: seq<Event>)
    ensures OpenIsActive(After(h).store)
  {
    if h != [] {
      AlwaysOpenIsActive(h[..|h| - 1]);
      StepKeepsOpenIsActive(After(h[..|h| - 1]), h[|h| - 1]);
    }
  }

  /** In every reachable state at most one draft is open among the questions whose chat row exists. */
  lemma {:induction false} AtMostOneOpenDraft(h: seq<Event>, p: nat, q: nat)
    requires HasStatus(After(h).store, p, OPEN) && After(h).store.questions[p].chat.Some?
    requires HasStatus(After(h).store, q, OPEN) && After(h).store.questions[q].chat.Some?
    ensures p == q && After(h).store.active == Some(p)
  {
    AlwaysOpenIsActive(h);
    assert OpenIsActiveAt(After(h).store, p) && OpenIsActiveAt(After(h).store, q);
  }

  // ----- Without the exception -----

  /** The commit-on-return path: the status is written before the missing chat row is noticed. */
  predicate OpensDetached(s: Store, q: nat, replace: bool) {
    && (s.active.None? || replace)
    && s.active != Some(q)
    && HasStatus(s, q, {Detected, WaitingForDraft, WaitingConfirmation})
    && s.questions[q].chat.None?
  }

  /** Opening a question leaves a draft open that is not active exactly when the question's chat row is gone. */
  lemma OpeningKeepsOnlyActiveOpenExactly(s: Store, q: nat, replace: bool)
    requires OnlyActiveIsOpen(s)
    ensures OnlyActiveIsOpen(HandleOpen(s, q, replace)) <==> !OpensDetached(s, q, replace)
  {
  }

  lemma DraftingKeepsOnlyActiveOpen(s: Store, q: nat, text: string)
    requires OnlyActiveIsOpen(s)
    ensures HandleDraftText(s, q, text).Some? ==> OnlyActiveIsOpen(HandleDraftText(s, q, text).value)
    ensures HandleEditDraft(s, q).Some? ==> OnlyActiveIsOpen(HandleEditDraft(s, q).value)
    ensures HandleCancel(s, q).Some? ==> OnlyActiveIsOpen(HandleCancel(s, q).value)
  {
  }

  lemma ConfirmingKeepsOnlyActiveOpen(s: Store, q: nat, now: int)
    requires OnlyActiveIsOpen(s) && HandleConfirm(s, q, now).Some?
    ensures OnlyActiveIsOpen(HandleConfirm(s, q, now).value.0)
  {
  }

  lemma OpeningNothingKeepsOnlyActiveOpen(s: Store, t: Store)
    requires OnlyActiveIsOpen(s) && OpensNothing(s, t)
    ensures OnlyActiveIsOpen(t)
  {
    forall q | 0 <= q < |t.questions| && HasStatus(t, q, OPEN) ensures t.active == Some(q) {
      assert OpensNothingAt(s, t, q);
    }
  }

  /** Of all steps, only opening a question whose chat row is gone leaves a draft open that is not active. */
  lemma StepKeepsOnlyActiveOpenExactly(w: World, e: Event)
    requires OnlyActiveIsOpen(w.store)
    ensures OnlyActiveIsOpen(Next(w, e).store) <==> !(e.Open? && OpensDetached(w.store, e.q, e.replace))
  {
    var s := w.store;
    match e
    case Open(q, replace) => OpeningKeepsOnlyActiveOpenExactly(s, q, replace);
    case DraftText(q, text) => DraftingKeepsOnlyActiveOpen(s, q, text);
    case EditDraft(q) => DraftingKeepsOnlyActiveOpen(s, q, "");
    case CancelActive(q) => DraftingKeepsOnlyActiveOpen(s, q, "");
    case Confirm(q, now) => if HandleConfirm(s, q, now).Some? { ConfirmingKeepsOnlyActiveOpen(s, q, now); }
    case _ =>
      OtherStepsOpenNothing(w, e);
      OpeningNothingKeepsOnlyActiveOpen(s, Next(w, e).store);
  }

  /** That step is reachable: detect a question, remove its chat, open it. */
  lemma DetachedDraftIsReachable(chat: int, to: Destination)
    ensures !OnlyActiveIsOpen(After([Detect(chat, to)] + [RemoveChat(chat)] + [Open(0, false)]).store)
  {
    var h1 := [Detect(chat, to)];
    var h2 := h1 + [RemoveChat(chat)];
    assert h1[..0] == [] && h2[..1] == h1 && (h2 + [Open(0, false)])[..2] == h2;
    assert After(h1).store == Store([Question(Detected, Some(chat), to)], [], [], None);
    assert After(h2).store == Store([Question(Detected, None, to)], [], [], None);
    assert HasStatus(After(h2 + [Open(0, false)]).store, 0, OPEN);
  }

  ghost predicate AllAttached(s: Store) {
    forall q :: 0 <= q < |s.questions| ==> s.questions[q].chat.Some?
  }

  lemma SendRunKeepsChats(w: World, c: nat, now: int, check: Check, answer: SendAnswer)
    requires AllAttached(w.store)
    ensures AllAttached(SendRun(w, c, now, check, answer).store)
  {
  }

  lemma EditRunKeepsChats(w: World, c: nat, now: int, answer: EditAnswer)
    requires AllAttached(w.store)
    ensures AllAttached(EditRun(w, c, now, answer).store)
  {
  }

  lemma DraftingKeepsChats(w: World, e: Event)
    requires AllAttached(w.store) && Drafting(e)
    ensures AllAttached(Next(w, e).store)
  {
  }

  lemma StepKeepsChats(w: World, e: Event)
    requires AllAttached(w.store) && !e.RemoveChat?
    ensures AllAttached(Next(w, e).store)
  {
    if Drafting(e) {
      DraftingKeepsChats(w, e);
    } else {
      match e
      case SendOnce(c, now, check, answer) => SendRunKeepsChats(w, c, now, check, answer);
      case EditOnce(c, now, answer) => EditRunKeepsChats(w, c, now, answer);
      case _ =>
    }
  }

  lemma {:induction false} AllStayAttached(h: seq<Event>)
    requires forall i :: 0 <= i < |h| ==> !h[i].RemoveChat?
    ensures AllAttached(After(h).store)
  {
    if h != [] {
      AllStayAttached(h[..|h| - 1]);
      StepKeepsChats(After(h[..|h| - 1]), h[|h| - 1]);
    }
  }

  lemma AttachedMeansOnlyActive(s: Store)
    requires OpenIsActive(s) && AllAttached(s)
    ensures OnlyActiveIsOpen(s)
  {
    forall q | 0 <= q < |s.questions| && HasStatus(s, q, OPEN) ensures s.active == Some(q) {
      assert OpenIsActiveAt(s, q);
    }
  }

  /** While chat rows exist, every open draft is the active question. */
  lemma {:induction false} OnlyTheActiveDraftIsOpen(h: seq<Event>)
    requires forall i :: 0 <= i < |h| ==> !h[i].RemoveChat?
    ensures OnlyActiveIsOpen(After(h).store)
  {
    AlwaysOpenIsActive(h);
    AllStayAttached(h);
    AttachedMeansOnlyActive(After(h).store);
  }
}
