/** What every step of the outbound protocol keeps true of the tables. */
module OutboundInvariants {
  import opened Wrappers
  import opened Outbound

  // ----- Version numbers are 1..n in insertion order -----

  function Count(versions: seq<Version>, q: nat): nat {
    if versions == [] then 0
    else Count(versions[..|versions| - 1], q) + (if versions[|versions| - 1].question == q then 1 else 0)
  }

  ghost predicate Numbered(versions: seq<Version>) {
    forall i :: 0 <= i < |versions| ==> versions[i].number == Count(versions[..i], versions[i].question) + 1
  }

  lemma NumberedInit(versions: seq<Version>)
    requires versions != [] && Numbered(versions)
    ensures Numbered(versions[..|versions| - 1])
  {
    var init := versions[..|versions| - 1];
    forall i | 0 <= i < |init| ensures init[i].number == Count(init[..i], init[i].question) + 1 {
      assert init[..i] == versions[..i];
    }
  }

  lemma NumberedSnoc(versions: seq<Version>, v: Version)
    requires Numbered(versions) && v.number == Count(versions, v.question) + 1
    ensures Numbered(versions + [v])
  {
    var all := versions + [v];
    forall i | 0 <= i < |all| ensures all[i].number == Count(all[..i], all[i].question) + 1 {
      assert i < |versions| ==> all[..i] == versions[..i];
      assert i == |versions| ==> all[..i] == versions;
    }
  }

  lemma CountSnoc(versions: seq<Version>, v: Version, q: nat)
    ensures Count(versions + [v], q) == Count(versions, q) + if v.question == q then 1 else 0
  {
  }

  lemma {:induction false} LatestIsCount(versions: seq<Version>, q: nat)
    requires Numbered(versions)
    ensures LatestNumber(versions, q) == Count(versions, q)
    ensures LatestRow(versions, q).Some? ==> LatestRow(versions, q).value.question == q
  {
    if versions != [] {
      NumberedInit(versions);
      LatestIsCount(versions[..|versions| - 1], q);
    }
  }

  /** A question's version numbers are exactly 1..n: each one taken once, none beyond. */
  lemma {:induction false} TakenNumbersAreOneToN(versions: seq<Version>, q: nat, number: int)
    requires Numbered(versions)
    ensures VersionTaken(versions, q, number) <==> 1 <= number <= Count(versions, q)
  {
    if versions != [] {
      var init, last := versions[..|versions| - 1], |versions| - 1;
      NumberedInit(versions);
      TakenNumbersAreOneToN(init, q, number);
      if VersionTaken(init, q, number) {
        var i :| 0 <= i < |init| && init[i].question == q && init[i].number == number;
        assert versions[i].question == q && versions[i].number == number;
      }
      if VersionTaken(versions, q, number) {
        var i :| 0 <= i < |versions| && versions[i].question == q && versions[i].number == number;
        assert i < last ==> init[i].question == q && init[i].number == number;
      }
      assert versions[last].question == q && versions[last].number == number ==> VersionTaken(versions, q, number);
    }
  }

  /** Appending version `number` is accepted by the unique constraint exactly when it is the next one. */
  lemma AddVersionExactlyNext(s: Store, v: Version)
    requires Numbered(s.versions) && 1 <= v.number <= Count(s.versions, v.question) + 1
    ensures AddVersion(s, v).Some? <==> v.number == Count(s.versions, v.question) + 1
    ensures AddVersion(s, v).Some? ==> Numbered(AddVersion(s, v).value.versions)
  {
    TakenNumbersAreOneToN(s.versions, v.question, v.number);
    if v.number == Count(s.versions, v.question) + 1 {
      NumberedSnoc(s.versions, v);
    }
  }

  // ----- Rows that commands rely on -----

  ghost predicate HasRow(versions: seq<Version>, v: Version) {
    v in versions
  }

  lemma {:induction false} LatestRowIsRow(versions: seq<Version>, q: nat)
    requires LatestRow(versions, q).Some?
    ensures HasRow(versions, LatestRow(versions, q).value)
  {
    if LatestRow(versions[..|versions| - 1], q).Some? {
      LatestRowIsRow(versions[..|versions| - 1], q);
    }
  }

  /** A command's own columns: never changed once it exists. */
  ghost predicate Rooted(s: Store, c: Command) {
    && c.question < |s.questions|
    && c.to == s.questions[c.question].to
    && (c.kind == SendReply ==>
          && c.key == Key(c.question, SendReply, c.replyVersion)
          // the text sent is the newest draft at confirmation and the stored final version
          && HasRow(s.versions, Version(c.question, c.replyVersion, c.text, FinalSent))
          && HasRow(s.versions, Version(c.question, c.replyVersion - 1, c.text, Draft)))
    && (c.kind == EditReply ==>
          && c.key == Key(c.question, EditReply, c.replyVersion - 1)
          && HasRow(s.versions, Version(c.question, c.replyVersion - 1, c.text, Draft)))
  }

  ghost predicate AllRooted(s: Store) {
    forall c :: 0 <= c < |s.commands| ==> Rooted(s, s.commands[c])
  }

  ghost predicate OneSendEach(commands: seq<Command>) {
    forall c :: 0 <= c < |commands| && commands[c].kind == SendReply ==> FindSend(commands, commands[c].question) == Some(c)
  }

  ghost predicate KeysUnique(commands: seq<Command>) {
    forall c, d :: 0 <= c < d < |commands| ==> commands[c].key != commands[d].key
  }

  const NO_SEND: set<QuestionStatus> := {Detected, WaitingForDraft, WaitingConfirmation, Dismissed, Cancelled}

  /** How a question's status and its send command go together. */
  ghost predicate Coupled(s: Store, q: nat)
    requires q < |s.questions|
  {
    var status, send := s.questions[q].status, FindSend(s.commands, q);
    && (send.None? <==> status in NO_SEND)
    && (send.Some? ==>
          var c := s.commands[send.value];
          && (status == SendRequested <==> c.status in {Pending, Processing})
          && (status == Sent <==> c.status == Succeeded)
          && (status == SendFailed <==> c.status in {Failed, NeedsReview})
          && (status == Sent ==> c.sentId.Some?))
  }

  ghost predicate AllCoupled(s: Store) {
    forall q :: 0 <= q < |s.questions| ==> Coupled(s, q)
  }

  /** An edit command aims at the message its question's successful send stored. */
  ghost predicate Aimed(s: Store, c: Command) {
    c.kind == EditReply ==>
      c.question < |s.questions| && s.questions[c.question].status == Sent
      && c.sentId.Some? && c.sentId == StoredSentId(s.commands, c.question)
  }

  ghost predicate AllAimed(s: Store) {
    forall c :: 0 <= c < |s.commands| ==> Aimed(s, s.commands[c])
  }

  ghost predicate Sound(s: Store) {
    && Numbered(s.versions)
    && AllRooted(s)
    && KeysUnique(s.commands)
    && OneSendEach(s.commands)
    && AllCoupled(s)
    && AllAimed(s)
  }

  // ----- Elementary changes -----

  /** Only workflow columns differ. */
  predicate SameIdentity(c: Command, d: Command) {
    c.question == d.question && c.kind == d.kind && c.replyVersion == d.replyVersion && c.key == d.key
    && c.to == d.to && c.text == d.text
  }

  lemma {:induction false} FindSendAfterUpdate(commands: seq<Command>, c: nat, d: Command, q: nat)
    requires c < |commands| && SameIdentity(commands[c], d)
    ensures FindSend(commands[c := d], q) == FindSend(commands, q)
  {
    var last := |commands| - 1;
    if c < last {
      assert commands[c := d][..last] == commands[..last][c := d];
      FindSendAfterUpdate(commands[..last], c, d, q);
    } else {
      assert commands[c := d][..last] == commands[..last];
    }
  }

  lemma FindSendAfterAppend(commands: seq<Command>, d: Command, q: nat)
    ensures FindSend(commands + [d], q) ==
            if d.kind == SendReply && d.question == q then Some(|commands|) else FindSend(commands, q)
  {
  }

  /** A question moves between statuses that go with having no send command. */
  lemma MoveWithoutSend(s: Store, q: nat, status: QuestionStatus)
    requires Sound(s) && HasStatus(s, q, NO_SEND) && status in NO_SEND
    ensures Sound(SetStatus(s, q, status))
  {
    StatusKeepsRooted(s, q, status);
    MoveWithoutSendKeepsCoupled(s, q, status);
    MoveWithoutSendKeepsAimed(s, q, status);
  }

  lemma MoveWithoutSendKeepsCoupled(s: Store, q: nat, status: QuestionStatus)
    requires AllCoupled(s) && HasStatus(s, q, NO_SEND) && status in NO_SEND
    ensures AllCoupled(SetStatus(s, q, status))
  {
    var t := SetStatus(s, q, status);
    forall p | 0 <= p < |t.questions| ensures Coupled(t, p) {
      assert Coupled(s, p);
    }
  }

  lemma MoveWithoutSendKeepsAimed(s: Store, q: nat, status: QuestionStatus)
    requires AllAimed(s) && HasStatus(s, q, NO_SEND) && status in NO_SEND
    ensures AllAimed(SetStatus(s, q, status))
  {
    var t := SetStatus(s, q, status);
    forall c | 0 <= c < |t.commands| ensures Aimed(t, t.commands[c]) {
      assert Aimed(s, s.commands[c]);
    }
  }

  lemma AppendVersion(s: Store, v: Version)
    requires Sound(s) && v.number == Count(s.versions, v.question) + 1
    ensures AddVersion(s, v) == Some(s.(versions := s.versions + [v]))
    ensures Sound(s.(versions := s.versions + [v]))
  {
    var t := s.(versions := s.versions + [v]);
    AddVersionExactlyNext(s, v);
    forall q | 0 <= q < |t.questions| ensures Coupled(t, q) {
      assert Coupled(s, q);
    }
    forall c | 0 <= c < |t.commands| ensures Rooted(t, t.commands[c]) && Aimed(t, t.commands[c]) {
      assert Rooted(s, s.commands[c]) && Aimed(s, s.commands[c]);
    }
  }

  /** Workflow columns play no part in identities, keys or one-send-each. */
  lemma UpdateKeepsIdentities(s: Store, c: nat, d: Command)
    requires c < |s.commands| && SameIdentity(s.commands[c], d)
    requires AllRooted(s) && KeysUnique(s.commands) && OneSendEach(s.commands)
    ensures var t := SetCommand(s, c, d); AllRooted(t) && KeysUnique(t.commands) && OneSendEach(t.commands)
  {
    var t := SetCommand(s, c, d);
    forall e | 0 <= e < |t.commands| ensures Rooted(t, t.commands[e]) {
      assert Rooted(s, s.commands[e]);
    }
    forall e | 0 <= e < |t.commands| && t.commands[e].kind == SendReply
      ensures FindSend(t.commands, t.commands[e].question) == Some(e)
    {
      FindSendAfterUpdate(s.commands, c, d, s.commands[e].question);
    }
  }

  lemma StatusKeepsRooted(s: Store, q: nat, status: QuestionStatus)
    requires q < |s.questions| && AllRooted(s)
    ensures AllRooted(SetStatus(s, q, status))
  {
  }

  /** A send command and its question change together. */
  lemma MoveSend(s: Store, c: nat, d: Command, status: QuestionStatus)
    requires Sound(s) && c < |s.commands| && s.commands[c].kind == SendReply && SameIdentity(s.commands[c], d)
    requires HasStatus(s, d.question, {SendRequested})
    requires status == SendRequested <==> d.status in {Pending, Processing}
    requires status == Sent <==> d.status == Succeeded
    requires status == SendFailed <==> d.status in {Failed, NeedsReview}
    requires status == Sent ==> d.sentId.Some?
    ensures Sound(SetStatus(SetCommand(s, c, d), d.question, status))
  {
    UpdateKeepsIdentities(s, c, d);
    StatusKeepsRooted(SetCommand(s, c, d), d.question, status);
    MoveSendKeepsCoupled(s, c, d, status);
    MoveSendKeepsAimed(s, c, d, status);
  }

  lemma MoveSendKeepsCoupled(s: Store, c: nat, d: Command, status: QuestionStatus)
    requires OneSendEach(s.commands) && AllCoupled(s)
    requires c < |s.commands| && s.commands[c].kind == SendReply && SameIdentity(s.commands[c], d)
    requires HasStatus(s, d.question, {SendRequested})
    requires status == SendRequested <==> d.status in {Pending, Processing}
    requires status == Sent <==> d.status == Succeeded
    requires status == SendFailed <==> d.status in {Failed, NeedsReview}
    requires status == Sent ==> d.sentId.Some?
    ensures AllCoupled(SetStatus(SetCommand(s, c, d), d.question, status))
  {
    var t := SetStatus(SetCommand(s, c, d), d.question, status);
    assert FindSend(s.commands, d.question) == Some(c);
    forall p | 0 <= p < |t.questions| ensures Coupled(t, p) {
      assert Coupled(s, p);
      FindSendAfterUpdate(s.commands, c, d, p);
    }
  }

  /** A question that is not yet sent has no edit commands to disturb. */
  lemma MoveSendKeepsAimed(s: Store, c: nat, d: Command, status: QuestionStatus)
    requires AllAimed(s)
    requires c < |s.commands| && s.commands[c].kind == SendReply && SameIdentity(s.commands[c], d)
    requires HasStatus(s, d.question, {SendRequested})
    ensures AllAimed(SetStatus(SetCommand(s, c, d), d.question, status))
  {
    var t := SetStatus(SetCommand(s, c, d), d.question, status);
    forall e | 0 <= e < |t.commands| ensures Aimed(t, t.commands[e]) {
      assert Aimed(s, s.commands[e]);
      FindSendAfterUpdate(s.commands, c, d, s.commands[e].question);
    }
  }

  /** An edit command moves without its question. */
  lemma MoveEdit(s: Store, c: nat, d: Command)
    requires Sound(s) && c < |s.commands| && s.commands[c].kind == EditReply && SameIdentity(s.commands[c], d)
    requires d.sentId == s.commands[c].sentId
    ensures Sound(SetCommand(s, c, d))
  {
    UpdateKeepsIdentities(s, c, d);
    MoveEditKeepsCoupled(s, c, d);
    MoveEditKeepsAimed(s, c, d);
  }

  lemma SendAfterEditMoves(commands: seq<Command>, c: nat, d: Command, q: nat)
    requires c < |commands| && commands[c].kind == EditReply && SameIdentity(commands[c], d)
    ensures FindSend(commands[c := d], q) == FindSend(commands, q) && StoredSentId(commands[c := d], q) == StoredSentId(commands, q)
  {
    FindSendAfterUpdate(commands, c, d, q);
  }

  lemma MoveEditKeepsCoupled(s: Store, c: nat, d: Command)
    requires AllCoupled(s) && c < |s.commands| && s.commands[c].kind == EditReply && SameIdentity(s.commands[c], d)
    ensures AllCoupled(SetCommand(s, c, d))
  {
    var t := SetCommand(s, c, d);
    forall p | 0 <= p < |t.questions| ensures Coupled(t, p) {
      assert Coupled(s, p);
      SendAfterEditMoves(s.commands, c, d, p);
    }
  }

  lemma MoveEditKeepsAimed(s: Store, c: nat, d: Command)
    requires AllAimed(s) && c < |s.commands| && s.commands[c].kind == EditReply && SameIdentity(s.commands[c], d)
    requires d.sentId == s.commands[c].sentId
    ensures AllAimed(SetCommand(s, c, d))
  {
    var t := SetCommand(s, c, d);
    forall e | 0 <= e < |t.commands| ensures Aimed(t, t.commands[e]) {
      assert Aimed(s, s.commands[e]);
      SendAfterEditMoves(s.commands, c, d, s.commands[e].question);
    }
  }

  /** Appending a rooted command under a new key keeps identities in order. */
  lemma AppendKeepsIdentities(s: Store, d: Command)
    requires AllRooted(s) && KeysUnique(s.commands) && OneSendEach(s.commands)
    requires Rooted(s, d) && !KeyTaken(s.commands, d.key)
    requires d.kind == SendReply ==> FindSend(s.commands, d.question).None?
    ensures var t := s.(commands := s.commands + [d]); AllRooted(t) && KeysUnique(t.commands) && OneSendEach(t.commands)
  {
  }

  /** A question gains its one send command as it becomes requested. */
  lemma AddSend(s: Store, d: Command)
    requires Sound(s) && Rooted(s, d) && d.kind == SendReply && d.status == Pending && !KeyTaken(s.commands, d.key)
    requires HasStatus(s, d.question, NO_SEND)
    ensures Sound(SetStatus(s.(commands := s.commands + [d]), d.question, SendRequested))
  {
    assert Coupled(s, d.question);
    AppendKeepsIdentities(s, d);
    StatusKeepsRooted(s.(commands := s.commands + [d]), d.question, SendRequested);
    AddSendKeepsCoupled(s, d);
    AddSendKeepsAimed(s, d);
  }

  lemma AddSendKeepsCoupled(s: Store, d: Command)
    requires AllCoupled(s) && d.kind == SendReply && d.status == Pending && HasStatus(s, d.question, NO_SEND)
    ensures AllCoupled(SetStatus(s.(commands := s.commands + [d]), d.question, SendRequested))
  {
    var u := SetStatus(s.(commands := s.commands + [d]), d.question, SendRequested);
    forall p | 0 <= p < |u.questions| ensures Coupled(u, p) {
      assert Coupled(s, p);
      FindSendAfterAppend(s.commands, d, p);
    }
  }

  lemma AddSendKeepsAimed(s: Store, d: Command)
    requires AllAimed(s) && d.kind == SendReply && HasStatus(s, d.question, NO_SEND)
    ensures AllAimed(SetStatus(s.(commands := s.commands + [d]), d.question, SendRequested))
  {
  }

  lemma AddEdit(s: Store, d: Command)
    requires Sound(s) && Rooted(s, d) && d.kind == EditReply && !KeyTaken(s.commands, d.key)
    requires HasStatus(s, d.question, {Sent}) && d.sentId == StoredSentId(s.commands, d.question) && d.sentId.Some?
    ensures Sound(s.(commands := s.commands + [d]))
  {
    var t := s.(commands := s.commands + [d]);
    AppendKeepsIdentities(s, d);
    forall p | 0 <= p < |t.questions| ensures Coupled(t, p) {
      assert Coupled(s, p);
      FindSendAfterAppend(s.commands, d, p);
    }
    forall e | 0 <= e < |t.commands| ensures Aimed(t, t.commands[e]) {
      FindSendAfterAppend(s.commands, d, t.commands[e].question);
      if e < |s.commands| {
        assert Aimed(s, s.commands[e]);
      }
    }
  }

  lemma NoCommandYet(s: Store, q: nat)
    requires AllRooted(s) && q >= |s.questions|
    ensures FindSend(s.commands, q).None?
  {
  }

  /** Questions may be added, and chats detached, without touching anything else. */
  lemma QuestionsGrow(s: Store, questions: seq<Question>)
    requires Sound(s) && |s.questions| <= |questions|
    requires forall q :: 0 <= q < |s.questions| ==>
               questions[q].status == s.questions[q].status && questions[q].to == s.questions[q].to
    requires forall q :: |s.questions| <= q < |questions| ==> questions[q].status == Detected
    ensures Sound(s.(questions := questions))
  {
    var t := s.(questions := questions);
    forall c | 0 <= c < |t.commands| ensures Rooted(t, t.commands[c]) && Aimed(t, t.commands[c]) {
      assert Rooted(s, s.commands[c]) && Aimed(s, s.commands[c]);
    }
    forall q | 0 <= q < |t.questions| ensures Coupled(t, q) {
      if q < |s.questions| {
        assert Coupled(s, q);
      } else {
        NoCommandYet(s, q);
      }
    }
  }

  // ----- Stale recovery: a bulk change -----

  lemma {:induction false} FindSendAfterRecovery(commands: seq<Command>, staleBefore: int, q: nat)
    ensures FindSend(RecoveredCommands(commands, staleBefore), q) == FindSend(commands, q)
  {
    if commands != [] {
      var last := |commands| - 1;
      assert RecoveredCommands(commands, staleBefore)[..last] == RecoveredCommands(commands[..last], staleBefore);
      FindSendAfterRecovery(commands[..last], staleBefore, q);
    }
  }

  lemma RecoveryKeepsIdentities(s: Store, staleBefore: int)
    requires AllRooted(s) && KeysUnique(s.commands) && OneSendEach(s.commands)
    ensures var t := RecoverStale(s, staleBefore); AllRooted(t) && KeysUnique(t.commands) && OneSendEach(t.commands)
  {
    var t := RecoverStale(s, staleBefore);
    forall c | 0 <= c < |t.commands| ensures Rooted(t, t.commands[c]) && SameIdentity(s.commands[c], t.commands[c]) {
      assert Rooted(s, s.commands[c]);
    }
    forall c | 0 <= c < |t.commands| && t.commands[c].kind == SendReply
      ensures FindSend(t.commands, t.commands[c].question) == Some(c)
    {
      FindSendAfterRecovery(s.commands, staleBefore, s.commands[c].question);
    }
  }

  /** A question has a stale send exactly when its one send command is stale. */
  lemma StaleSendIsTheSend(s: Store, q: nat, staleBefore: int)
    requires OneSendEach(s.commands)
    ensures HasStaleSend(s.commands, q, staleBefore) <==>
            FindSend(s.commands, q).Some? && Stale(s.commands[FindSend(s.commands, q).value], staleBefore)
  {
  }

  lemma RecoveryKeepsCoupled(s: Store, staleBefore: int, q: nat)
    requires OneSendEach(s.commands) && q < |s.questions| && Coupled(s, q)
    ensures Coupled(RecoverStale(s, staleBefore), q)
  {
    StaleSendIsTheSend(s, q, staleBefore);
    FindSendAfterRecovery(s.commands, staleBefore, q);
  }

  lemma RecoveryKeepsAllCoupled(s: Store, staleBefore: int)
    requires OneSendEach(s.commands) && AllCoupled(s)
    ensures AllCoupled(RecoverStale(s, staleBefore))
  {
    forall q | 0 <= q < |s.questions| ensures Coupled(RecoverStale(s, staleBefore), q) {
      RecoveryKeepsCoupled(s, staleBefore, q);
    }
  }

  lemma RecoveryKeepsAllAimed(s: Store, staleBefore: int)
    requires OneSendEach(s.commands) && AllCoupled(s) && AllAimed(s)
    ensures AllAimed(RecoverStale(s, staleBefore))
  {
    var t := RecoverStale(s, staleBefore);
    forall c | 0 <= c < |t.commands| ensures Aimed(t, t.commands[c]) {
      RecoveryKeepsAimed(s, staleBefore, c);
    }
  }

  lemma RecoveryKeepsSound(s: Store, staleBefore: int)
    requires Sound(s)
    ensures Sound(RecoverStale(s, staleBefore))
  {
    RecoveryKeepsIdentities(s, staleBefore);
    RecoveryKeepsAllCoupled(s, staleBefore);
    RecoveryKeepsAllAimed(s, staleBefore);
  }

  lemma RecoveryKeepsAimed(s: Store, staleBefore: int, c: nat)
    requires OneSendEach(s.commands) && AllCoupled(s) && c < |s.commands| && Aimed(s, s.commands[c])
    ensures Aimed(RecoverStale(s, staleBefore), RecoverStale(s, staleBefore).commands[c])
  {
    assert Aimed(s, s.commands[c]);
    if s.commands[c].kind == EditReply {
      var q := s.commands[c].question;
      assert Coupled(s, q);
      StaleSendIsTheSend(s, q, staleBefore);
      FindSendAfterRecovery(s.commands, staleBefore, q);
    }
  }
}
