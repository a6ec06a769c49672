/**
 * The outbound reply protocol as transactions on the tables `detected_questions`,
 * `reply_versions`, `outbound_commands` and the operator's session row. A row's id is its index:
 * ids are opaque to the code and no step of this protocol deletes a row. A transaction that
 * raises is `None`; its caller rolls back.
 */
module Outbound {
  import opened Wrappers
  import opened RetryPolicies

  datatype QuestionStatus =
    | Detected | WaitingForDraft | WaitingConfirmation | SendRequested | Sent | SendFailed | Dismissed | Cancelled

  datatype CommandStatus = Pending | Processing | Succeeded | Failed | NeedsReview

  datatype Kind = SendReply | EditReply

  datatype ErrorCode =
    | SourceMessageDeleted | ChatWriteForbidden | TopicClosed | TopicDeleted | FloodWait | AccessLost | UnknownError
    | InvalidEditTarget | StaleLockRecovered

  datatype Action = Draft | FinalSent | FinalEdited

  datatype Destination = Destination(chatId: int, messageId: int, topicId: Option<int>)

  /** `chat` is the monitored chat row, None once that row has been removed. */
  datatype Question = Question(status: QuestionStatus, chat: Option<int>, to: Destination)

  datatype Version = Version(question: nat, number: int, text: string, action: Action)

  /** The unique idempotency key `question:kind:number`. */
  datatype Key = Key(question: nat, kind: Kind, number: int)

  datatype Command = Command(
    question: nat,
    kind: Kind,
    replyVersion: int,
    key: Key,
    to: Destination,
    sentId: Option<int>,
    text: string,
    status: CommandStatus,
    attempts: int,
    nextAttemptAt: int,
    lockedAt: Option<int>,
    lastError: Option<ErrorCode>,
    completedAt: Option<int>
  )

  datatype Store = Store(questions: seq<Question>, versions: seq<Version>, commands: seq<Command>, active: Option<nat>)

  // ----- Queries -----

  /** The version with the greatest number. */
  function LatestRow(versions: seq<Version>, q: nat): Option<Version> {
    if versions == [] then None
    else
      var before, last := LatestRow(versions[..|versions| - 1], q), versions[|versions| - 1];
      if last.question == q && (before.None? || before.value.number <= last.number) then Some(last) else before
  }

  function LatestNumber(versions: seq<Version>, q: nat): int {
    if LatestRow(versions, q).Some? then LatestRow(versions, q).value.number else 0
  }

  function LatestFinal(versions: seq<Version>, q: nat): Option<Version> {
    if versions == [] then None
    else
      var before, last := LatestFinal(versions[..|versions| - 1], q), versions[|versions| - 1];
      if last.question == q && last.action != Draft && (before.None? || before.value.number <= last.number)
      then Some(last) else before
  }

  predicate VersionTaken(versions: seq<Version>, q: nat, number: int) {
    exists i :: 0 <= i < |versions| && versions[i].question == q && versions[i].number == number
  }

  predicate KeyTaken(commands: seq<Command>, key: Key) {
    exists c :: 0 <= c < |commands| && commands[c].key == key
  }

  function FindKey(commands: seq<Command>, key: Key): (r: Option<nat>)
    ensures r.Some? ==> r.value < |commands| && commands[r.value].key == key
    ensures r.None? ==> !KeyTaken(commands, key)
  {
    if commands == [] then None
    else
      var last := |commands| - 1;
      if commands[last].key == key then Some(last) else FindKey(commands[..last], key)
  }

  /** The send command of a question. */
  function FindSend(commands: seq<Command>, q: nat): (r: Option<nat>)
    ensures r.Some? ==> r.value < |commands| && commands[r.value].kind == SendReply && commands[r.value].question == q
    ensures r.None? ==> forall c :: 0 <= c < |commands| && commands[c].kind == SendReply ==> commands[c].question != q
  {
    if commands == [] then None
    else
      var last := |commands| - 1;
      if commands[last].kind == SendReply && commands[last].question == q then Some(last) else FindSend(commands[..last], q)
  }

  /** The message id stored by the question's successful send. */
  function StoredSentId(commands: seq<Command>, q: nat): Option<int> {
    var c := FindSend(commands, q);
    if c.Some? && commands[c.value].status == Succeeded then commands[c.value].sentId else None
  }

  // ----- Small writes -----

  function SetStatus(s: Store, q: nat, status: QuestionStatus): Store
    requires q < |s.questions|
  {
    s.(questions := s.questions[q := s.questions[q].(status := status)])
  }

  function SetCommand(s: Store, c: nat, command: Command): Store
    requires c < |s.commands|
  {
    s.(commands := s.commands[c := command])
  }

  function AddVersion(s: Store, v: Version): Option<Store> {
    if VersionTaken(s.versions, v.question, v.number) then None else Some(s.(versions := s.versions + [v]))
  }

  function AddCommand(s: Store, c: Command): Option<Store> {
    if KeyTaken(s.commands, c.key) then None else Some(s.(commands := s.commands + [c]))
  }

  predicate HasStatus(s: Store, q: nat, statuses: set<QuestionStatus>) {
    q < |s.questions| && s.questions[q].status in statuses
  }

  // ----- Drafts (app/database/repositories/reply_drafts.py) -----

  /**
   * `open` writes the status before it looks the chat up, so a missing chat row raises with the
   * write already made: the flag says whether it raised.
   */
  function OpenDraft(s: Store, q: nat): (Store, bool) {
    if !HasStatus(s, q, {Detected, WaitingForDraft, WaitingConfirmation}) then (s, false)
    else (SetStatus(s, q, WaitingForDraft), s.questions[q].chat.Some?)
  }

  function CreateVersion(s: Store, q: nat, text: string): Option<Store> {
    if !HasStatus(s, q, {WaitingForDraft}) then None
    else
      var added := AddVersion(s, Version(q, LatestNumber(s.versions, q) + 1, text, Draft));
      if added.None? || s.questions[q].chat.None? then None
      else Some(SetStatus(added.value, q, WaitingConfirmation))
  }

  function ReopenForEdit(s: Store, q: nat): Option<Store> {
    if HasStatus(s, q, {WaitingConfirmation}) then Some(SetStatus(s, q, WaitingForDraft)) else None
  }

  function CancelDraft(s: Store, q: nat): Option<Store> {
    if HasStatus(s, q, {Cancelled}) then Some(s)
    else if HasStatus(s, q, {WaitingForDraft, WaitingConfirmation}) then Some(SetStatus(s, q, Cancelled))
    else None
  }

  // ----- Feedback (app/database/repositories/question_feedback.py) -----

  function Dismiss(s: Store, q: nat): Option<Store> {
    if HasStatus(s, q, {Dismissed}) then Some(s)
    else if HasStatus(s, q, {Detected}) then Some(SetStatus(s, q, Dismissed))
    else None
  }

  function Reopen(s: Store, q: nat): Option<Store> {
    if HasStatus(s, q, {Detected}) then Some(s)
    else if HasStatus(s, q, {Dismissed}) then Some(SetStatus(s, q, Detected))
    else None
  }

  // ----- Sending (app/database/repositories/outbound_commands.py) -----

  datatype Confirmed = Confirmed(command: nat, replyVersion: int, text: string, created: bool)

  function NewCommand(s: Store, q: nat, kind: Kind, replyVersion: int, number: int, sentId: Option<int>, text: string, now: int): Command
    requires q < |s.questions|
  {
    Command(q, kind, replyVersion, Key(q, kind, number), s.questions[q].to, sentId, text, Pending, 0, now, None, None, None)
  }

  function ConfirmSend(s: Store, q: nat, now: int): Option<(Store, Confirmed)> {
    if q >= |s.questions| then None
    else
      var existing := FindSend(s.commands, q);
      if existing.Some? then
        if s.questions[q].status != SendRequested then None
        else
          var c := s.commands[existing.value];
          Some((s, Confirmed(existing.value, c.replyVersion, c.text, false)))
      else
        var preview := LatestRow(s.versions, q);
        if s.questions[q].status != WaitingConfirmation || preview.None? || preview.value.action != Draft then None
        else
          var final, text := LatestNumber(s.versions, q) + 1, preview.value.text;
          var versioned := AddVersion(s, Version(q, final, text, FinalSent));
          if versioned.None? then None
          else
            var queued := AddCommand(versioned.value, NewCommand(s, q, SendReply, final, final, None, text, now));
            if queued.None? then None
            else Some((SetStatus(queued.value, q, SendRequested), Confirmed(|s.commands|, final, text, true)))
  }

  predicate Due(s: Store, c: nat, kind: Kind, now: int) {
    c < |s.commands| && s.commands[c].kind == kind && s.commands[c].status == Pending && s.commands[c].nextAttemptAt <= now
  }

  function Claim(s: Store, c: nat, now: int): Store
    requires c < |s.commands|
  {
    SetCommand(s, c, s.commands[c].(status := Processing, attempts := s.commands[c].attempts + 1, lockedAt := Some(now)))
  }

  function Released(c: Command, status: CommandStatus, error: Option<ErrorCode>): Command {
    c.(status := status, lastError := error, lockedAt := None)
  }

  function CompleteSend(s: Store, c: nat, sentId: int, now: int): Option<Store>
    requires c < |s.commands|
  {
    var q := s.commands[c].question;
    if !HasStatus(s, q, {SendRequested}) then None
    else
      var done := s.commands[c].(status := Succeeded, sentId := Some(sentId), completedAt := Some(now), lockedAt := None);
      Some(SetStatus(SetCommand(s, c, done), q, Sent))
  }

  function RetrySend(s: Store, c: nat, code: ErrorCode, now: int, delay: int): Store
    requires c < |s.commands|
  {
    SetCommand(s, c, Released(s.commands[c], Pending, Some(code)).(nextAttemptAt := now + delay))
  }

  function FailSend(s: Store, c: nat, code: ErrorCode, needsReview: bool): Store
    requires c < |s.commands| && s.commands[c].question < |s.questions|
  {
    SetStatus(SetCommand(s, c, Released(s.commands[c], if needsReview then NeedsReview else Failed, Some(code))),
              s.commands[c].question, SendFailed)
  }

  // ----- Editing -----

  function PrepareEdit(s: Store, q: nat, text: string): Option<Store> {
    if !HasStatus(s, q, {Sent}) || LatestFinal(s.versions, q).None? || StoredSentId(s.commands, q).None? then None
    else AddVersion(s, Version(q, LatestNumber(s.versions, q) + 1, text, Draft))
  }

  function ConfirmEdit(s: Store, q: nat, now: int): Option<(Store, Confirmed)> {
    var preview := LatestRow(s.versions, q);
    if !HasStatus(s, q, {Sent}) || preview.None? || preview.value.action != Draft then None
    else
      var number, text := preview.value.number, preview.value.text;
      var existing := FindKey(s.commands, Key(q, EditReply, number));
      if existing.Some? then
        var c := s.commands[existing.value];
        Some((s, Confirmed(existing.value, c.replyVersion, c.text, false)))
      else
        var sentId := StoredSentId(s.commands, q);
        if sentId.None? then None
        else
          var queued := AddCommand(s, NewCommand(s, q, EditReply, number + 1, number, sentId, text, now));
          if queued.None? then None
          else Some((queued.value, Confirmed(|s.commands|, number + 1, text, true)))
  }

  function CompleteEdit(s: Store, c: nat, now: int): Option<Store>
    requires c < |s.commands|
  {
    var command := s.commands[c];
    if !HasStatus(s, command.question, {Sent}) then None
    else
      var versioned := AddVersion(s, Version(command.question, command.replyVersion, command.text, FinalEdited));
      if versioned.None? then None
      else Some(SetCommand(versioned.value, c, command.(status := Succeeded, completedAt := Some(now), lockedAt := None)))
  }

  function FailEdit(s: Store, c: nat, code: ErrorCode): Store
    requires c < |s.commands|
  {
    SetCommand(s, c, Released(s.commands[c], Failed, Some(code)))
  }

  predicate ManualRetryAllowed(c: Command) {
    c.status == Failed && c.kind == EditReply && c.sentId.Some? && c.lastError == Some(UnknownError)
  }

  function RetryFailed(s: Store, c: nat, now: int): Option<Store> {
    if c >= |s.commands| || !ManualRetryAllowed(s.commands[c]) then None
    else Some(SetCommand(s, c, s.commands[c].(status := Pending, nextAttemptAt := now, lockedAt := None)))
  }

  // ----- Stale claims -----

  predicate Stale(c: Command, staleBefore: int) {
    c.status == Processing && c.lockedAt.Some? && c.lockedAt.value < staleBefore
  }

  predicate HasStaleSend(commands: seq<Command>, q: nat, staleBefore: int) {
    exists c :: 0 <= c < |commands| && commands[c].kind == SendReply && commands[c].question == q && Stale(commands[c], staleBefore)
  }

  function RecoveredCommands(commands: seq<Command>, staleBefore: int): (r: seq<Command>)
    ensures |r| == |commands|
    ensures forall c :: 0 <= c < |r| ==>
              r[c] == if Stale(commands[c], staleBefore)
                      then Released(commands[c], NeedsReview, Some(StaleLockRecovered)) else commands[c]
  {
    seq(|commands|, c requires 0 <= c < |commands| =>
      if Stale(commands[c], staleBefore) then Released(commands[c], NeedsReview, Some(StaleLockRecovered)) else commands[c])
  }

  function RecoveredQuestions(s: Store, staleBefore: int): (r: seq<Question>)
    ensures |r| == |s.questions|
    ensures forall q :: 0 <= q < |r| ==>
              r[q] == if HasStaleSend(s.commands, q, staleBefore) then s.questions[q].(status := SendFailed) else s.questions[q]
  {
    seq(|s.questions|, q requires 0 <= q < |s.questions| =>
      if HasStaleSend(s.commands, q, staleBefore) then s.questions[q].(status := SendFailed) else s.questions[q])
  }

  function RecoverStale(s: Store, staleBefore: int): Store {
    s.(commands := RecoveredCommands(s.commands, staleBefore), questions := RecoveredQuestions(s, staleBefore))
  }

  // ----- Operator handlers (app/bot/handlers/replies.py), each one transaction -----

  /** Replacing cancels the draft that was open, if it can still be cancelled. */
  function BeforeOpen(s: Store, q: nat): Store {
    if s.active.None? || s.active.value == q then s
    else
      var cancelled := CancelDraft(s, s.active.value);
      if cancelled.Some? then cancelled.value else s
  }

  /**
   * `_open_question`. It returns from inside its transaction after a caught failure, so whatever
   * was written before commits: the cancellation of the old draft, and the new question's status
   * if its chat row is gone.
   */
  function HandleOpen(s: Store, q: nat, replace: bool): Store {
    if s.active.Some? && s.active.value != q && !replace then s
    else
      var (written, ok) := OpenDraft(BeforeOpen(s, q), q);
      if ok then written.(active := Some(q)) else written
  }

  function HandleDraftText(s: Store, q: nat, text: string): Option<Store> {
    if s.active != Some(q) then None else CreateVersion(s, q, text)
  }

  function HandleEditDraft(s: Store, q: nat): Option<Store> {
    if s.active != Some(q) then None else ReopenForEdit(s, q)
  }

  function HandleCancel(s: Store, q: nat): Option<Store> {
    if s.active != Some(q) then None
    else
      var cancelled := CancelDraft(s, q);
      if cancelled.None? then None else Some(cancelled.value.(active := None))
  }

  function HandleConfirm(s: Store, q: nat, now: int): Option<(Store, Confirmed)> {
    if s.active != Some(q) then None
    else
      var confirmed := ConfirmSend(s, q, now);
      if confirmed.None? then None else Some((confirmed.value.0.(active := None), confirmed.value.1))
  }

  // ----- What the workers meet outside the database -----

  datatype FailureKind = Permanent | Temporary(retryAfter: Option<int>) | Ambiguous(landed: bool)

  datatype SendFailure = SendFailure(code: ErrorCode, kind: FailureKind)

  /**
   * `verify_chat` and `get_reply_message` before a send: a refusal is always permanent, and an
   * exception of any other kind leaves the transaction.
   */
  datatype Check = Passed | Refuses(code: ErrorCode) | Transient | Raises

  /**
   * `SendLost`: the transaction ends by a crash or an exception of any other kind once the send has
   * been attempted; Telegram may have accepted it all the same.
   */
  datatype SendAnswer = SendAccepted(messageId: int) | SendError(failure: SendFailure) | SendLost(landed: bool)

  datatype EditAnswer = EditAccepted | EditError(code: ErrorCode) | EditLost

  // ----- Everything that was attempted outside, kept beside the tables -----

  datatype Result = Accepted(messageId: int) | NotAccepted | Unknown(landed: bool) | Lost(landed: bool)

  datatype Attempt = Attempt(command: nat, to: Destination, text: string, result: Result)

  datatype Retry = Retry(command: nat, code: ErrorCode)

  datatype EditAttempt = EditAttempt(command: nat, messageId: int, text: string)

  datatype World = World(store: Store, sends: seq<Attempt>, retries: seq<Retry>, edits: seq<EditAttempt>)

  const EMPTY := World(Store([], [], [], None), [], [], [])

  function SendResult(answer: SendAnswer): Result {
    match answer
    case SendAccepted(id) => Accepted(id)
    case SendError(SendFailure(_, Ambiguous(landed))) => Unknown(landed)
    case SendError(_) => NotAccepted
    case SendLost(landed) => Lost(landed)
  }

  /** `_record_error`, given the claimed command. */
  function RecordError(w: World, c: nat, failure: SendFailure, now: int): World
    requires c < |w.store.commands| && w.store.commands[c].question < |w.store.questions|
  {
    var s, code := w.store, failure.code;
    match failure.kind
    case Temporary(retryAfter) =>
      if code == FloodWait then
        w.(store := RetrySend(s, c, code, now, if retryAfter.Some? then retryAfter.value else 0),
           retries := w.retries + [Retry(c, code)])
      else if MayRetry(s.commands[c].attempts) then
        w.(store := RetrySend(s, c, code, now, RetryDelay(s.commands[c].attempts)),
           retries := w.retries + [Retry(c, code)])
      else w.(store := FailSend(s, c, code, true))
    case Permanent => w.(store := FailSend(s, c, code, false))
    case Ambiguous(_) => w.(store := FailSend(s, c, code, true))
  }

  predicate DestinationMatches(s: Store, c: nat) {
    c < |s.commands| && HasStatus(s, s.commands[c].question, {SendRequested})
    && s.questions[s.commands[c].question].to == s.commands[c].to
  }

  /** `SendReplyWorker.run_once` on the due command `c`. */
  function SendRun(w: World, c: nat, now: int, check: Check, answer: SendAnswer): World {
    if !Due(w.store, c, SendReply, now) then w
    else
      var claimed := w.(store := Claim(w.store, c, now));
      if !DestinationMatches(claimed.store, c) then w
      else match check
        case Raises => w
        case Refuses(code) => RecordError(claimed, c, SendFailure(code, Permanent), now)
        case Transient => RecordError(claimed, c, SendFailure(UnknownError, Temporary(None)), now)
        case Passed =>
          var command := claimed.store.commands[c];
          var sent := claimed.(sends := w.sends + [Attempt(c, command.to, command.text, SendResult(answer))]);
          match answer
          case SendError(failure) => RecordError(sent, c, failure, now)
          case SendLost(_) => sent.(store := w.store)
          case SendAccepted(id) =>
            var done := CompleteSend(sent.store, c, id, now);
            if done.Some? then sent.(store := done.value) else sent.(store := w.store)
  }

  /** `EditReplyWorker.run_once` on the due command `c`. */
  function EditRun(w: World, c: nat, now: int, answer: EditAnswer): World {
    if !Due(w.store, c, EditReply, now) then w
    else
      var s := Claim(w.store, c, now);
      var command := s.commands[c];
      if !HasStatus(s, command.question, {Sent}) || command.sentId.None?
         || command.to.chatId != s.questions[command.question].to.chatId
      then w.(store := FailEdit(s, c, InvalidEditTarget))
      else
        var tried := w.(store := s, edits := w.edits + [EditAttempt(c, command.sentId.value, command.text)]);
        match answer
        case EditError(code) => tried.(store := FailEdit(s, c, code))
        case EditLost => tried.(store := w.store)
        case EditAccepted =>
          var done := CompleteEdit(s, c, now);
          if done.Some? then tried.(store := done.value) else tried.(store := w.store)
  }

  // ----- All steps -----

  datatype Event =
    | Detect(chat: int, to: Destination)
    | RemoveChat(chat: int)
    | Open(q: nat, replace: bool)
    | DraftText(q: nat, text: string)
    | EditDraft(q: nat)
    | CancelActive(q: nat)
    | Confirm(q: nat, now: int)
    | DismissQuestion(q: nat)
    | ReopenQuestion(q: nat)
    | EditText(q: nat, text: string)
    | EditConfirm(q: nat, now: int)
    | ManualRetry(c: nat, now: int)
    | SendOnce(c: nat, now: int, check: Check, sendAnswer: SendAnswer)
    | EditOnce(c: nat, now: int, editAnswer: EditAnswer)
    | ClaimOnly(c: nat, kind: Kind, now: int)
    | Recover(staleBefore: int)

  function Detached(questions: seq<Question>, chat: int): (r: seq<Question>)
    ensures |r| == |questions|
    ensures forall q :: 0 <= q < |r| ==>
              r[q] == if questions[q].chat == Some(chat) then questions[q].(chat := None) else questions[q]
  {
    seq(|questions|, q requires 0 <= q < |questions| =>
      if questions[q].chat == Some(chat) then questions[q].(chat := None) else questions[q])
  }

  /** A raised transaction leaves the tables as they were. */
  function Committed(w: World, s: Option<Store>): World {
    if s.Some? then w.(store := s.value) else w
  }

  function Next(w: World, e: Event): World {
    var s := w.store;
    match e
    case Detect(chat, to) => w.(store := s.(questions := s.questions + [Question(Detected, Some(chat), to)]))
    case RemoveChat(chat) => w.(store := s.(questions := Detached(s.questions, chat)))
    case Open(q, replace) => w.(store := HandleOpen(s, q, replace))
    case DraftText(q, text) => Committed(w, HandleDraftText(s, q, text))
    case EditDraft(q) => Committed(w, HandleEditDraft(s, q))
    case CancelActive(q) => Committed(w, HandleCancel(s, q))
    case Confirm(q, now) =>
      var r := HandleConfirm(s, q, now);
      Committed(w, if r.Some? then Some(r.value.0) else None)
    case DismissQuestion(q) => Committed(w, Dismiss(s, q))
    case ReopenQuestion(q) => Committed(w, Reopen(s, q))
    case EditText(q, text) => Committed(w, PrepareEdit(s, q, text))
    case EditConfirm(q, now) =>
      var r := ConfirmEdit(s, q, now);
      Committed(w, if r.Some? then Some(r.value.0) else None)
    case ManualRetry(c, now) => Committed(w, RetryFailed(s, c, now))
    case SendOnce(c, now, check, answer) => SendRun(w, c, now, check, answer)
    case EditOnce(c, now, answer) => EditRun(w, c, now, answer)
    case ClaimOnly(c, kind, now) => if Due(s, c, kind, now) then w.(store := Claim(s, c, now)) else w
    case Recover(staleBefore) => w.(store := RecoverStale(s, staleBefore))
  }

  /** The world after any sequence of committed and rolled-back transactions. */
  function After(h: seq<Event>): World {
    if h == [] then EMPTY else Next(After(h[..|h| - 1]), h[|h| - 1])
  }
}
