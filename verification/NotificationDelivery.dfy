/**
 * Delivery of one rendered notification (app/bot/delivery.py and
 * app/database/repositories/bot_notifications.py) when every Bot API outcome is definite: a call
 * either returns a message id or is refused.
 */
module NotificationDelivery {
  import opened Wrappers
  import opened RetryPolicies
  import opened Notifications

  datatype Status = Pending | Sending | Sent | Retry | Failed

  datatype Outcome = Accepted(messageId: int) | Refused(error: string)

  datatype Row = Row(status: Status, attempts: int, nextAttemptAt: int, messageId: Option<int>, lastError: Option<string>)

  const NEW_ROW := Row(Pending, 0, 0, None, None)

  /** How many parts are accepted before the first refusal. */
  function AcceptedCount(outcomes: seq<Outcome>): (n: nat)
    ensures n <= |outcomes|
    ensures forall i :: 0 <= i < n ==> outcomes[i].Accepted?
    ensures n < |outcomes| ==> outcomes[n].Refused?
  {
    if outcomes == [] || outcomes[0].Refused? then 0 else 1 + AcceptedCount(outcomes[1..])
  }

  predicate Eligible(r: Row, now: int) {
    (r.status == Pending || r.status == Retry) && r.nextAttemptAt <= now
  }

  /** The row after one claim, given what the Bot API answered for each part in turn. */
  function Deliver(r: Row, now: int, outcomes: seq<Outcome>): Row
    requires r.attempts >= 0
  {
    var n, attempts := AcceptedCount(outcomes), r.attempts + 1;
    if n == |outcomes| && n > 0 then Row(Sent, attempts, r.nextAttemptAt, Some(outcomes[n - 1].messageId), None)
    else
      var error := Some(if n < |outcomes| then outcomes[n].error else "RuntimeError");
      if n > 0 || !MayRetry(attempts) then Row(Failed, attempts, r.nextAttemptAt, r.messageId, error)
      else Row(Retry, attempts, now + RetryDelay(attempts), r.messageId, error)
  }

  class BotNotification {
    var status: Status
    var attempts: int
    var nextAttemptAt: int
    var messageId: Option<int>
    var lastError: Option<string>
    ghost var delivered: seq<Part>  // what the Bot API has accepted, in order
    ghost var rendered: seq<Part>   // the parts of the latest claim

    ghost function Contents(): Row
      reads this
    {
      Row(status, attempts, nextAttemptAt, messageId, lastError)
    }

    /** What holds between claims, whatever happened before. */
    ghost predicate Valid()
      reads this
    {
      && 0 <= attempts <= 5
      && status != Sending
      && ((status == Pending || status == Retry) ==> delivered == [] && attempts <= 4)
      && delivered <= rendered
      && (status == Sent <==> delivered == rendered != [])
    }

    constructor ()
      ensures Valid() && Contents() == NEW_ROW && delivered == [] && rendered == []
    {
      status, attempts, nextAttemptAt, messageId, lastError := Pending, 0, 0, None, None;
      delivered, rendered := [], [];
    }

    method Claim()
      modifies this`status, this`attempts, this`lastError
      ensures status == Sending && attempts == old(attempts) + 1 && lastError == None
    {
      status := Sending;
      attempts := attempts + 1;
      lastError := None;
    }

    method MarkSent(id: int)
      modifies this`status, this`messageId, this`lastError
      ensures status == Sent && messageId == Some(id) && lastError == None
    {
      status := Sent;
      messageId := Some(id);
      lastError := None;
    }

    method ScheduleRetry(error: string, retryAt: int)
      modifies this`status, this`nextAttemptAt, this`lastError
      ensures status == Retry && nextAttemptAt == retryAt && lastError == Some(error)
    {
      status := Retry;
      nextAttemptAt := retryAt;
      lastError := Some(error);
    }

    method Fail(error: string)
      modifies this`status, this`lastError
      ensures status == Failed && lastError == Some(error)
    {
      status := Failed;
      lastError := Some(error);
    }
  }

  class BotNotificationWorker {
    constructor () {
    }

    /** `parts` is the rendering at this claim; `outcomes[i]` is what the Bot API answers if part `i` is sent. */
    method RunOnce(row: BotNotification, now: int, parts: seq<Part>, outcomes: seq<Outcome>) returns (claimed: bool)
      requires row.Valid() && |outcomes| == |parts|
      modifies row
      ensures row.Valid()
      ensures claimed <==> old(Eligible(row.Contents(), now))
      ensures !claimed ==> row.Contents() == old(row.Contents()) && row.delivered == old(row.delivered)
      ensures claimed ==> row.Contents() == Deliver(old(row.Contents()), now, outcomes)
      ensures claimed ==> row.rendered == parts && row.delivered == parts[..AcceptedCount(outcomes)]
    {
      if !((row.status == Pending || row.status == Retry) && row.nextAttemptAt <= now) {
        return false;
      }
      row.Claim();
      row.rendered := parts;
      var sentPartCount := 0;
      var finalMessageId: Option<int> := None;
      var error: Option<string> := None;
      while sentPartCount < |parts| && error == None
        modifies row`delivered
        invariant 0 <= sentPartCount <= |parts|
        invariant row.delivered == parts[..sentPartCount]
        invariant forall i :: 0 <= i < sentPartCount ==> outcomes[i].Accepted?
        invariant error.Some? ==> sentPartCount < |parts| && outcomes[sentPartCount] == Refused(error.value)
        invariant sentPartCount == 0 ==> finalMessageId == None
        invariant sentPartCount > 0 ==> finalMessageId == Some(outcomes[sentPartCount - 1].messageId)
        decreases |parts| - sentPartCount, error == None
      {
        match outcomes[sentPartCount]
        case Accepted(id) =>
          row.delivered := row.delivered + [parts[sentPartCount]];
          finalMessageId := Some(id);
          sentPartCount := sentPartCount + 1;
        case Refused(e) =>
          error := Some(e);
      }
      CountIs(outcomes, sentPartCount);
      if error == None && finalMessageId == None {
        error := Some("RuntimeError");
      }
      if error.Some? {
        if sentPartCount > 0 || !MayRetry(row.attempts) {
          row.Fail(error.value);
        } else {
          row.ScheduleRetry(error.value, now + RetryDelay(row.attempts));
        }
      } else {
        row.MarkSent(finalMessageId.value);
      }
      return true;
    }
  }

  lemma {:induction false} CountIs(outcomes: seq<Outcome>, n: nat)
    requires n <= |outcomes|
    requires forall i :: 0 <= i < n ==> outcomes[i].Accepted?
    requires n < |outcomes| ==> outcomes[n].Refused?
    ensures AcceptedCount(outcomes) == n
  {
  }

  // ----- What one claim writes -----

  /** The row is claimed exactly while it is pending or to be retried, and due. */
  lemma OnlyDueRowsAreClaimed(d: Delivery, a: Attempt)
    requires d.row.attempts == d.claims && |a.outcomes| == |a.parts|
    ensures Next(d, a) == d <==> !((d.row.status == Pending || d.row.status == Retry) && d.row.nextAttemptAt <= a.now)
  {
  }

  /** Parts that are all accepted make the row sent, with the id of the last. */
  lemma AcceptedPartsAreWritten(r: Row, now: int, outcomes: seq<Outcome>)
    requires r.attempts >= 0 && outcomes != [] && forall i :: 0 <= i < |outcomes| ==> outcomes[i].Accepted?
    ensures Deliver(r, now, outcomes) ==
            Row(Sent, r.attempts + 1, r.nextAttemptAt, Some(outcomes[|outcomes| - 1].messageId), None)
  {
    CountIs(outcomes, |outcomes|);
  }

  /**
   * A refusal is tried again after 15, 60, 300 and 1800 seconds, but only while no part was accepted
   * before it; otherwise, and at the fifth claim, it fails the row.
   */
  lemma RefusalIsWritten(r: Row, now: int, outcomes: seq<Outcome>, n: nat)
    requires r.attempts >= 0 && n < |outcomes| && outcomes[n].Refused?
    requires forall i :: 0 <= i < n ==> outcomes[i].Accepted?
    ensures Deliver(r, now, outcomes) ==
            if n == 0 && r.attempts < 4
            then Row(Retry, r.attempts + 1, now + [15, 60, 300, 1800][r.attempts], r.messageId, Some(outcomes[n].error))
            else Row(Failed, r.attempts + 1, r.nextAttemptAt, r.messageId, Some(outcomes[n].error))
  {
    CountIs(outcomes, n);
  }

  /** A rendering without parts counts as a refusal of the first. */
  lemma NothingToSendIsWritten(r: Row, now: int)
    requires r.attempts >= 0
    ensures Deliver(r, now, []) == Deliver(r, now, [Refused("RuntimeError")])
  {
  }

  // ----- Whole histories -----

  /** One worker iteration; the rendering may differ from claim to claim. */
  datatype Attempt = Attempt(now: int, parts: seq<Part>, outcomes: seq<Outcome>)

  datatype Delivery = Delivery(row: Row, delivered: seq<Part>, rendered: seq<Part>, claims: nat)

  ghost predicate Wellformed(h: seq<Attempt>) {
    forall i :: 0 <= i < |h| ==> |h[i].outcomes| == |h[i].parts|
  }

  function Next(d: Delivery, a: Attempt): (r: Delivery)
    requires d.row.attempts == d.claims && |a.outcomes| == |a.parts|
    ensures r.row.attempts == r.claims
  {
    if !Eligible(d.row, a.now) then d
    else Delivery(Deliver(d.row, a.now, a.outcomes),
                  d.delivered + a.parts[..AcceptedCount(a.outcomes)],
                  a.parts,
                  d.claims + 1)
  }

  /** Any number of worker iterations; `delivered` accumulates everything Telegram ever accepted. */
  function After(h: seq<Attempt>): (d: Delivery)
    requires Wellformed(h)
    ensures d.row.attempts == d.claims
  {
    if h == [] then Delivery(NEW_ROW, [], [], 0) else Next(After(h[..|h| - 1]), h[|h| - 1])
  }

  ghost predicate PrefixOnce(d: Delivery) {
    && d.delivered <= d.rendered
    && (d.row.status == Sent <==> d.delivered == d.rendered != [])
    && (d.row.status in {Pending, Retry} ==> d.delivered == [] && d.claims <= 4)
    && d.claims <= 5
    && d.row.status != Sending
  }

  lemma StepKeepsPrefixOnce(d: Delivery, a: Attempt)
    requires d.row.attempts == d.claims && PrefixOnce(d) && |a.outcomes| == |a.parts|
    ensures PrefixOnce(Next(d, a))
  {
  }

  /**
   * Over all attempts, what was accepted is a prefix of one rendering, no part twice; the row is
   * sent iff all of it was accepted; and there are at most five claims, the fifth being final.
   */
  lemma {:induction false} DeliversAPrefixOnce(h: seq<Attempt>)
    requires Wellformed(h)
    ensures PrefixOnce(After(h))
  {
    if h != [] {
      DeliversAPrefixOnce(h[..|h| - 1]);
      StepKeepsPrefixOnce(After(h[..|h| - 1]), h[|h| - 1]);
    }
  }

  /** Once sent or failed, a notification is never touched again. */
  lemma {:induction false} OutcomeIsFinal(h: seq<Attempt>, more: seq<Attempt>)
    requires Wellformed(h) && Wellformed(more)
    requires After(h).row.status in {Sent, Failed}
    ensures Wellformed(h + more) && After(h + more) == After(h)
  {
    if more == [] {
      assert h + more == h;
    } else {
      assert (h + more)[..|h + more| - 1] == h + more[..|more| - 1];
      OutcomeIsFinal(h, more[..|more| - 1]);
    }
  }
}

/** Delivery of rendered questions. */
module QuestionDelivery {
  import opened Wrappers
  import opened Notifications
  import opened NotificationRendering
  import opened NotificationDelivery

  /** A notification always has a part, the metadata at least. */
  lemma AtLeastOnePart(c: Content)
    ensures |Texts(c)| >= 1
  {
  }

  /** Renders the question as it is now and delivers it, the last part carrying the controls. */
  method DeliverQuestion(
    worker: BotNotificationWorker, row: BotNotification, now: int, content: Content, outcomes: seq<Outcome>
  )
    returns (claimed: bool)
    requires row.Valid() && |outcomes| == |Texts(content)|
    modifies row
    ensures row.Valid()
    ensures claimed ==> |row.rendered| == |Texts(content)| >= 1
    ensures claimed ==> forall i :: 0 <= i < |row.rendered| ==> row.rendered[i].text == Texts(content)[i]
    ensures claimed ==> forall i :: 0 <= i < |row.rendered| ==> (row.rendered[i].hasControls <==> i == |row.rendered| - 1)
    ensures claimed ==> row.delivered == row.rendered[..AcceptedCount(outcomes)]
    ensures claimed && row.status == Sent ==>
              row.delivered == row.rendered && row.messageId == Some(outcomes[|outcomes| - 1].messageId)
  {
    AtLeastOnePart(content);
    var parts := RenderNotification(content);
    claimed := worker.RunOnce(row, now, parts, outcomes);
  }
}
