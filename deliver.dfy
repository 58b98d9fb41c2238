/** The delivery worker: every due `pending` escalation is cancelled when its task is
    done, failed when its contact is unverified, and otherwise handed to the email
    provider, whose answer either marks the record sent or goes through the retry
    policy. The provider is an input: `send` answers an email request. */
module Delivery {
  import opened Text
  import opened Json
  import opened Ordering
  import opened Entities
  import opened EscalationState
  import opened Cron

  /** One joined row of the due-escalations query: the record's policy with its
      contact, its task, and the task owner's profile (which may be missing). */
  datatype Join = Join(policy: Policy, contact: Contact, task: Task, owner: Option<Profile>)

  /** What the provider answered: the response data, or an error whose `message`
      may be missing. */
  datatype Outcome = Delivered(data: Object) | Rejected(message: Option<string>)

  /** The parts of the outgoing email the model keeps: recipient and tags. */
  datatype Email = Email(to: string, tags: seq<(string, string)>)

  datatype DeliveryResult =
    | CancelledResult(escalationId: nat)
    | SentResult(escalationId: nat, contactEmail: string, messageId: Option<Value>, level: int, taskTitle: string)
    | FailedResult(escalationId: nat, error: string, outcome: FailureResult)

  datatype DeliveryError = DeliveryError(escalationId: nat, error: string, finalFailure: bool)

  datatype Summary = Summary(processed: nat, delivered: nat, cancelled: nat, failed: nat, retrying: nat)

  datatype DeliverResponse =
    | DeliverUnauthorized
    | DeliverReport(summary: Summary, results: seq<DeliveryResult>, errors: seq<DeliveryError>)

  /** The message of the TypeError thrown when `error.message` is missing and the
      classifier calls `toLowerCase` on it (the V8 wording). */
  const MissingMessageText := "Cannot read properties of undefined (reading 'toLowerCase')"

  /** The message of the TypeError thrown inside `deliverEscalation` when the task
      owner has no profile row (the V8 wording); that function turns it into a failed
      delivery without calling the provider. */
  const MissingProfileText := "Cannot read properties of null (reading 'full_name')"

  // ------------------------------------------------------------- selection

  /** The record is `pending`, due by `now`, and joins with a policy, contact and task
      (the inner joins drop records that do not). */
  predicate IsDue(rows: map<nat, Escalation>, id: nat, now: int, join: string -> Option<Join>) {
    id in rows && rows[id].status == Pending && rows[id].scheduledFor <= now
    && join(rows[id].policyId).Some?
  }

  function ScheduledKey(rows: map<nat, Escalation>, id: nat): int {
    if id in rows then rows[id].scheduledFor else 0
  }

  /** Every id to visit exists and has its join. */
  predicate Runnable(rows: map<nat, Escalation>, ids: seq<nat>, join: string -> Option<Join>) {
    forall k | k in ids :: k in rows && join(rows[k].policyId).Some?
  }

  /** The due-escalations query, oldest `scheduled_for` first. */
  function DueIds(rows: map<nat, Escalation>, join: string -> Option<Join>, now: int): (r: seq<nat>)
    ensures forall k :: k in r <==> IsDue(rows, k, now, join)
    ensures SortedBy(r, k => ScheduledKey(rows, k))
    ensures Runnable(rows, r, join)
  {
    var ks := AscendingKeys(rows.Keys);
    var r := SortBy(Where(ks, k => IsDue(rows, k, now, join)), k => ScheduledKey(rows, k));
    forall k ensures k in r <==> IsDue(rows, k, now, join) {
      SortBySameRows(Where(ks, k => IsDue(rows, k, now, join)), k => ScheduledKey(rows, k), k);
    }
    r
  }

  /** A `retrying` record, whatever its `scheduled_for`, is never picked up again. */
  lemma RetryingNeverSelected(rows: map<nat, Escalation>, join: string -> Option<Join>, now: int, id: nat)
    requires id in rows && rows[id].status == Retrying
    ensures id !in DueIds(rows, join, now)
  {
  }

  // ---------------------------------------------------------- classification

  /** `classifyFailureReason`: the first rule whose phrase occurs in the lowercased
      message decides. */
  function ClassifyFailureReason(message: string): (r: FailureReason)
    ensures r != ContactNotVerified && r != TaskCompleted
  {
    var m := ToLower(message);
    if Contains(m, "invalid email") || Contains(m, "bad email") then EmailInvalid
    else if Contains(m, "rate limit") || Contains(m, "too many requests") then RateLimited
    else if Contains(m, "quota") || Contains(m, "limit exceeded") then QuotaExceeded
    else if Contains(m, "network") || Contains(m, "connection") then NetworkError
    else if Contains(m, "api") || Contains(m, "server error") then ResendApiError
    else UnknownError
  }

  /** A provider error stops the retries at once exactly when its message speaks of
      an invalid or bad email; every other message is retried. */
  lemma ClassifiedRetryable(message: string)
    ensures NonRetryable(ClassifyFailureReason(message))
      <==> Contains(ToLower(message), "invalid email") || Contains(ToLower(message), "bad email")
  {
  }

  /** The rules are tried in order: a message with a rate-limit phrase and no email
      phrase is rate-limited, whatever quota phrase it also holds. */
  lemma RateLimitRuleWins(message: string)
    requires Contains(ToLower(message), "rate limit") || Contains(ToLower(message), "too many requests")
    requires !Contains(ToLower(message), "invalid email") && !Contains(ToLower(message), "bad email")
    ensures ClassifyFailureReason(message) == RateLimited
  {
  }

  /** "Rate limit exceeded" also contains "limit exceeded"; the earlier rate-limit
      rule wins. */
  lemma RateLimitExample()
    ensures ClassifyFailureReason("Rate limit exceeded") == RateLimited
    ensures Contains(ToLower("Rate limit exceeded"), "limit exceeded")
  {
    var m := "rate limit exceeded";
    LowerLiteral("Rate limit exceeded", m);
    assert !Contains(m, "invalid email") && !Contains(m, "bad email") by {
      MissingCharNotContained(m, "invalid email", 2);
      MissingCharNotContained(m, "bad email", 0);
    }
    assert Contains(m, "rate limit") by {
      assert MatchAt(m, 0, "rate limit");
    }
    assert Contains(m, "limit exceeded") by {
      assert MatchAt(m, 5, "limit exceeded");
    }
    RateLimitRuleWins("Rate limit exceeded");
  }

  lemma LowerLiteral(s: string, t: string)
    requires |s| == |t| && forall i | 0 <= i < |s| :: Lower(s[i]) == t[i]
    ensures ToLower(s) == t
  {
  }

  // ------------------------------------------------------------ one record

  /** The tags sent with the email; `escalation_id` lets the webhook find the record. */
  function DeliveryTags(id: nat, j: Join): (tags: seq<(string, string)>)
    ensures |tags| == 5 && tags[3] == ("escalation_id", NatToString(id))
    ensures forall i | 0 <= i < 3 :: tags[i].0 != "escalation_id"
  {
    [("type", "escalation"), ("level", IntToString(j.policy.level)), ("task_id", j.task.id),
     ("escalation_id", NatToString(id)), ("user_id", j.task.userId)]
  }

  function EmailFor(e: Escalation, j: Join): Email {
    Email(j.contact.email, DeliveryTags(e.id, j))
  }

  /** `deliverEscalation`: without an owner profile it fails before the provider is
      called; otherwise the provider answers the email. */
  function Attempt(e: Escalation, j: Join, send: Email -> Outcome): Outcome {
    if j.owner.None? then Rejected(Some(MissingProfileText)) else send(EmailFor(e, j))
  }

  /** The data handed to `markSent` after a successful send. */
  function SentReceipt(data: Object, now: int): Object {
    var base := map["delivery_receipt" := Obj(data), "provider" := Str("resend"), "sent_at" := Num(now)];
    if "id" in data then base["message_id" := data["id"]] else base
  }

  function FailureDetails(message: string, now: int): Object {
    map["message" := Str(message), "provider" := Str("resend"), "failed_at" := Num(now)]
  }

  datatype StepResult = StepResult(row: Escalation, results: seq<DeliveryResult>, errors: seq<DeliveryError>)

  /** One iteration of the worker's loop on record `e`, given the provider's answer. */
  function Step(e: Escalation, j: Join, outcome: Outcome, now: int): (r: StepResult)
    ensures r.row.id == e.id && r.row.policyId == e.policyId
  {
    if j.task.status == "completed" then
      StepResult(CancelOn(e, "task_completed", map[], now).0, [CancelledResult(e.id)], [])
    else if !j.contact.verified then
      var details := map["contact_id" := Str(j.contact.id), "failed_at" := Num(now)];
      StepResult(HandleFailureOn(e, ContactNotVerified, details, now).0, [],
                 [DeliveryError(e.id, "Contact not verified", false)])
    else match outcome
      case Delivered(data) =>
        StepResult(MarkSentOn(e, SentReceipt(data, now), now).0,
                   [SentResult(e.id, j.contact.email, Get(data, "id"), j.policy.level, j.task.title)], [])
      case Rejected(Some(msg)) =>
        var (row, res) := HandleFailureOn(e, ClassifyFailureReason(msg), FailureDetails(msg, now), now);
        StepResult(row, [FailedResult(e.id, msg, res)],
                   if res.WillRetry? then [] else [DeliveryError(e.id, msg, true)])
      case Rejected(None) =>
        var details := map["message" := Str(MissingMessageText), "failed_at" := Num(now)];
        StepResult(HandleFailureOn(e, UnknownError, details, now).0, [],
                   [DeliveryError(e.id, MissingMessageText, false)])
  }

  /** A completed task cancels its pending escalation, whatever the provider would
      have said: the provider is not consulted. */
  lemma CompletedTaskCancels(e: Escalation, j: Join, o1: Outcome, o2: Outcome, now: int)
    requires j.task.status == "completed" && e.status == Pending
    ensures Step(e, j, o1, now) == Step(e, j, o2, now)
    ensures var r := Step(e, j, o1, now);
      r.row.status == Cancelled && r.row.receipt["cancellation_reason"] == Str("task_completed")
      && r.results == [CancelledResult(e.id)] && r.errors == []
  {
  }

  /** An unverified contact fails its pending escalation at once, without consulting
      the provider, and the error is not marked final. */
  lemma UnverifiedContactFails(e: Escalation, j: Join, o1: Outcome, o2: Outcome, now: int)
    requires j.task.status != "completed" && !j.contact.verified && e.status == Pending
    ensures Step(e, j, o1, now) == Step(e, j, o2, now)
    ensures var r := Step(e, j, o1, now);
      r.row.status == Failed && r.results == []
      && r.errors == [DeliveryError(e.id, "Contact not verified", false)]
  {
    var details := map["contact_id" := Str(j.contact.id), "failed_at" := Num(now)];
    NonRetryableFailsAtOnce(e, ContactNotVerified, details, now);
  }

  /** A successful send marks the record sent at `now`, with the provider's message
      id (when it gave one) and provider name in the stored delivery data. */
  lemma DeliveredMarksSent(e: Escalation, j: Join, data: Object, now: int)
    requires j.task.status != "completed" && j.contact.verified && e.status == Pending
    ensures var r := Step(e, j, Delivered(data), now);
      var stored := r.row.receipt["delivery_receipt"];
      r.row.status == Sent && r.row.sentAt == Some(now) && r.errors == []
      && stored.Obj? && stored.fields["provider"] == Str("resend")
      && stored.fields["delivery_receipt"] == Obj(data)
      && ("message_id" in stored.fields <==> "id" in data)
      && ("id" in data ==> stored.fields["message_id"] == data["id"])
  {
    MarkSentStamps(e, SentReceipt(data, now), now);
  }

  /** A provider error goes through the retry policy with the classified reason: a
      retry leaves the record `retrying` with no error entry, anything else fails it
      and adds a final error. */
  lemma RejectedFollowsRetryPolicy(e: Escalation, j: Join, msg: string, now: int)
    requires j.task.status != "completed" && j.contact.verified && e.status == Pending
    ensures var r := Step(e, j, Rejected(Some(msg)), now);
      var n := RetriesOf(e.receipt) + 1;
      if ShouldRetry(ClassifyFailureReason(msg), n) then
        r.row.status == Retrying && r.errors == []
        && r.row.scheduledFor == now + MinutesToMs(RetryDelay(n))
      else
        r.row.status == Failed && r.errors == [DeliveryError(e.id, msg, true)]
  {
    var reason := ClassifyFailureReason(msg);
    if ShouldRetry(reason, RetriesOf(e.receipt) + 1) {
      RetryMetadataNeverStored(e, reason, FailureDetails(msg, now), now);
    }
  }

  // ------------------------------------------------------------ the whole run

  datatype RunState = RunState(rows: map<nat, Escalation>, results: seq<DeliveryResult>, errors: seq<DeliveryError>)

  /** The worker's loop over `ids`, each record handled by `Step` on its current row;
      records outside `ids` are untouched and no record is added or removed. */
  function Run(rows: map<nat, Escalation>, ids: seq<nat>, join: string -> Option<Join>,
               send: Email -> Outcome, now: int): (s: RunState)
    requires Runnable(rows, ids, join)
    ensures s.rows.Keys == rows.Keys
    ensures forall k | k in rows :: s.rows[k].policyId == rows[k].policyId && s.rows[k].id == rows[k].id
    ensures forall k | k in rows && k !in ids :: s.rows[k] == rows[k]
    decreases |ids|
  {
    if ids == [] then RunState(rows, [], [])
    else
      var last := ids[|ids| - 1];
      assert ids == ids[..|ids| - 1] + [last];
      var s := Run(rows, ids[..|ids| - 1], join, send, now);
      var e := s.rows[last];
      var j := join(e.policyId).value;
      var r := Step(e, j, Attempt(e, j, send), now);
      RunState(s.rows[last := r.row], s.results + r.results, s.errors + r.errors)
  }

  /** Extending the visited prefix by one id runs one more `Step`. */
  lemma RunSnoc(rows: map<nat, Escalation>, ids: seq<nat>, i: nat, join: string -> Option<Join>,
                send: Email -> Outcome, now: int)
    requires Runnable(rows, ids, join) && i < |ids|
    ensures Runnable(rows, ids[..i], join) && Runnable(rows, ids[..i + 1], join)
    ensures var s := Run(rows, ids[..i], join, send, now);
      var e := s.rows[ids[i]];
      var j := join(e.policyId).value;
      var r := Step(e, j, Attempt(e, j, send), now);
      Run(rows, ids[..i + 1], join, send, now) == RunState(s.rows[ids[i] := r.row], s.results + r.results, s.errors + r.errors)
  {
    assert ids[..i + 1][..i] == ids[..i];
    forall k | k in ids[..i + 1] ensures k in ids {
    }
  }

  predicate IsSent(r: DeliveryResult) { r.SentResult? }
  predicate IsCancelled(r: DeliveryResult) { r.CancelledResult? }
  predicate IsRetrying(r: DeliveryResult) { r.FailedResult? && r.outcome.WillRetry? }
  predicate IsFinalFailure(r: DeliveryResult) { r.FailedResult? && !r.outcome.WillRetry? }
  predicate IsFinal(e: DeliveryError) { e.finalFailure }
  predicate NotFinal(e: DeliveryError) { !e.finalFailure }

  /** The response summary: records fetched, results sent and cancelled, errors
      flagged final, results that will retry. */
  function Summarize(processed: nat, results: seq<DeliveryResult>, errors: seq<DeliveryError>): Summary {
    Summary(processed, Count(results, IsSent), Count(results, IsCancelled),
            Count(errors, IsFinal), Count(results, IsRetrying))
  }

  /** Each step yields one result, or one error that is not final; and a final
      error exactly when its result is a final failure. */
  lemma StepTally(e: Escalation, j: Join, outcome: Outcome, now: int)
    ensures var r := Step(e, j, outcome, now);
      |r.results| + Count(r.errors, NotFinal) == 1
      && Count(r.errors, IsFinal) == Count(r.results, IsFinalFailure)
  {
    var r := Step(e, j, outcome, now);
    if |r.results| == 1 {
      assert r.results[1..] == [];
    }
    if |r.errors| == 1 {
      assert r.errors[1..] == [];
    }
  }

  /** Every result is one of the four kinds the summary counts. */
  lemma {:induction false} ResultKinds(xs: seq<DeliveryResult>)
    ensures Count(xs, IsSent) + Count(xs, IsCancelled) + Count(xs, IsRetrying) + Count(xs, IsFinalFailure) == |xs|
  {
    if xs != [] {
      ResultKinds(xs[1..]);
    }
  }

  /** Over a whole run, the results and the non-final errors account for every
      record visited, and the final errors match the final failures one for one. */
  lemma {:induction false} RunTally(rows: map<nat, Escalation>, ids: seq<nat>, join: string -> Option<Join>,
                                    send: Email -> Outcome, now: int)
    requires Runnable(rows, ids, join)
    ensures var s := Run(rows, ids, join, send, now);
      |s.results| + Count(s.errors, NotFinal) == |ids|
      && Count(s.errors, IsFinal) == Count(s.results, IsFinalFailure)
    decreases |ids|
  {
    if ids != [] {
      var last := ids[|ids| - 1];
      assert ids == ids[..|ids| - 1] + [last];
      var s := Run(rows, ids[..|ids| - 1], join, send, now);
      RunTally(rows, ids[..|ids| - 1], join, send, now);
      var e := s.rows[last];
      var j := join(e.policyId).value;
      var r := Step(e, j, Attempt(e, j, send), now);
      StepTally(e, j, Attempt(e, j, send), now);
      CountAppend(s.results, r.results, IsFinalFailure);
      CountAppend(s.errors, r.errors, NotFinal);
      CountAppend(s.errors, r.errors, IsFinal);
    }
  }

  /** The summary adds up: delivered, cancelled, retrying and final failures, plus the
      errors that are not final (unverified contacts, crashes), make up every record
      processed. Unverified contacts are therefore not counted as failed. */
  lemma SummaryAddsUp(rows: map<nat, Escalation>, join: string -> Option<Join>, send: Email -> Outcome, now: int)
    ensures var due := DueIds(rows, join, now);
      var s := Run(rows, due, join, send, now);
      var sum := Summarize(|due|, s.results, s.errors);
      sum.delivered + sum.cancelled + sum.retrying + sum.failed + Count(s.errors, NotFinal) == sum.processed
  {
    var due := DueIds(rows, join, now);
    var s := Run(rows, due, join, send, now);
    RunTally(rows, due, join, send, now);
    ResultKinds(s.results);
  }

  // ------------------------------------------------------------ the worker

  /** The body of the worker's loop for record `id`, through the state manager. */
  method DeliverOne(store: EscalationStore, id: nat, j: Join, send: Email -> Outcome, now: int)
    returns (results: seq<DeliveryResult>, errors: seq<DeliveryError>)
    requires store.Valid() && id in store.rows
    modifies store
    ensures store.Valid() && store.nextId == old(store.nextId)
    ensures var e := old(store.rows)[id];
      var r := Step(e, j, Attempt(e, j, send), now);
      store.rows == old(store.rows)[id := r.row] && results == r.results && errors == r.errors
  {
    var e := store.rows[id];
    if j.task.status == "completed" {
      var _ := store.CancelEscalation(id, "task_completed", map[], now);
      return [CancelledResult(id)], [];
    }
    if !j.contact.verified {
      var _ := store.HandleFailure(id, ContactNotVerified, map["contact_id" := Str(j.contact.id), "failed_at" := Num(now)], now);
      return [], [DeliveryError(id, "Contact not verified", false)];
    }
    var outcome := Attempt(e, j, send);
    match outcome {
      case Delivered(data) =>
        var _ := store.MarkSent(id, SentReceipt(data, now), now);
        results := [SentResult(id, j.contact.email, Get(data, "id"), j.policy.level, j.task.title)];
        errors := [];
      case Rejected(Some(msg)) =>
        var res := store.HandleFailure(id, ClassifyFailureReason(msg), FailureDetails(msg, now), now);
        results := [FailedResult(id, msg, res)];
        errors := if res.WillRetry? then [] else [DeliveryError(id, msg, true)];
      case Rejected(None) =>
        var _ := store.HandleFailure(id, UnknownError, map["message" := Str(MissingMessageText), "failed_at" := Num(now)], now);
        results := [];
        errors := [DeliveryError(id, MissingMessageText, false)];
    }
  }

  /** `POST /api/escalation/deliver`. */
  method Deliver(store: EscalationStore, secret: Option<string>, header: Option<string>,
                 join: string -> Option<Join>, send: Email -> Outcome, now: int)
    returns (resp: DeliverResponse)
    requires store.Valid()
    modifies store
    ensures store.Valid()
    ensures !Authorized(secret, header) ==> resp == DeliverUnauthorized && store.rows == old(store.rows)
    ensures Authorized(secret, header) ==>
      var due := DueIds(old(store.rows), join, now);
      var s := Run(old(store.rows), due, join, send, now);
      store.rows == s.rows && resp == DeliverReport(Summarize(|due|, s.results, s.errors), s.results, s.errors)
  {
    if !Authorized(secret, header) {
      return DeliverUnauthorized;
    }
    var due := DueIds(store.rows, join, now);
    var results, errors := DeliverAll(store, due, join, send, now);
    resp := DeliverReport(Summarize(|due|, results, errors), results, errors);
  }

  /** The worker's loop over the due ids, in order. */
  method DeliverAll(store: EscalationStore, due: seq<nat>, join: string -> Option<Join>,
                    send: Email -> Outcome, now: int)
    returns (results: seq<DeliveryResult>, errors: seq<DeliveryError>)
    requires store.Valid() && Runnable(store.rows, due, join)
    modifies store
    ensures store.Valid()
    ensures Run(old(store.rows), due, join, send, now) == RunState(store.rows, results, errors)
  {
    ghost var orig := store.rows;
    results := [];
    errors := [];
    var i := 0;
    while i < |due|
      invariant 0 <= i <= |due|
      invariant store.Valid() && Runnable(orig, due[..i], join)
      invariant Run(orig, due[..i], join, send, now) == RunState(store.rows, results, errors)
    {
      var id := due[i];
      RunSnoc(orig, due, i, join, send, now);
      var e := store.rows[id];
      var rs, es := DeliverOne(store, id, join(e.policyId).value, send, now);
      results := results + rs;
      errors := errors + es;
      i := i + 1;
    }
    assert due[..i] == due;
  }
}
