/** The receipts dashboard: the caller's escalations, newest first and one page at a
    time, each turned into a receipt view, together with counts over the last 30 days. */
module Receipts {
  import opened Text
  import opened Json
  import opened Ordering
  import opened Entities
  import opened EscalationState
  import opened Api

  /** An escalation with the policy, contact, task and owner profile it joins to. */
  datatype ReceiptRow = ReceiptRow(e: Escalation, policy: Policy, contact: Contact, task: Task, owner: Profile)

  datatype TaskView = TaskView(
    id: string, title: string, description: Option<string>, dueAt: int, priority: string, status: string)
  datatype EscalationView = EscalationView(level: int, minutesAfterDue: int, messageContent: string)
  datatype ContactView = ContactView(id: string, name: string, email: string, relationship: string, verified: bool)
  datatype OwnerView = OwnerView(email: Option<string>, fullName: Option<string>)

  /** The delivery section; `None` is a field the receipt does not carry (`undefined`). */
  datatype DeliveryView = DeliveryView(
    receipt: Object,
    messageId: Option<Value>,
    deliveryConfirmed: Value,
    deliveredAt: Option<Value>,
    openedAt: Option<Value>,
    clickedAt: Option<Value>,
    bounced: bool,
    complained: bool,
    failureReason: Option<Value>,
    retries: Value,
    nextRetryAt: Option<Value>)

  datatype Receipt = Receipt(
    id: nat, createdAt: int, updatedAt: int, status: Status, scheduledFor: int, sentAt: Option<int>,
    task: TaskView, escalation: EscalationView, contact: ContactView, owner: OwnerView,
    delivery: DeliveryView)

  /** `o.k || fallback`. */
  function OrElse(o: Object, k: string, fallback: Value): (v: Value)
    ensures Present(o, k) ==> v == o[k]
    ensures !Present(o, k) ==> v == fallback
  {
    if Present(o, k) then o[k] else fallback
  }

  /** `delivery_receipt?.webhook_type === t`. */
  predicate WebhookTypeIs(receipt: Object, t: string) {
    "webhook_type" in receipt && receipt["webhook_type"] == Str(t)
  }

  /** The receipt view of one row (the `escalations.map` callback). */
  function ToReceipt(row: ReceiptRow): Receipt {
    var e := row.e;
    var r := e.receipt;
    Receipt(
      e.id, e.createdAt, e.updatedAt, e.status, e.scheduledFor, e.sentAt,
      TaskView(row.task.id, row.task.title, row.task.description, row.task.dueAt, row.task.priority, row.task.status),
      EscalationView(row.policy.level, row.policy.minutesAfterDue, e.messageContent),
      ContactView(row.contact.id, row.contact.name, row.contact.email, row.contact.relationship, row.contact.verified),
      OwnerView(row.owner.email, row.owner.fullName),
      DeliveryView(
        r, Get(r, "id"), OrElse(r, "delivery_confirmed", Bool(false)),
        Get(r, "delivered_at"), Get(r, "opened_at"), Get(r, "clicked_at"),
        WebhookTypeIs(r, "email.bounced"), WebhookTypeIs(r, "email.complained"),
        Get(r, "failure_reason"), OrElse(r, "retries", Num(0)), Get(r, "next_retry_at")))
  }

  /** A receipt copies the record's identity, status and times; an unconfirmed
      delivery reads as `false` and an absent retry count as 0; a receipt is bounced
      or complained exactly when the last webhook said so. */
  lemma ReceiptFields(row: ReceiptRow)
    ensures var v := ToReceipt(row);
      && v.id == row.e.id && v.status == row.e.status
      && v.scheduledFor == row.e.scheduledFor && v.sentAt == row.e.sentAt
      && (!Present(row.e.receipt, "delivery_confirmed") ==> v.delivery.deliveryConfirmed == Bool(false))
      && (!Present(row.e.receipt, "retries") ==> v.delivery.retries == Num(0))
      && (v.delivery.bounced <==> Get(row.e.receipt, "webhook_type") == Some(Str("email.bounced")))
      && (v.delivery.complained <==> Get(row.e.receipt, "webhook_type") == Some(Str("email.complained")))
      && !(v.delivery.bounced && v.delivery.complained)
  {
  }

  // --------------------------------------------------------------- the list

  /** The owner filter and the optional `task_id` and `status` filters. */
  predicate Listed(row: ReceiptRow, user: string, taskId: Option<string>, status: Option<string>) {
    row.task.userId == user
    && (Given(taskId) ==> row.policy.taskId == taskId.value)
    && (Given(status) ==> StatusName(row.e.status) == status.value)
  }

  /** `.order("created_at", { ascending: false })`. */
  function NewestFirst(row: ReceiptRow): int {
    -row.e.createdAt
  }

  /** The page of rows the list query returns. */
  function ListedPage(rows: seq<ReceiptRow>, user: string, taskId: Option<string>, status: Option<string>,
                      offset: int, limit: int): (r: seq<ReceiptRow>)
    ensures forall row | row in r :: row in rows && Listed(row, user, taskId, status)
    ensures SortedBy(r, NewestFirst)
  {
    var all := SortBy(Where(rows, row => Listed(row, user, taskId, status)), NewestFirst);
    forall row | row in all ensures row in rows && Listed(row, user, taskId, status) {
      SortBySameRows(Where(rows, row => Listed(row, user, taskId, status)), NewestFirst, row);
    }
    var page := Page(all, offset, limit);
    assert forall i | 0 <= i < |page| :: page[i] == all[PageStart(|all|, offset) + i];
    page
  }

  // ------------------------------------------------------------------ stats

  const ThirtyDaysMs: int := 30 * 24 * 60 * 60 * 1000

  /** The rows the statistics count: the caller's, of the task if one is named,
      created in the last 30 days. */
  predicate Counted(row: ReceiptRow, user: string, taskId: Option<string>, now: int) {
    row.task.userId == user
    && (Given(taskId) ==> row.task.id == taskId.value)
    && row.e.createdAt >= now - ThirtyDaysMs
  }

  function Recent(rows: seq<ReceiptRow>, user: string, taskId: Option<string>, now: int): (r: seq<ReceiptRow>)
    ensures forall row :: row in r <==> row in rows && Counted(row, user, taskId, now)
  {
    Where(rows, row => Counted(row, user, taskId, now))
  }

  predicate DeliveryConfirmed(row: ReceiptRow) {
    "delivery_confirmed" in row.e.receipt && row.e.receipt["delivery_confirmed"] == Bool(true)
  }
  predicate Bounced(row: ReceiptRow) { WebhookTypeIs(row.e.receipt, "email.bounced") }
  predicate Opened(row: ReceiptRow) { Present(row.e.receipt, "opened_at") }
  predicate Clicked(row: ReceiptRow) { Present(row.e.receipt, "clicked_at") }
  predicate Retried(row: ReceiptRow) { RetriesOf(row.e.receipt) > 0 }

  function StatusesOf(rows: seq<ReceiptRow>): (r: seq<Status>)
    ensures |r| == |rows|
    ensures forall i | 0 <= i < |rows| :: r[i] == rows[i].e.status
  {
    seq(|rows|, i requires 0 <= i < |rows| => rows[i].e.status)
  }

  const AllStatuses: set<Status> := {Pending, Sent, Failed, Cancelled, Retrying}

  /** The `statusCounts` object: one key per status that occurs, with its count. */
  function Breakdown(xs: seq<Status>): map<Status, nat> {
    map s | s in AllStatuses && CountStatus(xs, s) > 0 :: CountStatus(xs, s)
  }

  datatype ReceiptStats = ReceiptStats(
    total: nat, statusBreakdown: map<Status, nat>,
    deliveredCount: nat, bouncedCount: nat, openedCount: nat, clickedCount: nat, retryCount: nat)

  /** The counts `getReceiptsStats` reports over the rows it counts. */
  function StatsOf(recent: seq<ReceiptRow>): ReceiptStats {
    ReceiptStats(
      |recent|, Breakdown(StatusesOf(recent)),
      Count(recent, DeliveryConfirmed), Count(recent, Bounced), Count(recent, Opened),
      Count(recent, Clicked), Count(recent, Retried))
  }

  /** The breakdown adds up to the total, and every other count is at most the total. */
  lemma StatsConsistent(recent: seq<ReceiptRow>)
    ensures var s := StatsOf(recent);
      && CountOr0(s.statusBreakdown, Pending) + CountOr0(s.statusBreakdown, Sent)
         + CountOr0(s.statusBreakdown, Failed) + CountOr0(s.statusBreakdown, Cancelled)
         + CountOr0(s.statusBreakdown, Retrying) == s.total
      && s.deliveredCount <= s.total && s.bouncedCount <= s.total && s.openedCount <= s.total
      && s.clickedCount <= s.total && s.retryCount <= s.total
  {
    CountsSumToTotal(StatusesOf(recent));
  }

  function Views(rows: seq<ReceiptRow>): (r: seq<Receipt>)
    ensures |r| == |rows|
    ensures forall i | 0 <= i < |rows| :: r[i] == ToReceipt(rows[i])
  {
    seq(|rows|, i requires 0 <= i < |rows| => ToReceipt(rows[i]))
  }

  /** The statistics agree with the receipt views of the same rows: a delivery counts
      as delivered exactly when its view shows `deliveryConfirmed` true, and as bounced
      exactly when its view is bounced. */
  lemma {:induction false} StatsAgreeWithViews(rows: seq<ReceiptRow>)
    ensures StatsOf(rows).deliveredCount == Count(Views(rows), (v: Receipt) => v.delivery.deliveryConfirmed == Bool(true))
    ensures StatsOf(rows).bouncedCount == Count(Views(rows), (v: Receipt) => v.delivery.bounced)
  {
    if rows != [] {
      StatsAgreeWithViews(rows[1..]);
      assert Views(rows)[1..] == Views(rows[1..]);
    }
  }

  /** The statistics: the rows counted, tallied by status with a `reduce`, and by the
      receipt fields with filters. */
  method GetReceiptsStats(rows: seq<ReceiptRow>, user: string, taskId: Option<string>, now: int)
    returns (stats: ReceiptStats)
    ensures stats == StatsOf(Recent(rows, user, taskId, now))
  {
    var recent := Recent(rows, user, taskId, now);
    var counts := CountByStatus(StatusesOf(recent));
    assert counts == Breakdown(StatusesOf(recent));
    stats := ReceiptStats(
      |recent|, counts,
      Count(recent, DeliveryConfirmed), Count(recent, Bounced), Count(recent, Opened),
      Count(recent, Clicked), Count(recent, Retried));
  }

  // -------------------------------------------------------------------- GET

  datatype ReceiptsResponse =
    | ReceiptsUnauthorized
    | ReceiptsPage(receipts: seq<Receipt>, offset: int, limit: int, hasMore: bool, summary: ReceiptStats)

  /** `GET /api/receipts`. */
  method GetReceipts(rows: seq<ReceiptRow>, user: Option<string>, taskId: Option<string>, status: Option<string>,
                     limitParam: Option<int>, offsetParam: Option<int>, now: int)
    returns (resp: ReceiptsResponse)
    ensures user.None? <==> resp.ReceiptsUnauthorized?
    ensures user.Some? ==>
      var limit := ParamOr(limitParam, DefaultLimit);
      var offset := ParamOr(offsetParam, DefaultOffset);
      var page := ListedPage(rows, user.value, taskId, status, offset, limit);
      resp == ReceiptsPage(Views(page), offset, limit, |page| == limit,
                           StatsOf(Recent(rows, user.value, taskId, now)))
  {
    if user.None? {
      return ReceiptsUnauthorized;
    }
    var limit := ParamOr(limitParam, DefaultLimit);
    var offset := ParamOr(offsetParam, DefaultOffset);
    var page := ListedPage(rows, user.value, taskId, status, offset, limit);
    var stats := GetReceiptsStats(rows, user.value, taskId, now);
    resp := ReceiptsPage(Views(page), offset, limit, |page| == limit, stats);
  }

  /** Only the caller's escalations are listed, each as its receipt view. */
  lemma OnlyOwnReceipts(rows: seq<ReceiptRow>, user: string, taskId: Option<string>, status: Option<string>,
                        offset: int, limit: int, i: nat)
    requires i < |ListedPage(rows, user, taskId, status, offset, limit)|
    ensures var row := ListedPage(rows, user, taskId, status, offset, limit)[i];
      row in rows && row.task.userId == user
      && Views(ListedPage(rows, user, taskId, status, offset, limit))[i] == ToReceipt(row)
  {
    var page := ListedPage(rows, user, taskId, status, offset, limit);
    assert page[i] in page;
  }
}
