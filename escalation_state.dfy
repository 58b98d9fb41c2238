/** The escalation state manager (acclist/lib/escalation-state.js): the five
    statuses, the transition table, the retry decision and backoff, and the store of
    escalation records whose `status`, `scheduled_for`, `sent_at` and
    `delivery_receipt` the manager rewrites.

    Instants are integer milliseconds. Each operation reads the clock once; that
    reading is the `now` parameter. */
module EscalationState {
  import opened Text
  import opened Json

  datatype Status = Pending | Sent | Failed | Cancelled | Retrying

  function StatusName(s: Status): string {
    match s
    case Pending => "pending"
    case Sent => "sent"
    case Failed => "failed"
    case Cancelled => "cancelled"
    case Retrying => "retrying"
  }

  function ParseStatus(name: string): (r: Option<Status>)
    ensures r.Some? ==> StatusName(r.value) == name
  {
    if name == "pending" then Some(Pending)
    else if name == "sent" then Some(Sent)
    else if name == "failed" then Some(Failed)
    else if name == "cancelled" then Some(Cancelled)
    else if name == "retrying" then Some(Retrying)
    else None
  }

  lemma ParseStatusName(s: Status)
    ensures ParseStatus(StatusName(s)) == Some(s)
  {
  }

  datatype FailureReason =
    | EmailInvalid | ContactNotVerified | TaskCompleted | ResendApiError
    | NetworkError | RateLimited | QuotaExceeded | UnknownError

  function ReasonName(r: FailureReason): string {
    match r
    case EmailInvalid => "email_invalid"
    case ContactNotVerified => "contact_not_verified"
    case TaskCompleted => "task_completed"
    case ResendApiError => "resend_api_error"
    case NetworkError => "network_error"
    case RateLimited => "rate_limited"
    case QuotaExceeded => "quota_exceeded"
    case UnknownError => "unknown_error"
  }

  const MaxRetries: nat := 3
  const BaseDelayMinutes: nat := 5
  const ExponentialBase: nat := 3
  const MaxDelayHours: nat := 24
  /** Minutes as milliseconds. */
  function MinutesToMs(m: int): int {
    m * 60000
  }

  // ------------------------------------------------------- transition table

  /** The statuses reachable in one step from `s`. */
  function Successors(s: Status): set<Status> {
    match s
    case Pending => {Sent, Failed, Cancelled, Retrying}
    case Retrying => {Sent, Failed, Cancelled}
    case Sent => {Cancelled}
    case Failed => {}
    case Cancelled => {}
  }

  predicate Allowed(from: Status, to: Status) {
    to in Successors(from)
  }

  /** The table looked up by the stored status text: a name that is not in the
      table has no entry and allows nothing. */
  function AllowedFrom(current: string): (r: set<Status>)
    ensures forall s :: current == StatusName(s) ==> r == Successors(s)
  {
    match ParseStatus(current)
    case None => {}
    case Some(s) => (ParseStatusName(s); Successors(s))
  }

  /** Position in the lifecycle; every allowed step moves strictly forward. */
  function Rank(s: Status): nat {
    match s
    case Pending => 0
    case Retrying => 1
    case Sent => 2
    case Failed => 3
    case Cancelled => 3
  }

  lemma AllowedRaisesRank(from: Status, to: Status)
    ensures Allowed(from, to) ==> Rank(from) < Rank(to)
  {
  }

  /** `failed` and `cancelled` are terminal, and no status may be re-entered from itself. */
  lemma TerminalAndIrreflexive(s: Status, t: Status)
    ensures !Allowed(Failed, t) && !Allowed(Cancelled, t)
    ensures !Allowed(s, s)
    ensures Allowed(s, t) ==> t != Pending
  {
    AllowedRaisesRank(s, t);
    AllowedRaisesRank(s, s);
  }

  lemma UnknownStatusAllowsNothing(name: string)
    requires ParseStatus(name).None?
    ensures AllowedFrom(name) == {}
  {
  }

  predicate IsChain(c: seq<Status>) {
    forall i | 0 < i < |c| :: Allowed(c[i - 1], c[i])
  }

  /** A record passes through at most four statuses: the table has no cycles and no
      path longer than pending → retrying → sent → cancelled. */
  lemma {:induction false} ChainLength(c: seq<Status>)
    requires IsChain(c) && |c| > 0
    ensures Rank(c[|c| - 1]) >= Rank(c[0]) + |c| - 1
    ensures |c| <= 4
  {
    if |c| > 1 {
      var p := c[..|c| - 1];
      assert IsChain(p) by {
        forall i | 0 < i < |p| ensures Allowed(p[i - 1], p[i]) {
          assert p[i - 1] == c[i - 1] && p[i] == c[i];
        }
      }
      ChainLength(p);
      AllowedRaisesRank(c[|c| - 2], c[|c| - 1]);
    }
  }

  // ------------------------------------------------------------ retry policy

  predicate NonRetryable(r: FailureReason) {
    r == EmailInvalid || r == ContactNotVerified || r == TaskCompleted
  }

  function ShouldRetry(reason: FailureReason, retryCount: int): (r: bool)
    ensures r ==> retryCount <= MaxRetries && !NonRetryable(reason)
  {
    if retryCount > MaxRetries then false else !NonRetryable(reason)
  }

  /** A retryable reason is retried exactly while the count is at most three; the
      other reasons never are, whatever the count. */
  lemma ShouldRetryExactly(reason: FailureReason, n: int)
    ensures NonRetryable(reason) ==> !ShouldRetry(reason, n)
    ensures !NonRetryable(reason) ==> (ShouldRetry(reason, n) <==> n <= MaxRetries)
  {
  }

  function Pow(b: nat, e: nat): (r: nat)
    ensures b > 0 ==> r > 0
  {
    if e == 0 then 1 else b * Pow(b, e - 1)
  }

  /** `min(5 · 3^(n−1), 24 · 60)` minutes, for the n-th retry. */
  function RetryDelay(n: nat): (d: nat)
    requires n >= 1
    ensures BaseDelayMinutes <= d <= MaxDelayHours * 60
  {
    var raw := BaseDelayMinutes * Pow(ExponentialBase, n - 1);
    if raw < MaxDelayHours * 60 then raw else MaxDelayHours * 60
  }

  lemma RetryDelayFirstThree()
    ensures RetryDelay(1) == 5 && RetryDelay(2) == 15 && RetryDelay(3) == 45
  {
  }

  lemma {:induction false} PowMonotone(b: nat, e1: nat, e2: nat)
    requires b >= 1 && e1 <= e2
    ensures Pow(b, e1) <= Pow(b, e2)
    decreases e2
  {
    if e1 < e2 {
      PowMonotone(b, e1, e2 - 1);
    }
  }

  lemma RetryDelayMonotone(m: nat, n: nat)
    requires 1 <= m <= n
    ensures RetryDelay(m) <= RetryDelay(n)
  {
    PowMonotone(ExponentialBase, m - 1, n - 1);
  }

  /** The 24-hour cap is first reached at the seventh retry. */
  lemma RetryDelayCap(n: nat)
    requires n >= 1
    ensures RetryDelay(n) == MaxDelayHours * 60 <==> n >= 7
  {
    if n >= 7 {
      PowMonotone(ExponentialBase, 6, n - 1);
      assert Pow(3, 6) == 729;
    } else {
      PowMonotone(ExponentialBase, n - 1, 5);
      assert Pow(3, 5) == 243;
    }
  }

  // ------------------------------------------------------------ the records

  datatype Escalation = Escalation(
    id: nat,
    policyId: string,
    status: Status,
    scheduledFor: int,
    messageContent: string,
    sentAt: Option<int>,
    receipt: Object,      // delivery_receipt; an absent receipt is the empty object
    createdAt: int,
    updatedAt: int)

  /** The stored retry count, read as `delivery_receipt?.retries || 0` reads a positive
      whole number. Anything else (absent, zero, negative, text) counts as 0. */
  function RetriesOf(receipt: Object): nat {
    if "retries" in receipt && receipt["retries"].Num? && receipt["retries"].n > 0
    then receipt["retries"].n else 0
  }

  /** The keys `updateStatus` itself writes into a receipt beside the caller's data. */
  const StampKeys: set<string> :=
    {"status_updated_at", "previous_status", "failed_at", "cancelled_at", "retry_scheduled_at"}

  /** `additionalData.sent_at || now`. */
  function SentAtOf(add: Object, now: int): int {
    if "sent_at" in add && add["sent_at"].Num? && add["sent_at"].n != 0 then add["sent_at"].n else now
  }

  /** The receipt `updateStatus` writes: the caller's data, then the update time and
      the previous status, then the fields of the new status. */
  function NewReceipt(from: Status, to: Status, add: Object, now: int): Object {
    var base := add + map["status_updated_at" := Num(now), "previous_status" := Str(StatusName(from))];
    match to
    case Failed => CopyField(base["failed_at" := Num(now)], "failure_reason", add)
    case Cancelled => CopyField(base["cancelled_at" := Num(now)], "cancellation_reason", add)
    case Retrying => CopyField(base["retry_scheduled_at" := Num(now)], "next_retry_at", add)
    case _ => base
  }

  /** The new receipt holds the stamps, the status-specific time, and every field of the
      caller's data; it holds nothing else, so the old receipt is replaced, not merged. */
  lemma NewReceiptContents(from: Status, to: Status, add: Object, now: int)
    ensures var r := NewReceipt(from, to, add, now);
      && "previous_status" in r && r["previous_status"] == Str(StatusName(from))
      && "status_updated_at" in r && r["status_updated_at"] == Num(now)
      && (to == Failed ==> "failed_at" in r && r["failed_at"] == Num(now))
      && (to == Cancelled ==> "cancelled_at" in r && r["cancelled_at"] == Num(now))
      && (to == Retrying ==> "retry_scheduled_at" in r && r["retry_scheduled_at"] == Num(now))
      && (forall k | k in add && k !in StampKeys :: k in r && r[k] == add[k])
      && (forall k | k in r :: k in add || k in StampKeys)
  {
  }

  /** The row `updateStatus` writes for an allowed transition. */
  function Transitioned(e: Escalation, to: Status, add: Object, now: int): Escalation {
    var sentAt := if to == Sent then Some(SentAtOf(add, now)) else e.sentAt;
    e.(status := to, updatedAt := now, receipt := NewReceipt(e.status, to, add, now), sentAt := sentAt)
  }

  /** Why `updateStatus` refused; `UpdateErrorText` is the message it returns. */
  datatype UpdateError = RecordNotFound | CannotTransition(from: Status, to: Status)

  function UpdateErrorText(err: UpdateError): string {
    "Invalid status transition: " +
    match err
    case RecordNotFound => "Escalation not found"
    case CannotTransition(from, to) =>
      "Cannot transition from " + StatusName(from) + " to " + StatusName(to)
  }

  datatype UpdateResult = Updated(row: Escalation) | UpdateFailed(error: UpdateError)

  /** `updateStatus` on one stored record: the new row and the result object. */
  function UpdateStatusOn(e: Escalation, to: Status, add: Object, now: int): (r: (Escalation, UpdateResult))
    ensures r.0.id == e.id
  {
    if Allowed(e.status, to) then
      var r := Transitioned(e, to, add, now);
      (r, Updated(r))
    else (e, UpdateFailed(CannotTransition(e.status, to)))
  }

  function MarkSentData(receiptData: Object, now: int): Object {
    map["sent_at" := Num(now), "delivery_receipt" := Obj(receiptData), "delivery_confirmed" := Bool(true)]
  }

  function CancelData(reason: string, metadata: Object, now: int): Object {
    map["cancellation_reason" := Str(reason), "cancelled_at" := Num(now), "metadata" := Obj(metadata)]
  }

  function ErrorMessage(details: Object): Value {
    if Present(details, "message") then details["message"] else Str("Unknown error")
  }

  function RetryData(reason: FailureReason, n: nat, next: int, delay: nat, details: Object): Object {
    map["failure_reason" := Str(ReasonName(reason)), "retries" := Num(n),
        "last_error" := ErrorMessage(details), "next_retry_at" := Num(next),
        "retry_delay_minutes" := Num(delay), "error_details" := Obj(details)]
  }

  function FailureData(reason: FailureReason, n: nat, details: Object): Object {
    map["failure_reason" := Str(ReasonName(reason)), "retries" := Num(n),
        "final_failure" := Bool(true), "error_details" := Obj(details),
        "max_retries_exceeded" := Bool(n > MaxRetries)]
  }

  datatype FailureResult =
    | NotFound
    | WillRetry(nextRetryAt: int, retryCount: nat, delayMinutes: nat)
    | FinalFailure(retryCount: nat)

  /** `handleFailure` on one stored record. On the retry path the row is first
      written with `status = retrying` and the new `scheduled_for`; the following
      `updateStatus(retrying)` then meets a `retrying` row. */
  function HandleFailureOn(e: Escalation, reason: FailureReason, details: Object, now: int): (Escalation, FailureResult) {
    var n := RetriesOf(e.receipt) + 1;
    if ShouldRetry(reason, n) then
      var delay := RetryDelay(n);
      var next := now + MinutesToMs(delay);
      var written := e.(scheduledFor := next, status := Retrying);
      (UpdateStatusOn(written, Retrying, RetryData(reason, n, next, delay, details), now).0,
       WillRetry(next, n, delay))
    else
      (UpdateStatusOn(e, Failed, FailureData(reason, n, details), now).0, FinalFailure(n))
  }

  lemma RetryingToRetryingRefused(w: Escalation, add: Object, now: int)
    requires w.status == Retrying
    ensures UpdateStatusOn(w, Retrying, add, now) == (w, UpdateFailed(CannotTransition(Retrying, Retrying)))
  {
  }

  lemma HandleFailureOnRetry(e: Escalation, reason: FailureReason, details: Object, now: int)
    requires ShouldRetry(reason, RetriesOf(e.receipt) + 1)
    ensures var n := RetriesOf(e.receipt) + 1;
      var next := now + MinutesToMs(RetryDelay(n));
      HandleFailureOn(e, reason, details, now)
      == (e.(scheduledFor := next, status := Retrying), WillRetry(next, n, RetryDelay(n)))
  {
  }

  lemma HandleFailureOnFinal(e: Escalation, reason: FailureReason, details: Object, now: int)
    requires !ShouldRetry(reason, RetriesOf(e.receipt) + 1)
    ensures HandleFailureOn(e, reason, details, now)
      == (UpdateStatusOn(e, Failed, FailureData(reason, RetriesOf(e.receipt) + 1, details), now).0,
          FinalFailure(RetriesOf(e.receipt) + 1))
  {
  }

  /** The one write of `retries` is on the final path, and it stores a positive
      whole count, which `RetriesOf` reads back as it was written. */
  lemma FinalFailureStoresCount(e: Escalation, reason: FailureReason, details: Object, now: int)
    requires !ShouldRetry(reason, RetriesOf(e.receipt) + 1) && Allowed(e.status, Failed)
    ensures var r := HandleFailureOn(e, reason, details, now).0;
      "retries" in r.receipt && r.receipt["retries"] == Num(RetriesOf(e.receipt) + 1)
      && RetriesOf(r.receipt) == RetriesOf(e.receipt) + 1
  {
    var n := RetriesOf(e.receipt) + 1;
    NewReceiptContents(e.status, Failed, FailureData(reason, n, details), now);
    assert "retries" in FailureData(reason, n, details) && "retries" !in StampKeys;
  }

  function CancelOn(e: Escalation, reason: string, metadata: Object, now: int): (Escalation, UpdateResult) {
    UpdateStatusOn(e, Cancelled, CancelData(reason, metadata, now), now)
  }

  function MarkSentOn(e: Escalation, receiptData: Object, now: int): (Escalation, UpdateResult) {
    UpdateStatusOn(e, Sent, MarkSentData(receiptData, now), now)
  }

  // -------------------------------------------- properties of the operations

  /** An allowed update replaces the receipt: nothing of the old receipt survives
      unless the caller's data supplies it again. */
  lemma UpdateReplacesReceipt(e: Escalation, to: Status, add: Object, now: int, k: string)
    requires Allowed(e.status, to)
    requires k in e.receipt && k !in add && k !in StampKeys
    ensures k !in UpdateStatusOn(e, to, add, now).0.receipt
  {
    NewReceiptContents(e.status, to, add, now);
  }

  /** A disallowed update leaves the record exactly as it was and reports the error. */
  lemma RejectedUpdateChangesNothing(e: Escalation, to: Status, add: Object, now: int)
    requires !Allowed(e.status, to)
    ensures UpdateStatusOn(e, to, add, now).0 == e
    ensures UpdateStatusOn(e, to, add, now).1.UpdateFailed?
  {
  }

  /** `markSent` on a failed or cancelled record is refused and changes nothing. */
  lemma MarkSentOnTerminalRefused(e: Escalation, data: Object, now: int)
    requires e.status == Failed || e.status == Cancelled
    ensures MarkSentOn(e, data, now) == (e, UpdateFailed(CannotTransition(e.status, Sent)))
  {
    TerminalAndIrreflexive(e.status, Sent);
  }

  /** A successful `markSent` stamps the send time and confirms delivery in the receipt. */
  lemma MarkSentStamps(e: Escalation, data: Object, now: int)
    requires e.status == Pending || e.status == Retrying
    ensures var r := MarkSentOn(e, data, now).0;
      r.status == Sent && r.sentAt == Some(now)
      && r.receipt["delivery_confirmed"] == Bool(true)
      && r.receipt["delivery_receipt"] == Obj(data)
  {
  }

  /** As written, the retry path never records its metadata: the row becomes
      `retrying` with the new `scheduled_for`, and its receipt is untouched, so no
      `retries`, `next_retry_at` or `failure_reason` is stored. */
  lemma RetryMetadataNeverStored(e: Escalation, reason: FailureReason, details: Object, now: int)
    requires ShouldRetry(reason, RetriesOf(e.receipt) + 1)
    ensures var (r, res) := HandleFailureOn(e, reason, details, now);
      res.WillRetry? && r == e.(status := Retrying, scheduledFor := res.nextRetryAt)
      && r.receipt == e.receipt && RetriesOf(r.receipt) == RetriesOf(e.receipt)
      && res.nextRetryAt == now + MinutesToMs(RetryDelay(RetriesOf(e.receipt) + 1))
  {
    TerminalAndIrreflexive(Retrying, Retrying);
  }

  /** Hence repeated retryable failures of a record whose receipt holds no retry
      count all compute retry number 1 with the 5-minute delay: the 5, 15, 45 minute
      sequence is never reached. */
  lemma RepeatedFailuresRestartCount(e: Escalation, r1: FailureReason, r2: FailureReason, d: Object, t1: int, t2: int)
    requires RetriesOf(e.receipt) == 0 && !NonRetryable(r1) && !NonRetryable(r2)
    ensures var (a, res1) := HandleFailureOn(e, r1, d, t1);
      var (_, res2) := HandleFailureOn(a, r2, d, t2);
      res1 == WillRetry(t1 + MinutesToMs(5), 1, 5) && res2 == WillRetry(t2 + MinutesToMs(5), 1, 5)
  {
    RetryMetadataNeverStored(e, r1, d, t1);
    var a := HandleFailureOn(e, r1, d, t1).0;
    RetryMetadataNeverStored(a, r2, d, t2);
  }

  /** A non-retryable reason fails a pending or retrying record on its first
      occurrence, whatever the count, and marks the failure final. */
  lemma NonRetryableFailsAtOnce(e: Escalation, reason: FailureReason, details: Object, now: int)
    requires NonRetryable(reason) && (e.status == Pending || e.status == Retrying)
    ensures var (r, res) := HandleFailureOn(e, reason, details, now);
      r.status == Failed && res == FinalFailure(RetriesOf(e.receipt) + 1)
      && r.receipt["final_failure"] == Bool(true)
      && r.receipt["failure_reason"] == Str(ReasonName(reason))
      && r.receipt["previous_status"] == Str(StatusName(e.status))
  {
  }

  /** Once the stored count reaches three, the next failure is final and says that
      the retries were exhausted. */
  lemma ExhaustedRetriesFail(e: Escalation, reason: FailureReason, details: Object, now: int)
    requires RetriesOf(e.receipt) >= MaxRetries && (e.status == Pending || e.status == Retrying)
    ensures var (r, res) := HandleFailureOn(e, reason, details, now);
      r.status == Failed && res.FinalFailure?
      && r.receipt["max_retries_exceeded"] == Bool(true)
  {
  }

  /** Cancelling a record that has not reached a terminal status records the reason. */
  lemma CancelRecordsReason(e: Escalation, reason: string, metadata: Object, now: int)
    requires e.status != Failed && e.status != Cancelled
    ensures var r := CancelOn(e, reason, metadata, now).0;
      r.status == Cancelled && r.receipt["cancellation_reason"] == Str(reason)
      && r.receipt["cancelled_at"] == Num(now) && r.receipt["metadata"] == Obj(metadata)
  {
  }

  // ------------------------------------------------------------- statistics

  function CountStatus(xs: seq<Status>, s: Status): (c: nat)
    ensures c <= |xs|
  {
    if xs == [] then 0 else (if xs[0] == s then 1 else 0) + CountStatus(xs[1..], s)
  }

  /** The `reduce` that tallies statuses into an object keyed by status: a key is
      present only for statuses that occur. */
  method CountByStatus(xs: seq<Status>) returns (acc: map<Status, nat>)
    ensures forall s :: s in acc <==> CountStatus(xs, s) > 0
    ensures forall s | s in acc :: acc[s] == CountStatus(xs, s)
  {
    acc := map[];
    var i := 0;
    while i < |xs|
      invariant 0 <= i <= |xs|
      invariant forall s :: s in acc <==> CountStatus(xs[..i], s) > 0
      invariant forall s | s in acc :: acc[s] == CountStatus(xs[..i], s)
    {
      CountStatusSnoc(xs[..i], xs[i]);
      assert xs[..i + 1] == xs[..i] + [xs[i]];
      var prev := if xs[i] in acc then acc[xs[i]] else 0;
      acc := acc[xs[i] := prev + 1];
      i := i + 1;
    }
    assert xs[..i] == xs;
  }

  lemma {:induction false} CountStatusSnoc(xs: seq<Status>, x: Status)
    ensures forall s :: CountStatus(xs + [x], s) == CountStatus(xs, s) + (if x == s then 1 else 0)
  {
    if xs != [] {
      CountStatusSnoc(xs[1..], x);
      assert (xs + [x])[1..] == xs[1..] + [x];
    }
  }

  function CountOr0(acc: map<Status, nat>, s: Status): nat {
    if s in acc then acc[s] else 0
  }

  /** The per-status counts add up to the number of records counted. */
  lemma {:induction false} CountsSumToTotal(xs: seq<Status>)
    ensures CountStatus(xs, Pending) + CountStatus(xs, Sent) + CountStatus(xs, Failed)
            + CountStatus(xs, Cancelled) + CountStatus(xs, Retrying) == |xs|
  {
    if xs != [] {
      CountsSumToTotal(xs[1..]);
    }
  }

  /** Hours looked back for each named timeframe; an unknown name means 24 hours. */
  function HoursBack(timeframe: string): nat {
    if timeframe == "1h" then 1
    else if timeframe == "24h" then 24
    else if timeframe == "7d" then 24 * 7
    else if timeframe == "30d" then 24 * 30
    else 24
  }

  function StatusesSince(rows: seq<Escalation>, cutoff: int): (r: seq<Status>)
    ensures |r| <= |rows|
  {
    if rows == [] then []
    else (if rows[0].createdAt >= cutoff then [rows[0].status] else []) + StatusesSince(rows[1..], cutoff)
  }

  datatype EscalationStats = EscalationStats(total: nat, statusBreakdown: map<Status, nat>)

  /** `getEscalationStats` (status counts): the records created within the timeframe,
      given as the store lists them, tallied by status. */
  method GetEscalationStats(rows: seq<Escalation>, timeframe: string, now: int) returns (stats: EscalationStats)
    ensures stats.total == |StatusesSince(rows, now - MinutesToMs(HoursBack(timeframe) * 60))|
    ensures forall s :: s in stats.statusBreakdown <==>
      CountStatus(StatusesSince(rows, now - MinutesToMs(HoursBack(timeframe) * 60)), s) > 0
    ensures forall s | s in stats.statusBreakdown ::
      stats.statusBreakdown[s] == CountStatus(StatusesSince(rows, now - MinutesToMs(HoursBack(timeframe) * 60)), s)
    ensures CountOr0(stats.statusBreakdown, Pending) + CountOr0(stats.statusBreakdown, Sent)
      + CountOr0(stats.statusBreakdown, Failed) + CountOr0(stats.statusBreakdown, Cancelled)
      + CountOr0(stats.statusBreakdown, Retrying) == stats.total
  {
    var recent := StatusesSince(rows, now - MinutesToMs(HoursBack(timeframe) * 60));
    var counts := CountByStatus(recent);
    CountsSumToTotal(recent);
    stats := EscalationStats(|recent|, counts);
  }

  // ------------------------------------------------------------- the store

  lemma SameUpdate(m: map<nat, Escalation>, k: nat)
    requires k in m
    ensures m[k := m[k]] == m
  {
  }

  lemma UpdateTwice(m: map<nat, Escalation>, k: nat, a: Escalation, b: Escalation)
    ensures m[k := a][k := b] == m[k := b]
  {
  }

  /** The ids of the rows created for policy `pid`. */
  function PolicyRows(rows: map<nat, Escalation>, pid: string): set<nat> {
    set k | k in rows && rows[k].policyId == pid
  }

  predicate HasRow(rows: map<nat, Escalation>, pid: string) {
    exists k | k in rows :: rows[k].policyId == pid
  }

  /** Every row of `a` is still in `b`, unchanged. */
  predicate Grows(a: map<nat, Escalation>, b: map<nat, Escalation>) {
    forall k | k in a :: k in b && b[k] == a[k]
  }

  lemma HasRowGrows(a: map<nat, Escalation>, b: map<nat, Escalation>, pid: string)
    requires Grows(a, b) && HasRow(a, pid)
    ensures HasRow(b, pid)
  {
    var k :| k in a && a[k].policyId == pid;
    assert k in b && b[k].policyId == pid;
  }

  /** No policy has two escalation rows. */
  predicate AtMostOnePerPolicy(rows: map<nat, Escalation>) {
    forall a, b | a in rows && b in rows && rows[a].policyId == rows[b].policyId :: a == b
  }

  /** A `.single()` lookup finds a row only when exactly one matches; while no policy
      has two rows, that is the same as asking whether any row matches. */
  lemma SingleRowIffAny(rows: map<nat, Escalation>, pid: string)
    ensures |PolicyRows(rows, pid)| == 1 ==> HasRow(rows, pid)
    ensures AtMostOnePerPolicy(rows) ==> (|PolicyRows(rows, pid)| == 1 <==> HasRow(rows, pid))
  {
    var s := PolicyRows(rows, pid);
    if |s| == 1 {
      var k :| k in s;
    }
    if AtMostOnePerPolicy(rows) && HasRow(rows, pid) {
      var k :| k in rows && rows[k].policyId == pid;
      assert s == {k};
    }
  }

  /** The escalations table: rows by id, and the next id the store hands out. */
  class EscalationStore {
    var rows: map<nat, Escalation>
    var nextId: nat

    ghost predicate Valid()
      reads this
    {
      forall id | id in rows :: rows[id].id == id && id < nextId
    }

    constructor ()
      ensures Valid() && rows == map[]
    {
      rows := map[];
      nextId := 0;
    }

    /** A new `pending` row; the store assigns the id. */
    method Insert(policyId: string, scheduledFor: int, messageContent: string, receipt: Object, now: int)
      returns (id: nat)
      requires Valid()
      modifies this
      ensures Valid() && id !in old(rows)
      ensures rows == old(rows)[id := Escalation(id, policyId, Pending, scheduledFor, messageContent, None, receipt, now, now)]
    {
      id := nextId;
      rows := rows[id := Escalation(id, policyId, Pending, scheduledFor, messageContent, None, receipt, now, now)];
      nextId := nextId + 1;
    }

    /** `createEscalation`: always inserts with status `pending`, the receipt holding
        the creation time and the caller's metadata. */
    method CreateEscalation(policyId: string, scheduledFor: int, messageContent: string, metadata: Object, now: int)
      returns (id: nat)
      requires Valid()
      modifies this
      ensures Valid() && id !in old(rows) && rows.Keys == old(rows).Keys + {id}
      ensures forall k | k in old(rows) :: rows[k] == old(rows)[k]
      ensures rows[id].status == Pending && rows[id].policyId == policyId
      ensures rows[id].scheduledFor == scheduledFor && rows[id].messageContent == messageContent
      ensures rows[id].receipt == map["created_at" := Num(now), "metadata" := Obj(metadata)]
    {
      id := Insert(policyId, scheduledFor, messageContent, map["created_at" := Num(now), "metadata" := Obj(metadata)], now);
    }

    /** The existence check `select … eq(policy_id) .single()`: true when exactly one
        row belongs to the policy. */
    function SingleRowFor(pid: string): bool
      reads this
    {
      |PolicyRows(rows, pid)| == 1
    }

    /** `validateStatusTransition`: the current status, and whether the table allows the step. */
    function ValidateStatusTransition(id: nat, to: Status): (r: Option<(Status, bool)>)
      reads this
      ensures r.None? <==> id !in rows
      ensures r.Some? ==> r.value == (rows[id].status, Allowed(rows[id].status, to))
    {
      if id in rows then Some((rows[id].status, Allowed(rows[id].status, to))) else None
    }

    method UpdateStatus(id: nat, to: Status, add: Object, now: int) returns (r: UpdateResult)
      requires Valid()
      modifies this
      ensures Valid() && nextId == old(nextId)
      ensures id !in old(rows) ==> rows == old(rows) && r == UpdateFailed(RecordNotFound)
      ensures id in old(rows) ==>
        rows == old(rows)[id := UpdateStatusOn(old(rows)[id], to, add, now).0]
        && r == UpdateStatusOn(old(rows)[id], to, add, now).1
    {
      var check := ValidateStatusTransition(id, to);
      if check.None? {
        return UpdateFailed(RecordNotFound);
      }
      var (current, ok) := check.value;
      if !ok {
        SameUpdate(rows, id);
        return UpdateFailed(CannotTransition(current, to));
      }
      var row := Transitioned(rows[id], to, add, now);
      rows := rows[id := row];
      r := Updated(row);
    }

    method HandleFailure(id: nat, reason: FailureReason, details: Object, now: int) returns (r: FailureResult)
      requires Valid()
      modifies this
      ensures Valid() && nextId == old(nextId)
      ensures id !in old(rows) ==> rows == old(rows) && r == NotFound
      ensures id in old(rows) ==>
        rows == old(rows)[id := HandleFailureOn(old(rows)[id], reason, details, now).0]
        && r == HandleFailureOn(old(rows)[id], reason, details, now).1
    {
      if id !in rows {
        return NotFound;
      }
      var e := rows[id];
      var n := RetriesOf(e.receipt) + 1;
      if ShouldRetry(reason, n) {
        var delay := RetryDelay(n);
        var next := now + MinutesToMs(delay);
        var written := e.(scheduledFor := next, status := Retrying);
        var data := RetryData(reason, n, next, delay, details);
        HandleFailureOnRetry(e, reason, details, now);
        RetryingToRetryingRefused(written, data, now);
        UpdateTwice(rows, id, written, written);
        rows := rows[id := written];
        var _ := UpdateStatus(id, Retrying, data, now);
        r := WillRetry(next, n, delay);
      } else {
        HandleFailureOnFinal(e, reason, details, now);
        var _ := UpdateStatus(id, Failed, FailureData(reason, n, details), now);
        r := FinalFailure(n);
      }
    }

    method CancelEscalation(id: nat, reason: string, metadata: Object, now: int) returns (r: UpdateResult)
      requires Valid()
      modifies this
      ensures Valid() && nextId == old(nextId)
      ensures id !in old(rows) ==> rows == old(rows) && r.UpdateFailed?
      ensures id in old(rows) ==>
        rows == old(rows)[id := CancelOn(old(rows)[id], reason, metadata, now).0]
        && r == CancelOn(old(rows)[id], reason, metadata, now).1
    {
      r := UpdateStatus(id, Cancelled, CancelData(reason, metadata, now), now);
    }

    method MarkSent(id: nat, receiptData: Object, now: int) returns (r: UpdateResult)
      requires Valid()
      modifies this
      ensures Valid() && nextId == old(nextId)
      ensures id !in old(rows) ==> rows == old(rows) && r.UpdateFailed?
      ensures id in old(rows) ==>
        rows == old(rows)[id := MarkSentOn(old(rows)[id], receiptData, now).0]
        && r == MarkSentOn(old(rows)[id], receiptData, now).1
    {
      r := UpdateStatus(id, Sent, MarkSentData(receiptData, now), now);
    }
  }
}
