/** The provider's delivery webhook: an event (`email.sent`, `email.delivered`, ...)
    names its email's tags, the `escalation_id` tag finds the record, and the event
    type decides what is written to it. */
module Webhook {
  import opened Text
  import opened Json
  import opened Entities
  import opened EscalationState
  import opened Delivery

  datatype Event = EmailSent | EmailDelivered | EmailBounced | EmailComplained | EmailOpened | EmailClicked | OtherEvent

  /** The `switch (type)` on the event type, compared with `===`. */
  function EventOf(t: Value): Event {
    if t == Str("email.sent") then EmailSent
    else if t == Str("email.delivered") then EmailDelivered
    else if t == Str("email.bounced") then EmailBounced
    else if t == Str("email.complained") then EmailComplained
    else if t == Str("email.opened") then EmailOpened
    else if t == Str("email.clicked") then EmailClicked
    else OtherEvent
  }

  /** `v.k` on a parsed JSON value: only objects have fields. */
  function Field(v: Value, k: string): Option<Value> {
    if v.Obj? && k in v.fields then Some(v.fields[k]) else None
  }

  /** Storing `{..., k: v}` drops the key when `v` is `undefined`. */
  function With(o: Object, k: string, v: Option<Value>): (r: Object)
    ensures v.Some? ==> k in r && r[k] == v.value
    ensures v.None? ==> k !in r
    ensures forall k2 | k2 != k :: (k2 in r <==> k2 in o) && (k2 in o ==> r[k2] == o[k2])
  {
    if v.Some? then o[k := v.value] else o - {k}
  }

  // ------------------------------------------------------------ tag lookup

  /** The result of looking for the `escalation_id` tag. `TagCrash` is the TypeError
      thrown by reading `name` of a `null` tag. */
  datatype TagLookup = Found(value: Value) | NoTag | TagCrash

  /** A tag named `escalation_id` with a truthy value. */
  predicate IsIdTag(tag: Value) {
    tag.Obj? && "name" in tag.fields && tag.fields["name"] == Str("escalation_id")
    && "value" in tag.fields && Truthy(tag.fields["value"])
  }

  /** A tag the search passes over: not the one it looks for, and not `null`. */
  predicate Skipped(tag: Value) {
    tag != Null && !IsIdTag(tag)
  }

  /** The linear search over the tags, as a definition: the first `escalation_id` tag
      with a truthy value, unless a `null` tag comes first. */
  function TagSearch(items: seq<Value>): TagLookup
    decreases |items|
  {
    if items == [] then NoTag
    else if items[0] == Null then TagCrash
    else if IsIdTag(items[0]) then Found(items[0].fields["value"])
    else TagSearch(items[1..])
  }

  /** `findEscalationIdFromTags` as a whole: missing, falsy or non-array tags give no id. */
  function FindTag(tags: Option<Value>): TagLookup {
    if tags.None? || !tags.value.Arr? then NoTag else TagSearch(tags.value.items)
  }

  /** The search finds the first `escalation_id` tag when every earlier tag is passed over. */
  lemma {:induction false} TagSearchFindsFirst(items: seq<Value>, k: nat)
    requires k < |items| && IsIdTag(items[k])
    requires forall i | 0 <= i < k :: Skipped(items[i])
    ensures TagSearch(items) == Found(items[k].fields["value"])
  {
    if k > 0 {
      TagSearchFindsFirst(items[1..], k - 1);
    }
  }

  /** No id is found exactly when every tag is passed over. */
  lemma {:induction false} TagSearchNone(items: seq<Value>)
    ensures TagSearch(items) == NoTag <==> forall i | 0 <= i < |items| :: Skipped(items[i])
  {
    if items != [] {
      TagSearchNone(items[1..]);
      if forall i | 0 <= i < |items[1..]| :: Skipped(items[1..][i]) {
        if Skipped(items[0]) {
          forall i | 0 <= i < |items| ensures Skipped(items[i]) {
            if i > 0 {
              assert items[i] == items[1..][i - 1];
            }
          }
        }
      } else {
        var i :| 0 <= i < |items[1..]| && !Skipped(items[1..][i]);
        assert !Skipped(items[i + 1]);
      }
    }
  }

  /** A found id is the truthy value of an `escalation_id` tag. */
  lemma {:induction false} TagSearchFoundIsIdTag(items: seq<Value>)
    requires TagSearch(items).Found?
    ensures exists k | 0 <= k < |items| :: IsIdTag(items[k]) && items[k].fields["value"] == TagSearch(items).value
    ensures Truthy(TagSearch(items).value)
  {
    if !IsIdTag(items[0]) {
      TagSearchFoundIsIdTag(items[1..]);
      var k :| 0 <= k < |items[1..]| && IsIdTag(items[1..][k]) && items[1..][k].fields["value"] == TagSearch(items[1..]).value;
      assert items[k + 1] == items[1..][k];
    }
  }

  /** The loop of `findEscalationIdFromTags`. */
  method FindEscalationIdFromTags(tags: Option<Value>) returns (r: TagLookup)
    ensures r == FindTag(tags)
  {
    if tags.None? || !tags.value.Arr? {
      return NoTag;
    }
    var items := tags.value.items;
    var i := 0;
    while i < |items|
      invariant 0 <= i <= |items|
      invariant TagSearch(items[i..]) == TagSearch(items)
    {
      assert items[i..][1..] == items[i + 1..];
      if items[i] == Null {
        return TagCrash;
      }
      if IsIdTag(items[i]) {
        return Found(items[i].fields["value"]);
      }
      i := i + 1;
    }
    return NoTag;
  }

  /** The tags as the provider reports them back: `{name, value}` objects. */
  function TagsValue(tags: seq<(string, string)>): (v: Value)
    ensures v.Arr? && |v.items| == |tags|
    ensures forall i | 0 <= i < |tags| ::
      v.items[i] == Obj(map["name" := Str(tags[i].0), "value" := Str(tags[i].1)])
  {
    Arr(seq(|tags|, i requires 0 <= i < |tags| => Obj(map["name" := Str(tags[i].0), "value" := Str(tags[i].1)])))
  }

  /** The record an `escalation_id` value names; a value that is not a number's
      decimal text matches no record. */
  function RowIdOf(v: Value): Option<nat> {
    match v
    case Str(s) => ParseNat(s)
    case Num(n) => if n >= 0 then Some(n) else None
    case _ => None
  }

  /** The tags the delivery worker sends lead the webhook back to the same record. */
  lemma CorrelationRoundTrip(id: nat, j: Join)
    ensures var tags := TagsValue(DeliveryTags(id, j));
      FindTag(Some(tags)) == Found(Str(NatToString(id)))
      && RowIdOf(FindTag(Some(tags)).value) == Some(id)
  {
    var t := DeliveryTags(id, j);
    var items := TagsValue(t).items;
    forall i | 0 <= i < 3 ensures Skipped(items[i]) {
      assert items[i].fields["name"] == Str(t[i].0);
    }
    assert items[3].fields["value"] == Str(NatToString(id));
    TagSearchFindsFirst(items, 3);
    ParseNatToString(id);
  }

  // -------------------------------------------------------------- the events

  /** The receipt data built for every event. */
  function ReceiptData(eventType: Value, data: Value, now: int): (rd: Object)
    ensures "webhook_type" in rd && rd["webhook_type"] == eventType
    ensures "provider_data" in rd && rd["provider_data"] == data
    ensures "timestamp" in rd && rd["timestamp"] == Num(now)
  {
    var base := map["webhook_type" := eventType, "timestamp" := Num(now), "provider_data" := data];
    With(With(With(base, "email_id", Field(data, "email_id")), "recipient", Field(data, "to")),
         "subject", Field(data, "subject"))
  }

  /** `email.sent`: the data handed to `markSent`. */
  function SentConfirmation(rd: Object, now: int): Object {
    map["delivery_confirmation" := Obj(rd), "email_sent_at" := Num(now)]
  }

  /** `email.delivered`: the receipt written over the old one. */
  function DeliveredReceipt(rd: Object, now: int): (r: Object)
    ensures forall k | k in rd && k != "delivery_confirmed" && k != "delivered_at" :: k in r && r[k] == rd[k]
    ensures "delivery_confirmed" in r && r["delivery_confirmed"] == Bool(true)
    ensures "delivered_at" in r && r["delivered_at"] == Num(now)
  {
    rd + map["delivery_confirmed" := Bool(true), "delivered_at" := Num(now)]
  }

  /** `email.opened`: the receipt written over the old one. */
  function OpenedReceipt(now: int): Object {
    map["opened_at" := Num(now), "engagement_confirmed" := Bool(true)]
  }

  /** `handleEmailSent` on the record: `markSent` only from `pending` or `retrying`. */
  function SentOn(e: Escalation, rd: Object, now: int): Escalation {
    if e.status == Pending || e.status == Retrying then MarkSentOn(e, SentConfirmation(rd, now), now).0 else e
  }

  /** An `update(...).eq("id", id)`: the receipt of the named record, if there is one. */
  function Rewrite(rows: map<nat, Escalation>, target: Option<nat>, receipt: Object): (r: map<nat, Escalation>)
    ensures r.Keys == rows.Keys
  {
    if target.Some? && target.value in rows then rows[target.value := rows[target.value].(receipt := receipt)]
    else rows
  }

  /** The contact `handleEmailComplaint` flags: the one on the record's policy. */
  function ComplaintContact(rows: map<nat, Escalation>, target: Option<nat>, contactOf: string -> Option<string>): Option<string> {
    if target.Some? && target.value in rows && Given(contactOf(rows[target.value].policyId))
    then contactOf(rows[target.value].policyId) else None
  }

  datatype WebhookResponse =
    | BadPayload              // 400 "Invalid webhook payload"
    | HandlerFailed           // 500 "Failed to process webhook"
    | InternalError           // 500 "Internal server error"
    | Accepted(processed: bool)

  datatype WebhookOutcome = WebhookOutcome(response: WebhookResponse, rows: map<nat, Escalation>, flagged: Option<string>)

  /** What one webhook call answers, and the records and flagged contact it leaves. */
  function Process(rows: map<nat, Escalation>, body: Value, now: int, contactOf: string -> Option<string>): (r: WebhookOutcome)
    ensures r.rows.Keys == rows.Keys
  {
    if body == Null then WebhookOutcome(InternalError, rows, None)
    else
      var eventType := Field(body, "type");
      var data := Field(body, "data");
      if eventType.None? || !Truthy(eventType.value) || data.None? || !Truthy(data.value) then
        WebhookOutcome(BadPayload, rows, None)
      else match FindTag(Field(data.value, "tags"))
        case TagCrash => WebhookOutcome(InternalError, rows, None)
        case NoTag => WebhookOutcome(Accepted(false), rows, None)
        case Found(idValue) =>
          var rd := ReceiptData(eventType.value, data.value, now);
          Dispatch(rows, EventOf(eventType.value), RowIdOf(idValue), rd, now, contactOf)
  }

  /** The `switch` on the event type, once the record id and receipt data are known. */
  function Dispatch(rows: map<nat, Escalation>, event: Event, target: Option<nat>, rd: Object, now: int,
                    contactOf: string -> Option<string>): (r: WebhookOutcome)
    ensures r.rows.Keys == rows.Keys
    ensures forall k | k in rows && Some(k) != target :: r.rows[k] == rows[k]
    ensures r.flagged.Some? ==> event == EmailComplained
  {
    match event
    case EmailSent =>
      var after := if target.Some? && target.value in rows
        then rows[target.value := SentOn(rows[target.value], rd, now)] else rows;
      WebhookOutcome(Accepted(true), after, None)
    case EmailDelivered => WebhookOutcome(Accepted(true), Rewrite(rows, target, DeliveredReceipt(rd, now)), None)
    case EmailOpened => WebhookOutcome(Accepted(true), Rewrite(rows, target, OpenedReceipt(now)), None)
    case EmailComplained => WebhookOutcome(Accepted(true), rows, ComplaintContact(rows, target, contactOf))
    case EmailBounced => WebhookOutcome(HandlerFailed, rows, None)
    case EmailClicked => WebhookOutcome(HandlerFailed, rows, None)
    case OtherEvent => WebhookOutcome(Accepted(false), rows, None)
  }

  /** The escalation id a well-formed event carries, if any. */
  function EventTarget(body: Value): Option<nat> {
    match Field(body, "data")
    case None => None
    case Some(data) =>
      match FindTag(Field(data, "tags"))
      case Found(v) => RowIdOf(v)
      case _ => None
  }

  /** A payload without a truthy `type` and `data` is refused with 400 and changes nothing. */
  lemma InvalidPayloadRefused(rows: map<nat, Escalation>, body: Value, now: int, contactOf: string -> Option<string>)
    requires body != Null
    requires Field(body, "type").None? || !Truthy(Field(body, "type").value)
      || Field(body, "data").None? || !Truthy(Field(body, "data").value)
    ensures Process(rows, body, now, contactOf) == WebhookOutcome(BadPayload, rows, None)
  {
  }

  /** Whatever the event, at most the named record changes, and only the contact of
      a complaint is flagged. */
  lemma OnlyTargetChanges(rows: map<nat, Escalation>, body: Value, now: int, contactOf: string -> Option<string>)
    ensures var r := Process(rows, body, now, contactOf);
      (forall k | k in rows && Some(k) != EventTarget(body) :: r.rows[k] == rows[k])
      && (r.flagged.Some? ==> EventOf(Field(body, "type").value) == EmailComplained)
  {
  }

  /** An event that does not name an escalation, or whose type is not handled, is
      accepted as not processed and changes nothing. */
  lemma UnprocessedChangesNothing(rows: map<nat, Escalation>, body: Value, now: int, contactOf: string -> Option<string>)
    requires body != Null && Field(body, "type").Some? && Truthy(Field(body, "type").value)
    requires Field(body, "data").Some? && Truthy(Field(body, "data").value)
    requires FindTag(Field(Field(body, "data").value, "tags")) == NoTag
      || (FindTag(Field(Field(body, "data").value, "tags")).Found? && EventOf(Field(body, "type").value) == OtherEvent)
    ensures Process(rows, body, now, contactOf) == WebhookOutcome(Accepted(false), rows, None)
  {
  }

  /** As written, bounce and click events fail with 500 and change nothing: their
      handlers read a `data` that is not in scope. */
  lemma BounceAndClickFail(rows: map<nat, Escalation>, body: Value, now: int, contactOf: string -> Option<string>)
    requires body != Null && Field(body, "type").Some? && Truthy(Field(body, "type").value)
    requires Field(body, "data").Some? && Truthy(Field(body, "data").value)
    requires FindTag(Field(Field(body, "data").value, "tags")).Found?
    requires EventOf(Field(body, "type").value) == EmailBounced || EventOf(Field(body, "type").value) == EmailClicked
    ensures Process(rows, body, now, contactOf) == WebhookOutcome(HandlerFailed, rows, None)
  {
  }

  /** `email.sent` marks a `pending` or `retrying` record sent, with the event as its
      confirmation; a record in any other status is left as it was. */
  lemma SentEventMarksSent(e: Escalation, rd: Object, now: int)
    ensures e.status == Pending || e.status == Retrying ==>
      var r := SentOn(e, rd, now);
      r.status == Sent && r.sentAt == Some(now)
      && r.receipt["delivery_receipt"] == Obj(SentConfirmation(rd, now))
    ensures e.status !in {Pending, Retrying} ==> SentOn(e, rd, now) == e
  {
    if e.status == Pending || e.status == Retrying {
      MarkSentStamps(e, SentConfirmation(rd, now), now);
    }
  }

  /** Besides the event type, time and raw data, the receipt data holds at most the
      email id, recipient and subject. */
  lemma ReceiptDataContents(eventType: Value, data: Value, now: int)
    ensures ReceiptData(eventType, data, now).Keys <= ReceiptKeys
  {
    var base := map["webhook_type" := eventType, "timestamp" := Num(now), "provider_data" := data];
    var rd := ReceiptData(eventType, data, now);
    forall x | x in rd ensures x in ReceiptKeys {
      if x != "subject" && x != "recipient" && x != "email_id" {
        assert x in base;
      }
    }
  }

  const ReceiptKeys: set<string> := {"webhook_type", "email_id", "recipient", "subject", "timestamp", "provider_data"}

  /** `email.delivered` replaces the receipt by the event data with the delivery
      confirmed at the event time: nothing of the old receipt is kept. */
  lemma DeliveredReplacesReceipt(eventType: Value, data: Value, now: int)
    ensures var r := DeliveredReceipt(ReceiptData(eventType, data, now), now);
      r["delivery_confirmed"] == Bool(true) && r["delivered_at"] == Num(now)
      && r["webhook_type"] == eventType && r["provider_data"] == data
      && forall x | x in r :: x in ReceiptKeys || x == "delivery_confirmed" || x == "delivered_at"
  {
    var rd := ReceiptData(eventType, data, now);
    ReceiptDataContents(eventType, data, now);
    var r := DeliveredReceipt(rd, now);
    forall x | x in r ensures x in ReceiptKeys || x == "delivery_confirmed" || x == "delivered_at" {
      if x != "delivery_confirmed" && x != "delivered_at" {
        assert x in rd;
      }
    }
  }

  /** `email.opened` leaves only the open time and the engagement flag in the receipt. */
  lemma OpenedKeepsOnlyEngagement(rows: map<nat, Escalation>, id: nat, now: int)
    requires id in rows
    ensures var r := Rewrite(rows, Some(id), OpenedReceipt(now))[id].receipt;
      r.Keys == {"opened_at", "engagement_confirmed"} && r["opened_at"] == Num(now)
  {
  }

  // ------------------------------------------------------------- the route

  /** `POST /api/webhooks/resend`. The signature check is a no-op in the source and
      is not modelled. */
  method HandleResendWebhook(store: EscalationStore, body: Value, now: int, contactOf: string -> Option<string>)
    returns (resp: WebhookResponse, flagged: Option<string>)
    requires store.Valid()
    modifies store
    ensures store.Valid()
    ensures var r := Process(old(store.rows), body, now, contactOf);
      resp == r.response && store.rows == r.rows && flagged == r.flagged
  {
    if body == Null {
      return InternalError, None;
    }
    var eventType := Field(body, "type");
    var data := Field(body, "data");
    if eventType.None? || !Truthy(eventType.value) || data.None? || !Truthy(data.value) {
      return BadPayload, None;
    }
    var found := FindEscalationIdFromTags(Field(data.value, "tags"));
    if found.TagCrash? {
      return InternalError, None;
    }
    if found.NoTag? {
      return Accepted(false), None;
    }
    var rd := ReceiptData(eventType.value, data.value, now);
    resp, flagged := ApplyEvent(store, EventOf(eventType.value), RowIdOf(found.value), rd, now, contactOf);
  }

  /** The event handlers on the store. */
  method ApplyEvent(store: EscalationStore, event: Event, target: Option<nat>, rd: Object, now: int,
                    contactOf: string -> Option<string>)
    returns (resp: WebhookResponse, flagged: Option<string>)
    requires store.Valid()
    modifies store
    ensures store.Valid()
    ensures var r := Dispatch(old(store.rows), event, target, rd, now, contactOf);
      resp == r.response && store.rows == r.rows && flagged == r.flagged
  {
    flagged := None;
    match event {
      case EmailSent =>
        if target.Some? && target.value in store.rows {
          var e := store.rows[target.value];
          if e.status == Pending || e.status == Retrying {
            var _ := store.MarkSent(target.value, SentConfirmation(rd, now), now);
          } else {
            SameUpdate(store.rows, target.value);
          }
        }
        resp := Accepted(true);
      case EmailDelivered =>
        if target.Some? && target.value in store.rows {
          store.rows := store.rows[target.value := store.rows[target.value].(receipt := DeliveredReceipt(rd, now))];
        }
        resp := Accepted(true);
      case EmailOpened =>
        if target.Some? && target.value in store.rows {
          store.rows := store.rows[target.value := store.rows[target.value].(receipt := OpenedReceipt(now))];
        }
        resp := Accepted(true);
      case EmailComplained =>
        flagged := ComplaintContact(store.rows, target, contactOf);
        resp := Accepted(true);
      case EmailBounced =>
        resp := HandlerFailed;
      case EmailClicked =>
        resp := HandlerFailed;
      case OtherEvent =>
        resp := Accepted(false);
    }
  }
}
