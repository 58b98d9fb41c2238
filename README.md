# acclist escalation lifecycle, modelled in Dafny

acclist is an accountability to-do list. A user's task has escalation policies
("notify this contact N minutes after the due date, at level 1..3"). Once the task
is overdue, a cron run turns each eligible policy into an escalation record.
A second cron run delivers due records by email, which marks them sent, retries
them with exponential back-off, fails them, or cancels them. The email provider's
webhook then enriches each record with delivery, open and complaint events. Around
this lifecycle sit:

- the shame-message generator that writes the email text;
- the receipts dashboard that lists records and counts outcomes;
- the create/list routes for tasks, contacts and escalation policies.

The project models all of this:

| file | module | what it models |
|---|---|---|
| `text.dfy` | `Text` | `trim`, ASCII `toLowerCase`, `includes`, a global `replace` of a plain pattern, and decimal `toString` with its inverse |
| `json.dfy` | `Json` | JSON values in request bodies and the `delivery_receipt` column, with JavaScript truthiness |
| `placeholders.dfy` | `Placeholders` | templates as literal and hole segments, and the `.replace` chains that fill `{name}` and `{{name}}` placeholders |
| `ordering.dfy` | `Ordering` | `filter`, `.order(...)` as a sorted permutation, counting, and ascending keys |
| `entities.dfy` | `Entities` | task, contact, policy and profile rows |
| `api.dfy` | `Api` | the shared `limit`/`offset` parameters, the `.range` window, and the outcome of a create request |
| `cron.dfy` | `Cron` | the bearer-token check of the two cron routes |
| `escalation_state.dfy` | `EscalationState` | the state manager: transition table, retry policy and delays, and the row updates of `createEscalation`, `updateStatus`, `handleFailure`, `cancelEscalation`, `markSent` and `getEscalationStats` on a store class |
| `scheduler.dfy` | `Scheduler` | the schedule cron route: nested loops over overdue tasks and their policies, inserting one record per eligible policy |
| `deliver.dfy` | `Delivery` | the deliver cron route: the due-record query, the per-record cancel/fail/send/retry step, the loop and its summary, and `classifyFailureReason` |
| `webhook.dfy` | `Webhook` | the provider webhook: the tag search that finds the record, and the event handlers |
| `shame.dfy` | `Shame` | the shame-message templates and `generateShameMessage` with its helpers |
| `receipts.dfy` | `Receipts` | the receipts list, the receipt view of a record, and the 30-day statistics |
| `policies.dfy` | `Policies` | creating and listing escalation policies |
| `contacts.dfy` | `Contacts` | creating and listing contacts |
| `tasks.dfy` | `Tasks` | creating and listing tasks |

Modelling choices:

- **Stored data.** Database tables become in-memory values. The escalations table
  is a map from id to row, held by the class `EscalationState.EscalationStore`,
  whose methods update it in place. The policy, contact and task tables are the
  classes `PolicyTable`, `ContactTable` and `TaskTable`, each holding a sequence of
  rows.
- **Route handlers.** Each route handler is a decision function returning either
  the stored row or the refused status and message. Each table class's `Create`
  method is proved to apply exactly that decision.
- **Time.** Instants are integer milliseconds, with one `now` per call. A date
  parse is a function parameter.
- **Providers.** The email provider is a function from the outgoing email to an
  outcome. The insert errors of the database are parameters too.

## Model

Paths are relative to the repository root.

| member | source | states |
|---|---|---|
| Text.Trim | acclist/app/api/tasks/route.js:96 | `trim` leaves no white space at either end and never lengthens the text |
| Text.TrimRemovesOnlySpace | acclist/app/api/tasks/route.js:96 | `trim` removes nothing but white space: the input is white space, the result, then white space |
| Text.TrimNoSpace | acclist/app/api/contacts/route.js:117 | `trim` is the identity on text without white space |
| Text.ToLower | acclist/app/api/contacts/route.js:101 | lowercasing keeps the length and maps each character through the ASCII case map |
| Text.NatToString | acclist/app/api/escalation/deliver/route.js:287 | the record id written into the tag is a non-empty run of decimal digits |
| Text.ParseNat | acclist/app/api/webhooks/resend/route.js:76 | reading back digits yields a number only from non-empty text |
| Text.ParseNatToString | acclist/app/api/escalation/deliver/route.js:287 | rendering a record id in decimal and reading it back gives the id |
| Text.ReplaceFront | acclist/app/api/escalation/schedule/route.js:210 | a global `replace` replaces a match at the front and resumes scanning after it |
| Text.ReplaceSkip | acclist/app/api/escalation/schedule/route.js:210 | text at which no match begins passes through a global `replace` unchanged |
| Placeholders.ReplaceOne | acclist/app/api/escalation/schedule/route.js:210 | one `.replace(/{{key}}/g, val)` on a well-formed template turns exactly the holes named `key` into `val` |
| Placeholders.ReplaceSeqFills | acclist/app/api/escalation/schedule/route.js:209-216 | the whole replace chain equals filling each hole with its variable's first value, for any well-formed template |
| Placeholders.FillLeavesNoPlaceholder | acclist/emails/templates/shame-messages.js:156-165 | when every hole names a variable and no value holds a brace, the filled text holds no brace |
| Placeholders.BraceFreeHasNoToken | acclist/emails/templates/shame-messages.js:160 | brace-free text contains no placeholder token |
| Ordering.Where | acclist/app/api/escalation-policies/route.js:57-59 | `filter` keeps exactly the rows that pass, without inventing any |
| Ordering.SortBy | acclist/app/api/escalation-policies/route.js:35 | `.order(key, ascending)` yields a sorted permutation of the rows |
| Ordering.SortBySameRows | acclist/app/api/escalation-policies/route.js:35 | ordering neither loses nor invents rows |
| Ordering.Count | acclist/app/api/receipts/route.js:220-238 | `filter(p).length` is at most the number of rows |
| Ordering.CountAppend | acclist/app/api/escalation/deliver/route.js:212-216 | counting over two lists adds the counts |
| Ordering.CountAtMostOne | acclist/app/api/escalation-policies/route.js:158-165 | where at most one row can match, `.single()` finds one exactly when some row matches |
| Ordering.AscendingKeys | acclist/app/api/escalation/deliver/route.js:38 | a table's keys in strictly ascending order, each exactly once |
| Api.ParamOr | acclist/app/api/receipts/route.js:24-25 | `parseInt(p) \|\| fallback` gives the parameter when it is a non-zero number and the fallback otherwise |
| Api.Page | acclist/app/api/receipts/route.js:65 | the `.range` window holds as many rows as its clipped bounds allow |
| Api.PagePositions | acclist/app/api/receipts/route.js:65 | a row is on the page exactly when its position lies in `offset .. offset + limit - 1` |
| Api.PageSize | acclist/app/api/tasks/route.js:25 | a page holds at most `limit` rows, exactly `limit` when the window fits, and fewer when it runs past the end |
| Api.HasMoreMeans | acclist/app/api/receipts/route.js:161 | `hasMore` holds exactly when the window fits, so a full last page also reports more |
| Api.PagesTile | acclist/app/api/receipts/route.js:65 | consecutive pages concatenate to the larger page |
| Cron.AuthorizedOnlyBySecret | acclist/app/api/escalation/schedule/route.js:18-23 | without a configured secret no request passes; with one, exactly the header `Bearer <secret>` passes |
| EscalationState.ParseStatus | acclist/lib/escalation-state.js:11-17 | a recognised status name maps back to the same text |
| EscalationState.ParseStatusName | acclist/lib/escalation-state.js:11-17 | every status's name parses back to that status |
| EscalationState.AllowedFrom | acclist/lib/escalation-state.js:319-336 | the statuses allowed from a stored status text are the table's successors of that status |
| EscalationState.UnknownStatusAllowsNothing | acclist/lib/escalation-state.js:336 | an unknown stored status allows no transition |
| EscalationState.AllowedRaisesRank | acclist/lib/escalation-state.js:319-334 | every allowed transition moves strictly forward in the lifecycle |
| EscalationState.TerminalAndIrreflexive | acclist/lib/escalation-state.js:319-334 | `failed` and `cancelled` are terminal, no status may follow itself, and nothing returns to `pending` |
| EscalationState.ChainLength | acclist/lib/escalation-state.js:319-334 | any chain of allowed transitions visits at most four statuses |
| EscalationState.ShouldRetry | acclist/lib/escalation-state.js:359-373 | a retry is allowed only within three retries and for a retryable reason |
| EscalationState.ShouldRetryExactly | acclist/lib/escalation-state.js:359-373 | a non-retryable reason is never retried, and any other reason is retried exactly while the count is at most three |
| EscalationState.Pow | acclist/lib/escalation-state.js:381 | `Math.pow` with a positive base is positive |
| EscalationState.RetryDelay | acclist/lib/escalation-state.js:378-385 | every delay lies between 5 minutes and the 24-hour cap |
| EscalationState.RetryDelayFirstThree | acclist/lib/escalation-state.js:378-385 | the first three retries wait 5, 15 and 45 minutes |
| EscalationState.RetryDelayMonotone | acclist/lib/escalation-state.js:378-385 | later retries never wait less |
| EscalationState.RetryDelayCap | acclist/lib/escalation-state.js:378-385 | the 24-hour cap applies exactly from the seventh retry on |
| EscalationState.NewReceiptContents | acclist/lib/escalation-state.js:102-132 | the written receipt holds the previous status, the update time, the status-specific stamp, and every caller field that is not a stamp, and nothing else |
| EscalationState.UpdateStatusOn | acclist/lib/escalation-state.js:85-166 | an update keeps the record's id |
| EscalationState.UpdateReplacesReceipt | acclist/lib/escalation-state.js:102-110 | an allowed update discards every old receipt field the caller does not resend |
| EscalationState.RejectedUpdateChangesNothing | acclist/lib/escalation-state.js:94-99 | a disallowed transition leaves the record as it was and reports a failure |
| EscalationState.RetryingToRetryingRefused | acclist/lib/escalation-state.js:210-222 | once the retry path has written `retrying`, its own `updateStatus(retrying)` is refused and changes nothing |
| EscalationState.HandleFailureOnRetry | acclist/lib/escalation-state.js:188-230 | a retryable failure sets `retrying` and the back-off time, and reports the new count and delay |
| EscalationState.HandleFailureOnFinal | acclist/lib/escalation-state.js:231-253 | a non-retried failure applies `updateStatus(failed)` with the failure data and reports a final failure |
| EscalationState.RetryMetadataNeverStored | acclist/lib/escalation-state.js:199-222 | on the retry path the receipt is left as it was, so the retry count is never stored |
| EscalationState.RepeatedFailuresRestartCount | acclist/lib/escalation-state.js:188-222 | hence two retryable failures in a row both report retry 1 with a 5-minute delay |
| EscalationState.NonRetryableFailsAtOnce | acclist/lib/escalation-state.js:231-245 | a non-retryable reason fails a pending or retrying record at once, recording the reason and the previous status |
| EscalationState.FinalFailureStoresCount | acclist/lib/escalation-state.js:232-238 | a final failure stores `retries` as the new count, and reading the stored receipt back gives that count |
| EscalationState.ExhaustedRetriesFail | acclist/lib/escalation-state.js:233-239 | once three retries are stored, the next failure is final and flags `max_retries_exceeded` |
| EscalationState.CancelRecordsReason | acclist/lib/escalation-state.js:266-282 | cancelling a non-terminal record stores the reason, the time and the metadata |
| EscalationState.MarkSentOnTerminalRefused | acclist/lib/escalation-state.js:287-299 | `markSent` on a failed or cancelled record is refused and changes nothing |
| EscalationState.MarkSentStamps | acclist/lib/escalation-state.js:287-299 | `markSent` on a pending or retrying record sets `sent`, the send time and the confirmed delivery receipt |
| EscalationState.CountStatus | acclist/lib/escalation-state.js:448-451 | a status count is at most the number of records |
| EscalationState.CountByStatus | acclist/lib/escalation-state.js:448-451 | the `reduce` has a key exactly for each status that occurs, holding its count |
| EscalationState.CountsSumToTotal | acclist/lib/escalation-state.js:448-453 | the five status counts add up to the number of records |
| EscalationState.StatusesSince | acclist/lib/escalation-state.js:437-440 | the stats query returns at most all records |
| EscalationState.GetEscalationStats | acclist/lib/escalation-state.js:423-476 | the total is the number of records since the cutoff; the breakdown has exactly the occurring statuses, each mapped to the number of those records with that status, and sums to the total |
| EscalationState.SingleRowIffAny | acclist/app/api/escalation/schedule/route.js:89-95 | while no policy has two records, the `.single()` existence check finds a record exactly when one exists |
| EscalationState.EscalationStore.constructor | acclist/lib/escalation-state.js:8 | the escalations table starts empty, with every row stored under its own id |
| EscalationState.EscalationStore.Insert | acclist/lib/escalation-state.js:54-67 | an insert adds one `pending` row under a fresh id and changes no other row |
| EscalationState.EscalationStore.CreateEscalation | acclist/lib/escalation-state.js:47-80 | `createEscalation` adds one pending row whose receipt holds the creation time and the metadata |
| EscalationState.EscalationStore.ValidateStatusTransition | acclist/lib/escalation-state.js:304-354 | a missing record is reported; otherwise the current status and whether the table allows the step |
| EscalationState.EscalationStore.UpdateStatus | acclist/lib/escalation-state.js:85-166 | `updateStatus` writes exactly the row of `UpdateStatusOn`, or nothing for a missing record |
| EscalationState.EscalationStore.HandleFailure | acclist/lib/escalation-state.js:171-261 | `handleFailure` performs the two writes of the retry path, or the failed update, and returns the result |
| EscalationState.EscalationStore.CancelEscalation | acclist/lib/escalation-state.js:266-282 | `cancelEscalation` is `updateStatus(cancelled)` with the cancellation data |
| EscalationState.EscalationStore.MarkSent | acclist/lib/escalation-state.js:287-299 | `markSent` is `updateStatus(sent)` with the send data |
| Scheduler.OverdueTasksSelected | acclist/app/api/escalation/schedule/route.js:54-56 | exactly the pending tasks due before now are examined, earliest due first |
| Scheduler.ThresholdIsScheduledTime | acclist/app/api/escalation/schedule/route.js:72-86 | the whole-minute threshold holds exactly when the policy's scheduled time has come |
| Scheduler.ThresholdExample | acclist/app/api/escalation/schedule/route.js:72-83 | a 60-minute policy is not yet due just before T+60 and is due at T+60 |
| Scheduler.OwnerName | acclist/app/api/escalation/schedule/route.js:106-107 | the owner name is never empty and is the full name when one is given |
| Scheduler.OwnerEmailText | acclist/app/api/escalation/schedule/route.js:108 | the owner's email is written as given; without a profile the text is "undefined", and for a profile without an email it is "null", as `replace` writes those values |
| Scheduler.MessageVarsUsable | acclist/app/api/escalation/schedule/route.js:209-216 | the seven placeholder names are distinct and usable |
| Scheduler.GeneratedMessageFills | acclist/app/api/escalation/schedule/route.js:188-217 | for a template whose literal text holds no brace, `generateEscalationMessage` fills each placeholder with its value, and leaves no placeholder when every hole is one of the seven |
| Scheduler.MessageExample | acclist/app/api/escalation/schedule/route.js:199-216 | "Hi {{contactName}}, {{ownerName}} missed {{taskTitle}}" becomes "Hi Sam, Jo missed Report" for those values |
| Scheduler.InsertKeepsOne | acclist/app/api/escalation/schedule/route.js:89-125 | inserting for a policy without a record keeps at most one record per policy |
| Scheduler.InsertPlanned | acclist/app/api/escalation/schedule/route.js:116-125 | the insert adds the policy's planned pending row, with its generated message, under a fresh id, and keeps one record per policy |
| Scheduler.SchedulePolicy | acclist/app/api/escalation/schedule/route.js:75-153 | a skipped policy changes nothing; a scheduled one adds its planned row under a fresh id, and the returned item carries that id, the task, policy, level, contact email, scheduled time and minutes overdue; an error is reported exactly when the policy is eligible, the `.single()` lookup finds no row and the insert fails, and a row is added exactly when the insert succeeds instead |
| Scheduler.InsertFailsWithoutRow | acclist/app/api/escalation/schedule/route.js:75-125 | while no policy has two records, an insert is tried exactly for an eligible policy that has no record |
| Scheduler.ScheduleTask | acclist/app/api/escalation/schedule/route.js:75-154 | the inner loop lists each new row once: the item ids are distinct and are exactly the added keys, and each item reports its row's task, policy, level, contact email, scheduled time and minutes overdue; every new row is planned, keeping one record per policy, covers every eligible policy whose insert succeeds, and its `errors` are the task's failed inserts, in policy order |
| Scheduler.TaskErrorsMembers | acclist/app/api/escalation/schedule/route.js:127-138 | an error names the task and one of its eligible policies whose lookup found no row and whose insert failed, and every such policy has its error |
| Scheduler.ScheduleEscalations | acclist/app/api/escalation/schedule/route.js:12-183 | unauthorized runs change nothing; otherwise every overdue task's eligible policies get a record, `scheduled` lists exactly the new rows, each once, with ids distinct and equal to the added keys and each item reporting its row's task and policy fields, and `errors` lists the failed inserts of the overdue tasks, task by task and policy by policy |
| Scheduler.RunErrorsMembers | acclist/app/api/escalation/schedule/route.js:127-138 | the run's errors are exactly the failed inserts of eligible policies without a row, each naming its task and policy |
| Delivery.DueIds | acclist/app/api/escalation/deliver/route.js:38-72 | exactly the pending records due by now whose joins exist, oldest `scheduled_for` first |
| Delivery.RetryingNeverSelected | acclist/app/api/escalation/deliver/route.js:70 | a `retrying` record is never picked up again |
| Delivery.ClassifyFailureReason | acclist/app/api/escalation/deliver/route.js:307-331 | the classifier never answers "contact not verified" or "task completed" |
| Delivery.ClassifiedRetryable | acclist/app/api/escalation/deliver/route.js:307-331 | a provider error is non-retryable exactly when its message mentions an invalid or bad email |
| Delivery.RateLimitRuleWins | acclist/app/api/escalation/deliver/route.js:307-319 | the rules are tried in order: a rate-limit phrase without an email phrase classifies as rate-limited, whatever else the message holds |
| Delivery.RateLimitExample | acclist/app/api/escalation/deliver/route.js:314-319 | "Rate limit exceeded" is classified as rate-limited although it also contains "limit exceeded" |
| Delivery.DeliveryTags | acclist/app/api/escalation/deliver/route.js:283-289 | the email carries the five tags, `escalation_id` holding the record id in decimal |
| Delivery.Step | acclist/app/api/escalation/deliver/route.js:90-206 | one iteration keeps the record's id and policy |
| Delivery.CompletedTaskCancels | acclist/app/api/escalation/deliver/route.js:98-111 | a completed task cancels the record with reason `task_completed`, whatever the provider would answer |
| Delivery.UnverifiedContactFails | acclist/app/api/escalation/deliver/route.js:114-126 | an unverified contact fails the record at once, without consulting the provider |
| Delivery.DeliveredMarksSent | acclist/app/api/escalation/deliver/route.js:137-157 | a successful send marks the record sent now and stores the provider's data and message id |
| Delivery.RejectedFollowsRetryPolicy | acclist/app/api/escalation/deliver/route.js:158-187 | a provider error is retried with back-off or failed finally, as the retry policy says for the classified reason |
| Delivery.Run | acclist/app/api/escalation/deliver/route.js:90-206 | the loop adds and removes no record and touches only the visited ones |
| Delivery.RunSnoc | acclist/app/api/escalation/deliver/route.js:90-206 | visiting one more record runs one more step on its current row |
| Delivery.StepTally | acclist/app/api/escalation/deliver/route.js:90-206 | each step yields one result or one non-final error, and a final error only with a final-failure result |
| Delivery.ResultKinds | acclist/app/api/escalation/deliver/route.js:212-216 | every result is sent, cancelled, retrying or finally failed |
| Delivery.RunTally | acclist/app/api/escalation/deliver/route.js:90-206 | over a run, the results and non-final errors account for every visited record |
| Delivery.SummaryAddsUp | acclist/app/api/escalation/deliver/route.js:208-221 | delivered, cancelled, retrying and failed, plus non-final errors, add up to the records processed |
| Delivery.DeliverOne | acclist/app/api/escalation/deliver/route.js:91-205 | the loop body through the state manager does exactly what `Step` says |
| Delivery.DeliverAll | acclist/app/api/escalation/deliver/route.js:90-206 | the loop leaves the store and the two lists exactly as `Run` says |
| Delivery.Deliver | acclist/app/api/escalation/deliver/route.js:20-229 | unauthorized runs change nothing; otherwise the due records are run in order and summarised |
| Webhook.With | acclist/app/api/webhooks/resend/route.js:87-94 | storing a field sets it when defined, drops it when `undefined`, and leaves the other fields alone |
| Webhook.TagSearchFindsFirst | acclist/app/api/webhooks/resend/route.js:320-330 | the search returns the value of the first `escalation_id` tag with a truthy value |
| Webhook.TagSearchNone | acclist/app/api/webhooks/resend/route.js:320-330 | no id is found exactly when every tag is passed over |
| Webhook.TagSearchFoundIsIdTag | acclist/app/api/webhooks/resend/route.js:320-330 | a found id is the truthy value of some `escalation_id` tag |
| Webhook.FindEscalationIdFromTags | acclist/app/api/webhooks/resend/route.js:320-330 | the loop computes the search's definition, with no id for missing or non-array tags |
| Webhook.TagsValue | acclist/app/api/escalation/deliver/route.js:283-289 | tags come back as `{name, value}` objects in order |
| Webhook.CorrelationRoundTrip | acclist/app/api/webhooks/resend/route.js:72-76 | the tags the worker sends lead the webhook back to the same record |
| Webhook.ReceiptData | acclist/app/api/webhooks/resend/route.js:87-94 | the receipt data holds the event type, the time and the raw data |
| Webhook.ReceiptDataContents | acclist/app/api/webhooks/resend/route.js:87-94 | the receipt data holds no other key than the six it names |
| Webhook.DeliveredReceipt | acclist/app/api/webhooks/resend/route.js:175-184 | the delivered receipt is the event data plus the confirmation flag and the time |
| Webhook.DeliveredReplacesReceipt | acclist/app/api/webhooks/resend/route.js:171-187 | `email.delivered` keeps nothing of the old receipt |
| Webhook.OpenedKeepsOnlyEngagement | acclist/app/api/webhooks/resend/route.js:246-261 | `email.opened` leaves only the open time and the engagement flag |
| Webhook.SentEventMarksSent | acclist/app/api/webhooks/resend/route.js:144-166 | `email.sent` marks a pending or retrying record sent with the event as its receipt, and leaves other records' statuses alone |
| Webhook.Rewrite | acclist/app/api/webhooks/resend/route.js:177-181 | an update by id adds and removes no record |
| Webhook.Dispatch | acclist/app/api/webhooks/resend/route.js:96-139 | the event switch changes at most the named record, and flags a contact only for a complaint |
| Webhook.Process | acclist/app/api/webhooks/resend/route.js:17-139 | a webhook call adds and removes no record |
| Webhook.InvalidPayloadRefused | acclist/app/api/webhooks/resend/route.js:37-42 | a payload without a truthy type and data gets 400 and changes nothing |
| Webhook.OnlyTargetChanges | acclist/app/api/webhooks/resend/route.js:72-139 | whatever the event, at most the named record changes, and only a complaint flags a contact |
| Webhook.UnprocessedChangesNothing | acclist/app/api/webhooks/resend/route.js:78-128 | an email without an escalation tag, or an unhandled event type, is accepted as not processed and changes nothing |
| Webhook.BounceAndClickFail | acclist/app/api/webhooks/resend/route.js:192-282 | bounce and click events end in a 500 and change nothing, because their handlers read an undeclared `data` |
| Webhook.HandleResendWebhook | acclist/app/api/webhooks/resend/route.js:17-67 | the route answers and updates the store exactly as `Process` says |
| Webhook.ApplyEvent | acclist/app/api/webhooks/resend/route.js:96-282 | the handlers update the store exactly as `Dispatch` says |
| Shame.TemplatesFor | acclist/emails/templates/shame-messages.js:8-86 | each level has 3 subjects and openings and 4 shame messages and calls to action, whose placeholders are only task title, owner name, contact name, due date and hours overdue |
| Shame.Clamp | acclist/emails/templates/shame-messages.js:103 | the level is clamped into 1..3, and a level in range is kept |
| Shame.SelectVariant | acclist/emails/templates/shame-messages.js:146-151 | the chosen entry is always one of the variants |
| Shame.SelectVariantIndex | acclist/emails/templates/shame-messages.js:146-151 | a requested index in range wins, and one out of range leaves the choice to the random roll |
| Shame.MinutesDroppedAfterADay | acclist/emails/templates/shame-messages.js:180-187 | from one day on, the text does not depend on the leftover minutes |
| Shame.OverdueTextExactBelowADay | acclist/emails/templates/shame-messages.js:170-179 | below one day, two different overdue times never read the same |
| Shame.OverdueTextExactFromADay | acclist/emails/templates/shame-messages.js:180-187 | from one day on, two overdue times read the same exactly when they have the same whole hours |
| Shame.MinutesExample | acclist/emails/templates/shame-messages.js:170-171 | 45 minutes read "45 minutes" |
| Shame.HoursAndMinutesExample | acclist/emails/templates/shame-messages.js:172-179 | 125 minutes read "2 hours and 5 minutes" |
| Shame.WholeHoursExample | acclist/emails/templates/shame-messages.js:172-179 | 120 minutes read "2 hours" |
| Shame.DaysAndHoursExample | acclist/emails/templates/shame-messages.js:180-187 | 1500 minutes read "1 days and 1 hours" |
| Shame.WholeDaysExample | acclist/emails/templates/shame-messages.js:180-187 | 2880 minutes read "2 days" |
| Shame.ShameAdjectives | acclist/emails/templates/shame-messages.js:205-217 | every level yields four adjectives |
| Shame.EscalationEmojis | acclist/emails/templates/shame-messages.js:222-229 | every level yields four or five emojis |
| Shame.UnknownLevelFallsBack | acclist/emails/templates/shame-messages.js:216 | an unknown level gets the level-1 adjectives and emojis |
| Shame.Values | acclist/emails/templates/shame-messages.js:161 | a missing value is replaced by the empty string, and the keys keep their order |
| Shame.ReplaceVariables | acclist/emails/templates/shame-messages.js:156-165 | the loop computes the chain of global replaces of `{key}` by each value in turn |
| Shame.Variables | acclist/emails/templates/shame-messages.js:117-131 | the variables object has eight entries |
| Shame.VariableKeys | acclist/emails/templates/shame-messages.js:117-131 | its keys are exactly the eight placeholder names the templates may use |
| Shame.Chosen | acclist/emails/templates/shame-messages.js:111-114 | the four chosen templates come from the level's four lists |
| Shame.VariantThree | acclist/emails/templates/shame-messages.js:111-114 | variant 3 fixes the shame message and call to action, but leaves the subject and opening to the roll |
| Shame.ChosenHoles | acclist/emails/templates/shame-messages.js:8-86 | a chosen template uses only the variable names |
| Shame.ChosenFilled | acclist/emails/templates/shame-messages.js:133-137 | for a chosen template whose literal text holds no brace, each generated part is that template with every placeholder filled, and holds no brace when the values hold none |
| Shame.IntensityLabel | acclist/emails/templates/shame-messages.js:193-200 | the label is "unknown" exactly for a level outside 1..3 |
| Shame.GenerateShameMessage | acclist/emails/templates/shame-messages.js:91-141 | the reported level is the clamped one, so the intensity is never "unknown"; the subject, opening, shame message and call to action are the four chosen templates of that level, each filled from the input |
| Receipts.OrElse | acclist/app/api/receipts/route.js:138 | `o.k \|\| fallback` gives the field when it is truthy and the fallback otherwise |
| Receipts.ReceiptFields | acclist/app/api/receipts/route.js:93-149 | a receipt copies id, status and times; `deliveryConfirmed` defaults to false, `retries` to 0, and `bounced`/`complained` test the webhook type |
| Receipts.ListedPage | acclist/app/api/receipts/route.js:63-76 | every listed row is the caller's and passes the filters, newest first |
| Receipts.Recent | acclist/app/api/receipts/route.js:193-204 | the counted rows are exactly the caller's rows of the last 30 days, of the named task if any |
| Receipts.StatusesOf | acclist/app/api/receipts/route.js:215-218 | the statuses of the counted rows, in order |
| Receipts.StatsConsistent | acclist/app/api/receipts/route.js:214-238 | the breakdown sums to the total, and every other count is at most the total |
| Receipts.Views | acclist/app/api/receipts/route.js:87-151 | the list maps each row to its receipt view |
| Receipts.StatsAgreeWithViews | acclist/app/api/receipts/route.js:220-226 | the delivered and bounced counts equal the counts of receipt views that say so |
| Receipts.GetReceiptsStats | acclist/app/api/receipts/route.js:177-238 | the `reduce` and the filters compute the statistics of the recent rows |
| Receipts.GetReceipts | acclist/app/api/receipts/route.js:13-172 | 401 without a user; otherwise the page, its window, `hasMore` and the summary |
| Receipts.OnlyOwnReceipts | acclist/app/api/receipts/route.js:63 | every listed receipt is the view of one of the caller's records |
| Policies.CheckFields | acclist/app/api/escalation-policies/route.js:85-115 | a request passing the field checks has a level in 1..3 and at least one minute |
| Policies.CheckFieldsExactly | acclist/app/api/escalation-policies/route.js:85-115 | the field checks pass exactly when the five fields are truthy, the level is an integer in 1..3 and the minutes a positive integer |
| Policies.ZeroMinutesRefused | acclist/app/api/escalation-policies/route.js:85-99 | `minutes_after_due` 0 is refused as a missing field |
| Policies.DecideCreate | acclist/app/api/escalation-policies/route.js:72-222 | a created policy has the new id, a level in 1..3 and at least one minute |
| Policies.CreateAcceptsExactly | acclist/app/api/escalation-policies/route.js:117-214 | past the field checks, a policy is created exactly when the task and contact are the caller's, the contact is verified, the level is free, the template is text and the insert succeeds; the template is stored trimmed |
| Policies.CreateKeepsOnePerLevel | acclist/app/api/escalation-policies/route.js:157-172 | the 409 check keeps at most one policy per task and level |
| Policies.PolicyTable.constructor | acclist/app/api/escalation-policies/route.js:175-178 | the table holds the given rows |
| Policies.PolicyTable.Create | acclist/app/api/escalation-policies/route.js:72-222 | the route appends exactly the decided row and keeps one policy per task and level |
| Policies.ListPolicies | acclist/app/api/escalation-policies/route.js:35-59 | exactly the caller's policies, of the named task if any, by level ascending |
| Policies.GetPolicies | acclist/app/api/escalation-policies/route.js:6-69 | 401 without a user, the caller's policy list otherwise |
| Contacts.EmailPatternMeans | acclist/app/api/contacts/route.js:70 | the pattern holds exactly when there is no white space, one "@" with text before it, and a "." after it with text on both sides |
| Contacts.StoredEmailIsLowered | acclist/app/api/contacts/route.js:117 | for an address that passed the pattern, the trim after lowercasing changes nothing |
| Contacts.CheckFields | acclist/app/api/contacts/route.js:62-94 | a request passing the checks has an address matching the pattern and a listed relationship |
| Contacts.DecideCreate | acclist/app/api/contacts/route.js:50-167 | a created contact is unverified and has the new id and the caller as owner |
| Contacts.CreateAcceptsExactly | acclist/app/api/contacts/route.js:96-122 | past the field checks, a contact is created exactly when the caller has no contact with the lowercased address, the name is text and the insert succeeds; the row holds the trimmed name and lowercased address |
| Contacts.AppendNewAddress | acclist/app/api/contacts/route.js:97-109 | appending a row whose address the caller does not have once keeps addresses unique per user |
| Contacts.CreateKeepsOnePerAddress | acclist/app/api/contacts/route.js:97-122 | the 409 check keeps at most one contact per user and address |
| Contacts.ContactTable.constructor | acclist/app/api/contacts/route.js:112-115 | the table holds the given rows |
| Contacts.ContactTable.Create | acclist/app/api/contacts/route.js:50-167 | the route appends exactly the decided row and keeps addresses unique |
| Contacts.ListContacts | acclist/app/api/contacts/route.js:18-27 | exactly the caller's contacts, of the requested verification when the parameter is present |
| Contacts.OnlyTrueMeansVerified | acclist/app/api/contacts/route.js:25-27 | any value but "true" lists the unverified contacts |
| Tasks.CheckFields | acclist/app/api/tasks/route.js:68-90 | a request passing the checks has one of the three priorities, and a refusal is a 400 |
| Tasks.StoredDescription | acclist/app/api/tasks/route.js:97 | a description is stored trimmed when it has text, as null when absent, null or blank, and any other value throws |
| Tasks.DecideCreate | acclist/app/api/tasks/route.js:56-121 | a created task is the caller's, pending, with the new id and one of the three priorities |
| Tasks.CreateAcceptsExactly | acclist/app/api/tasks/route.js:60-113 | a task is created exactly when title and due date are truthy, the priority is valid, the date parses, the title is text, the description is absent, null or text, and the insert succeeds; the row holds the trimmed title, parsed date, priority and stored description |
| Tasks.PriorityDefault | acclist/app/api/tasks/route.js:65-81 | a missing priority becomes "medium", but a `null` priority is refused |
| Tasks.TaskTable.constructor | acclist/app/api/tasks/route.js:92-94 | the table holds the given rows |
| Tasks.TaskTable.Create | acclist/app/api/tasks/route.js:92-113 | the route appends exactly the decided row and keeps every stored priority valid and no description empty |
| Tasks.Listed | acclist/app/api/tasks/route.js:20-33 | exactly the caller's tasks that pass the status and priority filters, by due date ascending |
| Tasks.ListTasks | acclist/app/api/tasks/route.js:20-35 | every task on the page is the caller's and passes the filters, by due date ascending |
| Tasks.FirstPageHoldsAll | acclist/app/api/tasks/route.js:25 | a first page at least as large as the table holds every matching task |
| Tasks.GetTasks | acclist/app/api/tasks/route.js:6-53 | 401 without a user; otherwise at most `limit` tasks, all the caller's |

## Left out

- Database and transport. Supabase queries become in-memory tables. The database's errors on reads (the 500 answers of the read queries) are not modelled. Insert errors are parameters. Update errors are not modelled: `updateStatus` in acclist/lib/escalation-state.js:141-147 and the webhook's updates always succeed in the model. The nested selects returned with a created row are not modelled.
- Request parsing. A body that is not JSON (`request.json()` throwing) is not modelled. Query parameters arrive as the number `parseInt` gives, or none; the parsing of their text is not modelled.
- Dates. Instants are integer milliseconds. `new Date(...)`, `toISOString` and `toLocaleDateString` are opaque: a date parse is a parameter, and the formatted due date is an uninterpreted string.
- Floating point. The success, delivery, open, click and retry rates are not modelled.
- Logging. `console` output, `trackStateTransition` and `recordDeliveryReceipt` only log and are not modelled.
- Concurrency. Overlapping cron runs are not modelled; each run is sequential with one `now`.
- The email itself. Its subject and HTML body, and the contact verification email's token and URL, are not modelled. The provider is a function from recipient and tags to an outcome.
- `getEscalationReceipt` in acclist/app/api/receipts/route.js:293-344 is a lookup of one joined row by id; it is not part of this model.
- The webhook signature check is a no-op in the source and is not modelled.
- The complaint handler's write to the contacts table is modelled as the id of the flagged contact.
- Ordering ties. The database's order among rows with equal sort keys is not modelled: the model's sorts are some sorted permutation.
- Contacts.ListContacts: the `created_at` descending order of the contact list is not modelled, because contact rows carry no creation time here.
- Lowercasing covers ASCII letters only. Trimming treats the usual white-space characters; Unicode case mapping is not modelled.
- Replacement patterns. Values passed to `replace` are taken literally; JavaScript's `$&`-style patterns in substituted values are not modelled.
- Shame.ChosenFilled: its `WellFormed` premise (no brace in any literal text, non-empty brace-free hole names) is not proved for the shipped lists `Level1`, `Level2` and `Level3`; it holds by reading them. Settling long string literals one character at a time is beyond the verifier's resource limit, so for the shipped templates "every placeholder is filled" rests on that reading.
- Scheduler.GeneratedMessageFills: likewise, `WellFormed` of the three `DefaultTemplate` texts is not proved and holds by reading them; the lemma is proved for every template that meets it, and for `ExampleTemplate` it is.
- Contacts.CheckFields: an `email` that is not text is refused as an invalid format. The source would coerce some such values to text in the pattern test and then fail with a 500.
- Policies.DecideCreate: a `task_id` or `contact_id` that is not text matches no row (404). The database might coerce it.
- EscalationState.RetriesOf: a stored `retries` that is text or negative is read as 0, and fractional ones cannot be stored because JSON numbers are modelled as integers. In the source, text such as "2" gives the count "21", so `shouldRetry` refuses and the failure is final; a negative number retries with that count plus one (a count of 0 and a delay of 5/3 minutes for -1); a fraction retries with a fractional count. This affects both uses: the retry decision in `handleFailure` and the receipts `retried` count. The only modelled write of `retries` is the final failure's, which stores a positive whole count that `RetriesOf` reads back as written (`EscalationState.FinalFailureStoresCount`); text, negative or fractional values can come only from writers outside the model.
- Negative `limit` or `offset`. The `.range` window is clipped to the result; what the database does with a negative range is not modelled.
- The deliver worker's `completed_at` is not selected by its query, so the cancellation metadata is empty.
- Record ids. Escalation ids are natural numbers handed out by the store, and the `escalation_id` tag holds their decimal text. The source writes the database's id into the tag as it is; other ids (tasks, policies, contacts, users) stay text.
- Webhook.TagsValue: the provider is assumed to report the sent tags back as `{name, value}` text pairs, in the order they were sent.
- Contacts.ContactTable.Create: the verification email sent after the insert is left out; its failure is only logged, so neither the response nor the table depends on it.
- The TypeError messages modelled (missing provider error message, missing profile) use V8's wording.
- Delivered provider data is assumed to be an object; `sent_at` values other than numbers are not modelled.
- The webhook's writes do not touch `updated_at`.
- The scheduler's catch around a task, which no modelled step can reach, is not modelled.
