/** The escalation scheduler (acclist/app/api/escalation/schedule/route.js): a cron
    call that walks the overdue pending tasks and, for every escalation policy whose
    contact is verified and whose delay has passed, inserts one `pending` escalation
    with the rendered message, unless the policy already has its escalation row. */
module Scheduler {
  import opened Text
  import opened Json
  import opened Placeholders
  import opened Ordering
  import opened Entities
  import opened EscalationState
  import opened Cron

  /** A policy as the task query joins it: with its contact, if the contact still exists. */
  datatype PolicyView = PolicyView(policy: Policy, contact: Option<Contact>)

  /** A task with its policies and its owner's profile. */
  datatype TaskView = TaskView(task: Task, policies: seq<PolicyView>, owner: Option<Profile>)

  datatype ScheduledItem = ScheduledItem(
    id: nat, taskId: string, policyId: string, level: int,
    contactEmail: string, scheduledFor: int, minutesOverdue: int)

  datatype ScheduleError = InsertError(taskId: string, policyId: string)

  datatype ScheduleResponse =
    | Unauthorized
    | Scheduled(overdueTasksChecked: nat, scheduled: seq<ScheduledItem>, errors: seq<ScheduleError>)

  predicate IsOverdue(t: TaskView, now: int) {
    t.task.status == "pending" && t.task.dueAt < now
  }

  function DueKey(t: TaskView): int {
    t.task.dueAt
  }

  /** The task query: pending tasks due before `now`, earliest due date first. */
  function OverdueTasks(tasks: seq<TaskView>, now: int): seq<TaskView> {
    SortBy(Where(tasks, (t: TaskView) => IsOverdue(t, now)), DueKey)
  }

  lemma OverdueTasksSelected(tasks: seq<TaskView>, now: int, t: TaskView)
    ensures SortedBy(OverdueTasks(tasks, now), DueKey)
    ensures t in OverdueTasks(tasks, now) <==> t in tasks && IsOverdue(t, now)
  {
    SortBySameRows(Where(tasks, (t: TaskView) => IsOverdue(t, now)), DueKey, t);
  }

  /** Whole minutes since the due date, rounded down. */
  function MinutesOverdue(t: TaskView, now: int): int {
    (now - t.task.dueAt) / 60000
  }

  predicate Eligible(t: TaskView, pv: PolicyView, now: int) {
    pv.contact.Some? && pv.contact.value.verified
    && MinutesOverdue(t, now) >= pv.policy.minutesAfterDue
  }

  function ScheduledFor(t: TaskView, pv: PolicyView): int {
    t.task.dueAt + MinutesToMs(pv.policy.minutesAfterDue)
  }

  /** The whole-minute threshold is the same as the scheduled time having come. */
  lemma ThresholdIsScheduledTime(t: TaskView, pv: PolicyView, now: int)
    ensures MinutesOverdue(t, now) >= pv.policy.minutesAfterDue <==> ScheduledFor(t, pv) <= now
  {
    var d := now - t.task.dueAt;
    assert d == 60000 * (d / 60000) + d % 60000;
  }

  /** With a 60-minute policy, 59 minutes and 59.999 seconds after the due time is too
      early; 60 minutes after it is not. */
  lemma ThresholdExample(t: TaskView, pv: PolicyView)
    requires pv.policy.minutesAfterDue == 60
    ensures MinutesOverdue(t, t.task.dueAt + MinutesToMs(59) + 59999) < pv.policy.minutesAfterDue
    ensures MinutesOverdue(t, t.task.dueAt + MinutesToMs(60)) >= pv.policy.minutesAfterDue
  {
    ThresholdIsScheduledTime(t, pv, t.task.dueAt + MinutesToMs(59) + 59999);
    ThresholdIsScheduledTime(t, pv, t.task.dueAt + MinutesToMs(60));
  }

  // ------------------------------------------------------- message content

  /** `full_name || email || "User"`. */
  function OwnerName(owner: Option<Profile>): (r: string)
    ensures r != ""
    ensures owner.Some? && Given(owner.value.fullName) ==> r == owner.value.fullName.value
  {
    if owner.Some? && Given(owner.value.fullName) then owner.value.fullName.value
    else if owner.Some? && Given(owner.value.email) then owner.value.email.value
    else "User"
  }

  /** The owner's email as `replace` receives it: `profiles?.email` is `undefined` without
      a profile and `null` for a profile without an email, and `replace` writes either
      value's name into the text. */
  function OwnerEmailText(owner: Option<Profile>): (r: string)
    ensures owner.Some? && owner.value.email.Some? ==> r == owner.value.email.value
    ensures owner.None? ==> r == "undefined"
    ensures owner.Some? && owner.value.email.None? ==> r == "null"
  {
    if owner.None? then "undefined"
    else if owner.value.email.None? then "null"
    else owner.value.email.value
  }

  /** The default template of a level; any level without one uses level 1's. */
  function DefaultTemplate(level: int): seq<Segment> {
    if level == 2 then
      [Hole("contactName"), Lit(", this is the second escalation! "), Hole("ownerName"),
       Lit(" still hasn't completed \""), Hole("taskTitle"), Lit("\" ("), Hole("minutesOverdue"),
       Lit(" minutes overdue). Time for stronger encouragement!")]
    else if level == 3 then
      [Lit("FINAL ESCALATION: "), Hole("contactName"), Lit(", "), Hole("ownerName"),
       Lit(" has officially failed their commitment to complete \""), Hole("taskTitle"),
       Lit("\". Maximum shame mode activated! "), Hole("minutesOverdue"), Lit(" minutes overdue.")]
    else
      [Lit("Hi "), Hole("contactName"), Lit(", "), Hole("ownerName"),
       Lit(" missed their deadline for \""), Hole("taskTitle"), Lit("\" which was due "),
       Hole("dueDate"), Lit(". They've been overdue for "), Hole("minutesOverdue"),
       Lit(" minutes. As their accountability contact, please check in with them!")]
  }

  /** `template || defaultTemplates[level] || defaultTemplates[1]`. */
  function ChooseTemplate(template: string, level: int): string {
    if template != "" then template else Render(Double, DefaultTemplate(level))
  }

  /** The seven placeholders, in the order the `replace` chain visits them. */
  function MessageVars(contactName: string, ownerName: string, ownerEmail: string, taskTitle: string,
                       level: int, dueLabel: string, minutesOverdue: int): seq<(string, string)>
  {
    [("contactName", contactName), ("ownerName", ownerName), ("ownerEmail", ownerEmail),
     ("taskTitle", taskTitle), ("escalationLevel", IntToString(level)), ("dueDate", dueLabel),
     ("minutesOverdue", IntToString(minutesOverdue))]
  }

  /** `generateEscalationMessage`; `dueLabel` is the due date as `toLocaleDateString` renders it. */
  function GenerateEscalationMessage(template: string, taskTitle: string, ownerName: string, ownerEmail: string,
                                     contactName: string, level: int, dueLabel: string, minutesOverdue: int): string
  {
    ReplaceSeq(Double, ChooseTemplate(template, level),
      MessageVars(contactName, ownerName, ownerEmail, taskTitle, level, dueLabel, minutesOverdue))
  }

  lemma {:induction false} NatDigitsBraceFree(n: nat)
    ensures BraceFree(NatToString(n))
  {
  }

  lemma IntBraceFree(n: int)
    ensures BraceFree(IntToString(n))
  {
    NatDigitsBraceFree(if n < 0 then -n else n);
  }

  /** The seven variable names are usable placeholder names. */
  lemma MessageVarsUsable(contactName: string, ownerName: string, ownerEmail: string, taskTitle: string,
                          level: int, dueLabel: string, minutesOverdue: int)
    requires BraceFree(taskTitle) && BraceFree(ownerName) && BraceFree(ownerEmail)
    requires BraceFree(contactName) && BraceFree(dueLabel)
    ensures KeysUsable(MessageVars(contactName, ownerName, ownerEmail, taskTitle, level, dueLabel, minutesOverdue))
  {
    IntBraceFree(level);
    IntBraceFree(minutesOverdue);
    var vars := MessageVars(contactName, ownerName, ownerEmail, taskTitle, level, dueLabel, minutesOverdue);
    forall j | 0 <= j < |vars| ensures |vars[j].0| > 0 && BraceFree(vars[j].0) && BraceFree(vars[j].1) {
      if j == 0 { assert BraceFree("contactName"); }
      else if j == 1 { assert BraceFree("ownerName"); }
      else if j == 2 { assert BraceFree("ownerEmail"); }
      else if j == 3 { assert BraceFree("taskTitle"); }
      else if j == 4 { assert BraceFree("escalationLevel"); }
      else if j == 5 { assert BraceFree("dueDate"); }
      else { assert BraceFree("minutesOverdue"); }
    }
  }

  /** For any well-formed template, the generated message is the template with every
      placeholder named after one of the seven variables filled in; when the template
      uses no other placeholders, no `{{…}}` is left over. */
  lemma GeneratedMessageFills(segs: seq<Segment>, taskTitle: string, ownerName: string, ownerEmail: string,
                              contactName: string, level: int, dueLabel: string, minutesOverdue: int)
    requires WellFormed(segs) && Render(Double, segs) != ""
    requires BraceFree(taskTitle) && BraceFree(ownerName) && BraceFree(ownerEmail)
    requires BraceFree(contactName) && BraceFree(dueLabel)
    ensures
      GenerateEscalationMessage(Render(Double, segs), taskTitle, ownerName, ownerEmail,
                                contactName, level, dueLabel, minutesOverdue)
      == Fill(Double, segs, MessageVars(contactName, ownerName, ownerEmail, taskTitle, level, dueLabel, minutesOverdue))
    ensures HoleNames(segs) <= Keys(MessageVars(contactName, ownerName, ownerEmail, taskTitle, level, dueLabel, minutesOverdue))
            ==> BraceFree(GenerateEscalationMessage(Render(Double, segs), taskTitle, ownerName, ownerEmail,
                                                    contactName, level, dueLabel, minutesOverdue))
  {
    var vars := MessageVars(contactName, ownerName, ownerEmail, taskTitle, level, dueLabel, minutesOverdue);
    MessageVarsUsable(contactName, ownerName, ownerEmail, taskTitle, level, dueLabel, minutesOverdue);
    ReplaceSeqFills(Double, segs, vars);
    if HoleNames(segs) <= Keys(vars) {
      FillLeavesNoPlaceholder(Double, segs, vars);
    }
  }

  const ExampleTemplate: seq<Segment> :=
    [Lit("Hi "), Hole("contactName"), Lit(", "), Hole("ownerName"), Lit(" missed "), Hole("taskTitle")]

  lemma ExampleTemplateShape()
    ensures WellFormed(ExampleTemplate)
  {
    var segs := ExampleTemplate;
    forall j | 0 <= j < |segs|
      ensures match segs[j] case Lit(t) => BraceFree(t) case Hole(n) => |n| > 0 && BraceFree(n)
    {
      if j == 0 { assert BraceFree("Hi "); }
      else if j == 1 { assert BraceFree("contactName"); }
      else if j == 2 { assert BraceFree(", "); }
      else if j == 3 { assert BraceFree("ownerName"); }
      else if j == 4 { assert BraceFree(" missed "); }
      else { assert BraceFree("taskTitle"); }
    }
  }

  lemma ExampleTemplateNonEmpty()
    ensures Render(Double, ExampleTemplate) != ""
  {
    assert |Render(Double, ExampleTemplate)| >= |Piece(Double, ExampleTemplate[0])| == 3;
  }

  /** The names the example template uses find their own values. */
  lemma LookupExampleNames(contactName: string, ownerName: string, ownerEmail: string, taskTitle: string,
                           level: int, dueLabel: string, minutesOverdue: int)
    ensures var vars := MessageVars(contactName, ownerName, ownerEmail, taskTitle, level, dueLabel, minutesOverdue);
      Lookup(vars, "contactName") == Some(contactName)
      && Lookup(vars, "ownerName") == Some(ownerName)
      && Lookup(vars, "taskTitle") == Some(taskTitle)
  {
    var vars := MessageVars(contactName, ownerName, ownerEmail, taskTitle, level, dueLabel, minutesOverdue);
    assert |"contactName"| != |"ownerName"| && |"contactName"| != |"taskTitle"|;
    assert |"ownerEmail"| != |"taskTitle"| && "ownerName"[0] != "taskTitle"[0];
    assert vars[1..][1..][1..][0].0 == "taskTitle";
    assert Lookup(vars[1..][1..][1..], "taskTitle") == Some(taskTitle);
    assert Lookup(vars[1..][1..], "taskTitle") == Some(taskTitle);
    assert Lookup(vars[1..], "ownerName") == Some(ownerName);
  }

  /** "Hi {{contactName}}, {{ownerName}} missed {{taskTitle}}" fills in the three names. */
  lemma MessageExample(contactName: string, ownerName: string, ownerEmail: string, taskTitle: string,
                       level: int, dueLabel: string, minutes: int)
    requires BraceFree(contactName) && BraceFree(ownerName) && BraceFree(ownerEmail)
    requires BraceFree(taskTitle) && BraceFree(dueLabel)
    ensures GenerateEscalationMessage(Render(Double, ExampleTemplate), taskTitle, ownerName, ownerEmail,
                                      contactName, level, dueLabel, minutes)
            == "Hi " + contactName + ", " + ownerName + " missed " + taskTitle
  {
    ExampleTemplateShape();
    ExampleTemplateNonEmpty();
    GeneratedMessageFills(ExampleTemplate, taskTitle, ownerName, ownerEmail, contactName, level, dueLabel, minutes);
    LookupExampleNames(contactName, ownerName, ownerEmail, taskTitle, level, dueLabel, minutes);
    ExampleFill(MessageVars(contactName, ownerName, ownerEmail, taskTitle, level, dueLabel, minutes),
                contactName, ownerName, taskTitle);
  }

  lemma ExampleFill(vars: seq<(string, string)>, c: string, o: string, t: string)
    requires Lookup(vars, "contactName") == Some(c)
    requires Lookup(vars, "ownerName") == Some(o)
    requires Lookup(vars, "taskTitle") == Some(t)
    ensures Fill(Double, ExampleTemplate, vars) == "Hi " + c + ", " + o + " missed " + t
  {
    var s5: seq<Segment> := [Hole("taskTitle")];
    var s4 := [Lit(" missed ")] + s5;
    var s3 := [Hole("ownerName")] + s4;
    var s2 := [Lit(", ")] + s3;
    var s1 := [Hole("contactName")] + s2;
    assert ExampleTemplate == [Lit("Hi ")] + s1;
    FillHole(Double, "taskTitle", t, [], vars);
    assert s5 == s5 + [];
    FillLit(Double, " missed ", s5, vars);
    FillHole(Double, "ownerName", o, s4, vars);
    FillLit(Double, ", ", s3, vars);
    FillHole(Double, "contactName", c, s2, vars);
    FillLit(Double, "Hi ", s1, vars);
  }

  // ---------------------------------------------------------- the run itself

  function MessageFor(t: TaskView, pv: PolicyView, now: int, dateLabel: int -> string): string {
    GenerateEscalationMessage(pv.policy.messageTemplate, t.task.title, OwnerName(t.owner),
      OwnerEmailText(t.owner), if pv.contact.Some? then pv.contact.value.name else "",
      pv.policy.level, dateLabel(t.task.dueAt), MinutesOverdue(t, now))
  }

  /** The row inserted for policy `pv` of task `t`. */
  function PlannedRow(id: nat, t: TaskView, pv: PolicyView, now: int, dateLabel: int -> string): Escalation {
    Escalation(id, pv.policy.id, Pending, ScheduledFor(t, pv), MessageFor(t, pv, now, dateLabel), None, map[], now, now)
  }

  /** The response item for the row stored under `id` for policy `pv` of task `t`. */
  function ItemFor(id: nat, t: TaskView, pv: PolicyView, now: int): ScheduledItem
    requires pv.contact.Some?
  {
    ScheduledItem(id, t.task.id, pv.policy.id, pv.policy.level, pv.contact.value.email,
                  ScheduledFor(t, pv), MinutesOverdue(t, now))
  }

  /** `item` reports `row`: both were made, under the item's id, for the same eligible
      policy of one of `ts`. */
  predicate Reports(item: ScheduledItem, row: Escalation, ts: seq<TaskView>, now: int, dateLabel: int -> string) {
    exists t, pv | t in ts && pv in t.policies ::
      Eligible(t, pv, now) && item == ItemFor(item.id, t, pv, now) && row == PlannedRow(item.id, t, pv, now, dateLabel)
  }

  lemma ReportsWiden(item: ScheduledItem, row: Escalation, t: TaskView, ts: seq<TaskView>, now: int,
                     dateLabel: int -> string)
    requires t in ts && Reports(item, row, [t], now, dateLabel)
    ensures Reports(item, row, ts, now, dateLabel)
  {
    var u, pv :| u in [t] && pv in u.policies && Eligible(u, pv, now)
      && item == ItemFor(item.id, u, pv, now) && row == PlannedRow(item.id, u, pv, now, dateLabel);
    assert u == t;
  }

  /** `row`, stored under `id`, is the planned row of an eligible policy of one of `ts`. */
  predicate Planned(id: nat, row: Escalation, ts: seq<TaskView>, now: int, dateLabel: int -> string) {
    exists t, pv | t in ts && pv in t.policies ::
      Eligible(t, pv, now) && row == PlannedRow(id, t, pv, now, dateLabel)
  }

  /** Every row added since `before` was planned for an eligible policy of one of `ts`. */
  predicate NewRowsPlanned(before: map<nat, Escalation>, after: map<nat, Escalation>, ts: seq<TaskView>,
                           now: int, dateLabel: int -> string)
  {
    forall id | id in after && id !in before :: Planned(id, after[id], ts, now, dateLabel)
  }

  lemma PlannedWiden(id: nat, row: Escalation, t: TaskView, ts: seq<TaskView>, now: int, dateLabel: int -> string)
    requires t in ts && Planned(id, row, [t], now, dateLabel)
    ensures Planned(id, row, ts, now, dateLabel)
  {
    var u, pv :| u in [t] && pv in u.policies && Eligible(u, pv, now) && row == PlannedRow(id, u, pv, now, dateLabel);
    assert u == t;
  }

  /** When no policy had two rows, none has after, and every new row belongs to a
      policy that had none. */
  predicate KeptOnePerPolicy(before: map<nat, Escalation>, after: map<nat, Escalation>) {
    AtMostOnePerPolicy(before) ==>
      AtMostOnePerPolicy(after)
      && forall id | id in after && id !in before :: !HasRow(before, after[id].policyId)
  }

  /** Every eligible policy of `t` whose insert does not fail has a row. */
  predicate Covered(rows: map<nat, Escalation>, t: TaskView, now: int, insertFails: string -> bool) {
    forall pv | pv in t.policies && Eligible(t, pv, now) && !insertFails(pv.policy.id) ::
      HasRow(rows, pv.policy.id)
  }

  /** The insert for `pv` runs and fails: the policy is eligible, the `.single()` lookup
      in `rows` found no row, and the database refuses the insert. */
  predicate InsertFailsFor(rows: map<nat, Escalation>, t: TaskView, pv: PolicyView, now: int,
                           insertFails: string -> bool)
  {
    Eligible(t, pv, now) && |PolicyRows(rows, pv.policy.id)| != 1 && insertFails(pv.policy.id)
  }

  /** The errors recorded for the policies `pvs` of `t`, in order, against the rows
      `rows` the run started from. */
  function TaskErrors(rows: map<nat, Escalation>, t: TaskView, pvs: seq<PolicyView>, now: int,
                      insertFails: string -> bool): seq<ScheduleError>
  {
    if pvs == [] then [] else
      TaskErrors(rows, t, pvs[..|pvs| - 1], now, insertFails)
      + (if InsertFailsFor(rows, t, pvs[|pvs| - 1], now, insertFails)
         then [InsertError(t.task.id, pvs[|pvs| - 1].policy.id)] else [])
  }

  /** The errors of a whole run over the tasks `ts`, in order. */
  function RunErrors(rows: map<nat, Escalation>, ts: seq<TaskView>, now: int,
                     insertFails: string -> bool): seq<ScheduleError>
  {
    if ts == [] then [] else
      RunErrors(rows, ts[..|ts| - 1], now, insertFails)
      + TaskErrors(rows, ts[|ts| - 1], ts[|ts| - 1].policies, now, insertFails)
  }

  /** Every row added since `before` belongs to a policy whose insert succeeds. */
  predicate NewRowsSucceed(before: map<nat, Escalation>, after: map<nat, Escalation>, insertFails: string -> bool) {
    forall id | id in after && id !in before :: !insertFails(after[id].policyId)
  }

  /** The rows of a policy whose insert fails do not change while only other
      policies gain rows. */
  lemma FailsForSame(a: map<nat, Escalation>, b: map<nat, Escalation>, t: TaskView, pv: PolicyView, now: int,
                     insertFails: string -> bool)
    requires Grows(a, b) && NewRowsSucceed(a, b, insertFails)
    ensures InsertFailsFor(a, t, pv, now, insertFails) == InsertFailsFor(b, t, pv, now, insertFails)
  {
    if insertFails(pv.policy.id) {
      assert PolicyRows(a, pv.policy.id) == PolicyRows(b, pv.policy.id);
    }
  }

  lemma {:induction false} TaskErrorsSame(a: map<nat, Escalation>, b: map<nat, Escalation>, t: TaskView,
                                          pvs: seq<PolicyView>, now: int, insertFails: string -> bool)
    requires Grows(a, b) && NewRowsSucceed(a, b, insertFails)
    ensures TaskErrors(a, t, pvs, now, insertFails) == TaskErrors(b, t, pvs, now, insertFails)
  {
    if pvs != [] {
      TaskErrorsSame(a, b, t, pvs[..|pvs| - 1], now, insertFails);
      FailsForSame(a, b, t, pvs[|pvs| - 1], now, insertFails);
    }
  }

  /** One more policy of `t`: its error, if any, extends the errors of the policies before it. */
  lemma TaskErrorsStep(orig: map<nat, Escalation>, before: map<nat, Escalation>, after: map<nat, Escalation>,
                       t: TaskView, j: nat, now: int, insertFails: string -> bool,
                       errors: seq<ScheduleError>, error: Option<ScheduleError>, errors': seq<ScheduleError>)
    requires j < |t.policies| && Grows(orig, before) && Grows(before, after)
    requires NewRowsSucceed(orig, before, insertFails) && NewRowsSucceed(before, after, insertFails)
    requires errors == TaskErrors(orig, t, t.policies[..j], now, insertFails)
    requires error.Some? <==> InsertFailsFor(before, t, t.policies[j], now, insertFails)
    requires error.Some? ==> error.value == InsertError(t.task.id, t.policies[j].policy.id)
    requires errors' == if error.Some? then errors + [error.value] else errors
    ensures errors' == TaskErrors(orig, t, t.policies[..j + 1], now, insertFails)
    ensures NewRowsSucceed(orig, after, insertFails)
  {
    FailsForSame(orig, before, t, t.policies[j], now, insertFails);
    assert t.policies[..j + 1][..j] == t.policies[..j];
  }

  /** One more task: its errors extend the errors of the tasks before it. */
  lemma RunErrorsStep(orig: map<nat, Escalation>, before: map<nat, Escalation>, after: map<nat, Escalation>,
                      ts: seq<TaskView>, i: nat, now: int, insertFails: string -> bool,
                      errors: seq<ScheduleError>, taskErrors: seq<ScheduleError>)
    requires i < |ts| && Grows(orig, before) && Grows(before, after)
    requires NewRowsSucceed(orig, before, insertFails) && NewRowsSucceed(before, after, insertFails)
    requires errors == RunErrors(orig, ts[..i], now, insertFails)
    requires taskErrors == TaskErrors(before, ts[i], ts[i].policies, now, insertFails)
    ensures errors + taskErrors == RunErrors(orig, ts[..i + 1], now, insertFails)
    ensures NewRowsSucceed(orig, after, insertFails)
  {
    TaskErrorsSame(orig, before, ts[i], ts[i].policies, now, insertFails);
    assert ts[..i + 1][..i] == ts[..i];
  }

  /** An error names the task and a policy of it whose insert ran and failed, and every
      such policy has its error. */
  lemma {:induction false} TaskErrorsMembers(rows: map<nat, Escalation>, t: TaskView, pvs: seq<PolicyView>,
                                             now: int, insertFails: string -> bool, e: ScheduleError)
    ensures e in TaskErrors(rows, t, pvs, now, insertFails) <==>
      exists pv | pv in pvs :: InsertFailsFor(rows, t, pv, now, insertFails) && e == InsertError(t.task.id, pv.policy.id)
  {
    if pvs != [] {
      var init, last := pvs[..|pvs| - 1], pvs[|pvs| - 1];
      assert pvs == init + [last];
      TaskErrorsMembers(rows, t, init, now, insertFails, e);
      if e in TaskErrors(rows, t, pvs, now, insertFails) && e !in TaskErrors(rows, t, init, now, insertFails) {
        assert last in pvs && InsertFailsFor(rows, t, last, now, insertFails);
      }
    }
  }

  /** The errors of a run are exactly the failed inserts of eligible policies of the
      checked tasks, each naming its task. */
  lemma {:induction false} RunErrorsMembers(rows: map<nat, Escalation>, ts: seq<TaskView>, now: int,
                                            insertFails: string -> bool, e: ScheduleError)
    ensures e in RunErrors(rows, ts, now, insertFails) <==>
      exists t, pv | t in ts && pv in t.policies ::
        InsertFailsFor(rows, t, pv, now, insertFails) && e == InsertError(t.task.id, pv.policy.id)
  {
    if ts != [] {
      var init, last := ts[..|ts| - 1], ts[|ts| - 1];
      assert ts == init + [last];
      RunErrorsMembers(rows, init, now, insertFails, e);
      TaskErrorsMembers(rows, last, last.policies, now, insertFails, e);
    }
  }

  /** While no policy has two rows, an insert runs exactly for an eligible policy
      without a row. */
  lemma InsertFailsWithoutRow(rows: map<nat, Escalation>, t: TaskView, pv: PolicyView, now: int,
                              insertFails: string -> bool)
    requires AtMostOnePerPolicy(rows)
    ensures InsertFailsFor(rows, t, pv, now, insertFails) <==>
      Eligible(t, pv, now) && !HasRow(rows, pv.policy.id) && insertFails(pv.policy.id)
  {
    SingleRowIffAny(rows, pv.policy.id);
  }

  /** Inserting a row for a policy without one keeps at most one row per policy. */
  lemma InsertKeepsOne(rows: map<nat, Escalation>, id: nat, row: Escalation)
    requires id !in rows && (AtMostOnePerPolicy(rows) ==> !HasRow(rows, row.policyId))
    ensures KeptOnePerPolicy(rows, rows[id := row])
  {
  }

  /** The insert of a policy's planned row, with its generated message, under a fresh id. */
  method InsertPlanned(store: EscalationStore, t: TaskView, pv: PolicyView, now: int, dateLabel: int -> string)
    returns (id: nat)
    requires store.Valid() && (AtMostOnePerPolicy(store.rows) ==> !HasRow(store.rows, pv.policy.id))
    modifies store
    ensures store.Valid() && id !in old(store.rows)
    ensures store.rows == old(store.rows)[id := PlannedRow(id, t, pv, now, dateLabel)]
    ensures HasRow(store.rows, pv.policy.id)
    ensures KeptOnePerPolicy(old(store.rows), store.rows)
  {
    InsertKeepsOne(store.rows, store.nextId, PlannedRow(store.nextId, t, pv, now, dateLabel));
    id := store.Insert(pv.policy.id, ScheduledFor(t, pv), MessageFor(t, pv, now, dateLabel), map[], now);
    assert store.rows[id].policyId == pv.policy.id;
  }

  /** One policy of one overdue task: skip it, insert its row, or record the failed insert. */
  method SchedulePolicy(store: EscalationStore, t: TaskView, pv: PolicyView, now: int,
                        insertFails: string -> bool, dateLabel: int -> string)
    returns (item: Option<ScheduledItem>, error: Option<ScheduleError>)
    requires store.Valid()
    modifies store
    ensures store.Valid() && Grows(old(store.rows), store.rows)
    ensures item.None? ==> store.rows == old(store.rows)
    ensures item.Some? ==>
      Eligible(t, pv, now) && item.value.id !in old(store.rows)
      && item.value == ItemFor(item.value.id, t, pv, now)
      && store.rows == old(store.rows)[item.value.id := PlannedRow(item.value.id, t, pv, now, dateLabel)]
    ensures Eligible(t, pv, now) && !insertFails(pv.policy.id) ==> HasRow(store.rows, pv.policy.id)
    ensures KeptOnePerPolicy(old(store.rows), store.rows)
    ensures error.Some? ==> error.value == InsertError(t.task.id, pv.policy.id) && insertFails(pv.policy.id)
    ensures error.Some? <==> InsertFailsFor(old(store.rows), t, pv, now, insertFails)
    ensures item.Some? <==>
      Eligible(t, pv, now) && |PolicyRows(old(store.rows), pv.policy.id)| != 1 && !insertFails(pv.policy.id)
    ensures NewRowsSucceed(old(store.rows), store.rows, insertFails)
  {
    item, error := None, None;
    var minutesOverdue := MinutesOverdue(t, now);
    if pv.contact.Some? && pv.contact.value.verified && minutesOverdue >= pv.policy.minutesAfterDue {
      var scheduledFor := t.task.dueAt + MinutesToMs(pv.policy.minutesAfterDue);
      var existing := store.SingleRowFor(pv.policy.id);
      SingleRowIffAny(store.rows, pv.policy.id);
      if !existing {
        if insertFails(pv.policy.id) {
          error := Some(InsertError(t.task.id, pv.policy.id));
        } else {
          var id := InsertPlanned(store, t, pv, now, dateLabel);
          item := Some(ScheduledItem(id, t.task.id, pv.policy.id, pv.policy.level,
                                     pv.contact.value.email, scheduledFor, minutesOverdue));
        }
      }
    }
  }

  /** Every eligible policy among the first `j` of `t` whose insert does not fail has a row. */
  predicate CoveredUpTo(rows: map<nat, Escalation>, t: TaskView, j: nat, now: int, insertFails: string -> bool)
    requires j <= |t.policies|
  {
    forall k | 0 <= k < j :: Eligible(t, t.policies[k], now) && !insertFails(t.policies[k].policy.id)
      ==> HasRow(rows, t.policies[k].policy.id)
  }

  lemma CoveredGrows(a: map<nat, Escalation>, b: map<nat, Escalation>, t: TaskView, j: nat, now: int,
                     insertFails: string -> bool)
    requires j <= |t.policies| && Grows(a, b) && CoveredUpTo(a, t, j, now, insertFails)
    ensures CoveredUpTo(b, t, j, now, insertFails)
  {
    forall k | 0 <= k < j && Eligible(t, t.policies[k], now) && !insertFails(t.policies[k].policy.id)
      ensures HasRow(b, t.policies[k].policy.id)
    {
      HasRowGrows(a, b, t.policies[k].policy.id);
    }
  }

  lemma CoveredExtend(rows: map<nat, Escalation>, t: TaskView, j: nat, now: int, insertFails: string -> bool)
    requires j < |t.policies| && CoveredUpTo(rows, t, j, now, insertFails)
    requires Eligible(t, t.policies[j], now) && !insertFails(t.policies[j].policy.id)
      ==> HasRow(rows, t.policies[j].policy.id)
    ensures CoveredUpTo(rows, t, j + 1, now, insertFails)
  {
  }

  /** The ids of the listed items. */
  function Ids(items: seq<ScheduledItem>): set<nat> {
    set k | 0 <= k < |items| :: items[k].id
  }

  lemma IdsAppend(a: seq<ScheduledItem>, b: seq<ScheduledItem>)
    ensures Ids(a + b) == Ids(a) + Ids(b)
  {
    forall id | id in Ids(a + b) ensures id in Ids(a) + Ids(b) {
      var k :| 0 <= k < |a + b| && (a + b)[k].id == id;
      if k < |a| {
        assert a[k] == (a + b)[k];
      } else {
        assert b[k - |a|] == (a + b)[k];
      }
    }
    forall id | id in Ids(a) + Ids(b) ensures id in Ids(a + b) {
      if id in Ids(a) {
        var k :| 0 <= k < |a| && a[k].id == id;
        assert (a + b)[k] == a[k];
      } else {
        var k :| 0 <= k < |b| && b[k].id == id;
        assert (a + b)[|a| + k] == b[k];
      }
    }
  }

  /** `items` lists the rows added to `orig`, each once: their ids are distinct and are
      exactly the new keys, and each item reports the row stored under its id. */
  predicate ItemsAreNewRows(items: seq<ScheduledItem>, orig: map<nat, Escalation>, rows: map<nat, Escalation>,
                            ts: seq<TaskView>, now: int, dateLabel: int -> string)
  {
    && Ids(items) == rows.Keys - orig.Keys
    && (forall i, j | 0 <= i < j < |items| :: items[i].id != items[j].id)
    && (forall k | 0 <= k < |items| :: items[k].id in rows && Reports(items[k], rows[items[k].id], ts, now, dateLabel))
  }

  /** Listing the item of a freshly inserted planned row keeps the list exact. */
  lemma ItemsStep(items: seq<ScheduledItem>, orig: map<nat, Escalation>, before: map<nat, Escalation>,
                  t: TaskView, pv: PolicyView, now: int, dateLabel: int -> string, item: ScheduledItem)
    requires Grows(orig, before) && ItemsAreNewRows(items, orig, before, [t], now, dateLabel)
    requires pv in t.policies && Eligible(t, pv, now)
    requires item.id !in before && item == ItemFor(item.id, t, pv, now)
    ensures ItemsAreNewRows(items + [item], orig, before[item.id := PlannedRow(item.id, t, pv, now, dateLabel)],
                            [t], now, dateLabel)
  {
    var after := before[item.id := PlannedRow(item.id, t, pv, now, dateLabel)];
    var all := items + [item];
    IdsAppend(items, [item]);
    assert Ids([item]) == {item.id} by {
      assert [item][0] == item;
    }
    forall i, j | 0 <= i < j < |all| ensures all[i].id != all[j].id {
      if j == |items| {
        assert all[i].id in Ids(items);
      } else {
        assert all[i] == items[i] && all[j] == items[j];
      }
    }
    forall k | 0 <= k < |all| ensures all[k].id in after && Reports(all[k], after[all[k].id], [t], now, dateLabel) {
      if k < |items| {
        assert all[k] == items[k];
        assert items[k].id in Ids(items);
        assert after[items[k].id] == before[items[k].id];
      } else {
        assert all[k] == item;
        assert t in [t] && pv in t.policies && Eligible(t, pv, now)
          && item == ItemFor(item.id, t, pv, now) && after[item.id] == PlannedRow(item.id, t, pv, now, dateLabel);
      }
    }
  }

  /** Adding the planned row of an eligible policy keeps every new row planned. */
  lemma PlannedStep(orig: map<nat, Escalation>, mid: map<nat, Escalation>, ts: seq<TaskView>, now: int,
                    dateLabel: int -> string, t: TaskView, pv: PolicyView, id: nat)
    requires NewRowsPlanned(orig, mid, ts, now, dateLabel)
    requires t in ts && pv in t.policies && Eligible(t, pv, now)
    ensures NewRowsPlanned(orig, mid[id := PlannedRow(id, t, pv, now, dateLabel)], ts, now, dateLabel)
  {
    var after := mid[id := PlannedRow(id, t, pv, now, dateLabel)];
    forall k | k in after && k !in orig ensures Planned(k, after[k], ts, now, dateLabel) {
      if k != id {
        assert after[k] == mid[k];
      }
    }
  }

  lemma KeptTrans(a: map<nat, Escalation>, b: map<nat, Escalation>, c: map<nat, Escalation>)
    requires Grows(a, b) && Grows(b, c)
    requires KeptOnePerPolicy(a, b) && KeptOnePerPolicy(b, c)
    ensures KeptOnePerPolicy(a, c)
  {
    if AtMostOnePerPolicy(a) {
      forall id | id in c && id !in a ensures !HasRow(a, c[id].policyId) {
        if id !in b && HasRow(a, c[id].policyId) {
          HasRowGrows(a, b, c[id].policyId);
        }
      }
    }
  }

  /** The inner loop: the policies of one overdue task, in order. */
  method ScheduleTask(store: EscalationStore, t: TaskView, now: int, insertFails: string -> bool, dateLabel: int -> string)
    returns (items: seq<ScheduledItem>, errors: seq<ScheduleError>)
    requires store.Valid()
    modifies store
    ensures store.Valid() && Grows(old(store.rows), store.rows)
    ensures |store.rows| == |old(store.rows)| + |items|
    ensures ItemsAreNewRows(items, old(store.rows), store.rows, [t], now, dateLabel)
    ensures NewRowsPlanned(old(store.rows), store.rows, [t], now, dateLabel)
    ensures KeptOnePerPolicy(old(store.rows), store.rows)
    ensures Covered(store.rows, t, now, insertFails)
    ensures forall e | e in errors :: e.taskId == t.task.id && insertFails(e.policyId)
    ensures errors == TaskErrors(old(store.rows), t, t.policies, now, insertFails)
    ensures NewRowsSucceed(old(store.rows), store.rows, insertFails)
  {
    items, errors := [], [];
    ghost var orig := store.rows;
    var j := 0;
    while j < |t.policies|
      invariant 0 <= j <= |t.policies|
      invariant store.Valid() && Grows(orig, store.rows)
      invariant |store.rows| == |orig| + |items|
      invariant ItemsAreNewRows(items, orig, store.rows, [t], now, dateLabel)
      invariant NewRowsPlanned(orig, store.rows, [t], now, dateLabel)
      invariant KeptOnePerPolicy(orig, store.rows)
      invariant CoveredUpTo(store.rows, t, j, now, insertFails)
      invariant errors == TaskErrors(orig, t, t.policies[..j], now, insertFails)
      invariant NewRowsSucceed(orig, store.rows, insertFails)
    {
      ghost var before := store.rows;
      var item, error := SchedulePolicy(store, t, t.policies[j], now, insertFails, dateLabel);
      ghost var errorsBefore := errors;
      KeptTrans(orig, before, store.rows);
      CoveredGrows(before, store.rows, t, j, now, insertFails);
      CoveredExtend(store.rows, t, j, now, insertFails);
      if item.Some? {
        PlannedStep(orig, before, [t], now, dateLabel, t, t.policies[j], item.value.id);
        ItemsStep(items, orig, before, t, t.policies[j], now, dateLabel, item.value);
        items := items + [item.value];
      }
      if error.Some? {
        errors := errors + [error.value];
      }
      TaskErrorsStep(orig, before, store.rows, t, j, now, insertFails, errorsBefore, error, errors);
      j := j + 1;
    }
    assert t.policies[..j] == t.policies;
    forall e | e in errors ensures e.taskId == t.task.id && insertFails(e.policyId) {
      TaskErrorsMembers(orig, t, t.policies, now, insertFails, e);
    }
  }

  lemma PlannedLift(orig: map<nat, Escalation>, before: map<nat, Escalation>, after: map<nat, Escalation>,
                    ts: seq<TaskView>, t: TaskView, now: int, dateLabel: int -> string)
    requires Grows(before, after) && t in ts
    requires NewRowsPlanned(orig, before, ts, now, dateLabel)
    requires NewRowsPlanned(before, after, [t], now, dateLabel)
    ensures NewRowsPlanned(orig, after, ts, now, dateLabel)
  {
    forall id | id in after && id !in orig ensures Planned(id, after[id], ts, now, dateLabel) {
      if id in before {
        assert after[id] == before[id];
      } else {
        PlannedWiden(id, after[id], t, ts, now, dateLabel);
      }
    }
  }

  /** The items of one more task extend the run's list of new rows. */
  lemma ItemsAppend(a: seq<ScheduledItem>, b: seq<ScheduledItem>, orig: map<nat, Escalation>,
                    before: map<nat, Escalation>, after: map<nat, Escalation>, t: TaskView, ts: seq<TaskView>,
                    now: int, dateLabel: int -> string)
    requires Grows(orig, before) && Grows(before, after) && t in ts
    requires ItemsAreNewRows(a, orig, before, ts, now, dateLabel)
    requires ItemsAreNewRows(b, before, after, [t], now, dateLabel)
    ensures ItemsAreNewRows(a + b, orig, after, ts, now, dateLabel)
  {
    var all := a + b;
    IdsAppend(a, b);
    forall i, j | 0 <= i < j < |all| ensures all[i].id != all[j].id {
      if j < |a| {
        assert all[i] == a[i] && all[j] == a[j];
      } else if i < |a| {
        assert all[i] == a[i] && all[j] == b[j - |a|];
        assert a[i].id in Ids(a);
        assert b[j - |a|].id in Ids(b);
      } else {
        assert all[i] == b[i - |a|] && all[j] == b[j - |a|];
      }
    }
    forall k | 0 <= k < |all| ensures all[k].id in after && Reports(all[k], after[all[k].id], ts, now, dateLabel) {
      if k < |a| {
        assert all[k] == a[k];
        assert a[k].id in before;
      } else {
        assert all[k] == b[k - |a|];
        ReportsWiden(b[k - |a|], after[b[k - |a|].id], t, ts, now, dateLabel);
      }
    }
  }

  /** Every task among the first `i` of `ts` has all its eligible policies covered. */
  predicate TasksCovered(rows: map<nat, Escalation>, ts: seq<TaskView>, i: nat, now: int, insertFails: string -> bool)
    requires i <= |ts|
  {
    forall k | 0 <= k < i :: Covered(rows, ts[k], now, insertFails)
  }

  lemma TasksCoveredGrows(a: map<nat, Escalation>, b: map<nat, Escalation>, ts: seq<TaskView>, i: nat, now: int,
                          insertFails: string -> bool)
    requires i <= |ts| && Grows(a, b) && TasksCovered(a, ts, i, now, insertFails)
    ensures TasksCovered(b, ts, i, now, insertFails)
  {
    forall k, pv | 0 <= k < i && pv in ts[k].policies && Eligible(ts[k], pv, now) && !insertFails(pv.policy.id)
      ensures HasRow(b, pv.policy.id)
    {
      HasRowGrows(a, b, pv.policy.id);
    }
  }

  lemma TasksCoveredExtend(rows: map<nat, Escalation>, ts: seq<TaskView>, i: nat, now: int, insertFails: string -> bool)
    requires i < |ts| && TasksCovered(rows, ts, i, now, insertFails) && Covered(rows, ts[i], now, insertFails)
    ensures TasksCovered(rows, ts, i + 1, now, insertFails)
  {
  }

  /** `POST /api/escalation/schedule`. `insertFails` says which policies' inserts the
      database refuses; `dateLabel` renders a due date. */
  method ScheduleEscalations(store: EscalationStore, secret: Option<string>, header: Option<string>,
                             tasks: seq<TaskView>, now: int, insertFails: string -> bool, dateLabel: int -> string)
    returns (resp: ScheduleResponse)
    requires store.Valid()
    modifies store
    ensures store.Valid() && Grows(old(store.rows), store.rows)
    ensures !Authorized(secret, header) ==> resp == Unauthorized && store.rows == old(store.rows)
    ensures Authorized(secret, header) ==>
      resp.Scheduled? && resp.overdueTasksChecked == |OverdueTasks(tasks, now)|
      && |store.rows| == |old(store.rows)| + |resp.scheduled|
      && ItemsAreNewRows(resp.scheduled, old(store.rows), store.rows, OverdueTasks(tasks, now), now, dateLabel)
      && forall t | t in OverdueTasks(tasks, now) :: Covered(store.rows, t, now, insertFails)
    ensures NewRowsPlanned(old(store.rows), store.rows, OverdueTasks(tasks, now), now, dateLabel)
    ensures KeptOnePerPolicy(old(store.rows), store.rows)
    ensures resp.Scheduled? ==> forall e | e in resp.errors :: insertFails(e.policyId)
    ensures resp.Scheduled? ==> resp.errors == RunErrors(old(store.rows), OverdueTasks(tasks, now), now, insertFails)
  {
    if !Authorized(secret, header) {
      return Unauthorized;
    }
    var overdue := OverdueTasks(tasks, now);
    ghost var orig := store.rows;
    var scheduled: seq<ScheduledItem> := [];
    var errors: seq<ScheduleError> := [];
    var i := 0;
    while i < |overdue|
      invariant 0 <= i <= |overdue|
      invariant store.Valid() && Grows(orig, store.rows)
      invariant |store.rows| == |orig| + |scheduled|
      invariant ItemsAreNewRows(scheduled, orig, store.rows, overdue, now, dateLabel)
      invariant NewRowsPlanned(orig, store.rows, overdue, now, dateLabel)
      invariant KeptOnePerPolicy(orig, store.rows)
      invariant TasksCovered(store.rows, overdue, i, now, insertFails)
      invariant forall e | e in errors :: insertFails(e.policyId)
      invariant errors == RunErrors(orig, overdue[..i], now, insertFails)
      invariant NewRowsSucceed(orig, store.rows, insertFails)
    {
      ghost var before := store.rows;
      var items, taskErrors := ScheduleTask(store, overdue[i], now, insertFails, dateLabel);
      RunErrorsStep(orig, before, store.rows, overdue, i, now, insertFails, errors, taskErrors);
      PlannedLift(orig, before, store.rows, overdue, overdue[i], now, dateLabel);
      ItemsAppend(scheduled, items, orig, before, store.rows, overdue[i], overdue, now, dateLabel);
      KeptTrans(orig, before, store.rows);
      TasksCoveredGrows(before, store.rows, overdue, i, now, insertFails);
      TasksCoveredExtend(store.rows, overdue, i, now, insertFails);
      scheduled := scheduled + items;
      errors := errors + taskErrors;
      i := i + 1;
    }
    assert overdue[..i] == overdue;
    resp := Scheduled(|overdue|, scheduled, errors);
  }
}
