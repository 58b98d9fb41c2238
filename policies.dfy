/** The escalation-policy routes: creating a policy runs a chain of checks, each
    ending the request early with its own status, and then inserts one row; listing
    returns the caller's policies by level. */
module Policies {
  import opened Text
  import opened Json
  import opened Ordering
  import opened Entities
  import opened Api

  const MissingFieldsText := "Missing required fields: task_id, level, minutes_after_due, contact_id, message_template"
  const BadLevelText := "Level must be an integer between 1 and 3"
  const BadMinutesText := "minutes_after_due must be a non-negative integer"
  const TaskNotFoundText := "Task not found or access denied"
  const ContactNotFoundText := "Contact not found or access denied"
  const UnverifiedText := "Contact must be verified before assigning to escalation policy"
  const InsertFailedText := "Failed to create escalation policy"
  const InternalErrorText := "Internal server error"

  function ExistsText(level: int): string {
    "Escalation policy level " + IntToString(level) + " already exists for this task"
  }

  /** An id from the request body as the text a `.eq` on an id column compares; any
      other value matches no row. */
  function IdOf(v: Value): Option<string> {
    if v.Str? then Some(v.s) else None
  }

  /** A create request that passed the field checks. */
  datatype PolicyRequest = PolicyRequest(taskId: Value, level: int, minutesAfterDue: int, contactId: Value, template: Value)

  /** The field checks, in order: all five fields truthy, then an integer level in
      1..3, then a non-negative integer number of minutes. */
  function CheckFields(body: Object): (r: Checked<PolicyRequest>)
    ensures r.Pass? ==> r.value.minutesAfterDue >= 1 && 1 <= r.value.level <= 3
  {
    if !Present(body, "task_id") || !Present(body, "level") || !Present(body, "minutes_after_due")
       || !Present(body, "contact_id") || !Present(body, "message_template") then
      Stop(400, MissingFieldsText)
    else if !body["level"].Num? || body["level"].n < 1 || body["level"].n > 3 then Stop(400, BadLevelText)
    else if !body["minutes_after_due"].Num? || body["minutes_after_due"].n < 0 then Stop(400, BadMinutesText)
    else Pass(PolicyRequest(body["task_id"], body["level"].n, body["minutes_after_due"].n,
                            body["contact_id"], body["message_template"]))
  }

  /** `.eq("id", id).eq("user_id", user).single()` on a table keyed by id. */
  predicate OwnsTask(tasks: map<string, Task>, id: Option<string>, user: string) {
    id.Some? && id.value in tasks && tasks[id.value].userId == user
  }

  predicate OwnsContact(contacts: map<string, Contact>, id: Option<string>, user: string) {
    id.Some? && id.value in contacts && contacts[id.value].userId == user
  }

  predicate SameSlot(p: Policy, taskId: string, level: int) {
    p.taskId == taskId && p.level == level
  }

  /** `POST /api/escalation-policies` as a decision: the refusal the first failing
      check gives, or the row to insert. */
  function DecideCreate(user: Option<string>, body: Object, tasks: map<string, Task>, contacts: map<string, Contact>,
                        policies: seq<Policy>, newId: string, insertFails: bool): (r: Created<Policy>)
    ensures r.Created? ==> r.row.id == newId && 1 <= r.row.level <= 3 && r.row.minutesAfterDue >= 1
  {
    if user.None? then Refused(401, "Unauthorized")
    else match CheckFields(body)
      case Stop(status, error) => Refused(status, error)
      case Pass(req) =>
        var taskId := IdOf(req.taskId);
        var contactId := IdOf(req.contactId);
        if !OwnsTask(tasks, taskId, user.value) then Refused(404, TaskNotFoundText)
        else if !OwnsContact(contacts, contactId, user.value) then Refused(404, ContactNotFoundText)
        else if !contacts[contactId.value].verified then Refused(400, UnverifiedText)
        else if Count(policies, p => SameSlot(p, taskId.value, req.level)) == 1 then Refused(409, ExistsText(req.level))
        else if !req.template.Str? then Refused(500, InternalErrorText)   // `.trim()` of a non-string throws
        else if insertFails then Refused(500, InsertFailedText)
        else Created(Policy(newId, taskId.value, req.level, req.minutesAfterDue, contactId.value, Trim(req.template.s)))
  }

  /** Because the required-field check is a truthiness test, a policy that fires right
      at the due time (`minutes_after_due` 0) is refused as a missing field. */
  lemma ZeroMinutesRefused(user: string, body: Object, tasks: map<string, Task>, contacts: map<string, Contact>,
                           policies: seq<Policy>, newId: string, insertFails: bool)
    requires "minutes_after_due" in body && body["minutes_after_due"] == Num(0)
    ensures DecideCreate(Some(user), body, tasks, contacts, policies, newId, insertFails) == Refused(400, MissingFieldsText)
  {
  }

  /** A request passes the field checks exactly when its five fields are present and
      truthy, the level is an integer in 1..3 and the minutes a positive integer. */
  lemma CheckFieldsExactly(body: Object)
    ensures CheckFields(body).Pass? <==>
      && Present(body, "task_id") && Present(body, "contact_id") && Present(body, "message_template")
      && "level" in body && body["level"].Num? && 1 <= body["level"].n <= 3
      && "minutes_after_due" in body && body["minutes_after_due"].Num? && body["minutes_after_due"].n >= 1
  {
  }

  /** Once the fields pass, a policy is created exactly when the task and the contact
      are the caller's, the contact is verified, the task has no policy at that level
      yet, the template is text and the insert succeeds; the row stores the trimmed
      template. */
  lemma CreateAcceptsExactly(user: string, body: Object, tasks: map<string, Task>, contacts: map<string, Contact>,
                             policies: seq<Policy>, newId: string, insertFails: bool)
    requires CheckFields(body).Pass?
    ensures var req := CheckFields(body).value;
      var r := DecideCreate(Some(user), body, tasks, contacts, policies, newId, insertFails);
      r.Created? <==>
        && req.taskId.Str? && req.contactId.Str? && req.template.Str?
        && req.taskId.s in tasks && tasks[req.taskId.s].userId == user
        && req.contactId.s in contacts && contacts[req.contactId.s].userId == user
        && contacts[req.contactId.s].verified
        && Count(policies, p => SameSlot(p, req.taskId.s, req.level)) != 1
        && !insertFails
    ensures var req := CheckFields(body).value;
      var r := DecideCreate(Some(user), body, tasks, contacts, policies, newId, insertFails);
      r.Created? ==> r.row == Policy(newId, req.taskId.s, req.level, req.minutesAfterDue, req.contactId.s, Trim(req.template.s))
  {
  }

  /** No two policies share a task and a level. */
  predicate OnePerLevel(rows: seq<Policy>) {
    forall i, j | 0 <= i < j < |rows| :: !(rows[i].taskId == rows[j].taskId && rows[i].level == rows[j].level)
  }

  /** The policy table. */
  class PolicyTable {
    var rows: seq<Policy>

    constructor (rows0: seq<Policy>)
      ensures rows == rows0
    {
      rows := rows0;
    }

    /** Run the checks and insert the new row when they pass. */
    method Create(user: Option<string>, body: Object, tasks: map<string, Task>, contacts: map<string, Contact>,
                  newId: string, insertFails: bool) returns (r: Created<Policy>)
      modifies this
      ensures r == DecideCreate(user, body, tasks, contacts, old(rows), newId, insertFails)
      ensures rows == old(rows) + (if r.Created? then [r.row] else [])
      ensures OnePerLevel(old(rows)) ==> OnePerLevel(rows)
    {
      r := DecideCreate(user, body, tasks, contacts, rows, newId, insertFails);
      if r.Created? {
        if OnePerLevel(rows) {
          CreateKeepsOnePerLevel(user, body, tasks, contacts, rows, newId, insertFails);
        }
        rows := rows + [r.row];
      }
    }
  }

  /** The uniqueness check keeps the table at one policy per task and level: with at
      most one row per slot, `.single()` finds a row exactly when the slot is taken. */
  lemma CreateKeepsOnePerLevel(user: Option<string>, body: Object, tasks: map<string, Task>, contacts: map<string, Contact>,
                               policies: seq<Policy>, newId: string, insertFails: bool)
    requires OnePerLevel(policies)
    requires DecideCreate(user, body, tasks, contacts, policies, newId, insertFails).Created?
    ensures OnePerLevel(policies + [DecideCreate(user, body, tasks, contacts, policies, newId, insertFails).row])
  {
    var row := DecideCreate(user, body, tasks, contacts, policies, newId, insertFails).row;
    var p := (q: Policy) => SameSlot(q, row.taskId, row.level);
    assert Count(policies, p) != 1;
    CountAtMostOne(policies, p);
    var all := policies + [row];
    forall i, j | 0 <= i < j < |all| ensures !(all[i].taskId == all[j].taskId && all[i].level == all[j].level) {
      if j == |policies| {
        assert !p(policies[i]);
      } else {
        assert all[i] == policies[i] && all[j] == policies[j];
      }
    }
  }

  // -------------------------------------------------------------------- GET

  /** `policy.tasks && policy.tasks.user_id === user.id`: the policy's task exists and
      belongs to the caller. */
  predicate OwnedBy(p: Policy, tasks: seq<Task>, user: string) {
    exists t | t in tasks :: t.id == p.taskId && t.userId == user
  }

  function ByLevel(p: Policy): int {
    p.level
  }

  /** `GET /api/escalation-policies`: the caller's policies, of one task when one is
      named, by level ascending. */
  function ListPolicies(policies: seq<Policy>, tasks: seq<Task>, user: string, taskId: Option<string>): (r: seq<Policy>)
    ensures forall p :: p in r <==>
      p in policies && (Given(taskId) ==> p.taskId == taskId.value) && OwnedBy(p, tasks, user)
    ensures SortedBy(r, ByLevel)
  {
    var kept := Where(policies, (p: Policy) => (Given(taskId) ==> p.taskId == taskId.value) && OwnedBy(p, tasks, user));
    var r := SortBy(kept, ByLevel);
    forall p ensures p in r <==> p in kept {
      SortBySameRows(kept, ByLevel, p);
    }
    r
  }

  datatype ListResponse = ListUnauthorized | PolicyList(policies: seq<Policy>)

  function GetPolicies(policies: seq<Policy>, tasks: seq<Task>, user: Option<string>, taskId: Option<string>): (r: ListResponse)
    ensures user.None? <==> r == ListUnauthorized
    ensures user.Some? ==> r == PolicyList(ListPolicies(policies, tasks, user.value, taskId))
  {
    if user.None? then ListUnauthorized else PolicyList(ListPolicies(policies, tasks, user.value, taskId))
  }
}
