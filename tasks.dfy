/** The task routes: creating a task checks the required fields, the priority and the
    due date before inserting one pending row; listing returns a window of the
    caller's tasks by due date, optionally of one status or priority. */
module Tasks {
  import opened Text
  import opened Json
  import opened Ordering
  import opened Entities
  import opened Api

  const MissingFieldsText := "Missing required fields: title and due_date"
  const BadPriorityText := "Priority must be one of: low, medium, high"
  const BadDueDateText := "Invalid due_date format"
  const InsertFailedText := "Failed to create task"
  const InternalErrorText := "Internal server error"

  const Priorities: seq<string> := ["low", "medium", "high"]
  const DefaultPriority := "medium"
  const Pending := "pending"

  // ------------------------------------------------------------------- POST

  /** A create request that passed the checks: the raw title and description, the due
      instant `new Date(due_date)` gave, and the priority. */
  datatype TaskRequest = TaskRequest(title: Value, description: Option<Value>, dueAt: int, priority: string)

  /** `const { priority = "medium" } = body`: the default stands in only for an absent
      key, not for a `null` or an empty text. */
  function PriorityOf(body: Object): Value {
    if "priority" in body then body["priority"] else Str(DefaultPriority)
  }

  /** The checks, in order: `title` and `due_date` truthy, the priority one of the
      three, the due date readable. `parseDate` is `new Date(v)`, giving the instant
      or `None` for an invalid date. */
  function CheckFields(body: Object, parseDate: Value -> Option<int>): (r: Checked<TaskRequest>)
    ensures r.Pass? ==> r.value.priority in Priorities
    ensures r.Stop? ==> r.status == 400
  {
    if !Present(body, "title") || !Present(body, "due_date") then Stop(400, MissingFieldsText)
    else if !PriorityOf(body).Str? || PriorityOf(body).s !in Priorities then Stop(400, BadPriorityText)
    else if parseDate(body["due_date"]).None? then Stop(400, BadDueDateText)
    else Pass(TaskRequest(body["title"], Get(body, "description"), parseDate(body["due_date"]).value, PriorityOf(body).s))
  }

  /** `description?.trim() || null`: an absent or `null` description and one that is
      only white space are stored as `null`, a text as its trimmed self; `.trim()` of
      any other value throws, which the handler answers with a 500. */
  function StoredDescription(d: Option<Value>): (r: Checked<Option<string>>)
    ensures r.Pass? && r.value.Some? ==> r.value.value != "" && d.Some? && d.value.Str? && r.value.value == Trim(d.value.s)
    ensures r.Pass? && r.value.None? ==> d.None? || d == Some(Null) || (d.value.Str? && Trim(d.value.s) == "")
    ensures r.Stop? <==> d.Some? && !d.value.Null? && !d.value.Str?
  {
    if d.None? || d.value.Null? then Pass(None)
    else if !d.value.Str? then Stop(500, InternalErrorText)
    else if Trim(d.value.s) == "" then Pass(None)
    else Pass(Some(Trim(d.value.s)))
  }

  /** `POST /api/tasks` as a decision: the refusal the first failing check gives, or
      the row to insert. */
  function DecideCreate(user: Option<string>, body: Object, parseDate: Value -> Option<int>, newId: string,
                        insertFails: bool): (r: Created<Task>)
    ensures r.Created? ==>
      && user.Some? && r.row.userId == user.value && r.row.id == newId
      && r.row.status == Pending && r.row.priority in Priorities
  {
    if user.None? then Refused(401, "Unauthorized")
    else match CheckFields(body, parseDate)
      case Stop(status, error) => Refused(status, error)
      case Pass(req) =>
        if !req.title.Str? then Refused(500, InternalErrorText)   // `.trim()` of a non-string throws
        else match StoredDescription(req.description)
          case Stop(status, error) => Refused(status, error)
          case Pass(description) =>
            if insertFails then Refused(500, InsertFailedText)
            else Created(Task(newId, user.value, Trim(req.title.s), description, req.dueAt, Pending, req.priority))
  }

  /** A task is created exactly when the title and due date are truthy, the priority
      (medium when absent) is one of the three, the date is readable, the title is
      text, the description is absent, `null` or text, and the insert succeeds; the
      row is pending and holds the trimmed title, with no leading or trailing white
      space. */
  lemma CreateAcceptsExactly(user: string, body: Object, parseDate: Value -> Option<int>, newId: string, insertFails: bool)
    ensures var r := DecideCreate(Some(user), body, parseDate, newId, insertFails);
      r.Created? <==>
        && Present(body, "title") && Present(body, "due_date")
        && PriorityOf(body).Str? && PriorityOf(body).s in Priorities
        && parseDate(body["due_date"]).Some?
        && body["title"].Str?
        && ("description" in body ==> body["description"].Null? || body["description"].Str?)
        && !insertFails
    ensures var r := DecideCreate(Some(user), body, parseDate, newId, insertFails);
      r.Created? ==>
        && r.row.title == Trim(body["title"].s)
        && (r.row.title == [] || (!IsSpace(r.row.title[0]) && !IsSpace(r.row.title[|r.row.title| - 1])))
        && r.row.dueAt == parseDate(body["due_date"]).value
        && r.row.priority == PriorityOf(body).s
        && r.row.description == StoredDescription(Get(body, "description")).value
  {
  }

  /** A request without a priority creates a medium-priority task, but one whose
      priority is `null` is refused: the default fills in only the missing key. */
  lemma PriorityDefault(user: string, body: Object, parseDate: Value -> Option<int>, newId: string, insertFails: bool)
    requires Present(body, "title") && Present(body, "due_date")
    ensures "priority" !in body && DecideCreate(Some(user), body, parseDate, newId, insertFails).Created? ==>
      DecideCreate(Some(user), body, parseDate, newId, insertFails).row.priority == DefaultPriority
    ensures "priority" in body && body["priority"] == Null ==>
      DecideCreate(Some(user), body, parseDate, newId, insertFails) == Refused(400, BadPriorityText)
  {
  }

  /** Every stored task has one of the three priorities and a description that is
      either `null` or non-empty text. */
  predicate WellFormed(rows: seq<Task>) {
    forall i | 0 <= i < |rows| :: rows[i].priority in Priorities && rows[i].description != Some("")
  }

  /** The task table. */
  class TaskTable {
    var rows: seq<Task>

    constructor (rows0: seq<Task>)
      ensures rows == rows0
    {
      rows := rows0;
    }

    /** Run the checks and insert the new pending row when they pass. */
    method Create(user: Option<string>, body: Object, parseDate: Value -> Option<int>, newId: string, insertFails: bool)
      returns (r: Created<Task>)
      modifies this
      ensures r == DecideCreate(user, body, parseDate, newId, insertFails)
      ensures rows == old(rows) + (if r.Created? then [r.row] else [])
      ensures WellFormed(old(rows)) ==> WellFormed(rows)
    {
      r := DecideCreate(user, body, parseDate, newId, insertFails);
      if r.Created? {
        rows := rows + [r.row];
      }
    }
  }

  // -------------------------------------------------------------------- GET

  /** The owner filter and the optional `status` and `priority` filters, each applied
      only when its parameter is a non-empty text. */
  predicate Matches(t: Task, user: string, status: Option<string>, priority: Option<string>) {
    t.userId == user
    && (Given(status) ==> t.status == status.value)
    && (Given(priority) ==> t.priority == priority.value)
  }

  /** `.order("due_date", { ascending: true })`. */
  function ByDueDate(t: Task): int {
    t.dueAt
  }

  /** The caller's matching tasks in due-date order; the filters apply before the
      `.range` window is cut. */
  function Listed(tasks: seq<Task>, user: string, status: Option<string>, priority: Option<string>): (r: seq<Task>)
    ensures forall t :: t in r <==> t in tasks && Matches(t, user, status, priority)
    ensures SortedBy(r, ByDueDate)
    ensures |r| <= |tasks|
  {
    var kept := Where(tasks, (t: Task) => Matches(t, user, status, priority));
    var r := SortBy(kept, ByDueDate);
    forall t ensures t in r <==> t in kept {
      SortBySameRows(kept, ByDueDate, t);
    }
    assert |r| == |multiset(r)| == |multiset(kept)| == |kept|;
    r
  }

  /** The page of tasks the list query returns. */
  function ListTasks(tasks: seq<Task>, user: string, status: Option<string>, priority: Option<string>,
                     offset: int, limit: int): (r: seq<Task>)
    ensures forall t | t in r :: t in tasks && Matches(t, user, status, priority)
    ensures SortedBy(r, ByDueDate)
  {
    var all := Listed(tasks, user, status, priority);
    var page := Page(all, offset, limit);
    assert forall i | 0 <= i < |page| :: page[i] == all[PageStart(|all|, offset) + i];
    page
  }

  /** A first page at least as large as the table holds every matching task: the
      window then loses nothing. */
  lemma FirstPageHoldsAll(tasks: seq<Task>, user: string, status: Option<string>, priority: Option<string>,
                          limit: int, t: Task)
    requires limit >= |tasks|
    ensures t in ListTasks(tasks, user, status, priority, 0, limit) <==> t in tasks && Matches(t, user, status, priority)
  {
    var all := Listed(tasks, user, status, priority);
    assert Page(all, 0, limit) == all;
  }

  datatype TasksResponse = TasksUnauthorized | TaskList(tasks: seq<Task>)

  /** `GET /api/tasks`: a 401 without a user, otherwise the window `limit` (50 when
      missing or zero) from `offset` (0 when missing) of the caller's tasks. */
  function GetTasks(tasks: seq<Task>, user: Option<string>, status: Option<string>, priority: Option<string>,
                    limitParam: Option<int>, offsetParam: Option<int>): (r: TasksResponse)
    ensures user.None? <==> r == TasksUnauthorized
    ensures user.Some? ==> forall t | t in r.tasks :: t in tasks && t.userId == user.value
    ensures user.Some? ==>
      |r.tasks| <= if ParamOr(limitParam, DefaultLimit) < 0 then 0 else ParamOr(limitParam, DefaultLimit)
  {
    if user.None? then TasksUnauthorized
    else TaskList(ListTasks(tasks, user.value, status, priority, ParamOr(offsetParam, DefaultOffset), ParamOr(limitParam, DefaultLimit)))
  }
}
