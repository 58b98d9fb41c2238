/** The rows of the tables the escalation lifecycle reads: tasks, contacts,
    escalation policies and user profiles. Identifiers other than escalation ids are
    opaque strings; instants are integer milliseconds. */
module Entities {
  import opened Text

  datatype Task = Task(
    id: string,
    userId: string,
    title: string,
    description: Option<string>,
    dueAt: int,
    status: string,
    priority: string)

  datatype Contact = Contact(
    id: string,
    userId: string,
    name: string,
    email: string,
    relationship: string,
    verified: bool)

  /** An escalation policy: notify `contactId` at `level` once the task is
      `minutesAfterDue` minutes overdue. An empty template stands for none. */
  datatype Policy = Policy(
    id: string,
    taskId: string,
    level: int,
    minutesAfterDue: int,
    contactId: string,
    messageTemplate: string)

  datatype Profile = Profile(email: Option<string>, fullName: Option<string>)

  /** A string that is present and non-empty, i.e. truthy in JavaScript. */
  predicate Given(s: Option<string>) {
    s.Some? && s.value != ""
  }
}
