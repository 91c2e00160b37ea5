/**
 * The task record of the store (Backend/src/models/Task.ts) and the
 * enumerations that the client's type declarations repeat
 * (frontend/src/types/index.ts).
 */
module TaskModel {
  import opened Wrappers

  /** Store-assigned identifier of a task (an ObjectId, kept opaque). */
  type TaskId = nat

  /** Reference to a user document (an ObjectId, kept opaque). */
  type UserId = string

  datatype Status = ToDo | InProgress | Review | Completed

  datatype Priority = Low | Medium | High | Urgent

  /** The spelling under which a status is stored and sent. */
  function StatusName(s: Status): string {
    match s
    case ToDo => "To Do"
    case InProgress => "In Progress"
    case Review => "Review"
    case Completed => "Completed"
  }

  /** The spelling under which a priority is stored and sent. */
  function PriorityName(p: Priority): string {
    match p
    case Low => "Low"
    case Medium => "Medium"
    case High => "High"
    case Urgent => "Urgent"
  }

  /** The enum check of the status path: exactly the four names are statuses. */
  function ParseStatus(name: string): (r: Option<Status>)
    ensures r.Some? ==> StatusName(r.value) == name
    ensures r.None? ==> forall s: Status :: StatusName(s) != name
  {
    if name == "To Do" then Some(ToDo)
    else if name == "In Progress" then Some(InProgress)
    else if name == "Review" then Some(Review)
    else if name == "Completed" then Some(Completed)
    else None
  }

  /** The enum check of the priority path: exactly the four names are priorities. */
  function ParsePriority(name: string): (r: Option<Priority>)
    ensures r.Some? ==> PriorityName(r.value) == name
    ensures r.None? ==> forall p: Priority :: PriorityName(p) != name
  {
    if name == "Low" then Some(Low)
    else if name == "Medium" then Some(Medium)
    else if name == "High" then Some(High)
    else if name == "Urgent" then Some(Urgent)
    else None
  }

  /** Reading back a stored status name gives the status that was stored. */
  lemma StatusNameRoundTrip(s: Status)
    ensures ParseStatus(StatusName(s)) == Some(s)
  {
    match s
    case ToDo =>
    case InProgress =>
    case Review =>
    case Completed =>
  }

  /** Reading back a stored priority name gives the priority that was stored. */
  lemma PriorityNameRoundTrip(p: Priority)
    ensures ParsePriority(PriorityName(p)) == Some(p)
  {
    match p
    case Low =>
    case Medium =>
    case High =>
    case Urgent =>
  }

  /**
   * A stored task. `createdAt` and `updatedAt` are the timestamps the store
   * adds (`timestamps: true`), here readings of a logical clock; `dueDate` is
   * kept as the opaque text it was given as.
   */
  datatype Task = Task(
    id: TaskId,
    title: string,
    description: string,
    dueDate: string,
    priority: Priority,
    status: Status,
    creatorId: UserId,
    assignedToId: Option<UserId>,
    createdAt: nat,
    updatedAt: nat)

  /** A document handed to the store for creation: any path may be absent. */
  datatype Draft = Draft(
    title: Option<string>,
    description: Option<string>,
    dueDate: Option<string>,
    priority: Option<string>,
    status: Option<string>,
    creatorId: Option<UserId>,
    assignedToId: Option<UserId>)

  /** One failed path of the schema's validation. */
  datatype SchemaError = Required(path: string) | NotInEnum(path: string)

  /** A required String path rejects both an absent value and the empty string. */
  predicate RequiredString(v: Option<string>) {
    v.Some? && v.value != ""
  }

  /** An enum path with a default accepts an absent value or one of its names. */
  predicate PriorityAllowed(v: Option<string>) {
    v.None? || ParsePriority(v.value).Some?
  }

  predicate StatusAllowed(v: Option<string>) {
    v.None? || ParseStatus(v.value).Some?
  }

  /** Every violated path of the schema, in the schema's declaration order. */
  function SchemaErrors(d: Draft): (errs: seq<SchemaError>)
    ensures errs == [] <==>
      RequiredString(d.title) && RequiredString(d.description) && d.dueDate.Some?
      && PriorityAllowed(d.priority) && StatusAllowed(d.status) && d.creatorId.Some?
  {
    (if RequiredString(d.title) then [] else [Required("title")])
    + (if RequiredString(d.description) then [] else [Required("description")])
    + (if d.dueDate.Some? then [] else [Required("dueDate")])
    + (if PriorityAllowed(d.priority) then [] else [NotInEnum("priority")])
    + (if StatusAllowed(d.status) then [] else [NotInEnum("status")])
    + (if d.creatorId.Some? then [] else [Required("creatorId")])
  }

  /**
   * What the store makes of a draft: the record with its defaults and
   * timestamps, or every violated path; a rejected draft is never stored.
   */
  function BuildRecord(d: Draft, id: TaskId, now: nat): (r: Result<Task, seq<SchemaError>>)
    ensures r.Err? <==> SchemaErrors(d) != []
    ensures r.Err? ==> r.error == SchemaErrors(d)
    ensures r.Ok? ==>
      && r.value.id == id
      && Some(r.value.title) == d.title && r.value.title != ""
      && Some(r.value.description) == d.description && r.value.description != ""
      && Some(r.value.dueDate) == d.dueDate
      && Some(r.value.creatorId) == d.creatorId
      && r.value.assignedToId == d.assignedToId
      && (d.priority.None? ==> r.value.priority == Medium)
      && (d.priority.Some? ==> PriorityName(r.value.priority) == d.priority.value)
      && (d.status.None? ==> r.value.status == ToDo)
      && (d.status.Some? ==> StatusName(r.value.status) == d.status.value)
      && r.value.createdAt == now && r.value.updatedAt == now
  {
    var errs := SchemaErrors(d);
    if errs != [] then Err(errs)
    else
      var priority := if d.priority.None? then Medium else ParsePriority(d.priority.value).value;
      var status := if d.status.None? then ToDo else ParseStatus(d.status.value).value;
      Ok(Task(id, d.title.value, d.description.value, d.dueDate.value, priority, status,
              d.creatorId.value, d.assignedToId, now, now))
  }
}
