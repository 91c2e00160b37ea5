/**
 * The server's task handlers (Backend/src/controllers/taskController.ts):
 * the create-body schema, the filtered and sorted read, and the create,
 * update and delete handlers with the replies they send and the change
 * events they push.
 */
module TaskController {
  import opened Wrappers
  import opened TaskModel
  import opened TaskSocket

  /** A JSON value of a request body, as far as the handlers distinguish it. */
  datatype Json = JString(str: string) | JNull | JOther

  /** A request body: the keys present and their values. */
  type Body = map<string, Json>

  /** What a handler sends back: the status code and the JSON payload. */
  datatype Payload =
    | OneTask(task: Task)
    | TaskList(tasks: seq<Task>)
    | IssueList(paths: seq<string>)
    | Message(text: string)
    | ErrorMessage  // the text of an unexpected error, not modelled

  datatype Reply = Reply(code: nat, payload: Payload)

  // ---------------------------------------------------------------------------
  // The create-body schema (`taskSchema`)
  // ---------------------------------------------------------------------------

  /** The create body once it has passed the schema; keys the schema does not name are dropped. */
  datatype CreateInput = CreateInput(
    title: string,
    description: string,
    dueDate: string,
    priority: Priority,
    assignedToId: Option<UserId>)

  /** The keys the schema names. */
  const SchemaKeys: set<string> := {"title", "description", "dueDate", "priority", "assignedToId"}

  /** The string under a key, if the key is present and holds a string. */
  function StringAt(body: Body, key: string): Option<string> {
    if key in body && body[key].JString? then Some(body[key].str) else None
  }

  /** `title`: a string of at least 3 characters. */
  predicate TitleOk(body: Body) {
    StringAt(body, "title").Some? && |StringAt(body, "title").value| >= 3
  }

  /** `priority`: one of the four priority names; there is no default here. */
  predicate PriorityOk(body: Body) {
    StringAt(body, "priority").Some? && ParsePriority(StringAt(body, "priority").value).Some?
  }

  /** `assignedToId`: absent, or a string (a JSON null is not accepted). */
  predicate AssigneeOk(body: Body) {
    "assignedToId" !in body || body["assignedToId"].JString?
  }

  /** The paths the schema rejects, in the order the schema declares them. */
  function Issues(body: Body): seq<string> {
    (if TitleOk(body) then [] else ["title"])
    + (if StringAt(body, "description").Some? then [] else ["description"])
    + (if StringAt(body, "dueDate").Some? then [] else ["dueDate"])
    + (if PriorityOk(body) then [] else ["priority"])
    + (if AssigneeOk(body) then [] else ["assignedToId"])
  }

  /** `taskSchema.parse`: the typed input, or every rejected path. */
  function ParseTaskBody(body: Body): (r: Result<CreateInput, seq<string>>)
    ensures r.Ok? <==>
      TitleOk(body) && StringAt(body, "description").Some? && StringAt(body, "dueDate").Some?
      && PriorityOk(body) && AssigneeOk(body)
    ensures r.Err? ==> r.error == Issues(body) && r.error != []
    ensures r.Ok? ==>
      && Some(r.value.title) == StringAt(body, "title") && |r.value.title| >= 3
      && Some(r.value.description) == StringAt(body, "description")
      && Some(r.value.dueDate) == StringAt(body, "dueDate")
      && Some(PriorityName(r.value.priority)) == StringAt(body, "priority")
      && r.value.assignedToId == StringAt(body, "assignedToId")
  {
    var issues := Issues(body);
    if issues != [] then Err(issues)
    else
      Ok(CreateInput(StringAt(body, "title").value, StringAt(body, "description").value,
                     StringAt(body, "dueDate").value,
                     ParsePriority(StringAt(body, "priority").value).value,
                     StringAt(body, "assignedToId")))
  }

  /**
   * A key the schema does not name, such as `status`, has no effect on the
   * parse: the schema drops it.
   */
  lemma UnknownKeyIgnored(body: Body, key: string, v: Json)
    requires key !in SchemaKeys
    ensures ParseTaskBody(body[key := v]) == ParseTaskBody(body)
  {
    var body' := body[key := v];
    forall k | k in SchemaKeys ensures StringAt(body', k) == StringAt(body, k) {
    }
    assert AssigneeOk(body') == AssigneeOk(body);
  }

  /** The document the handler hands to the store: the parsed input plus the requesting user. */
  function DraftOf(input: CreateInput, user: UserId): Draft {
    Draft(Some(input.title), Some(input.description), Some(input.dueDate),
          Some(PriorityName(input.priority)), None, Some(user), input.assignedToId)
  }

  /**
   * `createTask` before anything is stored: the new record, or the reply that
   * rejects the request. A schema failure is a 400 carrying the issues; a
   * missing user (`req.user` is null) and a record the store refuses (an empty
   * description passes the schema but not the store's `required`) are 500s.
   */
  function NewRecord(body: Body, user: Option<UserId>, id: TaskId, now: nat): (r: Result<Task, Reply>)
    ensures r.Ok? <==>
      ParseTaskBody(body).Ok? && user.Some? && ParseTaskBody(body).value.description != ""
    ensures r.Err? ==> r.error.code == 400 || r.error.code == 500
    ensures r.Err? && ParseTaskBody(body).Err? ==>
      r.error == Reply(400, IssueList(ParseTaskBody(body).error))
    ensures r.Err? && ParseTaskBody(body).Ok? ==> r.error == Reply(500, ErrorMessage)
    ensures r.Ok? ==>
      var input := ParseTaskBody(body).value;
      && r.value.id == id
      && r.value.status == ToDo
      && r.value.creatorId == user.value
      && r.value.title == input.title && r.value.description == input.description
      && r.value.dueDate == input.dueDate && r.value.priority == input.priority
      && r.value.assignedToId == input.assignedToId
      && r.value.createdAt == now && r.value.updatedAt == now
  {
    match ParseTaskBody(body)
    case Err(issues) => Err(Reply(400, IssueList(issues)))
    case Ok(input) =>
      if user.None? then Err(Reply(500, ErrorMessage))
      else
        var built := BuildRecord(DraftOf(input, user.value), id, now);
        if built.Err? then Err(Reply(500, ErrorMessage))
        else
          PriorityNameRoundTrip(input.priority);
          Ok(built.value)
  }

  // ---------------------------------------------------------------------------
  // The read path (`getTasks`)
  // ---------------------------------------------------------------------------

  /** The `status` and `priority` query parameters, when given. */
  datatype Query = Query(status: Option<string>, priority: Option<string>)

  /** No query parameters: the whole collection, as the client's snapshot load asks for it. */
  const AllTasks: Query := Query(None, None)

  /** A parameter constrains the read only when it is a non-empty string. */
  predicate Given(param: Option<string>) {
    param.Some? && param.value != ""
  }

  /** The filter built from the query. */
  predicate Matches(t: Task, q: Query) {
    && (Given(q.status) ==> StatusName(t.status) == q.status.value)
    && (Given(q.priority) ==> PriorityName(t.priority) == q.priority.value)
  }

  /**
   * The store's `find(filter)` followed by the newest-first sort: the matching
   * records with identifiers below `n`, taken from the highest identifier down.
   */
  function Find(store: map<TaskId, Task>, n: nat, q: Query): seq<Task>
    decreases n
  {
    if n == 0 then []
    else
      (if n - 1 in store && Matches(store[n - 1], q) then [store[n - 1]] else [])
      + Find(store, n - 1, q)
  }

  /** Every stored record sits under its own identifier. */
  ghost predicate KeyedById(store: map<TaskId, Task>) {
    forall k :: k in store ==> store[k].id == k
  }

  /**
   * The store's invariant: identifiers below the next one to assign, each
   * record under its own identifier, timestamps taken from the past, and
   * creation times increasing with the identifier.
   */
  ghost predicate StoreOk(store: map<TaskId, Task>, nextId: nat, clock: nat) {
    && KeyedById(store)
    && (forall k :: k in store ==> k < nextId && store[k].createdAt <= store[k].updatedAt < clock)
    && (forall a, b :: a in store && b in store && a < b ==> store[a].createdAt < store[b].createdAt)
  }

  /** Newest first: creation times strictly decrease along the list. */
  ghost predicate NewestFirst(r: seq<Task>) {
    forall i, j :: 0 <= i < j < |r| ==> r[i].createdAt > r[j].createdAt
  }

  /** The read returns exactly the stored records that match the filter. */
  lemma {:induction false} FindMembers(store: map<TaskId, Task>, n: nat, q: Query)
    requires KeyedById(store)
    ensures forall t :: t in Find(store, n, q) <==>
      t.id < n && t.id in store && store[t.id] == t && Matches(t, q)
  {
    if n > 0 {
      FindMembers(store, n - 1, q);
    }
  }

  /** Identifiers strictly decrease along the list. */
  ghost predicate IdsDescending(r: seq<Task>) {
    forall i, j :: 0 <= i < j < |r| ==> r[i].id > r[j].id
  }

  /** Every identifier in the list is below `n`. */
  ghost predicate IdsBelow(r: seq<Task>, n: nat) {
    forall i :: 0 <= i < |r| ==> r[i].id < n
  }

  /** A record in front of a downward list of smaller identifiers keeps it downward. */
  lemma ConsIdsDescending(x: Task, rest: seq<Task>)
    requires IdsDescending(rest) && IdsBelow(rest, x.id)
    ensures IdsDescending([x] + rest) && IdsBelow([x] + rest, x.id + 1)
  {
    var r := [x] + rest;
    forall i, j | 0 <= i < j < |r| ensures r[i].id > r[j].id {
      assert r[j] == rest[j - 1];
      if i > 0 {
        assert r[i] == rest[i - 1];
      }
    }
  }

  /** The read lists identifiers strictly downward, all below `n`. */
  lemma {:induction false} FindIdsDescending(store: map<TaskId, Task>, n: nat, q: Query)
    requires KeyedById(store)
    ensures IdsDescending(Find(store, n, q)) && IdsBelow(Find(store, n, q), n)
  {
    if n > 0 {
      FindIdsDescending(store, n - 1, q);
      var rest := Find(store, n - 1, q);
      var r := Find(store, n, q);
      if n - 1 in store && Matches(store[n - 1], q) {
        assert r == [store[n - 1]] + rest;
        ConsIdsDescending(store[n - 1], rest);
      } else {
        assert r == rest;
        assert IdsBelow(rest, n);
      }
    }
  }

  /** On a store that keeps its invariant, the read is sorted newest first. */
  lemma FindNewestFirst(store: map<TaskId, Task>, nextId: nat, clock: nat, q: Query)
    requires StoreOk(store, nextId, clock)
    ensures NewestFirst(Find(store, nextId, q))
  {
    var r := Find(store, nextId, q);
    FindIdsDescending(store, nextId, q);
    FindMembers(store, nextId, q);
    forall i, j | 0 <= i < j < |r| ensures r[i].createdAt > r[j].createdAt {
      assert r[i] in r && r[j] in r;
    }
  }

  lemma HeadIsMember(s: seq<Task>)
    ensures s != [] ==> s[0] in s
  {
  }

  /** The head of a newest-first list is its newest element, and the only one that new. */
  lemma HeadIsNewest(s: seq<Task>, x: Task)
    requires NewestFirst(s) && x in s
    ensures x.createdAt <= s[0].createdAt
    ensures x.createdAt == s[0].createdAt ==> x == s[0]
  {
    var i :| 0 <= i < |s| && s[i] == x;
    if i > 0 {
      assert s[0].createdAt > s[i].createdAt;
    }
  }

  /** Past the head of a newest-first list lie exactly its other elements. */
  lemma TailMembers(s: seq<Task>, x: Task)
    requires NewestFirst(s) && s != []
    ensures x in s[1..] <==> x in s && x != s[0]
  {
    if x in s[1..] {
      var i :| 1 <= i < |s| && s[i] == x;
      assert s[0].createdAt > s[i].createdAt;
    }
    if x in s && x != s[0] {
      var i :| 0 <= i < |s| && s[i] == x;
      assert s[1..][i - 1] == x;
    }
  }

  /**
   * Newest first with the same members determines the list: there is one
   * newest-first listing of a set of records with distinct creation times.
   */
  lemma {:induction false} NewestFirstIsUnique(a: seq<Task>, b: seq<Task>)
    requires NewestFirst(a) && NewestFirst(b)
    requires forall t :: t in a <==> t in b
    ensures a == b
  {
    if a != [] && b != [] {
      HeadIsNewest(b, a[0]);
      HeadIsNewest(a, b[0]);
      forall t ensures t in a[1..] <==> t in b[1..] {
        TailMembers(a, t);
        TailMembers(b, t);
      }
      NewestFirstIsUnique(a[1..], b[1..]);
      assert a == [a[0]] + a[1..] && b == [b[0]] + b[1..];
    } else {
      HeadIsMember(a);
      HeadIsMember(b);
    }
  }

  /** The read depends only on the records below `n`. */
  lemma {:induction false} FindFrame(s1: map<TaskId, Task>, s2: map<TaskId, Task>, n: nat, q: Query)
    requires forall k :: k < n ==> (k in s1 <==> k in s2)
    requires forall k :: k < n && k in s1 ==> s1[k] == s2[k]
    ensures Find(s1, n, q) == Find(s2, n, q)
  {
    if n > 0 {
      FindFrame(s1, s2, n - 1, q);
    }
  }

  // ---------------------------------------------------------------------------
  // The update body (`updateTask` applies it as it comes)
  // ---------------------------------------------------------------------------

  /**
   * The fields an update body may carry. For `assignedToId`, Some(None) is a
   * JSON null that clears the assignee.
   */
  datatype Patch = Patch(
    title: Option<string>,
    description: Option<string>,
    dueDate: Option<string>,
    priority: Option<Priority>,
    status: Option<Status>,
    creatorId: Option<UserId>,
    assignedToId: Option<Option<UserId>>)

  function Pick<T>(given: Option<T>, current: T): T {
    if given.Some? then given.value else current
  }

  /**
   * `findByIdAndUpdate(id, updates, {new: true})`: the fields present in the
   * body overwrite the record, with no validation, and the store refreshes
   * `updatedAt`; everything else is kept.
   */
  function ApplyPatch(t: Task, p: Patch, now: nat): (r: Task)
    ensures r.id == t.id && r.createdAt == t.createdAt && r.updatedAt == now
    ensures p.title.Some? ==> r.title == p.title.value
    ensures p.title.None? ==> r.title == t.title
    ensures p.description.Some? ==> r.description == p.description.value
    ensures p.description.None? ==> r.description == t.description
    ensures p.dueDate.Some? ==> r.dueDate == p.dueDate.value
    ensures p.dueDate.None? ==> r.dueDate == t.dueDate
    ensures p.priority.Some? ==> r.priority == p.priority.value
    ensures p.priority.None? ==> r.priority == t.priority
    ensures p.status.Some? ==> r.status == p.status.value
    ensures p.status.None? ==> r.status == t.status
    ensures p.creatorId.Some? ==> r.creatorId == p.creatorId.value
    ensures p.creatorId.None? ==> r.creatorId == t.creatorId
    ensures p.assignedToId.Some? ==> r.assignedToId == p.assignedToId.value
    ensures p.assignedToId.None? ==> r.assignedToId == t.assignedToId
  {
    t.(title := Pick(p.title, t.title),
       description := Pick(p.description, t.description),
       dueDate := Pick(p.dueDate, t.dueDate),
       priority := Pick(p.priority, t.priority),
       status := Pick(p.status, t.status),
       creatorId := Pick(p.creatorId, t.creatorId),
       assignedToId := Pick(p.assignedToId, t.assignedToId),
       updatedAt := now)
  }

  /** Field by field, the later body's value where it has one. */
  function Merge(first: Patch, second: Patch): Patch {
    Patch(
      if second.title.Some? then second.title else first.title,
      if second.description.Some? then second.description else first.description,
      if second.dueDate.Some? then second.dueDate else first.dueDate,
      if second.priority.Some? then second.priority else first.priority,
      if second.status.Some? then second.status else first.status,
      if second.creatorId.Some? then second.creatorId else first.creatorId,
      if second.assignedToId.Some? then second.assignedToId else first.assignedToId)
  }

  /** Field by field, the later body's value where it has one, across a run of bodies. */
  function MergeAll(patches: seq<Patch>): Patch
    decreases |patches|
  {
    if patches == [] then Patch(None, None, None, None, None, None, None)
    else Merge(MergeAll(patches[..|patches| - 1]), patches[|patches| - 1])
  }

  /** A run of updates on one record, the k-th applied at clock reading `start + k`. */
  function ApplyPatches(t: Task, patches: seq<Patch>, start: nat): Task
    decreases |patches|
  {
    if patches == [] then t
    else ApplyPatch(ApplyPatches(t, patches[..|patches| - 1], start), patches[|patches| - 1],
                    start + |patches| - 1)
  }

  /**
   * Last writer wins: a run of updates leaves each field with the value of
   * the last body that carried it, as one merged update would.
   */
  lemma {:induction false} LastWriterWins(t: Task, patches: seq<Patch>, start: nat)
    requires patches != []
    ensures ApplyPatches(t, patches, start) == ApplyPatch(t, MergeAll(patches), start + |patches| - 1)
  {
    var n := |patches|;
    var init := patches[..n - 1];
    if init != [] {
      LastWriterWins(t, init, start);
    } else {
      assert MergeAll(init) == Patch(None, None, None, None, None, None, None);
    }
  }

  // ---------------------------------------------------------------------------
  // How each mutation moves the store, and how its event moves a client's list
  // ---------------------------------------------------------------------------

  /** A create stores a record under the next identifier; `task:created` prepends it. */
  lemma CreatedKeepsClientInStep(store: map<TaskId, Task>, n: nat, t: Task)
    requires forall k :: k in store ==> k < n
    requires t.id == n
    ensures Find(store[n := t], n + 1, AllTasks) == Apply(Find(store, n, AllTasks), Created(t))
  {
    FindFrame(store[n := t], store, n, AllTasks);
  }

  /** The unfiltered read takes every stored record. */
  lemma MatchesAllTasks(t: Task)
    ensures Matches(t, AllTasks)
  {
  }

  /**
   * Each parameter constrains the read on its own: an absent or empty one not
   * at all, a given one to the records whose field has exactly that name.
   */
  lemma MatchesParams(t: Task, q: Query)
    ensures Matches(t, q) <==>
      && (!Given(q.status) || ParseStatus(q.status.value) == Some(t.status))
      && (!Given(q.priority) || ParsePriority(q.priority.value) == Some(t.priority))
  {
    StatusNameRoundTrip(t.status);
    PriorityNameRoundTrip(t.priority);
  }

  /** An update rewrites one stored record; `task:updated` replaces it in place. */
  lemma {:induction false} UpdatedKeepsClientInStep(store: map<TaskId, Task>, n: nat, t: Task)
    requires KeyedById(store) && t.id in store
    ensures Find(store[t.id := t], n, AllTasks) == Apply(Find(store, n, AllTasks), Updated(t))
  {
    if n > 0 {
      var k := n - 1;
      var after := store[t.id := t];
      UpdatedKeepsClientInStep(store, k, t);
      var rest := Find(store, k, AllTasks);
      if k in store {
        MatchesAllTasks(store[k]);
        MatchesAllTasks(after[k]);
        assert Find(store, n, AllTasks) == [store[k]] + rest;
        assert Find(after, n, AllTasks) == [after[k]] + Find(after, k, AllTasks);
        assert ReplaceById([store[k]], t) == [after[k]];
        ReplaceByIdSplits([store[k]], rest, t);
      } else {
        assert Find(store, n, AllTasks) == rest;
        assert Find(after, n, AllTasks) == Find(after, k, AllTasks);
      }
    }
  }

  /** A delete drops the record if stored; `task:deleted` filters it out. */
  lemma {:induction false} DeletedKeepsClientInStep(store: map<TaskId, Task>, n: nat, id: TaskId)
    requires KeyedById(store)
    ensures Find(store - {id}, n, AllTasks) == Apply(Find(store, n, AllTasks), Deleted(id))
  {
    if n > 0 {
      DeletedKeepsClientInStep(store, n - 1, id);
      DeletedStep(store, n, id);
    }
  }

  /** One step of the above: the record under `n - 1` is dropped exactly when it is the deleted id. */
  lemma DeletedStep(store: map<TaskId, Task>, n: nat, id: TaskId)
    requires KeyedById(store) && n > 0
    requires Find(store - {id}, n - 1, AllTasks) == Apply(Find(store, n - 1, AllTasks), Deleted(id))
    ensures Find(store - {id}, n, AllTasks) == Apply(Find(store, n, AllTasks), Deleted(id))
  {
    var k := n - 1;
    var after := store - {id};
    var rest := Find(store, k, AllTasks);
    var rest' := Find(after, k, AllTasks);
    if k in store {
      var x := store[k];
      MatchesAllTasks(x);
      assert Find(store, n, AllTasks) == [x] + rest;
      RemoveByIdCons(x, rest, id);
      if k == id {
        assert k !in after;
        assert Find(after, n, AllTasks) == rest';
      } else {
        assert k in after && after[k] == x;
        assert Find(after, n, AllTasks) == [x] + rest';
      }
    } else {
      assert k !in after;
      assert Find(store, n, AllTasks) == rest;
      assert Find(after, n, AllTasks) == rest';
    }
  }

  /** Each snapshot is the previous one with its event applied. */
  ghost predicate InStep(snapshots: seq<seq<Task>>, events: seq<Event>) {
    && |snapshots| == |events| + 1
    && forall j :: 0 <= j < |events| ==> Apply(snapshots[j], events[j]) == snapshots[j + 1]
  }

  /** Logging an event together with the snapshot it leads to keeps the log in step. */
  lemma ExtendLog(snapshots: seq<seq<Task>>, events: seq<Event>, e: Event, next: seq<Task>)
    requires InStep(snapshots, events)
    requires Apply(snapshots[|events|], e) == next
    ensures InStep(snapshots + [next], events + [e])
  {
    var s', e' := snapshots + [next], events + [e];
    forall j | 0 <= j < |e'| ensures Apply(s'[j], e'[j]) == s'[j + 1] {
      if j < |events| {
        assert s'[j] == snapshots[j] && s'[j + 1] == snapshots[j + 1] && e'[j] == events[j];
      }
    }
  }

  /** Dropping a record keeps the store's invariant. */
  lemma StoreOkWithout(store: map<TaskId, Task>, nextId: nat, clock: nat, id: TaskId)
    requires StoreOk(store, nextId, clock)
    ensures StoreOk(store - {id}, nextId, clock)
  {
  }

  /** Storing a record created now under the next identifier keeps the store's invariant. */
  lemma StoreOkWithNew(store: map<TaskId, Task>, nextId: nat, clock: nat, t: Task)
    requires StoreOk(store, nextId, clock)
    requires t.id == nextId && t.createdAt == clock && t.updatedAt == clock
    ensures StoreOk(store[nextId := t], nextId + 1, clock + 1)
  {
  }

  /** Rewriting a record, keeping its identifier and creation time, keeps the store's invariant. */
  lemma StoreOkWithUpdate(store: map<TaskId, Task>, nextId: nat, clock: nat, t: Task)
    requires StoreOk(store, nextId, clock) && t.id in store
    requires t.createdAt == store[t.id].createdAt && t.updatedAt == clock
    ensures StoreOk(store[t.id := t], nextId, clock + 1)
  {
  }

  /**
   * The server's invariant over its state: the store keeps its invariant, and
   * the snapshot history follows the event log up to the current unfiltered read.
   */
  ghost predicate ServerOk(
    store: map<TaskId, Task>, nextId: nat, clock: nat, events: seq<Event>, snapshots: seq<seq<Task>>)
  {
    && StoreOk(store, nextId, clock)
    && InStep(snapshots, events)
    && snapshots[|events|] == Find(store, nextId, AllTasks)
  }

  /** Storing a new record and logging `task:created` keeps the server's invariant. */
  lemma ServerOkAfterCreate(
    store: map<TaskId, Task>, nextId: nat, clock: nat, events: seq<Event>, snapshots: seq<seq<Task>>, t: Task)
    requires ServerOk(store, nextId, clock, events, snapshots)
    requires t.id == nextId && t.createdAt == clock && t.updatedAt == clock
    ensures var store' := store[nextId := t];
      ServerOk(store', nextId + 1, clock + 1, events + [Created(t)],
        snapshots + [Find(store', nextId + 1, AllTasks)])
  {
    CreatedKeepsClientInStep(store, nextId, t);
    ExtendLog(snapshots, events, Created(t), Find(store[nextId := t], nextId + 1, AllTasks));
    StoreOkWithNew(store, nextId, clock, t);
  }

  /** Rewriting a stored record and logging `task:updated` keeps the server's invariant. */
  lemma ServerOkAfterUpdate(
    store: map<TaskId, Task>, nextId: nat, clock: nat, events: seq<Event>, snapshots: seq<seq<Task>>, t: Task)
    requires ServerOk(store, nextId, clock, events, snapshots) && t.id in store
    requires t.createdAt == store[t.id].createdAt && t.updatedAt == clock
    ensures var store' := store[t.id := t];
      ServerOk(store', nextId, clock + 1, events + [Updated(t)],
        snapshots + [Find(store', nextId, AllTasks)])
  {
    UpdatedKeepsClientInStep(store, nextId, t);
    ExtendLog(snapshots, events, Updated(t), Find(store[t.id := t], nextId, AllTasks));
    StoreOkWithUpdate(store, nextId, clock, t);
  }

  /** Dropping an identifier and logging `task:deleted` keeps the server's invariant. */
  lemma ServerOkAfterDelete(
    store: map<TaskId, Task>, nextId: nat, clock: nat, events: seq<Event>, snapshots: seq<seq<Task>>, id: TaskId)
    requires ServerOk(store, nextId, clock, events, snapshots)
    ensures var store' := store - {id};
      ServerOk(store', nextId, clock, events + [Deleted(id)],
        snapshots + [Find(store', nextId, AllTasks)])
  {
    DeletedKeepsClientInStep(store, nextId, id);
    ExtendLog(snapshots, events, Deleted(id), Find(store - {id}, nextId, AllTasks));
    StoreOkWithout(store, nextId, clock, id);
  }

  // ---------------------------------------------------------------------------
  // The handlers over the store and the event channel
  // ---------------------------------------------------------------------------

  /**
   * The task collection behind the handlers, with the log of every event
   * pushed on the channel. `snapshots[k]` is the full read after the first
   * `k` events; the invariant says that each event turns one into the next
   * on a client.
   */
  class TaskServer {
    var tasks: map<TaskId, Task>
    var nextId: nat
    var clock: nat
    var events: seq<Event>
    ghost var snapshots: seq<seq<Task>>

    ghost predicate Valid()
      reads this
    {
      ServerOk(tasks, nextId, clock, events, snapshots)
    }

    constructor ()
      ensures Valid()
      ensures tasks == map[] && events == [] && nextId == 0 && clock == 0
      ensures snapshots == [[]]
    {
      tasks := map[];
      nextId := 0;
      clock := 0;
      events := [];
      snapshots := [[]];
    }

    /**
     * `getTasks`: a 200 listing exactly the stored records that match the
     * query, newest first.
     */
    function GetTasks(q: Query): (reply: Reply)
      reads this
      requires Valid()
      ensures reply.code == 200 && reply.payload.TaskList?
      ensures forall t :: t in reply.payload.tasks <==> t in tasks.Values && Matches(t, q)
      ensures NewestFirst(reply.payload.tasks)
    {
      FindMembers(tasks, nextId, q);
      FindNewestFirst(tasks, nextId, clock, q);
      Reply(200, TaskList(Find(tasks, nextId, q)))
    }

    /**
     * `createTask`: on success the record is stored under a fresh identifier,
     * exactly one `task:created` carrying it is pushed, and the reply is a 201
     * with the same record; a rejected request stores and pushes nothing.
     */
    method CreateTask(user: Option<UserId>, body: Body) returns (reply: Reply)
      requires Valid()
      modifies this
      ensures Valid()
      ensures var r := NewRecord(body, user, old(nextId), old(clock));
        if r.Ok? then
          && reply == Reply(201, OneTask(r.value))
          && r.value.id !in old(tasks)
          && tasks == old(tasks)[r.value.id := r.value]
          && events == old(events) + [Created(r.value)]
          && nextId == old(nextId) + 1 && clock == old(clock) + 1
          && snapshots == old(snapshots) + [Find(tasks, nextId, AllTasks)]
        else
          && reply == r.error
          && tasks == old(tasks) && events == old(events)
          && nextId == old(nextId) && clock == old(clock)
          && snapshots == old(snapshots)
    {
      var r := NewRecord(body, user, nextId, clock);
      if r.Ok? {
        Insert(r.value);
        reply := Reply(201, OneTask(r.value));
      } else {
        reply := r.error;
      }
    }

    /**
     * `Task.create` followed by the `task:created` emit: the record is stored
     * under the next identifier and exactly one event is logged.
     */
    method Insert(t: Task)
      requires Valid()
      requires t.id == nextId && t.createdAt == clock && t.updatedAt == clock
      modifies this
      ensures Valid()
      ensures t.id !in old(tasks) && tasks == old(tasks)[t.id := t]
      ensures events == old(events) + [Created(t)]
      ensures nextId == old(nextId) + 1 && clock == old(clock) + 1
      ensures snapshots == old(snapshots) + [Find(tasks, nextId, AllTasks)]
    {
      ServerOkAfterCreate(tasks, nextId, clock, events, snapshots, t);
      tasks := tasks[t.id := t];
      nextId := nextId + 1;
      clock := clock + 1;
      events := events + [Created(t)];
      snapshots := snapshots + [Find(tasks, nextId, AllTasks)];
    }

    /**
     * `updateTask`: an unknown identifier is a 404 that pushes nothing; a
     * known one gets the body's fields, one `task:updated` with the whole new
     * record, and a 200 with that record. No other record changes.
     */
    method UpdateTask(id: TaskId, patch: Patch) returns (reply: Reply)
      requires Valid()
      modifies this
      ensures Valid()
      ensures nextId == old(nextId)
      ensures id !in old(tasks) ==>
        && reply == Reply(404, Message("Task not found"))
        && tasks == old(tasks) && events == old(events) && clock == old(clock)
        && snapshots == old(snapshots)
      ensures id in old(tasks) ==>
        var t := ApplyPatch(old(tasks)[id], patch, old(clock));
        && reply == Reply(200, OneTask(t))
        && tasks == old(tasks)[id := t]
        && events == old(events) + [Updated(t)]
        && clock == old(clock) + 1
        && snapshots == old(snapshots) + [Find(tasks, nextId, AllTasks)]
    {
      if id !in tasks {
        reply := Reply(404, Message("Task not found"));
        return;
      }
      var t := ApplyPatch(tasks[id], patch, clock);
      ServerOkAfterUpdate(tasks, nextId, clock, events, snapshots, t);
      tasks := tasks[id := t];
      clock := clock + 1;
      events := events + [Updated(t)];
      snapshots := snapshots + [Find(tasks, nextId, AllTasks)];
      reply := Reply(200, OneTask(t));
    }

    /**
     * `deleteTask`: the record goes if it was stored, and whether or not it
     * was, one `task:deleted` with the identifier is pushed and the reply is
     * a 200 "Task deleted".
     */
    method DeleteTask(id: TaskId) returns (reply: Reply)
      requires Valid()
      modifies this
      ensures Valid()
      ensures reply == Reply(200, Message("Task deleted"))
      ensures tasks == old(tasks) - {id}
      ensures events == old(events) + [Deleted(id)]
      ensures nextId == old(nextId) && clock == old(clock)
      ensures snapshots == old(snapshots) + [Find(tasks, nextId, AllTasks)]
    {
      ServerOkAfterDelete(tasks, nextId, clock, events, snapshots, id);
      tasks := tasks - {id};
      events := events + [Deleted(id)];
      snapshots := snapshots + [Find(tasks, nextId, AllTasks)];
      reply := Reply(200, Message("Task deleted"));
    }

    /**
     * A client that loaded the full read after the first `k` events and then
     * received every later event, in order, holds the current full read.
     */
    lemma ClientCatchesUp(k: nat)
      requires Valid() && k <= |events|
      ensures ApplyAll(snapshots[k], events[k..]) == GetTasks(AllTasks).payload.tasks
    {
      ReplayLog(snapshots, events, k);
    }

    /**
     * The same in terms of the reads themselves: across any run of handler
     * calls (each of which only appends to the history), a client that loaded
     * the full read before the run and applies the events pushed during it
     * holds the full read after it.
     */
    twostate lemma CatchesUpSince()
      requires old(Valid()) && Valid()
      requires old(snapshots) <= snapshots
      ensures ApplyAll(old(GetTasks(AllTasks).payload.tasks), events[old(|events|)..])
        == GetTasks(AllTasks).payload.tasks
    {
      var k := old(|events|);
      assert snapshots[k] == old(snapshots)[k];
      ClientCatchesUp(k);
    }
  }

  /**
   * A client loads the full read, then a delete and an update are handled:
   * applying the events they pushed brings the client to the new full read.
   */
  method DeleteThenUpdateCatchesUp(server: TaskServer, gone: TaskId, id: TaskId, patch: Patch)
    requires server.Valid()
    modifies server
    ensures server.Valid() && old(|server.events|) <= |server.events|
    ensures ApplyAll(old(server.GetTasks(AllTasks).payload.tasks), server.events[old(|server.events|)..])
      == server.GetTasks(AllTasks).payload.tasks
  {
    var loaded, k := server.GetTasks(AllTasks).payload.tasks, |server.events|;
    var _ := server.DeleteTask(gone);
    var _ := server.UpdateTask(id, patch);
    server.CatchesUpSince();
    assert ApplyAll(loaded, server.events[k..]) == server.GetTasks(AllTasks).payload.tasks;
  }
}
