/**
 * The client reconciler (frontend/src/hooks/useTaskSocket.ts): the change
 * events pushed by the server, the three list transforms that fold them into
 * the local list, and the hook's `tasks`/`loading` state.
 */
module TaskSocket {
  import opened Wrappers
  import opened TaskModel

  /** A change event as pushed on the socket channel. */
  datatype Event = Created(task: Task) | Updated(task: Task) | Deleted(id: TaskId)

  /** `handleTaskCreated`: the new task is spread in front of the list, with no check for its id. */
  function Prepend(view: seq<Task>, t: Task): (r: seq<Task>)
    ensures |r| == |view| + 1 && r[0] == t && r[1..] == view
  {
    [t] + view
  }

  /** `handleTaskUpdated`: every element carrying the task's id is replaced by it. */
  function ReplaceById(view: seq<Task>, t: Task): (r: seq<Task>)
    ensures |r| == |view|
    ensures forall i :: 0 <= i < |view| ==> r[i] == if view[i].id == t.id then t else view[i]
  {
    if view == [] then []
    else [if view[0].id == t.id then t else view[0]] + ReplaceById(view[1..], t)
  }

  /** `handleTaskDeleted`: the elements carrying the id are filtered out. */
  function RemoveById(view: seq<Task>, id: TaskId): (r: seq<Task>)
    ensures |r| <= |view|
  {
    if view == [] then []
    else (if view[0].id == id then [] else [view[0]]) + RemoveById(view[1..], id)
  }

  /** The deletion keeps exactly the elements that do not carry the id. */
  lemma {:induction false} RemoveByIdMembers(view: seq<Task>, id: TaskId)
    ensures forall x :: x in RemoveById(view, id) <==> x in view && x.id != id
  {
    if view != [] {
      RemoveByIdMembers(view[1..], id);
      assert view == [view[0]] + view[1..];
    }
  }

  /** The handler the listener for an event's name runs on the local list. */
  function Apply(view: seq<Task>, e: Event): seq<Task> {
    match e
    case Created(t) => Prepend(view, t)
    case Updated(t) => ReplaceById(view, t)
    case Deleted(id) => RemoveById(view, id)
  }

  /** The local list after a stream of events, delivered in order. */
  function ApplyAll(view: seq<Task>, events: seq<Event>): seq<Task>
    decreases |events|
  {
    if events == [] then view else ApplyAll(Apply(view, events[0]), events[1..])
  }

  /** How many elements of the list carry the id. */
  function CountId(view: seq<Task>, id: TaskId): nat {
    if view == [] then 0 else (if view[0].id == id then 1 else 0) + CountId(view[1..], id)
  }

  /** No two elements of the list carry the same id. */
  ghost predicate UniqueIds(view: seq<Task>) {
    forall i, j :: 0 <= i < j < |view| ==> view[i].id != view[j].id
  }

  /**
   * Delivering the same `task:created` twice leaves two more elements with the
   * task's id: the prepend does not deduplicate.
   */
  lemma CreatedIsNotDeduplicated(view: seq<Task>, t: Task)
    ensures var twice := Apply(Apply(view, Created(t)), Created(t));
      |twice| == |view| + 2 && twice[0] == t && twice[1] == t && twice[2..] == view
      && CountId(twice, t.id) == CountId(view, t.id) + 2
  {
    var twice := Apply(Apply(view, Created(t)), Created(t));
    assert twice == [t, t] + view;
    assert twice[1..] == [t] + view;
    assert ([t] + view)[1..] == view;
  }

  /** So a duplicated `task:created` breaks a list whose ids were unique. */
  lemma CreatedTwiceBreaksUniqueIds(view: seq<Task>, t: Task)
    ensures !UniqueIds(Apply(Apply(view, Created(t)), Created(t)))
  {
    var twice := Apply(Apply(view, Created(t)), Created(t));
    assert twice[0].id == twice[1].id;
  }

  /** Replacing by id splits over concatenation. */
  lemma ReplaceByIdSplits(a: seq<Task>, b: seq<Task>, t: Task)
    ensures ReplaceById(a + b, t) == ReplaceById(a, t) + ReplaceById(b, t)
  {
    var lhs, rhs := ReplaceById(a + b, t), ReplaceById(a, t) + ReplaceById(b, t);
    assert |lhs| == |rhs|;
    forall i | 0 <= i < |lhs| ensures lhs[i] == rhs[i] {
      if i < |a| {
        assert (a + b)[i] == a[i];
      } else {
        assert (a + b)[i] == b[i - |a|];
      }
    }
  }

  /** `task:updated` for an id that is not in the list leaves the list as it was. */
  lemma {:induction false} UpdatedAbsentIsNoOp(view: seq<Task>, t: Task)
    requires forall x :: x in view ==> x.id != t.id
    ensures ReplaceById(view, t) == view
  {
    if view != [] {
      UpdatedAbsentIsNoOp(view[1..], t);
    }
  }

  /** Applying the same `task:updated` twice equals applying it once. */
  lemma {:induction false} UpdatedIsIdempotent(view: seq<Task>, t: Task)
    ensures ReplaceById(ReplaceById(view, t), t) == ReplaceById(view, t)
  {
    if view != [] {
      UpdatedIsIdempotent(view[1..], t);
      assert ReplaceById(view, t)[1..] == ReplaceById(view[1..], t);
    }
  }

  /** The list after a deletion keeps the surviving elements' order: it splits over concatenation. */
  lemma {:induction false} RemoveByIdSplits(a: seq<Task>, b: seq<Task>, id: TaskId)
    ensures RemoveById(a + b, id) == RemoveById(a, id) + RemoveById(b, id)
  {
    if a == [] {
      assert a + b == b;
    } else {
      var x, tail := a[0], a[1..];
      var head := if x.id == id then [] else [x];
      calc {
        RemoveById(a + b, id);
        == { assert a + b == [x] + (tail + b); RemoveByIdCons(x, tail + b, id); }
        head + RemoveById(tail + b, id);
        == { RemoveByIdSplits(tail, b, id); }
        head + (RemoveById(tail, id) + RemoveById(b, id));
        == { assert a == [x] + tail; RemoveByIdCons(x, tail, id); }
        RemoveById(a, id) + RemoveById(b, id);
      }
    }
  }

  /** Deleting from a list with a known head: the head goes exactly when it carries the id. */
  lemma RemoveByIdCons(x: Task, rest: seq<Task>, id: TaskId)
    ensures RemoveById([x] + rest, id) == (if x.id == id then [] else [x]) + RemoveById(rest, id)
  {
    assert ([x] + rest)[1..] == rest;
  }

  /**
   * The element at index `i` survives a deletion of another id at the index
   * given by the survivors before it, so survivors keep their relative order.
   */
  lemma RemoveByIdKeepsOrder(view: seq<Task>, id: TaskId, i: nat)
    requires i < |view| && view[i].id != id
    ensures var r := RemoveById(view, id);
      |RemoveById(view[..i], id)| < |r| && r[|RemoveById(view[..i], id)|] == view[i]
  {
    assert view == view[..i] + view[i..];
    RemoveByIdSplits(view[..i], view[i..], id);
    assert RemoveById(view[i..], id)[0] == view[i];
  }

  /** A later survivor lands strictly after an earlier one. */
  lemma RemoveByIdPrefixGrows(view: seq<Task>, id: TaskId, i: nat, j: nat)
    requires i < j <= |view| && view[i].id != id
    ensures |RemoveById(view[..i], id)| < |RemoveById(view[..j], id)|
  {
    assert view[..j] == view[..i] + view[i..j];
    RemoveByIdSplits(view[..i], view[i..j], id);
    assert view[i..j] == [view[i]] + view[i + 1..j];
    RemoveByIdCons(view[i], view[i + 1..j], id);
  }

  /** Applying the same `task:deleted` twice equals applying it once. */
  lemma {:induction false} DeletedIsIdempotent(view: seq<Task>, id: TaskId)
    ensures RemoveById(RemoveById(view, id), id) == RemoveById(view, id)
  {
    if view != [] {
      DeletedIsIdempotent(view[1..], id);
      var rest := RemoveById(view[1..], id);
      if view[0].id != id {
        assert RemoveById(view, id) == [view[0]] + rest;
        assert ([view[0]] + rest)[1..] == rest;
      } else {
        assert RemoveById(view, id) == rest;
      }
    }
  }

  /** `task:deleted` for an id that is not in the list leaves the list as it was. */
  lemma {:induction false} DeletedAbsentIsNoOp(view: seq<Task>, id: TaskId)
    requires forall x :: x in view ==> x.id != id
    ensures RemoveById(view, id) == view
  {
    if view != [] {
      DeletedAbsentIsNoOp(view[1..], id);
    }
  }

  /** `task:updated` followed by `task:deleted` for the same id is the deletion alone. */
  lemma {:induction false} UpdatedThenDeleted(view: seq<Task>, t: Task)
    ensures RemoveById(ReplaceById(view, t), t.id) == RemoveById(view, t.id)
  {
    if view != [] {
      UpdatedThenDeleted(view[1..], t);
      assert ReplaceById(view, t)[1..] == ReplaceById(view[1..], t);
    }
  }

  /**
   * A list is kept in step with a log of events: when each snapshot is the
   * previous one with its event applied, replaying the log from any snapshot
   * reaches the last one.
   */
  lemma {:induction false} ReplayLog(snapshots: seq<seq<Task>>, events: seq<Event>, k: nat)
    requires |snapshots| == |events| + 1 && k <= |events|
    requires forall j :: 0 <= j < |events| ==> Apply(snapshots[j], events[j]) == snapshots[j + 1]
    ensures ApplyAll(snapshots[k], events[k..]) == snapshots[|events|]
    decreases |events| - k
  {
    if k < |events| {
      assert events[k..][0] == events[k];
      assert events[k..][1..] == events[k + 1..];
      ReplayLog(snapshots, events, k + 1);
    }
  }

  /** The hook's state: the local list and whether the first load is still pending. */
  class Reconciler {
    var tasks: seq<Task>
    var loading: bool

    /** `useState([])` and `useState(true)`. */
    constructor ()
      ensures tasks == [] && loading
    {
      tasks := [];
      loading := true;
    }

    /**
     * `fetchTasks`: a fetched list replaces the local one wholesale; a failed
     * fetch (None) leaves it as it was; either way loading ends.
     */
    method LoadSnapshot(fetched: Option<seq<Task>>)
      modifies this
      ensures tasks == (if fetched.Some? then fetched.value else old(tasks))
      ensures !loading
    {
      if fetched.Some? {
        tasks := fetched.value;
      }
      loading := false;
    }

    /** The listener for `task:created`. */
    method OnCreated(t: Task)
      modifies this`tasks
      ensures tasks == Prepend(old(tasks), t)
      ensures tasks[0] == t && tasks[1..] == old(tasks)
    {
      tasks := Prepend(tasks, t);
    }

    /** The listener for `task:updated`. */
    method OnUpdated(t: Task)
      modifies this`tasks
      ensures tasks == ReplaceById(old(tasks), t)
      ensures |tasks| == |old(tasks)|
    {
      tasks := ReplaceById(tasks, t);
    }

    /** The listener for `task:deleted`. */
    method OnDeleted(id: TaskId)
      modifies this`tasks
      ensures tasks == RemoveById(old(tasks), id)
      ensures forall x :: x in tasks ==> x.id != id
    {
      RemoveByIdMembers(tasks, id);
      tasks := RemoveById(tasks, id);
    }

    /** Whichever listener the event's name selects. */
    method OnEvent(e: Event)
      modifies this`tasks
      ensures tasks == Apply(old(tasks), e)
    {
      match e
      case Created(t) => OnCreated(t);
      case Updated(t) => OnUpdated(t);
      case Deleted(id) => OnDeleted(id);
    }
  }
}
