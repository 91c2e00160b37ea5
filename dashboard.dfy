/**
 * The board page (frontend/src/pages/Dashboard.tsx): the client's list split
 * into one column per status, each with its count and, when empty, its
 * placeholder.
 */
module Dashboard {
  import opened Wrappers
  import opened TaskModel

  /** `getTasksByStatus`: the tasks in the given status, in list order. */
  function TasksByStatus(tasks: seq<Task>, s: Status): (r: seq<Task>)
    ensures |r| <= |tasks|
    ensures forall x :: x in r <==> x in tasks && x.status == s
  {
    if tasks == [] then []
    else (if tasks[0].status == s then [tasks[0]] else []) + TasksByStatus(tasks[1..], s)
  }

  /** Selecting by status splits over concatenation. */
  lemma {:induction false} TasksByStatusSplits(a: seq<Task>, b: seq<Task>, s: Status)
    ensures TasksByStatus(a + b, s) == TasksByStatus(a, s) + TasksByStatus(b, s)
  {
    if a == [] {
      assert a + b == b;
    } else {
      assert (a + b)[0] == a[0];
      assert (a + b)[1..] == a[1..] + b;
      TasksByStatusSplits(a[1..], b, s);
    }
  }

  /**
   * A task in the given status sits in the column at the index given by the
   * column's tasks before it, so the column keeps the list's order.
   */
  lemma TasksByStatusKeepsOrder(tasks: seq<Task>, s: Status, i: nat)
    requires i < |tasks| && tasks[i].status == s
    ensures var column := TasksByStatus(tasks, s);
      |TasksByStatus(tasks[..i], s)| < |column| && column[|TasksByStatus(tasks[..i], s)|] == tasks[i]
  {
    assert tasks == tasks[..i] + tasks[i..];
    TasksByStatusSplits(tasks[..i], tasks[i..], s);
    assert TasksByStatus(tasks[i..], s)[0] == tasks[i];
  }

  /** The column order of the board. */
  const ColumnStatuses: seq<Status> := [ToDo, InProgress, Review, Completed]

  /** One column: its heading, the count badge, its cards, and the placeholder hint when empty. */
  datatype Column = Column(
    status: Status,
    heading: string,
    count: nat,
    cards: seq<Task>,
    placeholder: Option<string>)

  /** The hint under "No tasks yet" in an empty column. */
  function EmptyHint(s: Status): (hint: string)
    ensures s == ToDo ==> hint == "Create a task to get started"
    ensures s != ToDo ==> hint == "Move tasks to '" + StatusName(s) + "'"
  {
    if StatusName(s) == "To Do" then "Create a task to get started"
    else "Move tasks to '" + StatusName(s) + "'"
  }

  /** The column for one status. */
  function ColumnFor(tasks: seq<Task>, s: Status): (c: Column)
    ensures c.status == s && c.heading == StatusName(s)
    ensures c.cards == TasksByStatus(tasks, s) && c.count == |c.cards|
    ensures c.placeholder.Some? <==> c.count == 0
    ensures c.placeholder.Some? ==> c.placeholder.value == EmptyHint(s)
  {
    var cards := TasksByStatus(tasks, s);
    Column(s, StatusName(s), |cards|, cards, if |cards| == 0 then Some(EmptyHint(s)) else None)
  }

  /** The page: nothing but the spinner while loading, otherwise the four columns in order. */
  function Board(tasks: seq<Task>, loading: bool): (r: Option<seq<Column>>)
    ensures r.None? <==> loading
    ensures r.Some? ==> |r.value| == 4
    ensures r.Some? ==> forall i :: 0 <= i < 4 ==> r.value[i] == ColumnFor(tasks, ColumnStatuses[i])
  {
    if loading then None
    else Some(seq(4, i requires 0 <= i < 4 => ColumnFor(tasks, ColumnStatuses[i])))
  }

  /** The four columns together are as long as the list: no task is lost or shown twice. */
  lemma {:induction false} ColumnsPartitionTasks(tasks: seq<Task>)
    ensures |TasksByStatus(tasks, ToDo)| + |TasksByStatus(tasks, InProgress)|
      + |TasksByStatus(tasks, Review)| + |TasksByStatus(tasks, Completed)|
      == |tasks|
  {
    if tasks != [] {
      ColumnsPartitionTasks(tasks[1..]);
    }
  }

  /** The count badges of a loaded board add up to the length of the list. */
  lemma BoardCountsSum(tasks: seq<Task>)
    ensures var columns := Board(tasks, false).value;
      columns[0].count + columns[1].count + columns[2].count + columns[3].count == |tasks|
  {
    ColumnsPartitionTasks(tasks);
    var columns := Board(tasks, false).value;
    assert columns[0] == ColumnFor(tasks, ToDo);
    assert columns[1] == ColumnFor(tasks, InProgress);
    assert columns[2] == ColumnFor(tasks, Review);
    assert columns[3] == ColumnFor(tasks, Completed);
  }

  /** Every task of a loaded board is a card in exactly one column, the one of its status. */
  lemma EachTaskInOneColumn(tasks: seq<Task>, x: Task)
    requires x in tasks
    ensures var columns := Board(tasks, false).value;
      forall i :: 0 <= i < 4 ==> (x in columns[i].cards <==> i == ColumnIndex(x.status))
  {
  }

  /** Where a status's column stands on the board. */
  function ColumnIndex(s: Status): (i: nat)
    ensures i < 4 && ColumnStatuses[i] == s
  {
    match s
    case ToDo => 0
    case InProgress => 1
    case Review => 2
    case Completed => 3
  }
}
