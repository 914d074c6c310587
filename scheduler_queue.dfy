/** The pending queue shared by the Ruby and the JavaScript scheduler: single
    tasks and groups of tasks that are run together. */
module SchedulerQueue {
  import opened Common

  /** A block (Ruby) or function (JavaScript) handed to a scheduler, known by
      a handle; what it does when called is not modelled. */
  type Task = nat

  /** A pending item: one task, or a group (an array) of tasks. */
  datatype Item = Single(task: Task) | Group(tasks: seq<Task>)

  /** The tasks an item calls when it is run, in order. */
  function TasksOf(item: Item): seq<Task>
  {
    match item
    case Single(task) => [task]
    case Group(tasks) => tasks
  }

  /** All pending tasks in the order they will be called. */
  function Flatten(q: seq<Item>): seq<Task>
  {
    if q == [] then [] else TasksOf(q[0]) + Flatten(q[1..])
  }

  lemma {:induction false} FlattenAppend(p: seq<Item>, q: seq<Item>)
    ensures Flatten(p + q) == Flatten(p) + Flatten(q)
    decreases |p|
  {
    if p != [] {
      assert (p + q)[0] == p[0] && (p + q)[1..] == p[1..] + q;
      FlattenAppend(p[1..], q);
      assert Flatten(p + q) == TasksOf(p[0]) + Flatten(p[1..] + q);
    } else {
      assert p + q == q;
    }
  }

  /** The position of the first task of `tasks` that raises when called, or
      the length when none does; `raises` says what calling a task does. */
  function FirstRaise(tasks: seq<Task>, raises: Task -> bool): (k: nat)
    ensures k <= |tasks|
    ensures forall j :: 0 <= j < k ==> !raises(tasks[j])
    ensures k < |tasks| ==> raises(tasks[k])
  {
    if tasks == [] then 0
    else if raises(tasks[0]) then 0
    else 1 + FirstRaise(tasks[1..], raises)
  }

  /** The tasks a loop over `tasks` calls: all of them, or those up to and
      including the first that raises, since nothing catches the exception. */
  function CalledPart(tasks: seq<Task>, raises: Task -> bool): (called: seq<Task>)
    ensures called <= tasks
    ensures |called| == if FirstRaise(tasks, raises) < |tasks| then FirstRaise(tasks, raises) + 1 else |tasks|
  {
    var k := FirstRaise(tasks, raises);
    if k < |tasks| then tasks[..k + 1] else tasks
  }

  /** Whether calling `tasks` in order stops with an exception. */
  predicate RaisesIn(tasks: seq<Task>, raises: Task -> bool)
  {
    FirstRaise(tasks, raises) < |tasks|
  }

  /** Cutting a list in two and putting the pieces back between the same
      neighbours gives the whole. */
  lemma SplitAt<T>(before: seq<T>, xs: seq<T>, after: seq<T>, k: nat)
    requires k <= |xs|
    ensures before + xs[..k] + xs[k..] + after == before + (xs + after)
  {
    assert xs[..k] + xs[k..] == xs;
  }

  /** What a run or a check of a scheduler leaves behind: the new state, and
      the exception it let escape, if any. */
  datatype Called<S> = Called(state: S, error: Option<ErrorKind>)

  /** `queue`: the task goes to the end as an item of its own. */
  function Queued(q: seq<Item>, task: Task): seq<Item>
  {
    q + [Single(task)]
  }

  /** `replace`: the last pending item, if any, gives way to the task. */
  function Replaced(q: seq<Item>, task: Task): seq<Item>
  {
    (if q == [] then [] else q[..|q| - 1]) + [Single(task)]
  }

  /** Queueing adds one item and one pending call, at the end. */
  lemma QueueAppends(q: seq<Item>, task: Task)
    ensures |Queued(q, task)| == |q| + 1
    ensures Flatten(Queued(q, task)) == Flatten(q) + [task]
  {
    FlattenAppend(q, [Single(task)]);
  }

  /** Replacing keeps the number of pending items (one when the queue was
      empty), keeps every item but the last, and ends with the new task. */
  lemma ReplaceKeepsLength(q: seq<Item>, task: Task)
    ensures |Replaced(q, task)| == MaxInt(|q|, 1)
    ensures Replaced(q, task)[|Replaced(q, task)| - 1] == Single(task)
    ensures q != [] ==> Replaced(q, task)[..|q| - 1] == q[..|q| - 1]
    ensures q != [] ==> Flatten(Replaced(q, task)) == Flatten(q[..|q| - 1]) + [task]
  {
    if q != [] {
      FlattenAppend(q[..|q| - 1], [Single(task)]);
    }
  }
}
