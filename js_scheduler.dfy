/** The JavaScript `AE.Scheduler`: the same idea as the Ruby scheduler, with
    time in milliseconds, a configurable interval, a timer that repeats the
    check instead of running directly, and an `add` without the second push. */
module JsScheduler {
  import opened Common
  import opened SchedulerQueue

  /** The interval when the constructor's argument is missing or falsy. */
  const DEFAULT_DT: real := 250.0

  /** `dt = (dt) ? Number(dt) : 250` for a numeric or missing argument. */
  function IntervalOf(dtArgument: Option<real>): (dt: real)
    ensures dt != 0.0
    ensures dtArgument.Some? && dtArgument.value != 0.0 ==> dt == dtArgument.value
  {
    if dtArgument.None? || dtArgument.value == 0.0 then DEFAULT_DT else dtArgument.value
  }

  /** The pending items, the time before which checks run nothing, the
      interval, the tasks called so far and the pending timeouts. */
  datatype State = State(scheduled: seq<Item>, t: real, dt: real, ran: seq<Task>, timers: nat)

  /** `add`: an empty queue, or one ending in a single function, gets a new
      one-element group; otherwise the task joins the trailing group. */
  function Added(q: seq<Item>, task: Task): seq<Item>
  {
    if q == [] || q[|q| - 1].Single? then q + [Group([task])]
    else q[..|q| - 1] + [Group(q[|q| - 1].tasks + [task])]
  }

  /** Whether `check` at time `now` runs something. */
  predicate Due(s: State, now: real)
  {
    now > s.t && s.scheduled != []
  }

  /** `check`: when due, run the first item (a function, or a group in
      order), set t to now + dt and start a timeout that checks again. There
      is no try/catch: when a task throws, the rest of its group is not
      called, t and the timeout are not set, and the exception escapes. */
  function CheckSpec(s: State, now: real, raises: Task -> bool): (r: Called<State>)
    ensures r.error.None? ==> r.state.ran + Flatten(r.state.scheduled) == s.ran + Flatten(s.scheduled)
    ensures r.error == None || r.error == Some(TaskError)
    ensures r.state.dt == s.dt
    ensures Due(s, now) ==> r.state.scheduled == s.scheduled[1..] && s.ran <= r.state.ran
    ensures Due(s, now) ==> (r.error.Some? <==> RaisesIn(TasksOf(s.scheduled[0]), raises))
    ensures Due(s, now) && r.error.None? ==> r.state.ran == s.ran + TasksOf(s.scheduled[0])
    ensures Due(s, now) && r.error.None? ==> r.state.t == now + s.dt && r.state.timers == s.timers + 1
    ensures r.error.Some? ==> r.state.t == s.t && r.state.timers == s.timers
    ensures !Due(s, now) ==> r == Called(s, None)
  {
    if Due(s, now) then
      var tasks := TasksOf(s.scheduled[0]);
      var run := s.(scheduled := s.scheduled[1..], ran := s.ran + CalledPart(tasks, raises));
      if RaisesIn(tasks, raises) then Called(run, Some(TaskError))
      else Called(run.(t := now + s.dt, timers := s.timers + 1), None)
    else Called(s, None)
  }

  function QueueSpec(s: State, task: Task, now: real, raises: Task -> bool): Called<State>
  {
    CheckSpec(s.(scheduled := Queued(s.scheduled, task)), now, raises)
  }

  function AddSpec(s: State, task: Task, now: real, raises: Task -> bool): Called<State>
  {
    CheckSpec(s.(scheduled := Added(s.scheduled, task)), now, raises)
  }

  function ReplaceSpec(s: State, task: Task, now: real, raises: Task -> bool): Called<State>
  {
    CheckSpec(s.(scheduled := Replaced(s.scheduled, task)), now, raises)
  }

  /** A timeout fires and calls `check` at its own time. */
  function FireSpec(s: State, now: real, raises: Task -> bool): Called<State>
    requires s.timers > 0
  {
    CheckSpec(s.(timers := s.timers - 1), now, raises)
  }

  class Scheduler {
    var scheduled: seq<Item>
    var t: real
    const dt: real
    var ran: seq<Task>
    var timers: nat

    function Snapshot(): State
      reads this
    {
      State(scheduled, t, dt, ran, timers)
    }

    /** `new AE.Scheduler(dt)`: t starts at 0. */
    constructor(dtArgument: Option<real>)
      ensures Snapshot() == State([], 0.0, IntervalOf(dtArgument), [], 0)
    {
      scheduled := [];
      t := 0.0;
      dt := if dtArgument.Some? && dtArgument.value != 0.0 then dtArgument.value else DEFAULT_DT;
      ran := [];
      timers := 0;
    }

    /** `queue`, and likewise `add` and `replace`, return the exception that
        escaped from `check`, if any. */
    method Queue(task: Task, now: real, raises: Task -> bool) returns (error: Option<ErrorKind>)
      modifies this
      ensures Called(Snapshot(), error) == QueueSpec(old(Snapshot()), task, now, raises)
    {
      scheduled := scheduled + [Single(task)];
      error := Check(now, raises);
    }

    method Add(task: Task, now: real, raises: Task -> bool) returns (error: Option<ErrorKind>)
      modifies this
      ensures Called(Snapshot(), error) == AddSpec(old(Snapshot()), task, now, raises)
    {
      if |scheduled| == 0 || scheduled[|scheduled| - 1].Single? {
        scheduled := scheduled + [Group([task])];
      } else {
        var last := scheduled[|scheduled| - 1];
        scheduled := scheduled[..|scheduled| - 1] + [Group(last.tasks + [task])];
      }
      error := Check(now, raises);
    }

    method Replace(task: Task, now: real, raises: Task -> bool) returns (error: Option<ErrorKind>)
      modifies this
      ensures Called(Snapshot(), error) == ReplaceSpec(old(Snapshot()), task, now, raises)
    {
      if |scheduled| > 0 {
        scheduled := scheduled[..|scheduled| - 1];
      }
      scheduled := scheduled + [Single(task)];
      error := Check(now, raises);
    }

    /** `run`: shift the first item and call it, or each function of a group
        in order until one throws; with nothing pending it does nothing. */
    method Run(raises: Task -> bool) returns (error: Option<ErrorKind>)
      modifies this
      ensures old(scheduled) == [] ==> Snapshot() == old(Snapshot()) && error == None
      ensures old(scheduled) != [] ==>
        Snapshot() == old(Snapshot()).(scheduled := old(scheduled)[1..],
                                       ran := old(ran) + CalledPart(TasksOf(old(scheduled)[0]), raises))
      ensures old(scheduled) != [] ==>
        error == if RaisesIn(TasksOf(old(scheduled)[0]), raises) then Some(TaskError) else None
    {
      if scheduled == [] {
        return None;
      }
      var toRun := scheduled[0];
      scheduled := scheduled[1..];
      match toRun {
        case Single(task) =>
          ran := ran + [task];
          assert FirstRaise([task], raises) == if raises(task) then 0 else 1;
          if raises(task) {
            assert [task][..1] == [task];
            return Some(TaskError);
          }
        case Group(tasks) =>
          for i := 0 to |tasks|
            invariant ran == old(ran) + tasks[..i]
            invariant forall j :: 0 <= j < i ==> !raises(tasks[j])
            invariant scheduled == old(scheduled)[1..] && t == old(t) && timers == old(timers)
          {
            ran := ran + [tasks[i]];
            assert tasks[..i] + [tasks[i]] == tasks[..i + 1];
            if raises(tasks[i]) {
              assert TasksOf(toRun) == tasks;
              assert FirstRaise(tasks, raises) == i;
              assert CalledPart(tasks, raises) == tasks[..i + 1];
              assert ran == old(ran) + CalledPart(TasksOf(old(scheduled)[0]), raises);
              return Some(TaskError);
            }
          }
          assert tasks[..|tasks|] == tasks;
      }
      return None;
    }

    method Check(now: real, raises: Task -> bool) returns (error: Option<ErrorKind>)
      modifies this
      ensures Called(Snapshot(), error) == CheckSpec(old(Snapshot()), now, raises)
    {
      error := None;
      if now > t && |scheduled| > 0 {
        error := Run(raises);
        if error.Some? {
          return;
        }
        t := now + dt;
        timers := timers + 1;
      }
    }

    /** One pending timeout fires at time `now`. */
    method FireTimer(now: real, raises: Task -> bool) returns (error: Option<ErrorKind>)
      requires timers > 0
      modifies this
      ensures Called(Snapshot(), error) == FireSpec(old(Snapshot()), now, raises)
    {
      timers := timers - 1;
      error := Check(now, raises);
    }
  }

  /** `add` adds the task to the pending calls exactly once, at the end; it
      adds an item only when the queue was empty or ended in a single task. */
  lemma AddAppendsOnce(q: seq<Item>, task: Task)
    ensures Flatten(Added(q, task)) == Flatten(q) + [task]
    ensures |Added(q, task)| == if q == [] || q[|q| - 1].Single? then |q| + 1 else |q|
    ensures Added(q, task)[|Added(q, task)| - 1].Group?
    ensures q != [] ==> Added(q, task)[..|q| - 1] == q[..|q| - 1]
  {
    if q == [] || q[|q| - 1].Single? {
      FlattenAppend(q, [Group([task])]);
      assert Flatten([Group([task])]) == [task] + Flatten([]);
    } else {
      var init, last := q[..|q| - 1], q[|q| - 1];
      assert q == init + [last];
      FlattenAppend(init, [last]);
      FlattenAppend(init, [Group(last.tasks + [task])]);
    }
  }

  /** A new scheduler runs the first queued task synchronously (clock times
      are positive); when it throws, t stays 0 and no timeout is set. */
  lemma FirstCallRunsAtOnce(dtArgument: Option<real>, task: Task, now: real, raises: Task -> bool)
    requires now > 0.0
    ensures QueueSpec(State([], 0.0, IntervalOf(dtArgument), [], 0), task, now, raises).state.ran == [task]
    ensures QueueSpec(State([], 0.0, IntervalOf(dtArgument), [], 0), task, now, raises).state.scheduled == []
    ensures QueueSpec(State([], 0.0, IntervalOf(dtArgument), [], 0), task, now, raises).error.Some? <==> raises(task)
  {
    assert FirstRaise([task], raises) == if raises(task) then 0 else 1;
    assert [task][..1] == [task];
  }

  /** After a check ran something at time `now` without an exception, no
      check before now + dt runs anything. */
  lemma RateLimited(s: State, now: real, later: real, raises: Task -> bool)
    requires Due(s, now) && !RaisesIn(TasksOf(s.scheduled[0]), raises) && later <= now + s.dt
    ensures !Due(CheckSpec(s, now, raises).state, later)
  {
  }

  /** The functions after the throwing one in its group are neither called
      nor pending any more: they are lost. */
  lemma RaiseSkipsRestOfGroup(s: State, now: real, raises: Task -> bool)
    requires Due(s, now) && RaisesIn(TasksOf(s.scheduled[0]), raises)
    ensures CheckSpec(s, now, raises).state.ran + TasksOf(s.scheduled[0])[FirstRaise(TasksOf(s.scheduled[0]), raises) + 1..]
      + Flatten(CheckSpec(s, now, raises).state.scheduled) == s.ran + Flatten(s.scheduled)
  {
    var tasks := TasksOf(s.scheduled[0]);
    assert CheckSpec(s, now, raises).state.ran == s.ran + tasks[..FirstRaise(tasks, raises) + 1];
    assert Flatten(s.scheduled) == tasks + Flatten(s.scheduled[1..]);
    SplitAt(s.ran, tasks, Flatten(s.scheduled[1..]), FirstRaise(tasks, raises) + 1);
  }

  /** After a check whose task threw, t is as it was, so any later check
      runs the next pending item at once. */
  lemma RaiseLeavesDue(s: State, now: real, later: real, raises: Task -> bool)
    requires Due(s, now) && RaisesIn(TasksOf(s.scheduled[0]), raises) && later >= now
    ensures CheckSpec(s, now, raises).error == Some(TaskError)
    ensures CheckSpec(s, now, raises).state.timers == s.timers
    ensures Due(CheckSpec(s, now, raises).state, later) <==> |s.scheduled| > 1
  {
  }
}
