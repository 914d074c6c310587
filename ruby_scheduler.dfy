/** The Ruby `Scheduler`: it calls pending blocks no more often than once per
    time interval. The clock is a parameter of each call, and a timer firing is
    an explicit step. */
module RubyScheduler {
  import opened Common
  import opened SchedulerQueue

  /** The interval in seconds; `@dt ||= 0.250` ignores the constructor's argument. */
  const DT: real := 0.25

  /** What the scheduler holds: the pending items, the time before which no
      further check runs anything (nil before the first run), the tasks called
      so far, and the timers started and not yet fired. */
  datatype State = State(scheduled: seq<Item>, t: Option<real>, ran: seq<Task>, timers: nat)

  /** `add`: the task joins a trailing group (a trailing single task is turned
      into a group with it, an empty queue gets a new group), and is then
      appended a second time as a single item. */
  function Added(q: seq<Item>, task: Task): seq<Item>
  {
    Grouped(q, task) + [Single(task)]
  }

  /** The first half of `add`: the task joins the trailing group. */
  function Grouped(q: seq<Item>, task: Task): seq<Item>
  {
    if q == [] then [Group([task])]
    else match q[|q| - 1]
      case Single(first) => q[..|q| - 1] + [Group([first, task])]
      case Group(tasks) => q[..|q| - 1] + [Group(tasks + [task])]
  }

  /** `run`: shift the first item and call its tasks in order. On an empty
      queue `shift` gives nil and `nil.each` raises. Nothing rescues an
      exception of a task: the rest of its group is not called and the
      exception escapes. */
  function RunSpec(s: State, raises: Task -> bool): (r: Called<State>)
    ensures r.error == Some(NoMethodError) <==> s.scheduled == []
    ensures s.scheduled == [] ==> r.state == s
    ensures s.scheduled != [] ==>
      r.state.scheduled == s.scheduled[1..] && r.state.t == s.t && r.state.timers == s.timers
    ensures s.scheduled != [] ==> (r.error == Some(TaskError) <==> RaisesIn(TasksOf(s.scheduled[0]), raises))
    ensures s.ran <= r.state.ran
    ensures s.scheduled != [] ==> r.state.ran[|s.ran|..] <= TasksOf(s.scheduled[0])
    ensures r.error.None? ==> r.state.ran + Flatten(r.state.scheduled) == s.ran + Flatten(s.scheduled)
  {
    if s.scheduled == [] then Called(s, Some(NoMethodError))
    else
      var tasks := TasksOf(s.scheduled[0]);
      var r := s.(scheduled := s.scheduled[1..], ran := s.ran + CalledPart(tasks, raises));
      assert r.ran[|s.ran|..] == CalledPart(tasks, raises);
      Called(r, if RaisesIn(tasks, raises) then Some(TaskError) else None)
  }

  /** Whether `check` at time `now` runs: first time, or later than `@t`. */
  predicate Due(s: State, now: real)
  {
    s.t.None? || now > s.t.value
  }

  /** `check`, which always follows a push: when due, run the first item, then
      set `@t` to now + DT and start a timer; otherwise nothing happens. When
      a task raises, the exception leaves `check` before `@t` and the timer
      are set. */
  function CheckSpec(s: State, now: real, raises: Task -> bool): (r: Called<State>)
    requires s.scheduled != []
    ensures r.error.None? ==> r.state.ran + Flatten(r.state.scheduled) == s.ran + Flatten(s.scheduled)
    ensures r.error == None || r.error == Some(TaskError)
    ensures Due(s, now) ==> (r.error.Some? <==> RaisesIn(TasksOf(s.scheduled[0]), raises))
    ensures Due(s, now) ==> |r.state.scheduled| == |s.scheduled| - 1
    ensures Due(s, now) && r.error.None? ==> r.state.t == Some(now + DT) && r.state.timers == s.timers + 1
    ensures r.error.Some? ==> r.state.t == s.t && r.state.timers == s.timers
    ensures !Due(s, now) ==> r == Called(s, None)
  {
    if Due(s, now) then
      var run := RunSpec(s, raises);
      if run.error.Some? then run
      else Called(run.state.(t := Some(now + DT), timers := s.timers + 1), None)
    else Called(s, None)
  }

  function QueueSpec(s: State, task: Task, now: real, raises: Task -> bool): Called<State>
  {
    CheckSpec(s.(scheduled := Queued(s.scheduled, task)), now, raises)
  }

  function AddSpec(s: State, task: Task, now: real, raises: Task -> bool): Called<State>
  {
    CheckSpec(s.(scheduled := Added(s.scheduled, task)), now, raises)
  }

  function ReplaceSpec(s: State, task: Task, now: real, raises: Task -> bool): Called<State>
  {
    CheckSpec(s.(scheduled := Replaced(s.scheduled, task)), now, raises)
  }

  /** A timer started by `check` fires and calls `run`; it does not look at `@t`. */
  function FireSpec(s: State, raises: Task -> bool): Called<State>
    requires s.timers > 0
  {
    RunSpec(s.(timers := s.timers - 1), raises)
  }

  class Scheduler {
    var scheduled: seq<Item>
    var t: Option<real>
    const dt: real := DT
    var ran: seq<Task>
    var timers: nat

    function Snapshot(): State
      reads this
    {
      State(scheduled, t, ran, timers)
    }

    /** `Scheduler.new(dt)`: an empty queue, no run yet, and an interval of
        DT whatever `dtArgument` says. */
    constructor(dtArgument: real)
      ensures Snapshot() == State([], None, [], 0)
    {
      scheduled := [];
      t := None;
      ran := [];
      timers := 0;
    }

    /** `queue`, and likewise `add` and `replace`, return the exception that
        escaped from `check`, if any. */
    method Queue(task: Task, now: real, raises: Task -> bool) returns (error: Option<ErrorKind>)
      modifies this
      ensures Called(Snapshot(), error) == QueueSpec(old(Snapshot()), task, now, raises)
    {
      scheduled := scheduled + [Single(task)];
      error := Check(now, raises);
    }

    method Add(task: Task, now: real, raises: Task -> bool) returns (error: Option<ErrorKind>)
      modifies this
      ensures Called(Snapshot(), error) == AddSpec(old(Snapshot()), task, now, raises)
    {
      if scheduled == [] {
        scheduled := scheduled + [Group([task])];
      } else {
        var last := scheduled[|scheduled| - 1];
        match last {
          case Single(first) =>
            scheduled := scheduled[..|scheduled| - 1] + [Group([first, task])];
          case Group(tasks) =>
            scheduled := scheduled[..|scheduled| - 1] + [Group(tasks + [task])];
        }
      }
      scheduled := scheduled + [Single(task)];
      assert scheduled == Added(old(scheduled), task);
      error := Check(now, raises);
    }

    method Replace(task: Task, now: real, raises: Task -> bool) returns (error: Option<ErrorKind>)
      modifies this
      ensures Called(Snapshot(), error) == ReplaceSpec(old(Snapshot()), task, now, raises)
    {
      if scheduled != [] {
        scheduled := scheduled[..|scheduled| - 1];
      }
      scheduled := scheduled + [Single(task)];
      error := Check(now, raises);
    }

    /** `run`: call a single block, or each block of a group in turn until
        one raises. */
    method Run(raises: Task -> bool) returns (error: Option<ErrorKind>)
      modifies this
      ensures Called(Snapshot(), error) == RunSpec(old(Snapshot()), raises)
    {
      if scheduled == [] {
        return Some(NoMethodError);
      }
      var toRun := scheduled[0];
      scheduled := scheduled[1..];
      match toRun {
        case Single(task) =>
          ran := ran + [task];
          assert FirstRaise([task], raises) == if raises(task) then 0 else 1;
          if raises(task) {
            assert [task][..1] == [task];
            return Some(TaskError);
          }
        case Group(tasks) =>
          for i := 0 to |tasks|
            invariant ran == old(ran) + tasks[..i]
            invariant forall j :: 0 <= j < i ==> !raises(tasks[j])
            invariant scheduled == old(scheduled)[1..] && t == old(t) && timers == old(timers)
          {
            ran := ran + [tasks[i]];
            assert tasks[..i] + [tasks[i]] == tasks[..i + 1];
            if raises(tasks[i]) {
              assert TasksOf(toRun) == tasks;
              assert FirstRaise(tasks, raises) == i;
              assert CalledPart(tasks, raises) == tasks[..i + 1];
              assert ran == old(ran) + CalledPart(TasksOf(old(scheduled)[0]), raises);
              return Some(TaskError);
            }
          }
          assert tasks[..|tasks|] == tasks;
      }
      return None;
    }

    method Check(now: real, raises: Task -> bool) returns (error: Option<ErrorKind>)
      requires scheduled != []
      modifies this
      ensures Called(Snapshot(), error) == CheckSpec(old(Snapshot()), now, raises)
    {
      error := None;
      if t.None? || now > t.value {
        error := Run(raises);
        if error.Some? {
          return;
        }
        t := Some(now + dt);
        timers := timers + 1;
      }
    }

    /** One of the started timers fires. */
    method FireTimer(raises: Task -> bool) returns (error: Option<ErrorKind>)
      requires timers > 0
      modifies this
      ensures Called(Snapshot(), error) == FireSpec(old(Snapshot()), raises)
    {
      timers := timers - 1;
      error := Run(raises);
    }
  }

  /** Grouping adds the task to the pending calls without adding an item
      (one item when the queue was empty) and keeps all but the last item. */
  lemma GroupedAppends(q: seq<Item>, task: Task)
    ensures Flatten(Grouped(q, task)) == Flatten(q) + [task]
    ensures |Grouped(q, task)| == MaxInt(|q|, 1)
    ensures q != [] ==> Grouped(q, task)[..|q| - 1] == q[..|q| - 1]
  {
    if q == [] {
      FlattenOne(Group([task]));
    } else {
      var init, last := q[..|q| - 1], q[|q| - 1];
      var joined := Group(TasksOf(last) + [task]);
      assert Grouped(q, task) == init + [joined] by {
        match last {
          case Single(first) =>
            assert TasksOf(last) + [task] == [first, task];
          case Group(tasks) =>
        }
      }
      FlattenAppend(init, [joined]);
      FlattenOne(joined);
      assert q == init + [last];
      FlattenAppend(init, [last]);
      FlattenOne(last);
    }
  }

  lemma FlattenOne(item: Item)
    ensures Flatten([item]) == TasksOf(item)
  {
    assert [item][1..] == [];
  }

  /** `add` queues every task twice: once in the trailing group, once alone. */
  lemma AddQueuesTaskTwice(q: seq<Item>, task: Task)
    ensures Flatten(Added(q, task)) == Flatten(q) + [task, task]
    ensures |Added(q, task)| == if q == [] then 2 else |q| + 1
    ensures Added(q, task)[|Added(q, task)| - 1] == Single(task)
    ensures q != [] ==> Added(q, task)[..|q| - 1] == q[..|q| - 1]
  {
    GroupedAppends(q, task);
    FlattenAppend(Grouped(q, task), [Single(task)]);
    assert Flatten([Single(task)]) == [task] + Flatten([]);
  }

  /** When no task of the first item raises, every task queued so far has
      been called or is still pending, in order: a timer loses nothing. */
  lemma FireConserves(s: State, raises: Task -> bool)
    requires s.timers > 0 && s.scheduled != [] && !RaisesIn(TasksOf(s.scheduled[0]), raises)
    ensures FireSpec(s, raises).error.None?
    ensures FireSpec(s, raises).state.ran + Flatten(FireSpec(s, raises).state.scheduled) == s.ran + Flatten(s.scheduled)
  {
  }

  /** A raising task ends the run: it is the last task called, and the
      exception escapes. */
  lemma RaiseEndsRun(s: State, raises: Task -> bool)
    requires s.scheduled != [] && RaisesIn(TasksOf(s.scheduled[0]), raises)
    ensures RunSpec(s, raises).error == Some(TaskError)
    ensures RunSpec(s, raises).state.ran == s.ran + TasksOf(s.scheduled[0])[..FirstRaise(TasksOf(s.scheduled[0]), raises) + 1]
    ensures raises(TasksOf(s.scheduled[0])[FirstRaise(TasksOf(s.scheduled[0]), raises)])
  {
  }

  /** The tasks after the raising one in its group are neither called nor
      pending any more: they are lost. */
  lemma RaiseSkipsRestOfGroup(s: State, raises: Task -> bool)
    requires s.scheduled != [] && RaisesIn(TasksOf(s.scheduled[0]), raises)
    ensures RunSpec(s, raises).state.ran + TasksOf(s.scheduled[0])[FirstRaise(TasksOf(s.scheduled[0]), raises) + 1..]
      + Flatten(RunSpec(s, raises).state.scheduled) == s.ran + Flatten(s.scheduled)
  {
    var tasks := TasksOf(s.scheduled[0]);
    RaiseEndsRun(s, raises);
    assert Flatten(s.scheduled) == tasks + Flatten(s.scheduled[1..]);
    SplitAt(s.ran, tasks, Flatten(s.scheduled[1..]), FirstRaise(tasks, raises) + 1);
  }

  /** After a check ran something at time `now` without an exception, no
      check before now + DT runs anything. */
  lemma RateLimited(s: State, now: real, later: real, raises: Task -> bool)
    requires s.scheduled != [] && Due(s, now) && !RaisesIn(TasksOf(s.scheduled[0]), raises) && later <= now + DT
    ensures !Due(CheckSpec(s, now, raises).state, later)
  {
  }

  /** A check whose task raised set neither `@t` nor a timer, so the next
      check runs at once whenever it comes. */
  lemma RaiseLeavesDue(s: State, now: real, later: real, raises: Task -> bool)
    requires s.scheduled != [] && Due(s, now) && RaisesIn(TasksOf(s.scheduled[0]), raises) && later >= now
    ensures CheckSpec(s, now, raises).error == Some(TaskError)
    ensures CheckSpec(s, now, raises).state.timers == s.timers
    ensures Due(CheckSpec(s, now, raises).state, later)
  {
  }

  /** On a new scheduler `add` runs the task at once, and the timer that check
      starts runs it a second time; a task that raises is called once and
      leaves no time stamp and no timer. */
  lemma AddOnNewSchedulerRunsTwice(task: Task, now: real, raises: Task -> bool)
    ensures !raises(task) ==> AddSpec(State([], None, [], 0), task, now, raises) == Called(State([Single(task)], Some(now + DT), [task], 1), None)
    ensures !raises(task) ==>
      FireSpec(AddSpec(State([], None, [], 0), task, now, raises).state, raises) == Called(State([], Some(now + DT), [task, task], 0), None)
    ensures raises(task) ==> AddSpec(State([], None, [], 0), task, now, raises) == Called(State([Single(task)], None, [task], 0), Some(TaskError))
  {
    var s := State([Group([task]), Single(task)], None, [], 0);
    assert AddSpec(State([], None, [], 0), task, now, raises) == CheckSpec(s, now, raises);
    assert s.scheduled[1..] == [Single(task)];
    assert FirstRaise([task], raises) == if raises(task) then 0 else 1;
    assert CalledPart([task], raises) == [task];
    assert RunSpec(s, raises) == Called(State([Single(task)], None, [task], 0), if raises(task) then Some(TaskError) else None);
    if !raises(task) {
      var s' := State([Single(task)], Some(now + DT), [task], 0);
      assert FireSpec(AddSpec(State([], None, [], 0), task, now, raises).state, raises) == RunSpec(s', raises);
      assert s'.scheduled[1..] == [];
      assert s'.ran + CalledPart([task], raises) == [task, task];
    }
  }
}
