/** The background tasks of one process. Refreshes and unlocks share one set, but only the size
    of that set decides whether a revalidating call may start a refresh. */
module Background {
  import opened Sets

  datatype Task = Refresh(token: string) | Release(token: string)

  function Refreshes(tasks: set<Task>): set<Task> {
    set t <- tasks | t.Refresh?
  }

  /** The task a revalidating call adds. */
  function TaskFor(tasks: set<Task>, token: string, limit: nat): Task {
    if |tasks| >= limit then Release(token) else Refresh(token)
  }

  datatype Event = Schedule(token: string) | Finish(task: Task)

  function After(tasks: set<Task>, limit: nat, events: seq<Event>): set<Task>
    decreases |events|
  {
    if events == [] then tasks
    else
      match events[0]
      case Schedule(token) => After(tasks + {TaskFor(tasks, token, limit)}, limit, events[1..])
      case Finish(task) => After(tasks - {task}, limit, events[1..])
  }

  /** Over any schedule of refreshes and completions no more than `limit` refreshes ever run at
      once, although unlock tasks can push the set itself beyond the limit. */
  lemma {:induction false} RefreshesStayBounded(tasks: set<Task>, limit: nat, events: seq<Event>)
    requires |Refreshes(tasks)| <= limit
    ensures |Refreshes(After(tasks, limit, events))| <= limit
    decreases |events|
  {
    if events != [] {
      match events[0]
      case Schedule(token) =>
        ScheduleKeepsBound(tasks, limit, token);
        RefreshesStayBounded(tasks + {TaskFor(tasks, token, limit)}, limit, events[1..]);
      case Finish(task) =>
        SubsetIsSmaller(Refreshes(tasks - {task}), Refreshes(tasks));
        RefreshesStayBounded(tasks - {task}, limit, events[1..]);
    }
  }

  lemma ScheduleKeepsBound(tasks: set<Task>, limit: nat, token: string)
    requires |Refreshes(tasks)| <= limit
    ensures |Refreshes(tasks + {TaskFor(tasks, token, limit)})| <= limit
  {
    var task := TaskFor(tasks, token, limit);
    if task.Refresh? {
      SubsetIsSmaller(Refreshes(tasks), tasks);
      assert Refreshes(tasks + {task}) == Refreshes(tasks) + {task};
    } else {
      assert Refreshes(tasks + {task}) == Refreshes(tasks);
    }
  }

  class BackgroundTasks {
    const limit: nat
    var tasks: set<Task>

    ghost predicate Valid()
      reads this
    {
      |Refreshes(tasks)| <= limit
    }

    constructor (limit: nat)
      ensures Valid() && this.limit == limit && tasks == {}
    {
      this.limit := limit;
      tasks := {};
      new;
      assert Refreshes(tasks) == {};
    }

    /** A revalidating call hands over its token: to a refresh, or, when the set is full, to an
        immediate unlock. */
    method ScheduleRefresh(token: string) returns (task: Task)
      requires Valid()
      modifies this
      ensures Valid()
      ensures task == TaskFor(old(tasks), token, limit)
      ensures task == if |old(tasks)| < limit then Refresh(token) else Release(token)
      ensures tasks == old(tasks) + {task}
    {
      ScheduleKeepsBound(tasks, limit, token);
      if |tasks| >= limit {
        task := Release(token);
      } else {
        task := Refresh(token);
      }
      tasks := tasks + {task};
    }

    method Finished(task: Task)
      requires Valid()
      modifies this
      ensures Valid() && tasks == old(tasks) - {task}
    {
      SubsetIsSmaller(Refreshes(tasks - {task}), Refreshes(tasks));
      tasks := tasks - {task};
    }
  }
}
