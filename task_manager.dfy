/** The task manager: an ordered list of tasks, sorted once by `Order`,
    run one at a time, each next task started from the end-of-run callback
    of the previous one. The chain `runNext -> Start -> onRunEnd -> runNext`
    is a loop here whose measure is the index of the next task. */
module TaskManager {
  import opened Common
  import opened Tasks
  import opened TaskChain
  import Sorting

  /** The position of the first task named `name`, or -1. */
  function FirstNamed(items: seq<Task>, name: string): (k: int)
    reads set t | t in items
    ensures -1 <= k < |items|
    ensures k >= 0 ==> items[k].name == name
    ensures forall j | 0 <= j < |items| && (k < 0 || j < k) :: items[j].name != name
    decreases |items|
  {
    if items == [] then -1
    else if items[0].name == name then 0
    else
      var k := FirstNamed(items[1..], name);
      if k < 0 then -1 else k + 1
  }

  /** `p` is the last position of `t` in `items`. */
  predicate LastPosition(items: seq<Task>, t: Task, p: int) {
    0 <= p < |items| && items[p] == t && forall i | p < i < |items| :: items[i] != t
  }

  /** Every task has, as its index, the last position it holds in `items`
      (its position, when it was added only once). */
  predicate IndexedByPosition(items: seq<Task>)
    reads items`index
  {
    forall j | 0 <= j < |items| :: LastPosition(items, items[j], items[j].index)
  }

  /** `IndexedByPosition`, on a map of indexes: every listed task has the last
      position it holds in `items` as its index. */
  predicate Positioned(items: seq<Task>, index: map<Task, int>) {
    forall j | 0 <= j < |items| :: items[j] in index && LastPosition(items, items[j], index[items[j]])
  }

  /** `IndexedByPosition` in terms of the indexes' map. */
  lemma IndexedIsPositioned(items: seq<Task>)
    requires IndexedByPosition(items)
    ensures Positioned(items, IndexesOf(set t | t in items))
  {
  }

  /** Once sorted, a list whose tasks are all distinct has each task at the
      index of its position, so `move` finds the task at position `i` for
      index `i`: the chain from the start runs the tasks in sorted order. */
  lemma PositionedFirst(items: seq<Task>, index: map<Task, int>, i: int)
    requires Positioned(items, index)
    requires forall p, q | 0 <= p < q < |items| :: items[p] != items[q]
    requires 0 <= i < |items|
    ensures FirstAt(items, index, i) == i
  {
    forall j | 0 <= j < |items| ensures index[items[j]] == j {
      assert LastPosition(items, items[j], index[items[j]]);
    }
    FirstAtIs(items, index, i, i);
  }

  /** Sorting by a snapshot of `Order` sorts by `Order`. */
  lemma SortedByOrder(items: seq<Task>, key: Task -> int)
    requires Sorting.SortedBy(items, key)
    requires forall t | t in items :: key(t) == t.order
    ensures forall i, j | 0 <= i < j < |items| :: items[i].order <= items[j].order
  {
    forall i, j | 0 <= i < j < |items| ensures items[i].order <= items[j].order {
      assert key(items[i]) <= key(items[j]);
    }
  }

  /** The `sort.Sort` call of `sort`: the tasks ordered by `Order`, ties in no promised order. */
  function OrderedByOrder(items: seq<Task>): (sorted: seq<Task>)
    ensures multiset(sorted) == multiset(items)
    ensures forall i, j | 0 <= i < j < |sorted| :: sorted[i].order <= sorted[j].order
  {
    var key := (t: Task) => t.order;
    var sorted := Sorting.SortBy(items, key);
    SortedByOrder(sorted, key);
    sorted
  }

  /** The manager `v1` as `sort` leaves `v0`: only the list and the indexes
      change; the list is a permutation of the old one; a second call
      changes nothing, and the first orders the list by `Order` (ties in no
      promised order) and gives each task its position as index. */
  ghost predicate SortedView(v0: View, v1: View, wasSorted: bool) {
    && v1 == v0.(items := v1.items, index := v1.index)
    && multiset(v1.items) == multiset(v0.items)
    && (wasSorted ==> v1.items == v0.items && v1.index == v0.index)
    && (!wasSorted ==>
          && (forall i, j | 0 <= i < j < |v1.items| :: v1.items[i].order <= v1.items[j].order)
          && Positioned(v1.items, v1.index))
  }

  /** The index after which `runNext` looks for the next task. */
  function After(t: Task?): int
    reads Maybe(t)`index
  {
    if t == null then -1 else t.index
  }

  /** No task, or one, as a set. */
  function Maybe(t: Task?): set<Task> {
    if t == null then {} else {t}
  }

  /** A task as `reset` leaves it. */
  predicate IsReset(t: Task)
    reads t
  {
    t.err == None && t.status == Pending && t.executeNextTask && t.attempts == 0
  }

  /** The state of each of the tasks `ts`. */
  ghost function StatesOf(ts: set<Task>): map<Task, TaskState>
    reads ts`err, ts`status, ts`attempts, ts`retries, ts`message, ts`calls
  {
    map t | t in ts :: t.State()
  }

  /** The index of each of the tasks `ts`. */
  ghost function IndexesOf(ts: set<Task>): map<Task, int>
    reads ts`index
  {
    map t | t in ts :: t.index
  }

  /** The configuration of each of the tasks `ts`. */
  ghost function ConfigsOf(ts: set<Task>): map<Task, TaskConfig>
    reads ts`config
  {
    map t | t in ts :: t.config
  }

  class Manager {
    /** The status observers registered with `OnStatusChange`, in order. */
    var observers: seq<nat>
    var items: seq<Task>
    var onStart: Option<nat>
    var onStop: Option<nat>
    var onComplete: Option<nat>
    var current: Task?
    var isSorted: bool
    var isStarted: bool
    /** The hook and observer calls made so far, in order. */
    var trace: seq<Event>

    /** `New`. */
    constructor ()
      ensures observers == [] && items == [] && onStart == None && onStop == None && onComplete == None
      ensures current == null && !isSorted && !isStarted && trace == []
    {
      observers := [];
      items := [];
      onStart, onStop, onComplete := None, None, None;
      current := null;
      isSorted, isStarted := false, false;
      trace := [];
    }

    /** Every task of the list carries this manager's end-of-run callback. A
        task is assumed to be added to one manager only. */
    predicate Valid()
      reads this`items, Tasks()`config
    {
      forall t | t in items :: t.config.managed
    }

    function Footprint(): set<object>
      reads this
    {
      (set t | t in items :: t as object) + (if current == null then {} else {current as object})
    }

    method OnStatusChange(observer: nat)
      modifies this`observers
      ensures observers == old(observers) + [observer]
    {
      observers := observers + [observer];
    }

    method SetOnStart(id: nat)
      modifies this`onStart
      ensures onStart == Some(id)
    {
      onStart := Some(id);
    }

    method SetOnStop(id: nat)
      modifies this`onStop
      ensures onStop == Some(id)
    {
      onStop := Some(id);
    }

    method SetOnComplete(id: nat)
      modifies this`onComplete
      ensures onComplete == Some(id)
    {
      onComplete := Some(id);
    }

    /** `Add`: the task becomes pending and is appended; its start and retry
        hooks are wrapped so that every status observer runs, in
        registration order, before the hook they replace (see `Fire`). */
    method Add(task: Task)
      modifies this`items, task`status, task`config
      ensures items == old(items) + [task]
      ensures task.status == Pending
      ensures task.config == old(task.config).(onStart := Broadcast(old(task.config.onStart)),
                                               onRetry := Broadcast(old(task.config.onRetry)), managed := true)
      ensures old(Valid()) ==> Valid()
    {
      task.status := Pending;
      task.config := task.config.(onStart := Broadcast(task.config.onStart),
                                  onRetry := Broadcast(task.config.onRetry), managed := true);
      items := items + [task];
    }

    method SetCurrent(task: Task?)
      modifies this`current
      ensures current == task
      ensures Snapshot() == old(Snapshot()).(current := task)
    {
      current := task;
    }

    /** `Get`: the first task with that name. */
    method Get(name: string) returns (task: Task?)
      ensures task == null <==> forall t | t in items :: t.name != name
      ensures task != null ==>
        task.name == name && exists k | 0 <= k < |items| :: items[k] == task && forall j | 0 <= j < k :: items[j].name != name
      ensures var k := FirstNamed(items, name); task == if k < 0 then null else items[k]
    {
      var k := 0;
      while k < |items|
        invariant 0 <= k <= |items|
        invariant forall j | 0 <= j < k :: items[j].name != name
      {
        if items[k].name == name {
          FirstNamedIs(items, name, k);
          return items[k];
        }
        k := k + 1;
      }
      FirstNamedIs(items, name, -1);
      return null;
    }

    /** `move`: the task whose index follows (or, backwards, precedes,
        clamped at 0) `from`; `completed` when that index is past the last
        position. A task found is the first of the list holding that index,
        and `at` is its position. */
    method Move(next: bool, from: int) returns (task: Task?, completed: bool, ghost at: int)
      ensures Snapshot() == old(Snapshot())
      ensures var target := if next then from + 1 else if from - 1 < 0 then 0 else from - 1;
        && (completed <==> target > |items| - 1)
        && (completed ==> task == null)
        && (!completed && task != null ==>
              && 0 <= at < |items| && items[at] == task && task.index == target
              && forall j | 0 <= j < at :: items[j].index != target)
        && (!completed && task == null ==> forall t | t in items :: t.index != target)
    {
      var target := from;
      if next {
        target := target + 1;
      } else {
        target := target - 1;
        if target < 0 {
          target := 0;
        }
      }
      if target > |items| - 1 {
        return null, true, -1;
      }
      var k := 0;
      while k < |items|
        invariant 0 <= k <= |items|
        invariant forall j | 0 <= j < k :: items[j].index != target
      {
        if items[k].index == target {
          return items[k], false, k;
        }
        k := k + 1;
      }
      return null, false, -1;
    }

    /** `sort`: on the first call only, orders the tasks by `Order` (ties in
        no particular order) and gives each task its position as index. */
    method Sort()
      modifies this`items, this`isSorted, Tasks()`index
      ensures isSorted && Tasks() == old(Tasks())
      ensures SortedView(old(Snapshot()), Snapshot(), old(isSorted))
      ensures current == old(current) && (current != null ==> current.config == old(current.config) && current.State() == old(current.State()) && current.executeNextTask == old(current.executeNextTask))
    {
      if isSorted {
        return;
      }
      var sorted := OrderedByOrder(items);
      Sorting.SameMembers(sorted, items);
      Sorting.SameMembers(items, sorted);
      AssignIndices(sorted);
      IndexedIsPositioned(sorted);
      Reorder(sorted);
    }

    /** The end of `sort`: the list is replaced by its sorted order. */
    method Reorder(sorted: seq<Task>)
      requires forall x | x in sorted :: x in items
      requires forall x | x in items :: x in sorted
      modifies this`items, this`isSorted
      ensures items == sorted && isSorted
      ensures Tasks() == old(Tasks())
      ensures Snapshot() == old(Snapshot()).(items := sorted)
      ensures current == old(current) && (current != null ==> current.config == old(current.config) && current.State() == old(current.State()) && current.executeNextTask == old(current.executeNextTask))
    {
      ghost var ts := Tasks();
      items := sorted;
      isSorted := true;
      assert Tasks() == ts;
    }

    /** The loop of `sort` that gives each task its position as index. */
    method AssignIndices(tasks: seq<Task>)
      requires forall x | x in tasks :: x in items
      modifies Tasks()`index
      ensures IndexedByPosition(tasks)
      ensures Snapshot() == old(Snapshot()).(index := IndexesOf(Tasks()))
      ensures current == old(current) && (current != null ==> current.config == old(current.config) && current.State() == old(current.State()) && current.executeNextTask == old(current.executeNextTask))
    {
      var k := 0;
      while k < |tasks|
        invariant 0 <= k <= |tasks|
        invariant forall j | 0 <= j < k :: LastPosition(tasks[..k], tasks[j], tasks[j].index)
      {
        assert tasks[k] in tasks;
        tasks[k].index := k;
        k := k + 1;
      }
    }

    /** The task set as current, as a set for frames. */
    function Current(): set<Task>
      reads this`current
    {
      if current == null then {} else {current}
    }

    /** The tasks of the list, as a set for frames. */
    function Tasks(): set<Task>
      reads this`items
    {
      set t | t in items
    }

    /** `Stop`. */
    method Stop()
      modifies this`isStarted, this`trace
      ensures !isStarted
      ensures trace == old(trace) + if onStop.Some? then [Called(onStop.value, ManagerStopCall)] else []
    {
      isStarted := false;
      if onStop.Some? {
        trace := trace + [Called(onStop.value, ManagerStopCall)];
      }
    }

    /** `Reset`: stops, forgets the current task and resets every task; the list is kept. */
    method Reset()
      modifies this`isStarted, this`current, items`err, items`status, items`executeNextTask, items`attempts
      ensures !isStarted && current == null
      ensures forall t | t in items :: IsReset(t)
    {
      isStarted := false;
      current := null;
      var k := 0;
      while k < |items|
        invariant 0 <= k <= |items|
        invariant forall j | 0 <= j < k :: IsReset(items[j])
        invariant !isStarted && current == null
      {
        assert items[k] in items;
        items[k].Reset();
        k := k + 1;
      }
    }

    /** The state of every task of the list. */
    ghost function States(): map<Task, TaskState>
      reads this`items, Tasks()`err, Tasks()`status, Tasks()`attempts, Tasks()`retries, Tasks()`message, Tasks()`calls
    {
      StatesOf(Tasks())
    }

    /** The manager as a chain of runs reads and writes it. */
    ghost function Snapshot(): View
      reads this`items, this`current, this`isStarted, this`trace, this`observers, this`onComplete
      reads Tasks()`index, Tasks()`config
      reads Tasks()`err, Tasks()`status, Tasks()`attempts, Tasks()`retries, Tasks()`message, Tasks()`calls
    {
      View(items, IndexesOf(Tasks()), ConfigsOf(Tasks()), StatesOf(Tasks()), current, isStarted, trace, observers, onComplete)
    }

    /** Marks the manager started or stopped; nothing else changes. */
    method SetStarted(b: bool)
      modifies this`isStarted
      ensures isStarted == b
      ensures Snapshot() == old(Snapshot()).(started := b)
    {
      isStarted := b;
    }

    /** Records calls; nothing else changes. */
    method Record(events: seq<Event>)
      modifies this`trace
      ensures trace == old(trace) + events
      ensures Snapshot() == old(Snapshot()).(trace := old(trace) + events)
    {
      trace := trace + events;
    }

    /** `Once`: runs the first task with that name by itself, with chaining
        suppressed for that run; `task` is the task found, if any. The
        end-of-run callback then stops the manager, since the task does not
        let the chain go on. */
    method Once(name: string) returns (err: Option<Error>, task: Task?, events: seq<Event>)
      modifies this`isStarted, this`trace
      modifies items`err, items`status, items`executeNextTask, items`attempts, items`retries, items`message, items`calls
      ensures var k := FirstNamed(items, name); task == if k < 0 then null else items[k]
      ensures task == null ==>
        err == Some(Msg("task not found")) && trace == old(trace) && isStarted == old(isStarted)
      ensures task == null ==> forall t | t in items :: t.State() == old(t.State()) && t.executeNextTask == old(t.executeNextTask)
      ensures task != null ==>
        && (task.State(), events) == StartRun(task.Config(), ResetState(old(task.State())), task, observers)
        && err == task.err && task.executeNextTask
        && trace == old(trace) + events
        && (task.config.managed ==> !isStarted)
        && (!task.config.managed ==> isStarted == old(isStarted))
      ensures task != null ==>
        forall t | t in items && t != task :: t.State() == old(t.State()) && t.executeNextTask == old(t.executeNextTask)
    {
      task := Get(name);
      if task == null {
        return Some(Msg("task not found")), task, [];
      }
      events := RunAlone(task);
      err := task.err;
    }

    /** The run of `Once` on the task found: reset and run with chaining
        suppressed, after which its end-of-run callback stops the manager;
        then chaining is enabled again. */
    method RunAlone(task: Task) returns (events: seq<Event>)
      modifies this`isStarted, this`trace
      modifies task`err, task`status, task`executeNextTask, task`attempts, task`retries, task`message, task`calls
      ensures (task.State(), events) == StartRun(task.Config(), ResetState(old(task.State())), task, observers)
      ensures task.executeNextTask && trace == old(trace) + events
      ensures task.config.managed ==> !isStarted
      ensures !task.config.managed ==> isStarted == old(isStarted)
    {
      task.Reset();
      task.executeNextTask := false;
      events := task.Start(observers);
      trace := trace + events;
      if task.config.managed {
        isStarted := false;
      }
      task.executeNextTask := true;
    }

    /** The onStart call, when a callback is set. */
    function StartCall(): seq<Event>
      reads this`onStart
    {
      if onStart.Some? then [Called(onStart.value, ManagerStartCall)] else []
    }

    /** `Start`: sorts (once), then, unless there are no tasks, marks the
        manager started, calls onStart and either runs the chain from index 0
        (`ran`, `runs`, `completed`) or resumes the current task (`first`,
        then the chain from it when `chained`). The chain starts from the
        manager as sorting and onStart leave it. */
    method Start() returns (ghost c: Task?, ghost cfg: TaskConfig, ghost st: TaskState, ghost goOn: bool,
                            ghost sorted: View, ghost launched: View, ghost after: View, ghost post: TaskState,
                            ghost first: Run, ghost chained: bool, ghost ran: seq<Task>, ghost runs: seq<Run>, ghost completed: bool)
      modifies this`items, this`isSorted, this`isStarted, this`current, this`trace, Tasks()`index
      modifies Tasks()`err, Tasks()`status, Tasks()`executeNextTask, Tasks()`attempts, Tasks()`retries, Tasks()`message, Tasks()`calls
      modifies Current()`err, Current()`status, Current()`attempts, Current()`retries, Current()`message, Current()`calls
      ensures isSorted
      ensures c == old(current) && (c != null ==> cfg == old(current.config) && st == old(current.State()) && goOn == old(current.executeNextTask))
      ensures after == Snapshot() && (c != null ==> post == c.State())
      ensures launched == sorted.(started := true, trace := sorted.trace + StartCall())
      ensures after.items == sorted.items && after.index == sorted.index
      ensures |sorted.items| == 0 ==> after == sorted && (c != null ==> post == st)
      ensures |sorted.items| > 0 && c == null ==> ChainEnd(launched, after, null, ran, runs, completed) && Ran(launched, ran, runs)
      ensures |sorted.items| > 0 && c != null ==> Resumed(c, cfg, st, goOn, launched, after, post, first, chained, ran, runs, completed)
      ensures SortedView(old(Snapshot()), sorted, old(isSorted))
    {
      first :| true;
      c, cfg, st, goOn := current, if current == null then first.config else current.config,
        if current == null then first.start else current.State(), current != null && current.executeNextTask;
      Sort();
      sorted := Snapshot();
      assert current == c;
      assert c != null ==> cfg == c.config && st == c.State() && goOn == c.executeNextTask;
      launched := sorted.(started := true, trace := sorted.trace + StartCall());
      after, post, first, chained, ran, runs, completed := Begin(launched, c, cfg, st, goOn);
    }

    /** `Start` once sorted: nothing on an empty list, otherwise `Launch`.
        `vs` is the manager as `Launch` marks it started and calls onStart,
        and `c` is the current task with its configuration, state and
        chaining flag; `after` is the manager and `post` the state of `c`
        once done. */
    method Begin(ghost vs: View, ghost c: Task?, ghost cfg: TaskConfig, ghost st: TaskState, ghost goOn: bool)
      returns (ghost after: View, ghost post: TaskState, ghost first: Run, ghost chained: bool, ghost ran: seq<Task>,
               ghost runs: seq<Run>, ghost completed: bool)
      requires vs == Snapshot().(started := true, trace := trace + StartCall())
      requires c == current && (c != null ==> cfg == c.config && st == c.State() && goOn == c.executeNextTask)
      modifies this`isStarted, this`current, this`trace
      modifies Tasks()`err, Tasks()`status, Tasks()`executeNextTask, Tasks()`attempts, Tasks()`retries, Tasks()`message, Tasks()`calls
      modifies Current()`err, Current()`status, Current()`attempts, Current()`retries, Current()`message, Current()`calls
      ensures isSorted == old(isSorted)
      ensures after == Snapshot() && (c != null ==> post == c.State())
      ensures after.items == vs.items && after.index == vs.index
      ensures |vs.items| == 0 ==> after == old(Snapshot()) && (c != null ==> post == st)
      ensures |vs.items| > 0 && c == null ==> ChainEnd(vs, after, null, ran, runs, completed) && Ran(vs, ran, runs)
      ensures |vs.items| > 0 && c != null ==> Resumed(c, cfg, st, goOn, vs, after, post, first, chained, ran, runs, completed)
    {
      first :| true;
      ran, runs, completed, chained := [], [], false, false;
      if |items| > 0 {
        first, chained, ran, runs, completed := Launch();
      }
      after, post := Snapshot(), if c == null then st else c.State();
    }

    /** `Start` on a non-empty list, once sorted. */
    method Launch() returns (ghost first: Run, ghost chained: bool, ghost ran: seq<Task>, ghost runs: seq<Run>,
                             ghost completed: bool)
      requires |items| > 0
      modifies this`isStarted, this`current, this`trace
      ensures Snapshot().items == old(Snapshot().items) && Snapshot().index == old(Snapshot().index)
      modifies items`err, items`status, items`executeNextTask, items`attempts, items`retries, items`message, items`calls
      modifies Current()`err, Current()`status, Current()`attempts, Current()`retries, Current()`message, Current()`calls
      ensures var vs := old(Snapshot()).(started := true, trace := old(trace) + StartCall());
        old(current) == null ==> ChainEnd(vs, Snapshot(), null, ran, runs, completed) && Ran(vs, ran, runs)
      ensures var vs := old(Snapshot()).(started := true, trace := old(trace) + StartCall());
        old(current) != null ==>
          Resumed(old(current), old(current.config), old(current.State()), old(current.executeNextTask), vs, Snapshot(),
                  old(current).State(), first, chained, ran, runs, completed)
    {
      first :| true;
      chained := false;
      SetStarted(true);
      Record(StartCall());
      if current == null {
        ran, runs, completed := RunNext(null);
      } else {
        first, chained, ran, runs, completed := Resume();
      }
    }

    /** The end of `Start` when a task is current: that task runs, and its
        end-of-run callback, when this manager installed it, carries on as for any task. */
    method Resume() returns (ghost first: Run, ghost chained: bool, ghost ran: seq<Task>, ghost runs: seq<Run>,
                             ghost completed: bool)
      requires current != null && isStarted
      modifies this`isStarted, this`current, this`trace
      modifies items`err, items`status, items`executeNextTask, items`attempts, items`retries, items`message, items`calls
      modifies Current()`err, Current()`status, Current()`attempts, Current()`retries, Current()`message, Current()`calls
      ensures Resumed(old(current), old(current.config), old(current.State()), old(current.executeNextTask), old(Snapshot()), Snapshot(),
                      old(current).State(), first, chained, ran, runs, completed)
    {
      var task := current;
      ghost var v := Snapshot();
      ghost var c, pre, goOn := task.config, task.State(), task.executeNextTask;
      var events := RunTask(task);
      first := Run(c, pre, task.State(), events);
      ghost var va := Snapshot();
      assert va == AfterFirst(v, task, first);
      assert first.end.err == task.err && goOn == task.executeNextTask;
      chained, ran, runs, completed := false, [], [], false;
      if task.config.managed && task in items {
        chained, ran, runs, completed := Continue(task);
      }
      ResumedBy(task, c, pre, goOn, v, va, Snapshot(), task.State(), first, chained, ran, runs, completed);
    }

    /** The end-of-run callback installed by `Add`, once `task` has run: an
        error or suppressed chaining stops the manager, otherwise the chain
        goes on from `task` (`chained`). */
    method Continue(task: Task) returns (ghost chained: bool, ghost ran: seq<Task>, ghost runs: seq<Run>, ghost completed: bool)
      requires task in items
      modifies this`isStarted, this`current, this`trace
      modifies items`err, items`status, items`executeNextTask, items`attempts, items`retries, items`message, items`calls
      ensures chained <==> old(task.err) == None && old(task.executeNextTask)
      ensures !chained ==> Snapshot() == old(Snapshot()).(started := false) && task.State() == old(task.State())
      ensures chained ==> ChainEnd(old(Snapshot()), Snapshot(), task, ran, runs, completed) && Ran(old(Snapshot()), ran, runs)
    {
      chained := task.err == None && task.executeNextTask;
      ran, runs, completed := [], [], false;
      if task.err.Some? || !task.executeNextTask {
        SetStarted(false);
      } else {
        ran, runs, completed := RunNext(task);
      }
    }

    /** `runNext`, with the recursion through each task's end-of-run callback
        unfolded into a loop: `ran` are the tasks started, in order, `runs`
        what each run did, and `completed` says whether the chain got past
        the last index. */
    method RunNext(from: Task?) returns (ghost ran: seq<Task>, ghost runs: seq<Run>, ghost completed: bool)
      requires from == null || from in items
      modifies this`isStarted, this`current, this`trace
      modifies items`err, items`status, items`executeNextTask, items`attempts, items`retries, items`message, items`calls
      ensures ChainEnd(old(Snapshot()), Snapshot(), from, ran, runs, completed)
      ensures Ran(old(Snapshot()), ran, runs)
    {
      ghost var v0 := Snapshot();
      Begins(v0, from);
      ran, runs, completed := [], [], false;
      var cur := from;
      var stop := false;
      while !stop
        invariant Keyed(v0) && (cur == null || cur in v0.items)
        invariant !stop ==> ChainInv(v0, Snapshot(), from, cur, ran, runs)
        invariant stop ==> ChainEnd(v0, Snapshot(), from, ran, runs, completed)
        invariant Ran(v0, ran, runs)
        decreases |v0.items| - IndexOf(v0, cur), if stop then 0 else 1
      {
        var task;
        task, stop, ran, runs, completed := Step(cur, v0, from, ran, runs);
        if !stop {
          cur := task;
        }
      }
    }

    /** One turn of the chain: the checks `runNext` makes on the task `cur`
        that just ended (none at the start), then, when a next task exists,
        the run of that task and the checks of its end-of-run callback.
        `task` is the task that ran, or null; `stop` says that the chain
        ends here; a task that ran extends `ran` and `runs`. */
    method Step(cur: Task?, ghost v0: View, ghost from: Task?, ghost ran: seq<Task>, ghost runs: seq<Run>)
      returns (task: Task?, stop: bool, ghost ran1: seq<Task>, ghost runs1: seq<Run>, ghost completed: bool)
      requires Keyed(v0) && (cur == null || cur in v0.items)
      requires ChainInv(v0, Snapshot(), from, cur, ran, runs) && Ran(v0, ran, runs)
      modifies this`isStarted, this`current, this`trace
      modifies items`err, items`status, items`executeNextTask, items`attempts, items`retries, items`message, items`calls
      ensures !stop ==> task != null && task in v0.items && v0.index[task] == IndexOf(v0, cur) + 1 <= |v0.items| - 1
      ensures !stop ==> ChainInv(v0, Snapshot(), from, task, ran1, runs1)
      ensures stop ==> ChainEnd(v0, Snapshot(), from, ran1, runs1, completed)
      ensures Ran(v0, ran1, runs1)
    {
      ran1, runs1, completed := ran, runs, false;
      ghost var v := Snapshot();
      CurListed(v0, v, from, cur, ran, runs);
      // A stopped manager stays stopped; one whose last task failed stops.
      if (cur != null && cur.err.Some?) || !isStarted {
        Halt(cur, v0, from, ran, runs);
        return null, true, ran1, runs1, completed;
      }
      task, stop, ran1, runs1, completed := Seek(cur, v0, from, ran, runs);
    }

    /** The rest of a turn once the chain goes on: the next task is looked
        for, then runs, or the chain ends when there is none. */
    method Seek(cur: Task?, ghost v0: View, ghost from: Task?, ghost ran: seq<Task>, ghost runs: seq<Run>)
      returns (task: Task?, stop: bool, ghost ran1: seq<Task>, ghost runs1: seq<Run>, ghost completed: bool)
      requires Keyed(v0) && (cur == null || cur in v0.items)
      requires ChainInv(v0, Snapshot(), from, cur, ran, runs) && Ran(v0, ran, runs)
      requires cur == null || cur in items
      requires isStarted && (cur == null || cur.err == None)
      modifies this`isStarted, this`current, this`trace
      modifies items`err, items`status, items`executeNextTask, items`attempts, items`retries, items`message, items`calls
      ensures !stop ==> task != null && task in v0.items && v0.index[task] == IndexOf(v0, cur) + 1 <= |v0.items| - 1
      ensures !stop ==> ChainInv(v0, Snapshot(), from, task, ran1, runs1)
      ensures stop ==> ChainEnd(v0, Snapshot(), from, ran1, runs1, completed)
      ensures Ran(v0, ran1, runs1)
    {
      ran1, runs1, completed := ran, runs, false;
      ghost var v := Snapshot();
      var done;
      ghost var k;
      task, done, k := Move(true, After(cur));
      if done || task == null {
        End(done, cur, v0, v, from, ran, runs);
        return null, true, ran1, runs1, done;
      }
      task, stop, ran1, runs1 := Turn(task, k, cur, v0, v, from, ran, runs);
    }

    /** The chain ends before a next task is looked for: the manager was
        stopped, or the task that just ran failed. */
    method Halt(cur: Task?, ghost v0: View, ghost from: Task?, ghost ran: seq<Task>, ghost runs: seq<Run>)
      requires ChainInv(v0, Snapshot(), from, cur, ran, runs)
      requires (cur != null && cur in items && cur.err.Some?) || !isStarted
      modifies this`isStarted
      ensures ChainEnd(v0, Snapshot(), from, ran, runs, false)
    {
      ghost var v := Snapshot();
      SetStarted(false);
      Halts(v0, v, from, cur, ran, runs);
    }

    /** The chain ends when no next task is found: past the last index it
        has completed and onComplete is called; a missing index just stops. */
    method End(done: bool, cur: Task?, ghost v0: View, ghost v: View, ghost from: Task?, ghost ran: seq<Task>, ghost runs: seq<Run>)
      requires v == Snapshot() && ChainInv(v0, v, from, cur, ran, runs)
      requires isStarted && (cur == null || (cur in items && cur.err == None))
      requires done ==> After(cur) + 1 > |items| - 1
      requires !done ==> After(cur) + 1 <= |items| - 1 && forall t | t in items :: t.index != After(cur) + 1
      modifies this`isStarted, this`trace
      ensures ChainEnd(v0, Snapshot(), from, ran, runs, done)
    {
      CurListed(v0, v, from, cur, ran, runs);
      SetStarted(false);
      if done && onComplete.Some? {
        Record([Called(onComplete.value, ManagerCompleteCall)]);
      }
      Ends(v0, v, from, cur, ran, runs, done);
    }

    /** The turn of the chain once the next task `next` is found: it runs
        as `runNext` ends, then its end-of-run callback decides whether the
        chain goes on. */
    method Turn(next: Task, ghost k: int, cur: Task?, ghost v0: View, ghost v: View, ghost from: Task?, ghost ran: seq<Task>,
                ghost runs: seq<Run>)
      returns (task: Task, stop: bool, ghost ran1: seq<Task>, ghost runs1: seq<Run>)
      requires v == Snapshot() && ChainInv(v0, v, from, cur, ran, runs) && Ran(v0, ran, runs)
      requires cur == null || cur in items
      requires next in items && next.index == After(cur) + 1 <= |items| - 1
      requires 0 <= k < |items| && items[k] == next && forall j | 0 <= j < k :: items[j].index != next.index
      requires isStarted && (cur == null || cur.err == None)
      modifies this`isStarted, this`current, this`trace
      modifies items`err, items`status, items`executeNextTask, items`attempts, items`retries, items`message, items`calls
      ensures task == next
      ensures !stop ==> ChainInv(v0, Snapshot(), from, task, ran1, runs1)
      ensures stop ==> ChainEnd(v0, Snapshot(), from, ran1, runs1, false)
      ensures Ran(v0, ran1, runs1)
    {
      task := next;
      CurListed(v0, v, from, cur, ran, runs);
      assert FirstHolding(v0, next, IndexOf(v0, cur) + 1) by {
        assert v0.items == items && v0.index == IndexesOf(Tasks());
        FirstAtIs(v0.items, v0.index, IndexOf(v0, cur) + 1, k);
      }
      ghost var r := Advance(next, cur);
      Turns(v0, v, from, cur, ran, runs, next, r);
      RanGrows(v0, ran, runs, next, r);
      ran1, runs1 := ran + [next], runs + [r];
      stop := !task.config.managed || task.err.Some? || !task.executeNextTask;
      if task.config.managed && stop {
        SetStarted(false);
      }
    }

    /** The end of `runNext` once the next task is found: both the next task
        and the one just finished are reset, the next one becomes current and
        runs as `r`. */
    method Advance(task: Task, cur: Task?) returns (ghost r: Run)
      requires task in items && (cur == null || cur in items) && task != cur
      modifies this`current, this`trace
      modifies task`err, task`status, task`executeNextTask, task`attempts, task`retries, task`message, task`calls
      modifies Maybe(cur)`err, Maybe(cur)`status, Maybe(cur)`executeNextTask, Maybe(cur)`attempts
      ensures task.executeNextTask && task.err == r.end.err
      ensures r.config == task.config && r.start == ResetState(old(task.State())) && IsRun(task, r, observers)
      ensures forall e | e in r.events :: !ManagerCall(e)
      ensures Snapshot() == Stepped(old(Snapshot()), cur, task, r)
    {
      ghost var v := Snapshot();
      Prepare(task, cur);
      ghost var start := task.State();
      var events := RunTask(task);
      r := Run(task.config, start, task.State(), events);
      TurnedByResets(v.state, cur, task, r);
    }

    /** The resets and the change of current task that precede the run of
        the next task. */
    method Prepare(task: Task, cur: Task?)
      requires task in items && (cur == null || cur in items) && task != cur
      modifies this`current
      modifies task`err, task`status, task`executeNextTask, task`attempts
      modifies Maybe(cur)`err, Maybe(cur)`status, Maybe(cur)`executeNextTask, Maybe(cur)`attempts
      ensures task.executeNextTask && task.State() == ResetState(old(task.State()))
      ensures var s1 := old(Snapshot().state)[task := ResetState(old(Snapshot().state)[task])];
        Snapshot() == old(Snapshot()).(state := if cur == null then s1 else s1[cur := ResetState(s1[cur])], current := task)
    {
      ResetListed(task);
      if cur != null {
        ResetListed(cur);
      }
      SetCurrent(task);
    }

    /** `reset` of a task of the list; nothing else changes. */
    method ResetListed(task: Task)
      requires task in items
      modifies task`err, task`status, task`executeNextTask, task`attempts
      ensures task.executeNextTask
      ensures Snapshot() == old(Snapshot()).(state := old(Snapshot().state)[task := ResetState(old(Snapshot().state)[task])])
    {
      ghost var s := States()[task := ResetState(task.State())];
      task.Reset();
      forall u | u in items ensures States()[u] == s[u] {
        if u != task {
          assert u.State() == old(u.State());
        }
      }
      assert States() == s;
      assert IndexesOf(Tasks()) == old(IndexesOf(Tasks()));
      assert ConfigsOf(Tasks()) == old(ConfigsOf(Tasks()));
    }

    /** A task's `Start`, against this manager's observers, with its calls appended to the trace. */
    method RunTask(task: Task) returns (events: seq<Event>)
      modifies this`trace, task`err, task`status, task`attempts, task`retries, task`message, task`calls
      ensures (task.State(), events) == StartRun(task.config, old(task.State()), task, observers)
      ensures trace == old(trace) + events && forall e | e in events :: !ManagerCall(e)
      ensures task.executeNextTask == old(task.executeNextTask) && task.config == old(task.config)
      ensures Snapshot() == old(Snapshot()).(state := if task in items then old(Snapshot().state)[task := task.State()] else old(Snapshot().state),
                                             trace := old(trace) + events)
    {
      ghost var before, s0, goOn := task.State(), States(), task.executeNextTask;
      events := task.Start(observers);
      assert task.executeNextTask == goOn;
      StartRunCallsOnlyTaskHooks(task.config, before, task, observers);
      ghost var s := if task in items then s0[task := task.State()] else s0;
      forall u | u in items ensures States()[u] == s[u] {
        if u != task {
          assert u.State() == old(u.State());
        }
      }
      assert States() == s;
      assert IndexesOf(Tasks()) == old(IndexesOf(Tasks()));
      assert ConfigsOf(Tasks()) == old(ConfigsOf(Tasks()));
      Record(events);
    }
  }

  lemma FirstNamedIs(items: seq<Task>, name: string, k: int)
    requires -1 <= k < |items|
    requires k >= 0 ==> items[k].name == name
    requires forall j | 0 <= j < |items| && (k < 0 || j < k) :: items[j].name != name
    ensures FirstNamed(items, name) == k
  {
  }
}
