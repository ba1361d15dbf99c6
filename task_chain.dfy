/** The runs a chain of tasks makes, as values: what each run did, the calls
    the runs made in order, and how the runs of one chain follow each other. */
module TaskChain {
  import opened Common
  import opened Tasks

  /** One run of a task: the configuration it ran with, the state `Start`
      was called on, the state it left and the calls it made. */
  datatype Run = Run(config: TaskConfig, start: TaskState, end: TaskState, events: seq<Event>)

  /** `r` is what `Start` does to `t` against these observers. */
  predicate IsRun(t: Task, r: Run, observers: seq<nat>) {
    (r.end, r.events) == StartRun(r.config, r.start, t, observers)
  }

  /** The calls made by a sequence of runs, in order. */
  function Calls(runs: seq<Run>): seq<Event> {
    if runs == [] then [] else Calls(runs[..|runs| - 1]) + runs[|runs| - 1].events
  }

  lemma CallsSnoc(runs: seq<Run>, r: Run)
    ensures Calls(runs + [r]) == Calls(runs) + r.events
  {
    assert (runs + [r])[..|runs|] == runs;
  }

  /** `t`, found in state `s0[t]`, ran as `r` from that state once reset. */
  ghost predicate RanFrom(s0: map<Task, TaskState>, t: Task, r: Run, observers: seq<nat>) {
    t in s0 && r.start == ResetState(s0[t]) && IsRun(t, r, observers)
  }

  /** The tasks `ran`, found in the states `s0`, ran one after another as `runs` say, and each but the last ended
      without an error and was a task manager's, so that the chain went on. */
  ghost predicate RanAs(s0: map<Task, TaskState>, ran: seq<Task>, runs: seq<Run>,
                        observers: seq<nat>)
    decreases |ran|
  {
    && |runs| == |ran|
    && (ran != [] ==>
          && RanAs(s0, ran[..|ran| - 1], runs[..|ran| - 1], observers)
          && RanFrom(s0, ran[|ran| - 1], runs[|ran| - 1], observers)
          && (|ran| >= 2 ==> runs[|ran| - 2].end.err == None && runs[|ran| - 2].config.managed))
  }

  /** `ran1` and `runs1` are `ran` and `runs` with one more task, which ran
      from its recorded state as the last of `runs1`. */
  ghost predicate Extends(s0: map<Task, TaskState>, ran: seq<Task>, runs: seq<Run>,
                          ran1: seq<Task>, runs1: seq<Run>, observers: seq<nat>)
  {
    && |ran1| == |ran| + 1 && |runs1| == |ran1|
    && ran1[..|ran|] == ran && runs1[..|ran|] == runs
    && RanFrom(s0, ran1[|ran|], runs1[|ran|], observers)
  }

  /** Each of `runs` was made with the configuration `cs` records for the task it ran. */
  ghost predicate ConfiguredBy(cs: map<Task, TaskConfig>, ran: seq<Task>, runs: seq<Run>) {
    && |runs| == |ran|
    && forall k | 0 <= k < |ran| :: ran[k] in cs && runs[k].config == cs[ran[k]]
  }

  /** `ConfiguredBy` holds of a chain that grows by runs for which it holds. */
  lemma ConfiguredByAppend(cs: map<Task, TaskConfig>, ran: seq<Task>, runs: seq<Run>, ran1: seq<Task>, runs1: seq<Run>)
    requires ConfiguredBy(cs, ran, runs) && |ran1| == |runs1| && |ran| <= |ran1|
    requires ran1[..|ran|] == ran && runs1[..|ran|] == runs && ConfiguredBy(cs, ran1[|ran|..], runs1[|ran|..])
    ensures ConfiguredBy(cs, ran1, runs1)
  {
    forall k | 0 <= k < |ran1| ensures ran1[k] in cs && runs1[k].config == cs[ran1[k]] {
      if k < |ran| {
        assert ran1[k] == ran[k] && runs1[k] == runs[k];
      } else {
        assert ran1[k] == ran1[|ran|..][k - |ran|] && runs1[k] == runs1[|ran|..][k - |ran|];
      }
    }
  }

  /** The task states `s` a chain leaves when it went on from `from` (from
      the start when null) over the task states `s0` and ran `ran`, in turn
      and each once, as `runs` say: the last of `ran` is as its run left it,
      `from` and the others were reset when the next one started, and every
      other task is as it was. */
  ghost predicate Progress(s0: map<Task, TaskState>, s: map<Task, TaskState>, from: Task?,
                           ran: seq<Task>, runs: seq<Run>)
  {
    && s.Keys == s0.Keys && |runs| == |ran|
    && (forall i, j | 0 <= i < j < |ran| :: ran[i] != ran[j])
    && (from != null ==> from !in ran)
    && (forall t | t in s && t !in ran && (ran == [] || t != from) :: s[t] == s0[t])
    && (ran != [] && from != null ==> from in s && s[from] == ResetState(s0[from]))
    && (forall k | 0 <= k < |ran| - 1 :: ran[k] in s && s[ran[k]] == ResetState(runs[k].end))
    && (ran != [] ==> ran[|ran| - 1] in s && s[ran[|ran| - 1]] == runs[|ran| - 1].end)
  }

  /** The task states after one turn of a chain over the states `s`: the
      task `cur` that just ended (none at the start) is reset, and `next`
      is as its run `r` left it. */
  function Turned(s: map<Task, TaskState>, cur: Task?, next: Task, r: Run): (s1: map<Task, TaskState>)
    requires cur != null ==> cur in s
    ensures s1.Keys == s.Keys + {next}
    ensures s1[next] == r.end
    ensures cur != null && cur != next ==> s1[cur] == ResetState(s[cur])
    ensures forall t | t in s && t != next && t != cur :: s1[t] == s[t]
  {
    (if cur == null then s else s[cur := ResetState(s[cur])])[next := r.end]
  }

  /** A turn of the chain keeps `Progress`: the next task, a task the chain
      has not touched yet, was found as `s0` says, and joins `ran`. */
  lemma ProgressExtends(s0: map<Task, TaskState>, s: map<Task, TaskState>, from: Task?,
                        ran: seq<Task>, runs: seq<Run>, cur: Task?, next: Task, r: Run)
    requires Progress(s0, s, from, ran, runs)
    requires cur == if ran == [] then from else ran[|ran| - 1]
    requires cur != null ==> cur in s
    requires next in s && next !in ran && next != from
    ensures next in s0 && s[next] == s0[next]
    ensures Progress(s0, Turned(s, cur, next, r), from, ran + [next], runs + [r])
  {
    var s1, ran1, runs1 := Turned(s, cur, next, r), ran + [next], runs + [r];
    forall k | 0 <= k < |ran1| - 1 ensures ran1[k] in s1 && s1[ran1[k]] == ResetState(runs1[k].end) {
      assert ran1[k] == ran[k] && runs1[k] == runs[k];
      if k < |ran| - 1 {
        assert ran[k] != ran[|ran| - 1];
      }
    }
    forall i, j | 0 <= i < j < |ran1| ensures ran1[i] != ran1[j] {
      assert ran1[i] == ran[i];
      if j < |ran| {
        assert ran1[j] == ran[j];
      }
    }
  }

  /** A chain whose last run ended without an error, by a task manager's
      task, goes on with one more run. */
  lemma RanAsExtends(s0: map<Task, TaskState>, ran: seq<Task>, runs: seq<Run>,
                     ran1: seq<Task>, runs1: seq<Run>, observers: seq<nat>)
    requires RanAs(s0, ran, runs, observers) && Extends(s0, ran, runs, ran1, runs1, observers)
    requires ran != [] ==> runs[|ran| - 1].end.err == None && runs[|ran| - 1].config.managed
    ensures RanAs(s0, ran1, runs1, observers)
  {
    assert ran1[..|ran1| - 1] == ran && runs1[..|ran1| - 1] == runs;
    if ran != [] {
      assert runs1[|ran1| - 2] == runs[|ran| - 1];
    }
  }

  /** What a chain reads and writes of a task manager: its task list, the
      index, configuration and state of each listed task, the current task,
      whether the manager is started, the calls made so far, the status
      observers and the onComplete callback. */
  datatype View = View(items: seq<Task>, index: map<Task, int>, config: map<Task, TaskConfig>,
                       state: map<Task, TaskState>, current: Task?, started: bool, trace: seq<Event>,
                       observers: seq<nat>, onComplete: Option<nat>)

  /** Every listed task has an index, a configuration and a state. */
  ghost predicate Keyed(v: View) {
    forall t | t in v.items :: t in v.index && t in v.config && t in v.state
  }

  /** The index after which `runNext(t)` looks for the next task. */
  function IndexOf(v: View, t: Task?): int
    requires t == null || t in v.index
  {
    if t == null then -1 else v.index[t]
  }

  /** No listed task holds index `i`. */
  ghost predicate NoTaskAt(v: View, i: int)
    requires Keyed(v)
  {
    forall t | t in v.items :: v.index[t] != i
  }

  /** The position of the first of `items` holding index `i`, or -1: the
      task `move` finds for `i` is the one there. */
  function FirstAt(items: seq<Task>, index: map<Task, int>, i: int): (p: int)
    requires forall t | t in items :: t in index
    ensures -1 <= p < |items|
    ensures p >= 0 ==> index[items[p]] == i
    ensures forall j | 0 <= j < |items| && (p < 0 || j < p) :: index[items[j]] != i
    decreases |items|
  {
    if items == [] then -1
    else if index[items[0]] == i then 0
    else
      var p := FirstAt(items[1..], index, i);
      if p < 0 then -1 else p + 1
  }

  /** A position holding `i` with no earlier one is the first. */
  lemma {:induction false} FirstAtIs(items: seq<Task>, index: map<Task, int>, i: int, k: int)
    requires forall t | t in items :: t in index
    requires 0 <= k < |items| && index[items[k]] == i
    requires forall j | 0 <= j < k :: index[items[j]] != i
    ensures FirstAt(items, index, i) == k
    decreases |items|
  {
    if k > 0 {
      FirstAtIs(items[1..], index, i, k - 1);
    }
  }

  /** `t` is the task `move` finds for index `i`: the first listed task holding it. */
  ghost predicate FirstHolding(v: View, t: Task, i: int)
    requires Keyed(v)
  {
    var p := FirstAt(v.items, v.index, i);
    p >= 0 && v.items[p] == t
  }

  /** The tasks `ran` hold consecutive indexes after `from`, each the first
      listed task holding its index. */
  ghost predicate Consecutive(v: View, from: Task?, ran: seq<Task>)
    requires Keyed(v) && (from == null || from in v.items)
  {
    forall k | 0 <= k < |ran| ::
      ran[k] in v.items && v.index[ran[k]] == IndexOf(v, from) + 1 + k && FirstHolding(v, ran[k], IndexOf(v, from) + 1 + k)
  }

  /** The onComplete call, when the chain completed and a callback is set. */
  function CompleteCall(onComplete: Option<nat>, completed: bool): seq<Event> {
    if completed && onComplete.Some? then [Called(onComplete.value, ManagerCompleteCall)] else []
  }

  /** Every listed task carries the task manager's end-of-run callback. */
  ghost predicate AllManaged(v: View)
    requires Keyed(v)
  {
    forall t | t in v.items :: v.config[t].managed
  }

  /** `from` had failed when the chain from it began. */
  ghost predicate FromFailed(v: View, from: Task?)
    requires Keyed(v) && (from == null || from in v.items)
  {
    from != null && v.state[from].err.Some?
  }

  /** What holds of the chain started by `runNext(from)` on the manager as
      `v0` shows it, once it has run `ran` as `runs` and the manager is as
      `v` shows it: the list, indexes, configurations, observers and
      callback are untouched, the tasks of `ran` hold consecutive indexes
      after `from`, the task states are as `Progress` says, the runs called
      no hook of the manager, and the last of `ran` (else the task current
      before) is current. */
  ghost predicate Core(v0: View, v: View, from: Task?, ran: seq<Task>, runs: seq<Run>) {
    && Keyed(v0)
    && (v.items, v.index, v.config, v.observers, v.onComplete) == (v0.items, v0.index, v0.config, v0.observers, v0.onComplete)
    && (from != null ==> from in v0.items)
    && Consecutive(v0, from, ran)
    && Progress(v0.state, v.state, from, ran, runs)
    && (forall e | e in Calls(runs) :: !ManagerCall(e))
    && v.current == if ran == [] then v0.current else ran[|ran| - 1]
  }

  /** What holds between two turns of the chain, `cur` being the task that
      has just ended (`from` at the start): it made the calls of `runs`, and
      once a task ran the manager was started, `from` had not failed, and
      the last run ended without an error, by a task of this manager. */
  ghost predicate ChainInv(v0: View, v: View, from: Task?, cur: Task?, ran: seq<Task>, runs: seq<Run>) {
    && Core(v0, v, from, ran, runs)
    && v.trace == v0.trace + Calls(runs)
    && cur == (if ran == [] then from else ran[|ran| - 1])
    && (ran == [] ==> v.started == v0.started)
    && (ran != [] ==>
          && v.started && v0.started && !FromFailed(v0, from)
          && runs[|ran| - 1].end.err == None && runs[|ran| - 1].config.managed)
  }

  /** Why the chain from `from` stopped after running `ran`: it got past the
      last index, the last task failed or was not this manager's, or no task
      holds the next index. */
  ghost predicate StopReason(v0: View, from: Task?, ran: seq<Task>, runs: seq<Run>, completed: bool)
    requires Keyed(v0) && (from == null || from in v0.items) && |runs| == |ran|
  {
    || completed
    || (ran != [] && (runs[|ran| - 1].end.err.Some? || !runs[|ran| - 1].config.managed))
    || (IndexOf(v0, from) + |ran| + 1 <= |v0.items| - 1 && NoTaskAt(v0, IndexOf(v0, from) + |ran| + 1))
  }

  /** What holds when the chain has ended: `Core`; its calls end with
      onComplete when it `completed`; a stopped manager or a failed `from`
      runs nothing and leaves the manager stopped; otherwise the chain
      stopped for a `StopReason`; a failure of a task of this manager stops
      the manager, and completing stops it once past the last index. */
  ghost predicate ChainEnd(v0: View, v: View, from: Task?, ran: seq<Task>, runs: seq<Run>, completed: bool) {
    && Core(v0, v, from, ran, runs)
    && v.trace == v0.trace + Calls(runs) + CompleteCall(v0.onComplete, completed)
    && (!v0.started || FromFailed(v0, from) ==> ran == [] && !completed && !v.started)
    && (v0.started && !FromFailed(v0, from) ==> StopReason(v0, from, ran, runs, completed))
    && (ran != [] && runs[|ran| - 1].end.err.Some? ==> !completed && (runs[|ran| - 1].config.managed ==> !v.started))
    && (completed ==> v0.started && !v.started && IndexOf(v0, from) + |ran| + 1 > |v0.items| - 1)
    && (AllManaged(v0) ==> !v.started)
  }

  /** The tasks `ran` ran as `runs` say, each from its state in `v0` once reset
      and with its configuration in `v0`. */
  ghost predicate Ran(v0: View, ran: seq<Task>, runs: seq<Run>) {
    RanAs(v0.state, ran, runs, v0.observers) && ConfiguredBy(v0.config, ran, runs)
  }

  /** The manager after one turn of the chain: `cur` reset, `next` current
      and as its run `r` left it, the calls of `r` made. */
  function Stepped(v: View, cur: Task?, next: Task, r: Run): View
    requires cur != null ==> cur in v.state
  {
    v.(state := Turned(v.state, cur, next, r), current := next, trace := v.trace + r.events)
  }

  /** A turn of the chain keeps `Core`: the next task holds the next index,
      so the chain has not touched it and it was found as `v0` says. */
  lemma CoreExtends(v0: View, v: View, from: Task?, cur: Task?, ran: seq<Task>, runs: seq<Run>, next: Task, r: Run)
    requires Core(v0, v, from, ran, runs)
    requires cur == if ran == [] then from else ran[|ran| - 1]
    requires next in v0.items && v0.index[next] == IndexOf(v0, from) + |ran| + 1
    requires FirstHolding(v0, next, IndexOf(v0, from) + |ran| + 1)
    requires forall e | e in r.events :: !ManagerCall(e)
    ensures cur != null ==> cur in v.state
    ensures next in v0.state && v.state[next] == v0.state[next]
    ensures Core(v0, Stepped(v, cur, next, r), from, ran + [next], runs + [r])
  {
    assert next !in ran by {
      forall k | 0 <= k < |ran| ensures ran[k] != next {
        assert v0.index[ran[k]] == IndexOf(v0, from) + 1 + k;
      }
    }
    assert next != from;
    ProgressExtends(v0.state, v.state, from, ran, runs, cur, next, r);
    CallsSnoc(runs, r);
    ConsecutiveSnoc(v0, from, ran, next);
  }

  /** The task found at the index after those of `ran` extends them. */
  lemma ConsecutiveSnoc(v0: View, from: Task?, ran: seq<Task>, next: Task)
    requires Keyed(v0) && (from == null || from in v0.items)
    requires Consecutive(v0, from, ran)
    requires next in v0.items && v0.index[next] == IndexOf(v0, from) + |ran| + 1
    requires FirstHolding(v0, next, IndexOf(v0, from) + |ran| + 1)
    ensures Consecutive(v0, from, ran + [next])
  {
    var ran1 := ran + [next];
    forall k | 0 <= k < |ran1|
      ensures ran1[k] in v0.items && v0.index[ran1[k]] == IndexOf(v0, from) + 1 + k
      ensures FirstHolding(v0, ran1[k], IndexOf(v0, from) + 1 + k)
    {
      if k < |ran| {
        assert ran1[k] == ran[k];
      }
    }
  }

  /** The manager once the current `task` has run as `first`, before its
      end-of-run callback decides on the chain. */
  function AfterFirst(v0: View, task: Task, first: Run): View {
    v0.(state := if task in v0.items && task in v0.state then v0.state[task := first.end] else v0.state,
        trace := v0.trace + first.events, current := task)
  }

  /** What `Start` does when `task` is current, with configuration `c`,
      found in state `pre` with chaining allowed when `goOn`, the manager as
      `v0` shows it: `task` runs once as `first`, without a reset, and ends
      in state `post`; when it is this manager's, did not fail and lets the
      chain go on (`chained`), the chain continues from it as `ChainEnd` and
      `Ran` say; otherwise nothing else happens, and a task of this manager
      stops the manager. */
  ghost predicate Resumed(task: Task, c: TaskConfig, pre: TaskState, goOn: bool, v0: View, v: View, post: TaskState,
                          first: Run, chained: bool, ran: seq<Task>, runs: seq<Run>, completed: bool)
  {
    && first.config == c && first.start == pre && IsRun(task, first, v0.observers)
    && (forall e | e in first.events :: !ManagerCall(e))
    && (chained <==> c.managed && task in v0.items && first.end.err == None && goOn)
    && (!chained ==>
          && post == first.end
          && v == AfterFirst(v0, task, first).(started := v0.started && !(c.managed && task in v0.items)))
    && (chained ==>
          && ChainEnd(AfterFirst(v0, task, first), v, task, ran, runs, completed)
          && Ran(AfterFirst(v0, task, first), ran, runs))
  }

  /** The chain from `from` begins in the `ChainInv` state, having run nothing. */
  lemma Begins(v0: View, from: Task?)
    requires Keyed(v0) && (from != null ==> from in v0.items)
    requires forall t | t in v0.items :: t in v0.state
    ensures ChainInv(v0, v0, from, from, [], [])
  {
  }

  /** Between turns, the task `cur` that just ended is listed, and the next
      task looked for holds the index after those of `ran`. */
  lemma CurListed(v0: View, v: View, from: Task?, cur: Task?, ran: seq<Task>, runs: seq<Run>)
    requires ChainInv(v0, v, from, cur, ran, runs)
    ensures Keyed(v0) && (cur == null || cur in v0.items) && (from == null || from in v0.items)
    ensures cur != null ==> cur in v.state && cur in v0.index
    ensures IndexOf(v0, cur) == IndexOf(v0, from) + |ran|
    ensures ran == [] && cur != null ==> v.state[cur] == v0.state[cur]
  {
    if ran != [] {
      assert v0.index[ran[|ran| - 1]] == IndexOf(v0, from) + |ran|;
    }
  }

  /** The chain ends when the manager is stopped or the task that just
      ended failed: the manager is (left) stopped. */
  lemma Halts(v0: View, v: View, from: Task?, cur: Task?, ran: seq<Task>, runs: seq<Run>)
    requires ChainInv(v0, v, from, cur, ran, runs)
    requires (cur != null && cur in v.state && v.state[cur].err.Some?) || !v.started
    ensures ChainEnd(v0, v.(started := false), from, ran, runs, false)
  {
    CurListed(v0, v, from, cur, ran, runs);
  }

  /** The chain ends when no task holds the next index: past the last one
      it has completed and onComplete is called; either way the manager stops. */
  lemma Ends(v0: View, v: View, from: Task?, cur: Task?, ran: seq<Task>, runs: seq<Run>, done: bool)
    requires ChainInv(v0, v, from, cur, ran, runs)
    requires v.started && (cur != null ==> cur in v.state && v.state[cur].err == None)
    requires cur == null || cur in v0.index
    requires done ==> IndexOf(v0, cur) + 1 > |v0.items| - 1
    requires !done ==> IndexOf(v0, cur) + 1 <= |v0.items| - 1 && Keyed(v0) && NoTaskAt(v0, IndexOf(v0, cur) + 1)
    ensures ChainEnd(v0, v.(started := false, trace := v.trace + CompleteCall(v.onComplete, done)), from, ran, runs, done)
  {
    CurListed(v0, v, from, cur, ran, runs);
  }

  /** `Ran` grows by a run of the task at the next index, from its state in
      `v0` once reset and with its configuration there, when the last run
      so far ended without an error and was a task manager's. */
  lemma RanGrows(v0: View, ran: seq<Task>, runs: seq<Run>, next: Task, r: Run)
    requires Ran(v0, ran, runs)
    requires ran != [] ==> runs[|ran| - 1].end.err == None && runs[|ran| - 1].config.managed
    requires RanFrom(v0.state, next, r, v0.observers) && next in v0.config && r.config == v0.config[next]
    ensures Ran(v0, ran + [next], runs + [r])
  {
    var ran1, runs1 := ran + [next], runs + [r];
    assert ran1[..|ran|] == ran && runs1[..|ran|] == runs;
    RanAsExtends(v0.state, ran, runs, ran1, runs1, v0.observers);
    assert ran1[|ran|..] == [next] && runs1[|ran|..] == [r];
    ConfiguredByAppend(v0.config, ran, runs, ran1, runs1);
  }

  /** After a turn that ran `next` as `r`, the chain goes on when that run
      ended without an error and the task is this manager's, and otherwise
      ends there, a task of this manager stopping the manager. */
  lemma GoesOnOrStops(v0: View, v1: View, from: Task?, ran: seq<Task>, runs: seq<Run>, next: Task, r: Run)
    requires Core(v0, v1, from, ran + [next], runs + [r]) && v1.trace == v0.trace + Calls(runs + [r])
    requires v1.started && v0.started && !FromFailed(v0, from)
    requires next in v0.items && r.config == v0.config[next]
    ensures r.end.err == None && r.config.managed ==> ChainInv(v0, v1, from, next, ran + [next], runs + [r])
    ensures r.end.err.Some? || !r.config.managed ==> ChainEnd(v0, v1.(started := !r.config.managed), from, ran + [next], runs + [r], false)
  {
  }

  /** A turn that runs the task `next`, found at the next index, as `r`:
      the chain had not touched `next`; when the run ended without an error
      and the task is this manager's the chain goes on from it, otherwise
      the chain ends there, a task of this manager stopping the manager. */
  lemma Turns(v0: View, v: View, from: Task?, cur: Task?, ran: seq<Task>, runs: seq<Run>, next: Task, r: Run)
    requires ChainInv(v0, v, from, cur, ran, runs)
    requires v.started && (cur != null ==> cur in v.state && v.state[cur].err == None)
    requires cur == null || cur in v0.index
    requires next in v0.items && v0.index[next] == IndexOf(v0, cur) + 1
    requires Keyed(v0) && FirstHolding(v0, next, IndexOf(v0, cur) + 1)
    requires r.config == v0.config[next] && forall e | e in r.events :: !ManagerCall(e)
    ensures cur != null ==> cur in v.state
    ensures next in v0.state && next in v.state && v.state[next] == v0.state[next]
    ensures r.end.err == None && r.config.managed ==> ChainInv(v0, Stepped(v, cur, next, r), from, next, ran + [next], runs + [r])
    ensures r.end.err.Some? || !r.config.managed ==>
      ChainEnd(v0, Stepped(v, cur, next, r).(started := !r.config.managed), from, ran + [next], runs + [r], false)
  {
    CurListed(v0, v, from, cur, ran, runs);
    var v1 := Stepped(v, cur, next, r);
    CoreExtends(v0, v, from, cur, ran, runs, next, r);
    assert v1.trace == v0.trace + Calls(runs + [r]) by {
      CallsSnoc(runs, r);
    }
    GoesOnOrStops(v0, v1, from, ran, runs, next, r);
  }

  /** `Turned` is what resetting `next`, then `cur`, then running `next` as
      `r` does to the task states. */
  lemma TurnedByResets(s: map<Task, TaskState>, cur: Task?, next: Task, r: Run)
    requires next in s && next != cur && (cur != null ==> cur in s)
    ensures var s1 := s[next := ResetState(s[next])];
      (if cur == null then s1 else s1[cur := ResetState(s1[cur])])[next := r.end] == Turned(s, cur, next, r)
  {
  }

  /** `Resumed` from what each step of `Start` on a current task shows: the
      run of `task`, then its end-of-run callback when it is a task of this
      manager, which stops the manager or goes on with the chain. */
  lemma ResumedBy(task: Task, c: TaskConfig, pre: TaskState, goOn: bool, v0: View, va: View, v: View, post: TaskState,
                  first: Run, chained: bool, ran: seq<Task>, runs: seq<Run>, completed: bool)
    requires first.config == c && first.start == pre && IsRun(task, first, v0.observers)
    requires forall e | e in first.events :: !ManagerCall(e)
    requires va == AfterFirst(v0, task, first)
    requires !(c.managed && task in v0.items) ==> !chained && v == va && post == first.end
    requires c.managed && task in v0.items ==> (chained <==> first.end.err == None && goOn)
    requires c.managed && task in v0.items && !chained ==> v == va.(started := false) && post == first.end
    requires chained ==> ChainEnd(va, v, task, ran, runs, completed) && Ran(va, ran, runs)
    ensures Resumed(task, c, pre, goOn, v0, v, post, first, chained, ran, runs, completed)
  {
  }
}
