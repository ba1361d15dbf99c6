/** A task of the task pipeline: a handler run with bounded retries, a
    predicate that may veto a retry, status transitions, and lifecycle hooks
    fired in a fixed order.

    The handler is the supplied sequence of its results: the `k`-th call
    returns `handler(k)`, `None` for a nil error. Hooks and the observers a
    task manager registers leave their calls in an event trace, which
    `Start` returns. */
module Tasks {
  import opened Common

  /** The `Status` string constants, plus the zero value "" of a task that
      has never been added to a manager nor reset. */
  datatype Status = Unset | Pending | Starting | Retrying | Failed | Succeeded

  function StatusName(s: Status): string {
    match s
    case Unset => ""
    case Pending => "pending"
    case Starting => "start"
    case Retrying => "retry"
    case Failed => "fail"
    case Succeeded => "success"
  }

  /** The value left in `Message`: whatever the caller put there, or a record
      of the message producer that ran last and the arguments it was given. */
  datatype Message =
    | Initial
    | FromStart
    | FromRetry(lastErr: Option<Error>, index: int)
    | FromError(err: Error)
    | FromSuccess

  /** What a user callback was called for, and with which arguments. */
  datatype HookCall =
    | StartCall
    | RetryCall(lastErr: Option<Error>, index: int)
    | ErrorCall(err: Error)
    | SuccessCall
    | ManagerStartCall
    | ManagerStopCall
    | ManagerCompleteCall

  /** The `OnStart` and `OnRetry` fields: nil, a user callback, or the wrapper
      a task manager installs, which first notifies every status observer and
      then calls the hook it replaced. */
  datatype Hook = NoHook | UserHook(id: nat) | Broadcast(inner: Hook)

  datatype Event =
    | Called(id: nat, call: HookCall)
    | Observed(observer: nat, task: Task, status: Status)
    | RunEnded(task: Task)

  /** The part of a task that `Start` reads but never writes. */
  datatype TaskConfig = TaskConfig(
    handler: nat -> Option<Error>,
    retryCondition: Option<(Error, int) -> bool>,
    startMessage: bool, retryMessage: bool, errorMessage: bool, successMessage: bool,
    onStart: Hook, onRetry: Hook, onError: Option<nat>, onSuccess: Option<nat>,
    managed: bool)

  /** The part of a task that `Start` may write. `calls` counts the handler
      calls made so far, i.e. the position in the handler's result sequence. */
  datatype TaskState = TaskState(
    err: Option<Error>, status: Status, attempts: int, retries: int,
    message: Message, calls: nat)

  /** The status observers, in registration order, each told the task and its status. */
  function Notify(observers: seq<nat>, t: Task, status: Status): (r: seq<Event>)
    ensures |r| == |observers|
    ensures forall k | 0 <= k < |r| :: r[k] == Observed(observers[k], t, status)
  {
    if observers == [] then []
    else [Observed(observers[0], t, status)] + Notify(observers[1..], t, status)
  }

  /** The events of calling hook `h`, or none when it is nil. */
  function Fire(h: Hook, observers: seq<nat>, t: Task, status: Status, call: HookCall): seq<Event>
  {
    match h
    case NoHook => []
    case UserHook(id) => [Called(id, call)]
    case Broadcast(inner) => Notify(observers, t, status) + Fire(inner, observers, t, status, call)
  }

  /** The end-of-run callback: a manager's wrapper notifies the observers of
      the final status before it decides whether to run the next task. */
  function RunEnd(c: TaskConfig, t: Task, observers: seq<nat>, status: Status): seq<Event>
  {
    if c.managed then [RunEnded(t)] + Notify(observers, t, status) else []
  }

  /** The retry loop from iteration `index` on. */
  function Iterate(c: TaskConfig, s: TaskState, index: int, t: Task, observers: seq<nat>)
    : (TaskState, seq<Event>)
    decreases s.retries - index, 1
  {
    if index >= s.retries then (s, [])
    else
      var s1 := s.(attempts := s.attempts + 1);
      if index == 0 then Attempt(c, s1, index, [], t, observers)
      else
        var s2 := s1.(status := Retrying,
                      message := if c.retryMessage then FromRetry(s1.err, index) else s1.message);
        if Vetoed(c, s2.err, index) then (s2, [])
        else Attempt(c, s2, index, Fire(c.onRetry, observers, t, Retrying, RetryCall(s2.err, index)), t, observers)
  }

  /** The retry condition, when set, refuses the retry of a failed attempt. */
  predicate Vetoed(c: TaskConfig, err: Option<Error>, index: int) {
    c.retryCondition.Some? && err.Some? && !c.retryCondition.value(err.value, index)
  }

  /** One handler call of iteration `index`, after the events `pre` of that iteration. */
  function Attempt(c: TaskConfig, s: TaskState, index: int, pre: seq<Event>, t: Task, observers: seq<nat>)
    : (TaskState, seq<Event>)
    requires index < s.retries
    decreases s.retries - index, 0
  {
    var result := c.handler(s.calls);
    var s1 := s.(calls := s.calls + 1);
    if result.None? then (s1.(err := None), pre)
    else
      var s2 := s1.(err := result, status := Failed,
                    message := if c.errorMessage then FromError(result.value) else s1.message);
      var rest := Iterate(c, s2, index + 1, t, observers);
      (rest.0, pre + rest.1)
  }

  /** The hooks and the final status after the retry loop. */
  function Finish(c: TaskConfig, s: TaskState, t: Task, observers: seq<nat>): (TaskState, seq<Event>)
  {
    var errorEvents := if s.err.Some? && c.onError.Some? then [Called(c.onError.value, ErrorCall(s.err.value))] else [];
    var successEvents := if s.err.None? && c.onSuccess.Some? then [Called(c.onSuccess.value, SuccessCall)] else [];
    var s1 :=
      if s.err.None? then
        s.(status := Succeeded, message := if c.successMessage then FromSuccess else s.message)
      else
        s.(status := Failed, message := if c.errorMessage then FromError(s.err.value) else s.message);
    (s1, errorEvents + successEvents + RunEnd(c, t, observers, s1.status))
  }

  /** The part of `Start` before the retry loop. */
  function Prepare(c: TaskConfig, s: TaskState, t: Task, observers: seq<nat>): (TaskState, seq<Event>)
  {
    var s1 := s.(attempts := 0);
    var (s2, events) :=
      if c.onStart != NoHook then
        (s1.(status := Starting, message := if c.startMessage then FromStart else s1.message),
         Fire(c.onStart, observers, t, Starting, StartCall))
      else (s1, []);
    (if s2.retries == 0 then s2.(retries := 1) else s2, events)
  }

  /** One call of `Start` on a task in state `s`: the new state and the events, in order. */
  function StartRun(c: TaskConfig, s: TaskState, t: Task, observers: seq<nat>): (TaskState, seq<Event>)
  {
    if s.status == Succeeded then (s, RunEnd(c, t, observers, s.status))
    else
      var (s1, startEvents) := Prepare(c, s, t, observers);
      var (s2, loopEvents) := Iterate(c, s1, 0, t, observers);
      var (s3, endEvents) := Finish(c, s2, t, observers);
      (s3, startEvents + loopEvents + endEvents)
  }

  /** The state `reset` leaves a task in: every other part is kept. */
  function ResetState(s: TaskState): (r: TaskState)
    ensures r.err == None && r.status == Pending && r.attempts == 0
    ensures r.retries == s.retries && r.message == s.message && r.calls == s.calls
  {
    s.(err := None, status := Pending, attempts := 0)
  }

  class Task {
    var index: int
    const order: int
    var name: string
    var caption: string
    /** The part `Start` reads but never writes: the handler, the retry
        condition, the message flags, the hooks, and whether a task manager
        has installed its end-of-run callback. */
    var config: TaskConfig
    var calls: nat
    var retryDelay: int
    var retries: int
    var message: Message
    var err: Option<Error>
    var status: Status
    var executeNextTask: bool
    var attempts: int

    /** A task literal: the given fields, every other one at its Go zero value. */
    constructor (name: string, order: int, retries: int, handler: nat -> Option<Error>)
      ensures this.name == name && this.order == order && this.retries == retries && calls == 0
      ensures config == TaskConfig(handler, None, false, false, false, false, NoHook, NoHook, None, None, false)
      ensures index == 0 && caption == "" && retryDelay == 0 && message == Initial
      ensures err == None && status == Unset && !executeNextTask && attempts == 0
    {
      this.name := name;
      this.order := order;
      this.retries := retries;
      config := TaskConfig(handler, None, false, false, false, false, NoHook, NoHook, None, None, false);
      calls := 0;
      index := 0;
      caption := "";
      retryDelay := 0;
      message := Initial;
      err := None;
      status := Unset;
      executeNextTask := false;
      attempts := 0;
    }

    function Config(): TaskConfig
      reads this`config
    {
      config
    }

    function State(): TaskState
      reads this`err, this`status, this`attempts, this`retries, this`message, this`calls
    {
      TaskState(err, status, attempts, retries, message, calls)
    }

    /** `Attempts`: the attempts counted by the last run. */
    function Attempts(): (n: int)
      reads this
      ensures n == State().attempts
    {
      attempts
    }

    /** `IsError`: the last run stored an error. */
    function IsError(): (b: bool)
      reads this
      ensures b <==> State().err.Some?
    {
      err.Some?
    }

    /** `IsDone`: the task has succeeded or failed. */
    function IsDone(): (b: bool)
      reads this
      ensures b <==> State().status == Succeeded || State().status == Failed
      ensures IsSuccess() ==> b
    {
      status == Succeeded || status == Failed
    }

    /** `IsSuccess`: the task has succeeded. */
    function IsSuccess(): (b: bool)
      reads this
      ensures b <==> State().status == Succeeded
    {
      status == Succeeded
    }

    /** `reset`: back to pending, with no error, no attempts, and chaining enabled. */
    method Reset()
      modifies this`err, this`status, this`executeNextTask, this`attempts
      ensures err == None && status == Pending && executeNextTask && attempts == 0
      ensures State() == ResetState(old(State()))
    {
      err := None;
      status := Pending;
      executeNextTask := true;
      attempts := 0;
    }

    /** `Start`: runs the task against the status observers of the manager it
        belongs to and returns the hook and observer calls it made, in order.
        The retry pause is a no-op here. */
    method Start(observers: seq<nat>) returns (events: seq<Event>)
      modifies this`err, this`status, this`attempts, this`retries, this`message, this`calls
      ensures (State(), events) == StartRun(Config(), old(State()), this, observers)
    {
      if status == Succeeded {
        events := RunEnd(Config(), this, observers, status);
        return;
      }
      events := Prime(observers);
      var loopEvents := RetryLoop(observers);
      var endEvents := Conclude(observers);
      events := events + loopEvents + endEvents;
    }

    /** The part of `Start` before its loop. */
    method Prime(observers: seq<nat>) returns (events: seq<Event>)
      modifies this`status, this`attempts, this`retries, this`message
      ensures (State(), events) == Prepare(Config(), old(State()), this, observers)
    {
      attempts := 0;
      events := [];
      if config.onStart != NoHook {
        status := Starting;
        if config.startMessage {
          message := FromStart;
        }
        events := Fire(config.onStart, observers, this, Starting, StartCall);
      }
      if retries == 0 {
        retries := 1;
      }
    }

    /** The counted loop of `Start`, with its two early exits. */
    method RetryLoop(observers: seq<nat>) returns (loopEvents: seq<Event>)
      modifies this`err, this`status, this`attempts, this`message, this`calls
      ensures (State(), loopEvents) == Iterate(Config(), old(State()), 0, this, observers)
    {
      ghost var c := Config();
      ghost var s0 := State();
      assert s0 == old(State());
      ghost var target := Iterate(c, s0, 0, this, observers);
      loopEvents := [];
      var index := 0;
      var done := false;
      while !done && index < retries
        invariant 0 <= index
        invariant Config() == c
        invariant !done ==> Iterate(c, State(), index, this, observers).0 == target.0
        invariant !done ==> loopEvents + Iterate(c, State(), index, this, observers).1 == target.1
        invariant done ==> State() == target.0 && loopEvents == target.1
        decreases retries - index, if done then 0 else 1
      {
        var stepEvents;
        done, stepEvents := Iteration(index, observers);
        loopEvents := loopEvents + stepEvents;
        if !done {
          index := index + 1;
        }
      }
      if !done {
        assert Iterate(c, State(), index, this, observers) == (State(), []);
      }
      assert State() == target.0 && loopEvents == target.1;
      assert target == Iterate(Config(), old(State()), 0, this, observers);
    }

    /** One pass of the loop body of `Start`: `done` reports a `break`. */
    method Iteration(index: int, observers: seq<nat>) returns (done: bool, stepEvents: seq<Event>)
      requires 0 <= index < retries
      modifies this`err, this`status, this`attempts, this`message, this`calls
      ensures Config() == old(Config()) && retries == old(retries)
      ensures done ==> (State(), stepEvents) == Iterate(Config(), old(State()), index, this, observers)
      ensures !done ==>
        var rest := Iterate(Config(), State(), index + 1, this, observers);
        Iterate(Config(), old(State()), index, this, observers) == (rest.0, stepEvents + rest.1)
    {
      var vetoed;
      vetoed, stepEvents := Announce(index, observers);
      if vetoed {
        done := true;
        return;
      }
      done := Try(index, stepEvents, observers);
    }

    /** The start of one pass of the loop of `Start`, up to the handler call:
        `vetoed` reports that the retry condition refused the retry. */
    method Announce(index: int, observers: seq<nat>) returns (vetoed: bool, pre: seq<Event>)
      requires 0 <= index < retries
      modifies this`status, this`attempts, this`message
      ensures retries == old(retries) && err == old(err) && calls == old(calls)
      ensures var s1 := old(State()).(attempts := old(attempts) + 1);
        if index == 0 then !vetoed && State() == s1 && pre == []
        else
          var s2 := s1.(status := Retrying,
                        message := if config.retryMessage then FromRetry(err, index) else old(message));
          State() == s2 && (vetoed <==> Vetoed(Config(), err, index))
          && pre == (if vetoed then [] else Fire(config.onRetry, observers, this, Retrying, RetryCall(err, index)))
    {
      pre := [];
      vetoed := false;
      attempts := attempts + 1;
      if index > 0 {
        status := Retrying;
        if config.retryMessage {
          message := FromRetry(err, index);
        }
        if config.retryCondition.Some? && err.Some? && !config.retryCondition.value(err.value, index) {
          vetoed := true;
          return;
        }
        pre := Fire(config.onRetry, observers, this, Retrying, RetryCall(err, index));
      }
    }

    /** The handler call of one pass of the loop of `Start`: `done` reports a `break`. */
    method Try(index: int, ghost pre: seq<Event>, ghost observers: seq<nat>) returns (done: bool)
      requires 0 <= index < retries
      modifies this`err, this`status, this`message, this`calls
      ensures retries == old(retries) && attempts == old(attempts)
      ensures done ==> (State(), pre) == Attempt(Config(), old(State()), index, pre, this, observers)
      ensures !done ==>
        var rest := Iterate(Config(), State(), index + 1, this, observers);
        Attempt(Config(), old(State()), index, pre, this, observers) == (rest.0, pre + rest.1)
    {
      var result := config.handler(calls);
      calls := calls + 1;
      if result.None? {
        err := None;
        done := true;
      } else {
        err := result;
        status := Failed;
        if config.errorMessage {
          message := FromError(result.value);
        }
        done := false;
      }
    }

    /** The error and success hooks, the final status, and the end-of-run callback. */
    method Conclude(observers: seq<nat>) returns (endEvents: seq<Event>)
      modifies this`status, this`message
      ensures (State(), endEvents) == Finish(Config(), old(State()), this, observers)
    {
      ghost var s := State();
      ghost var expected := Finish(Config(), s, this, observers);
      endEvents := [];
      if err.Some? && config.onError.Some? {
        endEvents := endEvents + [Called(config.onError.value, ErrorCall(err.value))];
      }
      if err.None? && config.onSuccess.Some? {
        endEvents := endEvents + [Called(config.onSuccess.value, SuccessCall)];
      }
      if err.None? {
        status := Succeeded;
        if config.successMessage {
          message := FromSuccess;
        }
      } else {
        status := Failed;
        if config.errorMessage {
          message := FromError(err.value);
        }
      }
      assert State() == expected.0;
      endEvents := endEvents + RunEnd(Config(), this, observers, status);
      assert endEvents == expected.1;
    }
  }

  /** An event of the retry loop: a retry hook call, or an observer told of the retry status. */
  predicate LoopEvent(e: Event) {
    match e
    case Observed(_, _, status) => status == Retrying
    case Called(_, call) => call.RetryCall?
    case RunEnded(_) => false
  }

  /** An event of the start hook: its call, or an observer told of the start status. */
  predicate StartEvent(e: Event) {
    match e
    case Observed(_, _, status) => status == Starting
    case Called(_, call) => call == StartCall
    case RunEnded(_) => false
  }

  /** Calling a hook notifies observers of `status` and calls user hooks with `call`. */
  lemma {:induction false} FireShape(h: Hook, observers: seq<nat>, t: Task, status: Status, call: HookCall)
    ensures forall e | e in Fire(h, observers, t, status, call) ::
      (e.Observed? && e.status == status) || (e.Called? && e.call == call)
  {
    match h
    case NoHook =>
    case UserHook(_) =>
    case Broadcast(inner) => FireShape(inner, observers, t, status, call);
  }

  /** What the retry loop from iteration `index` does: `retries` is kept,
      every iteration counts one attempt, every handler call but the last
      failed, and `err` is the last handler result. */
  lemma {:induction false} IterateFacts(c: TaskConfig, s: TaskState, index: int, t: Task, observers: seq<nat>)
    requires 0 <= index
    ensures var (r, events) := Iterate(c, s, index, t, observers);
      && r.retries == s.retries
      && (index >= s.retries ==> r == s && events == [])
      && (index < s.retries ==> s.attempts + 1 <= r.attempts <= s.attempts + s.retries - index)
      && (index == 0 < s.retries ==> r.calls > s.calls)
      && s.calls <= r.calls
      && (forall k | s.calls <= k < r.calls - 1 :: c.handler(k).Some?)
      && (r.calls == s.calls ==> r.err == s.err)
      && (r.calls > s.calls ==> r.err == c.handler(r.calls - 1))
      && (forall e | e in events :: LoopEvent(e))
    decreases s.retries - index, 1
  {
    if index < s.retries {
      var s1 := s.(attempts := s.attempts + 1);
      if index == 0 {
        AttemptFacts(c, s1, index, [], t, observers);
      } else {
        var s2 := s1.(status := Retrying,
                      message := if c.retryMessage then FromRetry(s1.err, index) else s1.message);
        if !Vetoed(c, s2.err, index) {
          var pre := Fire(c.onRetry, observers, t, Retrying, RetryCall(s2.err, index));
          FireShape(c.onRetry, observers, t, Retrying, RetryCall(s2.err, index));
          AttemptFacts(c, s2, index, pre, t, observers);
        }
      }
    }
  }

  lemma {:induction false} AttemptFacts(c: TaskConfig, s: TaskState, index: int, pre: seq<Event>, t: Task, observers: seq<nat>)
    requires 0 <= index < s.retries
    requires forall e | e in pre :: LoopEvent(e)
    ensures var (r, events) := Attempt(c, s, index, pre, t, observers);
      && r.retries == s.retries
      && s.attempts <= r.attempts <= s.attempts + s.retries - index - 1
      && r.calls > s.calls
      && (forall k | s.calls <= k < r.calls - 1 :: c.handler(k).Some?)
      && r.err == c.handler(r.calls - 1)
      && (forall e | e in events :: LoopEvent(e))
    decreases s.retries - index, 0
  {
    var result := c.handler(s.calls);
    if result.Some? {
      var s1 := s.(calls := s.calls + 1);
      var s2 := s1.(err := result, status := Failed,
                    message := if c.errorMessage then FromError(result.value) else s1.message);
      IterateFacts(c, s2, index + 1, t, observers);
    }
  }

  /** The retry count `Start` uses: `Retries == 0` is rewritten to 1. */
  function EffectiveRetries(retries: int): int {
    if retries == 0 then 1 else retries
  }

  /** `Start` on a task that has not succeeded yet: the rewritten retry count
      is stored, there are between 1 and R attempts, the handler is called
      until its first nil result and never after it, `err` is its last
      result, and the status is success exactly when `err` is nil, fail
      otherwise. With a negative retry count the loop does not run and the
      error of the previous run decides the status. */
  lemma StartRunOutcome(c: TaskConfig, s: TaskState, t: Task, observers: seq<nat>)
    requires s.status != Succeeded
    ensures var r := StartRun(c, s, t, observers).0;
      var R := EffectiveRetries(s.retries);
      && r.retries == R
      && (R >= 1 ==> 1 <= r.attempts <= R)
      && (R >= 1 ==> r.calls > s.calls && r.err == c.handler(r.calls - 1))
      && (forall k | s.calls <= k < r.calls - 1 :: c.handler(k).Some?)
      && (R < 1 ==> r.attempts == 0 && r.calls == s.calls && r.err == s.err)
      && (r.status == Succeeded <==> r.err.None?)
      && (r.status == Failed <==> r.err.Some?)
  {
    var (s1, _) := Prepare(c, s, t, observers);
    IterateFacts(c, s1, 0, t, observers);
  }

  /** After `Start` the task `IsDone`. Unless it had already succeeded (when
      `Start` changes nothing), it `IsSuccess` exactly when it is not
      `IsError`, and `Attempts` is within the retry bound. */
  lemma StartedIsDone(t: Task, c: TaskConfig, s: TaskState, observers: seq<nat>)
    requires t.State() == StartRun(c, s, t, observers).0
    ensures t.IsDone()
    ensures s.status != Succeeded ==> (t.IsSuccess() <==> !t.IsError())
    ensures s.status != Succeeded && EffectiveRetries(s.retries) >= 1 ==> 1 <= t.Attempts() <= EffectiveRetries(s.retries)
  {
    if s.status != Succeeded {
      StartRunOutcome(c, s, t, observers);
    }
  }

  /** A call of the success or the error hook, agreeing with the final `err`. */
  predicate EndHookEvent(e: Event, err: Option<Error>) {
    e.Called? && ((e.call == SuccessCall && err.None?) || (e.call.ErrorCall? && err == Some(e.call.err)))
  }

  /** After the loop, `Start` calls the hook that matches `err`, then the end-of-run callback. */
  lemma FinishShape(c: TaskConfig, s: TaskState, t: Task, observers: seq<nat>)
    ensures var (r, events) := Finish(c, s, t, observers);
      var tail := RunEnd(c, t, observers, r.status);
      && |tail| <= |events| && events[|events| - |tail|..] == tail
      && (forall k | 0 <= k < |events| - |tail| :: EndHookEvent(events[k], r.err))
      && r.err == s.err
      && (c.onSuccess.Some? && r.err.None? ==> Called(c.onSuccess.value, SuccessCall) in events)
      && (c.onError.Some? && r.err.Some? ==> Called(c.onError.value, ErrorCall(r.err.value)) in events)
  {
    var (r, events) := Finish(c, s, t, observers);
    var tail := RunEnd(c, t, observers, r.status);
    assert events[|events| - |tail|..] == tail;
  }

  /** Appending the end-of-run callback to events that contain none. */
  lemma AppendRunEnd(front: seq<Event>, c: TaskConfig, t: Task, observers: seq<nat>, status: Status)
    requires forall e | e in front :: !e.RunEnded?
    ensures var events := front + RunEnd(c, t, observers, status);
      var n := |events| - |observers| - 1;
      && (c.managed ==>
            && 0 <= n && events[n] == RunEnded(t) && events[n + 1..] == Notify(observers, t, status)
            && forall k | 0 <= k < n :: !events[k].RunEnded?)
      && (!c.managed ==> forall e | e in events :: !e.RunEnded?)
  {
    var tail := RunEnd(c, t, observers, status);
    var events := front + tail;
    if c.managed {
      var rest := Notify(observers, t, status);
      assert tail == [RunEnded(t)] + rest;
      var n := |front|;
      assert |events| - |observers| - 1 == n;
      assert events[n] == RunEnded(t);
      assert events[n + 1..] == rest;
      forall k | 0 <= k < n
        ensures !events[k].RunEnded?
      {
        assert events[k] == front[k];
      }
    } else {
      assert tail == [];
      assert events == front;
    }
  }

  /** The events of `Finish`: the hook matching `err`, then the end-of-run callback. */
  lemma FinishParts(c: TaskConfig, s: TaskState, t: Task, observers: seq<nat>) returns (hooks: seq<Event>)
    ensures var (r, events) := Finish(c, s, t, observers);
      && events == hooks + RunEnd(c, t, observers, r.status)
      && r.err == s.err
      && (forall e | e in hooks :: EndHookEvent(e, r.err))
      && (c.onSuccess.Some? && r.err.None? ==> Called(c.onSuccess.value, SuccessCall) in hooks)
      && (c.onError.Some? && r.err.Some? ==> Called(c.onError.value, ErrorCall(r.err.value)) in hooks)
  {
    var (r, events) := Finish(c, s, t, observers);
    hooks := (if s.err.Some? && c.onError.Some? then [Called(c.onError.value, ErrorCall(s.err.value))] else [])
      + (if s.err.None? && c.onSuccess.Some? then [Called(c.onSuccess.value, SuccessCall)] else []);
  }

  /** `Start` on a task that has not succeeded: the start and loop events,
      then the hook matching the final `err`, then the end-of-run callback. */
  lemma StartRunParts(c: TaskConfig, s: TaskState, t: Task, observers: seq<nat>)
    returns (front: seq<Event>, hooks: seq<Event>)
    requires s.status != Succeeded
    ensures var (r, events) := StartRun(c, s, t, observers);
      && events == front + hooks + RunEnd(c, t, observers, r.status)
      && (forall e | e in front :: StartEvent(e) || LoopEvent(e))
      && (forall e | e in hooks :: EndHookEvent(e, r.err))
      && (c.onSuccess.Some? && r.err.None? ==> Called(c.onSuccess.value, SuccessCall) in hooks)
      && (c.onError.Some? && r.err.Some? ==> Called(c.onError.value, ErrorCall(r.err.value)) in hooks)
  {
    var (s1, startEvents) := Prepare(c, s, t, observers);
    var (s2, loopEvents) := Iterate(c, s1, 0, t, observers);
    FireShape(c.onStart, observers, t, Starting, StartCall);
    IterateFacts(c, s1, 0, t, observers);
    hooks := FinishParts(c, s2, t, observers);
    front := startEvents + loopEvents;
  }

  /** The end-of-run callback of `Start` fires once, as its last action, on
      both paths, followed only by the observers it notifies of the final status. */
  lemma {:induction false} StartRunEndsRun(c: TaskConfig, s: TaskState, t: Task, observers: seq<nat>)
    ensures var (r, events) := StartRun(c, s, t, observers);
      var n := |events| - |observers| - 1;
      && (c.managed ==>
            && 0 <= n && events[n] == RunEnded(t) && events[n + 1..] == Notify(observers, t, r.status)
            && forall k | 0 <= k < n :: !events[k].RunEnded?)
      && (!c.managed ==> forall e | e in events :: !e.RunEnded?)
  {
    var (r, events) := StartRun(c, s, t, observers);
    var front := StartRunFront(c, s, t, observers);
    AppendRunEnd(front, c, t, observers, r.status);
  }

  /** Whatever `Start` does before its end-of-run callback makes no such call. */
  lemma StartRunFront(c: TaskConfig, s: TaskState, t: Task, observers: seq<nat>) returns (front: seq<Event>)
    ensures var (r, events) := StartRun(c, s, t, observers);
      events == front + RunEnd(c, t, observers, r.status) && forall e | e in front :: !e.RunEnded?
  {
    var (r, events) := StartRun(c, s, t, observers);
    if s.status == Succeeded {
      front := [];
      assert events == front + RunEnd(c, t, observers, r.status);
    } else {
      var start, hooks := StartRunParts(c, s, t, observers);
      front := start + hooks;
      assert forall e: Event | e in front :: !e.RunEnded?;
    }
  }

  /** On a task that has not succeeded, the success hook fires exactly when
      `err` ends nil, and the error hook exactly when it does not, with that
      error; on a task that has already succeeded no hook fires and the
      state is kept. */
  lemma {:induction false} StartRunHooks(c: TaskConfig, s: TaskState, t: Task, observers: seq<nat>)
    ensures var (r, events) := StartRun(c, s, t, observers);
      && (s.status == Succeeded ==> r == s && forall e | e in events :: !e.Called?)
      && (s.status != Succeeded && c.onSuccess.Some? ==>
            (Called(c.onSuccess.value, SuccessCall) in events <==> r.err.None?))
      && (s.status != Succeeded && c.onError.Some? && r.err.Some? ==>
            Called(c.onError.value, ErrorCall(r.err.value)) in events)
      && (forall e | e in events && e.Called? && e.call.ErrorCall? :: r.err == Some(e.call.err))
  {
    var (r, events) := StartRun(c, s, t, observers);
    if s.status != Succeeded {
      var front, hooks := StartRunParts(c, s, t, observers);
      var tail := RunEnd(c, t, observers, r.status);
      assert forall e | e in tail :: !e.Called?;
      assert forall e | e in events :: e in front || e in hooks || e in tail;
    }
  }

  /** A veto of the first retry ends the loop before the retry hook and the
      handler run, yet that iteration counts: two attempts, one handler call,
      and the task fails with the first error. */
  lemma VetoedRetryCountsAttempt(c: TaskConfig, s: TaskState, t: Task, observers: seq<nat>, e: Error)
    requires s.status != Succeeded && s.retries >= 2
    requires c.handler(s.calls) == Some(e)
    requires Vetoed(c, Some(e), 1)
    ensures var (r, events) := StartRun(c, s, t, observers);
      && r.attempts == 2 && r.calls == s.calls + 1
      && r.err == Some(e) && r.status == Failed
      && forall ev | ev in events :: !(ev.Called? && ev.call.RetryCall?)
  {
    var (s1, startEvents) := Prepare(c, s, t, observers);
    FireShape(c.onStart, observers, t, Starting, StartCall);
    assert s1.calls == s.calls && s1.retries == s.retries && s1.attempts == 0;
    VetoedLoop(c, s1, t, observers, e);
    var (s2, loopEvents) := Iterate(c, s1, 0, t, observers);
    var (s3, endEvents) := Finish(c, s2, t, observers);
    FinishShape(c, s2, t, observers);
  }

  /** The loop of `VetoedRetryCountsAttempt`: one failed call, then the vetoed retry. */
  lemma VetoedLoop(c: TaskConfig, s1: TaskState, t: Task, observers: seq<nat>, e: Error)
    requires s1.retries >= 2
    requires c.handler(s1.calls) == Some(e)
    requires Vetoed(c, Some(e), 1)
    ensures var (s2, loopEvents) := Iterate(c, s1, 0, t, observers);
      && loopEvents == [] && s2.attempts == s1.attempts + 2 && s2.calls == s1.calls + 1 && s2.err == Some(e)
  {
    var a := s1.(attempts := s1.attempts + 1);
    var f := a.(calls := a.calls + 1).(err := Some(e), status := Failed,
              message := if c.errorMessage then FromError(e) else a.message);
    var g := f.(attempts := f.attempts + 1).(status := Retrying,
              message := if c.retryMessage then FromRetry(f.err, 1) else f.message);
    assert Iterate(c, f, 1, t, observers) == (g, []);
    assert c.handler(a.calls) == Some(e);
    var a1 := a.(calls := a.calls + 1);
    var a2 := a1.(err := Some(e), status := Failed,
                  message := if c.errorMessage then FromError(e) else a1.message);
    assert a2 == f;
    assert Attempt(c, a, 0, [], t, observers) == (Iterate(c, a2, 1, t, observers).0, [] + Iterate(c, a2, 1, t, observers).1);
    var at := Attempt(c, a, 0, [], t, observers);
    assert at.0 == g;
    assert |at.1| == 0;
  }

  /** Two failures and then a nil result with three retries: the task
      succeeds on its third attempt after three handler calls. */
  lemma FailFailSucceed(c: TaskConfig, s: TaskState, t: Task, observers: seq<nat>, e1: Error, e2: Error)
    requires s.status != Succeeded && s.retries == 3
    requires c.handler(s.calls) == Some(e1) && c.handler(s.calls + 1) == Some(e2)
    requires c.handler(s.calls + 2) == None
    requires !Vetoed(c, Some(e1), 1) && !Vetoed(c, Some(e2), 2)
    ensures var r := StartRun(c, s, t, observers).0;
      r.status == Succeeded && r.err == None && r.attempts == 3 && r.calls == s.calls + 3
  {
    var (s1, _) := Prepare(c, s, t, observers);
    var a0 := s1.(attempts := s1.attempts + 1);
    var f0 := a0.(calls := a0.calls + 1).(err := Some(e1), status := Failed,
               message := if c.errorMessage then FromError(e1) else a0.message);
    var a1 := f0.(attempts := f0.attempts + 1).(status := Retrying,
               message := if c.retryMessage then FromRetry(f0.err, 1) else f0.message);
    var f1 := a1.(calls := a1.calls + 1).(err := Some(e2), status := Failed,
               message := if c.errorMessage then FromError(e2) else a1.message);
    var a2 := f1.(attempts := f1.attempts + 1).(status := Retrying,
               message := if c.retryMessage then FromRetry(f1.err, 2) else f1.message);
    var done := a2.(calls := a2.calls + 1).(err := None);
    assert Iterate(c, f1, 2, t, observers).0 == done;
    assert Iterate(c, f0, 1, t, observers).0 == done;
    assert Iterate(c, s1, 0, t, observers).0 == done;
  }

  /** A call of one of a manager's own hooks rather than of a task's. */
  predicate ManagerCall(e: Event) {
    e.Called? && (e.call.ManagerStartCall? || e.call.ManagerStopCall? || e.call.ManagerCompleteCall?)
  }

  /** `Start` calls the task's hooks and the status observers, never a manager's own hooks. */
  lemma {:induction false} StartRunCallsOnlyTaskHooks(c: TaskConfig, s: TaskState, t: Task, observers: seq<nat>)
    ensures forall e | e in StartRun(c, s, t, observers).1 :: !ManagerCall(e)
  {
    var (r, events) := StartRun(c, s, t, observers);
    if s.status != Succeeded {
      var front, hooks := StartRunParts(c, s, t, observers);
      var tail := RunEnd(c, t, observers, r.status);
      assert forall e | e in tail :: !ManagerCall(e);
      assert forall e | e in events :: e in front || e in hooks || e in tail;
    }
  }
}
