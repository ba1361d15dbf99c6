/** The synchronous event bus: handlers subscribed per topic, called in
    subscription order. Handlers and callbacks are named by number, and
    their calls are recorded in order; the asynchronous dispatch variants,
    which call them on goroutines, are not part of this model. */
module Events {

  /** One recorded call, with the payload it received. */
  datatype Call<V> = HandlerCall(handler: nat, payload: V) | CallbackCall(callback: nat, payload: V)

  /** The calls `dispatch` makes for a list of handlers. */
  function HandlerCalls<V>(handlers: seq<nat>, v: V): (cs: seq<Call<V>>)
    ensures |cs| == |handlers|
    ensures forall i | 0 <= i < |cs| :: cs[i] == HandlerCall(handlers[i], v)
  {
    seq(|handlers|, i requires 0 <= i < |handlers| => HandlerCall(handlers[i], v))
  }

  /** The calls `dispatchFunc` makes: the callback just before each handler. */
  function FuncCalls<V>(handlers: seq<nat>, fn: nat, v: V): (cs: seq<Call<V>>)
    ensures |cs| == 2 * |handlers|
    ensures forall i | 0 <= i < |handlers| :: cs[2 * i] == CallbackCall(fn, v) && cs[2 * i + 1] == HandlerCall(handlers[i], v)
  {
    if handlers == [] then []
    else
      var rest := FuncCalls(handlers[1..], fn, v);
      var cs := [CallbackCall(fn, v), HandlerCall(handlers[0], v)] + rest;
      forall i | 1 <= i < |handlers|
        ensures cs[2 * i] == CallbackCall(fn, v) && cs[2 * i + 1] == HandlerCall(handlers[i], v)
      {
        assert cs[2 * i] == rest[2 * (i - 1)] && cs[2 * i + 1] == rest[2 * (i - 1) + 1];
        assert handlers[1..][i - 1] == handlers[i];
      }
      cs
  }

  /** Without the callbacks, `dispatchFunc` makes the calls of `dispatch`. */
  lemma {:induction false} FuncCallsAddOnlyCallbacks<V>(handlers: seq<nat>, fn: nat, v: V)
    ensures Handlers(FuncCalls(handlers, fn, v)) == HandlerCalls(handlers, v)
    ensures |FuncCalls(handlers, fn, v)| - |HandlerCalls(handlers, v)| == |handlers|
  {
    if handlers != [] {
      FuncCallsAddOnlyCallbacks(handlers[1..], fn, v);
      assert FuncCalls(handlers, fn, v) == [CallbackCall(fn, v), HandlerCall(handlers[0], v)] + FuncCalls(handlers[1..], fn, v);
      HandlersAppend([CallbackCall(fn, v), HandlerCall(handlers[0], v)], FuncCalls(handlers[1..], fn, v));
      assert Handlers([CallbackCall(fn, v), HandlerCall(handlers[0], v)]) == [HandlerCall(handlers[0], v)] by {
        assert [CallbackCall(fn, v), HandlerCall(handlers[0], v)][1..] == [HandlerCall(handlers[0], v)];
      }
      assert HandlerCalls(handlers, v) == [HandlerCall(handlers[0], v)] + HandlerCalls(handlers[1..], v);
    }
  }

  /** The handler calls of a trace. */
  function Handlers<V>(cs: seq<Call<V>>): seq<Call<V>>
  {
    if cs == [] then []
    else (if cs[0].HandlerCall? then [cs[0]] else []) + Handlers(cs[1..])
  }

  lemma {:induction false} HandlersAppend<V>(a: seq<Call<V>>, b: seq<Call<V>>)
    ensures Handlers(a + b) == Handlers(a) + Handlers(b)
  {
    if a != [] {
      assert (a + b)[1..] == a[1..] + b;
      assert (a + b)[0] == a[0];
      HandlersAppend(a[1..], b);
      var head: seq<Call<V>> := if a[0].HandlerCall? then [a[0]] else [];
      assert Handlers(a + b) == head + Handlers(a[1..] + b);
      assert Handlers(a) == head + Handlers(a[1..]);
    } else {
      assert a + b == b;
    }
  }

  class EventBus<V> {
    var handlers: map<string, seq<nat>>
    var calls: seq<Call<V>>

    /** `New`. */
    constructor ()
      ensures handlers == map[] && calls == []
    {
      handlers := map[];
      calls := [];
    }

    /** The handlers of a topic; none for an unknown topic. */
    function Of(topic: string): (hs: seq<nat>)
      reads this
      ensures topic !in handlers ==> hs == []
      ensures topic in handlers ==> hs == handlers[topic]
    {
      if topic in handlers then handlers[topic] else []
    }

    /** `Subscribe`: the handler goes to the end of the topic's list. */
    method Subscribe(topic: string, handler: nat)
      modifies this`handlers
      ensures handlers == old(handlers)[topic := old(Of(topic)) + [handler]]
      ensures SubscribersCount(topic) == old(SubscribersCount(topic)) + 1
    {
      handlers := handlers[topic := Of(topic) + [handler]];
    }

    /** `SubscribersCount`. */
    function SubscribersCount(topic: string): (n: nat)
      reads this
      ensures n == |Of(topic)|
    {
      |Of(topic)|
    }

    /** `Unsubscribe`: every handler of the topic goes; the other topics stay. */
    method Unsubscribe(topic: string)
      modifies this`handlers
      ensures handlers == old(handlers) - {topic}
      ensures SubscribersCount(topic) == 0
    {
      handlers := handlers - {topic};
    }

    /** `Dispatch`: each handler of the topic once, in order, with the payload. */
    method Dispatch(topic: string, v: V)
      modifies this`calls
      ensures calls == old(calls) + HandlerCalls(Of(topic), v)
    {
      if topic in handlers {
        var hs := handlers[topic];
        var i := 0;
        while i < |hs|
          invariant 0 <= i <= |hs|
          invariant calls == old(calls) + HandlerCalls(hs[..i], v)
        {
          calls := calls + [HandlerCall(hs[i], v)];
          i := i + 1;
        }
        assert hs[..i] == hs;
      }
    }

    /** `DispatchFunc`: the callback just before each handler. */
    method DispatchFunc(topic: string, fn: nat, v: V)
      modifies this`calls
      ensures calls == old(calls) + FuncCalls(Of(topic), fn, v)
    {
      if topic in handlers {
        var hs := handlers[topic];
        var i := 0;
        while i < |hs|
          invariant 0 <= i <= |hs|
          invariant calls == old(calls) + FuncCalls(hs[..i], fn, v)
        {
          FuncCallsSnoc(hs[..i], hs[i], fn, v);
          assert hs[..i + 1] == hs[..i] + [hs[i]];
          calls := calls + [CallbackCall(fn, v), HandlerCall(hs[i], v)];
          i := i + 1;
        }
        assert hs[..i] == hs;
      }
    }
  }

  lemma {:induction false} FuncCallsSnoc<V>(hs: seq<nat>, h: nat, fn: nat, v: V)
    ensures FuncCalls(hs + [h], fn, v) == FuncCalls(hs, fn, v) + [CallbackCall(fn, v), HandlerCall(h, v)]
    decreases |hs|
  {
    if hs == [] {
      assert FuncCalls([h], fn, v) == [CallbackCall(fn, v), HandlerCall(h, v)] + FuncCalls([], fn, v);
    } else {
      assert (hs + [h])[1..] == hs[1..] + [h];
      FuncCallsSnoc(hs[1..], h, fn, v);
    }
  }
}
