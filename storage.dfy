/** The keyed row store: every key holds the rows inserted under it, oldest
    first. Subscribers are told of every insert, remove and clear. The
    time of an insert is passed in; the timer that removes a key after a
    delay, and the goroutines the notifications run on, are not part of
    this model: a notification is recorded as a delivery to a subscriber. */
module Storage {
  import opened Common

  datatype StorageEvent = EventInsert | EventRemove | EventClear

  /** A notification: the key and the value are absent where the code leaves
      them at their zero value. */
  datatype Event<V> = Event(key: string, value: Option<V>, event: StorageEvent)

  /** A stored row. `Insert` never sets the index, so it stays 0. */
  datatype Row<V> = Row(index: int, value: V, time: int)

  /** The deliveries `notify` starts: one per subscriber, in subscription order. */
  function Deliveries<V>(subscribers: seq<nat>, e: Event<V>): (d: seq<(nat, Event<V>)>)
    ensures |d| == |subscribers|
    ensures forall i | 0 <= i < |d| :: d[i] == (subscribers[i], e)
  {
    seq(|subscribers|, i requires 0 <= i < |subscribers| => (subscribers[i], e))
  }

  class Store<V> {
    var storage: map<string, seq<Row<V>>>
    /** The subscribed callbacks, named by number. */
    var subscribers: seq<nat>
    /** Every notification handed to a subscriber so far. */
    var delivered: seq<(nat, Event<V>)>

    /** Every present key holds at least one row. */
    ghost predicate Valid()
      reads this
    {
      forall k | k in storage :: |storage[k]| > 0
    }

    /** `New`. */
    constructor ()
      ensures Valid()
      ensures storage == map[] && subscribers == [] && delivered == []
    {
      storage := map[];
      subscribers := [];
      delivered := [];
    }

    /** `notify`: one delivery per subscriber. */
    method Notify(e: Event<V>)
      modifies this`delivered
      ensures delivered == old(delivered) + Deliveries(subscribers, e)
    {
      var i := 0;
      while i < |subscribers|
        invariant 0 <= i <= |subscribers|
        invariant delivered == old(delivered) + Deliveries(subscribers[..i], e)
      {
        delivered := delivered + [(subscribers[i], e)];
        i := i + 1;
      }
      assert subscribers[..i] == subscribers;
    }

    /** `Insert`: one more row at the end of the key's list, the list created
        when the key is absent; then an insert notification. */
    method Insert(key: string, value: V, now: int)
      requires Valid()
      modifies this
      ensures Valid()
      ensures key in storage && storage[key] == old(Get(key).0) + [Row(0, value, now)]
      ensures forall k | k != key :: (k in storage <==> k in old(storage))
      ensures forall k | k != key && k in storage :: storage[k] == old(storage[k])
      ensures Count(key) == old(Count(key)) + 1
      ensures Last(key) == Some(Row(0, value, now))
      ensures subscribers == old(subscribers)
      ensures delivered == old(delivered) + Deliveries(subscribers, Event(key, Some(value), EventInsert))
    {
      var initialized := Has(key);
      if !initialized {
        storage := storage[key := []];
      }
      storage := storage[key := storage[key] + [Row(0, value, now)]];
      Notify(Event(key, Some(value), EventInsert));
    }

    /** `Remove`: only that key goes, present or not. */
    method Remove(key: string)
      requires Valid()
      modifies this
      ensures Valid()
      ensures storage == old(storage) - {key}
      ensures !Has(key) && Count(key) == 0
      ensures subscribers == old(subscribers)
      ensures delivered == old(delivered) + Deliveries(subscribers, Event(key, None, EventRemove))
    {
      storage := storage - {key};
      Notify(Event(key, None, EventRemove));
    }

    /** `Clear`: every key goes. */
    method Clear()
      modifies this
      ensures Valid()
      ensures storage == map[] && Size() == 0
      ensures subscribers == old(subscribers)
      ensures delivered == old(delivered) + Deliveries(subscribers, Event("", None, EventClear))
    {
      storage := map[];
      Notify(Event("", None, EventClear));
    }

    /** `Get`: the rows and whether the key is present; an absent key gives no rows. */
    function Get(key: string): (r: (seq<Row<V>>, bool))
      reads this
      ensures r.1 <==> key in storage
      ensures r.1 ==> r.0 == storage[key]
      ensures !r.1 ==> r.0 == []
    {
      if key in storage then (storage[key], true) else ([], false)
    }

    /** `Has`. */
    function Has(key: string): (b: bool)
      reads this
      ensures b <==> key in storage
    {
      Get(key).1
    }

    /** `Count`: 0 for an absent key. */
    function Count(key: string): (n: nat)
      reads this
      ensures key !in storage ==> n == 0
      ensures key in storage ==> n == |storage[key]|
    {
      var (rows, present) := Get(key);
      if !present then 0 else |rows|
    }

    /** `First`: the oldest row of the key, or none for an absent key. */
    function First(key: string): (r: Option<Row<V>>)
      requires Valid()
      reads this
      ensures r.Some? <==> key in storage
      ensures r.Some? ==> r.value == storage[key][0]
    {
      var (rows, present) := Get(key);
      if !present then None else Some(rows[0])
    }

    /** `Last`: the newest row of the key, or none for an absent key. */
    function Last(key: string): (r: Option<Row<V>>)
      requires Valid()
      reads this
      ensures r.Some? <==> key in storage
      ensures r.Some? ==> r.value == storage[key][|storage[key]| - 1]
    {
      var (rows, present) := Get(key);
      if !present then None else Some(rows[|rows| - 1])
    }

    /** `All`. */
    function All(): (m: map<string, seq<Row<V>>>)
      reads this
      ensures forall k :: (k in m <==> Has(k))
      ensures forall k | k in m :: m[k] == Get(k).0
    {
      storage
    }

    /** `Size`: the number of keys. */
    function Size(): (n: nat)
      reads this
      ensures n == |storage.Keys|
    {
      |storage|
    }

    /** `Subscribe`: appends the callback. */
    method Subscribe(fn: nat)
      modifies this`subscribers
      ensures subscribers == old(subscribers) + [fn]
    {
      subscribers := subscribers + [fn];
    }
  }

  /** In a valid store a key is present exactly when it holds a row, so
      `First` and `Last` are defined exactly when `Count` is positive. */
  lemma PresentIffCounted<V>(s: Store<V>, key: string)
    requires s.Valid()
    ensures s.Has(key) <==> s.Count(key) > 0
    ensures s.First(key).Some? <==> s.Count(key) > 0
    ensures s.Last(key).Some? <==> s.Count(key) > 0
    ensures s.Count(key) == 1 ==> s.First(key) == s.Last(key)
  {
  }
}
