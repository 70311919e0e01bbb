// static/js/utils/event-bus.js: the client's publish/subscribe hub. A callback is known by
// its identity (JavaScript compares callbacks with !==); what a callback does when called is
// outside the model, so emit reports the calls it makes, in order.
module EventBus {
  /** The identity of a subscribed function. */
  type Callback = nat

  /** The subscription list with every occurrence of cb filtered out. */
  function Without(subs: seq<Callback>, cb: Callback): (r: seq<Callback>)
    ensures |r| <= |subs|
    ensures cb !in r
    ensures forall x :: x in r <==> x in subs && x != cb
    ensures cb !in subs ==> r == subs
  {
    if subs == [] then []
    else if subs[0] == cb then Without(subs[1..], cb)
    else [subs[0]] + Without(subs[1..], cb)
  }

  /** How many times x occurs in subs. */
  function Occurrences(subs: seq<Callback>, x: Callback): nat
  {
    if subs == [] then 0 else (if subs[0] == x then 1 else 0) + Occurrences(subs[1..], x)
  }

  /** Filtering distributes over concatenation, so relative order is kept. */
  lemma {:induction false} WithoutAppend(a: seq<Callback>, b: seq<Callback>, cb: Callback)
    ensures Without(a + b, cb) == Without(a, cb) + Without(b, cb)
  {
    if a == [] {
      assert a + b == b;
    } else {
      assert (a + b)[1..] == a[1..] + b;
      WithoutAppend(a[1..], b, cb);
    }
  }

  /** Every other callback keeps its number of registrations. */
  lemma {:induction false} WithoutKeepsOthers(subs: seq<Callback>, cb: Callback, x: Callback)
    requires x != cb
    ensures Occurrences(Without(subs, cb), x) == Occurrences(subs, x)
  {
    if subs != [] {
      WithoutKeepsOthers(subs[1..], cb, x);
      if subs[0] != cb {
        assert ([subs[0]] + Without(subs[1..], cb))[1..] == Without(subs[1..], cb);
      }
    }
  }

  /** Unsubscribing a second time changes nothing. */
  lemma WithoutTwice(subs: seq<Callback>, cb: Callback)
    ensures Without(Without(subs, cb), cb) == Without(subs, cb)
  {
  }

  /** A subscription followed by its unsubscribe leaves no trace of that callback. */
  lemma OnThenUnsubscribe(subs: seq<Callback>, cb: Callback)
    ensures Without(subs + [cb], cb) == Without(subs, cb)
  {
    WithoutAppend(subs, [cb], cb);
    assert Without([cb], cb) == [];
  }

  /** One call of a callback: which function, with which argument. */
  datatype Call<D> = Call(callback: Callback, data: D)

  /** The calls emit makes: each subscription in order, with the same data. */
  function CallsOf<D>(subs: seq<Callback>, data: D): (calls: seq<Call<D>>)
    ensures |calls| == |subs|
    ensures forall i :: 0 <= i < |subs| ==> calls[i] == Call(subs[i], data)
  {
    if subs == [] then [] else CallsOf(subs[..|subs| - 1], data) + [Call(subs[|subs| - 1], data)]
  }

  class Bus {
    /** this.events: the subscribers of each event name, in subscription order. */
    var events: map<string, seq<Callback>>

    constructor ()
      ensures events == map[]
    {
      events := map[];
    }

    /** on(event, callback): the callback goes at the end of that event's list. */
    method On(event: string, callback: Callback)
      modifies this
      ensures event in events
      ensures events == old(events)[event := (if event in old(events) then old(events)[event] else []) + [callback]]
    {
      if event !in events {
        events := events[event := []];
      }
      events := events[event := events[event] + [callback]];
    }

    /**
     * The function on returns: every occurrence of callback leaves that event's list. It
     * exists only once on has created the list, which is never dropped.
     */
    method Unsubscribe(event: string, callback: Callback)
      requires event in events
      modifies this
      ensures events == old(events)[event := Without(old(events)[event], callback)]
    {
      events := events[event := Without(events[event], callback)];
    }

    /** The subscribers of an event, [] when there are none. */
    function Subscribers(event: string): (subs: seq<Callback>)
      reads this
      ensures event !in events ==> subs == []
      ensures event in events ==> subs == events[event]
    {
      if event in events then events[event] else []
    }

    /** emit(event, data): forEach over the event's list, calling each with data. */
    method Emit<D>(event: string, data: D) returns (calls: seq<Call<D>>)
      ensures calls == CallsOf(Subscribers(event), data)
      ensures |calls| == |Subscribers(event)|
      ensures event !in events ==> calls == []
    {
      calls := [];
      if event in events {
        var subs := events[event];
        var i := 0;
        while i < |subs|
          invariant 0 <= i <= |subs|
          invariant calls == CallsOf(subs[..i], data)
        {
          assert subs[..i + 1][..i] == subs[..i];
          calls := calls + [Call(subs[i], data)];
          i := i + 1;
        }
        assert subs[..i] == subs;
      }
    }
  }
}
