/**
 * A single-value observable cell: a current value, an optional error and an
 * ordered list of subscriber callbacks that are told, synchronously and in
 * subscription order, about the current value/error pair.
 *
 * Callbacks are opaque: a subscriber is known only by its identity, and
 * calling it is recorded in a ghost delivery log (who was told what) instead
 * of running foreign code.
 */
module Observables {
  import opened Wrappers
  import opened ArrayOps

  /** A subscriber callback, known by reference identity only. */
  type Callback = nat

  /** One call of a subscriber: who was called and the `{value, error}` pair it was handed. */
  datatype Delivery<T, E> = Delivery(subscriber: Callback, value: T, error: Option<E>)

  /** The cleanup closure `subscribe` returns, reduced to the index `indexOf` gave; the observable it also captures is the one `Cleanup` is called on. */
  datatype CleanFunc = CleanFunc(capturedIndex: int)

  /** The message of the error `subscribe` throws for a callback that is already registered. */
  const SubscriptionAlreadyExists: string := "Subscription already exists"

  /** The calls one notification pass makes: every callback of `subs`, in order, each handed (v, e). */
  function Deliveries<T, E>(subs: seq<Callback>, v: T, e: Option<E>): (r: seq<Delivery<T, E>>)
    ensures |r| == |subs|
    ensures forall i :: 0 <= i < |subs| ==> r[i] == Delivery(subs[i], v, e)
  {
    if subs == [] then [] else [Delivery(subs[0], v, e)] + Deliveries(subs[1..], v, e)
  }

  /** The callbacks a stretch of the log called, in call order. */
  function Recipients<T, E>(log: seq<Delivery<T, E>>): (r: seq<Callback>)
    ensures |r| == |log|
    ensures forall i :: 0 <= i < |log| ==> r[i] == log[i].subscriber
  {
    if log == [] then [] else [log[0].subscriber] + Recipients(log[1..])
  }

  /** A pass over one more subscriber makes one more call, at the end. */
  lemma DeliveriesSnoc<T, E>(subs: seq<Callback>, f: Callback, v: T, e: Option<E>)
    ensures Deliveries(subs + [f], v, e) == Deliveries(subs, v, e) + [Delivery(f, v, e)]
  {
  }

  /**
   * A notification pass over a duplicate-free list calls the subscribers in
   * list order, calls each registered callback exactly once and no other
   * callback at all, and hands every one of them the same pair (v, e).
   */
  lemma NotifyExactlyOnce<T, E>(subs: seq<Callback>, v: T, e: Option<E>, f: Callback)
    requires NoDuplicates(subs)
    ensures Recipients(Deliveries(subs, v, e)) == subs
    ensures Occurrences(Recipients(Deliveries(subs, v, e)), f) == if f in subs then 1 else 0
    ensures forall d :: d in Deliveries(subs, v, e) ==> d.value == v && d.error == e
  {
    var r := Recipients(Deliveries(subs, v, e));
    assert |r| == |subs|;
    assert forall i :: 0 <= i < |subs| ==> r[i] == subs[i];
    assert r == subs;
    OccurrencesNoDuplicates(subs, f);
  }

  /** Subscribing a new callback and running its cleanup straight away restores the list. */
  lemma SubscribeThenCleanup(subs: seq<Callback>, f: Callback)
    ensures Splice(subs + [f], -1, 1) == subs
  {
  }

  /**
   * The cleanup of an earlier subscription removes whichever callback was
   * subscribed last, and leaves its own callback registered.
   */
  lemma CleanupRemovesLatest(subs: seq<Callback>, f: Callback, g: Callback)
    requires f != g
    ensures Splice(subs + [f] + [g], -1, 1) == subs + [f]
    ensures f in Splice(subs + [f] + [g], -1, 1)
    ensures g !in Splice(subs + [f] + [g], -1, 1) <== g !in subs
  {
  }

  /** Removing by identity undoes a subscription, whatever was subscribed after it. */
  lemma UnsubscribeUndoesSubscribe(subs: seq<Callback>, f: Callback, later: seq<Callback>)
    requires f !in subs && f !in later
    ensures Remove(subs + [f] + later, f) == subs + later
  {
    RemoveSingle(subs, f, later);
  }

  /** A value/error cell that tells its subscribers about changes. */
  class Observable<T, E> {
    /** The current value. */
    var value: T
    /** The current error, if any. */
    var error: Option<E>
    /** The registered callbacks, in subscription order. */
    var subscribers: seq<Callback>
    /** Every subscriber call made so far, in order. */
    ghost var log: seq<Delivery<T, E>>

    /** The subscriber list never holds the same callback twice. */
    ghost predicate Valid()
      reads this
    {
      NoDuplicates(subscribers)
    }

    /** Starts with the given value, no error and no subscribers. */
    constructor (initial: T)
      ensures Valid()
      ensures value == initial && error == None && subscribers == [] && log == []
    {
      value := initial;
      error := None;
      subscribers := [];
      log := [];
    }

    /** The `value` getter. */
    method Value() returns (v: T)
      ensures v == value
    {
      v := value;
    }

    /** The `error` getter. */
    method Error() returns (e: Option<E>)
      ensures e == error
    {
      e := error;
    }

    /**
     * Stores a new value and clears the error (a silent `fail` of nothing);
     * unless silent, then tells every subscriber about the new pair.
     */
    method Set(v: T, silent: bool)
      requires Valid()
      modifies this`value, this`error, this`log
      ensures Valid()
      ensures value == v && error == None && subscribers == old(subscribers)
      ensures log == old(log) + if silent then [] else Deliveries(subscribers, v, None)
    {
      value := v;
      Fail(None, true);
      assert log == old(log) && value == v && error == None;
      if !silent {
        Notify();
      }
    }

    /** Stores an error, or clears it, leaving the value alone; unless silent, then notifies. */
    method Fail(e: Option<E>, silent: bool)
      requires Valid()
      modifies this`error, this`log
      ensures Valid()
      ensures value == old(value) && error == e && subscribers == old(subscribers)
      ensures log == old(log) + if silent then [] else Deliveries(subscribers, value, e)
    {
      error := e;
      if !silent {
        Notify();
      }
    }

    /** Calls every subscriber, in subscription order, with the current pair; changes no field. */
    method Notify()
      requires Valid()
      modifies this`log
      ensures Valid()
      ensures value == old(value) && error == old(error) && subscribers == old(subscribers)
      ensures log == old(log) + Deliveries(subscribers, value, error)
    {
      var i := 0;
      while i < |subscribers|
        invariant 0 <= i <= |subscribers|
        invariant log == old(log) + Deliveries(subscribers[..i], value, error)
      {
        assert subscribers[..i + 1] == subscribers[..i] + [subscribers[i]];
        DeliveriesSnoc(subscribers[..i], subscribers[i], value, error);
        log := log + [Delivery(subscribers[i], value, error)];
        i := i + 1;
      }
      assert subscribers[..i] == subscribers;
    }

    /**
     * Registers a callback at the end of the list and returns its cleanup;
     * a callback that is already registered is refused with an error and
     * the list is left as it was. The cleanup captures what `indexOf`
     * returned, which on success is always -1.
     */
    method Subscribe(f: Callback) returns (r: Result<CleanFunc, string>)
      requires Valid()
      modifies this`subscribers
      ensures Valid()
      ensures f in old(subscribers) ==> r == Failure(SubscriptionAlreadyExists) && subscribers == old(subscribers)
      ensures f !in old(subscribers) ==> r == Success(CleanFunc(-1)) && subscribers == old(subscribers) + [f]
    {
      var idx := IndexOf(subscribers, f);
      if idx > -1 {
        return Failure(SubscriptionAlreadyExists);
      }
      subscribers := subscribers + [f];
      r := Success(CleanFunc(idx));
    }

    /**
     * Runs a cleanup closure: `splice(capturedIndex, 1)` on the list as it
     * is now. With the index -1 every real cleanup captured, that removes
     * the last callback, or nothing from an empty list.
     */
    method Cleanup(clean: CleanFunc)
      requires Valid()
      modifies this`subscribers
      ensures Valid()
      ensures subscribers == Splice(old(subscribers), clean.capturedIndex, 1)
      ensures clean.capturedIndex == -1 ==>
        subscribers == if old(subscribers) == [] then [] else old(subscribers)[..|old(subscribers)| - 1]
    {
      SpliceLast(subscribers);
      forall x: Callback ensures x in Splice(subscribers, clean.capturedIndex, 1) ==> x in subscribers {
        SpliceNoDuplicates(subscribers, clean.capturedIndex, 1, x);
      }
      subscribers := Splice(subscribers, clean.capturedIndex, 1);
    }

    /**
     * Corrected cleanup: removes the given callback by identity, wherever
     * it now stands, and does nothing when it is not registered.
     */
    method Unsubscribe(f: Callback)
      requires Valid()
      modifies this`subscribers
      ensures Valid()
      ensures subscribers == Remove(old(subscribers), f)
      ensures f !in old(subscribers) ==> subscribers == old(subscribers)
    {
      var idx := IndexOf(subscribers, f);
      if idx > -1 {
        RemoveAtIndexOf(subscribers, f);
        SpliceNoDuplicates(subscribers, idx, 1, f);
        subscribers := Splice(subscribers, idx, 1);
      } else {
        RemoveAbsent(subscribers, f);
      }
    }
  }

  /** `createObservable`: a fresh observable holding `initial`. */
  method CreateObservable<T, E>(initial: T) returns (o: Observable<T, E>)
    ensures fresh(o) && o.Valid()
    ensures o.value == initial && o.error == None && o.subscribers == [] && o.log == []
  {
    o := new Observable(initial);
  }
}
