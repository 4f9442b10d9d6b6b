/** Client code: what callers of the observable can rely on from its contracts alone. */
module Scenarios {
  import opened Wrappers
  import opened Observables

  /**
   * Subscribe, set, fail, clean up, set again: the subscriber hears the
   * first two changes, each with the pair current at that moment, and
   * nothing after its cleanup.
   */
  method SetFailCleanupSet() returns (finalValue: int, finalError: Option<string>, ghost seen: seq<Delivery<int, string>>)
    ensures finalValue == 3 && finalError == None
    ensures seen == [Delivery(7, 2, None), Delivery(7, 2, Some("x"))]
  {
    var o := new Observable<int, string>(1);
    var r := o.Subscribe(7);
    o.Set(2, false);
    o.Fail(Some("x"), false);
    o.Cleanup(r.value);
    o.Set(3, false);
    finalValue := o.Value();
    finalError := o.Error();
    seen := o.log;
  }

  /** Silent updates change the state and call nobody. */
  method SilentUpdates() returns (finalValue: int, finalError: Option<string>, ghost seen: seq<Delivery<int, string>>)
    ensures finalValue == 4 && finalError == Some("y")
    ensures seen == []
  {
    var o := new Observable<int, string>(0);
    var r := o.Subscribe(7);
    o.Set(4, true);
    o.Fail(Some("y"), true);
    finalValue := o.Value();
    finalError := o.Error();
    seen := o.log;
  }

  /**
   * Subscribing the same callback twice fails the second time; the first
   * subscription stays and is still notified, once per change.
   */
  method SubscribeTwice() returns (first: Result<CleanFunc, string>, second: Result<CleanFunc, string>, ghost seen: seq<Delivery<int, string>>)
    ensures first.Success? && second == Failure("Subscription already exists")
    ensures seen == [Delivery(7, 5, None)]
  {
    var o := new Observable<int, string>(0);
    first := o.Subscribe(7);
    second := o.Subscribe(7);
    o.Set(5, false);
    seen := o.log;
  }

  /** Two subscribers are both told about every change, in the order they subscribed. */
  method TwoSubscribers() returns (order: seq<Callback>, ghost seen: seq<Delivery<int, string>>)
    ensures order == [1, 2]
    ensures seen == [Delivery(1, 8, None), Delivery(2, 8, None)]
  {
    var o := new Observable<int, string>(0);
    var r1 := o.Subscribe(1);
    var r2 := o.Subscribe(2);
    o.Set(8, false);
    order := o.subscribers;
    seen := o.log;
  }

  /** After its cleanup has run, the same callback can subscribe again. */
  method ResubscribeAfterCleanup() returns (again: Result<CleanFunc, string>)
    ensures again.Success?
  {
    var o := new Observable<int, string>(0);
    var r := o.Subscribe(7);
    o.Cleanup(r.value);
    again := o.Subscribe(7);
  }

  /**
   * Callback 1 subscribes, then callback 2; running callback 1's cleanup
   * removes callback 2 and leaves callback 1 registered, and the next
   * change is delivered to callback 1 only.
   */
  method CleanupRemovesWrongSubscriber() returns (remaining: seq<Callback>, ghost seen: seq<Delivery<int, string>>)
    ensures remaining == [1]
    ensures seen == [Delivery(1, 9, None)]
  {
    var o := new Observable<int, string>(0);
    var r1 := o.Subscribe(1);
    var r2 := o.Subscribe(2);
    o.Cleanup(r1.value);
    o.Set(9, false);
    remaining := o.subscribers;
    seen := o.log;
  }

  /** A cleanup run twice removes a second callback; on an empty list it does nothing. */
  method CleanupTwice() returns (afterOnce: seq<Callback>, afterTwice: seq<Callback>, afterThrice: seq<Callback>)
    ensures afterOnce == [1] && afterTwice == [] && afterThrice == []
  {
    var o := new Observable<int, string>(0);
    var r1 := o.Subscribe(1);
    var r2 := o.Subscribe(2);
    o.Cleanup(r2.value);
    afterOnce := o.subscribers;
    o.Cleanup(r2.value);
    afterTwice := o.subscribers;
    o.Cleanup(r2.value);
    afterThrice := o.subscribers;
  }

  /** With removal by identity, callback 1 leaving keeps callback 2 registered. */
  method UnsubscribeRemovesOwnSubscriber() returns (remaining: seq<Callback>, ghost seen: seq<Delivery<int, string>>)
    ensures remaining == [2]
    ensures seen == [Delivery(2, 9, None)]
  {
    var o := new Observable<int, string>(0);
    var r1 := o.Subscribe(1);
    var r2 := o.Subscribe(2);
    assert [1, 2][1..] == [2] && [2][1..] == [];
    o.Unsubscribe(1);
    o.Set(9, false);
    remaining := o.subscribers;
    seen := o.log;
  }
}
