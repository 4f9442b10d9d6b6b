# Observable cell, modelled in Dafny

This project models `Observable<T>` from `src/observable.ts` of react-tservice
and proves properties about it. An observable is a mutable cell with three
parts: a current value, an optional error, and an ordered list of subscriber
callbacks. `set` stores a value and clears the error. `fail` stores or clears
the error. Both then call `notify` unless the `silent` flag is given.
`notify` calls every subscriber, in subscription order, with the current
`{value, error}` pair. `subscribe` refuses a callback that is already
registered. Otherwise it appends the callback and returns a cleanup closure.

The model is imperative, like the source. `Observables.Observable` is a class
with the source's three private fields (`value`, `error`, `subscribers`).
Its methods assign them in place, and each method's `modifies` clause names
only the fields that method writes. Callbacks are opaque identities (`nat`).
Calling one is recorded in a ghost field `log`: each `Delivery` says which
callback was called and with which pair. `Valid()` is the class invariant:
the subscriber list never holds the same callback twice.

Choices made in the model:
- TypeScript's `Error | undefined` becomes `Option<E>`. The error type `E` is opaque.
- The optional `silent?: boolean` becomes a `bool`. An omitted flag (`undefined`, which is falsy) is `false`.
- The `throw` in `subscribe` becomes a `Failure` result. Its message is `"Subscription already exists"`.
- The returned closure becomes `CleanFunc(capturedIndex)`. It holds the `idx` that `indexOf` produced. The closure also captures `this`; the model does not, and `Cleanup` is a method of the observable it is called on.
- `Cleanup` runs that closure, which is `splice(capturedIndex, 1)` on the list as it is at that moment.
- `ArrayOps` states JavaScript's `indexOf` and `splice` on sequences. `splice` includes its rule for negative start positions.

The cleanup is meant to undo its own subscription. `useObservable` hands it
to `useEffect` as the effect's teardown (src/observable.ts:91), so it runs
when that one observation ends. The code does something else. `subscribe`
reaches `push` only when `indexOf` returned -1, so every cleanup captures -1.
`splice(-1, 1)` then removes the **last** callback in the list, or nothing if
the list is empty. The model follows the code. See "## Findings".

## Model

| member | source | states |
|---|---|---|
| Observables.Observable.constructor | src/observable.ts:9-15 | the value is `initial`, there is no error, the list is empty, nothing has been delivered, and the no-duplicates invariant holds |
| Observables.CreateObservable | src/observable.ts:70-75 | returns a fresh observable in that same initial state |
| Observables.Observable.Value | src/observable.ts:17-19 | the getter returns the current value and changes nothing |
| Observables.Observable.Error | src/observable.ts:21-23 | the getter returns the current error and changes nothing |
| Observables.Observable.Set | src/observable.ts:28-32 | afterwards the value is `v` and the error is absent; the list is unchanged; if not silent, every subscriber gets exactly one appended delivery of `(v, absent)`, in list order; if silent, the log is unchanged |
| Observables.Observable.Fail | src/observable.ts:37-40 | afterwards the error is `e` (possibly absent); only the error and the log may change; if not silent, every subscriber gets one delivery of `(old value, e)`, in list order; if silent, nothing is delivered |
| Observables.Observable.Notify | src/observable.ts:45-50 | value, error and list are unchanged; the log grows by exactly one delivery of the current pair per subscriber, in list order |
| Observables.Observable.Subscribe | src/observable.ts:57-62 | a registered callback is refused with "Subscription already exists" and the list is left as it was; a new callback is appended at the end and the cleanup it gets has captured index -1; no duplicates either way |
| Observables.Observable.Cleanup | src/observable.ts:63-65 | the list becomes `splice(capturedIndex, 1)` of the current list; with index -1 the last callback is dropped, and an empty list stays empty; no other field changes and no duplicates appear |
| Observables.Observable.Unsubscribe | src/observable.ts:60-65 | corrected cleanup: the list becomes the old list without `f`, everything else kept in order; it does nothing when `f` is not registered |
| Observables.Deliveries | src/observable.ts:45-50 | a notification pass over `subs` makes one call per entry, in order; call `i` goes to `subs[i]` with the pair `(v, e)` |
| Observables.NotifyExactlyOnce | src/observable.ts:45-50 | for a duplicate-free list, the callbacks called are the list itself, in order; each registered callback is called exactly once and no other callback is called; all receive the same pair |
| Observables.SubscribeThenCleanup | src/observable.ts:60-65 | a cleanup run right after its own subscription gives back the list as it was before |
| Observables.CleanupRemovesLatest | src/observable.ts:60-64 | when `g` subscribes after `f`, running `f`'s cleanup removes `g` and keeps `f` |
| Observables.UnsubscribeUndoesSubscribe | src/observable.ts:60-65 | removing `f` by identity undoes its subscription, even after later subscriptions, and keeps the later subscribers in order |
| ArrayOps.IndexOf | src/observable.ts:60 | -1 exactly when the callback is absent; otherwise the position of its first occurrence |
| ArrayOps.Splice | src/observable.ts:64 | the list that is left is shorter by exactly the number of elements removed |
| ArrayOps.SpliceLast | src/observable.ts:64 | `splice(-1, 1)` drops the last element, and does nothing to an empty list |
| ArrayOps.SpliceNoDuplicates | src/observable.ts:62-64 | `splice` with any arguments keeps a duplicate-free list duplicate-free and adds no element |
| ArrayOps.Remove | src/observable.ts:63-65 | the list without `x`: `x` is absent, and every other element keeps its number of occurrences |
| ArrayOps.RemoveAtIndexOf | src/observable.ts:60-64 | in a duplicate-free list, removing by identity is the same as `splice(indexOf(x), 1)` |
| ArrayOps.OccurrencesNoDuplicates | src/observable.ts:60-62 | in a duplicate-free list, each element occurs exactly once |
| Scenarios.SetFailCleanupSet | src/observable.ts:28-65 | subscribe, `set(2)`, `fail(x)`, cleanup, `set(3)`: the subscriber receives `(2, absent)` and then `(2, x)`; the final value is 3 and the error is absent |
| Scenarios.SilentUpdates | src/observable.ts:28-40 | a silent `set` and a silent `fail` update the state and call nobody |
| Scenarios.SubscribeTwice | src/observable.ts:57-62 | a second subscription of the same callback fails; the first stays and is called once per change |
| Scenarios.TwoSubscribers | src/observable.ts:45-62 | two subscribers are both called, in the order they subscribed |
| Scenarios.ResubscribeAfterCleanup | src/observable.ts:57-65 | after its cleanup has run, the same callback can subscribe again |
| Scenarios.CleanupRemovesWrongSubscriber | src/observable.ts:60-65 | callbacks 1 and 2 subscribe; running 1's cleanup leaves `[1]`; the next change is delivered to 1 only |
| Scenarios.CleanupTwice | src/observable.ts:63-65 | every run of a cleanup removes one more callback from the end; on an empty list it does nothing |
| Scenarios.UnsubscribeRemovesOwnSubscriber | src/observable.ts:60-65 | with removal by identity, 1 leaving keeps 2 registered, and 2 alone is told about the next change |

## Left out

- `useObservable` (src/observable.ts:83-93): it is a React hook built on `useState` and `useEffect`, and its `value || defaultValue` replaces every falsy value by JavaScript truthiness rules.
- `src/container.tsx`: React context, hooks and components, and the external `tservice` dependency-injection container. These are UI and library glue that is not part of this model.
- What subscriber callbacks do. They are foreign code, so the ghost `log` records that a call happened and its argument, not its effects.
- Observable.Notify, Observable.Set and Observable.Fail: callbacks are assumed to return normally. In the source, a callback that throws ends the `forEach` pass at src/observable.ts:46 early. `_value` and `_error` have already been written by then, later subscribers are not called, and the exception reaches the caller of `notify`, `set` or `fail`. The promise that the log grows by one delivery per subscriber holds only when no callback throws.
- Re-entrancy: a callback that calls `set`, `subscribe` or a cleanup during `notify`. Callbacks here cannot touch the observable during a notification pass.
- The array of removed elements that `splice` returns, and the optional `fromIndex` argument of `indexOf`. The source uses neither.
- The contents of `Error` objects. Errors are an opaque type parameter.
- Binding a cleanup to its observable: the closure at src/observable.ts:63-65 captures `this`, but a `CleanFunc` holds only the index. The caller must run `Cleanup` on the observable whose `Subscribe` returned it. Every real `CleanFunc` is `CleanFunc(-1)`, so running it on another observable drops that observable's last callback, which the closure would never do.
- Field privacy: Dafny fields are public, so the model does not enforce that only the class writes `value`, `error` and `subscribers`.

## Findings

| source | as written | input that shows it | evidently intended | confidence | as-written member | corrected member |
|---|---|---|---|---|---|---|
| src/observable.ts:60-65 | the cleanup captures the `idx` that `indexOf` returned. That is -1 whenever `push` is reached, so cleanup runs `splice(-1, 1)` and drops the last callback in the list | callback 1 subscribes, then callback 2, then callback 1's cleanup runs: the list is `[1]`, and callback 1 goes on being notified | the cleanup removes the callback that subscribed, by identity, and does nothing once it is gone | high; not executed | Scenarios.CleanupRemovesWrongSubscriber | Observables.Observable.Unsubscribe |
