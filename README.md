# tinux store engine in Dafny

This project models the store that `createStore(initialState)` builds in
`src/tinux.js`. A store holds one `currentState` and a JavaScript `Set` of
subscriptions, and offers these operations:

- `subscribe(callback)` and `subscribe(action, handler)`, each returning an
  unsubscribe function;
- `dispatch(action, payload)`, which runs an action, commits its result,
  notifies every subscription and rolls back on `revert()`;
- `select(selectors)` without a React component, that is `selectState`;
- `until(action)`, the one-shot wait on an action or on the wildcard `Any`.

The files are:

- `registry.dfy` (module `JsSet`): the ECMAScript semantics of `Set` as a
  sequence of slots. `add` appends a slot unless the value is already
  present. `delete` empties a slot. Iteration walks slots by position, so a
  loop in progress sees values appended after its position and skips values
  deleted before it reaches them.
- `selector.dfy` (module `Selectors`): `selectState` as a function over a
  tagged selector. `Tuple` is an array whose first element is a function.
  `BadTuple` is any other array; calling it throws a `TypeError`. `Fn` is a
  function. `Rec` is a value that `isPlainObject` accepts. `Other` is
  anything else.
- `tinux.dfy` (module `Tinux`): the store's closure variables as a value
  (`StoreVars`) and each operation as a function. User code is a
  `Program`. Given the state and the `params` record, an action yields the
  registry calls it makes (`Effect`s) and then either a result or a throw. A
  subscriber callback yields its effects and its outcome: `Ok`, `Revert` for
  the `RevertError` of `revert()`, or `Fail` for any other throw.
- `laws.dfy` (module `DispatchLaws`): what `dispatch`, `subscribe` and
  unsubscribe promise.
- `until.dfy` (module `UntilLaws`): the store invariant and the one-shot
  behaviour of `until`.
- `store.dfy` (module `TinuxStore`): the store as a class whose fields are
  the closure variables. Its methods update those fields in place, and
  `dispatch` walks the live registry with a `while` loop. Each method is
  proved to agree with the functions of `Tinux`.
- `scenarios.dfy` (module `Scenarios`): the runs that `src/tinux.test.js`
  checks, plus two runs that show the live iteration of the `Set`.

Functions are identified by numbers. An action or callback is a number. A
wrapper closure is numbered in creation order. Such a wrapper is one made by
the two-argument `subscribe`, or the one-shot subscriber made by `until`.
`until` returns a promise, named here by its wrapper's number.
`StoreVars.resolved` logs resolutions, recording each time a promise is
resolved with `{action, payload}`.

Three behaviours of the code the model keeps:

- The notification loop iterates the live `Set`, not a snapshot taken when
  the pass starts (src/tinux.js:95). A subscriber added during a pass is
  called in that same pass. `Scenarios.PassSeesAddedSubscriber` shows this.
- An array selector needs only a function in its first element. `[f]`
  calls `f(state)`, so it does not need two or more elements
  (src/tinux.js:42-44).
- An action returning `null` passes the `undefined` test. Reading `.then`
  then throws a `TypeError` that escapes `dispatch` before any subscriber
  is called (src/tinux.js:86-89). The model returns it as `Throw(NullThen)`.

## Model

| member | source | states |
|---|---|---|
| JsSet.Add | src/tinux.js:23 | `Set.add`: a value already present keeps its place and the members are unchanged; otherwise it is appended as the last member. The registry stays duplicate-free, and existing slots keep their positions. |
| JsSet.Members | src/tinux.js:8 | The values of the `Set` in insertion order, one per occupied slot; there are never more of them than slots. `JsSet.MemberIff` ties membership to slot occupancy. |
| JsSet.Delete | src/tinux.js:25 | `Set.delete`: exactly the slot holding the value becomes empty, and every other slot stays as it was. The value is no longer present. |
| JsSet.MemberIff | src/tinux.js:23-25 | A value is a member of the `Set` exactly when some slot holds it. |
| JsSet.RemoveIff | src/tinux.js:25 | The reference removal keeps exactly the elements other than the removed value. |
| JsSet.AddAbsent | src/tinux.js:23 | Adding a value that no slot holds appends a new slot, and the value becomes the last member. |
| JsSet.MembersDelete | src/tinux.js:25 | After `delete`, the members are the old members with that value left out, in their insertion order. |
| JsSet.MembersDistinct | src/tinux.js:8 | A duplicate-free registry lists every member once. |
| JsSet.DeleteIdempotent | src/tinux.js:24-26 | Deleting twice is the same as deleting once. Deleting an absent value changes nothing. |
| JsSet.AddIdempotent | src/tinux.js:23 | Adding a value twice is the same as adding it once, and adds at most one member. |
| Selectors.SelectEntries | src/tinux.js:50-58 | The key-by-key loop over a plain object keeps the entries' keys and their order. It binds each key to the selection of its own selector, and it throws exactly when one of them throws. |
| Selectors.RecordSelectsEachKey | src/tinux.js:50-58 | A plain-object selector gives a fresh record with the same keys in the same order, each selected recursively. It throws exactly when a nested selector throws. |
| Selectors.RecordKeepsKeys | src/tinux.js:50-58 | Distinct selector keys give distinct record keys. |
| Selectors.SelectState | src/tinux.js:41-61 | `selectState`: only an array whose first element is not a function, or a plain object with such a nested selector, throws; a plain object yields a record with one field per key. `Selectors.RecordSelectsEachKey` states the plain-object case in full. |
| Tinux.Initial | src/tinux.js:7-14 | A new store holds the initial state, has no subscriptions and has resolved no promise. |
| Tinux.Matches | src/tinux.js:66 | The test of a waiter: its target is `Any` or the dispatched action. Its two directions are stated by `UntilLaws.DispatchFiresWaiter` and `UntilLaws.DispatchSparesWaiter`. |
| Tinux.Apply | src/tinux.js:16-27 | One call of `subscribe`, `until` or an unsubscribe function never touches the state or the resolved promises. It only empties or appends registry slots and never removes a waiter. |
| Tinux.ApplyAll | src/tinux.js:75-83 | The registry calls that one piece of user code makes through `params` have the same guarantees as a single call. |
| Tinux.Run | src/tinux.js:96 | Calling one callback (a listener here, or a filter's handler at src/tinux.js:21) with the state and `params` keeps the state and the resolutions, only empties or appends slots, and keeps every waiter. |
| Tinux.Invoke | src/tinux.js:20-21 | One subscriber call keeps the state and slot positions. No waiter other than the called one leaves the registry; a listener or filter wrapper may unsubscribe others through its callback. Only a called waiter whose target matches the action resolves its promise, with `{action, payload}`. |
| Tinux.Pass | src/tinux.js:94-97 | The notification loop keeps the state of this dispatch, only adds resolutions, and always ends in one of its pass outcomes. |
| Tinux.Commit | src/tinux.js:86-93 | The commit guard touches only `currentState`. |
| Tinux.Settle | src/tinux.js:98-102 | The `catch` of `dispatch` touches only `currentState`. |
| Tinux.Dispatch | src/tinux.js:74-104 | `dispatch`: it throws exactly when no pass runs, and then it calls nobody and leaves the state unchanged; it only ever adds resolutions. Its full promises are stated by `DispatchLaws.DispatchCommits`, `DispatchLaws.DispatchReturnsActionResult`, `DispatchLaws.DispatchRevertRollsBack` and `DispatchLaws.DispatchSwallowsFailure`. |
| DispatchLaws.PassEvolves | src/tinux.js:95 | During a pass, registry slots only empty out or get appended. |
| DispatchLaws.PassCallsWith | src/tinux.js:96 | Every subscriber of a pass gets the post-commit state and the same `params` (action and payload). |
| DispatchLaws.PassCallsFrom | src/tinux.js:95 | A pass from slot `i` calls only slots at or after `i`. |
| DispatchLaws.PassCallsFound | src/tinux.js:95-96 | Each call was at a slot at or after the start, and that slot still holds the called subscription at the end unless it was unsubscribed. |
| DispatchLaws.PassCallsHeld | src/tinux.js:95-96 | A call at a slot that existed when the pass started was on the subscription that slot held then, even if it was unsubscribed afterwards. |
| DispatchLaws.PassCallsInOrder | src/tinux.js:95-97 | Calls are made in strictly increasing slot order, which is insertion order. |
| DispatchLaws.PassStops | src/tinux.js:94-102 | Every call but the last ended normally. The pass ends `Reverted` exactly when the last call reverted, and `Failed` exactly when it threw anything else. |
| DispatchLaws.CompletedPassVisitsLiveEntries | src/tinux.js:95-97 | A completed pass called every subscription still registered at its end, including those added during the pass. |
| DispatchLaws.DispatchCommits | src/tinux.js:84-93 | Without a revert, the state changes exactly when the result is a value that is not `undefined`, not a thenable and differs from the current state; it then becomes that result. After a revert it is unchanged. Subscribers see the post-commit state. |
| DispatchLaws.DispatchReturnsActionResult | src/tinux.js:84-89 | `dispatch` returns the action's result, committed or not. Only the action's own throw or the `null` `TypeError` escapes; then no subscriber runs and the state is unchanged. |
| DispatchLaws.DispatchNotifiesInOrder | src/tinux.js:95-97 | Subscribers are called in insertion order. A call at a slot registered before the dispatch is on the subscription that slot held then; every call's slot still holds its subscription at the end unless it was unsubscribed. |
| DispatchLaws.DispatchRevertRollsBack | src/tinux.js:98-101 | After a revert, `dispatch` returns normally and the state is the one held before the dispatch, which is the state just after the action returned because an action cannot dispatch here. The reverting call is the last one made. |
| DispatchLaws.DispatchSwallowsFailure | src/tinux.js:98-102 | Any other subscriber throw stops the pass without escaping `dispatch`, and the committed state is kept. |
| DispatchLaws.UnsubscribeIdempotent | src/tinux.js:24-26 | Calling an unsubscribe function again, or after the entry is gone, changes nothing. |
| DispatchLaws.SubscribeTwice | src/tinux.js:16-26 | Subscribing one callback twice is the same as subscribing it once, so it has one entry. |
| DispatchLaws.SubscribeToTwice | src/tinux.js:16-26 | Subscribing one handler to one action twice leaves two distinct wrappers, appended in order after the existing members. |
| DispatchLaws.FilterRunsHandlerOnlyOnItsAction | src/tinux.js:17-22 | A two-argument subscription does nothing on other actions. On its own action it behaves exactly as the handler subscribed alone. |
| UntilLaws.InitialValid | src/tinux.js:7-14 | A new store satisfies the store invariant. |
| UntilLaws.FreshClosureAbsent | src/tinux.js:20-21 | A newly created wrapper is never already in the registry. |
| UntilLaws.ApplyKeepsValid | src/tinux.js:16-27 | Each registry call keeps the store invariant: no duplicates, unique and already-created wrapper numbers, each promise resolved at most once, and no registered waiter already resolved. |
| UntilLaws.ApplyAllKeepsValid | src/tinux.js:75-83 | The registry calls of one piece of user code keep the invariant. |
| UntilLaws.InvokeKeepsValid | src/tinux.js:65-69 | Calling a registered subscription keeps the invariant. In particular, a waiter resolves a promise that was not resolved before. |
| UntilLaws.PassKeepsValid | src/tinux.js:94-97 | A notification pass keeps the invariant, so the registry stays duplicate-free. |
| UntilLaws.DispatchKeepsValid | src/tinux.js:74-104 | `dispatch` keeps the invariant however it ends. |
| UntilLaws.PassResolvesWithParams | src/tinux.js:65-68 | Every promise resolved during a pass is resolved with that dispatch's action and payload. |
| UntilLaws.CompletedPassFiresWaiter | src/tinux.js:63-72 | A completed pass resolves the promise of every matching waiter registered at or after its starting slot when it starts. |
| UntilLaws.CompletedPassRemovesWaiter | src/tinux.js:65-67 | A completed pass removes every matching waiter it reaches from the registry. |
| UntilLaws.PassSparesWaiter | src/tinux.js:65-66 | A pass, however it ends, leaves in its slot every waiter registered when it starts whose target is neither the action nor `Any`. |
| UntilLaws.PassResolvesOnlyMatching | src/tinux.js:63-68 | Every promise a pass resolves belongs to a waiter it called whose target is the action or `Any`, including waiters subscribed during the pass. |
| UntilLaws.CompletedPassLeavesNoFiringWaiter | src/tinux.js:63-97 | A completed pass leaves no waiter that fires on its action in any slot from its start on, including waiters subscribed during the pass. |
| UntilLaws.UntilRegistersPendingWaiter | src/tinux.js:63-65 | `until` appends a new waiter whose promise is not yet resolved. |
| UntilLaws.DispatchFiresWaiter | src/tinux.js:63-72 | A waiter registered before a dispatch, for the dispatched action or for `Any`, is resolved with `{action, payload}` by a dispatch whose pass completes, and it leaves the registry. |
| UntilLaws.DispatchSparesWaiter | src/tinux.js:63-72 | A waiter registered before the dispatch whose target is neither the dispatched action nor `Any` stays in its slot with its promise unresolved, however the dispatch ends. |
| UntilLaws.DispatchResolvesOnlyMatching | src/tinux.js:63-97 | Every promise a dispatch resolves belongs to a waiter it called whose target is the dispatched action or `Any`, whether that waiter was registered before the dispatch, by its action or by a subscriber. |
| UntilLaws.DispatchLeavesNoFiringWaiter | src/tinux.js:63-97 | After a dispatch whose pass completes, no waiter for its action or for `Any` is left in the registry, including waiters its action or its subscribers registered during it. |
| UntilLaws.ResolvedAtMostOnce | src/tinux.js:63-72 | A resolved promise is never resolved again by a later dispatch. |
| UntilLaws.InvokeKeepsOtherSlots | src/tinux.js:63-67 | When callbacks only subscribe, calling one subscription keeps every other slot: a waiter deletes only itself. |
| UntilLaws.CompletedPassCallsEveryRegistered | src/tinux.js:95-96 | When no callback unsubscribes anything, a completed pass calls every slot occupied at its start, on the subscription held there. |
| UntilLaws.DispatchNotifiesEveryRegistered | src/tinux.js:84-97 | When neither the action nor any callback unsubscribes anything, a dispatch whose pass completes calls every subscription registered before it. |
| TinuxStore.Store.constructor | src/tinux.js:7-14 | `createStore(initialState)` gives the initial store, which satisfies the invariant. |
| TinuxStore.Store.Subscribe | src/tinux.js:16-27 | Adds the callback itself, as `Tinux.Apply` says, and returns the handle that its unsubscribe function deletes. |
| TinuxStore.Store.SubscribeTo | src/tinux.js:17-23 | Appends a new filter wrapper and returns it. |
| TinuxStore.Store.Until | src/tinux.js:63-65 | Appends a new waiter and returns its promise. |
| TinuxStore.Store.Unsubscribe | src/tinux.js:24-26 | Deletes the handle's slot. The remaining members stay in order, and nothing else changes. |
| TinuxStore.Store.Perform | src/tinux.js:75-83 | A registry call made through `params` does what `Tinux.Apply` says. |
| TinuxStore.Store.PerformAll | src/tinux.js:75-83 | A sequence of such calls does what `Tinux.ApplyAll` says. |
| TinuxStore.Store.Notify | src/tinux.js:96 | One subscriber call does what `Tinux.Invoke` says. A waiter unsubscribes itself and then resolves. |
| TinuxStore.Store.NotifyAll | src/tinux.js:94-97 | The `for…of` loop over the live `Set` does what `Tinux.Pass` says. |
| TinuxStore.Store.Dispatch | src/tinux.js:74-104 | `dispatch` does what `Tinux.Dispatch` says, so every `DispatchLaws` and `UntilLaws` property holds of it, and it keeps the invariant. |
| TinuxStore.Store.Select | src/tinux.js:33-61 | `select` without React gives the selection of the current state and changes nothing. |
| Scenarios.DispatchCommitsIncrease | src/tinux.test.js:3-8 | `Increase` on a store created with 0 commits 1, and `select()` gives 1. |
| Scenarios.DispatchSkipsUndefinedAndPromise | src/tinux.test.js:10-22 | An action returning `undefined` or a promise leaves the state at 0. |
| Scenarios.StartupWaits | src/tinux.test.js:24-32 | Dispatching `Startup` leaves one waiter for `Increase`. |
| Scenarios.FutureActionResolvesOnce | src/tinux.test.js:24-36 | Dispatching `Increase` then resolves that promise once, with `Increase` and the payload. A second `Increase` resolves nothing more. |
| Scenarios.SubscribeInOrder | src/tinux.js:23 | Two subscriptions fill two slots in insertion order. |
| Scenarios.PassSeesAddedSubscriber | src/tinux.js:95 | A subscriber added by an earlier one during a pass is called in that pass. |
| Scenarios.PassSkipsDeletedSubscriber | src/tinux.js:95 | A subscriber deleted by an earlier one during a pass is not called. |

## Left out

- The React adapter is not modelled: `isHookEnabled`, `ApplyHook`, `refHook` and the hook branch of `select` (src/tinux.js:1-3, 34-36, 109-148). It binds to React's hooks, which are not part of this model.
- Reentrant `dispatch` is not modelled. An action or a subscriber calling `params.dispatch` is not one of the effects user code can have. `params.select` only reads, so it has no effect to model.
- Real promise semantics are not modelled: microtasks, `await`, and what an async action does after it returns. A resolution of an `until` promise is recorded as an event in `resolved`.
- Exceptions are outcomes: the `Fail`/`Revert` outcome of a callback and the `Threw` run of an action. A throw from inside a selector function is not modelled; only calling a non-function throws.
- Tinux.Pass: the `budget` parameter bounds the number of subscriber calls in one pass, so the function terminates. The source loop has no bound and can run forever if subscribers keep adding new wrappers. A pass cut by the budget ends with `Cut`, and the laws about completed passes say nothing about it.
- TinuxStore.Store.Dispatch: takes the same `budget`, for the same reason.
- Tinux.Commit: compares states with value equality. The source's `!==` compares objects by identity, so a result that is a new object equal to the current state is committed there but not here.
- Functions, actions and callbacks are identified by numbers, with `Any` as number 0. The model does not represent a callback's code; a `Program` gives its behaviour.
- `Rec` stands for every value that `isPlainObject` accepts, that is every value whose `Object.prototype.toString` tag is `[object Object]`, class instances included. Symbol keys, non-enumerable keys and a `__proto__` key, which the result object would treat as its prototype, are not modelled.
- A subscriber's return value, which `dispatch` ignores, is not modelled.
- User code is a function of its arguments only. `Program.act` and `Program.react` see the callback, the state, the action and the payload, and one fixed `Program` serves the whole store. A callback with memory of its own, such as a counter or a subscriber that subscribes again only on its first call, is not modelled.
- `params` is modelled as an immutable action and payload. The source passes one mutable `params` object to every subscriber of a pass (src/tinux.js:75-83, 96). A subscriber that assigns `params.action` there changes what later filters (src/tinux.js:21) and waiters (src/tinux.js:66) compare; the model does not capture that.
- DispatchLaws.DispatchRevertRollsBack: states that a revert restores `v.currentState`, the state before the dispatch. The source restores `prevState`, read after the action has run (src/tinux.js:84-85). The two coincide here only because an action cannot dispatch, as reentrant `dispatch` is not modelled.
- UntilLaws.CompletedPassCallsEveryRegistered: states that every subscription registered at the start of a pass is called only when no callback run in the pass unsubscribes anything. When one does, a subscription removed before the loop reaches it is skipped, and the model states only that every call at a pre-existing slot was on the subscription it held (`DispatchLaws.PassCallsHeld`) and that every subscription still registered at the end was called (`DispatchLaws.CompletedPassVisitsLiveEntries`). Saying "called unless deleted before it was reached" in general would need the registry at each step of the pass.
- UntilLaws.DispatchNotifiesEveryRegistered: has the same restriction, extended to the action's own registry calls.
