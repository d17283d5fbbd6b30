/** The store engine of `createStore` as functions over the values of its
    closure variables: the current state, the subscription `Set`, and (for
    the model) the closures created so far and the `until` promises resolved
    so far. User code (actions and subscriber callbacks) is a `Program`: what
    it does to the registry, what it returns and whether it throws. */
module Tinux {
  import opened JsSet

  /** An action is identified by its function's identity. */
  type ActionId = nat

  /** The exported wildcard `Any`: `until(Any)` resolves on every action. */
  const Any: ActionId := 0

  /** A subscriber callback, identified by its function's identity. */
  type CallbackId = nat

  /** What `subscribe` puts into the registry. A two-argument `subscribe`
      and `until` each wrap the caller's intent in a fresh closure, whose
      identity is the number `closure`. */
  datatype Subscription =
    | Listener(callback: CallbackId)
    | Filtered(closure: nat, action: ActionId, handler: CallbackId)
    | Waiter(closure: nat, target: ActionId)
  {
    predicate HasClosure() { Filtered? || Waiter? }
  }

  /** What user code can do to the registry through the `params` it is
      given: subscribe a callback, subscribe a handler to one action, wait
      for an action, and call an unsubscribe function it was handed. Nobody
      but a waiter itself holds the waiter's unsubscribe function. */
  datatype Effect =
    | Subscribe(callback: CallbackId)
    | SubscribeTo(action: ActionId, handler: CallbackId)
    | Until(target: ActionId)
    | Unlisten(callback: CallbackId)
    | Unfilter(closure: nat, action: ActionId, handler: CallbackId)

  /** The resolution of the promise of `until`: the waiter's closure and the
      `{action, payload}` it was resolved with. */
  datatype Resolution<P> = Resolution(promise: nat, action: ActionId, payload: P)

  /** The closure variables of one created store. */
  datatype StoreVars<S, P> = StoreVars(
    currentState: S,
    subscriptions: seq<Slot<Subscription>>,
    nextClosure: nat,
    resolved: seq<Resolution<P>>)

  /** What an action returns: `undefined`, `null`, a thenable (an object
      with a callable `then`, such as the promise of an async action), or
      any other value, which is a candidate state. */
  datatype ActionResult<S> = Undefined | Null | Thenable | Value(value: S)

  /** One run of an action: the registry effects it performed, then either
      its return value or a throw. */
  datatype ActionRun<S> =
    | Returned(effects: seq<Effect>, result: ActionResult<S>)
    | Threw(effects: seq<Effect>)

  /** How a subscriber call ends: normally, by `revert()` (a `RevertError`),
      or by any other throw. */
  datatype CallOutcome = Ok | Revert | Fail

  datatype Reaction = Reaction(effects: seq<Effect>, outcome: CallOutcome)

  /** The user code a store runs: each action on `(state, params)` and each
      callback on `(state, params)`, where `params` carries the action and
      the payload. */
  datatype Program<!S, !P> = Program(
    act: (ActionId, S, P) -> ActionRun<S>,
    react: (CallbackId, S, ActionId, P) -> Reaction)

  /** One subscriber call of a notification pass: the registry slot it was
      found in, what was called, with which arguments, and how it ended. */
  datatype Call<S, P> = Call(
    slot: nat,
    subscription: Subscription,
    state: S,
    action: ActionId,
    payload: P,
    outcome: CallOutcome)

  /** How a notification pass ended. `Cut` means the model's call budget
      ran out; `NotRun` that no pass took place. */
  datatype PassEnd = Completed | Reverted | Failed | Cut | NotRun

  datatype PassResult<S, P> = PassResult(vars: StoreVars<S, P>, end: PassEnd, calls: seq<Call<S, P>>)

  /** What escapes `dispatch`: the action's own throw, or the `TypeError`
      of reading `.then` of a `null` result. */
  datatype DispatchError = ActionError | NullThen

  datatype Completion<S> = Normal(result: ActionResult<S>) | Throw(error: DispatchError)

  datatype DispatchResult<S, P> = DispatchResult(
    vars: StoreVars<S, P>,
    completion: Completion<S>,
    end: PassEnd,
    calls: seq<Call<S, P>>)

  function Initial<S, P>(initialState: S): (v: StoreVars<S, P>)
    ensures v.currentState == initialState && Members(v.subscriptions) == [] && v.resolved == []
  {
    StoreVars(initialState, [], 0, [])
  }

  /** Registry slots only ever empty out or get appended; no slot moves and
      no empty slot is refilled. */
  ghost predicate Evolves(a: seq<Slot<Subscription>>, b: seq<Slot<Subscription>>) {
    |a| <= |b| && forall j :: 0 <= j < |a| ==> b[j] == a[j] || b[j] == Empty
  }

  /** Every waiter registered in `a` keeps its slot in `b`. */
  ghost predicate KeepsWaiters(a: seq<Slot<Subscription>>, b: seq<Slot<Subscription>>) {
    forall j :: 0 <= j < |a| && a[j].Entry? && a[j].value.Waiter? ==> j < |b| && b[j] == a[j]
  }

  /** Whether a waiter for `target` fires on `action`. */
  predicate Matches(target: ActionId, action: ActionId) {
    target == Any || target == action
  }

  /** One registry effect. A callback subscribed twice keeps one entry; a
      wrapper is a new closure each time, so it always gets a new entry. */
  function Apply<S, P>(v: StoreVars<S, P>, e: Effect): (r: StoreVars<S, P>)
    ensures r.currentState == v.currentState && r.resolved == v.resolved
    ensures Evolves(v.subscriptions, r.subscriptions)
    ensures KeepsWaiters(v.subscriptions, r.subscriptions)
  {
    match e
    case Subscribe(cb) =>
      v.(subscriptions := Add(v.subscriptions, Listener(cb)))
    case SubscribeTo(a, h) =>
      v.(subscriptions := Add(v.subscriptions, Filtered(v.nextClosure, a, h)), nextClosure := v.nextClosure + 1)
    case Until(t) =>
      v.(subscriptions := Add(v.subscriptions, Waiter(v.nextClosure, t)), nextClosure := v.nextClosure + 1)
    case Unlisten(cb) =>
      v.(subscriptions := Delete(v.subscriptions, Listener(cb)))
    case Unfilter(c, a, h) =>
      v.(subscriptions := Delete(v.subscriptions, Filtered(c, a, h)))
  }

  /** The effects of one piece of user code, in order. They never touch the
      state or the resolved promises, and never remove a waiter. */
  function ApplyAll<S, P>(v: StoreVars<S, P>, effects: seq<Effect>): (r: StoreVars<S, P>)
    ensures r.currentState == v.currentState && r.resolved == v.resolved
    ensures Evolves(v.subscriptions, r.subscriptions)
    ensures KeepsWaiters(v.subscriptions, r.subscriptions)
    decreases |effects|
  {
    if effects == [] then v else ApplyAll(Apply(v, effects[0]), effects[1..])
  }

  /** Runs one subscriber callback with the current state and `params`. */
  function Run<S, P>(prog: Program<S, P>, v: StoreVars<S, P>, cb: CallbackId, action: ActionId, payload: P)
    : (r: (StoreVars<S, P>, CallOutcome))
    ensures r.0.currentState == v.currentState && r.0.resolved == v.resolved
    ensures Evolves(v.subscriptions, r.0.subscriptions)
    ensures KeepsWaiters(v.subscriptions, r.0.subscriptions)
  {
    var reaction := prog.react(cb, v.currentState, action, payload);
    (ApplyAll(v, reaction.effects), reaction.outcome)
  }

  /** Calls one registered subscription. A filter wrapper calls its handler
      only on its own action; a waiter, on a matching action, unsubscribes
      itself and then resolves its promise with `{action, payload}`. */
  function Invoke<S, P>(prog: Program<S, P>, v: StoreVars<S, P>, sub: Subscription, action: ActionId, payload: P)
    : (r: (StoreVars<S, P>, CallOutcome))
    ensures r.0.currentState == v.currentState
    ensures r.0.resolved == v.resolved
            || (sub.Waiter? && Matches(sub.target, action) && r.0.resolved == v.resolved + [Resolution(sub.closure, action, payload)])
    ensures Evolves(v.subscriptions, r.0.subscriptions)
    ensures forall j :: (0 <= j < |v.subscriptions| && v.subscriptions[j].Entry? && v.subscriptions[j].value.Waiter?
                         && v.subscriptions[j].value != sub) ==> r.0.subscriptions[j] == v.subscriptions[j]
  {
    match sub
    case Listener(cb) => Run(prog, v, cb, action, payload)
    case Filtered(_, a, h) =>
      if a == action then Run(prog, v, h, action, payload) else (v, Ok)
    case Waiter(c, t) =>
      if Matches(t, action) then
        var unsubscribed := v.(subscriptions := Delete(v.subscriptions, sub));
        (unsubscribed.(resolved := v.resolved + [Resolution(c, action, payload)]), Ok)
      else (v, Ok)
  }

  /** The notification loop of `dispatch`, from slot `i` of the live
      registry on: every registered subscription is called in slot order
      with the state and `params` of this dispatch, and the first call that
      does not end normally ends the pass. `budget` bounds the number of
      calls (the source loop has no bound). */
  function Pass<S, P>(prog: Program<S, P>, v: StoreVars<S, P>, i: nat, action: ActionId, payload: P, budget: nat)
    : (r: PassResult<S, P>)
    ensures r.vars.currentState == v.currentState
    ensures v.resolved <= r.vars.resolved
    ensures r.end != NotRun
    decreases budget, |v.subscriptions| - i
  {
    if i >= |v.subscriptions| then PassResult(v, Completed, [])
    else
      match v.subscriptions[i]
      case Empty => Pass(prog, v, i + 1, action, payload, budget)
      case Entry(sub) =>
        if budget == 0 then PassResult(v, Cut, [])
        else
          var (w, outcome) := Invoke(prog, v, sub, action, payload);
          var call := Call(i, sub, v.currentState, action, payload, outcome);
          match outcome
          case Ok =>
            var rest := Pass(prog, w, i + 1, action, payload, budget - 1);
            PassResult(rest.vars, rest.end, [call] + rest.calls)
          case Revert => PassResult(w, Reverted, [call])
          case Fail => PassResult(w, Failed, [call])
  }

  /** One step of a pass at an empty slot: it is skipped. */
  lemma PassSkipsEmpty<S, P>(prog: Program<S, P>, v: StoreVars<S, P>, i: nat, action: ActionId, payload: P, budget: nat)
    requires i < |v.subscriptions| && v.subscriptions[i] == Empty
    ensures Pass(prog, v, i, action, payload, budget) == Pass(prog, v, i + 1, action, payload, budget)
  {
  }

  /** One step of a pass at an occupied slot: the call is made, and the
      pass goes on after it only when it ended normally. */
  lemma PassCalls<S, P>(prog: Program<S, P>, v: StoreVars<S, P>, i: nat, action: ActionId, payload: P, budget: nat,
                        w: StoreVars<S, P>, outcome: CallOutcome)
    requires i < |v.subscriptions| && v.subscriptions[i].Entry? && budget > 0
    requires Invoke(prog, v, v.subscriptions[i].value, action, payload) == (w, outcome)
    ensures outcome == Ok ==>
      var rest := Pass(prog, w, i + 1, action, payload, budget - 1);
      Pass(prog, v, i, action, payload, budget)
      == PassResult(rest.vars, rest.end, [Call(i, v.subscriptions[i].value, v.currentState, action, payload, Ok)] + rest.calls)
    ensures outcome != Ok ==>
      Pass(prog, v, i, action, payload, budget)
      == PassResult(w, if outcome == Revert then Reverted else Failed,
                    [Call(i, v.subscriptions[i].value, v.currentState, action, payload, outcome)])
  {
  }

  /** The commit guard of `dispatch`: a result that is a value (neither
      `undefined` nor a thenable) and differs from the current state becomes
      the state; nothing else changes. */
  function Commit<S(==), P>(v: StoreVars<S, P>, nextState: ActionResult<S>): (r: StoreVars<S, P>)
    ensures r.subscriptions == v.subscriptions && r.resolved == v.resolved && r.nextClosure == v.nextClosure
  {
    if nextState.Value? && nextState.value != v.currentState then v.(currentState := nextState.value) else v
  }

  /** The `catch` of `dispatch`: a revert puts back `prevState`. */
  function Settle<S, P>(pass: PassResult<S, P>, prevState: S): (r: StoreVars<S, P>)
    ensures r.subscriptions == pass.vars.subscriptions && r.resolved == pass.vars.resolved
    ensures r.nextClosure == pass.vars.nextClosure
  {
    if pass.end == Reverted then pass.vars.(currentState := prevState) else pass.vars
  }

  /** `dispatch(action, payload)`: run the action, commit its result when it
      is neither `undefined` nor a thenable and differs from the current
      state, notify the subscribers, and restore the state held just after
      the action returned if one of them reverts. */
  function Dispatch<S(==), P>(prog: Program<S, P>, v: StoreVars<S, P>, action: ActionId, payload: P, budget: nat)
    : (r: DispatchResult<S, P>)
    ensures r.completion.Throw? <==> r.end == NotRun
    ensures r.completion.Throw? ==> r.calls == [] && r.vars.currentState == v.currentState
    ensures v.resolved <= r.vars.resolved
  {
    var run := prog.act(action, v.currentState, payload);
    var acted := ApplyAll(v, run.effects);
    if run.Threw? then DispatchResult(acted, Throw(ActionError), NotRun, [])
    else if run.result.Null? then DispatchResult(acted, Throw(NullThen), NotRun, [])
    else
      var prevState := acted.currentState;
      var pass := Pass(prog, Commit(acted, run.result), 0, action, payload, budget);
      DispatchResult(Settle(pass, prevState), Normal(run.result), pass.end, pass.calls)
  }
}
