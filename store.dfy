/** A created store as an object: the closure variables of `createStore`
    become fields that its methods update in place, and each method is
    proved to do what the functions of `Tinux` say. */
module TinuxStore {
  import opened JsSet
  import opened Tinux
  import opened Selectors
  import UntilLaws

  class Store<S(==), P> {
    /** The user code this store runs. */
    const program: Program<S, P>
    var currentState: S
    /** The `Set` of subscriptions, slot by slot. */
    var subscriptions: seq<Slot<Subscription>>
    /** How many wrapper closures have been created so far. */
    var nextClosure: nat
    /** The `until` promises resolved so far, in order. */
    var resolved: seq<Resolution<P>>

    function Vars(): StoreVars<S, P>
      reads this
    {
      StoreVars(currentState, subscriptions, nextClosure, resolved)
    }

    ghost predicate Valid()
      reads this
    {
      UntilLaws.Valid(Vars())
    }

    /** `createStore(initialState)`. */
    constructor (program: Program<S, P>, initialState: S)
      ensures this.program == program
      ensures Vars() == Initial(initialState)
      ensures Valid()
    {
      this.program := program;
      currentState := initialState;
      subscriptions := [];
      nextClosure := 0;
      resolved := [];
      new;
      UntilLaws.InitialValid<S, P>(initialState);
    }

    /** `subscribe(callback)`: adds the callback itself, so subscribing it
        again changes nothing; the returned handle is what its unsubscribe
        function deletes. */
    method Subscribe(cb: CallbackId) returns (handle: Subscription)
      requires Valid()
      modifies this
      ensures Vars() == Apply(old(Vars()), Tinux.Subscribe(cb))
      ensures handle == Listener(cb) && Entry(handle) in subscriptions
      ensures Valid()
    {
      handle := Listener(cb);
      UntilLaws.ApplyKeepsValid(Vars(), Tinux.Subscribe(cb));
      subscriptions := Add(subscriptions, handle);
    }

    /** `subscribe(action, handler)`: adds a new wrapper closure that calls
        the handler only on `action`. */
    method SubscribeTo(action: ActionId, handler: CallbackId) returns (handle: Subscription)
      requires Valid()
      modifies this
      ensures Vars() == Apply(old(Vars()), Tinux.SubscribeTo(action, handler))
      ensures handle == Filtered(old(nextClosure), action, handler)
      ensures subscriptions == old(subscriptions) + [Entry(handle)]
      ensures Valid()
    {
      handle := Filtered(nextClosure, action, handler);
      UntilLaws.ApplyKeepsValid(Vars(), Tinux.SubscribeTo(action, handler));
      UntilLaws.FreshClosureAbsent(Vars(), handle);
      subscriptions := Add(subscriptions, handle);
      nextClosure := nextClosure + 1;
    }

    /** `until(futureAction)`: registers a new waiter and returns its
        promise, named by the waiter's closure. The store's `api`
        (src/tinux.js:9-13) does not include `until`: user code reaches it
        only through the `params` of an action or a subscriber. */
    method Until(target: ActionId) returns (promise: nat)
      requires Valid()
      modifies this
      ensures Vars() == Apply(old(Vars()), Tinux.Until(target))
      ensures promise == old(nextClosure)
      ensures subscriptions == old(subscriptions) + [Entry(Waiter(promise, target))]
      ensures Valid()
    {
      promise := nextClosure;
      UntilLaws.ApplyKeepsValid(Vars(), Tinux.Until(target));
      UntilLaws.FreshClosureAbsent(Vars(), Waiter(promise, target));
      subscriptions := Add(subscriptions, Waiter(promise, target));
      nextClosure := nextClosure + 1;
    }

    /** The unsubscribe function returned by `subscribe`: deletes exactly
        what was added, and does nothing once it is gone. The handle names
        the subscription that function closes over; user code holds one
        only for a listener or a filter wrapper, while a waiter's is called
        by `Notify` alone. */
    method Unsubscribe(handle: Subscription)
      requires Valid()
      modifies this
      ensures subscriptions == Delete(old(subscriptions), handle)
      ensures currentState == old(currentState) && nextClosure == old(nextClosure) && resolved == old(resolved)
      ensures Members(subscriptions) == Remove(Members(old(subscriptions)), handle)
      ensures Valid()
    {
      UntilLaws.DeleteKeepsValid(Vars(), handle);
      MembersDelete(subscriptions, handle);
      subscriptions := Delete(subscriptions, handle);
    }

    /** One registry call made by user code. An internal step of `Dispatch`
        and of the callbacks it runs, not part of the store's `api`. */
    method Perform(e: Effect)
      requires Valid()
      modifies this
      ensures Vars() == Apply(old(Vars()), e)
      ensures Valid()
    {
      match e
      case Subscribe(cb) =>
        var _ := Subscribe(cb);
      case SubscribeTo(a, h) =>
        var _ := SubscribeTo(a, h);
      case Until(t) =>
        var _ := Until(t);
      case Unlisten(cb) =>
        UntilLaws.ApplyKeepsValid(Vars(), e);
        Unsubscribe(Listener(cb));
      case Unfilter(c, a, h) =>
        UntilLaws.ApplyKeepsValid(Vars(), e);
        Unsubscribe(Filtered(c, a, h));
    }

    /** The registry calls one piece of user code makes, in order. An
        internal step, not part of the store's `api`. */
    method PerformAll(effects: seq<Effect>)
      requires Valid()
      modifies this
      ensures Vars() == ApplyAll(old(Vars()), effects)
      ensures Valid()
    {
      var k := 0;
      while k < |effects|
        invariant 0 <= k <= |effects|
        invariant ApplyAll(Vars(), effects[k..]) == ApplyAll(old(Vars()), effects)
        invariant Valid()
      {
        Perform(effects[k]);
        assert effects[k..][1..] == effects[k + 1..];
        k := k + 1;
      }
    }

    /** Calls one registered subscription with the current state and
        `params`. A waiter first unsubscribes itself, then resolves. An
        internal step of `Dispatch`, not part of the store's `api`. */
    method Notify(sub: Subscription, action: ActionId, payload: P) returns (outcome: CallOutcome)
      requires Valid()
      requires Entry(sub) in subscriptions
      modifies this
      ensures (Vars(), outcome) == Invoke(program, old(Vars()), sub, action, payload)
      ensures Valid()
    {
      UntilLaws.InvokeKeepsValid(program, Vars(), sub, action, payload);
      match sub
      case Listener(cb) =>
        var reaction := program.react(cb, currentState, action, payload);
        PerformAll(reaction.effects);
        outcome := reaction.outcome;
      case Filtered(_, a, h) =>
        if a == action {
          var reaction := program.react(h, currentState, action, payload);
          PerformAll(reaction.effects);
          outcome := reaction.outcome;
        } else {
          outcome := Ok;
        }
      case Waiter(c, t) =>
        if Matches(t, action) {
          Unsubscribe(sub);
          resolved := resolved + [Resolution(c, action, payload)];
        }
        outcome := Ok;
    }

    /** The notification loop of `dispatch`: walks the live registry
        calling each subscription with the current state and `params`, until
        one throws or `budget` calls have been made. An internal step of
        `Dispatch`, not part of the store's `api`. */
    method NotifyAll(action: ActionId, payload: P, budget: nat) returns (end: PassEnd, calls: seq<Call<S, P>>)
      requires Valid()
      modifies this
      ensures Pass(program, old(Vars()), 0, action, payload, budget) == PassResult(Vars(), end, calls)
      ensures Valid()
    {
      ghost var target := Pass(program, Vars(), 0, action, payload, budget);
      var i := 0;
      var fuel := budget;
      end := Completed;
      calls := [];
      while i < |subscriptions|
        invariant Valid()
        invariant i <= |subscriptions|
        invariant var rest := Pass(program, Vars(), i, action, payload, fuel);
          target == PassResult(rest.vars, rest.end, calls + rest.calls)
        decreases fuel, |subscriptions| - i
      {
        if subscriptions[i].Empty? {
          PassSkipsEmpty(program, Vars(), i, action, payload, fuel);
          i := i + 1;
        } else if fuel == 0 {
          end := Cut;
          break;
        } else {
          var sub := subscriptions[i].value;
          ghost var before := Vars();
          assert Entry(sub) in subscriptions;
          var outcome := Notify(sub, action, payload);
          PassCalls(program, before, i, action, payload, fuel, Vars(), outcome);
          var call := Call(i, sub, currentState, action, payload, outcome);
          if outcome != Ok {
            end := if outcome == Revert then Reverted else Failed;
            calls := calls + [call];
            break;
          }
          ghost var rest := Pass(program, Vars(), i + 1, action, payload, fuel - 1);
          assert Pass(program, before, i, action, payload, fuel) == PassResult(rest.vars, rest.end, [call] + rest.calls);
          assert calls + ([call] + rest.calls) == (calls + [call]) + rest.calls;
          calls := calls + [call];
          assert target == PassResult(rest.vars, rest.end, calls + rest.calls);
          i := i + 1;
          fuel := fuel - 1;
        }
      }
    }

    /** `dispatch(action, payload)`: runs the action, commits its result
        when it is neither `undefined` nor a thenable and differs from the
        current state, notifies the subscribers, and puts back the state held
        just after the action returned when a subscriber reverts. Returns
        what the action returned, or what escapes, with how the pass ended
        and the calls it made. */
    method Dispatch(action: ActionId, payload: P, budget: nat)
      returns (completion: Completion<S>, end: PassEnd, calls: seq<Call<S, P>>)
      requires Valid()
      modifies this
      ensures Tinux.Dispatch(program, old(Vars()), action, payload, budget)
              == DispatchResult(Vars(), completion, end, calls)
      ensures Valid()
    {
      UntilLaws.DispatchKeepsValid(program, Vars(), action, payload, budget);
      var run := program.act(action, currentState, payload);
      PerformAll(run.effects);
      if run.Threw? {
        return Throw(ActionError), NotRun, [];
      }
      if run.result.Null? {
        return Throw(NullThen), NotRun, [];
      }
      var prevState := currentState;
      if run.result.Value? && run.result.value != currentState {
        currentState := run.result.value;
      }
      end, calls := NotifyAll(action, payload, budget);
      if end == Reverted {
        currentState := prevState;
      }
      completion := Normal(run.result);
    }

    /** `select(selectors)` without a React component: the selection of the
        current state. */
    method Select<J>(sel: Selector<S, J>) returns (r: Evaluated<Projection<S, J>>)
      ensures r == SelectState(sel, currentState)
    {
      r := SelectState(sel, currentState);
    }
  }
}
