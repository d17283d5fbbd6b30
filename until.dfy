/** What `until` promises: its promise resolves once, on the first
    dispatch of a matching action (any action for `Any`) whose notification
    pass reaches it, with that dispatch's `{action, payload}`, and its
    waiter unsubscribes itself. */
module UntilLaws {
  import opened JsSet
  import opened Tinux
  import opened DispatchLaws

  /** Every closure in the registry was created before `next`. */
  ghost predicate ClosuresBelow(slots: seq<Slot<Subscription>>, next: nat) {
    forall j :: 0 <= j < |slots| && slots[j].Entry? && slots[j].value.HasClosure() ==> slots[j].value.closure < next
  }

  /** No closure is registered twice. */
  ghost predicate ClosuresUnique(slots: seq<Slot<Subscription>>) {
    forall j1, j2 :: 0 <= j1 < j2 < |slots| && slots[j1].Entry? && slots[j2].Entry?
      && slots[j1].value.HasClosure() && slots[j2].value.HasClosure()
      ==> slots[j1].value.closure != slots[j2].value.closure
  }

  /** Every resolved promise belongs to a closure created before `next`. */
  ghost predicate PromisesBelow<P>(resolved: seq<Resolution<P>>, next: nat) {
    forall k :: 0 <= k < |resolved| ==> resolved[k].promise < next
  }

  /** No promise is resolved twice. */
  ghost predicate ResolvedOnce<P>(resolved: seq<Resolution<P>>) {
    forall k1, k2 :: 0 <= k1 < k2 < |resolved| ==> resolved[k1].promise != resolved[k2].promise
  }

  /** A waiter still registered has not resolved its promise. */
  ghost predicate PendingUnresolved<P>(slots: seq<Slot<Subscription>>, resolved: seq<Resolution<P>>) {
    forall j, k :: 0 <= j < |slots| && slots[j].Entry? && slots[j].value.Waiter? && 0 <= k < |resolved|
      ==> slots[j].value.closure != resolved[k].promise
  }

  /** The invariant every reachable store keeps. */
  ghost predicate Valid<S, P>(v: StoreVars<S, P>) {
    && NoDup(v.subscriptions)
    && ClosuresBelow(v.subscriptions, v.nextClosure)
    && ClosuresUnique(v.subscriptions)
    && PromisesBelow(v.resolved, v.nextClosure)
    && ResolvedOnce(v.resolved)
    && PendingUnresolved(v.subscriptions, v.resolved)
  }

  lemma InitialValid<S, P>(s: S)
    ensures Valid<S, P>(Initial(s))
  {
  }

  /** A new closure is numbered after every existing one, so it is never
      already in the registry. */
  lemma FreshClosureAbsent<S, P>(v: StoreVars<S, P>, sub: Subscription)
    requires ClosuresBelow(v.subscriptions, v.nextClosure)
    requires sub.HasClosure() && sub.closure == v.nextClosure
    ensures Entry(sub) !in v.subscriptions
  {
    forall j | 0 <= j < |v.subscriptions| ensures v.subscriptions[j] != Entry(sub) {
    }
  }

  /** Appending a new closure, numbered `nextClosure`, keeps the invariant. */
  lemma AppendFreshKeepsValid<S, P>(v: StoreVars<S, P>, sub: Subscription)
    requires Valid(v)
    requires sub.HasClosure() && sub.closure == v.nextClosure
    ensures Valid(v.(subscriptions := v.subscriptions + [Entry(sub)], nextClosure := v.nextClosure + 1))
  {
    FreshClosureAbsent(v, sub);
  }

  /** Appending a plain listener that is not yet registered keeps the
      invariant. */
  lemma AppendListenerKeepsValid<S, P>(v: StoreVars<S, P>, cb: CallbackId)
    requires Valid(v)
    requires Entry(Listener(cb)) !in v.subscriptions
    ensures Valid(v.(subscriptions := v.subscriptions + [Entry(Listener(cb))]))
  {
  }

  /** Emptying a slot keeps the invariant. */
  lemma DeleteKeepsValid<S, P>(v: StoreVars<S, P>, x: Subscription)
    requires Valid(v)
    ensures Valid(v.(subscriptions := Delete(v.subscriptions, x)))
  {
  }

  lemma ApplyKeepsValid<S, P>(v: StoreVars<S, P>, e: Effect)
    requires Valid(v)
    ensures Valid(Apply(v, e))
    ensures v.nextClosure <= Apply(v, e).nextClosure
  {
    match e
    case SubscribeTo(a, h) =>
      FreshClosureAbsent(v, Filtered(v.nextClosure, a, h));
      AppendFreshKeepsValid(v, Filtered(v.nextClosure, a, h));
    case Until(t) =>
      FreshClosureAbsent(v, Waiter(v.nextClosure, t));
      AppendFreshKeepsValid(v, Waiter(v.nextClosure, t));
    case Subscribe(cb) =>
      if Entry(Listener(cb)) !in v.subscriptions {
        AppendListenerKeepsValid(v, cb);
      }
    case Unlisten(cb) =>
      DeleteKeepsValid(v, Listener(cb));
    case Unfilter(c, a, h) =>
      DeleteKeepsValid(v, Filtered(c, a, h));
  }

  lemma {:induction false} ApplyAllKeepsValid<S, P>(v: StoreVars<S, P>, effects: seq<Effect>)
    requires Valid(v)
    ensures Valid(ApplyAll(v, effects))
    ensures v.nextClosure <= ApplyAll(v, effects).nextClosure
    decreases |effects|
  {
    if effects != [] {
      ApplyKeepsValid(v, effects[0]);
      ApplyAllKeepsValid(Apply(v, effects[0]), effects[1..]);
    }
  }

  /** Calling a registered subscription keeps the invariant; in particular a
      waiter resolves a promise that was not resolved before. */
  lemma InvokeKeepsValid<S, P>(prog: Program<S, P>, v: StoreVars<S, P>, sub: Subscription, action: ActionId, payload: P)
    requires Valid(v)
    requires Entry(sub) in v.subscriptions
    ensures Valid(Invoke(prog, v, sub, action, payload).0)
    ensures v.nextClosure <= Invoke(prog, v, sub, action, payload).0.nextClosure
  {
    match sub
    case Listener(cb) =>
      ApplyAllKeepsValid(v, prog.react(cb, v.currentState, action, payload).effects);
    case Filtered(_, a, h) =>
      if a == action {
        ApplyAllKeepsValid(v, prog.react(h, v.currentState, action, payload).effects);
      }
    case Waiter(c, t) =>
      if Matches(t, action) {
        var w := Invoke(prog, v, sub, action, payload).0;
        var j :| 0 <= j < |v.subscriptions| && v.subscriptions[j] == Entry(sub);
        assert w.resolved == v.resolved + [Resolution(c, action, payload)];
        forall k1, k2 | 0 <= k1 < k2 < |w.resolved| ensures w.resolved[k1].promise != w.resolved[k2].promise {
          if k2 == |v.resolved| {
            assert w.resolved[k1] == v.resolved[k1];
          }
        }
        forall j', k | 0 <= j' < |w.subscriptions| && w.subscriptions[j'].Entry? && w.subscriptions[j'].value.Waiter? && 0 <= k < |w.resolved|
          ensures w.subscriptions[j'].value.closure != w.resolved[k].promise
        {
          assert w.subscriptions[j'] == v.subscriptions[j'];
          if k == |v.resolved| {
            assert j' != j;
          }
        }
      }
  }

  lemma {:induction false} PassKeepsValid<S, P>(prog: Program<S, P>, v: StoreVars<S, P>, i: nat, action: ActionId, payload: P, budget: nat)
    requires Valid(v)
    ensures Valid(Pass(prog, v, i, action, payload, budget).vars)
    decreases budget, |v.subscriptions| - i
  {
    if i < |v.subscriptions| {
      match v.subscriptions[i]
      case Empty =>
        PassKeepsValid(prog, v, i + 1, action, payload, budget);
      case Entry(sub) =>
        if budget > 0 {
          InvokeKeepsValid(prog, v, sub, action, payload);
          var (w, outcome) := Invoke(prog, v, sub, action, payload);
          if outcome == Ok {
            PassKeepsValid(prog, w, i + 1, action, payload, budget - 1);
          }
        }
    }
  }

  /** Every reachable store is valid: `dispatch` keeps the invariant whether
      the action throws, the pass completes, or a subscriber reverts. */
  lemma DispatchKeepsValid<S, P>(prog: Program<S, P>, v: StoreVars<S, P>, action: ActionId, payload: P, budget: nat)
    requires Valid(v)
    ensures Valid(Dispatch(prog, v, action, payload, budget).vars)
  {
    var run := prog.act(action, v.currentState, payload);
    ApplyAllKeepsValid(v, run.effects);
    if run.Returned? && !run.result.Null? {
      PassKeepsValid(prog, Commit(ApplyAll(v, run.effects), run.result), 0, action, payload, budget);
    }
  }

  /** Each promise a pass resolves is resolved with that dispatch's
      `{action, payload}`. */
  lemma {:induction false} PassResolvesWithParams<S, P>(prog: Program<S, P>, v: StoreVars<S, P>, i: nat, action: ActionId, payload: P, budget: nat)
    ensures forall k :: |v.resolved| <= k < |Pass(prog, v, i, action, payload, budget).vars.resolved| ==>
      Pass(prog, v, i, action, payload, budget).vars.resolved[k].action == action
      && Pass(prog, v, i, action, payload, budget).vars.resolved[k].payload == payload
    decreases budget, |v.subscriptions| - i
  {
    if i < |v.subscriptions| {
      match v.subscriptions[i]
      case Empty =>
        PassResolvesWithParams(prog, v, i + 1, action, payload, budget);
      case Entry(sub) =>
        if budget > 0 {
          var (w, outcome) := Invoke(prog, v, sub, action, payload);
          if outcome == Ok {
            PassResolvesWithParams(prog, w, i + 1, action, payload, budget - 1);
          }
        }
    }
  }

  /** One of the calls was on a waiter for `promise` whose target matches
      `action`. */
  ghost predicate ResolvedBy<S, P>(calls: seq<Call<S, P>>, promise: nat, action: ActionId) {
    exists n :: 0 <= n < |calls| && calls[n].subscription.Waiter?
      && calls[n].subscription.closure == promise && Matches(calls[n].subscription.target, action)
  }

  /** Every resolution from index `from` on was made by one of the calls on
      a matching waiter. */
  ghost predicate ResolvedByMatchingCall<S, P>(resolved: seq<Resolution<P>>, from: nat, calls: seq<Call<S, P>>, action: ActionId) {
    forall k :: from <= k < |resolved| ==> ResolvedBy(calls, resolved[k].promise, action)
  }

  lemma ResolvedCons<S, P>(before: seq<Resolution<P>>, after: seq<Resolution<P>>, resolved: seq<Resolution<P>>,
                           c: Call<S, P>, rest: seq<Call<S, P>>, action: ActionId, payload: P)
    requires after <= resolved
    requires ResolvedByMatchingCall(resolved, |after|, rest, action)
    requires after == before
             || (c.subscription.Waiter? && Matches(c.subscription.target, action)
                 && after == before + [Resolution(c.subscription.closure, action, payload)])
    ensures ResolvedByMatchingCall(resolved, |before|, [c] + rest, action)
  {
    var calls := [c] + rest;
    forall k | |before| <= k < |resolved|
      ensures ResolvedBy(calls, resolved[k].promise, action)
    {
      if k < |after| {
        assert resolved[k] == after[k];
        assert calls[0] == c;
      } else {
        var n :| 0 <= n < |rest| && rest[n].subscription.Waiter?
          && rest[n].subscription.closure == resolved[k].promise && Matches(rest[n].subscription.target, action);
        assert calls[n + 1] == rest[n];
      }
    }
  }

  /** A pass resolves only the promises of waiters it called whose target
      is the action or `Any`, wherever those waiters were registered. */
  lemma {:induction false} PassResolvesOnlyMatching<S, P>(prog: Program<S, P>, v: StoreVars<S, P>, i: nat, action: ActionId, payload: P, budget: nat)
    ensures ResolvedByMatchingCall(Pass(prog, v, i, action, payload, budget).vars.resolved, |v.resolved|,
                                   Pass(prog, v, i, action, payload, budget).calls, action)
    decreases budget, |v.subscriptions| - i
  {
    if i < |v.subscriptions| {
      match v.subscriptions[i]
      case Empty =>
        PassResolvesOnlyMatching(prog, v, i + 1, action, payload, budget);
      case Entry(sub) =>
        if budget > 0 {
          var (w, outcome) := Invoke(prog, v, sub, action, payload);
          PassCalls(prog, v, i, action, payload, budget, w, outcome);
          var call := Call(i, sub, v.currentState, action, payload, outcome);
          if outcome == Ok {
            var rest := Pass(prog, w, i + 1, action, payload, budget - 1);
            PassResolvesOnlyMatching(prog, w, i + 1, action, payload, budget - 1);
            ResolvedCons(v.resolved, w.resolved, rest.vars.resolved, call, rest.calls, action, payload);
          } else {
            ResolvedCons(v.resolved, w.resolved, w.resolved, call, [], action, payload);
            assert [call] + [] == [call];
          }
        }
    }
  }

  /** A completed pass reaches every waiter registered at or after its
      starting slot: a waiter whose target matches the action resolves its
      promise with `{action, payload}`. */
  lemma {:induction false} CompletedPassFiresWaiter<S, P>(prog: Program<S, P>, v: StoreVars<S, P>, i: nat, action: ActionId, payload: P, budget: nat, j: nat, c: nat, t: ActionId)
    requires Valid(v)
    requires i <= j < |v.subscriptions| && v.subscriptions[j] == Entry(Waiter(c, t))
    requires Matches(t, action)
    requires Pass(prog, v, i, action, payload, budget).end == Completed
    ensures Resolution(c, action, payload) in Pass(prog, v, i, action, payload, budget).vars.resolved
    decreases budget, |v.subscriptions| - i
  {
    match v.subscriptions[i]
    case Empty =>
      CompletedPassFiresWaiter(prog, v, i + 1, action, payload, budget, j, c, t);
    case Entry(sub) =>
      var w := Invoke(prog, v, sub, action, payload).0;
      var rest := Pass(prog, w, i + 1, action, payload, budget - 1);
      if i == j {
        assert w.resolved[|v.resolved|] == Resolution(c, action, payload);
        assert rest.vars.resolved[|v.resolved|] == Resolution(c, action, payload);
      } else {
        InvokeKeepsValid(prog, v, sub, action, payload);
        assert w.subscriptions[j] == v.subscriptions[j];
        CompletedPassFiresWaiter(prog, w, i + 1, action, payload, budget - 1, j, c, t);
      }
  }

  /** A completed pass also takes every matching waiter it reaches out of
      the registry. */
  lemma {:induction false} CompletedPassRemovesWaiter<S, P>(prog: Program<S, P>, v: StoreVars<S, P>, i: nat, action: ActionId, payload: P, budget: nat, j: nat, c: nat, t: ActionId)
    requires Valid(v)
    requires i <= j < |v.subscriptions| && v.subscriptions[j] == Entry(Waiter(c, t))
    requires Matches(t, action)
    requires Pass(prog, v, i, action, payload, budget).end == Completed
    ensures j < |Pass(prog, v, i, action, payload, budget).vars.subscriptions|
            && Pass(prog, v, i, action, payload, budget).vars.subscriptions[j] == Empty
    decreases budget, |v.subscriptions| - i
  {
    match v.subscriptions[i]
    case Empty =>
      CompletedPassRemovesWaiter(prog, v, i + 1, action, payload, budget, j, c, t);
    case Entry(sub) =>
      var w := Invoke(prog, v, sub, action, payload).0;
      var rest := Pass(prog, w, i + 1, action, payload, budget - 1);
      assert Pass(prog, v, i, action, payload, budget).vars == rest.vars;
      if i == j {
        assert w.subscriptions[j] == Empty;
        PassEvolves(prog, w, i + 1, action, payload, budget - 1);
        assert j < |w.subscriptions| <= |rest.vars.subscriptions|;
      } else {
        InvokeKeepsValid(prog, v, sub, action, payload);
        assert w.subscriptions[j] == v.subscriptions[j];
        CompletedPassRemovesWaiter(prog, w, i + 1, action, payload, budget - 1, j, c, t);
      }
  }

  /** A pass leaves a waiter whose target is neither the action nor `Any`
      in its slot, wherever the pass starts and however it ends: calling
      it does nothing. */
  lemma {:induction false} PassSparesWaiter<S, P>(prog: Program<S, P>, v: StoreVars<S, P>, i: nat, action: ActionId, payload: P, budget: nat, j: nat, c: nat, t: ActionId)
    requires j < |v.subscriptions| && v.subscriptions[j] == Entry(Waiter(c, t))
    requires !Matches(t, action)
    ensures j < |Pass(prog, v, i, action, payload, budget).vars.subscriptions|
            && Pass(prog, v, i, action, payload, budget).vars.subscriptions[j] == Entry(Waiter(c, t))
    decreases budget, |v.subscriptions| - i
  {
    if i < |v.subscriptions| {
      match v.subscriptions[i]
      case Empty =>
        PassSparesWaiter(prog, v, i + 1, action, payload, budget, j, c, t);
      case Entry(sub) =>
        if budget > 0 {
          var (w, outcome) := Invoke(prog, v, sub, action, payload);
          assert w.subscriptions[j] == v.subscriptions[j];
          if outcome == Ok {
            PassSparesWaiter(prog, w, i + 1, action, payload, budget - 1, j, c, t);
          }
        }
    }
  }

  /** Whether a slot holds a waiter that fires on `action`. */
  predicate FiresOn(s: Slot<Subscription>, action: ActionId) {
    s.Entry? && s.value.Waiter? && Matches(s.value.target, action)
  }

  /** A completed pass leaves no waiter that fires on its action in any
      slot of its final registry from its starting slot on, including the
      waiters subscribed while the pass runs. */
  lemma {:induction false} CompletedPassLeavesNoFiringWaiter<S, P>(prog: Program<S, P>, v: StoreVars<S, P>, i: nat, action: ActionId, payload: P, budget: nat, j: nat)
    requires Pass(prog, v, i, action, payload, budget).end == Completed
    requires i <= j < |Pass(prog, v, i, action, payload, budget).vars.subscriptions|
    ensures !FiresOn(Pass(prog, v, i, action, payload, budget).vars.subscriptions[j], action)
    decreases budget, |v.subscriptions| - i
  {
    if i < |v.subscriptions| {
      match v.subscriptions[i]
      case Empty =>
        if j == i {
          PassEvolves(prog, v, i + 1, action, payload, budget);
        } else {
          CompletedPassLeavesNoFiringWaiter(prog, v, i + 1, action, payload, budget, j);
        }
      case Entry(sub) =>
        var w := Invoke(prog, v, sub, action, payload).0;
        var rest := Pass(prog, w, i + 1, action, payload, budget - 1);
        assert Pass(prog, v, i, action, payload, budget).vars == rest.vars;
        if j == i {
          assert !FiresOn(w.subscriptions[i], action);
          PassEvolves(prog, w, i + 1, action, payload, budget - 1);
        } else {
          CompletedPassLeavesNoFiringWaiter(prog, w, i + 1, action, payload, budget - 1, j);
        }
    }
  }

  /** `until(action)` on a valid store registers a fresh waiter whose
      promise is not yet resolved. */
  lemma UntilRegistersPendingWaiter<S, P>(v: StoreVars<S, P>, t: ActionId)
    requires Valid(v)
    ensures var r := Apply(v, Until(t));
      && Members(r.subscriptions) == Members(v.subscriptions) + [Waiter(v.nextClosure, t)]
      && r.subscriptions[|v.subscriptions|] == Entry(Waiter(v.nextClosure, t))
      && Valid(r)
  {
    FreshClosureAbsent(v, Waiter(v.nextClosure, t));
    AddAbsent(v.subscriptions, Waiter(v.nextClosure, t));
    ApplyKeepsValid(v, Until(t));
  }

  /** A waiter registered before a dispatch whose pass completes is resolved
      by it, with that dispatch's `{action, payload}`, when its target is
      the dispatched action or `Any`. */
  lemma DispatchFiresWaiter<S, P>(prog: Program<S, P>, v: StoreVars<S, P>, action: ActionId, payload: P, budget: nat, j: nat, c: nat, t: ActionId)
    requires Valid(v)
    requires j < |v.subscriptions| && v.subscriptions[j] == Entry(Waiter(c, t))
    requires t == Any || t == action
    requires Dispatch(prog, v, action, payload, budget).end == Completed
    ensures Resolution(c, action, payload) in Dispatch(prog, v, action, payload, budget).vars.resolved
    ensures j < |Dispatch(prog, v, action, payload, budget).vars.subscriptions|
            && Dispatch(prog, v, action, payload, budget).vars.subscriptions[j] == Empty
  {
    var run := prog.act(action, v.currentState, payload);
    assert run.Returned? && !run.result.Null?;
    var acted := ApplyAll(v, run.effects);
    ApplyAllKeepsValid(v, run.effects);
    assert acted.subscriptions[j] == Entry(Waiter(c, t));
    CompletedPassFiresWaiter(prog, Commit(acted, run.result), 0, action, payload, budget, j, c, t);
    CompletedPassRemovesWaiter(prog, Commit(acted, run.result), 0, action, payload, budget, j, c, t);
  }

  /** A registered waiter whose target is neither the dispatched action nor
      `Any` stays in its slot with its promise unresolved, however the
      dispatch ends. */
  lemma DispatchSparesWaiter<S, P>(prog: Program<S, P>, v: StoreVars<S, P>, action: ActionId, payload: P, budget: nat, j: nat, c: nat, t: ActionId)
    requires Valid(v)
    requires j < |v.subscriptions| && v.subscriptions[j] == Entry(Waiter(c, t))
    requires t != Any && t != action
    ensures j < |Dispatch(prog, v, action, payload, budget).vars.subscriptions|
            && Dispatch(prog, v, action, payload, budget).vars.subscriptions[j] == Entry(Waiter(c, t))
    ensures forall k :: 0 <= k < |Dispatch(prog, v, action, payload, budget).vars.resolved| ==>
      Dispatch(prog, v, action, payload, budget).vars.resolved[k].promise != c
  {
    var run := prog.act(action, v.currentState, payload);
    var acted := ApplyAll(v, run.effects);
    assert acted.subscriptions[j] == Entry(Waiter(c, t));
    if run.Returned? && !run.result.Null? {
      PassSparesWaiter(prog, Commit(acted, run.result), 0, action, payload, budget, j, c, t);
    }
    DispatchKeepsValid(prog, v, action, payload, budget);
  }

  /** Every promise a dispatch resolves belongs to a waiter it called whose
      target is the dispatched action or `Any`: a waiter registered before
      the dispatch, by its action, or by a subscriber during its pass. */
  lemma DispatchResolvesOnlyMatching<S, P>(prog: Program<S, P>, v: StoreVars<S, P>, action: ActionId, payload: P, budget: nat)
    ensures ResolvedByMatchingCall(Dispatch(prog, v, action, payload, budget).vars.resolved, |v.resolved|,
                                   Dispatch(prog, v, action, payload, budget).calls, action)
  {
    var run := prog.act(action, v.currentState, payload);
    if run.Returned? && !run.result.Null? {
      PassResolvesOnlyMatching(prog, Commit(ApplyAll(v, run.effects), run.result), 0, action, payload, budget);
    }
  }

  /** A dispatch whose pass completes leaves no waiter that fires on its
      action anywhere in the registry: not those registered before it, nor
      those its action or its subscribers registered during it. */
  lemma DispatchLeavesNoFiringWaiter<S, P>(prog: Program<S, P>, v: StoreVars<S, P>, action: ActionId, payload: P, budget: nat, j: nat)
    requires Dispatch(prog, v, action, payload, budget).end == Completed
    requires j < |Dispatch(prog, v, action, payload, budget).vars.subscriptions|
    ensures !FiresOn(Dispatch(prog, v, action, payload, budget).vars.subscriptions[j], action)
  {
    var run := prog.act(action, v.currentState, payload);
    assert run.Returned? && !run.result.Null?;
    var committed := Commit(ApplyAll(v, run.effects), run.result);
    CompletedPassLeavesNoFiringWaiter(prog, committed, 0, action, payload, budget, j);
  }

  /** A promise is resolved at most once, however many dispatches follow:
      once resolved, no registered waiter holds its closure any more. */
  lemma ResolvedAtMostOnce<S, P>(prog: Program<S, P>, v: StoreVars<S, P>, action: ActionId, payload: P, budget: nat, k: nat)
    requires Valid(v)
    requires k < |v.resolved|
    ensures ResolvedOnce(Dispatch(prog, v, action, payload, budget).vars.resolved)
    ensures Dispatch(prog, v, action, payload, budget).vars.resolved[k] == v.resolved[k]
    ensures forall k' :: 0 <= k' < |Dispatch(prog, v, action, payload, budget).vars.resolved| && k' != k ==>
      Dispatch(prog, v, action, payload, budget).vars.resolved[k'].promise != v.resolved[k].promise
  {
    DispatchKeepsValid(prog, v, action, payload, budget);
  }

  /** None of the effects unsubscribes anything. */
  ghost predicate OnlySubscribes(effects: seq<Effect>) {
    forall n :: 0 <= n < |effects| ==> !effects[n].Unlisten? && !effects[n].Unfilter?
  }

  /** No callback run on `state`, with `params` carrying `action` and
      `payload`, unsubscribes anything. */
  ghost predicate CallbacksOnlySubscribe<S, P>(prog: Program<S, P>, state: S, action: ActionId, payload: P) {
    forall cb :: OnlySubscribes(prog.react(cb, state, action, payload).effects)
  }

  /** Effects that only subscribe keep every slot and append new ones. */
  lemma {:induction false} OnlySubscribesKeepsSlots<S, P>(v: StoreVars<S, P>, effects: seq<Effect>)
    requires OnlySubscribes(effects)
    ensures v.subscriptions <= ApplyAll(v, effects).subscriptions
    decreases |effects|
  {
    if effects != [] {
      var u := Apply(v, effects[0]);
      assert v.subscriptions <= u.subscriptions;
      assert OnlySubscribes(effects[1..]) by {
        forall n | 0 <= n < |effects[1..]| ensures !effects[1..][n].Unlisten? && !effects[1..][n].Unfilter? {
          assert effects[1..][n] == effects[n + 1];
        }
      }
      OnlySubscribesKeepsSlots(u, effects[1..]);
    }
  }

  /** Calling the subscription in slot `i` keeps every other slot when the
      callbacks only subscribe: a waiter deletes only itself, and no value
      occupies two slots. */
  lemma InvokeKeepsOtherSlots<S, P>(prog: Program<S, P>, v: StoreVars<S, P>, i: nat, action: ActionId, payload: P, j: nat)
    requires NoDup(v.subscriptions)
    requires i < |v.subscriptions| && v.subscriptions[i].Entry?
    requires j < |v.subscriptions| && j != i
    requires CallbacksOnlySubscribe(prog, v.currentState, action, payload)
    ensures var w := Invoke(prog, v, v.subscriptions[i].value, action, payload).0;
      j < |w.subscriptions| && w.subscriptions[j] == v.subscriptions[j]
  {
    match v.subscriptions[i].value
    case Listener(cb) =>
      OnlySubscribesKeepsSlots(v, prog.react(cb, v.currentState, action, payload).effects);
    case Filtered(_, a, h) =>
      if a == action {
        OnlySubscribesKeepsSlots(v, prog.react(h, v.currentState, action, payload).effects);
      }
    case Waiter(_, _) =>
      if v.subscriptions[j].Entry? {
        if i < j {
          assert v.subscriptions[i] != v.subscriptions[j];
        } else {
          assert v.subscriptions[j] != v.subscriptions[i];
        }
      }
  }

  /** A completed pass from slot `i` calls every slot at or after `i` that
      is occupied when it starts, on the subscription held there, provided
      no callback it runs unsubscribes anything. */
  lemma {:induction false} CompletedPassCallsEveryRegistered<S, P>(prog: Program<S, P>, v: StoreVars<S, P>, i: nat, action: ActionId, payload: P, budget: nat, j: nat)
    requires Valid(v)
    requires CallbacksOnlySubscribe(prog, v.currentState, action, payload)
    requires i <= j < |v.subscriptions| && v.subscriptions[j].Entry?
    requires Pass(prog, v, i, action, payload, budget).end == Completed
    ensures exists k :: 0 <= k < |Pass(prog, v, i, action, payload, budget).calls|
                        && Pass(prog, v, i, action, payload, budget).calls[k].slot == j
                        && Pass(prog, v, i, action, payload, budget).calls[k].subscription == v.subscriptions[j].value
    decreases budget, |v.subscriptions| - i
  {
    match v.subscriptions[i]
    case Empty =>
      CompletedPassCallsEveryRegistered(prog, v, i + 1, action, payload, budget, j);
    case Entry(sub) =>
      var (w, outcome) := Invoke(prog, v, sub, action, payload);
      PassCalls(prog, v, i, action, payload, budget, w, outcome);
      var rest := Pass(prog, w, i + 1, action, payload, budget - 1);
      var call := Call(i, sub, v.currentState, action, payload, Ok);
      assert Pass(prog, v, i, action, payload, budget).calls == [call] + rest.calls;
      if j == i {
        assert ([call] + rest.calls)[0] == call;
      } else {
        InvokeKeepsValid(prog, v, sub, action, payload);
        InvokeKeepsOtherSlots(prog, v, i, action, payload, j);
        CompletedPassCallsEveryRegistered(prog, w, i + 1, action, payload, budget - 1, j);
        var k :| 0 <= k < |rest.calls| && rest.calls[k].slot == j && rest.calls[k].subscription == v.subscriptions[j].value;
        assert ([call] + rest.calls)[k + 1] == rest.calls[k];
      }
  }

  /** Every subscription registered before a dispatch whose pass completes
      is called by it, provided neither its action nor any callback it runs
      unsubscribes anything. */
  lemma DispatchNotifiesEveryRegistered<S, P>(prog: Program<S, P>, v: StoreVars<S, P>, action: ActionId, payload: P, budget: nat, j: nat)
    requires Valid(v)
    requires Dispatch(prog, v, action, payload, budget).end == Completed
    requires OnlySubscribes(prog.act(action, v.currentState, payload).effects)
    requires var result := prog.act(action, v.currentState, payload).result;
      CallbacksOnlySubscribe(prog, if result.Value? then result.value else v.currentState, action, payload)
    requires j < |v.subscriptions| && v.subscriptions[j].Entry?
    ensures exists k :: 0 <= k < |Dispatch(prog, v, action, payload, budget).calls|
                        && Dispatch(prog, v, action, payload, budget).calls[k].slot == j
                        && Dispatch(prog, v, action, payload, budget).calls[k].subscription == v.subscriptions[j].value
  {
    var run := prog.act(action, v.currentState, payload);
    assert run.Returned? && !run.result.Null?;
    var acted := ApplyAll(v, run.effects);
    OnlySubscribesKeepsSlots(v, run.effects);
    ApplyAllKeepsValid(v, run.effects);
    var committed := Commit(acted, run.result);
    assert committed.subscriptions[j] == v.subscriptions[j];
    CompletedPassCallsEveryRegistered(prog, committed, 0, action, payload, budget, j);
  }
}
