/** What `dispatch` promises: the commit guard, the pass-through return
    value, the order and arguments of subscriber calls, and what a revert
    or another subscriber failure does to the pass and to the state. */
module DispatchLaws {
  import opened JsSet
  import opened Tinux

  /** Each call was made with `state` and with `params` carrying `action`
      and `payload`. */
  ghost predicate CalledWith<S, P>(calls: seq<Call<S, P>>, state: S, action: ActionId, payload: P) {
    forall k :: 0 <= k < |calls| ==>
      calls[k].state == state && calls[k].action == action && calls[k].payload == payload
  }

  /** Each call's subscription was found at or after slot `i` and is still
      in its slot in `slots` unless it was unsubscribed. */
  ghost predicate FoundInSlots<S, P>(calls: seq<Call<S, P>>, i: nat, slots: seq<Slot<Subscription>>) {
    forall k :: 0 <= k < |calls| ==>
      && i <= calls[k].slot < |slots|
      && (slots[calls[k].slot] == Entry(calls[k].subscription) || slots[calls[k].slot] == Empty)
  }

  /** Each call at a slot that `slots` already had was on the subscription
      that slot holds in `slots`: a slot is never refilled, so whatever a
      pass calls there was registered there from the start. */
  ghost predicate HeldAtStart<S, P>(calls: seq<Call<S, P>>, slots: seq<Slot<Subscription>>) {
    forall k :: 0 <= k < |calls| && calls[k].slot < |slots| ==>
      slots[calls[k].slot] == Entry(calls[k].subscription)
  }

  /** Calls were made in increasing slot order; slots never move, so this is
      insertion order. */
  ghost predicate InSlotOrder<S, P>(calls: seq<Call<S, P>>) {
    forall k, l :: 0 <= k < l < |calls| ==> calls[k].slot < calls[l].slot
  }

  /** Every call but the last ended normally, and `end` says how the last
      one ended. */
  ghost predicate StopsAtFirstThrow<S, P>(calls: seq<Call<S, P>>, end: PassEnd) {
    && (forall k :: 0 <= k < |calls| - 1 ==> calls[k].outcome == Ok)
    && (end == Completed || end == Cut ==> forall k :: 0 <= k < |calls| ==> calls[k].outcome == Ok)
    && (end == Reverted <==> |calls| > 0 && calls[|calls| - 1].outcome == Revert)
    && (end == Failed <==> |calls| > 0 && calls[|calls| - 1].outcome == Fail)
  }

  lemma EvolvesTransitive(a: seq<Slot<Subscription>>, b: seq<Slot<Subscription>>, c: seq<Slot<Subscription>>)
    requires Evolves(a, b) && Evolves(b, c)
    ensures Evolves(a, c)
  {
  }

  /** During a pass registry slots only empty out or get appended. */
  lemma {:induction false} PassEvolves<S, P>(prog: Program<S, P>, v: StoreVars<S, P>, i: nat, action: ActionId, payload: P, budget: nat)
    ensures Evolves(v.subscriptions, Pass(prog, v, i, action, payload, budget).vars.subscriptions)
    decreases budget, |v.subscriptions| - i
  {
    if i < |v.subscriptions| {
      match v.subscriptions[i]
      case Empty =>
        PassEvolves(prog, v, i + 1, action, payload, budget);
      case Entry(sub) =>
        if budget > 0 {
          var (w, outcome) := Invoke(prog, v, sub, action, payload);
          if outcome == Ok {
            PassEvolves(prog, w, i + 1, action, payload, budget - 1);
            EvolvesTransitive(v.subscriptions, w.subscriptions, Pass(prog, w, i + 1, action, payload, budget - 1).vars.subscriptions);
          }
        }
    }
  }

  /** Every call of a pass gets the state and `params` of this dispatch. */
  lemma {:induction false} PassCallsWith<S, P>(prog: Program<S, P>, v: StoreVars<S, P>, i: nat, action: ActionId, payload: P, budget: nat)
    ensures CalledWith(Pass(prog, v, i, action, payload, budget).calls, v.currentState, action, payload)
    decreases budget, |v.subscriptions| - i
  {
    if i < |v.subscriptions| {
      match v.subscriptions[i]
      case Empty =>
        PassCallsWith(prog, v, i + 1, action, payload, budget);
      case Entry(sub) =>
        if budget > 0 {
          var (w, outcome) := Invoke(prog, v, sub, action, payload);
          if outcome == Ok {
            PassCallsWith(prog, w, i + 1, action, payload, budget - 1);
          }
        }
    }
  }

  /** Every call of a pass from slot `i` was made on a subscription found in
      a slot at or after `i`, and that slot still holds it unless it was
      unsubscribed. */
  lemma {:induction false} PassCallsFound<S, P>(prog: Program<S, P>, v: StoreVars<S, P>, i: nat, action: ActionId, payload: P, budget: nat)
    ensures FoundInSlots(Pass(prog, v, i, action, payload, budget).calls, i,
                         Pass(prog, v, i, action, payload, budget).vars.subscriptions)
    decreases budget, |v.subscriptions| - i
  {
    if i < |v.subscriptions| {
      match v.subscriptions[i]
      case Empty =>
        PassCallsFound(prog, v, i + 1, action, payload, budget);
      case Entry(sub) =>
        if budget > 0 {
          var (w, outcome) := Invoke(prog, v, sub, action, payload);
          PassCalls(prog, v, i, action, payload, budget, w, outcome);
          if outcome == Ok {
            var rest := Pass(prog, w, i + 1, action, payload, budget - 1);
            PassCallsFound(prog, w, i + 1, action, payload, budget - 1);
            PassEvolves(prog, w, i + 1, action, payload, budget - 1);
            assert rest.vars.subscriptions[i] == Entry(sub) || rest.vars.subscriptions[i] == Empty;
            FoundCons(Call(i, sub, v.currentState, action, payload, Ok), rest.calls, i, rest.vars.subscriptions);
          }
        }
    }
  }

  lemma FoundCons<S, P>(c: Call<S, P>, rest: seq<Call<S, P>>, i: nat, slots: seq<Slot<Subscription>>)
    requires FoundInSlots(rest, i + 1, slots)
    requires c.slot == i && i < |slots|
    requires slots[i] == Entry(c.subscription) || slots[i] == Empty
    ensures FoundInSlots([c] + rest, i, slots)
  {
    var calls := [c] + rest;
    forall k | 0 <= k < |calls|
      ensures i <= calls[k].slot < |slots|
      ensures slots[calls[k].slot] == Entry(calls[k].subscription) || slots[calls[k].slot] == Empty
    {
      if k > 0 {
        assert calls[k] == rest[k - 1];
      }
    }
  }

  /** Every call of a pass at a slot the registry had when the pass started
      was made on the subscription that slot held then, even when that
      subscription was unsubscribed afterwards. */
  lemma {:induction false} PassCallsHeld<S, P>(prog: Program<S, P>, v: StoreVars<S, P>, i: nat, action: ActionId, payload: P, budget: nat)
    ensures HeldAtStart(Pass(prog, v, i, action, payload, budget).calls, v.subscriptions)
    decreases budget, |v.subscriptions| - i
  {
    if i < |v.subscriptions| {
      match v.subscriptions[i]
      case Empty =>
        PassCallsHeld(prog, v, i + 1, action, payload, budget);
      case Entry(sub) =>
        if budget > 0 {
          var (w, outcome) := Invoke(prog, v, sub, action, payload);
          if outcome == Ok {
            var rest := Pass(prog, w, i + 1, action, payload, budget - 1);
            var call := Call(i, sub, v.currentState, action, payload, Ok);
            assert Pass(prog, v, i, action, payload, budget).calls == [call] + rest.calls;
            PassCallsHeld(prog, w, i + 1, action, payload, budget - 1);
            HeldCons(call, rest.calls, v.subscriptions, w.subscriptions);
          }
        }
    }
  }

  lemma HeldCons<S, P>(c: Call<S, P>, rest: seq<Call<S, P>>, slots: seq<Slot<Subscription>>, later: seq<Slot<Subscription>>)
    requires Evolves(slots, later) && HeldAtStart(rest, later)
    requires c.slot < |slots| && slots[c.slot] == Entry(c.subscription)
    ensures HeldAtStart([c] + rest, slots)
  {
    HeldEarlier(rest, slots, later);
    var calls := [c] + rest;
    forall k | 0 <= k < |calls| && calls[k].slot < |slots|
      ensures slots[calls[k].slot] == Entry(calls[k].subscription)
    {
      if k > 0 {
        assert calls[k] == rest[k - 1];
      }
    }
  }

  /** What was held in a later registry was held in an earlier one it
      evolved from. */
  lemma HeldEarlier<S, P>(calls: seq<Call<S, P>>, a: seq<Slot<Subscription>>, b: seq<Slot<Subscription>>)
    requires Evolves(a, b) && HeldAtStart(calls, b)
    ensures HeldAtStart(calls, a)
  {
    forall k | 0 <= k < |calls| && calls[k].slot < |a|
      ensures a[calls[k].slot] == Entry(calls[k].subscription)
    {
      assert b[calls[k].slot] == Entry(calls[k].subscription);
    }
  }

  /** Every call of a pass from slot `i` was made at a slot at or after `i`. */
  lemma {:induction false} PassCallsFrom<S, P>(prog: Program<S, P>, v: StoreVars<S, P>, i: nat, action: ActionId, payload: P, budget: nat)
    ensures forall k :: 0 <= k < |Pass(prog, v, i, action, payload, budget).calls| ==>
              i <= Pass(prog, v, i, action, payload, budget).calls[k].slot
    decreases budget, |v.subscriptions| - i
  {
    if i < |v.subscriptions| {
      match v.subscriptions[i]
      case Empty =>
        PassCallsFrom(prog, v, i + 1, action, payload, budget);
      case Entry(sub) =>
        if budget > 0 {
          var (w, outcome) := Invoke(prog, v, sub, action, payload);
          if outcome == Ok {
            PassCallsFrom(prog, w, i + 1, action, payload, budget - 1);
          }
        }
    }
  }

  lemma ConsInSlotOrder<S, P>(c: Call<S, P>, rest: seq<Call<S, P>>)
    requires InSlotOrder(rest)
    requires forall k :: 0 <= k < |rest| ==> c.slot < rest[k].slot
    ensures InSlotOrder([c] + rest)
  {
    var calls := [c] + rest;
    forall k, l | 0 <= k < l < |calls| ensures calls[k].slot < calls[l].slot {
      assert calls[l] == rest[l - 1];
      if k > 0 {
        assert calls[k] == rest[k - 1];
      }
    }
  }

  /** The calls of a pass are made in slot order. */
  lemma {:induction false} PassCallsInOrder<S, P>(prog: Program<S, P>, v: StoreVars<S, P>, i: nat, action: ActionId, payload: P, budget: nat)
    ensures InSlotOrder(Pass(prog, v, i, action, payload, budget).calls)
    decreases budget, |v.subscriptions| - i
  {
    if i < |v.subscriptions| {
      match v.subscriptions[i]
      case Empty =>
        PassCallsInOrder(prog, v, i + 1, action, payload, budget);
      case Entry(sub) =>
        if budget > 0 {
          var (w, outcome) := Invoke(prog, v, sub, action, payload);
          if outcome == Ok {
            var rest := Pass(prog, w, i + 1, action, payload, budget - 1);
            PassCallsInOrder(prog, w, i + 1, action, payload, budget - 1);
            PassCallsFrom(prog, w, i + 1, action, payload, budget - 1);
            ConsInSlotOrder(Call(i, sub, v.currentState, action, payload, Ok), rest.calls);
          }
        }
    }
  }

  lemma StopsCons<S, P>(c: Call<S, P>, rest: seq<Call<S, P>>, end: PassEnd)
    requires c.outcome == Ok && StopsAtFirstThrow(rest, end)
    ensures StopsAtFirstThrow([c] + rest, end)
  {
    var calls := [c] + rest;
    forall k | 1 <= k < |calls| ensures calls[k] == rest[k - 1] {}
  }

  /** A pass stops at the first call that does not end normally. */
  lemma {:induction false} PassStops<S, P>(prog: Program<S, P>, v: StoreVars<S, P>, i: nat, action: ActionId, payload: P, budget: nat)
    ensures StopsAtFirstThrow(Pass(prog, v, i, action, payload, budget).calls, Pass(prog, v, i, action, payload, budget).end)
    decreases budget, |v.subscriptions| - i
  {
    if i < |v.subscriptions| {
      match v.subscriptions[i]
      case Empty =>
        PassStops(prog, v, i + 1, action, payload, budget);
      case Entry(sub) =>
        if budget > 0 {
          var (w, outcome) := Invoke(prog, v, sub, action, payload);
          PassCalls(prog, v, i, action, payload, budget, w, outcome);
          if outcome == Ok {
            var rest := Pass(prog, w, i + 1, action, payload, budget - 1);
            PassStops(prog, w, i + 1, action, payload, budget - 1);
            StopsCons(Call(i, sub, v.currentState, action, payload, Ok), rest.calls, rest.end);
          }
        }
    }
  }

  lemma CalledAtCons<S, P>(c: Call<S, P>, rest: seq<Call<S, P>>, j: nat)
    requires exists k :: 0 <= k < |rest| && rest[k].slot == j
    ensures exists k :: 0 <= k < |[c] + rest| && ([c] + rest)[k].slot == j
  {
    var k :| 0 <= k < |rest| && rest[k].slot == j;
    assert ([c] + rest)[k + 1] == rest[k];
  }

  /** The loop walks the live registry: every subscription registered at the
      end of a completed pass, at or after the slot the pass started from,
      was called, including those added during the pass. */
  lemma {:induction false} CompletedPassVisitsLiveEntries<S, P>(prog: Program<S, P>, v: StoreVars<S, P>, i: nat, action: ActionId, payload: P, budget: nat, j: nat)
    requires i <= j
    requires Pass(prog, v, i, action, payload, budget).end == Completed
    requires j < |Pass(prog, v, i, action, payload, budget).vars.subscriptions|
    requires Pass(prog, v, i, action, payload, budget).vars.subscriptions[j].Entry?
    ensures exists k :: 0 <= k < |Pass(prog, v, i, action, payload, budget).calls|
                        && Pass(prog, v, i, action, payload, budget).calls[k].slot == j
    decreases budget, |v.subscriptions| - i
  {
    var r := Pass(prog, v, i, action, payload, budget);
    if i < |v.subscriptions| {
      match v.subscriptions[i]
      case Empty =>
        PassEvolves(prog, v, i + 1, action, payload, budget);
        if j > i {
          CompletedPassVisitsLiveEntries(prog, v, i + 1, action, payload, budget, j);
        }
      case Entry(sub) =>
        var (w, outcome) := Invoke(prog, v, sub, action, payload);
        PassCalls(prog, v, i, action, payload, budget, w, outcome);
        var rest := Pass(prog, w, i + 1, action, payload, budget - 1);
        var call := Call(i, sub, v.currentState, action, payload, Ok);
        assert r.calls == [call] + rest.calls;
        if j == i {
          assert r.calls[0].slot == j;
        } else {
          CompletedPassVisitsLiveEntries(prog, w, i + 1, action, payload, budget - 1, j);
          CalledAtCons(call, rest.calls, j);
        }
    }
  }

  /** The commit rule: after a dispatch whose action returned, the state is
      the result exactly when the result is a value (neither `undefined` nor
      a thenable) that differs from the current state and no subscriber
      reverted; otherwise it is unchanged. Subscribers see the state after
      the commit. */
  lemma DispatchCommits<S, P>(prog: Program<S, P>, v: StoreVars<S, P>, action: ActionId, payload: P, budget: nat)
    requires prog.act(action, v.currentState, payload).Returned?
    requires !prog.act(action, v.currentState, payload).result.Null?
    ensures var result := prog.act(action, v.currentState, payload).result;
      var r := Dispatch(prog, v, action, payload, budget);
      r.end != Reverted ==>
        (r.vars.currentState != v.currentState <==> result.Value? && result.value != v.currentState)
    ensures var result := prog.act(action, v.currentState, payload).result;
      var r := Dispatch(prog, v, action, payload, budget);
      r.end != Reverted && result.Value? ==> r.vars.currentState == result.value
    ensures Dispatch(prog, v, action, payload, budget).end == Reverted ==>
      Dispatch(prog, v, action, payload, budget).vars.currentState == v.currentState
    ensures var result := prog.act(action, v.currentState, payload).result;
      CalledWith(Dispatch(prog, v, action, payload, budget).calls,
                 if result.Value? then result.value else v.currentState,
                 action, payload)
  {
    var run := prog.act(action, v.currentState, payload);
    var acted := ApplyAll(v, run.effects);
    var committed := Commit(acted, run.result);
    PassCallsWith(prog, committed, 0, action, payload, budget);
  }

  /** `dispatch` returns exactly what the action returned, committed or not;
      only the action's own throw, or a `null` result, escapes, and then no
      subscriber is called and the state is unchanged. */
  lemma DispatchReturnsActionResult<S, P>(prog: Program<S, P>, v: StoreVars<S, P>, action: ActionId, payload: P, budget: nat)
    ensures var run := prog.act(action, v.currentState, payload);
      var r := Dispatch(prog, v, action, payload, budget);
      && (run.Threw? ==> r.completion == Throw(ActionError))
      && (run.Returned? && run.result.Null? ==> r.completion == Throw(NullThen))
      && (run.Returned? && !run.result.Null? ==> r.completion == Normal(run.result))
      && (r.completion.Throw? ==> r.end == NotRun && r.calls == [] && r.vars.currentState == v.currentState)
  {
  }

  /** Subscribers are called in insertion order. A call at a slot that was
      registered before the dispatch is on the subscription that slot held
      then; any call is on a subscription that its slot still holds at the
      end unless it was unsubscribed. */
  lemma DispatchNotifiesInOrder<S, P>(prog: Program<S, P>, v: StoreVars<S, P>, action: ActionId, payload: P, budget: nat)
    ensures InSlotOrder(Dispatch(prog, v, action, payload, budget).calls)
    ensures FoundInSlots(Dispatch(prog, v, action, payload, budget).calls, 0,
                         Dispatch(prog, v, action, payload, budget).vars.subscriptions)
    ensures HeldAtStart(Dispatch(prog, v, action, payload, budget).calls, v.subscriptions)
  {
    var run := prog.act(action, v.currentState, payload);
    if run.Returned? && !run.result.Null? {
      var acted := ApplyAll(v, run.effects);
      var committed := Commit(acted, run.result);
      PassCallsInOrder(prog, committed, 0, action, payload, budget);
      PassCallsFound(prog, committed, 0, action, payload, budget);
      PassCallsHeld(prog, committed, 0, action, payload, budget);
      HeldEarlier(Pass(prog, committed, 0, action, payload, budget).calls, v.subscriptions, acted.subscriptions);
    }
  }

  /** A revert stops the pass at the reverting subscriber, whose call is the
      last one, and puts back the state held just after the action
      returned. */
  lemma DispatchRevertRollsBack<S, P>(prog: Program<S, P>, v: StoreVars<S, P>, action: ActionId, payload: P, budget: nat)
    requires Dispatch(prog, v, action, payload, budget).end == Reverted
    ensures Dispatch(prog, v, action, payload, budget).completion.Normal?
    ensures Dispatch(prog, v, action, payload, budget).vars.currentState == v.currentState
    ensures StopsAtFirstThrow(Dispatch(prog, v, action, payload, budget).calls, Reverted)
  {
    var run := prog.act(action, v.currentState, payload);
    var committed := Commit(ApplyAll(v, run.effects), run.result);
    PassStops(prog, committed, 0, action, payload, budget);
  }

  /** Any other subscriber failure also stops the pass, but it does not
      escape `dispatch` and the committed state is kept. */
  lemma DispatchSwallowsFailure<S, P>(prog: Program<S, P>, v: StoreVars<S, P>, action: ActionId, payload: P, budget: nat)
    requires Dispatch(prog, v, action, payload, budget).end == Failed
    ensures Dispatch(prog, v, action, payload, budget).completion == Normal(prog.act(action, v.currentState, payload).result)
    ensures var result := prog.act(action, v.currentState, payload).result;
      Dispatch(prog, v, action, payload, budget).vars.currentState
      == if result.Value? then result.value else v.currentState
    ensures StopsAtFirstThrow(Dispatch(prog, v, action, payload, budget).calls, Failed)
  {
    var run := prog.act(action, v.currentState, payload);
    var committed := Commit(ApplyAll(v, run.effects), run.result);
    PassStops(prog, committed, 0, action, payload, budget);
  }

  /** Unsubscribing is idempotent: a second call, or a call after the entry
      is gone, changes nothing. */
  lemma UnsubscribeIdempotent<S, P>(v: StoreVars<S, P>, e: Effect)
    requires e.Unlisten? || e.Unfilter?
    ensures Apply(Apply(v, e), e) == Apply(v, e)
    ensures e.Unlisten? && Entry(Listener(e.callback)) !in v.subscriptions ==> Apply(v, e) == v
    ensures e.Unfilter? && Entry(Filtered(e.closure, e.action, e.handler)) !in v.subscriptions ==> Apply(v, e) == v
  {
    DeleteIdempotent(v.subscriptions, if e.Unlisten? then Listener(e.callback) else Filtered(e.closure, e.action, e.handler));
  }

  /** Subscribing the same callback twice leaves one entry. */
  lemma SubscribeTwice<S, P>(v: StoreVars<S, P>, cb: CallbackId)
    ensures Apply(Apply(v, Subscribe(cb)), Subscribe(cb)) == Apply(v, Subscribe(cb))
    ensures |Members(Apply(Apply(v, Subscribe(cb)), Subscribe(cb)).subscriptions)| <= |Members(v.subscriptions)| + 1
  {
    AddIdempotent(v.subscriptions, Listener(cb));
  }

  /** Subscribing the same handler to the same action twice leaves two
      entries, appended in order, since each call wraps it in a new
      closure. */
  lemma SubscribeToTwice<S, P>(v: StoreVars<S, P>, cb: CallbackId, action: ActionId)
    requires forall j :: 0 <= j < |v.subscriptions| && v.subscriptions[j].Entry? && v.subscriptions[j].value.HasClosure()
               ==> v.subscriptions[j].value.closure < v.nextClosure
    ensures Members(Apply(Apply(v, SubscribeTo(action, cb)), SubscribeTo(action, cb)).subscriptions)
            == Members(v.subscriptions) + [Filtered(v.nextClosure, action, cb), Filtered(v.nextClosure + 1, action, cb)]
  {
    var first := Filtered(v.nextClosure, action, cb);
    var second := Filtered(v.nextClosure + 1, action, cb);
    forall j | 0 <= j < |v.subscriptions| ensures v.subscriptions[j] != Entry(first) && v.subscriptions[j] != Entry(second) {
      if v.subscriptions[j].Entry? && v.subscriptions[j].value.HasClosure() {
        assert v.subscriptions[j].value.closure < v.nextClosure;
      }
    }
    AddTwoAbsent(v.subscriptions, first, second);
    var once := Apply(v, SubscribeTo(action, cb));
    assert once.subscriptions == Add(v.subscriptions, first) && once.nextClosure == v.nextClosure + 1;
    assert Apply(once, SubscribeTo(action, cb)).subscriptions == Add(once.subscriptions, second);
  }

  /** A two-argument subscription runs its handler only on its own action:
      on any other action the call changes nothing and ends normally. */
  lemma FilterRunsHandlerOnlyOnItsAction<S, P>(prog: Program<S, P>, v: StoreVars<S, P>, c: nat, filter: ActionId, handler: CallbackId, action: ActionId, payload: P)
    ensures filter != action ==> Invoke(prog, v, Filtered(c, filter, handler), action, payload) == (v, Ok)
    ensures filter == action ==>
      Invoke(prog, v, Filtered(c, filter, handler), action, payload) == Invoke(prog, v, Listener(handler), action, payload)
  {
  }
}
