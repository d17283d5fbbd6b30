/** Concrete runs of a store with a number as its state: the behaviours
    the repository's own tests check, and the live iteration of the
    registry during a pass. */
module Scenarios {
  import opened JsSet
  import opened Tinux
  import opened Selectors
  import DispatchLaws

  /** Action identities of these scenarios. */
  const Increase: ActionId := 1
  const Startup: ActionId := 2

  /** No subscriber callback does anything. */
  function Quiet(cb: CallbackId, s: int, a: ActionId, p: int): Reaction {
    Reaction([], Ok)
  }

  /** `Increase = state => state + 1`. */
  function Counting(): Program<int, int> {
    Program((a: ActionId, s: int, p: int) => Returned([], ActionResult.Value(s + 1)), Quiet)
  }

  /** `Increase = state => {}`. */
  function Forgetful(): Program<int, int> {
    Program((a: ActionId, s: int, p: int) => Returned([], Undefined), Quiet)
  }

  /** `Increase = async state => {}` and `Startup = async (_, { until }) =>
      { await until(Increase); ... }`: both return a promise, and `Startup`
      first calls `until(Increase)`. */
  function Waiting(): Program<int, int> {
    Program((a: ActionId, s: int, p: int) => Returned(if a == Startup then [Until(Increase)] else [], Thenable), Quiet)
  }

  /** Dispatching `Increase` on a store created with 0 commits 1, and
      `select()` with no selector gives the whole state. */
  lemma DispatchCommitsIncrease(budget: nat)
    ensures Dispatch(Counting(), Initial(0), Increase, 0, budget).vars.currentState == 1
    ensures SelectState<int, int>(Other, Dispatch(Counting(), Initial(0), Increase, 0, budget).vars.currentState)
            == Evaluated.Value(Whole(1))
  {
    DispatchLaws.DispatchCommits(Counting(), Initial(0), Increase, 0, budget);
  }

  /** An action returning `undefined`, or a promise, leaves the state at 0. */
  lemma DispatchSkipsUndefinedAndPromise(budget: nat)
    ensures Dispatch(Forgetful(), Initial(0), Increase, 0, budget).vars.currentState == 0
    ensures Dispatch(Waiting(), Initial(0), Increase, 0, budget).vars.currentState == 0
  {
    DispatchLaws.DispatchCommits(Forgetful(), Initial(0), Increase, 0, budget);
    DispatchLaws.DispatchCommits(Waiting(), Initial(0), Increase, 0, budget);
  }

  /** Dispatching `Startup` leaves one waiter for `Increase` in the
      registry. */
  lemma StartupWaits(budget: nat)
    requires budget > 0
    ensures Dispatch(Waiting(), Initial(0), Startup, 0, budget).vars
            == StoreVars(0, [Entry(Waiter(0, Increase))], 1, [])
  {
    var prog := Waiting();
    var v0: StoreVars<int, int> := Initial(0);
    var started: StoreVars<int, int> := StoreVars(0, [Entry(Waiter(0, Increase))], 1, []);
    assert [Until(Increase)][1..] == [];
    assert ApplyAll(v0, [Until(Increase)]) == ApplyAll(started, []) == started;
    assert Invoke(prog, started, Waiter(0, Increase), Startup, 0) == (started, Ok);
    assert Pass(prog, started, 1, Startup, 0, budget - 1) == PassResult(started, Completed, []);
  }

  /** Then dispatching `Increase` resolves that promise exactly once, with
      `Increase` and its payload, and a second `Increase` resolves nothing
      more. */
  lemma FutureActionResolvesOnce(payload: int, budget: nat)
    requires budget > 0
    ensures Dispatch(Waiting(), StoreVars(0, [Entry(Waiter(0, Increase))], 1, []), Increase, payload, budget).vars.resolved
            == [Resolution(0, Increase, payload)]
    ensures Dispatch(Waiting(), Dispatch(Waiting(), StoreVars(0, [Entry(Waiter(0, Increase))], 1, []), Increase, payload, budget).vars,
                     Increase, payload, budget).vars.resolved
            == [Resolution(0, Increase, payload)]
  {
    var prog := Waiting();
    var waiter := Waiter(0, Increase);
    var started: StoreVars<int, int> := StoreVars(0, [Entry(waiter)], 1, []);
    var fired: StoreVars<int, int> := StoreVars(0, [Empty], 1, [Resolution(0, Increase, payload)]);
    assert ApplyAll(started, []) == started;
    assert Delete(started.subscriptions, waiter) == [Empty];
    assert started.resolved + [Resolution(0, Increase, payload)] == [Resolution(0, Increase, payload)];
    assert Invoke(prog, started, waiter, Increase, payload) == (fired, Ok);
    assert Pass(prog, fired, 1, Increase, payload, budget - 1) == PassResult(fired, Completed, []);
    assert Dispatch(prog, started, Increase, payload, budget).vars == fired;
    assert ApplyAll(fired, []) == fired;
    assert Pass(prog, fired, 1, Increase, payload, budget) == PassResult(fired, Completed, []);
  }

  /** Callback 1 subscribes callback 2 when it runs. */
  function Recruiting(): Program<int, int> {
    Program((a: ActionId, s: int, p: int) => Returned([], Undefined),
            (cb: CallbackId, s: int, a: ActionId, p: int) => Reaction(if cb == 1 then [Subscribe(2)] else [], Ok))
  }

  /** Callback 1 unsubscribes callback 2 when it runs. */
  function Dismissing(): Program<int, int> {
    Program((a: ActionId, s: int, p: int) => Returned([], Undefined),
            (cb: CallbackId, s: int, a: ActionId, p: int) => Reaction(if cb == 1 then [Unlisten(2)] else [], Ok))
  }

  /** Subscribing callbacks 1 and then 2 to a new store fills two slots in
      that order. */
  lemma SubscribeInOrder()
    ensures Apply(Initial<int, int>(0), Subscribe(1)) == StoreVars(0, [Entry(Listener(1))], 0, [])
    ensures Apply(Apply(Initial<int, int>(0), Subscribe(1)), Subscribe(2))
            == StoreVars(0, [Entry(Listener(1)), Entry(Listener(2))], 0, [])
  {
    assert Add([], Listener(1)) == [Entry(Listener(1))];
    assert Entry(Listener(2)) !in [Entry(Listener(1))];
    assert Add([Entry(Listener(1))], Listener(2)) == [Entry(Listener(1)), Entry(Listener(2))];
  }

  /** The pass walks the live `Set`: a subscriber added by an earlier one
      in the same pass is called in that pass. */
  lemma PassSeesAddedSubscriber(budget: nat)
    requires budget >= 2
    ensures Dispatch(Recruiting(), StoreVars(0, [Entry(Listener(1))], 0, []), Increase, 0, budget).calls
            == [Call(0, Listener(1), 0, Increase, 0, Ok), Call(1, Listener(2), 0, Increase, 0, Ok)]
  {
    var prog := Recruiting();
    var v: StoreVars<int, int> := StoreVars(0, [Entry(Listener(1))], 0, []);
    var w: StoreVars<int, int> := StoreVars(0, [Entry(Listener(1)), Entry(Listener(2))], 0, []);
    assert [Subscribe(2)][1..] == [];
    assert ApplyAll(v, [Subscribe(2)]) == w;
    assert Invoke(prog, v, Listener(1), Increase, 0) == (w, Ok);
    assert Invoke(prog, w, Listener(2), Increase, 0) == (w, Ok);
    assert Pass(prog, w, 2, Increase, 0, budget - 2).calls == [];
    assert Pass(prog, w, 1, Increase, 0, budget - 1).calls == [Call(1, Listener(2), 0, Increase, 0, Ok)];
  }

  /** A subscriber deleted ahead of the loop by an earlier one is not
      called. */
  lemma PassSkipsDeletedSubscriber(budget: nat)
    requires budget >= 2
    ensures Dispatch(Dismissing(), StoreVars(0, [Entry(Listener(1)), Entry(Listener(2))], 0, []), Increase, 0, budget).calls
            == [Call(0, Listener(1), 0, Increase, 0, Ok)]
  {
    var prog := Dismissing();
    var w: StoreVars<int, int> := StoreVars(0, [Entry(Listener(1)), Entry(Listener(2))], 0, []);
    var shrunk: StoreVars<int, int> := StoreVars(0, [Entry(Listener(1)), Empty], 0, []);
    assert [Unlisten(2)][1..] == [];
    assert Delete(w.subscriptions, Listener(2)) == [Entry(Listener(1)), Empty];
    assert ApplyAll(w, [Unlisten(2)]) == shrunk;
    assert Invoke(prog, w, Listener(1), Increase, 0) == (shrunk, Ok);
    assert Pass(prog, shrunk, 2, Increase, 0, budget - 1).calls == [];
    assert Pass(prog, shrunk, 1, Increase, 0, budget - 1).calls == [];
    assert Pass(prog, w, 0, Increase, 0, budget).calls == [Call(0, Listener(1), 0, Increase, 0, Ok)];
  }
}
