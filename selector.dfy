/** Selector evaluation (`selectState`): a selector is read by its shape,
    here a tagged variant in place of the runtime type tests of the source. */
module Selectors {

  /** The shapes `selectState` tells apart, in the order it tests them.
      `S` is the store's state, `J` any value a selector function returns or
      takes as an extra argument. */
  datatype Selector<!S, !J> =
      /** An array whose first element is a function: `[f, ...args]`. */
    | Tuple(f: (S, seq<J>) -> J, args: seq<J>)
      /** An array whose first element is not a function, or an empty array. */
    | BadTuple
      /** A function. */
    | Fn(g: S -> J)
      /** A plain object, its entries in `Object.entries` order. */
    | Rec(entries: seq<(string, Selector<S, J>)>)
      /** Anything else, `undefined` included. */
    | Other

  /** What a selection yields: the whole state, a value computed by a
      selector function, or a fresh record of nested selections. */
  datatype Projection<S, J> =
    | Whole(state: S)
    | Picked(value: J)
    | Record(fields: seq<(string, Projection<S, J>)>)

  /** A selection either yields a value or throws the `TypeError` of calling
      a non-function. */
  datatype Evaluated<T> = Value(value: T) | TypeError

  ghost predicate DistinctKeys<V>(entries: seq<(string, V)>) {
    forall i, j :: 0 <= i < j < |entries| ==> entries[i].0 != entries[j].0
  }

  function SelectState<S, J>(sel: Selector<S, J>, state: S): (r: Evaluated<Projection<S, J>>)
    ensures r.TypeError? ==> sel.BadTuple? || sel.Rec?
    ensures sel.Rec? && r.Value? ==> r.value.Record? && |r.value.fields| == |sel.entries|
    decreases sel, 1, 0
  {
    match sel
    case Tuple(f, args) => Value(Picked(f(state, args)))
    case BadTuple => TypeError
    case Fn(g) => Value(Picked(g(state)))
    case Rec(entries) =>
      (match SelectEntries(entries, 0, state)
       case Value(fields) => Value(Record(fields))
       case TypeError => TypeError)
    case Other => Value(Whole(state))
  }

  /** The key-by-key loop of `selectState` over a plain object, from entry
      `i` on: the result has the same keys in the same order, each bound to
      the selection of its own selector, and it throws as soon as one of
      them throws. */
  function SelectEntries<S, J>(entries: seq<(string, Selector<S, J>)>, i: nat, state: S)
    : (r: Evaluated<seq<(string, Projection<S, J>)>>)
    requires i <= |entries|
    ensures r.Value? <==> forall k :: i <= k < |entries| ==> SelectState(entries[k].1, state).Value?
    ensures r.Value? ==> |r.value| == |entries| - i
    ensures r.Value? ==> forall k :: i <= k < |entries| ==>
      r.value[k - i].0 == entries[k].0 && Value(r.value[k - i].1) == SelectState(entries[k].1, state)
    decreases Rec(entries), 0, |entries| - i
  {
    if i == |entries| then Value([])
    else
      assert entries[i] in entries;
      var (key, sel) := entries[i];
      match SelectState(sel, state)
      case TypeError => TypeError
      case Value(v) =>
        match SelectEntries(entries, i + 1, state)
        case TypeError => TypeError
        case Value(rest) => Value([(key, v)] + rest)
  }

  /** A plain-object selector gives a record with exactly its keys, in its
      order, so distinct keys stay distinct. */
  lemma RecordKeepsKeys<S, J>(entries: seq<(string, Selector<S, J>)>, state: S)
    requires DistinctKeys(entries)
    requires SelectState(Rec(entries), state).Value?
    ensures SelectState(Rec(entries), state).value.Record?
    ensures DistinctKeys(SelectState(Rec(entries), state).value.fields)
  {
    var fields := SelectState(Rec(entries), state).value.fields;
    assert SelectEntries(entries, 0, state).Value?;
    forall i, j | 0 <= i < j < |fields| ensures fields[i].0 != fields[j].0 {
      assert fields[i].0 == entries[i].0 && fields[j].0 == entries[j].0;
    }
  }

  /** A plain-object selector selects key by key: it throws exactly when
      one of its nested selectors throws, and otherwise binds each key, in
      order, to the selection of that key's selector. */
  lemma RecordSelectsEachKey<S, J>(entries: seq<(string, Selector<S, J>)>, state: S)
    ensures SelectState(Rec(entries), state).Value?
            <==> forall k :: 0 <= k < |entries| ==> SelectState(entries[k].1, state).Value?
    ensures SelectState(Rec(entries), state).Value? ==>
      && SelectState(Rec(entries), state).value.Record?
      && |SelectState(Rec(entries), state).value.fields| == |entries|
      && forall k :: 0 <= k < |entries| ==>
           SelectState(Rec(entries), state).value.fields[k] == (entries[k].0, SelectState(entries[k].1, state).value)
  {
    var r := SelectEntries(entries, 0, state);
    if r.Value? {
      forall k | 0 <= k < |entries|
        ensures r.value[k] == (entries[k].0, SelectState(entries[k].1, state).value)
      {
        assert r.value[k - 0] == r.value[k];
      }
    }
  }
}
