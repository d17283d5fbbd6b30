/** The subscription registry of a store is a JavaScript `Set`. Its
    ECMAScript semantics are an ordered list of slots: `add` appends a slot
    unless the value is already present, `delete` empties the slot that holds
    the value, and an iterator walks the slots by position, skipping empty
    ones. Slots never move, so an iteration in progress sees values appended
    after its position and skips values deleted before it reaches them. */
module JsSet {

  datatype Slot<T> = Empty | Entry(value: T)

  /** No value occupies two slots. */
  ghost predicate NoDup<T>(slots: seq<Slot<T>>) {
    forall i, j :: 0 <= i < j < |slots| && slots[i].Entry? ==> slots[i] != slots[j]
  }

  ghost predicate Distinct<T>(m: seq<T>) {
    forall i, j :: 0 <= i < j < |m| ==> m[i] != m[j]
  }

  /** The values of the set, in insertion order. */
  function Members<T>(slots: seq<Slot<T>>): (m: seq<T>)
    ensures |m| <= |slots|
  {
    if slots == [] then []
    else
      var init := slots[..|slots| - 1];
      assert slots == init + [slots[|slots| - 1]];
      match slots[|slots| - 1]
      case Empty => Members(init)
      case Entry(x) => Members(init) + [x]
  }

  /** Reference definition: `m` with every occurrence of `x` left out. */
  function Remove<T(==)>(m: seq<T>, x: T): (r: seq<T>)
    ensures |r| <= |m|
  {
    if m == [] then []
    else
      var init := m[..|m| - 1];
      Remove(init, x) + (if m[|m| - 1] == x then [] else [m[|m| - 1]])
  }

  /** `Remove` keeps exactly the elements other than `x`. */
  lemma {:induction false} RemoveIff<T>(m: seq<T>, x: T, y: T)
    ensures y in Remove(m, x) <==> y in m && y != x
    decreases |m|
  {
    if m != [] {
      var init := m[..|m| - 1];
      assert m == init + [m[|m| - 1]];
      RemoveIff(init, x, y);
    }
  }

  /** A value is a member exactly when some slot holds it. */
  lemma {:induction false} MemberIff<T>(slots: seq<Slot<T>>, x: T)
    ensures x in Members(slots) <==> Entry(x) in slots
    decreases |slots|
  {
    if slots != [] {
      var init := slots[..|slots| - 1];
      assert slots == init + [slots[|slots| - 1]];
      MemberIff(init, x);
    }
  }

  lemma {:induction false} MembersAppend<T>(slots: seq<Slot<T>>, s: Slot<T>)
    ensures Members(slots + [s]) == Members(slots) + (if s.Entry? then [s.value] else [])
  {
    assert (slots + [s])[..|slots|] == slots;
  }

  /** `Set.prototype.add`: a value already present keeps its place;
      otherwise it is appended. */
  function Add<T(==)>(slots: seq<Slot<T>>, x: T): (r: seq<Slot<T>>)
    ensures Members(r) == if x in Members(slots) then Members(slots) else Members(slots) + [x]
    ensures NoDup(slots) ==> NoDup(r)
    ensures slots <= r
  {
    MemberIff(slots, x);
    if Entry(x) in slots then slots
    else
      MembersAppend(slots, Entry(x));
      slots + [Entry(x)]
  }

  /** `Set.prototype.delete`: the slot holding `x`, if any, becomes empty. */
  function Delete<T(==)>(slots: seq<Slot<T>>, x: T): (r: seq<Slot<T>>)
    ensures |r| == |slots|
    ensures forall i :: 0 <= i < |slots| ==> r[i] == if slots[i] == Entry(x) then Empty else slots[i]
    ensures Entry(x) !in r
    ensures NoDup(slots) ==> NoDup(r)
  {
    if slots == [] then []
    else
      var last := slots[|slots| - 1];
      Delete(slots[..|slots| - 1], x) + [if last == Entry(x) then Empty else last]
  }

  /** Deleting leaves the other members in their insertion order. */
  lemma {:induction false} MembersDelete<T>(slots: seq<Slot<T>>, x: T)
    ensures Members(Delete(slots, x)) == Remove(Members(slots), x)
    decreases |slots|
  {
    if slots != [] {
      var init := slots[..|slots| - 1];
      var last := slots[|slots| - 1];
      var kept := if last == Entry(x) then Empty else last;
      assert slots == init + [last];
      MembersDelete(init, x);
      assert Delete(slots, x) == Delete(init, x) + [kept];
      MembersAppend(Delete(init, x), kept);
      MembersAppend(init, last);
      var m := Members(init);
      if last.Entry? {
        assert (m + [last.value])[..|m|] == m;
      }
    }
  }

  lemma {:induction false} MembersDistinct<T>(slots: seq<Slot<T>>)
    requires NoDup(slots)
    ensures Distinct(Members(slots))
    decreases |slots|
  {
    if slots != [] {
      var init := slots[..|slots| - 1];
      var last := slots[|slots| - 1];
      assert slots == init + [last];
      assert NoDup(init);
      MembersDistinct(init);
      MembersAppend(init, last);
      if last.Entry? {
        assert Entry(last.value) !in init;
        MemberIff(init, last.value);
      }
    }
  }

  /** Deleting twice, or deleting an absent value, changes nothing. */
  lemma {:induction false} DeleteIdempotent<T>(slots: seq<Slot<T>>, x: T)
    ensures Delete(Delete(slots, x), x) == Delete(slots, x)
    ensures Entry(x) !in slots ==> Delete(slots, x) == slots
  {
    var once := Delete(slots, x);
    var twice := Delete(once, x);
    forall i | 0 <= i < |once| ensures twice[i] == once[i] {
      assert once[i] != Entry(x);
    }
    if Entry(x) !in slots {
      forall i | 0 <= i < |slots| ensures once[i] == slots[i] {
        assert slots[i] != Entry(x);
      }
    }
  }

  /** Adding a value in no slot appends it. */
  lemma AddAbsent<T>(slots: seq<Slot<T>>, x: T)
    requires Entry(x) !in slots
    ensures Add(slots, x) == slots + [Entry(x)]
    ensures Members(Add(slots, x)) == Members(slots) + [x]
  {
    MemberIff(slots, x);
  }

  /** Adding two distinct values that no slot holds appends both, in order. */
  lemma AddTwoAbsent<T>(slots: seq<Slot<T>>, a: T, b: T)
    requires Entry(a) !in slots && Entry(b) !in slots && a != b
    ensures Members(Add(Add(slots, a), b)) == Members(slots) + [a, b]
  {
    AddAbsent(slots, a);
    AddAbsent(slots + [Entry(a)], b);
    var m := Members(slots);
    assert (m + [a]) + [b] == m + [a, b];
  }

  /** Adding a value twice leaves one slot for it. */
  lemma AddIdempotent<T>(slots: seq<Slot<T>>, x: T)
    ensures Add(Add(slots, x), x) == Add(slots, x)
    ensures |Members(Add(Add(slots, x), x))| <= |Members(slots)| + 1
  {
  }
}
