/** Searching a document by key, as every handler does with its
    index-accumulating `for i, x in enumerate(...)` loop. The loops come in
    two shapes in the source: with a `break` after the first match, and
    without one, in which case every matching position is added to the
    accumulator. Keys are the projected ids (account ids or transaction ids). */
module Lookup {

  /** No key occurs twice. */
  predicate Unique<T(==)>(keys: seq<T>) {
    forall i, j :: 0 <= i < j < |keys| ==> keys[i] != keys[j]
  }

  /** How many positions hold `key`. */
  function Count<T(==)>(keys: seq<T>, key: T): nat {
    if keys == [] then 0
    else Count(keys[..|keys| - 1], key) + (if keys[|keys| - 1] == key then 1 else 0)
  }

  /** `s.pop(j)`: the element at `j` removed, the rest in order. */
  function RemoveAt<T>(s: seq<T>, j: nat): (r: seq<T>)
    requires j < |s|
    ensures |r| == |s| - 1
    ensures forall i :: 0 <= i < j ==> r[i] == s[i]
    ensures forall i :: j <= i < |r| ==> r[i] == s[i + 1]
  {
    s[..j] + s[j + 1..]
  }

  /** The first position holding `key`, or -1 when there is none: what the
      accumulator loop with `break` computes. */
  function Find<T(==)>(keys: seq<T>, key: T): (r: int)
    ensures -1 <= r < |keys|
    ensures r == -1 <==> key !in keys
    ensures 0 <= r ==> keys[r] == key && key !in keys[..r]
  {
    if keys == [] then -1
    else if keys[0] == key then 0
    else
      var r := Find(keys[1..], key);
      if r == -1 then -1
      else
        assert keys[..r + 1] == [keys[0]] + keys[1..][..r];
        r + 1
  }

  /** The sum of `i + 1` over the positions `i` that hold `key`. */
  function Weight<T(==)>(keys: seq<T>, key: T): nat {
    if keys == [] then 0
    else Weight(keys[..|keys| - 1], key) + (if keys[|keys| - 1] == key then |keys| else 0)
  }

  /** The index the accumulator loop WITHOUT `break` ends with: it starts at
      -1 and adds `i + 1` for every matching position `i`. */
  function Accumulated<T(==)>(keys: seq<T>, key: T): int {
    Weight(keys, key) - 1
  }

  lemma {:induction false} WeightZero<T>(keys: seq<T>, key: T)
    ensures Weight(keys, key) == 0 <==> key !in keys
  {
    if keys != [] {
      var init := keys[..|keys| - 1];
      WeightZero(init, key);
      assert keys == init + [keys[|keys| - 1]];
    }
  }

  /** With unique keys the matching position is the only one that adds to
      the accumulator. */
  lemma {:induction false} WeightOfUnique<T>(keys: seq<T>, key: T, p: nat)
    requires Unique(keys) && p < |keys| && keys[p] == key
    ensures Weight(keys, key) == p + 1
  {
    var n := |keys| - 1;
    var init := keys[..n];
    assert Unique(init);
    if p == n {
      assert forall i :: 0 <= i < n ==> init[i] == keys[i] && keys[i] != keys[n];
      WeightZero(init, key);
    } else {
      assert keys[n] != key;
      WeightOfUnique(init, key, p);
    }
  }

  /** When keys are unique, the loop without `break` finds the same position
      as the loop with it. */
  lemma AccumulatedIsFind<T>(keys: seq<T>, key: T)
    requires Unique(keys)
    ensures Accumulated(keys, key) == Find(keys, key)
  {
    var r := Find(keys, key);
    if r == -1 {
      WeightZero(keys, key);
    } else {
      WeightOfUnique(keys, key, r);
    }
  }

  /** Unique keys hold any key at most once. */
  lemma {:induction false} CountOfUnique<T>(keys: seq<T>, key: T)
    requires Unique(keys)
    ensures Count(keys, key) == if key in keys then 1 else 0
  {
    if keys != [] {
      var n := |keys| - 1;
      var init := keys[..n];
      assert Unique(init);
      CountOfUnique(init, key);
      assert keys == init + [keys[n]];
      if keys[n] == key {
        assert forall i :: 0 <= i < n ==> init[i] != key;
      }
    }
  }

  lemma {:induction false} CountPositive<T>(keys: seq<T>, key: T)
    ensures Count(keys, key) > 0 <==> key in keys
  {
    if keys != [] {
      var init := keys[..|keys| - 1];
      CountPositive(init, key);
      assert keys == init + [keys[|keys| - 1]];
    }
  }

  lemma CountAppend<T>(keys: seq<T>, x: T, key: T)
    ensures Count(keys + [x], key) == Count(keys, key) + (if x == key then 1 else 0)
  {
    assert (keys + [x])[..|keys|] == keys;
  }

  /** Popping position `j` takes exactly that one occurrence away. */
  lemma {:induction false} CountRemoveAt<T>(keys: seq<T>, j: nat, key: T)
    requires j < |keys|
    ensures Count(RemoveAt(keys, j), key) == Count(keys, key) - (if keys[j] == key then 1 else 0)
  {
    var n := |keys| - 1;
    var init := keys[..n];
    if j == n {
      assert RemoveAt(keys, j) == init;
    } else {
      CountRemoveAt(init, j, key);
      assert RemoveAt(keys, j) == RemoveAt(init, j) + [keys[n]];
      CountAppend(RemoveAt(init, j), keys[n], key);
      assert init[j] == keys[j];
    }
  }

  /** Popping an element keeps the others unique. */
  lemma RemoveAtUnique<T>(keys: seq<T>, j: nat)
    requires Unique(keys) && j < |keys|
    ensures Unique(RemoveAt(keys, j))
  {
    var r := RemoveAt(keys, j);
    forall a, b | 0 <= a < b < |r| ensures r[a] != r[b] {
      var a' := if a < j then a else a + 1;
      var b' := if b < j then b else b + 1;
      assert r[a] == keys[a'] && r[b] == keys[b'];
    }
  }

  /** The loop without `break`: every matching position is added to the
      accumulator. */
  method AccumulateIndex<T(==)>(keys: seq<T>, key: T) returns (index: int)
    ensures index == Accumulated(keys, key)
    ensures index == -1 <==> key !in keys
    ensures Unique(keys) ==> index == Find(keys, key)
  {
    index := -1;
    for i := 0 to |keys|
      invariant index == Accumulated(keys[..i], key)
    {
      assert keys[..i + 1][..i] == keys[..i];
      if keys[i] == key {
        index := index + i + 1;
      }
    }
    assert keys[..|keys|] == keys;
    WeightZero(keys, key);
    if Unique(keys) {
      AccumulatedIsFind(keys, key);
    }
  }

  /** The loop with `break`: the accumulator is set from the first match. */
  method FirstIndex<T(==)>(keys: seq<T>, key: T) returns (index: int)
    ensures index == Find(keys, key)
    ensures 0 <= index ==> keys[index] == key
  {
    index := -1;
    for i := 0 to |keys|
      invariant index == -1 && key !in keys[..i]
    {
      if keys[i] == key {
        index := index + i + 1;
        break;
      }
      assert keys[..i + 1] == keys[..i] + [keys[i]];
    }
    if index == -1 {
      assert keys[..|keys|] == keys;
    }
  }
}
