/**
 * Collection helpers shared by the models: duplicate-free sequences, the
 * "append when not yet present" deduplication, and a map that remembers the
 * order in which its keys were first inserted (a Python `dict`).
 */
module Collections {

  predicate NoDuplicates<T(==)>(xs: seq<T>) {
    forall i, j | 0 <= i < j < |xs| :: xs[i] != xs[j]
  }

  /** Each element of `xs` at the position where it first occurs. */
  function Distinct<T(==)>(xs: seq<T>): seq<T>
    decreases |xs|
  {
    if xs == [] then []
    else
      var init := xs[..|xs| - 1];
      var x := xs[|xs| - 1];
      if x in init then Distinct(init) else Distinct(init) + [x]
  }

  /** `Distinct` keeps exactly the elements of the input and none twice. */
  lemma {:induction false} DistinctMembers<T>(xs: seq<T>)
    ensures forall x :: x in Distinct(xs) <==> x in xs
    ensures NoDuplicates(Distinct(xs))
    decreases |xs|
  {
    if xs != [] {
      var init := xs[..|xs| - 1];
      assert xs == init + [xs[|xs| - 1]];
      DistinctMembers(init);
    }
  }

  /** Appending `x` unless it is already there (`if x not in xs: xs.append(x)`). */
  function AppendNew<T(==)>(xs: seq<T>, x: T): seq<T> {
    if x in xs then xs else xs + [x]
  }

  /** Appending new elements one by one to the distinct elements of a prefix gives the distinct elements of the longer sequence. */
  lemma AppendNewDistinct<T>(xs: seq<T>, x: T)
    ensures AppendNew(Distinct(xs), x) == Distinct(xs + [x])
  {
    DistinctMembers(xs);
    assert (xs + [x])[..|xs|] == xs;
  }

  /** Appending each element of `xs` in turn unless already present. */
  function AppendAllNew<T(==)>(acc: seq<T>, xs: seq<T>): seq<T>
    decreases |xs|
  {
    if xs == [] then acc else AppendAllNew(AppendNew(acc, xs[0]), xs[1..])
  }

  /** Appending new elements to the distinct elements of `seen` gives the distinct elements of `seen + xs`. */
  lemma {:induction false} AppendAllNewDistinct<T>(seen: seq<T>, xs: seq<T>)
    ensures AppendAllNew(Distinct(seen), xs) == Distinct(seen + xs)
    decreases |xs|
  {
    if xs == [] {
      assert seen + xs == seen;
    } else {
      AppendNewDistinct(seen, xs[0]);
      AppendAllNewDistinct(seen + [xs[0]], xs[1..]);
      assert (seen + [xs[0]]) + xs[1..] == seen + xs;
    }
  }

  /**
   * A map that remembers insertion order: overwriting a key keeps its place,
   * a new key goes to the end.
   */
  datatype OrderedMap<K(==,!new), V> = OrderedMap(keys: seq<K>, values: map<K, V>) {
    ghost predicate Valid() {
      NoDuplicates(keys) && forall k :: k in values <==> k in keys
    }

    function Get(k: K): V
      requires k in values
    {
      values[k]
    }

    /** `d[k] = v`. */
    function Put(k: K, v: V): (r: OrderedMap<K, V>)
      ensures Valid() ==> r.Valid()
      ensures r.values == values[k := v]
      ensures k in values ==> r.keys == keys
      ensures k !in values ==> r.keys == keys + [k]
    {
      if k in values then OrderedMap(keys, values[k := v])
      else OrderedMap(keys + [k], values[k := v])
    }
  }

  function EmptyMap<K(==,!new), V>(): (r: OrderedMap<K, V>)
    ensures r.Valid() && r.keys == [] && r.values == map[]
  {
    OrderedMap([], map[])
  }
}
