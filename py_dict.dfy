/**
 * Python's built-in `dict`, as far as the ingestion job relies on it: keys are
 * remembered in insertion order, assigning to an existing key keeps its place
 * and replaces its value, and `pop` removes a key from both the mapping and
 * the order. Iterating `.items()` visits the keys in that order.
 */
module PyDict {

  /** The keys in insertion order, and what each key maps to. */
  datatype Dict<K(!new), V> = Dict(keys: seq<K>, entries: map<K, V>) {

    /** No key is listed twice, and the listed keys are exactly the mapped ones. */
    ghost predicate Valid() {
      && Distinct(keys)
      && (forall k :: k in entries <==> k in keys)
    }

    /** The values in key order, as `d.values()` (or the second half of `d.items()`) yields them. */
    function Values(): (vs: seq<V>)
      requires Valid()
      ensures |vs| == |keys|
      ensures forall j :: 0 <= j < |keys| ==> vs[j] == entries[keys[j]]
    {
      seq(|keys|, j requires 0 <= j < |keys| => entries[keys[j]])
    }

    /** `d[k] = v`: a new key goes to the end, an existing key keeps its place. */
    function Put(k: K, v: V): (d: Dict<K, V>)
      requires Valid()
      ensures d.Valid()
      ensures d.entries == entries[k := v]
      ensures d.keys == if k in entries then keys else keys + [k]
    {
      if k in entries then Dict(keys, entries[k := v]) else Dict(keys + [k], entries[k := v])
    }

    /**
     * `d.pop(k)` on a present key: the key leaves the mapping and the order,
     * and the other keys keep their relative order.
     */
    function Pop(k: K): (d: Dict<K, V>)
      requires k in entries
      ensures Valid() ==> d.Valid()
      ensures d.entries == entries - {k}
      ensures Valid() ==> exists p :: 0 <= p < |keys| && keys[p] == k && d.keys == keys[..p] + keys[p + 1..]
    {
      WithoutSpec(keys, k);
      WithoutPresent(keys, k);
      Dict(Without(keys, k), entries - {k})
    }
  }

  /** The empty dict `{}`. */
  function Empty<K(!new), V>(): (d: Dict<K, V>)
    ensures d.Valid() && d.keys == [] && d.entries == map[]
  {
    Dict([], map[])
  }

  ghost predicate Distinct<T>(s: seq<T>) {
    forall i, j :: 0 <= i < j < |s| ==> s[i] != s[j]
  }

  /** `s` with every occurrence of `x` left out, the rest in order. */
  function Without<T(==)>(s: seq<T>, x: T): seq<T> {
    if s == [] then []
    else (if s[0] == x then [] else [s[0]]) + Without(s[1..], x)
  }

  /** Leaving `x` out keeps every other element and introduces no repeats. */
  lemma {:induction false} WithoutSpec<T>(s: seq<T>, x: T)
    ensures forall y :: y in Without(s, x) <==> y in s && y != x
    ensures Distinct(s) ==> Distinct(Without(s, x))
  {
    if s != [] {
      WithoutSpec(s[1..], x);
      assert forall y :: y in s <==> y == s[0] || y in s[1..];
      assert Distinct(s) ==> s[0] !in s[1..];
    }
  }

  /** Leaving out an element that does not occur changes nothing. */
  lemma {:induction false} WithoutNone<T>(s: seq<T>, x: T)
    requires x !in s
    ensures Without(s, x) == s
  {
    if s != [] {
      assert x !in s[1..];
      WithoutNone(s[1..], x);
    }
  }

  /** In a sequence without repeats, leaving out the element at `p` cuts exactly position `p`. */
  lemma {:induction false} WithoutAt<T>(s: seq<T>, p: nat)
    requires p < |s| && Distinct(s)
    ensures Without(s, s[p]) == s[..p] + s[p + 1..]
  {
    var tail := s[1..];
    if p == 0 {
      assert s[0] !in tail;
      WithoutNone(tail, s[0]);
    } else {
      assert Distinct(tail) && tail[p - 1] == s[p] && s[0] != s[p];
      WithoutAt(tail, p - 1);
      assert s[..p] == [s[0]] + tail[..p - 1];
      assert s[p + 1..] == tail[p..];
    }
  }

  /** Leaving out an element of a sequence without repeats removes it from the one place it occupies. */
  lemma WithoutPresent<T>(s: seq<T>, x: T)
    ensures x in s && Distinct(s) ==> exists p :: 0 <= p < |s| && s[p] == x && Without(s, x) == s[..p] + s[p + 1..]
  {
    if x in s && Distinct(s) {
      var p :| 0 <= p < |s| && s[p] == x;
      WithoutAt(s, p);
    }
  }

  /**
   * The elements of `s` in order of first occurrence, later repeats dropped:
   * the key order of a dict that was assigned the keys of `s` one after another.
   */
  function Dedup<T(==)>(s: seq<T>): seq<T> {
    if s == [] then []
    else
      var prefix := Dedup(s[..|s| - 1]);
      if s[|s| - 1] in prefix then prefix else prefix + [s[|s| - 1]]
  }

  /** `Dedup` keeps every element once and invents none. */
  lemma {:induction false} DedupSpec<T>(s: seq<T>)
    ensures Distinct(Dedup(s))
    ensures forall x :: x in Dedup(s) <==> x in s
  {
    if s != [] {
      var init := s[..|s| - 1];
      DedupSpec(init);
      assert s == init + [s[|s| - 1]];
      assert forall x :: x in s <==> x in init || x == s[|s| - 1];
    }
  }
}
