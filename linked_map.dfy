/**
 * An insertion-ordered map, the LinkedHashMap that the batch query fills:
 * iteration follows the order in which each key was first put, and putting
 * a key again replaces its value without moving it.
 */
module LinkedMaps {
  import opened Wrappers

  datatype LinkedMap<K(==, !new), V> = LinkedMap(keys: seq<K>, entries: map<K, V>) {

    /** Each key is listed once, and exactly the mapped keys are listed. */
    ghost predicate Valid() {
      Distinct(keys) && forall k :: k in entries <==> k in keys
    }

    function Get(k: K): Option<V> {
      if k in entries then Some(entries[k]) else None
    }

    /** map.put(k, v) */
    function Put(k: K, v: V): (m: LinkedMap<K, V>)
      requires Valid()
      ensures m.Valid()
      ensures m.Get(k) == Some(v)
      ensures forall k' :: k' != k ==> m.Get(k') == Get(k')
      ensures k in keys ==> m.keys == keys
      ensures k !in keys ==> m.keys == keys + [k]
    {
      if k in entries then LinkedMap(keys, entries[k := v]) else LinkedMap(keys + [k], entries[k := v])
    }
  }

  function Empty<K(==, !new), V>(): (m: LinkedMap<K, V>)
    ensures m.Valid() && m.keys == []
    ensures forall k :: m.Get(k) == None
  {
    LinkedMap([], map[])
  }

  predicate Distinct<K(==)>(s: seq<K>) {
    forall i, j :: 0 <= i < j < |s| ==> s[i] != s[j]
  }

  /** The key order after putting `xs` one by one into a map whose keys are `acc`. */
  function FirstOccurrences<K(==)>(acc: seq<K>, xs: seq<K>): seq<K>
    decreases |xs|
  {
    if xs == [] then acc
    else FirstOccurrences(if xs[0] in acc then acc else acc + [xs[0]], xs[1..])
  }

  /** The order keeps the keys already there in front, lists each key once, and lists exactly the keys seen. */
  lemma {:induction false} FirstOccurrencesSpec<K>(acc: seq<K>, xs: seq<K>)
    requires Distinct(acc)
    ensures var r := FirstOccurrences(acc, xs);
      Distinct(r) && |acc| <= |r| && r[..|acc|] == acc &&
      forall k :: k in r <==> k in acc || k in xs
    decreases |xs|
  {
    if xs != [] {
      var x, rest := xs[0], xs[1..];
      var next := if x in acc then acc else acc + [x];
      assert Distinct(next) && next[..|acc|] == acc by {
        if x !in acc {
          DistinctAppend(acc, x);
        }
      }
      FirstOccurrencesSpec(next, rest);
      var r := FirstOccurrences(next, rest);
      assert r[..|acc|] == r[..|next|][..|acc|];
      assert forall k :: k in next <==> k in acc || k == x;
      assert forall k :: k in xs <==> k == x || k in rest by {
        assert xs == [x] + rest;
      }
    }
  }

  lemma DistinctAppend<K>(s: seq<K>, x: K)
    requires Distinct(s) && x !in s
    ensures Distinct(s + [x])
  {
    forall i, j | 0 <= i < j < |s| + 1
      ensures (s + [x])[i] != (s + [x])[j]
    {
      if j == |s| {
        assert s[i] in s;
      }
    }
  }

  /** Without repeated keys in the input, the order is the input order. */
  lemma {:induction false} FirstOccurrencesOfDistinct<K>(acc: seq<K>, xs: seq<K>)
    requires Distinct(acc + xs)
    ensures FirstOccurrences(acc, xs) == acc + xs
    decreases |xs|
  {
    if xs != [] {
      assert xs[0] == (acc + xs)[|acc|];
      assert xs[0] !in acc by {
        forall i | 0 <= i < |acc| ensures acc[i] != xs[0] {
          assert acc[i] == (acc + xs)[i];
        }
      }
      assert acc + xs == (acc + [xs[0]]) + xs[1..];
      FirstOccurrencesOfDistinct(acc + [xs[0]], xs[1..]);
    }
  }

  /** Keys all already present add nothing and move nothing: a repeated put keeps the order. */
  lemma {:induction false} FirstOccurrencesOfPresent<K>(acc: seq<K>, xs: seq<K>)
    requires forall x :: x in xs ==> x in acc
    ensures FirstOccurrences(acc, xs) == acc
    decreases |xs|
  {
    if xs != [] {
      assert xs[0] in acc;
      assert forall x :: x in xs[1..] ==> x in xs;
      FirstOccurrencesOfPresent(acc, xs[1..]);
    }
  }
}
