/** Sequence operations that the linked tables refine and that the protocol model uses directly. */
module Lists {

  /** The position of the first `key` in `keys`, or `|keys|` when there is none. */
  function IndexOf<K(==)>(keys: seq<K>, key: K): (i: nat)
    ensures i <= |keys|
    ensures i < |keys| ==> keys[i] == key
    ensures key !in keys[..i]
    ensures i == |keys| <==> key !in keys
  {
    if keys == [] then 0
    else if keys[0] == key then 0
    else
      var j := IndexOf(keys[1..], key);
      assert keys[..j + 1] == [keys[0]] + keys[1..][..j];
      j + 1
  }

  /** A position with the key, or the end, is the first one if no earlier position has the key. */
  lemma {:induction false} IndexOfIs<K>(keys: seq<K>, key: K, i: nat)
    requires i <= |keys| && (i < |keys| ==> keys[i] == key)
    requires forall j :: 0 <= j < i ==> keys[j] != key
    ensures IndexOf(keys, key) == i
  {
    if i == 0 {
    } else {
      IndexOfIs(keys[1..], key, i - 1);
    }
  }

  lemma {:induction false} IndexOfFirst<K>(keys: seq<K>, key: K, j: nat)
    requires j < |keys| && keys[j] == key
    ensures IndexOf(keys, key) <= j
  {
    if j == 0 || keys[0] == key {
    } else {
      IndexOfFirst(keys[1..], key, j - 1);
    }
  }

  function RemoveAt<T>(s: seq<T>, i: nat): (r: seq<T>)
    requires i < |s|
    ensures |r| == |s| - 1
  {
    s[..i] + s[i + 1..]
  }

  lemma RemovedOne<T>(s: seq<T>, i: nat)
    requires i < |s|
    ensures multiset(s) == multiset(RemoveAt(s, i)) + multiset{s[i]}
  {
    assert s == s[..i] + [s[i]] + s[i + 1..];
  }

  ghost predicate Distinct<T>(s: seq<T>) {
    forall i, j :: 0 <= i < j < |s| ==> s[i] != s[j]
  }

  lemma IndexOfDistinct<T>(s: seq<T>, i: nat)
    requires Distinct(s) && i < |s|
    ensures IndexOf(s, s[i]) == i
  {
    IndexOfFirst(s, s[i], i);
    assert s[IndexOf(s, s[i])] == s[i];
  }

  lemma DistinctPrepend<T>(x: T, s: seq<T>)
    requires Distinct(s) && x !in s
    ensures Distinct([x] + s)
    ensures forall y :: y in [x] + s <==> y == x || y in s
  {
  }

  lemma DistinctRemove<T>(s: seq<T>, i: nat)
    requires Distinct(s) && i < |s|
    ensures Distinct(RemoveAt(s, i))
    ensures forall y :: y in RemoveAt(s, i) <==> y in s && y != s[i]
  {
    var r := RemoveAt(s, i);
    forall y | y in s && y != s[i] ensures y in r {
      var j :| 0 <= j < |s| && s[j] == y;
      assert r[if j < i then j else j - 1] == y;
    }
  }
}
