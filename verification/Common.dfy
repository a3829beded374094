/** Result types and map operations shared by every module. */
module Common {

  datatype Option<+T> = None | Some(value: T)

  datatype Result<+T, +E> = Ok(value: T) | Err(error: E)

  function Lookup<K, V>(m: map<K, V>, k: K): Option<V> {
    if k in m then Some(m[k]) else None
  }

  function Drop<K, V>(m: map<K, V>, k: K): map<K, V> {
    m - {k}
  }

  lemma LookupDrop<K, V>(m: map<K, V>, k: K, j: K)
    ensures Lookup(Drop(m, k), j) == if j == k then None else Lookup(m, j)
  {
  }

  lemma PutInUnion<K, V>(a: map<K, V>, b: map<K, V>, k: K, v: V)
    ensures k !in b ==> a[k := v] + b == (a + b)[k := v]
    ensures a + b[k := v] == (a + b)[k := v]
  {
  }

  /** The sequence holds each element of the set exactly once, and nothing else. */
  ghost predicate Lists<T>(r: seq<T>, s: set<T>) {
    && (forall i :: 0 <= i < |r| ==> r[i] in s)
    && (forall x :: x in s ==> x in r)
    && (forall i, j :: 0 <= i < j < |r| ==> r[i] != r[j])
  }

  lemma ListsBoth<T>(a: seq<T>, s: set<T>, b: seq<T>, t: set<T>)
    requires Lists(a, s) && Lists(b, t) && s !! t
    ensures Lists(a + b, s + t)
  {
    forall i, j | 0 <= i < j < |a + b|
      ensures (a + b)[i] != (a + b)[j]
    {
      assert i < |a| <= j ==> a[i] in s && b[j - |a|] in t;
    }
  }

  lemma ListsOneMore<T>(a: seq<T>, s: set<T>, x: T)
    requires Lists(a, s) && x !in s
    ensures Lists(a + [x], s + {x})
  {
    ListsBoth(a, s, [x], {x});
  }
}
