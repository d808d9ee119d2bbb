/** A map that is iterated in insertion order: rewriting a key keeps its place. */
module InsertionMap {
  import opened Wrappers

  type Entries<V> = seq<(string, V)>

  function Find<V>(m: Entries<V>, k: string): Option<V> {
    if m == [] then None
    else if m[0].0 == k then Some(m[0].1)
    else Find(m[1..], k)
  }

  function Insert<V>(m: Entries<V>, k: string, v: V): Entries<V> {
    if m == [] then [(k, v)]
    else if m[0].0 == k then [(k, v)] + m[1..]
    else [m[0]] + Insert(m[1..], k, v)
  }

  function Drop<V>(m: Entries<V>, k: string): Entries<V> {
    if m == [] then []
    else if m[0].0 == k then m[1..]
    else [m[0]] + Drop(m[1..], k)
  }

  function Keys<V>(m: Entries<V>): (r: seq<string>)
    ensures |r| == |m|
  {
    seq(|m|, i requires 0 <= i < |m| => m[i].0)
  }

  function Values<V>(m: Entries<V>): (r: seq<V>)
    ensures |r| == |m|
  {
    seq(|m|, i requires 0 <= i < |m| => m[i].1)
  }

  ghost predicate NoDuplicates<T>(s: seq<T>) {
    forall i, j :: 0 <= i < j < |s| ==> s[i] != s[j]
  }

  ghost predicate Distinct<V>(m: Entries<V>) { NoDuplicates(Keys(m)) }

  lemma {:induction false} FindInsert<V>(m: Entries<V>, k: string, v: V, j: string)
    ensures Find(Insert(m, k, v), j) == if j == k then Some(v) else Find(m, j)
  {
    if m != [] && m[0].0 != k {
      FindInsert(m[1..], k, v, j);
      assert Insert(m, k, v)[1..] == Insert(m[1..], k, v);
    } else if m != [] {
      assert Insert(m, k, v)[1..] == m[1..];
    }
  }

  lemma {:induction false} FindIsIn<V>(m: Entries<V>, k: string)
    ensures Find(m, k).Some? <==> k in Keys(m)
    ensures Find(m, k).Some? ==> (k, Find(m, k).value) in m
  {
    if m != [] {
      FindIsIn(m[1..], k);
      assert Keys(m) == [m[0].0] + Keys(m[1..]);
    }
  }

  lemma {:induction false} FindAt<V>(m: Entries<V>, i: nat)
    requires Distinct(m) && i < |m|
    ensures Find(m, m[i].0) == Some(m[i].1)
  {
    if i > 0 {
      assert Keys(m)[0] != Keys(m)[i];
      assert forall a :: 0 <= a < |m| - 1 ==> Keys(m[1..])[a] == Keys(m)[a + 1];
      FindAt(m[1..], i - 1);
    }
  }

  /** An insert changes no other key, and adds its own at the end or not at all. */
  lemma {:induction false} InsertKeys<V>(m: Entries<V>, k: string, v: V)
    ensures Keys(Insert(m, k, v)) == if Find(m, k).Some? then Keys(m) else Keys(m) + [k]
    ensures |Insert(m, k, v)| == if Find(m, k).Some? then |m| else |m| + 1
    ensures Distinct(m) ==> Distinct(Insert(m, k, v))
  {
    InsertKeysAre(m, k, v);
    FindIsIn(m, k);
  }

  lemma {:induction false} InsertKeysAre<V>(m: Entries<V>, k: string, v: V)
    ensures Keys(Insert(m, k, v)) == if Find(m, k).Some? then Keys(m) else Keys(m) + [k]
  {
    if m != [] {
      assert Keys(m) == [m[0].0] + Keys(m[1..]);
      if m[0].0 != k {
        InsertKeysAre(m[1..], k, v);
        assert Keys(Insert(m, k, v)) == [m[0].0] + Keys(Insert(m[1..], k, v));
      }
    }
  }

  lemma {:induction false} InsertAt<V>(m: Entries<V>, k: string, v: V, i: nat)
    requires Distinct(m) && i < |Insert(m, k, v)|
    ensures Insert(m, k, v)[i] == (k, v) || (i < |m| && Insert(m, k, v)[i] == m[i] && m[i].0 != k)
  {
    if m != [] && m[0].0 != k && i > 0 {
      assert forall a :: 0 <= a < |m| - 1 ==> Keys(m[1..])[a] == Keys(m)[a + 1];
      InsertAt(m[1..], k, v, i - 1);
    } else if m != [] && i > 0 {
      assert Keys(m)[0] != Keys(m)[i];
    }
  }

  lemma {:induction false} DropKeys<V>(m: Entries<V>, i: nat)
    requires Distinct(m) && i < |m|
    ensures Drop(m, m[i].0) == m[..i] + m[i + 1..] && Distinct(Drop(m, m[i].0)) && m[i].0 !in Keys(Drop(m, m[i].0))
  {
    DropIs(m, i);
    var dropped := m[..i] + m[i + 1..];
    forall a, b | 0 <= a < b < |dropped| ensures Keys(dropped)[a] != Keys(dropped)[b] {
      var a', b' := if a < i then a else a + 1, if b < i then b else b + 1;
      assert Keys(dropped)[a] == Keys(m)[a'] && Keys(dropped)[b] == Keys(m)[b'];
    }
    forall a | 0 <= a < |dropped| ensures Keys(dropped)[a] != m[i].0 {
      var a' := if a < i then a else a + 1;
      assert Keys(dropped)[a] == Keys(m)[a'] && Keys(m)[i] == m[i].0;
    }
  }

  lemma {:induction false} DropIs<V>(m: Entries<V>, i: nat)
    requires Distinct(m) && i < |m|
    ensures Drop(m, m[i].0) == m[..i] + m[i + 1..]
  {
    if i > 0 {
      assert Keys(m)[0] != Keys(m)[i];
      assert forall a :: 0 <= a < |m| - 1 ==> Keys(m[1..])[a] == Keys(m)[a + 1];
      DropIs(m[1..], i - 1);
    }
  }

  lemma {:induction false} FindDrop<V>(m: Entries<V>, k: string, j: string)
    requires Distinct(m)
    ensures Find(Drop(m, k), j) == if j == k then None else Find(m, j)
  {
    if m != [] {
      assert forall a :: 0 <= a < |m| - 1 ==> Keys(m[1..])[a] == Keys(m)[a + 1];
      if m[0].0 == k {
        FindIsIn(m[1..], k);
        assert forall a :: 0 < a < |m| ==> Keys(m)[0] != Keys(m)[a];
      } else {
        FindDrop(m[1..], k, j);
        assert Drop(m, k)[1..] == Drop(m[1..], k);
      }
    }
  }
}
