/**
 * PHP arrays with string keys: insertion-ordered dictionaries. An array is a
 * sequence of key/value entries; assigning to an existing key overwrites the
 * value in place, assigning to a new key appends it.
 */
module Dictionary {
  import opened Wrappers

  type Entries<V> = seq<(string, V)>

  function Keys<V>(m: Entries<V>): (ks: seq<string>)
    ensures |ks| == |m| && forall i :: 0 <= i < |m| ==> ks[i] == m[i].0
  {
    seq(|m|, i requires 0 <= i < |m| => m[i].0)
  }

  predicate UniqueKeys<V>(m: Entries<V>)
  {
    forall i, j :: 0 <= i < j < |m| ==> m[i].0 != m[j].0
  }

  /** $m[$k] (null when the key is unset) */
  function Get<V>(m: Entries<V>, k: string): (r: Option<V>)
    ensures r.None? <==> k !in Keys(m)
  {
    if m == [] then None
    else if m[0].0 == k then Some(m[0].1)
    else Get(m[1..], k)
  }

  /** $m[$k] = $v */
  function Put<V>(m: Entries<V>, k: string, v: V): (r: Entries<V>)
    ensures k !in Keys(m) ==> r == m + [(k, v)]
    ensures k in Keys(m) ==> Keys(r) == Keys(m)
  {
    if m == [] then [(k, v)]
    else if m[0].0 == k then [(k, v)] + m[1..]
    else [m[0]] + Put(m[1..], k, v)
  }

  /** array_merge($a, $b) for string keys: $b's entries are assigned into $a in order. */
  function Merge<V>(a: Entries<V>, b: Entries<V>): Entries<V>
    decreases |b|
  {
    if b == [] then a
    else
      var last := b[|b| - 1];
      Put(Merge(a, b[..|b| - 1]), last.0, last.1)
  }

  /** Merging one more entry of e is one more assignment. */
  lemma MergeSnoc<V>(a: Entries<V>, e: Entries<V>, i: int)
    requires 0 <= i < |e|
    ensures Merge(a, e[..i + 1]) == Put(Merge(a, e[..i]), e[i].0, e[i].1)
    ensures Keys(e[..i + 1]) == Keys(e[..i]) + [e[i].0]
  {
    var p := e[..i + 1];
    assert p[..|p| - 1] == e[..i];
    assert p[|p| - 1] == e[i];
    var ks := Keys(e[..i]) + [e[i].0];
    assert |Keys(p)| == |ks|;
    forall j | 0 <= j < |ks| ensures Keys(p)[j] == ks[j] {
      if j < i {
        assert Keys(p)[j] == p[j].0 == e[..i][j].0 == Keys(e[..i])[j];
      }
    }
  }

  /** After $m[$k] = $v, $m[$k] is $v. */
  lemma {:induction false} PutThenGet<V>(m: Entries<V>, k: string, v: V)
    ensures Get(Put(m, k, v), k) == Some(v)
  {
    if m != [] && m[0].0 != k {
      PutThenGet(m[1..], k, v);
    }
  }

  lemma PutKeepsUnique<V>(m: Entries<V>, k: string, v: V)
    requires UniqueKeys(m)
    ensures UniqueKeys(Put(m, k, v))
  {
    var r := Put(m, k, v);
    if k in Keys(m) {
      assert Keys(r) == Keys(m);
      forall i, j | 0 <= i < j < |r| ensures r[i].0 != r[j].0 {
        assert r[i].0 == Keys(r)[i] && r[j].0 == Keys(r)[j];
      }
    }
  }

  lemma {:induction false} MergeKeepsUnique<V>(a: Entries<V>, b: Entries<V>)
    requires UniqueKeys(a)
    ensures UniqueKeys(Merge(a, b))
    decreases |b|
  {
    if b != [] {
      MergeKeepsUnique(a, b[..|b| - 1]);
      PutKeepsUnique(Merge(a, b[..|b| - 1]), b[|b| - 1].0, b[|b| - 1].1);
    }
  }

  /** Merging only adds keys: the keys already present keep their order and
      place at the front, and every merged key ends up present. */
  lemma {:induction false} MergeExtendsKeys<V>(a: Entries<V>, b: Entries<V>)
    ensures |Merge(a, b)| >= |a|
    ensures Keys(Merge(a, b))[..|a|] == Keys(a)
    ensures forall k :: k in Keys(a) || k in Keys(b) ==> k in Keys(Merge(a, b))
    decreases |b|
  {
    if b != [] {
      var front := b[..|b| - 1];
      var last := b[|b| - 1];
      MergeExtendsKeys(a, front);
      var m := Merge(a, front);
      var r := Put(m, last.0, last.1);
      assert Keys(r)[..|m|] == Keys(m) && last.0 in Keys(r) by {
        PutExtends(m, last.0, last.1);
      }
      assert Keys(r)[..|a|] == Keys(m)[..|a|];
      forall k | k in Keys(a) || k in Keys(b) ensures k in Keys(r) {
        if k != last.0 {
          assert k in Keys(m) by {
            if k in Keys(b) { KeyInFront(b, k); }
          }
          ExtendsKeepsKeys(m, r, k);
        }
      }
    }
  }

  /** After $m[$k] = $v, the old keys keep their places and $k is present. */
  lemma PutExtends<V>(m: Entries<V>, k: string, v: V)
    ensures |Put(m, k, v)| >= |m| && Keys(Put(m, k, v))[..|m|] == Keys(m)
    ensures k in Keys(Put(m, k, v))
  {
    var r := Put(m, k, v);
    if k !in Keys(m) {
      assert Keys(r)[|m|] == k;
    } else {
      assert Keys(r) == Keys(m);
    }
  }

  /** A key of b other than its last is a key of b's front. */
  lemma KeyInFront<V>(b: Entries<V>, k: string)
    requires k in Keys(b) && b != [] && k != b[|b| - 1].0
    ensures k in Keys(b[..|b| - 1])
  {
    var i :| 0 <= i < |b| && Keys(b)[i] == k;
    assert Keys(b[..|b| - 1])[i] == k;
  }

  /** b keeps every key of a, in place, at its front. */
  predicate Extends<V>(a: Entries<V>, b: Entries<V>)
  {
    |b| >= |a| && Keys(b)[..|a|] == Keys(a)
  }

  lemma ExtendsTransitive<V>(a: Entries<V>, b: Entries<V>, c: Entries<V>)
    requires Extends(a, b) && Extends(b, c)
    ensures Extends(a, c)
  {
    assert Keys(c)[..|a|] == Keys(c)[..|b|][..|a|];
  }

  lemma ExtendsKeepsKeys<V>(a: Entries<V>, b: Entries<V>, k: string)
    requires Extends(a, b) && k in Keys(a)
    ensures k in Keys(b)
  {
    var n :| 0 <= n < |a| && Keys(a)[n] == k;
    assert Keys(b)[n] == k;
  }

  lemma MergeExtends<V>(a: Entries<V>, b: Entries<V>)
    ensures Extends(a, Merge(a, b))
    ensures forall k :: k in Keys(b) ==> k in Keys(Merge(a, b))
  {
    MergeExtendsKeys(a, b);
  }

  /** No key of a is a key of b. */
  predicate Disjoint<V>(a: Entries<V>, b: Entries<V>)
  {
    forall i, j :: 0 <= i < |a| && 0 <= j < |b| ==> a[i].0 != b[j].0
  }

  /** With no key in common, merging is concatenation: nothing is overwritten
      and nothing is lost. */
  lemma {:induction false} MergeDisjoint<V>(a: Entries<V>, b: Entries<V>)
    requires UniqueKeys(b) && Disjoint(a, b)
    ensures Merge(a, b) == a + b
    decreases |b|
  {
    if b != [] {
      var front := b[..|b| - 1];
      var last := b[|b| - 1];
      assert UniqueKeys(front) && Disjoint(a, front) by {
        DisjointFront(a, b);
      }
      MergeDisjoint(a, front);
      assert last.0 !in Keys(a + front) by {
        LastIsNew(a, b);
      }
      assert (a + front) + [last] == a + b;
    }
  }

  lemma DisjointFront<V>(a: Entries<V>, b: Entries<V>)
    requires UniqueKeys(b) && Disjoint(a, b) && b != []
    ensures UniqueKeys(b[..|b| - 1]) && Disjoint(a, b[..|b| - 1])
  {
  }

  /** With unique keys and none shared with a, b's last key is not yet in a + b's front. */
  lemma LastIsNew<V>(a: Entries<V>, b: Entries<V>)
    requires UniqueKeys(b) && Disjoint(a, b) && b != []
    ensures b[|b| - 1].0 !in Keys(a + b[..|b| - 1])
  {
    var m := a + b[..|b| - 1];
    forall i | 0 <= i < |m| ensures Keys(m)[i] != b[|b| - 1].0 {
      if i >= |a| {
        assert m[i] == b[i - |a|];
      }
    }
  }
}
