/**
 * The part of PHP's ordered arrays that the translation flattener relies on:
 * key/value pairs in insertion order, keyed assignment and the `+` union.
 */
module PhpArray {
  import opened Wrappers
  import opened Seqs

  /** An ordered dictionary: key/value pairs in insertion order. */
  type Dict<K, V> = seq<(K, V)>

  /** The keys, in order. */
  function Keys<K, V>(d: Dict<K, V>): (ks: seq<K>)
    ensures |ks| == |d|
    ensures forall i :: 0 <= i < |d| ==> ks[i] == d[i].0
  {
    if d == [] then [] else [d[0].0] + Keys(d[1..])
  }

  /** The keys of a concatenation are the keys of its parts. */
  lemma KeysAppend<K, V>(a: Dict<K, V>, b: Dict<K, V>)
    ensures Keys(a + b) == Keys(a) + Keys(b)
  {
  }

  /** No key occurs twice, as in every PHP array. */
  predicate Distinct<K(==)>(ks: seq<K>) {
    forall i, j :: 0 <= i < j < |ks| ==> ks[i] != ks[j]
  }

  /** The value stored under `k`, if any (the first, should a key repeat). */
  function Lookup<K(==), V>(d: Dict<K, V>, k: K): Option<V>
  {
    if d == [] then None
    else if d[0].0 == k then Some(d[0].1)
    else Lookup(d[1..], k)
  }

  /** A key is found exactly when it is present, and what is found is stored under it. */
  lemma {:induction false} LookupFinds<K, V>(d: Dict<K, V>, k: K)
    ensures Lookup(d, k).Some? <==> k in Keys(d)
    ensures Lookup(d, k).Some? ==> (k, Lookup(d, k).value) in d
  {
    if d != [] && d[0].0 != k {
      LookupFinds(d[1..], k);
      assert Keys(d) == [d[0].0] + Keys(d[1..]);
    }
  }

  /** With distinct keys, every stored pair is what lookup finds. */
  lemma {:induction false} LookupStored<K, V>(d: Dict<K, V>, i: nat)
    requires Distinct(Keys(d)) && i < |d|
    ensures Lookup(d, d[i].0) == Some(d[i].1)
  {
    if i > 0 {
      assert Keys(d[1..]) == Keys(d)[1..];
      LookupStored(d[1..], i - 1);
    }
  }

  /** Lookup in a concatenation looks in the first part, then in the second. */
  lemma {:induction false} LookupAppend<K, V>(a: Dict<K, V>, b: Dict<K, V>, k: K)
    ensures Lookup(a + b, k) == if k in Keys(a) then Lookup(a, k) else Lookup(b, k)
  {
    if a != [] {
      assert (a + b)[1..] == a[1..] + b;
      assert Keys(a) == [a[0].0] + Keys(a[1..]);
      LookupAppend(a[1..], b, k);
    } else {
      assert a + b == b;
    }
  }

  /**
   * `$array[$k] = $v`: the value is replaced in place when the key exists,
   * and the pair is appended otherwise.
   */
  function Assign<K(==), V>(d: Dict<K, V>, k: K, v: V): Dict<K, V>
  {
    if d == [] then [(k, v)]
    else if d[0].0 == k then [(k, v)] + d[1..]
    else [d[0]] + Assign(d[1..], k, v)
  }

  /** Assigning to a present key keeps the keys and their order. */
  lemma {:induction false} AssignPresent<K, V>(d: Dict<K, V>, k: K, v: V)
    requires k in Keys(d)
    ensures Keys(Assign(d, k, v)) == Keys(d)
  {
    assert Keys(d) == [d[0].0] + Keys(d[1..]);
    if d[0].0 == k {
      assert Keys([(k, v)] + d[1..]) == Keys(d);
    } else {
      var tail := Assign(d[1..], k, v);
      AssignPresent(d[1..], k, v);
      assert Keys([d[0]] + tail) == [d[0].0] + Keys(tail);
    }
  }

  /** Assigning to a new key appends the pair. */
  lemma {:induction false} AssignNew<K, V>(d: Dict<K, V>, k: K, v: V)
    requires k !in Keys(d)
    ensures Assign(d, k, v) == d + [(k, v)]
  {
    if d != [] {
      assert Keys(d) == [d[0].0] + Keys(d[1..]);
      AssignNew(d[1..], k, v);
      assert Assign(d, k, v) == [d[0]] + Assign(d[1..], k, v);
      AppendAssoc([d[0]], d[1..], [(k, v)]);
      assert [d[0]] + d[1..] == d;
    }
  }

  /** The keys after an assignment: unchanged, or one more at the end. */
  lemma AssignKeys<K, V>(d: Dict<K, V>, k: K, v: V)
    ensures Keys(Assign(d, k, v)) == if k in Keys(d) then Keys(d) else Keys(d) + [k]
  {
    if k in Keys(d) {
      AssignPresent(d, k, v);
    } else {
      AssignNew(d, k, v);
      KeysAppend(d, [(k, v)]);
    }
  }

  /** Assignment introduces no pair other than the one assigned. */
  lemma {:induction false} AssignPairs<K, V>(d: Dict<K, V>, k: K, v: V)
    ensures forall i :: 0 <= i < |Assign(d, k, v)| ==> Assign(d, k, v)[i] in d || Assign(d, k, v)[i] == (k, v)
  {
    if d != [] && d[0].0 != k {
      AssignPairs(d[1..], k, v);
      var r := Assign(d, k, v);
      assert r == [d[0]] + Assign(d[1..], k, v);
      forall i | 0 < i < |r| ensures r[i] in d || r[i] == (k, v) {
        assert r[i] == Assign(d[1..], k, v)[i - 1];
      }
    }
  }

  /** After assignment the key holds the new value and every other key is as before. */
  lemma {:induction false} AssignLookup<K, V>(d: Dict<K, V>, k: K, v: V, key: K)
    ensures Lookup(Assign(d, k, v), key) == if key == k then Some(v) else Lookup(d, key)
  {
    if d != [] && d[0].0 != k {
      AssignLookup(d[1..], k, v, key);
    }
  }

  /** The halves of a sequence without repeats have none, and share nothing. */
  lemma DistinctConcat<K>(x: seq<K>, y: seq<K>)
    requires Distinct(x + y)
    ensures Distinct(x) && Distinct(y)
    ensures forall i :: 0 <= i < |y| ==> y[i] !in x
  {
    forall i | 0 <= i < |y| ensures y[i] !in x {
      forall j | 0 <= j < |x| ensures x[j] != y[i] {
        assert (x + y)[j] == x[j] && (x + y)[|x| + i] == y[i];
      }
    }
    forall i, j | 0 <= i < j < |x| ensures x[i] != x[j] {
      assert (x + y)[i] == x[i] && (x + y)[j] == x[j];
    }
    forall i, j | 0 <= i < j < |y| ensures y[i] != y[j] {
      assert (x + y)[|x| + i] == y[i] && (x + y)[|x| + j] == y[j];
    }
  }

  /** Distinct keys in a concatenation: each part is distinct, and they share no key. */
  lemma DistinctSplit<K, V>(a: Dict<K, V>, b: Dict<K, V>)
    requires Distinct(Keys(a + b))
    ensures Distinct(Keys(a)) && Distinct(Keys(b))
    ensures forall i :: 0 <= i < |b| ==> b[i].0 !in Keys(a)
  {
    KeysAppend(a, b);
    DistinctConcat(Keys(a), Keys(b));
  }

  /** Assignment keeps the keys distinct. */
  lemma AssignDistinct<K, V>(d: Dict<K, V>, k: K, v: V)
    requires Distinct(Keys(d))
    ensures Distinct(Keys(Assign(d, k, v)))
  {
    AssignKeys(d, k, v);
    if k !in Keys(d) {
      var ks := Keys(d) + [k];
      forall i, j | 0 <= i < j < |ks| ensures ks[i] != ks[j] {
        if j == |d| {
          assert ks[i] == Keys(d)[i];
        }
      }
    }
  }

  /** The pairs of `b` whose key `a` lacks, in `b`'s order. */
  function Missing<K(==), V>(a: Dict<K, V>, b: Dict<K, V>): (r: Dict<K, V>)
    ensures (forall i :: 0 <= i < |b| ==> b[i].0 !in Keys(a)) ==> r == b
  {
    if b == [] then []
    else if b[0].0 in Keys(a) then Missing(a, b[1..])
    else [b[0]] + Missing(a, b[1..])
  }

  /** Every pair kept is a pair of `b` under a key `a` lacks. */
  lemma {:induction false} MissingPairs<K, V>(a: Dict<K, V>, b: Dict<K, V>)
    ensures forall i :: 0 <= i < |Missing(a, b)| ==> Missing(a, b)[i] in b && Missing(a, b)[i].0 !in Keys(a)
  {
    if b != [] {
      MissingPairs(a, b[1..]);
      var tail := Missing(a, b[1..]);
      forall i | 0 <= i < |tail| ensures tail[i] in b {
        assert tail[i] in b[1..];
      }
      if b[0].0 !in Keys(a) {
        var r := [b[0]] + tail;
        assert Missing(a, b) == r;
        forall i | 0 < i < |r| ensures r[i] == tail[i - 1] {}
      }
    }
  }

  /** Filtering keeps distinct keys distinct. */
  lemma {:induction false} MissingDistinct<K, V>(a: Dict<K, V>, b: Dict<K, V>)
    requires Distinct(Keys(b))
    ensures Distinct(Keys(Missing(a, b)))
  {
    if b != [] {
      assert Keys(b[1..]) == Keys(b)[1..];
      MissingDistinct(a, b[1..]);
      var tail := Missing(a, b[1..]);
      if b[0].0 !in Keys(a) {
        var ks := Keys([b[0]] + tail);
        forall j | 0 < j < |ks| ensures ks[0] != ks[j] {
          MissingKeys(a, b[1..], ks[j]);
          assert ks[j] == Keys(tail)[j - 1];
          assert ks[j] in Keys(b[1..]);
        }
        forall i, j | 0 < i < j < |ks| ensures ks[i] != ks[j] {
          assert ks[i] == Keys(tail)[i - 1] && ks[j] == Keys(tail)[j - 1];
        }
      }
    }
  }

  /** The keys kept are the keys of `b` that `a` lacks. */
  lemma {:induction false} MissingKeys<K, V>(a: Dict<K, V>, b: Dict<K, V>, k: K)
    ensures k in Keys(Missing(a, b)) <==> k in Keys(b) && k !in Keys(a)
  {
    if b != [] {
      var tail := Missing(a, b[1..]);
      MissingKeys(a, b[1..], k);
      assert Keys(b) == [b[0].0] + Keys(b[1..]);
      if b[0].0 in Keys(a) {
        assert Missing(a, b) == tail;
      } else {
        assert Missing(a, b) == [b[0]] + tail;
        assert Keys([b[0]] + tail) == [b[0].0] + Keys(tail);
      }
    }
  }

  /** Under a key `a` lacks, the kept pairs hold what `b` holds. */
  lemma {:induction false} MissingLookup<K, V>(a: Dict<K, V>, b: Dict<K, V>, k: K)
    requires k !in Keys(a)
    ensures Lookup(Missing(a, b), k) == Lookup(b, k)
  {
    if b != [] {
      MissingLookup(a, b[1..], k);
    }
  }

  /**
   * `$a + $b`: every pair of `a`, then the pairs of `b` under keys `a` lacks;
   * a key already in `a` keeps its value.
   */
  function Union<K(==), V>(a: Dict<K, V>, b: Dict<K, V>): (r: Dict<K, V>)
    ensures (forall i :: 0 <= i < |b| ==> b[i].0 !in Keys(a)) ==> r == a + b
  {
    a + Missing(a, b)
  }

  /** The union introduces no pair that neither side has. */
  lemma UnionPairs<K, V>(a: Dict<K, V>, b: Dict<K, V>)
    ensures forall i :: 0 <= i < |Union(a, b)| ==> Union(a, b)[i] in a || Union(a, b)[i] in b
  {
    var m := Missing(a, b);
    MissingPairs(a, b);
    forall i | |a| <= i < |a + m| ensures (a + m)[i] in b {
      assert (a + m)[i] == m[i - |a|];
    }
  }

  /** A key of the union is a key of either side; an existing key keeps its value. */
  lemma UnionLookup<K, V>(a: Dict<K, V>, b: Dict<K, V>, k: K)
    ensures k in Keys(Union(a, b)) <==> k in Keys(a) || k in Keys(b)
    ensures Lookup(Union(a, b), k) == if k in Keys(a) then Lookup(a, k) else Lookup(b, k)
  {
    KeysAppend(a, Missing(a, b));
    MissingKeys(a, b, k);
    LookupAppend(a, Missing(a, b), k);
    if k !in Keys(a) {
      MissingLookup(a, b, k);
    }
  }

  /** The union of two arrays with distinct keys has distinct keys. */
  lemma UnionDistinct<K, V>(a: Dict<K, V>, b: Dict<K, V>)
    requires Distinct(Keys(a)) && Distinct(Keys(b))
    ensures Distinct(Keys(Union(a, b)))
  {
    var m := Missing(a, b);
    MissingDistinct(a, b);
    MissingPairs(a, b);
    KeysAppend(a, m);
    forall i, j | 0 <= i < j < |a + m|
      ensures Keys(a + m)[i] != Keys(a + m)[j]
    {
      if j >= |a| && i < |a| {
        assert Keys(a + m)[j] == m[j - |a|].0;
        assert Keys(a + m)[i] in Keys(a);
      }
    }
  }
}
