/** The group-by loop the views share: walk the records once, look each
    record's key up in a dictionary, create an accumulator the first time a
    key is seen and fold the record into its accumulator. Independent of
    what is accumulated. */
module Grouping {
  import opened Common

  /** The accumulator of a group whose records, in input order, are `ts`:
      created from the first record, then each record added in turn. */
  function Accumulate<T, R>(ts: seq<T>, create: T -> R, add: (R, T) -> R): R
    requires ts != []
    decreases |ts|
  {
    if |ts| == 1 then add(create(ts[0]), ts[0])
    else add(Accumulate(ts[..|ts| - 1], create, add), ts[|ts| - 1])
  }

  lemma AccumulateSnoc<T, R>(ts: seq<T>, t: T, create: T -> R, add: (R, T) -> R)
    requires ts != []
    ensures Accumulate(ts + [t], create, add) == add(Accumulate(ts, create, add), t)
  {
    assert (ts + [t])[..|ts|] == ts;
  }

  /** The predicate "has key `k`". */
  function HasKey<T, K(==)>(keyOf: T -> K, k: K): T -> bool
  {
    (t: T) => keyOf(t) == k
  }

  /** The state of the loop after the records `done`: `keys[k]` is the key
      of accumulator `open[k]`, `index` maps each key seen so far to the
      position of its accumulator, and each accumulator holds exactly the
      records of its key, in input order. */
  ghost predicate Bucketed<T, K, R>(done: seq<T>, keyOf: T -> K, create: T -> R, add: (R, T) -> R,
                                    keys: seq<K>, index: map<K, nat>, open: seq<R>)
  {
    |keys| == |open|
    && (forall l :: l in index ==> index[l] < |keys| && keys[index[l]] == l)
    && (forall k :: 0 <= k < |keys| ==> keys[k] in index && index[keys[k]] == k)
    && (forall k :: 0 <= k < |keys| ==>
          Filter(done, HasKey(keyOf, keys[k])) != []
          && open[k] == Accumulate(Filter(done, HasKey(keyOf, keys[k])), create, add))
    && (forall j :: 0 <= j < |done| ==> keyOf(done[j]) in index)
  }

  lemma FilterSnoc<T>(s: seq<T>, t: T, p: T -> bool)
    ensures Filter(s + [t], p) == Filter(s, p) + (if p(t) then [t] else [])
  {
    FilterAppend(s, [t], p);
    assert Filter([t], p) == (if p(t) then [t] else []) + Filter([t][1..], p);
  }

  lemma {:induction false} FilterNone<T>(s: seq<T>, p: T -> bool)
    requires forall j :: 0 <= j < |s| ==> !p(s[j])
    ensures Filter(s, p) == []
    decreases |s|
  {
    if s != [] {
      FilterNone(s[1..], p);
    }
  }

  /** Every earlier record's key stays indexed when one more arrives. */
  lemma CoveredSnoc<T, K>(done: seq<T>, t: T, keyOf: T -> K, index: map<K, nat>, done': seq<T>)
    requires forall j :: 0 <= j < |done| ==> keyOf(done[j]) in index
    requires keyOf(t) in index && done' == done + [t]
    ensures forall j :: 0 <= j < |done'| ==> keyOf(done'[j]) in index
  {
    forall j | 0 <= j < |done'|
      ensures keyOf(done'[j]) in index
    {
      if j < |done| {
        assert done'[j] == done[j];
      }
    }
  }

  /** A record whose key already has an accumulator is folded into it. */
  lemma BucketExisting<T, K, R>(done: seq<T>, t: T, keyOf: T -> K, create: T -> R, add: (R, T) -> R,
                                keys: seq<K>, index: map<K, nat>, open: seq<R>,
                                done': seq<T>, next: seq<R>)
    requires Bucketed(done, keyOf, create, add, keys, index, open) && keyOf(t) in index
    requires done' == done + [t]
    requires next == open[index[keyOf(t)] := add(open[index[keyOf(t)]], t)]
    ensures Bucketed(done', keyOf, create, add, keys, index, next)
  {
    var k := index[keyOf(t)];
    forall m | 0 <= m < |keys|
      ensures Filter(done', HasKey(keyOf, keys[m])) != []
      ensures next[m] == Accumulate(Filter(done', HasKey(keyOf, keys[m])), create, add)
    {
      var old_ := Filter(done, HasKey(keyOf, keys[m]));
      FilterSnoc(done, t, HasKey(keyOf, keys[m]));
      if m == k {
        assert Filter(done', HasKey(keyOf, keys[m])) == old_ + [t];
        AccumulateSnoc(old_, t, create, add);
      } else {
        assert keys[m] != keyOf(t);
        assert Filter(done', HasKey(keyOf, keys[m])) == old_;
      }
    }
    CoveredSnoc(done, t, keyOf, index, done');
  }

  /** A record with a new key starts a new accumulator at the end. */
  lemma BucketNew<T, K, R>(done: seq<T>, t: T, keyOf: T -> K, create: T -> R, add: (R, T) -> R,
                           keys: seq<K>, index: map<K, nat>, open: seq<R>,
                           done': seq<T>, keys': seq<K>, index': map<K, nat>, next: seq<R>)
    requires Bucketed(done, keyOf, create, add, keys, index, open) && keyOf(t) !in index
    requires done' == done + [t]
    requires keys' == keys + [keyOf(t)]
    requires index' == index[keyOf(t) := |keys|]
    requires next == open + [add(create(t), t)]
    ensures Bucketed(done', keyOf, create, add, keys', index', next)
  {
    forall m | 0 <= m < |keys'|
      ensures Filter(done', HasKey(keyOf, keys'[m])) != []
      ensures next[m] == Accumulate(Filter(done', HasKey(keyOf, keys'[m])), create, add)
    {
      FilterSnoc(done, t, HasKey(keyOf, keys'[m]));
      if m < |keys| {
        assert keys'[m] == keys[m] != keyOf(t);
        assert Filter(done', HasKey(keyOf, keys'[m])) == Filter(done, HasKey(keyOf, keys[m]));
        assert next[m] == open[m];
      } else {
        FilterNone(done, HasKey(keyOf, keyOf(t)));
        assert keys'[m] == keyOf(t);
        assert Filter(done', HasKey(keyOf, keys'[m])) == [t];
        assert [t][0] == t;
        assert Accumulate([t], create, add) == add(create(t), t);
        assert next[m] == add(create(t), t);
      }
    }
    CoveredSnoc(done, t, keyOf, index', done');
    assert forall l :: l in index' ==> index'[l] < |keys'| && keys'[index'[l]] == l;
  }

  /** The group-by loop: one accumulator per key, in order of first
      appearance, each folding its records in input order. */
  method BucketBy<T, K(==), R>(txns: seq<T>, keyOf: T -> K, create: T -> R, add: (R, T) -> R)
    returns (index: map<K, nat>, open: seq<R>, ghost keys: seq<K>)
    ensures Bucketed(txns, keyOf, create, add, keys, index, open)
  {
    index, open, keys := map[], [], [];
    for i := 0 to |txns|
      invariant Bucketed(txns[..i], keyOf, create, add, keys, index, open)
    {
      var t := txns[i];
      var key := keyOf(t);
      TakeSnoc(txns, i);
      ghost var keys0, index0, open0 := keys, index, open;
      if key in index {
        var k := index[key];
        open := open[k := add(open[k], t)];
        BucketExisting(txns[..i], t, keyOf, create, add, keys0, index0, open0, txns[..i + 1], open);
      } else {
        keys := keys + [key];
        index := index[key := |open|];
        open := open + [add(create(t), t)];
        BucketNew(txns[..i], t, keyOf, create, add, keys0, index0, open0, txns[..i + 1], keys, index, open);
      }
    }
    assert txns[..|txns|] == txns;
  }

  /** Facts a caller needs from the loop state: every accumulator belongs to
      a key that occurs, every occurring key has one, and keys are distinct. */
  lemma BucketedKeys<T, K, R>(done: seq<T>, keyOf: T -> K, create: T -> R, add: (R, T) -> R,
                              keys: seq<K>, index: map<K, nat>, open: seq<R>)
    requires Bucketed(done, keyOf, create, add, keys, index, open)
    ensures forall j :: 0 <= j < |done| ==> index[keyOf(done[j])] < |keys| && keys[index[keyOf(done[j])]] == keyOf(done[j])
    ensures forall p, q :: 0 <= p < q < |keys| ==> keys[p] != keys[q]
  {
    forall p, q | 0 <= p < q < |keys|
      ensures keys[p] != keys[q]
    {
      assert index[keys[p]] == p && index[keys[q]] == q;
    }
  }

  /** There is one accumulator per distinct key of the records seen. */
  lemma BucketCount<T, K, R>(done: seq<T>, keyOf: T -> K, create: T -> R, add: (R, T) -> R,
                                 keys: seq<K>, index: map<K, nat>, open: seq<R>)
    requires Bucketed(done, keyOf, create, add, keys, index, open)
    ensures |open| == |Distinct(MapSeq(done, keyOf))|
    ensures forall x :: x in keys <==> x in MapSeq(done, keyOf)
  {
    var seen := MapSeq(done, keyOf);
    var d := Distinct(seen);
    BucketedKeys(done, keyOf, create, add, keys, index, open);
    forall x
      ensures x in keys <==> x in seen
    {
      if x in keys {
        var k :| 0 <= k < |keys| && keys[k] == x;
        var group := Filter(done, HasKey(keyOf, x));
        FilterMembers(done, HasKey(keyOf, x));
        assert group[0] in done && HasKey(keyOf, x)(group[0]);
        var j :| 0 <= j < |done| && done[j] == group[0];
        assert seen[j] == x;
      }
      if x in seen {
        var j :| 0 <= j < |seen| && seen[j] == x;
        assert keys[index[keyOf(done[j])]] == x;
      }
    }
    forall x
      ensures x in keys <==> x in d
    {
      if x in d {
        var i :| 0 <= i < |d| && d[i] == x;
      }
      if x in seen {
        var j :| 0 <= j < |seen| && seen[j] == x;
      }
    }
    NoDuplicatesSameLength(keys, d);
  }

  // ---------------------------------------------------------------------------
  // Sums over a partition by key

  /** The sum of `f` over the records of key `k`. */
  function KeySum<T, K(==)>(s: seq<T>, keyOf: T -> K, f: T -> int): K -> int
  {
    (k: K) => SumOf(Filter(s, HasKey(keyOf, k)), f)
  }

  /** `v` at key `x`, 0 at every other key. */
  function Indicator<K(==)>(x: K, v: int): K -> int
  {
    (k: K) => if k == x then v else 0
  }

  lemma {:induction false} SumOfZero<T>(s: seq<T>, f: T -> int)
    requires forall i :: 0 <= i < |s| ==> f(s[i]) == 0
    ensures SumOf(s, f) == 0
    decreases |s|
  {
    if s != [] {
      SumOfZero(s[1..], f);
    }
  }

  /** Over distinct keys that include `x`, the indicator of `x` sums to `v`. */
  lemma {:induction false} SumOfIndicator<K>(keys: seq<K>, x: K, v: int)
    requires forall p, q :: 0 <= p < q < |keys| ==> keys[p] != keys[q]
    requires x in keys
    ensures SumOf(keys, Indicator(x, v)) == v
    decreases |keys|
  {
    if keys[0] == x {
      forall i | 0 <= i < |keys[1..]|
        ensures Indicator(x, v)(keys[1..][i]) == 0
      {
        assert keys[1..][i] == keys[i + 1] != keys[0];
      }
      SumOfZero(keys[1..], Indicator(x, v));
    } else {
      forall p, q | 0 <= p < q < |keys[1..]|
        ensures keys[1..][p] != keys[1..][q]
      {
        assert keys[1..][p] == keys[p + 1] && keys[1..][q] == keys[q + 1];
      }
      SumOfIndicator(keys[1..], x, v);
    }
  }

  /** One more record adds its measure to the sum of its own key only. */
  lemma KeySumSnoc<T, K>(s: seq<T>, t: T, keyOf: T -> K, f: T -> int)
    ensures forall k :: KeySum(s + [t], keyOf, f)(k) == KeySum(s, keyOf, f)(k) + Indicator(keyOf(t), f(t))(k)
  {
    forall k
      ensures KeySum(s + [t], keyOf, f)(k) == KeySum(s, keyOf, f)(k) + Indicator(keyOf(t), f(t))(k)
    {
      FilterSnoc(s, t, HasKey(keyOf, k));
      SumOfAppend(Filter(s, HasKey(keyOf, k)), if keyOf(t) == k then [t] else [], f);
      SumOfZero([], f);
      SumOfSingleton(t, f);
    }
  }

  /** Distinct keys covering every record partition the total: the per-key
      sums add up to the sum over all records. */
  lemma {:induction false} PartitionSum<T, K>(s: seq<T>, keyOf: T -> K, keys: seq<K>, f: T -> int)
    requires forall p, q :: 0 <= p < q < |keys| ==> keys[p] != keys[q]
    requires forall j :: 0 <= j < |s| ==> keyOf(s[j]) in keys
    ensures SumOf(keys, KeySum(s, keyOf, f)) == SumOf(s, f)
    decreases |s|
  {
    if s == [] {
      SumOfZero(keys, KeySum(s, keyOf, f));
    } else {
      var init := s[..|s| - 1];
      var last := s[|s| - 1];
      assert s == init + [last];
      assert forall j :: 0 <= j < |init| ==> init[j] == s[j];
      PartitionSum(init, keyOf, keys, f);
      KeySumSnoc(init, last, keyOf, f);
      SumOfAdd(keys, KeySum(init, keyOf, f), Indicator(keyOf(last), f(last)), KeySum(s, keyOf, f));
      SumOfIndicator(keys, keyOf(last), f(last));
      SumOfAppend(init, [last], f);
      SumOfSingleton(last, f);
    }
  }

  /** When each accumulator's measure is the sum of its records' measures,
      the accumulators together sum to the total. */
  lemma BucketedSum<T, K, R>(done: seq<T>, keyOf: T -> K, create: T -> R, add: (R, T) -> R,
                             keys: seq<K>, index: map<K, nat>, open: seq<R>, val: R -> int, f: T -> int)
    requires Bucketed(done, keyOf, create, add, keys, index, open)
    requires forall k :: 0 <= k < |open| ==> val(open[k]) == SumOf(Filter(done, HasKey(keyOf, keys[k])), f)
    ensures SumOf(open, val) == SumOf(done, f)
  {
    BucketedKeys(done, keyOf, create, add, keys, index, open);
    forall j | 0 <= j < |done|
      ensures keyOf(done[j]) in keys
    {
      assert keys[index[keyOf(done[j])]] == keyOf(done[j]);
    }
    PartitionSum(done, keyOf, keys, f);
    SumOfPointwise(open, val, keys, KeySum(done, keyOf, f));
  }
}
