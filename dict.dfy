/** A JavaScript object used as a dictionary: string keys in insertion order.
    Assigning to a present key keeps its position, assigning to an absent key
    appends it, `delete` drops it. `requestParams` and `savedFlights` are such objects. */
module Dict {
  import opened Text

  type Dict<V> = seq<(string, V)>

  function Keys<V>(d: Dict<V>): (ks: seq<string>)
    ensures |ks| == |d|
    ensures forall i :: 0 <= i < |d| ==> ks[i] == d[i].0
  {
    seq(|d|, i requires 0 <= i < |d| => d[i].0)
  }

  ghost predicate DistinctKeys<V>(d: Dict<V>)
  {
    forall i, j :: 0 <= i < j < |d| ==> d[i].0 != d[j].0
  }

  /** `d[k]`, undefined as None. */
  function Get<V>(d: Dict<V>, k: string): (r: Option<V>)
  {
    if d == [] then None
    else if d[0].0 == k then Some(d[0].1)
    else Get(d[1..], k)
  }

  /** `d[k] = v` */
  function Put<V>(d: Dict<V>, k: string, v: V): Dict<V>
  {
    if d == [] then [(k, v)]
    else if d[0].0 == k then [(k, v)] + d[1..]
    else [d[0]] + Put(d[1..], k, v)
  }

  /** `delete d[k]` */
  function Remove<V>(d: Dict<V>, k: string): Dict<V>
  {
    if d == [] then []
    else if d[0].0 == k then Remove(d[1..], k)
    else [d[0]] + Remove(d[1..], k)
  }

  lemma KeysCons<V>(e: (string, V), d: Dict<V>)
    ensures Keys([e] + d) == [e.0] + Keys(d)
  {
  }

  /** A key is present exactly when it is listed. */
  lemma {:induction false} GetPresent<V>(d: Dict<V>, k: string)
    ensures Get(d, k).Some? <==> k in Keys(d)
    decreases |d|
  {
    if d != [] {
      assert d == [d[0]] + d[1..];
      KeysCons(d[0], d[1..]);
      GetPresent(d[1..], k);
    }
  }

  /** After `d[k] = v`, reading `k` gives `v` and every other key reads as before. */
  lemma {:induction false} GetPut<V>(d: Dict<V>, k: string, v: V, k': string)
    ensures Get(Put(d, k, v), k') == if k' == k then Some(v) else Get(d, k')
    decreases |d|
  {
    if d != [] && d[0].0 != k {
      GetPut(d[1..], k, v, k');
    }
  }

  /** `d[k] = v` keeps the key order; a new key goes last. */
  lemma {:induction false} KeysPut<V>(d: Dict<V>, k: string, v: V)
    ensures Keys(Put(d, k, v)) == if k in Keys(d) then Keys(d) else Keys(d) + [k]
    decreases |d|
  {
    if d == [] {
    } else {
      assert d == [d[0]] + d[1..];
      KeysCons(d[0], d[1..]);
      if d[0].0 == k {
        KeysCons((k, v), d[1..]);
      } else {
        KeysPut(d[1..], k, v);
        KeysCons(d[0], Put(d[1..], k, v));
      }
    }
  }

  /** After `delete d[k]`, `k` is absent and every other key reads as before. */
  lemma {:induction false} GetRemove<V>(d: Dict<V>, k: string, k': string)
    ensures Get(Remove(d, k), k') == if k' == k then None else Get(d, k')
    decreases |d|
  {
    if d != [] {
      GetRemove(d[1..], k, k');
    }
  }

  /** `delete` removes exactly the entries with that key, and nothing when it is absent. */
  lemma KeysRemove<V>(d: Dict<V>, k: string)
    ensures k !in Keys(Remove(d, k))
    ensures forall k' :: k' != k ==> (k' in Keys(Remove(d, k)) <==> k' in Keys(d))
    ensures k !in Keys(d) ==> Remove(d, k) == d
  {
    forall k' ensures k' in Keys(Remove(d, k)) <==> k' in Keys(d) && k' != k {
      KeysRemoveOne(d, k, k');
    }
    RemoveAbsent(d, k);
  }

  lemma {:induction false} KeysRemoveOne<V>(d: Dict<V>, k: string, k': string)
    ensures k' in Keys(Remove(d, k)) <==> k' in Keys(d) && k' != k
    decreases |d|
  {
    if d != [] {
      var t := d[1..];
      assert d == [d[0]] + t;
      KeysCons(d[0], t);
      KeysRemoveOne(t, k, k');
      if d[0].0 != k {
        KeysCons(d[0], Remove(t, k));
      }
    }
  }

  lemma {:induction false} RemoveAbsent<V>(d: Dict<V>, k: string)
    ensures k !in Keys(d) ==> Remove(d, k) == d
    decreases |d|
  {
    if d != [] && k !in Keys(d) {
      var t := d[1..];
      assert d == [d[0]] + t;
      KeysCons(d[0], t);
      RemoveAbsent(t, k);
    }
  }

  /** Writing and deleting keep the keys distinct. */
  lemma {:induction false} DistinctPut<V>(d: Dict<V>, k: string, v: V)
    requires DistinctKeys(d)
    ensures DistinctKeys(Put(d, k, v))
    decreases |d|
  {
    if d != [] && d[0].0 != k {
      DistinctPut(d[1..], k, v);
      KeysPut(d[1..], k, v);
      var t := Put(d[1..], k, v);
      assert d[0].0 !in Keys(d[1..]);
      assert d[0].0 !in Keys(t);
      forall i, j | 0 <= i < j < |t| + 1 ensures ([d[0]] + t)[i].0 != ([d[0]] + t)[j].0 {
        if i == 0 { assert ([d[0]] + t)[j].0 == Keys(t)[j - 1]; }
      }
    }
  }

  lemma {:induction false} DistinctRemove<V>(d: Dict<V>, k: string)
    requires DistinctKeys(d)
    ensures DistinctKeys(Remove(d, k))
    decreases |d|
  {
    if d != [] {
      DistinctRemove(d[1..], k);
      if d[0].0 != k {
        KeysRemove(d[1..], k);
        var t := Remove(d[1..], k);
        assert d[0].0 !in Keys(d[1..]);
        assert d[0].0 !in Keys(t);
        forall i, j | 0 <= i < j < |t| + 1 ensures ([d[0]] + t)[i].0 != ([d[0]] + t)[j].0 {
          if i == 0 { assert ([d[0]] + t)[j].0 == Keys(t)[j - 1]; }
        }
      }
    }
  }

  lemma DistinctTail<V>(d: Dict<V>)
    requires d != [] && DistinctKeys(d)
    ensures DistinctKeys(d[1..])
  {
    forall i, j | 0 <= i < j < |d| - 1 ensures d[1..][i].0 != d[1..][j].0 { assert d[1..][i] == d[i + 1]; }
  }

  lemma RemoveHead<V>(e: (string, V), b: Dict<V>)
    requires DistinctKeys([e] + b)
    ensures Remove([e] + b, e.0) == b
  {
    var d := [e] + b;
    assert d[1..] == b;
    assert e.0 !in Keys(b) by {
      forall i | 0 <= i < |b| ensures b[i].0 != e.0 {
        assert d[0] == e && d[i + 1] == b[i];
      }
    }
    KeysRemove(b, e.0);
  }

  /** Deleting a key that is stored once removes exactly its entry. */
  lemma {:induction false} RemoveAt<V>(a: Dict<V>, e: (string, V), b: Dict<V>)
    requires DistinctKeys(a + [e] + b)
    ensures Remove(a + [e] + b, e.0) == a + b
    decreases |a|
  {
    var d := a + [e] + b;
    if a == [] {
      assert d == [e] + b;
      RemoveHead(e, b);
    } else {
      assert d[1..] == a[1..] + [e] + b;
      assert d[0].0 != e.0 by { assert d[|a|] == e; }
      DistinctTail(d);
      RemoveAt(a[1..], e, b);
      assert [a[0]] + (a[1..] + b) == a + b;
    }
  }
}
