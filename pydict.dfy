/** Python's `dict` with string keys, as the ingesters and configure.py use it:
    an insertion-ordered association list. Assigning to a key that is already
    present replaces its value and keeps its position; a new key goes last. */
module PyDict {
  import opened Base

  type Dict<V> = seq<(string, V)>

  function Keys<V>(d: Dict<V>): (ks: seq<string>)
    ensures |ks| == |d|
    ensures forall i :: 0 <= i < |d| ==> ks[i] == d[i].0
  {
    if |d| == 0 then [] else [d[0].0] + Keys(d[1..])
  }

  function KeySet<V>(d: Dict<V>): (ks: set<string>)
    ensures forall i :: 0 <= i < |d| ==> d[i].0 in ks
  {
    if |d| == 0 then {} else {d[0].0} + KeySet(d[1..])
  }

  /** A key is in `KeySet(d)` exactly when some entry carries it. */
  lemma {:induction false} KeySetMember<V>(d: Dict<V>, k: string)
    ensures k in KeySet(d) <==> exists i :: 0 <= i < |d| && d[i].0 == k
  {
    if |d| > 0 && d[0].0 != k {
      KeySetMember(d[1..], k);
      if k in KeySet(d) {
        var i :| 0 <= i < |d[1..]| && d[1..][i].0 == k;
        assert d[i + 1].0 == k;
      }
    }
  }

  /** No key occurs twice: every dict the code builds has this shape. */
  predicate UniqueKeys<V>(d: Dict<V>)
  {
    forall i, j :: 0 <= i < j < |d| ==> d[i].0 != d[j].0
  }

  /** `d.get(k)`: the value stored under `k`, or None when `k` is absent. */
  function Get<V>(d: Dict<V>, k: string): (r: Option<V>)
    ensures r.Some? <==> k in KeySet(d)
  {
    if |d| == 0 then None
    else if d[0].0 == k then Some(d[0].1)
    else Get(d[1..], k)
  }

  /** In a dict without repeated keys, the value `Get` finds is the one stored
      beside the key, wherever it stands. */
  lemma {:induction false} GetAt<V>(d: Dict<V>, i: nat)
    requires UniqueKeys(d) && i < |d|
    ensures Get(d, d[i].0) == Some(d[i].1)
  {
    if i > 0 {
      assert UniqueKeys(d[1..]);
      GetAt(d[1..], i - 1);
    }
  }

  /** `d[k] = v`. */
  function Insert<V>(d: Dict<V>, k: string, v: V): (r: Dict<V>)
    ensures KeySet(r) == KeySet(d) + {k}
    ensures k in KeySet(d) ==> Keys(r) == Keys(d)
    ensures k !in KeySet(d) ==> Keys(r) == Keys(d) + [k]
  {
    if |d| == 0 then [(k, v)]
    else if d[0].0 == k then [(k, v)] + d[1..]
    else [d[0]] + Insert(d[1..], k, v)
  }

  /** After `d[k] = v`, looking up `k` gives `v` and every other key is untouched. */
  lemma {:induction false} InsertGet<V>(d: Dict<V>, k: string, v: V, k': string)
    ensures Get(Insert(d, k, v), k') == if k' == k then Some(v) else Get(d, k')
  {
    if |d| > 0 && d[0].0 != k {
      InsertGet(d[1..], k, v, k');
    }
  }

  /** Assignment never introduces a repeated key. */
  lemma {:induction false} InsertUnique<V>(d: Dict<V>, k: string, v: V)
    requires UniqueKeys(d)
    ensures UniqueKeys(Insert(d, k, v))
  {
    if |d| > 0 && d[0].0 != k {
      assert UniqueKeys(d[1..]);
      InsertUnique(d[1..], k, v);
      var r := Insert(d, k, v);
      KeySetMember(d[1..], d[0].0);
      assert d[0].0 !in KeySet(Insert(d[1..], k, v));
      forall i, j | 0 <= i < j < |r| ensures r[i].0 != r[j].0 {
        if i == 0 {
          assert r[j].0 in KeySet(Insert(d[1..], k, v)) by {
            assert r[j] == Insert(d[1..], k, v)[j - 1];
          }
        }
      }
    }
  }

  /** `del d[k]`. */
  function Remove<V>(d: Dict<V>, k: string): (r: Dict<V>)
    ensures k !in KeySet(d) ==> r == d
    ensures KeySet(r) <= KeySet(d)
    ensures |r| <= |d|
  {
    if |d| == 0 then []
    else if d[0].0 == k then d[1..]
    else [d[0]] + Remove(d[1..], k)
  }

  /** Deleting the key stored at position `i` removes exactly that entry and keeps
      the order of the rest. */
  lemma {:induction false} RemoveAt<V>(d: Dict<V>, i: nat)
    requires UniqueKeys(d) && i < |d|
    ensures Remove(d, d[i].0) == d[..i] + d[i + 1..]
  {
    if i > 0 {
      var k := d[i].0;
      var t := d[1..];
      assert UniqueKeys(t);
      assert t[i - 1] == d[i];
      RemoveAt(t, i - 1);
      assert d[0].0 != k;
      assert Remove(d, k) == [d[0]] + Remove(t, k);
      DropAfterHead(d, i);
    }
  }

  lemma DropAfterHead<T>(s: seq<T>, i: nat)
    requires 0 < i < |s|
    ensures [s[0]] + (s[1..][..i - 1] + s[1..][i..]) == s[..i] + s[i + 1..]
  {
    assert s[..i] == [s[0]] + s[1..][..i - 1];
    assert s[i + 1..] == s[1..][i..];
  }

  /** In a dict without repeated keys, deletion takes the key out and leaves every other entry. */
  lemma {:induction false} RemoveGet<V>(d: Dict<V>, k: string, k': string)
    requires UniqueKeys(d)
    ensures UniqueKeys(Remove(d, k))
    ensures Get(Remove(d, k), k') == if k' == k then None else Get(d, k')
  {
    if |d| > 0 {
      assert UniqueKeys(d[1..]);
      if d[0].0 == k {
        KeySetMember(d[1..], k);
      } else {
        RemoveGet(d[1..], k, k');
        KeySetMember(d[1..], d[0].0);
        assert d[0].0 !in KeySet(Remove(d[1..], k));
        var r := Remove(d, k);
        forall i, j | 0 <= i < j < |r| ensures r[i].0 != r[j].0 {
          if i == 0 {
            assert r[j] == Remove(d[1..], k)[j - 1];
          }
        }
      }
    }
  }

  lemma RemoveGets<V>(d: Dict<V>, k: string)
    requires UniqueKeys(d)
    ensures UniqueKeys(Remove(d, k))
    ensures forall k' :: Get(Remove(d, k), k') == if k' == k then None else Get(d, k')
  {
    forall k' ensures Get(Remove(d, k), k') == if k' == k then None else Get(d, k') {
      RemoveGet(d, k, k');
    }
    RemoveGet(d, k, k);
  }

  /** `d[k] = v` for a key not yet present appends the entry. */
  lemma {:induction false} InsertNew<V>(d: Dict<V>, k: string, v: V)
    requires k !in KeySet(d)
    ensures Insert(d, k, v) == d + [(k, v)]
  {
    if |d| > 0 {
      assert d[0].0 != k;
      assert k !in KeySet(d[1..]);
      InsertNew(d[1..], k, v);
      assert [d[0]] + (d[1..] + [(k, v)]) == d + [(k, v)];
    }
  }

  /** A dict whose last key is new to the rest is that rest with the last
      entry inserted. */
  lemma InsertLast<V>(d: Dict<V>)
    requires |d| > 0 && d[|d| - 1].0 !in KeySet(d[..|d| - 1])
    ensures Insert(d[..|d| - 1], d[|d| - 1].0, d[|d| - 1].1) == d
  {
    var n := |d| - 1;
    InsertNew(d[..n], d[n].0, d[n].1);
    assert d[..n] + [(d[n].0, d[n].1)] == d;
  }

  lemma {:induction false} KeySetAppend<V>(a: Dict<V>, b: Dict<V>)
    ensures KeySet(a + b) == KeySet(a) + KeySet(b)
  {
    if |a| > 0 {
      KeySetAppend(a[1..], b);
      assert (a + b)[1..] == a[1..] + b;
    } else {
      assert a + b == b;
    }
  }

  lemma {:induction false} GetAppend<V>(a: Dict<V>, b: Dict<V>, k: string)
    ensures Get(a + b, k) == if Get(a, k).Some? then Get(a, k) else Get(b, k)
  {
    if |a| > 0 {
      GetAppend(a[1..], b, k);
      assert (a + b)[1..] == a[1..] + b;
    } else {
      assert a + b == b;
    }
  }

  /** Two dicts without repeated keys and without a common key make one. */
  lemma UniqueAppend<V>(a: Dict<V>, b: Dict<V>)
    requires UniqueKeys(a) && UniqueKeys(b)
    requires forall i :: 0 <= i < |b| ==> b[i].0 !in KeySet(a)
    ensures UniqueKeys(a + b)
  {
    forall i, j | 0 <= i < j < |a + b| ensures (a + b)[i].0 != (a + b)[j].0 {
      if i < |a| && j >= |a| {
        assert (a + b)[j] == b[j - |a|];
        assert a[i].0 in KeySet(a);
      }
    }
  }

  /** The entries whose key is not among `ks`, in order: what is left of `d`
      after `del d[k]` for each `k` of `ks` that it holds. */
  function Without<V>(d: Dict<V>, ks: seq<string>): (r: Dict<V>)
    ensures forall i :: 0 <= i < |r| ==> r[i].0 !in ks
    decreases |d|
  {
    if |d| == 0 then []
    else (if d[0].0 in ks then [] else [d[0]]) + Without(d[1..], ks)
  }

  lemma {:induction false} WithoutGet<V>(d: Dict<V>, ks: seq<string>, k: string)
    ensures Get(Without(d, ks), k) == if k in ks then None else Get(d, k)
  {
    if |d| > 0 {
      WithoutGet(d[1..], ks, k);
      var rest := Without(d[1..], ks);
      if d[0].0 !in ks {
        assert Without(d, ks) == [d[0]] + rest;
        assert ([d[0]] + rest)[1..] == rest;
      } else {
        assert Without(d, ks) == rest;
      }
    }
  }

  lemma WithoutGets<V>(d: Dict<V>, ks: seq<string>)
    ensures forall k :: Get(Without(d, ks), k) == if k in ks then None else Get(d, k)
  {
    forall k ensures Get(Without(d, ks), k) == if k in ks then None else Get(d, k) {
      WithoutGet(d, ks, k);
    }
  }

  lemma {:induction false} WithoutAppend<V>(a: Dict<V>, b: Dict<V>, ks: seq<string>)
    ensures Without(a + b, ks) == Without(a, ks) + Without(b, ks)
  {
    if |a| > 0 {
      WithoutAppend(a[1..], b, ks);
      assert (a + b)[1..] == a[1..] + b;
      assert (a + b)[0] == a[0];
    } else {
      assert a + b == b;
    }
  }

  /** Leaving out keys that do not occur changes nothing. */
  lemma {:induction false} WithoutNone<V>(d: Dict<V>, ks: seq<string>)
    requires forall i :: 0 <= i < |d| ==> d[i].0 !in ks
    ensures Without(d, ks) == d
  {
    if |d| > 0 {
      WithoutNone(d[1..], ks);
    }
  }

  /** Leaving out every key that occurs leaves nothing. */
  lemma {:induction false} WithoutAll<V>(d: Dict<V>, ks: seq<string>)
    requires forall i :: 0 <= i < |d| ==> d[i].0 in ks
    ensures Without(d, ks) == []
  {
    if |d| > 0 {
      WithoutAll(d[1..], ks);
    }
  }

  /** A key the dict does not hold may be left out or not: the same entries remain. */
  lemma {:induction false} WithoutAbsent<V>(d: Dict<V>, ks: seq<string>, k: string)
    requires k !in KeySet(d)
    ensures Without(d, ks + [k]) == Without(d, ks)
  {
    if |d| > 0 {
      WithoutAbsent(d[1..], ks, k);
      assert d[0].0 in ks + [k] <==> d[0].0 in ks;
    }
  }

  /** Deleting one more key from what is left is leaving that key out as well. */
  lemma {:induction false} RemoveWithout<V>(d: Dict<V>, ks: seq<string>, k: string)
    requires UniqueKeys(d)
    ensures Remove(Without(d, ks), k) == Without(d, ks + [k])
  {
    if |d| > 0 {
      assert UniqueKeys(d[1..]);
      if d[0].0 == k && k !in ks {
        RemoveWithoutHead(d, ks, k);
      } else {
        RemoveWithout(d[1..], ks, k);
        if d[0].0 in ks {
          assert Without(d, ks) == Without(d[1..], ks);
          assert Without(d, ks + [k]) == Without(d[1..], ks + [k]);
        } else {
          assert Without(d, ks) == [d[0]] + Without(d[1..], ks);
          assert d[0].0 !in ks + [k];
        }
      }
    }
  }

  lemma RemoveWithoutHead<V>(d: Dict<V>, ks: seq<string>, k: string)
    requires UniqueKeys(d) && |d| > 0 && d[0].0 == k && k !in ks
    ensures Remove(Without(d, ks), k) == Without(d, ks + [k])
  {
    assert UniqueKeys(d[1..]);
    KeySetMember(d[1..], k);
    WithoutAbsent(d[1..], ks, k);
    assert Without(d, ks) == [d[0]] + Without(d[1..], ks);
  }

  lemma {:induction false} WithoutKeys<V>(d: Dict<V>, ks: seq<string>)
    ensures KeySet(Without(d, ks)) <= KeySet(d)
  {
    if |d| > 0 {
      WithoutKeys(d[1..], ks);
      KeySetAppend(if d[0].0 in ks then [] else [d[0]], Without(d[1..], ks));
    }
  }

  lemma {:induction false} WithoutUnique<V>(d: Dict<V>, ks: seq<string>)
    requires UniqueKeys(d)
    ensures UniqueKeys(Without(d, ks))
  {
    if |d| > 0 {
      assert UniqueKeys(d[1..]);
      WithoutUnique(d[1..], ks);
      WithoutKeys(d[1..], ks);
      KeySetMember(d[1..], d[0].0);
      var head: Dict<V> := if d[0].0 in ks then [] else [d[0]];
      UniqueAppend(head, Without(d[1..], ks));
    }
  }
}
