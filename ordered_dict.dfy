/** Python's `dict`: a finite map that remembers the order in which keys were first inserted. */
module OrderedDict {
  import opened Wrappers

  /**
    `keys` lists every key once, in first-insertion order; `entries` holds
    the current value of each key.
   */
  datatype Dict<K(==, !new), V> = Dict(keys: seq<K>, entries: map<K, V>) {

    ghost predicate Valid() {
      && (forall i, j :: 0 <= i < j < |keys| ==> keys[i] != keys[j])
      && (forall k :: k in entries <==> k in keys)
    }

    /**
      `d[k] = v`: the new value replaces any old one; a new key goes to the
      end of the order, an existing key keeps its place.
     */
    function Put(k: K, v: V): (d: Dict<K, V>)
      ensures Valid() ==> d.Valid()
      ensures d.entries == entries[k := v]
      ensures k in entries ==> d.keys == keys
      ensures k !in entries ==> d.keys == keys + [k]
    {
      if k in entries then Dict(keys, entries[k := v]) else Dict(keys + [k], entries[k := v])
    }

    /** `list(d.values())`: one value per key, and every stored value among them. */
    function Values(): (vs: seq<V>)
      requires Valid()
      ensures |vs| == |keys| == |entries|
      ensures forall k :: k in entries ==> entries[k] in vs
    {
      var vs := seq(|keys|, i requires 0 <= i < |keys| => entries[keys[i]]);
      ValuesCover(keys, entries, vs);
      vs
    }
  }

  /** The values listed along a repetition-free key order that covers the map: one per key, and every stored value among them. */
  lemma ValuesCover<K, V>(keys: seq<K>, entries: map<K, V>, vs: seq<V>)
    requires forall i, j :: 0 <= i < j < |keys| ==> keys[i] != keys[j]
    requires forall k :: k in entries <==> k in keys
    requires |vs| == |keys| && forall i :: 0 <= i < |keys| ==> vs[i] == entries[keys[i]]
    ensures |vs| == |entries|
    ensures forall k :: k in entries ==> entries[k] in vs
  {
    DistinctCount(keys);
    assert entries.Keys == set k | k in keys;
    forall k | k in entries
      ensures entries[k] in vs
    {
      assert vs[IndexOf(keys, k)] == entries[k];
    }
  }

  /** A sequence without repetitions has as many distinct elements as positions. */
  lemma {:induction false} DistinctCount<K>(xs: seq<K>)
    requires forall i, j :: 0 <= i < j < |xs| ==> xs[i] != xs[j]
    ensures |set x | x in xs| == |xs|
  {
    if xs != [] {
      var m := |xs| - 1;
      var p := xs[..m];
      DistinctCount(p);
      assert forall i :: 0 <= i < m ==> p[i] == xs[i];
      assert xs[m] !in p;
      assert (set x | x in xs) == (set x | x in p) + {xs[m]};
    }
  }

  /** `{}` */
  function Empty<K(==, !new), V>(): (d: Dict<K, V>)
    ensures d.Valid() && d.keys == [] && d.entries == map[]
  {
    Dict([], map[])
  }

  /** The position of key `k` in the order `keys`. */
  function IndexOf<K(==)>(keys: seq<K>, k: K): (i: nat)
    requires k in keys
    ensures i < |keys| && keys[i] == k
    ensures forall j :: 0 <= j < i ==> keys[j] != k
  {
    if keys[0] == k then 0 else 1 + IndexOf(keys[1..], k)
  }

  /** A key keeps its position when more keys are added after it. */
  lemma IndexOfPrefix<K>(keys: seq<K>, longer: seq<K>, k: K)
    requires k in keys && keys <= longer
    ensures k in longer && IndexOf(longer, k) == IndexOf(keys, k)
  {
    var i := IndexOf(keys, k);
    assert longer[i] == k;
  }

  /** A key put for the first time comes after every key already present. */
  lemma PutNewKeyOrder<K(!new), V>(d: Dict<K, V>, k: K, v: V, old_key: K)
    requires d.Valid() && old_key in d.entries && k !in d.entries
    ensures k in d.Put(k, v).keys && old_key in d.Put(k, v).keys
    ensures IndexOf(d.Put(k, v).keys, old_key) < IndexOf(d.Put(k, v).keys, k)
  {
    var keys := d.Put(k, v).keys;
    assert keys == d.keys + [k];
    IndexOfPrefix(d.keys, keys, old_key);
    assert keys[|d.keys|] == k;
  }

  // ---------------------------------------------------------------- filling a dict in a loop

  /**
    `for x in xs: d[key(x)] = x` on an empty dict, where computing a key may
    raise: the dict after the loop, or the exception of the first key that
    raises.
   */
  function PutAll<X, K(==, !new), E>(xs: seq<X>, key: X -> Result<K, E>): Result<Dict<K, X>, E> {
    if xs == [] then Ok(Empty())
    else
      var d :- PutAll(xs[..|xs| - 1], key);
      var k :- key(xs[|xs| - 1]);
      Ok(d.Put(k, xs[|xs| - 1]))
  }

  /** The dict after the loop is valid, and every key maps to an element whose key it is. */
  lemma {:induction false} PutAllValid<X, K(!new), E>(xs: seq<X>, key: X -> Result<K, E>)
    ensures PutAll(xs, key).Ok? ==> PutAll(xs, key).value.Valid()
    ensures PutAll(xs, key).Ok? ==>
      forall k :: k in PutAll(xs, key).value.entries ==> key(PutAll(xs, key).value.entries[k]) == Ok(k)
  {
    if xs != [] {
      PutAllValid(xs[..|xs| - 1], key);
    }
  }

  /** One more element: the dict grows by one `Put`, or the key raises. */
  lemma PutAllStep<X, K(!new), E>(xs: seq<X>, key: X -> Result<K, E>, i: nat)
    requires i < |xs|
    ensures PutAll(xs[..i], key).Err? ==> PutAll(xs[..i + 1], key) == Err(PutAll(xs[..i], key).error)
    ensures PutAll(xs[..i], key).Ok? && key(xs[i]).Err? ==> PutAll(xs[..i + 1], key) == Err(key(xs[i]).error)
    ensures PutAll(xs[..i], key).Ok? && key(xs[i]).Ok? ==>
      PutAll(xs[..i + 1], key) == Ok(PutAll(xs[..i], key).value.Put(key(xs[i]).value, xs[i]))
  {
    assert xs[..i + 1][..i] == xs[..i];
  }

  /** Once a prefix raises, the whole loop raises the same exception. */
  lemma {:induction false} PutAllErrorSticks<X, K(!new), E>(xs: seq<X>, key: X -> Result<K, E>, i: nat)
    requires i <= |xs|
    requires PutAll(xs[..i], key).Err?
    ensures PutAll(xs, key) == PutAll(xs[..i], key)
    decreases |xs| - i
  {
    if i < |xs| {
      PutAllStep(xs, key, i);
      PutAllErrorSticks(xs, key, i + 1);
    } else {
      assert xs[..i] == xs;
    }
  }

  /** The loop finishes exactly when no key raises. */
  lemma {:induction false} PutAllOkIff<X, K(!new), E>(xs: seq<X>, key: X -> Result<K, E>)
    ensures PutAll(xs, key).Ok? <==> forall j :: 0 <= j < |xs| ==> key(xs[j]).Ok?
  {
    if xs != [] {
      var m := |xs| - 1;
      var p := xs[..m];
      PutAllOkIff(p, key);
      assert forall j :: 0 <= j < |p| ==> p[j] == xs[j];
      PutAllStep(xs, key, m);
      assert xs[..m + 1] == xs;
    }
  }

  /** The exception raised is that of the first element whose key raises. */
  lemma PutAllFirstError<X, K(!new), E>(xs: seq<X>, key: X -> Result<K, E>, j: nat)
    requires j < |xs| && key(xs[j]).Err?
    requires forall i :: 0 <= i < j ==> key(xs[i]).Ok?
    ensures PutAll(xs, key) == Err(key(xs[j]).error)
  {
    var p := xs[..j];
    assert forall i :: 0 <= i < |p| ==> p[i] == xs[i];
    PutAllOkIff(p, key);
    PutAllStep(xs, key, j);
    PutAllErrorSticks(xs, key, j + 1);
  }

  /** The keys of the dict are exactly the keys of the elements. */
  lemma {:induction false} PutAllKeys<X, K(!new), E>(xs: seq<X>, key: X -> Result<K, E>, k: K)
    requires PutAll(xs, key).Ok?
    ensures k in PutAll(xs, key).value.entries <==> exists j :: 0 <= j < |xs| && key(xs[j]) == Ok(k)
  {
    if xs != [] {
      var m := |xs| - 1;
      var p := xs[..m];
      assert forall j :: 0 <= j < |p| ==> p[j] == xs[j];
      PutAllKeys(p, key, k);
      if key(xs[m]) == Ok(k) {
        assert PutAll(xs, key).value.entries == PutAll(p, key).value.entries[k := xs[m]];
      }
    }
  }

  /** On duplicate keys the last element wins. */
  lemma {:induction false} PutAllLastWins<X, K(!new), E>(xs: seq<X>, key: X -> Result<K, E>, j: nat)
    requires PutAll(xs, key).Ok?
    requires j < |xs|
    requires forall i :: j < i < |xs| ==> key(xs[i]) != key(xs[j])
    ensures key(xs[j]).Ok?
    ensures key(xs[j]).value in PutAll(xs, key).value.entries
    ensures PutAll(xs, key).value.entries[key(xs[j]).value] == xs[j]
  {
    PutAllOkIff(xs, key);
    var m := |xs| - 1;
    if j < m {
      var p := xs[..m];
      assert forall i :: 0 <= i < |p| ==> p[i] == xs[i];
      PutAllLastWins(p, key, j);
      assert key(xs[m]) != key(xs[j]);
    }
  }

  /** Running the loop further only appends keys: a prefix's order is a prefix of the final order. */
  lemma {:induction false} PutAllKeysGrow<X, K(!new), E>(xs: seq<X>, key: X -> Result<K, E>, i: nat)
    requires i <= |xs|
    requires PutAll(xs, key).Ok?
    ensures PutAll(xs[..i], key).Ok?
    ensures PutAll(xs[..i], key).value.keys <= PutAll(xs, key).value.keys
    decreases |xs| - i
  {
    if i == |xs| {
      assert xs[..i] == xs;
    } else {
      PutAllKeysGrow(xs, key, i + 1);
      PutAllStep(xs, key, i);
    }
  }

  /**
    Keys keep the order in which they were first seen: a key first produced
    by element `a` comes before one first produced by a later element `b`.
   */
  lemma PutAllFirstSeenOrder<X, K(!new), E>(xs: seq<X>, key: X -> Result<K, E>, a: nat, b: nat)
    requires PutAll(xs, key).Ok?
    requires a < b < |xs|
    requires forall i :: 0 <= i < b ==> key(xs[i]) != key(xs[b])
    ensures key(xs[a]).Ok? && key(xs[b]).Ok?
    ensures key(xs[a]).value in PutAll(xs, key).value.keys
    ensures key(xs[b]).value in PutAll(xs, key).value.keys
    ensures IndexOf(PutAll(xs, key).value.keys, key(xs[a]).value)
          < IndexOf(PutAll(xs, key).value.keys, key(xs[b]).value)
  {
    PutAllOkIff(xs, key);
    var ka, kb := key(xs[a]).value, key(xs[b]).value;
    PutAllOkIff(xs[..b], key);
    var db := PutAll(xs[..b], key).value;
    assert ka in db.entries && kb !in db.entries by {
      var pb := xs[..b];
      assert forall j :: 0 <= j < |pb| ==> pb[j] == xs[j];
      PutAllKeys(pb, key, ka);
      PutAllKeys(pb, key, kb);
    }
    PutAllNewKeyOrder(xs, key, b, ka);
  }

  /** A key new at element `b` ends up after every key present before `b`. */
  lemma PutAllNewKeyOrder<X, K(!new), E>(xs: seq<X>, key: X -> Result<K, E>, b: nat, old_key: K)
    requires PutAll(xs, key).Ok?
    requires b < |xs|
    requires PutAll(xs[..b], key).Ok? && old_key in PutAll(xs[..b], key).value.entries
    requires key(xs[b]).Ok? && key(xs[b]).value !in PutAll(xs[..b], key).value.entries
    ensures old_key in PutAll(xs, key).value.keys
    ensures key(xs[b]).value in PutAll(xs, key).value.keys
    ensures IndexOf(PutAll(xs, key).value.keys, old_key) < IndexOf(PutAll(xs, key).value.keys, key(xs[b]).value)
  {
    var db := PutAll(xs[..b], key).value;
    var kb := key(xs[b]).value;
    PutAllValid(xs[..b], key);
    PutAllStep(xs, key, b);
    var db1 := db.Put(kb, xs[b]);
    PutNewKeyOrder(db, kb, xs[b], old_key);
    PutAllKeysGrow(xs, key, b + 1);
    var d := PutAll(xs, key).value;
    IndexOfPrefix(db1.keys, d.keys, old_key);
    IndexOfPrefix(db1.keys, d.keys, kb);
  }
}
