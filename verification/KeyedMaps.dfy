/** Maps built from a list of keyed values, where a later value replaces an earlier one with the same key. */
module KeyedMaps {
  import opened Prelude

  datatype Keyed<V> = Keyed(key: string, value: V)

  function MapOf<V>(ks: seq<Keyed<V>>): map<string, V> {
    if ks == [] then map[] else
      var last := ks[|ks| - 1];
      MapOf(ks[..|ks| - 1])[last.key := last.value]
  }

  /** No value after index `i` has the same key. */
  ghost predicate Survives<V>(ks: seq<Keyed<V>>, i: nat)
    requires i < |ks|
  {
    forall j :: i < j < |ks| ==> ks[j].key != ks[i].key
  }

  /** Index `i` is where the value under `k` comes from. */
  ghost predicate Source<V>(ks: seq<Keyed<V>>, k: string, i: nat) {
    i < |ks| && Survives(ks, i) && ks[i].key == k
  }

  /** Every key of the map has a surviving source in the list. */
  lemma {:induction false} SourceOf<V>(ks: seq<Keyed<V>>, k: string) returns (i: nat)
    requires k in MapOf(ks)
    ensures Source(ks, k, i) && MapOf(ks)[k] == ks[i].value
  {
    var n := |ks| - 1;
    if k == ks[n].key {
      i := n;
    } else {
      i := SourceOf(ks[..n], k);
    }
  }

  /** Every key of the list is in the map, with its last value. */
  lemma {:induction false} KeyHeld<V>(ks: seq<Keyed<V>>, i: nat)
    requires i < |ks|
    ensures ks[i].key in MapOf(ks)
    ensures Survives(ks, i) ==> MapOf(ks)[ks[i].key] == ks[i].value
  {
    var n := |ks| - 1;
    if i < n {
      KeyHeld(ks[..n], i);
    }
  }

  /** What holds of all values of the map is what holds of all surviving values of the list. */
  lemma AllValues<V>(ks: seq<Keyed<V>>, p: V -> bool)
    ensures (forall k :: k in MapOf(ks) ==> p(MapOf(ks)[k]))
       <==> (forall i :: 0 <= i < |ks| && Survives(ks, i) ==> p(ks[i].value))
  {
    var m := MapOf(ks);
    if forall k :: k in m ==> p(m[k]) {
      forall i | 0 <= i < |ks| && Survives(ks, i)
        ensures p(ks[i].value)
      {
        KeyHeld(ks, i);
      }
    } else {
      var k :| k in m && !p(m[k]);
      var i := SourceOf(ks, k);
    }
  }

  ghost predicate DistinctKeys<V>(ks: seq<Keyed<V>>) {
    forall i, j :: 0 <= i < j < |ks| ==> ks[i].key != ks[j].key
  }

  lemma DistinctAppend(a: seq<string>, b: seq<string>)
    requires Distinct(a) && Distinct(b)
    requires forall k :: k in a ==> k !in b
    ensures Distinct(a + b)
  {
    var c := a + b;
    forall i, j | 0 <= i < j < |c|
      ensures c[i] != c[j]
    {
      if i < |a| && |a| <= j {
        assert c[i] in a && c[j] == b[j - |a|];
      }
    }
  }

  ghost predicate HasKey<V>(ks: seq<Keyed<V>>, k: string) {
    exists i :: 0 <= i < |ks| && ks[i].key == k
  }

  /** `m` has the values of `ks` under their keys. */
  ghost predicate Holds<V>(m: map<string, V>, ks: seq<Keyed<V>>) {
    forall i :: 0 <= i < |ks| ==> ks[i].key in m && m[ks[i].key] == ks[i].value
  }

  /** With distinct keys the map loses nothing. */
  lemma DistinctKeysSurvive<V>(ks: seq<Keyed<V>>)
    requires DistinctKeys(ks)
    ensures forall k :: k in MapOf(ks) <==> HasKey(ks, k)
    ensures Holds(MapOf(ks), ks)
  {
    forall i | 0 <= i < |ks|
      ensures ks[i].key in MapOf(ks) && MapOf(ks)[ks[i].key] == ks[i].value
    {
      KeyHeld(ks, i);
    }
    forall k | k in MapOf(ks)
      ensures HasKey(ks, k)
    {
      var i := SourceOf(ks, k);
    }
  }

  ghost function Values<V>(ks: seq<Keyed<V>>): seq<V> {
    seq(|ks|, i requires 0 <= i < |ks| => ks[i].value)
  }

  ghost function ValuesAt<V>(m: map<string, V>, keys: seq<string>): seq<V>
    requires forall k :: k in keys ==> k in m
  {
    seq(|keys|, i requires 0 <= i < |keys| => m[keys[i]])
  }

  ghost function Without<T>(s: seq<T>, i: nat): seq<T>
    requires i < |s|
  {
    s[..i] + s[i + 1..]
  }

  lemma WithoutOne<T>(s: seq<T>, i: nat)
    requires i < |s|
    ensures multiset(s) == multiset(Without(s, i)) + multiset{s[i]}
  {
    assert s == s[..i] + [s[i]] + s[i + 1..];
  }

  lemma WithoutKey(keys: seq<string>, i: nat)
    requires Distinct(keys) && i < |keys|
    ensures Distinct(Without(keys, i))
    ensures forall x :: x in Without(keys, i) <==> x in keys && x != keys[i]
  {
  }

  lemma ValuesWithout<V>(m: map<string, V>, keys: seq<string>, i: nat)
    requires Distinct(keys) && i < |keys|
    requires forall k :: k in keys ==> k in m
    ensures forall k :: k in Without(keys, i) ==> k in m
    ensures multiset(ValuesAt(m, keys)) == multiset(ValuesAt(m, Without(keys, i))) + multiset{m[keys[i]]}
  {
    WithoutKey(keys, i);
    WithoutOne(ValuesAt(m, keys), i);
    assert ValuesAt(m, Without(keys, i)) == Without(ValuesAt(m, keys), i);
  }

  /** `keys` lists the keys of `ks`, each once, in any order. */
  ghost predicate Lists<V>(keys: seq<string>, ks: seq<Keyed<V>>) {
    Distinct(keys) && forall k :: k in keys <==> HasKey(ks, k)
  }

  lemma WithoutLast<V>(ks: seq<Keyed<V>>)
    requires DistinctKeys(ks) && ks != []
    ensures var init := ks[..|ks| - 1];
            DistinctKeys(init) && forall k :: HasKey(init, k) <==> HasKey(ks, k) && k != ks[|ks| - 1].key
  {
  }

  /** Walking all keys once, in any order, visits exactly the values the map was built from. */
  lemma {:induction false} AllVisited<V>(ks: seq<Keyed<V>>, m: map<string, V>, keys: seq<string>)
    requires DistinctKeys(ks) && Lists(keys, ks) && Holds(m, ks)
    requires forall k :: k in keys ==> k in m
    ensures multiset(ValuesAt(m, keys)) == multiset(Values(ks))
  {
    if ks == [] {
      assert keys == [] by {
        assert forall k :: !HasKey(ks, k);
        assert forall k :: k in multiset(keys) ==> k in keys;
        assert multiset(keys) == multiset{} && |keys| == |multiset(keys)|;
      }
    } else {
      var n := |ks| - 1;
      assert HasKey(ks, ks[n].key);
      var i :| 0 <= i < |keys| && keys[i] == ks[n].key;
      ValuesWithout(m, keys, i);
      WithoutKey(keys, i);
      WithoutLast(ks);
      assert Values(ks) == Values(ks[..n]) + [ks[n].value];
      AllVisited(ks[..n], m, Without(keys, i));
    }
  }

  ghost function Mapped<V, W>(s: seq<V>, f: V -> W): seq<W> {
    seq(|s|, i requires 0 <= i < |s| => f(s[i]))
  }

  lemma MappedWithout<V, W>(s: seq<V>, i: nat, f: V -> W)
    requires i < |s|
    ensures multiset(Mapped(s, f)) == multiset(Mapped(Without(s, i), f)) + multiset{f(s[i])}
  {
    WithoutOne(Mapped(s, f), i);
    assert Mapped(Without(s, i), f) == Without(Mapped(s, f), i);
  }

  lemma {:induction false} MappedAlike<V, W>(a: seq<V>, b: seq<V>, f: V -> W)
    requires multiset(a) == multiset(b)
    ensures multiset(Mapped(a, f)) == multiset(Mapped(b, f))
  {
    if a == [] {
      assert |b| == |multiset(b)| == 0;
    } else {
      assert a[0] in multiset(b);
      var i :| 0 <= i < |b| && b[i] == a[0];
      WithoutOne(a, 0);
      WithoutOne(b, i);
      assert multiset(Without(a, 0)) == multiset(a) - multiset{a[0]};
      assert multiset(Without(b, i)) == multiset(b) - multiset{a[0]};
      MappedAlike(Without(a, 0), Without(b, i), f);
      MappedWithout(a, 0, f);
      MappedWithout(b, i, f);
    }
  }

  function MapValues<V, W>(m: map<string, V>, f: V -> W): map<string, W> {
    map k | k in m :: f(m[k])
  }

  /** One value that does not decode makes the whole map undecodable. */
  function DecodeValues<V, W(!new)>(m: map<string, V>, f: V -> Option<W>): Option<map<string, W>> {
    if forall k :: k in m ==> f(m[k]).Some? then Some(map k | k in m :: f(m[k]).value) else None
  }

  lemma DecodeEncoded<V(!new), W>(m: map<string, V>, encode: V -> W, decode: W -> Option<V>)
    requires forall k :: k in m ==> decode(encode(m[k])) == Some(m[k])
    ensures DecodeValues(MapValues(m, encode), decode) == Some(m)
  {
    assert DecodeValues(MapValues(m, encode), decode).value == m;
  }

  lemma DecodeFails<V(!new), W>(m: map<string, V>, encode: V -> W, decode: W -> Option<V>, k: string)
    requires k in m && decode(encode(m[k])) == None
    ensures DecodeValues(MapValues(m, encode), decode) == None
  {
    var f := MapValues(m, encode);
    assert k in f && decode(f[k]) == None;
  }
}
