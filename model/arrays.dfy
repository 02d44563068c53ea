/** PHP arrays with string keys: a map that remembers the order in which
    its keys were first inserted. */
module Arrays {
  import opened Base

  datatype Dict<V> = Dict(keys: seq<string>, m: map<string, V>)

  ghost predicate ValidDict<V>(d: Dict<V>) {
    (forall i, j :: 0 <= i < j < |d.keys| ==> d.keys[i] != d.keys[j]) &&
    (forall k :: k in d.m <==> k in d.keys)
  }

  function Empty<V>(): (d: Dict<V>)
    ensures ValidDict(d) && d.keys == []
  {
    Dict([], map[])
  }

  /** `$a[$k] = $v`: a new key goes last, an existing key keeps its place. */
  function Put<V>(d: Dict<V>, k: string, v: V): (r: Dict<V>)
    requires ValidDict(d)
    ensures ValidDict(r)
    ensures r.m == d.m[k := v]
    ensures k in d.m ==> r.keys == d.keys
    ensures k !in d.m ==> r.keys == d.keys + [k]
  {
    Dict(if k in d.keys then d.keys else d.keys + [k], d.m[k := v])
  }

  /** `unset` of one key in a list of keys: exactly the other keys remain,
      and distinct keys stay distinct. */
  function RemoveFrom(keys: seq<string>, k: string): (r: seq<string>)
    ensures forall x :: x in r <==> x in keys && x != k
    ensures Distinct(keys) ==> Distinct(r)
    ensures |r| <= |keys|
  {
    if |keys| == 0 then []
    else if keys[0] == k then RemoveFrom(keys[1..], k)
    else
      assert Distinct(keys) ==> keys[0] !in keys[1..];
      [keys[0]] + RemoveFrom(keys[1..], k)
  }

  /** Without the key nothing changes; with a distinct key, one fewer
      remains. */
  lemma {:induction false} RemoveFromKeeps(keys: seq<string>, k: string)
    ensures var r := RemoveFrom(keys, k);
      (k !in keys ==> r == keys) &&
      (k in keys && Distinct(keys) ==> |r| == |keys| - 1)
  {
    if |keys| > 0 {
      var tail := keys[1..];
      RemoveFromKeeps(tail, k);
      assert keys == [keys[0]] + tail;
      if Distinct(keys) {
        assert Distinct(tail) by {
          forall i, j | 0 <= i < j < |tail| ensures tail[i] != tail[j] {
            assert tail[i] == keys[i + 1] && tail[j] == keys[j + 1];
          }
        }
      }
    }
  }

  /** The other keys keep their order: removing k from a + [k] + b, with k
      in neither part, leaves exactly a + b. */
  lemma {:induction false} RemoveFromKeepsOrder(a: seq<string>, k: string, b: seq<string>)
    ensures k !in a && k !in b ==> RemoveFrom(a + [k] + b, k) == a + b
  {
    if k !in a && k !in b {
      var s := a + [k] + b;
      if |a| == 0 {
        assert s[1..] == b;
        RemoveFromKeeps(b, k);
      } else {
        assert s[0] == a[0] && s[1..] == a[1..] + [k] + b;
        RemoveFromKeepsOrder(a[1..], k, b);
        assert a == [a[0]] + a[1..];
      }
    }
  }

  /** `unset($a[$k])`: silent when the key is absent. */
  function Remove<V>(d: Dict<V>, k: string): (r: Dict<V>)
    requires ValidDict(d)
    ensures ValidDict(r)
    ensures r.m == d.m - {k}
    ensures k !in d.m ==> r == d
    ensures k in d.m ==> |r.keys| == |d.keys| - 1
  {
    if k in d.m then
      var keys := RemoveFrom(d.keys, k);
      assert Distinct(d.keys);
      assert |keys| == |d.keys| - 1 by { RemoveFromKeeps(d.keys, k); }
      Dict(keys, d.m - {k})
    else d
  }

  /** The values in key order (`foreach ($a as $v)`). */
  function Values<V>(d: Dict<V>): (vs: seq<V>)
    requires ValidDict(d)
    ensures |vs| == |d.keys|
    ensures forall i :: 0 <= i < |vs| ==> vs[i] == d.m[d.keys[i]]
  {
    seq(|d.keys|, i requires 0 <= i < |d.keys| => d.m[d.keys[i]])
  }

  /** The key/value pairs in key order (`foreach ($a as $k => $v)`). */
  function Entries<V>(d: Dict<V>): (es: seq<(string, V)>)
    requires ValidDict(d)
    ensures |es| == |d.keys|
    ensures forall i :: 0 <= i < |es| ==> es[i] == (d.keys[i], d.m[d.keys[i]])
  {
    seq(|d.keys|, i requires 0 <= i < |d.keys| => (d.keys[i], d.m[d.keys[i]]))
  }

  /** The values in key order, for a Dict that may not be well formed:
      keys without an entry are skipped. */
  function PresentValues<V>(d: Dict<V>): (vs: seq<V>)
    ensures ValidDict(d) ==> vs == Values(d)
  {
    PresentValuesOf(d.keys, d.m)
  }

  function PresentValuesOf<V>(keys: seq<string>, m: map<string, V>): (vs: seq<V>)
    ensures (forall i :: 0 <= i < |keys| ==> keys[i] in m) ==>
      |vs| == |keys| && forall i :: 0 <= i < |keys| ==> vs[i] == m[keys[i]]
  {
    if |keys| == 0 then []
    else (if keys[0] in m then [m[keys[0]]] else []) + PresentValuesOf(keys[1..], m)
  }

  /** A Dict built from the keys and values of an ordered list of pairs,
      a later pair overwriting an earlier one with the same key. */
  function FromPairs<V>(ps: seq<(string, V)>): (d: Dict<V>)
    ensures ValidDict(d)
    ensures forall k :: k in d.m <==> exists i :: 0 <= i < |ps| && ps[i].0 == k
  {
    if |ps| == 0 then Empty()
    else
      var d0 := FromPairs(ps[..|ps| - 1]);
      assert forall i :: 0 <= i < |ps| - 1 ==> ps[..|ps| - 1][i] == ps[i];
      Put(d0, ps[|ps| - 1].0, ps[|ps| - 1].1)
  }
}
