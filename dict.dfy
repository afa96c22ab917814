/**
 * A Python dict with string keys is a map whose keys remember their insertion order. Here it
 * is a `map` together with the sequence of its keys in that order.
 */
module Dict {

  ghost predicate Distinct(ks: seq<string>) {
    forall i, j :: 0 <= i < j < |ks| ==> ks[i] != ks[j]
  }

  /** `order` lists every key of `m` exactly once. */
  ghost predicate Ordered<V>(m: map<string, V>, order: seq<string>) {
    && Distinct(order)
    && (forall k :: k in m <==> k in order)
  }

  /** `d.values()`: the values in key order (keys missing from `m` are skipped). */
  function Values<V>(m: map<string, V>, order: seq<string>): (r: seq<V>)
    ensures |r| <= |order|
    ensures forall v :: v in r ==> exists k :: k in order && k in m && m[k] == v
    ensures (forall k :: k in order ==> k in m) ==>
              |r| == |order| && forall i :: 0 <= i < |order| ==> r[i] == m[order[i]]
  {
    if order == [] then []
    else (if order[0] in m then [m[order[0]]] else []) + Values(m, order[1..])
  }

  /** `d.values()` follows the key order: the values for a concatenation of key lists are the concatenation of the values. */
  lemma {:induction false} ValuesAppend<V>(m: map<string, V>, xs: seq<string>, ys: seq<string>)
    ensures Values(m, xs + ys) == Values(m, xs) + Values(m, ys)
  {
    if xs == [] {
      assert xs + ys == ys;
    } else {
      var zs := xs + ys;
      assert zs[0] == xs[0] && zs[1..] == xs[1..] + ys;
      ValuesAppend(m, xs[1..], ys);
      assert Values(m, zs) == (if xs[0] in m then [m[xs[0]]] else []) + Values(m, xs[1..] + ys);
    }
  }

  /** Every value of an ordered dict shows up in `d.values()`. */
  lemma ValuesComplete<V>(m: map<string, V>, order: seq<string>, k: string)
    requires Ordered(m, order) && k in m
    ensures m[k] in Values(m, order)
  {
    var i :| 0 <= i < |order| && order[i] == k;
    assert Values(m, order)[i] == m[k];
  }

  /** `d.values()` from position `i` of the key order on, one key at a time. */
  lemma ValuesFrom<V>(m: map<string, V>, order: seq<string>, i: nat)
    requires i < |order|
    ensures Values(m, order[i..]) == (if order[i] in m then [m[order[i]]] else []) + Values(m, order[i + 1..])
  {
    assert order[i..][0] == order[i];
    assert order[i..][1..] == order[i + 1..];
  }

  /** `del d[k]` on the key order. */
  function RemoveKey(order: seq<string>, k: string): (r: seq<string>)
    ensures forall x :: x in r <==> x in order && x != k
    ensures |r| <= |order|
  {
    if order == [] then []
    else (if order[0] == k then [] else [order[0]]) + RemoveKey(order[1..], k)
  }

  /** `del` keeps the order of the other keys: the result for a concatenation is the concatenation of the results. */
  lemma {:induction false} RemoveKeyAppend(xs: seq<string>, ys: seq<string>, k: string)
    ensures RemoveKey(xs + ys, k) == RemoveKey(xs, k) + RemoveKey(ys, k)
  {
    if xs == [] {
      assert xs + ys == ys;
    } else {
      var zs := xs + ys;
      assert zs[0] == xs[0] && zs[1..] == xs[1..] + ys;
      RemoveKeyAppend(xs[1..], ys, k);
      assert RemoveKey(zs, k) == (if xs[0] == k then [] else [xs[0]]) + RemoveKey(xs[1..] + ys, k);
    }
  }

  lemma {:induction false} RemoveKeyAbsent(order: seq<string>, k: string)
    requires k !in order
    ensures RemoveKey(order, k) == order
  {
    if order != [] {
      RemoveKeyAbsent(order[1..], k);
    }
  }

  /** The position of the first occurrence of `k`. */
  function IndexOf(order: seq<string>, k: string): (i: nat)
    requires k in order
    ensures i < |order| && order[i] == k && k !in order[..i]
  {
    if order[0] == k then 0 else 1 + IndexOf(order[1..], k)
  }

  /** In a key order without repeats, `del d[k]` cuts out exactly the position that holds `k`. */
  lemma {:induction false} RemoveKeyAt(order: seq<string>, k: string)
    requires Distinct(order) && k in order
    ensures var i := IndexOf(order, k); RemoveKey(order, k) == order[..i] + order[i + 1..]
  {
    var rest := order[1..];
    if order[0] == k {
      assert k !in rest by {
        forall j | 0 <= j < |rest| ensures rest[j] != k {
          assert rest[j] == order[j + 1];
        }
      }
      RemoveKeyAbsent(rest, k);
    } else {
      assert Distinct(rest) by {
        forall a, b | 0 <= a < b < |rest| ensures rest[a] != rest[b] {
          assert rest[a] == order[a + 1] && rest[b] == order[b + 1];
        }
      }
      RemoveKeyAt(rest, k);
      var j := IndexOf(rest, k);
      assert order[..j + 1] == [order[0]] + rest[..j];
      assert order[j + 2..] == rest[j + 1..];
    }
  }

  lemma {:induction false} RemoveKeyDistinct(order: seq<string>, k: string)
    requires Distinct(order)
    ensures Distinct(RemoveKey(order, k))
  {
    if order != [] {
      RemoveKeyDistinct(order[1..], k);
      assert order[0] !in order[1..];
    }
  }

  /** Inserting a new key appends it; updating or deleting keeps the dict ordered. */
  lemma OrderedInsert<V>(m: map<string, V>, order: seq<string>, k: string, v: V)
    requires Ordered(m, order)
    ensures k in m ==> Ordered(m[k := v], order)
    ensures k !in m ==> Ordered(m[k := v], order + [k])
  {
  }

  lemma OrderedRemove<V>(m: map<string, V>, order: seq<string>, k: string)
    requires Ordered(m, order)
    ensures Ordered(m - {k}, RemoveKey(order, k))
  {
    RemoveKeyDistinct(order, k);
  }
}
