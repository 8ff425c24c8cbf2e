/**
 * A JavaScript object's own string-keyed properties, in insertion order:
 * reading `obj[key]`, the `key in obj` test and the assignment `obj[key] = v`,
 * which replaces the value of an existing key where it stands and appends a
 * new key at the end. That is the order JavaScript lists keys that are not
 * array indices in; it lists array-index keys ("0", "1", ...) before them,
 * in ascending order, which this model does not do. No schema of the
 * library has such a key, so the order of a conversion's output is as
 * modelled.
 */
module Records {
  import opened Results

  type Props<V> = seq<(string, V)>

  function Keys<V>(p: Props<V>): (ks: seq<string>)
    ensures |ks| == |p|
    ensures forall i :: 0 <= i < |p| ==> ks[i] == p[i].0
  {
    if p == [] then [] else [p[0].0] + Keys(p[1..])
  }

  /** `obj[key]` for an own property; None when `key in obj` is false. */
  function Get<V>(p: Props<V>, key: string): (r: Option<V>)
    ensures r.Some? <==> key in Keys(p)
  {
    if p == [] then None
    else if p[0].0 == key then Some(p[0].1)
    else Get(p[1..], key)
  }

  /** `obj[key] = v`: replaces the entry of an existing key where it stands, else appends one. */
  function Set<V>(p: Props<V>, key: string, v: V): (r: Props<V>)
  {
    if p == [] then [(key, v)]
    else if p[0].0 == key then [(key, v)] + p[1..]
    else [p[0]] + Set(p[1..], key, v)
  }

  /** After `obj[key] = v`, `obj[key]` is `v` and every other property reads as before. */
  lemma {:induction false} GetSet<V>(p: Props<V>, key: string, v: V)
    ensures Get(Set(p, key, v), key) == Some(v)
    ensures forall k :: k != key ==> Get(Set(p, key, v), k) == Get(p, k)
  {
    if p != [] && p[0].0 != key {
      GetSet(p[1..], key, v);
      assert Set(p, key, v)[1..] == Set(p[1..], key, v);
    }
  }

  /** The keys after `obj[key] = v`: unchanged, or `key` appended. */
  lemma {:induction false} SetKeys<V>(p: Props<V>, key: string, v: V)
    ensures Keys(Set(p, key, v)) == if key in Keys(p) then Keys(p) else Keys(p) + [key]
  {
    if p == [] {
      assert Keys(Set(p, key, v)) == [key];
    } else {
      var r := Set(p, key, v);
      assert Keys(p) == [p[0].0] + Keys(p[1..]);
      if p[0].0 == key {
        assert r[1..] == p[1..];
      } else {
        SetKeys(p[1..], key, v);
        assert r[1..] == Set(p[1..], key, v);
        assert key in Keys(p) <==> key in Keys(p[1..]);
      }
      assert Keys(r) == [r[0].0] + Keys(r[1..]);
    }
  }

  /** No key occurs twice, as in any JavaScript object. */
  predicate DistinctKeys<V>(p: Props<V>) {
    forall i, j :: 0 <= i < j < |p| ==> p[i].0 != p[j].0
  }

  /** When no earlier entry has its key, the entry at position `i` is what that key reads. */
  lemma {:induction false} GetIndex<V>(p: Props<V>, i: nat)
    requires i < |p| && forall j :: 0 <= j < i ==> p[j].0 != p[i].0
    ensures Get(p, p[i].0) == Some(p[i].1)
  {
    if i > 0 {
      assert p[0].0 != p[i].0;
      assert p[1..][i - 1] == p[i];
      assert forall j :: 0 <= j < i - 1 ==> p[1..][j] == p[j + 1];
      GetIndex(p[1..], i - 1);
    }
  }

  /** Writing back the value a key already has changes nothing. */
  lemma {:induction false} SetSame<V>(p: Props<V>, key: string, v: V)
    requires Get(p, key) == Some(v)
    ensures Set(p, key, v) == p
  {
    if p != [] && p[0].0 != key {
      SetSame(p[1..], key, v);
    }
  }

  /** Assignment keeps the keys of an object distinct. */
  lemma SetKeepsDistinct<V>(p: Props<V>, key: string, v: V)
    requires DistinctKeys(p)
    ensures DistinctKeys(Set(p, key, v))
  {
    var r := Set(p, key, v);
    SetKeys(p, key, v);
    forall i, j | 0 <= i < j < |r| ensures r[i].0 != r[j].0 {
      assert r[i].0 == Keys(r)[i] && r[j].0 == Keys(r)[j];
      if j < |p| {
        assert Keys(p)[i] == p[i].0 && Keys(p)[j] == p[j].0;
      } else {
        assert Keys(p)[i] == p[i].0;
      }
    }
  }

  /** Whether keys are distinct depends on the keys alone. */
  lemma SameKeysDistinct<V, W>(p: Props<V>, q: Props<W>)
    requires Keys(p) == Keys(q) && DistinctKeys(q)
    ensures DistinctKeys(p)
  {
    forall i, j | 0 <= i < j < |p| ensures p[i].0 != p[j].0 {
      assert p[i].0 == Keys(q)[i] == q[i].0 && p[j].0 == Keys(q)[j] == q[j].0;
    }
  }

  /** Two objects with the same distinct keys, each reading the same value, are the same object. */
  lemma SameEntries<V>(p: Props<V>, q: Props<V>)
    requires Keys(p) == Keys(q) && DistinctKeys(p)
    requires forall i :: 0 <= i < |p| ==> Get(p, p[i].0) == Get(q, p[i].0)
    ensures p == q
  {
    SameKeysDistinct(q, p);
    forall i | 0 <= i < |p|
      ensures p[i] == q[i]
    {
      assert p[i].0 == Keys(p)[i] == Keys(q)[i] == q[i].0;
      GetIndex(p, i);
      GetIndex(q, i);
    }
  }

  /** With distinct keys, a key the object has sits at one position, holding what the key reads. */
  lemma KeyPosition<V>(p: Props<V>, key: string) returns (i: nat)
    requires DistinctKeys(p) && key in Keys(p)
    ensures i < |p| && p[i].0 == key && Get(p, key) == Some(p[i].1)
  {
    i :| 0 <= i < |p| && Keys(p)[i] == key;
    GetIndex(p, i);
  }

  /** Appending an entry: the keys grow by that key. */
  lemma KeysAppend<V>(p: Props<V>, key: string, v: V)
    ensures Keys(p + [(key, v)]) == Keys(p) + [key]
  {
    assert forall i :: 0 <= i < |p| + 1 ==> Keys(p + [(key, v)])[i] == (Keys(p) + [key])[i];
  }

  /** Reading from a list with one entry appended at the end. */
  lemma {:induction false} GetAppend<V>(p: Props<V>, key: string, v: V, k: string)
    ensures Get(p + [(key, v)], k) == if k in Keys(p) then Get(p, k) else if k == key then Some(v) else None
  {
    if p != [] {
      assert (p + [(key, v)])[1..] == p[1..] + [(key, v)];
      assert Keys(p) == [p[0].0] + Keys(p[1..]);
      GetAppend(p[1..], key, v, k);
    }
  }
}
