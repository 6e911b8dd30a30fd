/** Python dictionaries as ordered sequences of (key, value) entries.
    Insertion order is kept, as in a Python `dict` since 3.7. */
module Dicts {
  import opened Wrappers

  type Dict<V> = seq<(string, V)>

  function Keys<V>(d: Dict<V>): (ks: seq<string>)
    ensures |ks| == |d|
    ensures forall i :: 0 <= i < |d| ==> ks[i] == d[i].0
  {
    if d == [] then [] else [d[0].0] + Keys(d[1..])
  }

  /** A real Python dict never holds the same key twice. */
  predicate DistinctKeys<V>(d: Dict<V>) {
    forall i, j :: 0 <= i < j < |d| ==> d[i].0 != d[j].0
  }

  /** Position of the first entry with key `k`. */
  function IndexOf<V>(d: Dict<V>, k: string): (r: Option<nat>)
    ensures r.Some? ==> r.value < |d| && d[r.value].0 == k
    ensures r.Some? ==> forall i :: 0 <= i < r.value ==> d[i].0 != k
    ensures r.None? ==> forall i :: 0 <= i < |d| ==> d[i].0 != k
  {
    if d == [] then None
    else if d[0].0 == k then Some(0)
    else match IndexOf(d[1..], k)
      case None => None
      case Some(i) => Some(i + 1)
  }

  /** `d.get(k)`: the value of the first entry with key `k`. */
  function Get<V>(d: Dict<V>, k: string): Option<V> {
    if d == [] then None
    else if d[0].0 == k then Some(d[0].1)
    else Get(d[1..], k)
  }

  /** `d.get(k, default)`. */
  function GetOr<V>(d: Dict<V>, k: string, default: V): V {
    match Get(d, k)
    case None => default
    case Some(v) => v
  }

  /** `d[k] = v`: an existing key keeps its position, a new key is appended. */
  function Put<V>(d: Dict<V>, k: string, v: V): Dict<V> {
    if d == [] then [(k, v)]
    else if d[0].0 == k then [(k, v)] + d[1..]
    else [d[0]] + Put(d[1..], k, v)
  }

  /** `Get` reads the entry that `IndexOf` finds. */
  lemma {:induction false} GetIndexOf<V>(d: Dict<V>, k: string)
    ensures match IndexOf(d, k)
      case None => Get(d, k).None?
      case Some(i) => Get(d, k) == Some(d[i].1)
  {
    if d != [] && d[0].0 != k {
      GetIndexOf(d[1..], k);
    }
  }

  /** Storing under a key already present overwrites the entry `IndexOf` finds, in place. */
  lemma {:induction false} PutAtIndexOf<V>(d: Dict<V>, k: string, v: V)
    requires IndexOf(d, k).Some?
    ensures Put(d, k, v) == d[IndexOf(d, k).value := (k, v)]
  {
    if d[0].0 != k {
      PutAtIndexOf(d[1..], k, v);
    }
  }

  /** A key is found exactly when it is one of the keys. */
  lemma {:induction false} GetSomeIffKey<V>(d: Dict<V>, k: string)
    ensures Get(d, k).Some? <==> k in Keys(d)
  {
    if d != [] && d[0].0 != k {
      GetSomeIffKey(d[1..], k);
      assert Keys(d) == [d[0].0] + Keys(d[1..]);
    }
  }

  /** Reading back what was just stored. */
  lemma {:induction false} GetPutSame<V>(d: Dict<V>, k: string, v: V)
    ensures Get(Put(d, k, v), k) == Some(v)
  {
    if d != [] && d[0].0 != k {
      GetPutSame(d[1..], k, v);
    }
  }

  /** Storing under one key leaves every other key's value as it was. */
  lemma {:induction false} GetPutOther<V>(d: Dict<V>, k: string, v: V, k': string)
    requires k' != k
    ensures Get(Put(d, k, v), k') == Get(d, k')
  {
    if d != [] && d[0].0 != k {
      GetPutOther(d[1..], k, v, k');
    }
  }

  /** Storing under a key already present keeps the key sequence. */
  lemma {:induction false} PutExistingKeys<V>(d: Dict<V>, k: string, v: V)
    requires k in Keys(d)
    ensures Keys(Put(d, k, v)) == Keys(d)
  {
    if d[0].0 != k {
      assert Keys(d) == [d[0].0] + Keys(d[1..]);
      PutExistingKeys(d[1..], k, v);
      assert Keys(Put(d, k, v)) == [d[0].0] + Keys(Put(d[1..], k, v));
    }
  }

  /** In a dict with distinct keys, no entry's key occurs among the keys before it. */
  lemma KeyNotBefore<V>(d: Dict<V>, i: nat)
    requires DistinctKeys(d) && i < |d|
    ensures d[i].0 !in Keys(d[..i])
  {
    var ks := Keys(d[..i]);
    forall j | 0 <= j < |ks| ensures ks[j] != d[i].0 {
      assert ks[j] == d[..i][j].0 == d[j].0;
    }
  }

  /** Storing under a fresh key appends it. */
  lemma {:induction false} PutFresh<V>(d: Dict<V>, k: string, v: V)
    requires k !in Keys(d)
    ensures Put(d, k, v) == d + [(k, v)]
  {
    if d != [] {
      assert Keys(d) == [d[0].0] + Keys(d[1..]);
      PutFresh(d[1..], k, v);
      assert d == [d[0]] + d[1..];
    }
  }
}
