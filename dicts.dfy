/** Python dictionaries with string keys, as association lists in insertion order. */
module Dicts {
  import opened Wrappers

  type Dict<V> = seq<(string, V)>

  function Keys<V>(d: Dict<V>): (ks: seq<string>)
    ensures |ks| == |d| && forall i :: 0 <= i < |d| ==> ks[i] == d[i].0
  {
    if d == [] then [] else [d[0].0] + Keys(d[1..])
  }

  /** A well-formed dictionary: no key twice. */
  predicate Distinct<V>(d: Dict<V>) {
    forall i, j :: 0 <= i < j < |d| ==> d[i].0 != d[j].0
  }

  /** A dictionary without a repeated key loses none by dropping its first entry, whose key
      does not come back. */
  lemma DistinctTail<V>(d: Dict<V>)
    requires Distinct(d) && d != []
    ensures Distinct(d[1..]) && d[0].0 !in Keys(d[1..])
  {
    forall i | 0 <= i < |d[1..]| ensures Keys(d[1..])[i] != d[0].0 {
      assert d[1..][i] == d[i + 1];
    }
  }

  /** `d.get(k)`: the value of the first entry with key `k`. */
  function Get<V>(d: Dict<V>, k: string): (r: Option<V>)
    ensures r.None? <==> k !in Keys(d)
  {
    if d == [] then None else if d[0].0 == k then Some(d[0].1) else Get(d[1..], k)
  }

  lemma GetCons<V>(k0: string, v: V, d: Dict<V>, k: string)
    ensures Get([(k0, v)] + d, k) == if k0 == k then Some(v) else Get(d, k)
  {
    assert ([(k0, v)] + d)[1..] == d;
  }

  /** `d[k] = v`: replaces the value in place when `k` is present, appends otherwise. */
  function Set<V>(d: Dict<V>, k: string, v: V): (r: Dict<V>)
  {
    if d == [] then [(k, v)]
    else if d[0].0 == k then [(k, v)] + d[1..]
    else [d[0]] + Set(d[1..], k, v)
  }

  /** `d.setdefault(k, v)`: adds `k` with value `v` only when `k` is absent. */
  function SetDefault<V>(d: Dict<V>, k: string, v: V): (r: Dict<V>)
  {
    if k in Keys(d) then d else d + [(k, v)]
  }

  /** `d.pop(k)` without its result: the dictionary without key `k`. */
  function Remove<V>(d: Dict<V>, k: string): (r: Dict<V>)
  {
    if d == [] then [] else if d[0].0 == k then Remove(d[1..], k) else [d[0]] + Remove(d[1..], k)
  }

  /** Assignment sets the key and leaves every other key as it was. */
  lemma {:induction false} GetSet<V>(d: Dict<V>, k: string, v: V, k': string)
    ensures Get(Set(d, k, v), k') == if k' == k then Some(v) else Get(d, k')
  {
    if d != [] && d[0].0 != k {
      GetSet(d[1..], k, v, k');
    }
  }

  /** Assignment keeps the order of the keys, appending a new key at the end. */
  lemma {:induction false} KeysSet<V>(d: Dict<V>, k: string, v: V)
    ensures Keys(Set(d, k, v)) == if k in Keys(d) then Keys(d) else Keys(d) + [k]
  {
    if d != [] && d[0].0 != k {
      KeysSet(d[1..], k, v);
      assert Keys(d) == [d[0].0] + Keys(d[1..]);
    }
  }

  lemma {:induction false} DistinctSet<V>(d: Dict<V>, k: string, v: V)
    requires Distinct(d)
    ensures Distinct(Set(d, k, v))
  {
    KeysSet(d, k, v);
    var r := Set(d, k, v);
    forall i, j | 0 <= i < j < |r| ensures r[i].0 != r[j].0 {
      assert Keys(r)[i] == r[i].0 && Keys(r)[j] == r[j].0;
    }
  }

  /** A property every value of `d` and `v` have holds of every value after assignment. */
  lemma {:induction false} SetKeeps<V>(d: Dict<V>, k: string, v: V, p: V -> bool)
    requires forall i :: 0 <= i < |d| ==> p(d[i].1)
    requires p(v)
    ensures forall i :: 0 <= i < |Set(d, k, v)| ==> p(Set(d, k, v)[i].1)
  {
    if d != [] {
      assert forall i :: 0 <= i < |d[1..]| ==> p(d[1..][i].1) by {
        forall i | 0 <= i < |d[1..]| ensures p(d[1..][i].1) {
          assert d[1..][i] == d[i + 1];
        }
      }
      if d[0].0 != k {
        SetKeeps(d[1..], k, v, p);
      }
    }
  }

  /** `setdefault` keeps a supplied value and otherwise installs the default. */
  lemma GetSetDefault<V>(d: Dict<V>, k: string, v: V, k': string)
    ensures Get(SetDefault(d, k, v), k') ==
      if k' == k && Get(d, k).None? then Some(v) else Get(d, k')
  {
    if k !in Keys(d) {
      GetAppend(d, k, v, k');
    }
  }

  lemma {:induction false} GetAppend<V>(d: Dict<V>, k: string, v: V, k': string)
    requires k !in Keys(d)
    ensures Get(d + [(k, v)], k') == if k' == k then Some(v) else Get(d, k')
  {
    if d != [] {
      assert (d + [(k, v)])[1..] == d[1..] + [(k, v)];
      GetAppend(d[1..], k, v, k');
    }
  }

  /** After `pop`, the key is gone and every other key keeps its value. */
  lemma {:induction false} GetRemove<V>(d: Dict<V>, k: string, k': string)
    ensures Get(Remove(d, k), k') == if k' == k then None else Get(d, k')
  {
    if d != [] {
      GetRemove(d[1..], k, k');
    }
  }

  /** The entries for which `f` gives a value, in order, each holding that value. */
  function Collect<V, W>(d: Dict<V>, f: V -> Option<W>): (r: Dict<W>)
    ensures |r| <= |d|
  {
    if d == [] then []
    else match f(d[0].1)
      case None => Collect(d[1..], f)
      case Some(w) => [(d[0].0, w)] + Collect(d[1..], f)
  }

  lemma {:induction false} CollectAppend<V, W>(d: Dict<V>, k: string, v: V, f: V -> Option<W>)
    ensures Collect(d + [(k, v)], f) ==
      Collect(d, f) + (match f(v) case None => [] case Some(w) => [(k, w)])
  {
    if d != [] {
      assert (d + [(k, v)])[1..] == d[1..] + [(k, v)];
      CollectAppend(d[1..], k, v, f);
    }
  }

  /** In a dictionary without a repeated key, collecting keeps the key `k` exactly when `f`
      gives a value for the value of `k`. */
  lemma {:induction false} GetCollect<V, W>(d: Dict<V>, f: V -> Option<W>, k: string)
    requires Distinct(d)
    ensures Get(Collect(d, f), k) == match Get(d, k) case None => None case Some(v) => f(v)
  {
    if d != [] {
      DistinctTail(d);
      GetCollect(d[1..], f, k);
      match f(d[0].1)
      case None =>
      case Some(w) =>
        GetCons(d[0].0, w, Collect(d[1..], f), k);
    }
  }
}
