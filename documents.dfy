/**
 Product documents as the Python code sees them: JSON objects decoded into dicts,
 kept here as the list of their (key, value) entries in insertion order, which is
 the order `dict.items()` yields.
 */
module Documents {

  datatype Option<+T> = None | Some(value: T)

  /** `min(a, b)`. */
  function Min(a: int, b: int): int
  {
    if a <= b then a else b
  }

  type Field = (string, string)
  type Doc = seq<Field>

  /** Python's `d.get(key, default)`: the value stored under `key`, else `default`.
      A dict holds each key once; on a list with repeated keys the first entry wins. */
  function Get<V>(d: seq<(string, V)>, key: string, default: V): (v: V)
    ensures (exists i :: 0 <= i < |d| && d[i].0 == key && d[i].1 == v) || v == default
    ensures (forall i :: 0 <= i < |d| ==> d[i].0 != key) ==> v == default
  {
    if d == [] then default
    else if d[0].0 == key then d[0].1
    else Get(d[1..], key, default)
  }

  /** `key in d`. */
  predicate HasKey<V>(d: seq<(string, V)>, key: string)
  {
    exists i :: 0 <= i < |d| && d[i].0 == key
  }

  /** The dict has each key at most once, as every Python dict does. */
  predicate DistinctKeys<V>(d: seq<(string, V)>)
  {
    forall i, j :: 0 <= i < j < |d| ==> d[i].0 != d[j].0
  }

  /** On a dict, `get` finds the one entry with that key. */
  lemma {:induction false} GetFindsEntry<V>(d: seq<(string, V)>, i: nat, default: V)
    requires DistinctKeys(d) && i < |d|
    ensures Get(d, d[i].0, default) == d[i].1
  {
    if i > 0 {
      assert DistinctKeys(d[1..]);
      GetFindsEntry(d[1..], i - 1, default);
    }
  }
}
