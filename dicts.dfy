/** Python's insertion-ordered dict, as the core uses it for CSV records:
    the keys in insertion order and the value of each key. An assignment to
    an existing key keeps its position, a new key goes last, and `pop`
    removes the key. */
module Dicts {
  import opened Wrappers
  import Seqs

  /** The values a record holds: strings read from a CSV file, the boolean
      success flag, the integer error counts, and the `None` that
      csv.DictReader stores for the cells missing from a short row. */
  datatype Value = Text(s: string) | Flag(b: bool) | Number(n: nat) | Missing

  /** No key is listed twice: the last key is not among the ones before
      it, and so on down the list. */
  predicate Distinct(ks: seq<string>)
  {
    ks == [] || (ks[|ks| - 1] !in ks[..|ks| - 1] && Distinct(ks[..|ks| - 1]))
  }

  /** A Python dict with string keys: its entries in insertion order. */
  datatype Record = Empty | Entry(key: string, val: Value, rest: Record)

  /** `list(d.keys())` */
  function Keys(d: Record): seq<string>
  {
    match d
    case Empty => []
    case Entry(k, _, rest) => [k] + Keys(rest)
  }

  /** `d.get(k)`: the value stored under `k`, or None when the key is absent. */
  function Get(d: Record, k: string): (r: Option<Value>)
    ensures r.Some? <==> k in Keys(d)
  {
    match d
    case Empty => None
    case Entry(j, v, rest) => if j == k then Some(v) else Get(rest, k)
  }

  /** `d[k] = v`: an existing key keeps its position, a new key goes last. */
  function Set(d: Record, k: string, v: Value): (r: Record)
    ensures Get(r, k) == Some(v)
    ensures forall j :: j != k ==> Get(r, j) == Get(d, j)
    ensures Keys(r) == if k in Keys(d) then Keys(d) else Keys(d) + [k]
  {
    match d
    case Empty => Entry(k, v, Empty)
    case Entry(j, w, rest) =>
      if j == k then Entry(k, v, rest)
      else
        Seqs.Assoc([j], Keys(rest), [k]);
        Entry(j, w, Set(rest, k, v))
  }

  /** Assigning a key twice leaves what assigning the second value alone leaves. */
  lemma {:induction false} SetTwice(d: Record, k: string, v1: Value, v2: Value)
    ensures Set(Set(d, k, v1), k, v2) == Set(d, k, v2)
  {
    match d
    case Empty =>
    case Entry(j, w, rest) =>
      if j != k {
        SetTwice(rest, k, v1, v2);
      }
  }

  /** An assignment keeps the keys free of repeats. */
  lemma {:induction false} SetDistinct(d: Record, k: string, v: Value)
    requires Distinct(Keys(d))
    ensures Distinct(Keys(Set(d, k, v)))
  {
    if k !in Keys(d) {
      var ks := Keys(d) + [k];
      assert ks[..|ks| - 1] == Keys(d);
    }
  }

  /** The dict without any entry for `k`. */
  function Remove(d: Record, k: string): (r: Record)
    ensures Keys(r) == Without(Keys(d), k)
    ensures Get(r, k) == None
    ensures forall j :: j != k ==> Get(r, j) == Get(d, j)
  {
    match d
    case Empty => Empty
    case Entry(j, w, rest) =>
      assert ([j] + Keys(rest))[1..] == Keys(rest);
      if j == k then
        assert [] + Without(Keys(rest), k) == Without(Keys(rest), k);
        Remove(rest, k)
      else Entry(j, w, Remove(rest, k))
  }

  /** `d.pop(k)`: the value under `k` and the dict without that key; a
      missing key raises KeyError. */
  function Pop(d: Record, k: string): (r: Result<(Value, Record)>)
    ensures r.Success? <==> k in Keys(d)
    ensures r.Failure? ==> r.error == KeyError(k)
    ensures r.Success? ==> Some(r.value.0) == Get(d, k)
    ensures r.Success? ==> Get(r.value.1, k) == None && Keys(r.value.1) == Without(Keys(d), k)
    ensures r.Success? ==> forall j :: j != k ==> Get(r.value.1, j) == Get(d, j)
  {
    match Get(d, k)
    case None => Failure(KeyError(k))
    case Some(v) => Success((v, Remove(d, k)))
  }

  /** `ks` with every occurrence of `k` removed. */
  function Without(ks: seq<string>, k: string): seq<string>
  {
    if ks == [] then []
    else (if ks[0] == k then [] else [ks[0]]) + Without(ks[1..], k)
  }

  lemma {:induction false} WithoutSpec(ks: seq<string>, k: string)
    ensures forall j :: j in Without(ks, k) <==> j in ks && j != k
  {
    if ks != [] {
      WithoutSpec(ks[1..], k);
      Seqs.HeadTail(ks, k);
    }
  }
}
