/** Shared value types: optional values, results carrying the exception the
    source program would raise, and the ordered dictionaries (Python's dict and
    OrderedDict) that the program uses as records. */
module Common {

  datatype Option<T> = None | Some(value: T)

  /** The exceptions the modelled Python code can raise, by kind. */
  datatype Error =
    | KeyError(key: string)
    | NameError(name: string)
    | IndexError
    | TypeError
    | ValueError
    | ZeroDivisionError
    | UnboundLocalError(name: string)
    | LinAlgError

  datatype Result<T> = Success(value: T) | Failure(error: Error) {
    predicate IsFailure() { Failure? }
    function PropagateFailure<U>(): Result<U>
      requires Failure?
    {
      Failure(error)
    }
    function Extract(): T
      requires Success?
    {
      value
    }
  }

  /** An ordered dictionary is a sequence of (key, value) entries in insertion order. */
  type OrderedDict<K, V> = seq<(K, V)>

  function KeysOf<K, V>(d: OrderedDict<K, V>): (ks: seq<K>)
    ensures |ks| == |d|
    ensures forall i :: 0 <= i < |d| ==> ks[i] == d[i].0
  {
    seq(|d|, i requires 0 <= i < |d| => d[i].0)
  }

  predicate HasKey<K(==), V>(d: OrderedDict<K, V>, k: K)
  {
    exists i :: 0 <= i < |d| && d[i].0 == k
  }

  /** Python's `d[k]`: the value of the first entry with key k, KeyError otherwise. */
  function Lookup<V>(d: OrderedDict<string, V>, k: string): (r: Result<V>)
    ensures r.Success? <==> HasKey(d, k)
    ensures r.Failure? ==> r.error == KeyError(k)
    ensures r.Success? ==> exists i :: 0 <= i < |d| && d[i] == (k, r.value)
  {
    if d == [] then Failure(KeyError(k))
    else if d[0].0 == k then Success(d[0].1)
    else
      var r := Lookup(d[1..], k);
      assert r.Success? ==> exists i :: 0 <= i < |d[1..]| && d[1..][i] == (k, r.value);
      assert HasKey(d, k) && d[0].0 != k ==> HasKey(d[1..], k) by {
        if HasKey(d, k) && d[0].0 != k {
          var i :| 0 <= i < |d| && d[i].0 == k;
          assert d[1..][i - 1].0 == k;
        }
      }
      r
  }

  predicate DistinctKeys<K(==), V>(d: OrderedDict<K, V>)
  {
    forall i, j :: 0 <= i < j < |d| ==> d[i].0 != d[j].0
  }

  /** With distinct keys, `d[k]` is the value of the entry whose key is k. */
  lemma {:induction false} LookupAt<V>(d: OrderedDict<string, V>, i: nat)
    requires DistinctKeys(d) && i < |d|
    ensures Lookup(d, d[i].0) == Success(d[i].1)
  {
    if i > 0 {
      assert DistinctKeys(d[1..]);
      assert d[1..][i - 1] == d[i];
      LookupAt(d[1..], i - 1);
    }
  }
}
