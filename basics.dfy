/** Small failure-carrying wrappers shared by the other modules. */
module Basics {

  datatype Option<+T> = None | Some(value: T)

  /** The error kinds the formula evaluator can raise; every one of them is
      turned into the value 0 by the resolver. */
  datatype Error = SyntaxError | NameError | ZeroDivision

  datatype Result<+T> = Ok(value: T) | Err(error: Error)

  /** `d.get(k, default)` on a map. */
  function Get<K, V>(m: map<K, V>, k: K, default: V): (v: V)
    ensures k in m ==> v == m[k]
    ensures k !in m ==> v == default
  {
    if k in m then m[k] else default
  }

  /** A prefix holds the same elements at the same places. */
  lemma PrefixIndex<T>(s: seq<T>, n: nat)
    requires n <= |s|
    ensures forall k :: 0 <= k < n ==> s[..n][k] == s[k]
  {
  }

  /** Appending keeps the elements of the front part in place. */
  lemma AppendIndex<T>(a: seq<T>, b: seq<T>)
    ensures forall k :: 0 <= k < |a| ==> (a + b)[k] == a[k]
    ensures forall k :: 0 <= k < |b| ==> (a + b)[|a| + k] == b[k]
  {
  }
}
