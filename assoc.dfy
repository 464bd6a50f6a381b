/**
 * String-keyed dictionaries with insertion order, the way JavaScript objects behave:
 * assigning an existing key replaces its value where it stands, assigning a new key appends it,
 * and `{...a, ...b}` assigns every entry of `b` onto `a` in order.
 * (The rule that puts integer-like keys first is not modelled.)
 */
module Assoc {
  import opened Wrappers

  type Dict<T> = seq<(string, T)>

  /** No key occurs twice: every dictionary built by Set and Spread from one has this shape. */
  predicate DistinctKeys<T>(d: Dict<T>) {
    forall i, j :: 0 <= i < j < |d| ==> d[i].0 != d[j].0
  }

  /** Property read `d[k]`; None plays `undefined`. */
  function Get<T>(d: Dict<T>, k: string): (r: Option<T>)
    ensures r.None? <==> forall i :: 0 <= i < |d| ==> d[i].0 != k
  {
    if d == [] then None
    else if d[0].0 == k then Some(d[0].1)
    else
      var r := Get(d[1..], k);
      assert forall i :: 1 <= i < |d| ==> d[i] == d[1..][i - 1];
      r
  }

  predicate HasKey<T>(d: Dict<T>, k: string) {
    Get(d, k).Some?
  }

  /** The keys in insertion order: `Object.keys(d)`. */
  function Keys<T>(d: Dict<T>): (ks: seq<string>)
    ensures |ks| == |d|
    ensures forall i :: 0 <= i < |d| ==> ks[i] == d[i].0
  {
    seq(|d|, i requires 0 <= i < |d| => d[i].0)
  }

  /** Property assignment `d[k] = v`. */
  function Set<T>(d: Dict<T>, k: string, v: T): (r: Dict<T>)
    ensures Get(r, k) == Some(v)
    ensures forall k' :: k' != k ==> Get(r, k') == Get(d, k')
    ensures HasKey(d, k) ==> Keys(r) == Keys(d)
    ensures !HasKey(d, k) ==> r == d + [(k, v)]
  {
    if d == [] then [(k, v)]
    else if d[0].0 == k then [(k, v)] + d[1..]
    else [d[0]] + Set(d[1..], k, v)
  }

  lemma {:induction false} SetKeepsDistinct<T>(d: Dict<T>, k: string, v: T)
    requires DistinctKeys(d)
    ensures DistinctKeys(Set(d, k, v))
  {
    var r := Set(d, k, v);
    if HasKey(d, k) {
      assert Keys(r) == Keys(d);
      forall i, j | 0 <= i < j < |r| ensures r[i].0 != r[j].0 {
        assert Keys(r)[i] == Keys(d)[i] && Keys(r)[j] == Keys(d)[j];
      }
    }
  }

  /** Object spread `{...a, ...b}`: every entry of `b`, in order, assigned onto `a`. */
  function Spread<T>(a: Dict<T>, b: Dict<T>): (r: Dict<T>)
    requires DistinctKeys(b)
    ensures forall k :: Get(r, k) == if HasKey(b, k) then Get(b, k) else Get(a, k)
    decreases |b|
  {
    if b == [] then a
    else
      var r := Spread(Set(a, b[0].0, b[0].1), b[1..]);
      assert Get(b[1..], b[0].0).None?;
      r
  }

  lemma {:induction false} SpreadKeepsDistinct<T>(a: Dict<T>, b: Dict<T>)
    requires DistinctKeys(a) && DistinctKeys(b)
    ensures DistinctKeys(Spread(a, b))
    decreases |b|
  {
    if b != [] {
      SetKeepsDistinct(a, b[0].0, b[0].1);
      SpreadKeepsDistinct(Set(a, b[0].0, b[0].1), b[1..]);
    }
  }

  /** Spreading never moves the keys already present: they stay a prefix. */
  lemma {:induction false} SpreadKeepsPrefix<T>(a: Dict<T>, b: Dict<T>)
    requires DistinctKeys(b)
    ensures Keys(a) <= Keys(Spread(a, b))
    decreases |b|
  {
    if b != [] {
      var a' := Set(a, b[0].0, b[0].1);
      assert Keys(a) <= Keys(a') by {
        if !HasKey(a, b[0].0) {
          assert Keys(a') == Keys(a) + [b[0].0];
        }
      }
      SpreadKeepsPrefix(a', b[1..]);
    }
  }

  /** In a dictionary without repeated keys, reading the key stored at index i gives the value stored there. */
  lemma {:induction false} GetAt<T>(d: Dict<T>, i: int)
    requires DistinctKeys(d) && 0 <= i < |d|
    ensures Get(d, d[i].0) == Some(d[i].1)
  {
    if i > 0 {
      assert d[1..][i - 1] == d[i];
      GetAt(d[1..], i - 1);
    }
  }

  lemma {:induction false} GetAppend<T>(d: Dict<T>, e: (string, T), k: string)
    ensures Get(d + [e], k) == if HasKey(d, k) then Get(d, k) else if e.0 == k then Some(e.1) else None
  {
    if d != [] {
      assert (d + [e])[1..] == d[1..] + [e];
      GetAppend(d[1..], e, k);
    }
  }

  /** Removing one key, as `const { k, ...rest } = d` does for `rest`. */
  function Remove<T>(d: Dict<T>, k: string): (r: Dict<T>)
    ensures Get(r, k) == None
    ensures forall k' :: k' != k ==> Get(r, k') == Get(d, k')
  {
    if d == [] then []
    else if d[0].0 == k then Remove(d[1..], k)
    else [d[0]] + Remove(d[1..], k)
  }
}
