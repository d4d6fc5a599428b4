/** The pigeonhole principle. */
module Pigeonholes {
  predicate Distinct<T(==)>(s: seq<T>) {
    forall i, j :: 0 <= i < j < |s| ==> s[i] != s[j]
  }

  lemma {:induction false} Pigeonhole<T>(xs: seq<T>, ys: seq<T>)
    requires Distinct(xs) && forall i :: 0 <= i < |xs| ==> xs[i] in ys
    ensures |xs| <= |ys|
    decreases |xs|
  {
    if xs != [] {
      var n := |xs| - 1;
      assert xs[n] in ys;
      var k :| 0 <= k < |ys| && ys[k] == xs[n];
      var rest := ys[..k] + ys[k + 1..];
      forall i | 0 <= i < n ensures xs[..n][i] in rest {
        StillThere(ys, k, xs[i]);
      }
      Pigeonhole(xs[..n], rest);
    }
  }

  lemma StillThere<T>(ys: seq<T>, k: nat, x: T)
    requires k < |ys| && x in ys && x != ys[k]
    ensures x in ys[..k] + ys[k + 1..]
  {
    var i :| 0 <= i < |ys| && ys[i] == x;
    if i < k {
      assert (ys[..k] + ys[k + 1..])[i] == x;
    } else {
      assert (ys[..k] + ys[k + 1..])[i - 1] == x;
    }
  }
}
