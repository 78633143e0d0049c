/**
 Sequences cut into pieces, and sequences with elements left out.
 */
module Streams {

  /** The elements of the first `k` pieces. */
  function Flatten<T>(pieces: seq<seq<T>>, k: nat): seq<T>
    requires k <= |pieces|
  {
    if k == 0 then [] else Flatten(pieces, k - 1) + pieces[k - 1]
  }

  function FlattenAll<T>(pieces: seq<seq<T>>): seq<T> { Flatten(pieces, |pieces|) }

  /** `r` elements are those of the first `k` pieces and the first `j` of piece `k`. */
  ghost predicate Position<T>(pieces: seq<seq<T>>, r: nat, k: nat, j: nat) {
    && k <= |pieces|
    && (if k == |pieces| then j == 0 else j < |pieces[k]|)
    && r == |Flatten(pieces, k)| + j
  }

  lemma TakeSnoc<T>(xs: seq<T>, k: nat)
    requires 0 < k <= |xs|
    ensures xs[..k] == xs[..k - 1] + [xs[k - 1]]
  {
  }

  lemma {:induction false} FlattenPrefix<T>(pieces: seq<seq<T>>, k: nat, n: nat)
    requires k <= n <= |pieces|
    ensures Flatten(pieces, k) <= Flatten(pieces, n)
    decreases n
  {
    if k < n { FlattenPrefix(pieces, k, n - 1); }
  }

  lemma {:induction false} FlattenMore<T>(pieces: seq<seq<T>>, piece: seq<T>, k: nat)
    requires k <= |pieces|
    ensures Flatten(pieces + [piece], k) == Flatten(pieces, k)
  {
    if k > 0 { FlattenMore(pieces, piece, k - 1); }
  }

  /** The element at a position. */
  lemma ElementAt<T>(pieces: seq<seq<T>>, r: nat, k: nat, j: nat)
    requires Position(pieces, r, k, j)
    ensures k < |pieces| <==> r < |FlattenAll(pieces)|
    ensures k < |pieces| ==> FlattenAll(pieces)[r] == pieces[k][j]
  {
    if k < |pieces| {
      FlattenPrefix(pieces, k + 1, |pieces|);
      assert Flatten(pieces, k + 1)[r] == pieces[k][j];
    }
  }

  lemma NextPosition<T>(pieces: seq<seq<T>>, r: nat, k: nat, j: nat)
    requires Position(pieces, r, k, j) && k < |pieces|
    requires forall i :: 0 <= i < |pieces| ==> |pieces[i]| > 0
    ensures if j + 1 < |pieces[k]| then Position(pieces, r + 1, k, j + 1) else Position(pieces, r + 1, k + 1, 0)
  {
  }

  /** `xs` can be obtained from the first `k` elements of `ys` by leaving some out. */
  ghost predicate SubsequenceOf<T>(xs: seq<T>, ys: seq<T>, k: nat)
    requires k <= |ys|
    decreases k
  {
    if xs == [] then true
    else if k == 0 then false
    else
      || SubsequenceOf(xs, ys, k - 1)
      || (xs[|xs| - 1] == ys[k - 1] && SubsequenceOf(xs[..|xs| - 1], ys, k - 1))
  }

  ghost predicate Subsequence<T>(xs: seq<T>, ys: seq<T>) { SubsequenceOf(xs, ys, |ys|) }

  lemma SubsequenceGrows<T>(xs: seq<T>, ys: seq<T>, k: nat)
    requires k < |ys| && SubsequenceOf(xs, ys, k)
    ensures SubsequenceOf(xs, ys, k + 1) && SubsequenceOf(xs + [ys[k]], ys, k + 1)
  {
  }

  lemma {:induction false} SubsequenceOfMore<T>(xs: seq<T>, ys: seq<T>, y: T, k: nat)
    requires k <= |ys| && SubsequenceOf(xs, ys, k)
    ensures SubsequenceOf(xs, ys + [y], k)
    decreases k
  {
    if xs != [] {
      if SubsequenceOf(xs, ys, k - 1) { SubsequenceOfMore(xs, ys, y, k - 1); }
      else { SubsequenceOfMore(xs[..|xs| - 1], ys, y, k - 1); }
    }
  }

  lemma {:induction false} PrefixSubsequence<T>(xs: seq<T>, ys: seq<T>, k: nat)
    requires k <= |ys| && SubsequenceOf(xs, ys, k)
    ensures Subsequence(xs, ys)
    decreases |ys| - k
  {
    if k < |ys| {
      SubsequenceGrows(xs, ys, k);
      PrefixSubsequence(xs, ys, k + 1);
    }
  }
}
