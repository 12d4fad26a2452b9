/** Order-keeping selections from a sequence: what a `Where` over a list
    returns. */
module Seqs {

  /** `xs` is `ys` with some entries left out and the others kept, in
      order and as often as they occur. */
  ghost predicate SubsequenceOf<T>(xs: seq<T>, ys: seq<T>)
    decreases |ys|
  {
    if |xs| == 0 then true
    else if |ys| == 0 then false
    else if xs[0] == ys[0] then SubsequenceOf(xs[1..], ys[1..])
    else SubsequenceOf(xs, ys[1..])
  }

  /** A subsequence picks entries of `ys` at strictly increasing positions. */
  lemma {:induction false} SubsequenceIndices<T>(xs: seq<T>, ys: seq<T>) returns (idx: seq<int>)
    requires SubsequenceOf(xs, ys)
    ensures |idx| == |xs|
    ensures forall i :: 0 <= i < |idx| ==> 0 <= idx[i] < |ys| && xs[i] == ys[idx[i]]
    ensures forall i, j :: 0 <= i < j < |idx| ==> idx[i] < idx[j]
    decreases |ys|
  {
    if |xs| == 0 {
      idx := [];
    } else if xs[0] == ys[0] {
      var rest := SubsequenceIndices(xs[1..], ys[1..]);
      idx := [0] + seq(|rest|, i requires 0 <= i < |rest| => rest[i] + 1);
      forall i | 0 <= i < |idx|
        ensures 0 <= idx[i] < |ys| && xs[i] == ys[idx[i]]
      {
        if i > 0 {
          assert xs[i] == xs[1..][i - 1] && ys[idx[i]] == ys[1..][rest[i - 1]];
        }
      }
    } else {
      var rest := SubsequenceIndices(xs, ys[1..]);
      idx := seq(|rest|, i requires 0 <= i < |rest| => rest[i] + 1);
      forall i | 0 <= i < |idx|
        ensures 0 <= idx[i] < |ys| && xs[i] == ys[idx[i]]
      {
        assert ys[idx[i]] == ys[1..][rest[i]];
      }
    }
  }

  /** Dropping the first selected entry keeps a subsequence. */
  lemma {:induction false} SubsequenceTail<T>(xs: seq<T>, ys: seq<T>)
    requires |xs| > 0 && SubsequenceOf(xs, ys)
    ensures SubsequenceOf(xs[1..], ys)
    decreases |ys|, 0
  {
    assert |ys| > 0;
    assert ys == [ys[0]] + ys[1..];
    if xs[0] != ys[0] {
      SubsequenceTail(xs, ys[1..]);
    }
    SubsequenceCons(xs[1..], ys[1..], ys[0]);
  }

  /** An entry put in front of `ys` may be left out. */
  lemma {:induction false} SubsequenceCons<T>(xs: seq<T>, ys: seq<T>, y: T)
    requires SubsequenceOf(xs, ys)
    ensures SubsequenceOf(xs, [y] + ys)
    decreases |ys|, 1
  {
    assert ([y] + ys)[1..] == ys;
    if |xs| > 0 && xs[0] == y {
      SubsequenceTail(xs, ys);
    }
  }
}
