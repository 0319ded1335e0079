/** First-match scans: the answer of the first element that has one. */
module Scan {
  import opened Bytes

  function FirstMatch<T, R>(xs: seq<T>, eval: T -> Option<R>): Option<R> {
    if xs == [] then None else if eval(xs[0]).Some? then eval(xs[0]) else FirstMatch(xs[1..], eval)
  }

  lemma {:induction false} FirstMatchConcat<T, R>(a: seq<T>, b: seq<T>, eval: T -> Option<R>)
    ensures FirstMatch(a + b, eval) == if FirstMatch(a, eval).Some? then FirstMatch(a, eval) else FirstMatch(b, eval)
  {
    if a == [] {
      assert a + b == b;
    } else {
      assert (a + b)[1..] == a[1..] + b;
      FirstMatchConcat(a[1..], b, eval);
    }
  }

  /** The scan's answer is that of the earliest element that has one, and there is none only if no element has one. */
  lemma {:induction false} FirstMatchIsFirst<T, R>(xs: seq<T>, eval: T -> Option<R>) returns (k: nat)
    ensures k <= |xs| && (forall i :: 0 <= i < k ==> eval(xs[i]).None?)
    ensures FirstMatch(xs, eval) == if k < |xs| then eval(xs[k]) else None
    ensures k < |xs| ==> eval(xs[k]).Some?
  {
    k := 0;
    if xs != [] && eval(xs[0]).None? {
      var j := FirstMatchIsFirst(xs[1..], eval);
      k := j + 1;
      assert forall i :: 0 < i < k ==> xs[i] == xs[1..][i - 1];
    }
  }
}
