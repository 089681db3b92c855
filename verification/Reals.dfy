/** Tensors of exact reals: sums, maxima, and the laws of exp and log the proofs may use. */
module Reals {
  import opened Lists

  function Total(s: seq<real>): real {
    if s == [] then 0.0 else Total(s[..|s| - 1]) + s[|s| - 1]
  }

  lemma {:induction false} TotalAppend(x: seq<real>, y: seq<real>)
    ensures Total(x + y) == Total(x) + Total(y)
  {
    if y == [] {
      assert x + y == x;
    } else {
      assert (x + y)[..|x + y| - 1] == x + y[..|y| - 1];
      TotalAppend(x, y[..|y| - 1]);
    }
  }

  function Dot(x: seq<real>, y: seq<real>): real
    requires |x| == |y|
  {
    if x == [] then 0.0 else Dot(x[..|x| - 1], y[..|y| - 1]) + x[|x| - 1] * y[|y| - 1]
  }

  function MaxReal(a: real, b: real): real { if a < b then b else a }

  /** torch.amax */
  function Amax(z: seq<real>): real
    requires z != []
  {
    if |z| == 1 then z[0] else MaxReal(Amax(z[..|z| - 1]), z[|z| - 1])
  }

  predicate NoneEmpty<T(==)>(shards: seq<seq<T>>) {
    shards != [] && forall r :: 0 <= r < |shards| ==> shards[r] != []
  }

  lemma {:induction false} AmaxAppend(x: seq<real>, y: seq<real>)
    requires x != [] && y != []
    ensures Amax(x + y) == MaxReal(Amax(x), Amax(y))
  {
    assert (x + y)[..|x + y| - 1] == x + y[..|y| - 1];
    if |y| > 1 {
      AmaxAppend(x, y[..|y| - 1]);
    } else {
      assert x + y[..0] == x;
    }
  }

  /** The maximum is one of the entries, and none is larger. */
  lemma {:induction false} AmaxIsMax(z: seq<real>)
    requires z != []
    ensures Amax(z) in z && forall v :: 0 <= v < |z| ==> z[v] <= Amax(z)
  {
    if |z| > 1 { AmaxIsMax(z[..|z| - 1]); }
  }

  // ---------------------------------------------------------------- exp and log

  ghost predicate ExpAdds(exp: real -> real, x: real, y: real) { exp(x + y) == exp(x) * exp(y) && exp(x) > 0.0 }

  ghost predicate LogInverts(exp: real -> real, log: real -> real, x: real) {
    log(exp(x)) == x && (x > 0.0 ==> exp(log(x)) == x)
  }

  /** All that is ever assumed of exp and log, and only where a lemma says so. */
  ghost predicate ExpLog(exp: real -> real, log: real -> real) {
    && (forall x, y :: ExpAdds(exp, x, y))
    && (forall x :: LogInverts(exp, log, x))
  }

  ghost predicate AboveTangent(exp: real -> real, x: real) { exp(x) >= 1.0 + x }

  /** exp lies above its tangent at zero. With the laws above this fixes the base, e. */
  ghost predicate NaturalExp(exp: real -> real) { forall x :: AboveTangent(exp, x) }
}
