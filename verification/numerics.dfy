/** The floating-point operations the conductance formulas use, and the
    elementwise array operations of numpy that the model needs.

    Nothing is claimed about the values of the transcendental functions, of
    floating-point division or of the linear interpolant: each is a field of
    `FloatOps`, so every property proved in this model holds whatever
    functions are supplied for them.
 */
module Numerics {
  import opened Results

  datatype FloatOps = FloatOps(
    sin: real -> real,
    cos: real -> real,
    exp: real -> real,
    log: real -> real,
    sqrt: real -> real,
    pow: (real, real) -> real,    // `x ** y`
    div: (real, real) -> real,    // IEEE `x / y`, defined for a zero divisor too
    pi: real,                     // `np.pi`
    // `interp1d(grid, values, fill_value='extrapolate')(x)`
    interp: (seq<real>, seq<real>, real) -> real)

  function Abs(x: real): real {
    if x < 0.0 then -x else x
  }

  /** `np.abs` on an array. */
  function AbsAll(xs: seq<real>): (r: seq<real>)
    ensures |r| == |xs|
    ensures forall i :: 0 <= i < |xs| ==> r[i] >= 0.0 && (r[i] == xs[i] || r[i] == -xs[i])
  {
    seq(|xs|, i requires 0 <= i < |xs| => Abs(xs[i]))
  }

  function NegateAll(xs: seq<real>): (r: seq<real>)
    ensures |r| == |xs|
    ensures forall i :: 0 <= i < |xs| ==> r[i] + xs[i] == 0.0
  {
    seq(|xs|, i requires 0 <= i < |xs| => -xs[i])
  }

  /** The magnitude of an array does not depend on the signs of its values. */
  lemma AbsAllIgnoresSign(xs: seq<real>)
    ensures AbsAll(NegateAll(xs)) == AbsAll(xs)
  {
    assert forall i :: 0 <= i < |xs| ==> AbsAll(NegateAll(xs))[i] == AbsAll(xs)[i];
  }

  /** numpy accepts two 1-D arrays of lengths `m` and `n` together exactly
      when the lengths agree or one of them is 1. */
  predicate Broadcastable(m: nat, n: nat) {
    m == n || m == 1 || n == 1
  }

  /** Length of the result of broadcasting two 1-D arrays of lengths `m`
      and `n` that numpy accepts. */
  function BroadcastLength(m: nat, n: nat): nat {
    if m == 1 then n else m
  }

  /** numpy broadcasting of two 1-D arrays into pairs: equal lengths pair up
      elementwise, a length-1 array is repeated against the other, and any
      other combination is refused. */
  function Broadcast(a: seq<real>, b: seq<real>): (r: Result<seq<(real, real)>>)
    ensures r.Ok? <==> Broadcastable(|a|, |b|)
    ensures r.Err? ==> r.error == ShapeMismatch
    ensures r.Ok? ==> |r.value| == BroadcastLength(|a|, |b|)
    ensures r.Ok? ==> forall i :: 0 <= i < |r.value| ==>
      r.value[i].0 == a[if |a| == 1 then 0 else i] && r.value[i].1 == b[if |b| == 1 then 0 else i]
  {
    if Broadcastable(|a|, |b|) then
      var n := BroadcastLength(|a|, |b|);
      Ok(seq(n, i requires 0 <= i < n => (a[if |a| == 1 then 0 else i], b[if |b| == 1 then 0 else i])))
    else
      Err(ShapeMismatch)
  }

  /** Two arrays of equal length broadcast to their elementwise pairing. */
  lemma BroadcastEqualLengths(a: seq<real>, b: seq<real>)
    requires |a| == |b|
    ensures Broadcast(a, b).Ok?
    ensures |Broadcast(a, b).value| == |a|
    ensures forall i :: 0 <= i < |a| ==> Broadcast(a, b).value[i] == (a[i], b[i])
  {
  }

  /** Every value of `xs` is at least zero. */
  predicate AllNonNegative(xs: seq<real>) {
    forall i :: 0 <= i < |xs| ==> xs[i] >= 0.0
  }
}
