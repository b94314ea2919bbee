/** Event handles: a non-negative handle means "this event is true", its bitwise
    complement (`~h`, which is `-h - 1` on integers) means "this event is false". */
module Handles {

  /** The negated handle `~h`. */
  function Neg(h: int): (r: int)
    ensures h >= 0 <==> r < 0
  {
    -h - 1
  }

  /** The stored, non-negated form of a handle of either polarity. */
  function Norm(h: int): (r: nat)
    ensures h >= 0 ==> r == h
    ensures h < 0 ==> Neg(r) == h
  {
    if h >= 0 then h else Neg(h)
  }

  /** Every handle of a query, normalised. */
  function NormAll(s: seq<int>): (r: seq<nat>)
    ensures |r| == |s|
    ensures forall k :: 0 <= k < |s| ==> r[k] == Norm(s[k])
  {
    seq(|s|, k requires 0 <= k < |s| => Norm(s[k]))
  }

  /** Negation is its own inverse, and both polarities normalise to the same handle. */
  lemma NegInvolutive(h: int)
    ensures Neg(Neg(h)) == h
    ensures Norm(Neg(h)) == Norm(h)
    ensures h >= 0 ==> Norm(Neg(h)) == h
  {
  }
}
