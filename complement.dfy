/** An event and its negation are complementary outcomes of a query: whichever
    way `conditionalProbability` answers P(e | deps), by lookup or by Bayes'
    rule, it answers P(~e | deps) with the rest of the probability. */
module Complement {
  import opened Handles
  import opened Bits
  import opened Model
  import opened Inference
  import opened Theorems
  import opened Symmetry

  /** The two polarity patterns of a single handle, in counter order. */
  lemma SingleAssign(x: int)
    ensures Assign([x], 0) == [Neg(x)] && Assign([x], 1) == [x]
  {
    assert Bit(1, 0) && !Bit(0, 0);
  }

  /** Enumerating `vars ++ [x]` runs through `vars`' assignments twice: first
      with `x` negated, then with `x` as given. */
  lemma TwoBlocks(deps: seq<int>, vars: seq<int>, x: int)
    ensures Combinations(deps, vars + [x]) == Block(deps, vars, [x], 0) + Block(deps, vars, [x], 1)
  {
    var p := Pow2(|vars|);
    Pow2Add(|vars|, 1);
    assert Pow2(1) == 2;
    var all := Combinations(deps, vars + [x]);
    BlockSlice(deps, vars, [x], 0, 0);
    BlockSlice(deps, vars, [x], 1, p);
    assert all == all[0..p] + all[p..2 * p];
  }

  /** A block whose free target sits last sums to the numerator that puts the
      same target first. */
  lemma TargetLast(net: seq<EventRecord>, deps: seq<int>, vars: seq<int>, t: int, x: int, j: nat)
    requires Assign([x], j) == [t]
    requires SumJoint(net, [t], Combinations(deps, vars)).Ok?
    ensures SumJoint(net, [], Block(deps, vars, [x], j)) == SumJoint(net, [t], Combinations(deps, vars))
  {
    var c1, c2 := Block(deps, vars, [x], j), Combinations(deps, vars);
    forall i | 0 <= i < |c1| && Joint(net, [t] + c2[i]).Ok?
      ensures Joint(net, [] + c1[i]) == Joint(net, [t] + c2[i])
    {
      assert [] + c1[i] == c2[i] + [t];
      JointRotate(net, [t], c2[i]);
    }
    SumJointAgree(net, [], c1, [t], c2);
  }

  /** Both polarities of a target leave the same nuisance variables and take
      the shortcut together. */
  lemma SameQueryShape(net: seq<EventRecord>, e: nat, deps: seq<int>)
    ensures Nuisance(net, [Neg(e)], deps) == Nuisance(net, [e], deps)
    ensures PerfectMatch(net, Neg(e), deps) == PerfectMatch(net, e, deps)
  {
    NegInvolutive(e);
    assert NormAll([Neg(e)] + deps) == NormAll([e] + deps);
  }

  /** Bayes' denominator for `e` is the sum of the numerators for `~e` and `e`,
      and the denominator for `~e` is the same sum. */
  lemma DenominatorSplits(net: seq<EventRecord>, e: nat, deps: seq<int>)
    requires Numerator(net, [e], deps).Ok? && Numerator(net, [Neg(e)], deps).Ok?
    requires Nuisance(net, [Neg(e)], deps) == Nuisance(net, [e], deps)
    ensures Denominator(net, [e], deps) == Plus(Numerator(net, [Neg(e)], deps), Numerator(net, [e], deps))
    ensures Denominator(net, [Neg(e)], deps) == Plus(Numerator(net, [e], deps), Numerator(net, [Neg(e)], deps))
  {
    var vars := Nuisance(net, [e], deps);
    NegInvolutive(e);
    SingleAssign(e);
    SingleAssign(Neg(e));
    TwoBlocks(deps, vars, e);
    TwoBlocks(deps, vars, Neg(e));
    TargetLast(net, deps, vars, e, e, 1);
    TargetLast(net, deps, vars, Neg(e), e, 0);
    TargetLast(net, deps, vars, e, Neg(e), 0);
    TargetLast(net, deps, vars, Neg(e), Neg(e), 1);
    SumJointAppend(net, [], Block(deps, vars, [e], 0), Block(deps, vars, [e], 1));
    SumJointAppend(net, [], Block(deps, vars, [Neg(e)], 0), Block(deps, vars, [Neg(e)], 1));
  }

  /** Two shares of one non-zero total add up to one. */
  lemma SharesOfTotal(a: real, b: real)
    requires a + b != 0.0
    ensures a / (b + a) + b / (a + b) == 1.0
  {
    assert b + a == a + b;
    assert a / (a + b) + b / (a + b) == (a + b) / (a + b);
  }

  /** A query answered by Bayes' rule is the numerator over the denominator. */
  lemma PosteriorIsRatio(net: seq<EventRecord>, events: seq<int>, deps: seq<int>)
    requires |events| > 0 && Posterior(net, events, deps).Ok?
    requires !Shortcut(net, events, deps)
    ensures Numerator(net, events, deps).Ok? && Denominator(net, events, deps).Ok?
    ensures Denominator(net, events, deps).value != 0.0
    ensures Posterior(net, events, deps).value == Numerator(net, events, deps).value / Denominator(net, events, deps).value
  {
  }

  /** Conversely, a query that does not take the shortcut and has a non-zero
      denominator is answered with the numerator over the denominator. */
  lemma PosteriorOfRatio(net: seq<EventRecord>, e: nat, deps: seq<int>, num: real, den: real)
    requires e < |net| && !Shortcut(net, [e], deps)
    requires Numerator(net, [e], deps) == Ok(num) && Denominator(net, [e], deps) == Ok(den)
    requires den != 0.0
    ensures Posterior(net, [e], deps) == Ok(num / den)
  {
  }

  /** When the numerators for `e` and `~e` add up to one, so does the
      denominator, and the answer for `e` is its numerator. */
  lemma PosteriorOfNumerators(net: seq<EventRecord>, e: nat, deps: seq<int>, p: real, q: real)
    requires e < |net| && !Shortcut(net, [e], deps)
    requires Numerator(net, [e], deps) == Ok(p) && Numerator(net, [Neg(e)], deps) == Ok(q)
    requires q + p == 1.0
    ensures Posterior(net, [e], deps) == Ok(p)
  {
    assert Denominator(net, [e], deps) == Ok(1.0) by {
      SameQueryShape(net, e, deps);
      DenominatorSplits(net, e, deps);
    }
    PosteriorOfUnitDenominator(net, e, deps, p);
  }

  /** With a denominator of one, the answer is the numerator itself. */
  lemma PosteriorOfUnitDenominator(net: seq<EventRecord>, e: nat, deps: seq<int>, p: real)
    requires e < |net| && !Shortcut(net, [e], deps)
    requires Numerator(net, [e], deps) == Ok(p) && Denominator(net, [e], deps) == Ok(1.0)
    ensures Posterior(net, [e], deps) == Ok(p)
  {
  }

  /** P(e | deps) + P(~e | deps) == 1 whenever both queries succeed. */
  lemma PosteriorComplement(net: seq<EventRecord>, e: nat, deps: seq<int>)
    requires Posterior(net, [e], deps).Ok? && Posterior(net, [Neg(e)], deps).Ok?
    ensures Posterior(net, [e], deps).value + Posterior(net, [Neg(e)], deps).value == 1.0
  {
    NegInvolutive(e);
    SameQueryShape(net, e, deps);
    if Shortcut(net, [e], deps) {
      assert Shortcut(net, [Neg(e)], deps);
      GetProbabilityComplement(net, e, deps);
    } else {
      assert !Shortcut(net, [Neg(e)], deps);
      PosteriorIsRatio(net, [e], deps);
      PosteriorIsRatio(net, [Neg(e)], deps);
      var pos, neg := Numerator(net, [e], deps).value, Numerator(net, [Neg(e)], deps).value;
      DenominatorSplits(net, e, deps);
      assert Denominator(net, [e], deps).value == neg + pos;
      assert Denominator(net, [Neg(e)], deps).value == pos + neg;
      SharesOfTotal(pos, neg);
    }
  }
}
