/** The lookup shortcut of `conditionalProbability` as the source writes it:
    it inspects only the first target, so a joint query whose first target is
    given exactly its stored dependencies is answered with that target's own
    probability and the other targets are ignored. */
module Findings {
  import opened Handles
  import opened Bits
  import opened Model
  import opened Inference

  /** `conditionalProbability` as written: the shortcut tests `events[0]` alone. */
  function PosteriorAsWritten(net: seq<EventRecord>, events: seq<int>, deps: seq<int>): (r: Prob)
    requires |events| > 0
    ensures |events| == 1 ==> r == Posterior(net, events, deps)
  {
    if Norm(events[0]) >= |net| then Err(NoSuchEvent(Norm(events[0])))
    else if PerfectMatch(net, events[0], deps) == Success(true) then GetProbability(net, events[0], deps)
    else
      var num :- Numerator(net, events, deps);
      var den :- Denominator(net, events, deps);
      if den == 0.0 then Err(ZeroDenominator) else Ok(num / den)
  }

  /** Two independent events with no dependencies: P(a) = 0.5, P(d) = 0.2. */
  function TwoRoots(): (net: seq<EventRecord>)
    ensures |net| == 2 && NetInRange(net)
  {
    [EventRecord(Number(0), Scalar(0.5), []), EventRecord(Number(1), Scalar(0.2), [])]
  }

  /** As written, P(a, d) is P(a) and P(d, a) is P(d): the answer to a joint
      query depends on the order of its targets, and neither is P(a)·P(d). */
  lemma AsWrittenIgnoresLaterTargets()
    ensures PosteriorAsWritten(TwoRoots(), [0, 1], []) == Ok(0.5)
    ensures PosteriorAsWritten(TwoRoots(), [1, 0], []) == Ok(0.2)
  {
  }

  lemma {:induction false} NothingUnlisted(n: nat, processed: seq<nat>)
    requires forall x :: 0 <= x < n ==> x in processed
    ensures Unlisted(n, processed) == []
  {
    if n > 0 {
      NothingUnlisted(n - 1, processed);
    }
  }

  lemma NoNuisance(net: seq<EventRecord>, events: seq<int>)
    requires forall x :: 0 <= x < |net| ==> x in NormAll(events)
    ensures Nuisance(net, events, []) == []
  {
    assert events + [] == events;
    NothingUnlisted(|net|, NormAll(events));
  }

  /** Enumerating two variables visits the four polarity patterns in counter order. */
  lemma TwoVariables(a: int, d: int)
    ensures Combinations([], [a, d]) == [[Neg(a), Neg(d)], [a, Neg(d)], [Neg(a), d], [a, d]]
  {
    var c := Combinations([], [a, d]);
    assert Pow2(2) == 4;
    assert Bit(1, 1) == Bit(0, 0) && Bit(2, 1) == Bit(1, 0) && Bit(3, 1) == Bit(1, 0);
    assert c[0] == [] + Assign([a, d], 0) == [Neg(a), Neg(d)];
    assert c[1] == [] + Assign([a, d], 1) == [a, Neg(d)];
    assert c[2] == [] + Assign([a, d], 2) == [Neg(a), d];
    assert c[3] == [] + Assign([a, d], 3) == [a, d];
  }

  /** The probability `TwoRoots` gives a term: 0.5 for either polarity of the
      first event, 0.2 and 0.8 for the second. */
  function Chance(t: int): real
  {
    if Norm(t) == 0 then 0.5 else if t >= 0 then 0.2 else 0.8
  }

  lemma LookupOfTwoRoots(t: int)
    requires Norm(t) < 2
    ensures GetProbability(TwoRoots(), t, []) == Ok(Chance(t))
  {
  }

  /** A two-term joint probability over `TwoRoots` multiplies the two lookups. */
  lemma JointOfTwoRoots(x: int, y: int)
    requires Norm(x) < 2 && Norm(y) < 2
    ensures Joint(TwoRoots(), [x, y]) == Ok(Chance(x) * Chance(y))
  {
    var net := TwoRoots();
    assert [x, y][..1] == [x] && [x][..0] == [];
    assert ApplyConditions([], [x, y]) == [];
    LookupOfTwoRoots(x);
    LookupOfTwoRoots(y);
    assert Product(net, [x], [x, y]) == Ok(1.0 * Chance(x));
    assert 1.0 * Chance(x) * Chance(y) == Chance(x) * Chance(y);
  }

  /** Over `TwoRoots` the denominator of a query for both events enumerates
      their four polarity patterns. */
  lemma DenominatorOfTwoRoots(a: nat, d: nat)
    requires (a == 0 && d == 1) || (a == 1 && d == 0)
    ensures Denominator(TwoRoots(), [a, d], []) ==
      SumJoint(TwoRoots(), [], [[Neg(a), Neg(d)], [a, Neg(d)], [Neg(a), d], [a, d]])
  {
    var net := TwoRoots();
    assert NormAll([a, d])[0] == a && NormAll([a, d])[1] == d;
    NoNuisance(net, [a, d]);
    assert [] + [a, d] == [a, d];
    TwoVariables(a, d);
  }

  /** ... and the four joint probabilities add up to one. */
  lemma DenominatorIsOne(a: nat, d: nat)
    requires (a == 0 && d == 1) || (a == 1 && d == 0)
    ensures Denominator(TwoRoots(), [a, d], []) == Ok(1.0)
  {
    DenominatorOfTwoRoots(a, d);
    NegInvolutive(a);
    NegInvolutive(d);
    JointOfTwoRoots(Neg(a), Neg(d));
    JointOfTwoRoots(a, Neg(d));
    JointOfTwoRoots(Neg(a), d);
    JointOfTwoRoots(a, d);
    var c := [[Neg(a), Neg(d)], [a, Neg(d)], [Neg(a), d], [a, d]];
    assert forall k :: 0 <= k < 4 ==> [] + c[k] == c[k];
    SumJointOfFour(TwoRoots(), [], c, Chance(Neg(a)) * Chance(Neg(d)), Chance(a) * Chance(Neg(d)),
      Chance(Neg(a)) * Chance(d), Chance(a) * Chance(d));
    if a == 0 {
      assert 0.5 * 0.8 + 0.5 * 0.8 + 0.5 * 0.2 + 0.5 * 0.2 == 1.0;
    } else {
      assert 0.8 * 0.5 + 0.2 * 0.5 + 0.8 * 0.5 + 0.2 * 0.5 == 1.0;
    }
  }

  /** Over `TwoRoots` the numerator of a query for both events is their
      joint probability, 0.5 · 0.2. */
  lemma NumeratorOfTwoRoots(a: nat, d: nat)
    requires (a == 0 && d == 1) || (a == 1 && d == 0)
    ensures Numerator(TwoRoots(), [a, d], []) == Ok(0.1)
  {
    var net := TwoRoots();
    assert NormAll([a, d])[0] == a && NormAll([a, d])[1] == d;
    NoNuisance(net, [a, d]);
    assert Combinations([], []) == [[]];
    var none: seq<seq<int>> := [[]];
    assert none[..1] == none && none[..0] == [];
    assert [a, d] + none[0] == [a, d];
    JointOfTwoRoots(a, d);
    assert Chance(a) * Chance(d) == 0.1;
    SumJointStep(net, [a, d], none, 0);
    assert SumJoint(net, [a, d], none) == Ok(0.0 + 0.1);
  }

  /** On the same network the corrected query answers P(a, d) = P(a)·P(d) = 0.1
      in either order. */
  lemma CorrectedAnswersJointQuery(a: nat, d: nat)
    requires (a == 0 && d == 1) || (a == 1 && d == 0)
    ensures Posterior(TwoRoots(), [a, d], []) == Ok(0.1)
  {
    NumeratorOfTwoRoots(a, d);
    DenominatorIsOne(a, d);
    assert 0.1 / 1.0 == 0.1;
  }
}
