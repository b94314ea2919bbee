/** `facts` stores whatever dependencies it is given: it checks neither that
    they form no cycle nor that every slot of a table is filled. The joint
    probabilities of such a network need not add up to one. Here `a` and `b`
    each copy the other (P(a | b) = 1, P(a | ~b) = 0, and the same for `b`),
    and the denominator of `+P(a)` comes out as 2. */
module Cycles {
  import opened Handles
  import opened Model
  import opened Index
  import opened Inference
  import opened Findings
  import opened Worked

  /** Events `a` (handle 0) and `b` (handle 1), each depending on the other. */
  function Mutual(): (net: seq<EventRecord>)
    ensures |net| == 2 && NetInRange(net)
  {
    [EventRecord(Text("A"), Table(map[1 := 1.0, 0 := 0.0]), [1]),
     EventRecord(Text("B"), Table(map[1 := 1.0, 0 := 0.0]), [0])]
  }

  /** The row both tables hold: certainty that the event agrees with the other. */
  function Copy(other: bool): real
  {
    if other then 1.0 else 0.0
  }

  /** Each event's factor reads the row of the other event's polarity. */
  lemma FactorMutual(h: nat, x: bool, y: bool, all: seq<int>)
    requires h < 2
    requires H(1 - h, y) in all && Neg(H(1 - h, y)) !in all
    ensures Factor(Mutual(), H(h, x), all) == Ok(Pol(Copy(y), x))
  {
    var deps := ApplyConditions([1 - h], all);
    NegInvolutive(1 - h);
    assert deps == [H(1 - h, y)];
    assert Slot(deps) == if y then 1 else 0;
  }

  /** P(b, a) in any polarities is P(b | a) · P(a | b): 1 when the two
      polarities agree, 0 when they differ. */
  lemma JointMutual(b: bool, a: bool)
    ensures Joint(Mutual(), [H(1, b), H(0, a)]) == Ok(if a == b then 1.0 else 0.0)
  {
    var all := [H(1, b), H(0, a)];
    assert all[0] == H(1, b) && all[1] == H(0, a);
    assert Factor(Mutual(), H(1, b), all) == Ok(Pol(Copy(a), b)) by {
      NegInvolutive(0);
      FactorMutual(1, b, a, all);
    }
    assert Factor(Mutual(), H(0, a), all) == Ok(Pol(Copy(b), a)) by {
      NegInvolutive(1);
      FactorMutual(0, a, b, all);
    }
    var fb, fa := Pol(Copy(a), b), Pol(Copy(b), a);
    JointOfTwoFactors(Mutual(), H(1, b), H(0, a), fb, fa);
    assert fb * fa == if a == b then 1.0 else 0.0;
  }

  /** Querying `a` alone leaves `b` as the nuisance variable. */
  lemma MutualNuisance()
    ensures Nuisance(Mutual(), [0], []) == [1]
  {
    assert NormAll([0] + []) == [0];
    assert Unlisted(2, [0]) == Unlisted(1, [0]) + [1] == [1];
  }

  /** The joint probability of each assignment of `b` and `a`, in counter
      order: 1 when they agree, 0 when they differ. */
  lemma MutualJoints(combos: seq<seq<int>>)
    requires combos == [[Neg(1), Neg(0)], [1, Neg(0)], [Neg(1), 0], [1, 0]]
    ensures Joint(Mutual(), [] + combos[0]) == Ok(1.0) && Joint(Mutual(), [] + combos[1]) == Ok(0.0)
    ensures Joint(Mutual(), [] + combos[2]) == Ok(0.0) && Joint(Mutual(), [] + combos[3]) == Ok(1.0)
  {
    assert Joint(Mutual(), [] + combos[0]) == Ok(1.0) by {
      assert [] + combos[0] == [H(1, false), H(0, false)];
      JointMutual(false, false);
    }
    assert Joint(Mutual(), [] + combos[1]) == Ok(0.0) by {
      assert [] + combos[1] == [H(1, true), H(0, false)];
      JointMutual(true, false);
    }
    assert Joint(Mutual(), [] + combos[2]) == Ok(0.0) by {
      assert [] + combos[2] == [H(1, false), H(0, true)];
      JointMutual(false, true);
    }
    assert Joint(Mutual(), [] + combos[3]) == Ok(1.0) by {
      assert [] + combos[3] == [H(1, true), H(0, true)];
      JointMutual(true, true);
    }
  }

  /** Summed over all four assignments of `b` and `a`, the joint probability
      is 2: (~b, ~a) and (b, a) each contribute 1. */
  lemma MutualTotal()
    ensures SumJoint(Mutual(), [], Combinations([], [1, 0])) == Ok(2.0)
  {
    TwoVariables(1, 0);
    var combos := Combinations([], [1, 0]);
    MutualJoints(combos);
    SumJointOfFour(Mutual(), [], combos, 1.0, 0.0, 0.0, 1.0);
  }

  /** The denominator of `+P(a)`, the total that Bayes' rule divides by, is 2. */
  lemma MutualDenominator()
    ensures Denominator(Mutual(), [0], []) == Ok(2.0)
  {
    MutualNuisance();
    assert [1] + [0] == [1, 0];
    MutualTotal();
  }
}
