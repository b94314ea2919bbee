/** The inference examples of the library's test suite, on the part of its
    network that each query reads: `c` depends on `a` (P(a) = 0.3,
    P(c | a) = 0.8, P(c | ~a) = 0.4), and `d` depends on `a` and `b`
    (P(b) = 0.6, P(d | a, b) = 0.7, P(d | a, ~b) = 0.8, P(d | ~a, b) = 0.1,
    P(d | ~a, ~b) = 0.2). */
module Worked {
  import opened Handles
  import opened Bits
  import opened Model
  import opened Index
  import opened Inference
  import opened Registry
  import opened Builder
  import opened Findings
  import opened Theorems
  import opened Complement

  /** A handle in the given polarity. */
  function H(h: nat, positive: bool): (r: int)
    ensures Norm(r) == h && (r >= 0 <==> positive)
  {
    if positive then h else Neg(h)
  }

  /** The probability of an outcome, or of its complement. */
  function Pol(v: real, positive: bool): real
  {
    if positive then v else 1.0 - v
  }

  /** Events `a` (handle 0) and `c` (handle 1), `c` depending on `a`. */
  function AC(): (net: seq<EventRecord>)
    ensures |net| == 2 && NetInRange(net)
  {
    [EventRecord(Text("A"), Scalar(0.3), []),
     EventRecord(Text("C"), Table(map[1 := 0.8, 0 := 0.4]), [0])]
  }

  /** Events `a` (0), `b` (1) and `d` (2), `d` depending on `a` and `b`. */
  function ABD(): (net: seq<EventRecord>)
    ensures |net| == 3 && NetInRange(net)
  {
    [EventRecord(Text("A"), Scalar(0.3), []),
     EventRecord(Text("B"), Scalar(0.6), []),
     EventRecord(Text("D"), Table(map[3 := 0.7, 1 := 0.8, 2 := 0.1, 0 := 0.2]), [0, 1])]
  }

  /** `P(c | a)` and `P(d | a, b)` as tabled. */
  function TableC(a: bool): real
  {
    if a then 0.8 else 0.4
  }

  function TableD(a: bool, b: bool): real
  {
    if a && b then 0.7 else if a then 0.8 else if b then 0.1 else 0.2
  }

  /** `P(c).given(a).is(0.8).given(~a).is(0.4)`. */
  method TableOfC(a: nat, c: nat) returns (f: Fact)
    ensures f == Fact(c, [a], Table(map[1 := 0.8, 0 := 0.4]))
  {
    var pc := new Probability.P(c, []);
    pc.Given([a]);
    var ok := pc.Is(0.8);
    pc.Given([Neg(a)]);
    ok := pc.Is(0.4);
    f := pc.AsFact();
  }

  /** `EVENT`, `P(..).given(..).is(..)` and `facts` build `AC`. */
  method BuildAC() returns (events: seq<EventRecord>, err: Option<Error>)
    ensures err.None? && events == AC()
  {
    var net := new Network();
    var a := net.Event(Some(Text("A")));
    var c := net.Event(Some(Text("C")));
    var pa := new Probability.P(a, []);
    var ok := pa.Is(0.3);
    var f1 := pa.AsFact();
    var f2 := TableOfC(a, c);
    assert f1 == Fact(0, [], Scalar(0.3));
    var n0 := net.events;
    var n1 := [AC()[0], n0[1]];
    assert n0[0 := n1[0]] == n1;
    assert n1[1 := AC()[1]] == AC();
    assert [f1, f2][1..] == [f2] && [f2][1..] == [];
    assert Commit(n0, [f1, f2]) == Commit(n1, [f2]) == Commit(AC(), []) == (AC(), None);
    err := net.Facts([f1, f2]);
    events := net.events;
  }

  /** `P(d).given(a, b).is(0.7).given(a, ~b).is(0.8).given(~a, b).is(0.1).given(~a, ~b).is(0.2)`. */
  method TableOfD(a: nat, b: nat, d: nat) returns (f: Fact)
    ensures f == Fact(d, [a, b], Table(map[3 := 0.7, 1 := 0.8, 2 := 0.1, 0 := 0.2]))
  {
    var pd := new Probability.P(d, []);
    pd.Given([a, b]);
    var ok := pd.Is(0.7);
    pd.Given([a, Neg(b)]);
    ok := pd.Is(0.8);
    pd.Given([Neg(a), b]);
    ok := pd.Is(0.1);
    pd.Given([Neg(a), Neg(b)]);
    ok := pd.Is(0.2);
    f := pd.AsFact();
  }

  /** ... and `ABD`, with the four rows of `d`'s table. */
  method BuildABD() returns (events: seq<EventRecord>, err: Option<Error>)
    ensures err.None? && events == ABD()
  {
    var net := new Network();
    var a := net.Event(Some(Text("A")));
    var b := net.Event(Some(Text("B")));
    var d := net.Event(Some(Text("D")));
    var pa := new Probability.P(a, []);
    var ok := pa.Is(0.3);
    var pb := new Probability.P(b, []);
    ok := pb.Is(0.6);
    var f1, f2 := pa.AsFact(), pb.AsFact();
    var f3 := TableOfD(a, b, d);
    assert f1 == Fact(0, [], Scalar(0.3));
    assert f2 == Fact(1, [], Scalar(0.6));
    var n0 := net.events;
    var n1 := [ABD()[0], n0[1], n0[2]];
    var n2 := [ABD()[0], ABD()[1], n0[2]];
    assert n0[0 := n1[0]] == n1;
    assert n1[1 := ABD()[1]] == n2;
    assert n2[2 := ABD()[2]] == ABD();
    assert [f1, f2, f3][1..] == [f2, f3] && [f2, f3][1..] == [f3] && [f3][1..] == [];
    assert Commit(n0, [f1, f2, f3]) == Commit(n1, [f2, f3]) == Commit(n2, [f3]) == Commit(ABD(), []) == (ABD(), None);
    err := net.Facts([f1, f2, f3]);
    events := net.events;
  }

  /** A joint probability of two terms is the product of their factors. */
  lemma JointOfTwo(net: seq<EventRecord>, x: int, y: int)
    ensures Joint(net, [x, y]) == Times(Times(Ok(1.0), Factor(net, x, [x, y])), Factor(net, y, [x, y]))
  {
    var ts := [x, y];
    ProductStep(net, ts, 0, ts);
    ProductStep(net, ts, 1, ts);
    assert ts[..0] == [] && ts[..2] == ts;
  }

  /** Two terms whose factors are known multiply out to their product. */
  lemma JointOfTwoFactors(net: seq<EventRecord>, x: int, y: int, fx: real, fy: real)
    requires Factor(net, x, [x, y]) == Ok(fx) && Factor(net, y, [x, y]) == Ok(fy)
    ensures Joint(net, [x, y]) == Ok(fx * fy)
  {
    JointOfTwo(net, x, y);
    assert 1.0 * fx == fx;
  }

  /** A joint probability of three terms is the product of their factors. */
  lemma JointOfThree(net: seq<EventRecord>, x: int, y: int, z: int)
    ensures Joint(net, [x, y, z]) ==
      Times(Times(Times(Ok(1.0), Factor(net, x, [x, y, z])), Factor(net, y, [x, y, z])), Factor(net, z, [x, y, z]))
  {
    var ts := [x, y, z];
    ProductStep(net, ts, 0, ts);
    ProductStep(net, ts, 1, ts);
    ProductStep(net, ts, 2, ts);
    assert ts[..0] == [] && ts[..3] == ts;
  }

  /** Three terms whose factors are known multiply out to their product. */
  lemma JointOfThreeFactors(net: seq<EventRecord>, x: int, y: int, z: int, fx: real, fy: real, fz: real)
    requires Factor(net, x, [x, y, z]) == Ok(fx)
    requires Factor(net, y, [x, y, z]) == Ok(fy)
    requires Factor(net, z, [x, y, z]) == Ok(fz)
    ensures Joint(net, [x, y, z]) == Ok(fx * fy * fz)
  {
    JointOfThree(net, x, y, z);
    assert 1.0 * fx == fx;
  }

  /** A lookup of a root event: its scalar, complemented when negated. */
  lemma RootFactor(net: seq<EventRecord>, h: nat, v: real, positive: bool, all: seq<int>)
    requires h < |net| && net[h].probabilities == Scalar(v) && net[h].depends == []
    ensures Factor(net, H(h, positive), all) == Ok(Pol(v, positive))
  {
    assert ApplyConditions([], all) == [];
  }

  /** `c`'s factor reads the row of `a`'s polarity among the terms. */
  lemma FactorC(c: bool, a: bool, all: seq<int>)
    requires H(0, a) in all && Neg(H(0, a)) !in all
    ensures Factor(AC(), H(1, c), all) == Ok(Pol(TableC(a), c))
  {
    var deps := ApplyConditions([0], all);
    NegInvolutive(0);
    assert deps == [H(0, a)];
    assert Slot(deps) == if a then 1 else 0;
  }

  /** `d`'s factor reads the row of `a`'s and `b`'s polarities among the terms. */
  lemma FactorD(d: bool, a: bool, b: bool, all: seq<int>)
    requires H(0, a) in all && Neg(H(0, a)) !in all
    requires H(1, b) in all && Neg(H(1, b)) !in all
    ensures Factor(ABD(), H(2, d), all) == Ok(Pol(TableD(a, b), d))
  {
    var deps := ApplyConditions([0, 1], all);
    NegInvolutive(0);
    NegInvolutive(1);
    assert deps == [H(0, a), H(1, b)];
    assert Slot(deps) == (if a then 1 else 0) + 2 * (if b then 1 else 0);
  }

  /** P(c, a) in any polarities: P(c | a) · P(a). */
  lemma JointAC(c: bool, a: bool)
    ensures Joint(AC(), [H(1, c), H(0, a)]) == Ok(Pol(TableC(a), c) * Pol(0.3, a))
  {
    var all := [H(1, c), H(0, a)];
    JointOfTwo(AC(), H(1, c), H(0, a));
    FactorC(c, a, all);
    RootFactor(AC(), 0, 0.3, a, all);
    var fc, fa := Pol(TableC(a), c), Pol(0.3, a);
    assert Joint(AC(), all) == Times(Times(Ok(1.0), Ok(fc)), Ok(fa));
    assert 1.0 * fc == fc;
  }

  /** P(d, a, b) in any polarities: P(d | a, b) · P(a) · P(b). */
  lemma JointABD(d: bool, a: bool, b: bool)
    ensures Joint(ABD(), [H(2, d), H(0, a), H(1, b)]) == Ok(Pol(TableD(a, b), d) * Pol(0.3, a) * Pol(0.6, b))
  {
    var all := [H(2, d), H(0, a), H(1, b)];
    assert all[0] == H(2, d) && all[1] == H(0, a) && all[2] == H(1, b);
    assert Factor(ABD(), H(2, d), all) == Ok(Pol(TableD(a, b), d)) by {
      NegInvolutive(0);
      NegInvolutive(1);
      assert Norm(all[0]) == 2 && Norm(Neg(H(0, a))) == 0 && Norm(Neg(H(1, b))) == 1;
      FactorD(d, a, b, all);
    }
    assert Factor(ABD(), H(0, a), all) == Ok(Pol(0.3, a)) by {
      RootFactor(ABD(), 0, 0.3, a, all);
    }
    assert Factor(ABD(), H(1, b), all) == Ok(Pol(0.6, b)) by {
      RootFactor(ABD(), 1, 0.6, b, all);
    }
    JointOfThreeFactors(ABD(), H(2, d), H(0, a), H(1, b), Pol(TableD(a, b), d), Pol(0.3, a), Pol(0.6, b));
  }

  /** Querying `c` or `~c` alone in `AC` leaves `a` as the nuisance variable. */
  lemma NumeratorAC(c: bool)
    ensures Nuisance(AC(), [H(1, c)], []) == [0]
    ensures Numerator(AC(), [H(1, c)], []) == Ok(Pol(0.4, c) * 0.7 + Pol(0.8, c) * 0.3)
  {
    assert NormAll([H(1, c)] + []) == [1];
    assert Unlisted(2, [1]) == Unlisted(1, [1]) == [0];
    SingleAssign(0);
    assert Pow2(1) == 2;
    var combos := Combinations([], [0]);
    assert combos[0] == [] + Assign([0], 0) && combos[1] == [] + Assign([0], 1);
    assert |combos| == 2;
    assert combos[0] == [Neg(0)];
    assert combos[1] == [0];
    assert combos == [[Neg(0)], [0]];
    var t := H(1, c);
    assert Joint(AC(), [t] + combos[0]) == Ok(Pol(0.4, c) * 0.7) by {
      assert [t] + combos[0] == [t, H(0, false)];
      JointAC(c, false);
    }
    assert Joint(AC(), [t] + combos[1]) == Ok(Pol(0.8, c) * 0.3) by {
      assert [t] + combos[1] == [t, H(0, true)];
      JointAC(c, true);
    }
    SumJointOfTwo(AC(), [H(1, c)], combos, Pol(0.4, c) * 0.7, Pol(0.8, c) * 0.3);
  }

  /** Querying `d` or `~d` alone in `ABD` leaves `a` and `b` as nuisance variables. */
  lemma NuisanceOfD(d: bool)
    ensures Nuisance(ABD(), [H(2, d)], []) == [0, 1]
  {
    assert NormAll([H(2, d)] + []) == [2];
    assert Unlisted(3, [2]) == Unlisted(2, [2]) == Unlisted(1, [2]) + [1] == [0, 1];
  }

  /** The joint probability of `d` with each assignment of `a` and `b`, in
      counter order. */
  lemma JointsOfD(d: bool, combos: seq<seq<int>>)
    requires combos == [[Neg(0), Neg(1)], [0, Neg(1)], [Neg(0), 1], [0, 1]]
    ensures Joint(ABD(), [H(2, d)] + combos[0]) == Ok(Pol(0.2, d) * 0.7 * 0.4)
    ensures Joint(ABD(), [H(2, d)] + combos[1]) == Ok(Pol(0.8, d) * 0.3 * 0.4)
    ensures Joint(ABD(), [H(2, d)] + combos[2]) == Ok(Pol(0.1, d) * 0.7 * 0.6)
    ensures Joint(ABD(), [H(2, d)] + combos[3]) == Ok(Pol(0.7, d) * 0.3 * 0.6)
  {
    var t := H(2, d);
    assert Joint(ABD(), [t] + combos[0]) == Ok(Pol(0.2, d) * 0.7 * 0.4) by {
      assert [t] + combos[0] == [t, H(0, false), H(1, false)];
      JointABD(d, false, false);
    }
    assert Joint(ABD(), [t] + combos[1]) == Ok(Pol(0.8, d) * 0.3 * 0.4) by {
      assert [t] + combos[1] == [t, H(0, true), H(1, false)];
      JointABD(d, true, false);
    }
    assert Joint(ABD(), [t] + combos[2]) == Ok(Pol(0.1, d) * 0.7 * 0.6) by {
      assert [t] + combos[2] == [t, H(0, false), H(1, true)];
      JointABD(d, false, true);
    }
    assert Joint(ABD(), [t] + combos[3]) == Ok(Pol(0.7, d) * 0.3 * 0.6) by {
      assert [t] + combos[3] == [t, H(0, true), H(1, true)];
      JointABD(d, true, true);
    }
  }

  /** Querying `d` or `~d` alone sums P(d | a, b) · P(a) · P(b) over `a` and `b`. */
  lemma NumeratorABD(d: bool)
    ensures Nuisance(ABD(), [H(2, d)], []) == [0, 1]
    ensures Numerator(ABD(), [H(2, d)], []) ==
      Ok(Pol(0.2, d) * 0.7 * 0.4 + Pol(0.8, d) * 0.3 * 0.4 + Pol(0.1, d) * 0.7 * 0.6 + Pol(0.7, d) * 0.3 * 0.6)
  {
    NuisanceOfD(d);
    TwoVariables(0, 1);
    var combos := Combinations([], [0, 1]);
    JointsOfD(d, combos);
    SumJointOfFour(ABD(), [H(2, d)], combos, Pol(0.2, d) * 0.7 * 0.4, Pol(0.8, d) * 0.3 * 0.4,
      Pol(0.1, d) * 0.7 * 0.6, Pol(0.7, d) * 0.3 * 0.6);
  }

  /** `+P(a)` answers 0.3 and `+P(c).given(a)` answers 0.8, both from the table. */
  lemma StoredAnswers()
    ensures Posterior(AC(), [0], []) == Ok(0.3)
    ensures Posterior(AC(), [1], [0]) == Ok(0.8)
  {
    assert Slot([0]) == 1;
  }

  /** `+P(c)` sums over `a`: 0.4 · 0.7 + 0.8 · 0.3 = 0.52. */
  lemma MarginalOfC()
    ensures Posterior(AC(), [1], []) == Ok(0.52)
  {
    assert Numerator(AC(), [1], []) == Ok(0.52) by {
      NumeratorAC(true);
      assert 0.4 * 0.7 + 0.8 * 0.3 == 0.52;
    }
    assert Numerator(AC(), [Neg(1)], []) == Ok(0.48) by {
      NumeratorAC(false);
      assert (1.0 - 0.4) * 0.7 + (1.0 - 0.8) * 0.3 == 0.48;
    }
    assert PerfectMatch(AC(), 1, []) == Success(false);
    PosteriorOfNumerators(AC(), 1, [], 0.52, 0.48);
  }

  /** Observing `c` binds every event of `AC`: nothing is left to sum over. */
  lemma ObservedC()
    ensures Nuisance(AC(), [0], [1]) == []
  {
    assert NormAll([0, 1]) == [0, 1];
    NoNuisance(AC(), [0, 1]);
    assert [0] + [1] == [0, 1] + [];
  }

  /** With every event bound there is one list to sum, so the numerator is
      the joint probability of the targets and the observations. */
  lemma NumeratorOfObserved(net: seq<EventRecord>, events: seq<int>, deps: seq<int>, v: real)
    requires Nuisance(net, events, deps) == []
    requires Joint(net, events + deps) == Ok(v)
    ensures Numerator(net, events, deps) == Ok(v)
  {
    var top := Combinations(deps, []);
    assert Pow2(0) == 1 && Assign([], 0) == [];
    assert top[0] == deps && |top| == 1;
    assert top[..1] == top && top[..0] == [];
    SumJointStep(net, events, top, 0);
    assert 0.0 + v == v;
  }

  /** The numerator of P(a | c) is P(a, c) = 0.3 · 0.8. */
  lemma NumeratorOfA()
    ensures Numerator(AC(), [0], [1]) == Ok(0.24)
  {
    ObservedC();
    assert Joint(AC(), [0] + [1]) == Ok(0.24) by {
      JointAC(true, true);
      assert [H(1, true), H(0, true)] == [1] + [0];
      JointRotate(AC(), [1], [0]);
      assert [0] + [1] == [0, 1];
      assert 0.8 * 0.3 == 0.24;
    }
    NumeratorOfObserved(AC(), [0], [1], 0.24);
  }

  /** The denominator of P(a | c) is P(c) = 0.4 · 0.7 + 0.8 · 0.3. */
  lemma DenominatorOfA()
    ensures Denominator(AC(), [0], [1]) == Ok(0.52)
  {
    ObservedC();
    SingleAssign(0);
    assert Pow2(1) == 2;
    var bottom := Combinations([1], [] + [0]);
    assert bottom[0] == [1] + Assign([0], 0) && bottom[1] == [1] + Assign([0], 1);
    assert |bottom| == 2;
    assert [] + bottom[0] == [1, Neg(0)] && [] + bottom[1] == [1, 0];
    JointAC(true, false);
    JointAC(true, true);
    SumJointOfTwo(AC(), [], bottom, 0.4 * 0.7, 0.8 * 0.3);
    assert 0.4 * 0.7 + 0.8 * 0.3 == 0.52;
  }

  /** `+P(a).given(c)` inverts the table by Bayes' rule: 0.24 / 0.52 = 6/13. */
  lemma PosteriorOfA()
    ensures Posterior(AC(), [0], [1]) == Ok(6.0 / 13.0)
  {
    NumeratorOfA();
    DenominatorOfA();
    assert PerfectMatch(AC(), 0, [1]) == Success(false);
    PosteriorOfRatio(AC(), 0, [1], 0.24, 0.52);
    assert 0.24 / 0.52 == 6.0 / 13.0;
  }

  /** `+P(d)` sums over `a` and `b`: 0.32. */
  lemma MarginalOfD()
    ensures Posterior(ABD(), [2], []) == Ok(0.32)
  {
    assert Numerator(ABD(), [2], []) == Ok(0.32) by {
      NumeratorABD(true);
      assert 0.2 * 0.7 * 0.4 + 0.8 * 0.3 * 0.4 + 0.1 * 0.7 * 0.6 + 0.7 * 0.3 * 0.6 == 0.32;
    }
    assert Numerator(ABD(), [Neg(2)], []) == Ok(0.68) by {
      NumeratorABD(false);
      assert (1.0 - 0.2) * 0.7 * 0.4 + (1.0 - 0.8) * 0.3 * 0.4 + (1.0 - 0.1) * 0.7 * 0.6 + (1.0 - 0.7) * 0.3 * 0.6 == 0.68;
    }
    assert PerfectMatch(ABD(), 2, []) == Success(false);
    PosteriorOfNumerators(ABD(), 2, [], 0.32, 0.68);
  }
}
