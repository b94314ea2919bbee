/** A query with two targets asks for P(a ∧ d | deps): its answer must not
    depend on which target is written first. */
module Symmetry {
  import opened Handles
  import opened Bits
  import opened Model
  import opened Inference
  import opened Theorems

  /** Two factors multiply to the same product in either order. */
  lemma ProductPairSwap(net: seq<EventRecord>, x: int, y: int, all: seq<int>)
    requires Product(net, [x, y], all).Ok?
    ensures Product(net, [y, x], all) == Product(net, [x, y], all)
  {
    assert [x] + [y] == [x, y] && [y] + [x] == [y, x];
    ProductAppend(net, [x], [y], all);
    ProductAppend(net, [y], [x], all);
    ProductSingle(net, x, all);
    ProductSingle(net, y, all);
    TimesComm(Factor(net, x, all), Factor(net, y, all));
  }

  /** Swapping the last two terms of a joint probability does not change it. */
  lemma JointSwapLast(net: seq<EventRecord>, s: seq<int>, x: int, y: int)
    requires Joint(net, s + [x, y]).Ok?
    ensures Joint(net, s + [y, x]) == Joint(net, s + [x, y])
  {
    var a, b := s + [x, y], s + [y, x];
    assert forall t :: t in a <==> t in b;
    ProductAppend(net, s, [x, y], a);
    ProductAppend(net, s, [y, x], b);
    ProductContext(net, s, a, b);
    ProductContext(net, [y, x], a, b);
    ProductPairSwap(net, x, y, a);
  }

  /** Swapping the first two terms of a joint probability does not change it. */
  lemma JointSwapFirst(net: seq<EventRecord>, x: int, y: int, s: seq<int>)
    requires Joint(net, [x, y] + s).Ok?
    ensures Joint(net, [y, x] + s) == Joint(net, [x, y] + s)
  {
    JointRotate(net, [x, y], s);
    JointSwapLast(net, s, x, y);
    JointRotate(net, s, [y, x]);
  }

  /** The filter depends on the indices listed only through which of them are below `n`. */
  lemma {:induction false} UnlistedSame(n: nat, p1: seq<nat>, p2: seq<nat>)
    requires forall x :: 0 <= x < n ==> (x in p1 <==> x in p2)
    ensures Unlisted(n, p1) == Unlisted(n, p2)
  {
    if n > 0 {
      UnlistedSame(n - 1, p1, p2);
    }
  }

  /** The enumeration lists whose last two terms are the assignment `j` of `extra`. */
  function Block(deps: seq<int>, vars: seq<int>, extra: seq<int>, j: nat): (r: seq<seq<int>>)
    ensures |r| == Pow2(|vars|)
  {
    seq(Pow2(|vars|), i requires 0 <= i < Pow2(|vars|) => deps + Assign(vars, i) + Assign(extra, j))
  }

  /** The `j`-th run of `2^|vars|` lists in an enumeration of `vars ++ extra`. */
  lemma BlockSlice(deps: seq<int>, vars: seq<int>, extra: seq<int>, j: nat, lo: nat)
    requires lo == Pow2(|vars|) * j && lo + Pow2(|vars|) <= Pow2(|vars + extra|)
    ensures Combinations(deps, vars + extra)[lo..lo + Pow2(|vars|)] == Block(deps, vars, extra, j)
  {
    var all := Combinations(deps, vars + extra);
    forall i | 0 <= i < Pow2(|vars|)
      ensures all[lo..lo + Pow2(|vars|)][i] == Block(deps, vars, extra, j)[i]
    {
      CombinationsAt(deps, vars, extra, i, j, lo + i);
    }
  }

  /** A sequence of length `4p` is its four runs of length `p`. */
  lemma FourRuns<T>(s: seq<T>, p: nat)
    requires |s| == 4 * p
    ensures s == s[0..p] + s[p..2 * p] + s[2 * p..3 * p] + s[3 * p..4 * p]
  {
  }

  /** Enumerating `vars ++ [x, y]` runs through `vars`' assignments four times,
      once for each polarity pattern of `x` and `y` in counter order. */
  lemma FourBlocks(deps: seq<int>, vars: seq<int>, x: int, y: int)
    ensures Combinations(deps, vars + [x, y]) ==
      Block(deps, vars, [x, y], 0) + Block(deps, vars, [x, y], 1) + Block(deps, vars, [x, y], 2) + Block(deps, vars, [x, y], 3)
  {
    var p := Pow2(|vars|);
    Pow2Add(|vars|, 2);
    assert Pow2(2) == 4;
    var all := Combinations(deps, vars + [x, y]);
    BlockSlice(deps, vars, [x, y], 0, 0);
    BlockSlice(deps, vars, [x, y], 1, p);
    BlockSlice(deps, vars, [x, y], 2, 2 * p);
    BlockSlice(deps, vars, [x, y], 3, 3 * p);
    FourRuns(all, p);
  }

  /** The four polarity patterns of two handles, in counter order. */
  lemma PairPatterns(x: int, y: int)
    ensures Assign([x, y], 0) == [Neg(x), Neg(y)] && Assign([x, y], 1) == [x, Neg(y)]
    ensures Assign([x, y], 2) == [Neg(x), y] && Assign([x, y], 3) == [x, y]
  {
    assert Bit(1, 1) == Bit(0, 0) && Bit(2, 1) == Bit(1, 0) && Bit(3, 1) == Bit(1, 0);
  }

  /** A block whose last two terms are another block's, swapped, sums to the same. */
  lemma BlockSwap(net: seq<EventRecord>, deps: seq<int>, vars: seq<int>, x: int, y: int, j: nat, k: nat)
    requires Assign([y, x], j) == [Assign([x, y], k)[1], Assign([x, y], k)[0]]
    requires SumJoint(net, [], Block(deps, vars, [x, y], k)).Ok?
    ensures SumJoint(net, [], Block(deps, vars, [y, x], j)) == SumJoint(net, [], Block(deps, vars, [x, y], k))
  {
    var c1, c2 := Block(deps, vars, [y, x], j), Block(deps, vars, [x, y], k);
    var u, v := Assign([x, y], k)[0], Assign([x, y], k)[1];
    forall i | 0 <= i < |c1| && Joint(net, [] + c2[i]).Ok?
      ensures Joint(net, [] + c1[i]) == Joint(net, [] + c2[i])
    {
      var s := deps + Assign(vars, i);
      assert [] + c2[i] == s + [u, v];
      assert [] + c1[i] == s + [v, u];
      JointSwapLast(net, s, u, v);
    }
    SumJointAgree(net, [], c1, [], c2);
  }

  /** A sum over four runs of lists is the sum of the four runs' sums. */
  lemma SumJointFourRuns(net: seq<EventRecord>, b0: seq<seq<int>>, b1: seq<seq<int>>, b2: seq<seq<int>>, b3: seq<seq<int>>)
    ensures SumJoint(net, [], b0 + b1 + b2 + b3) ==
      Plus(Plus(Plus(SumJoint(net, [], b0), SumJoint(net, [], b1)), SumJoint(net, [], b2)), SumJoint(net, [], b3))
  {
    SumJointAppend(net, [], b0 + b1 + b2, b3);
    SumJointAppend(net, [], b0 + b1, b2);
    SumJointAppend(net, [], b0, b1);
  }

  /** Exchanging the middle two of four successful summands keeps the sum. */
  lemma PlusSwapMiddle(a: Prob, b: Prob, c: Prob, d: Prob)
    requires Plus(Plus(Plus(a, b), c), d).Ok?
    ensures Plus(Plus(Plus(a, c), b), d) == Plus(Plus(Plus(a, b), c), d)
  {
    assert a.value + c.value + b.value + d.value == a.value + b.value + c.value + d.value;
  }

  /** Bayes' denominator is the same for both orders of two targets. */
  lemma DenominatorSwap(net: seq<EventRecord>, vars: seq<int>, deps: seq<int>, x: int, y: int)
    requires SumJoint(net, [], Combinations(deps, vars + [x, y])).Ok?
    ensures SumJoint(net, [], Combinations(deps, vars + [y, x])) == SumJoint(net, [], Combinations(deps, vars + [x, y]))
  {
    FourBlocks(deps, vars, x, y);
    FourBlocks(deps, vars, y, x);
    PairPatterns(x, y);
    PairPatterns(y, x);
    var b0, b1, b2, b3 := Block(deps, vars, [x, y], 0), Block(deps, vars, [x, y], 1), Block(deps, vars, [x, y], 2), Block(deps, vars, [x, y], 3);
    var d0, d1, d2, d3 := Block(deps, vars, [y, x], 0), Block(deps, vars, [y, x], 1), Block(deps, vars, [y, x], 2), Block(deps, vars, [y, x], 3);
    SumJointFourRuns(net, b0, b1, b2, b3);
    SumJointFourRuns(net, d0, d1, d2, d3);
    var s0, s1, s2, s3 := SumJoint(net, [], b0), SumJoint(net, [], b1), SumJoint(net, [], b2), SumJoint(net, [], b3);
    BlockSwap(net, deps, vars, x, y, 0, 0);
    BlockSwap(net, deps, vars, x, y, 1, 2);
    BlockSwap(net, deps, vars, x, y, 2, 1);
    BlockSwap(net, deps, vars, x, y, 3, 3);
    PlusSwapMiddle(s0, s1, s2, s3);
  }

  /** A successful sum succeeds on its last list. */
  lemma SumJointLast(net: seq<EventRecord>, prefix: seq<int>, combos: seq<seq<int>>)
    requires |combos| > 0 && SumJoint(net, prefix, combos).Ok?
    ensures Joint(net, prefix + combos[|combos| - 1]).Ok?
  {
  }

  /** A successful joint probability of `[x, y] ++ s` looked up `y` in the network. */
  lemma JointSecondExists(net: seq<EventRecord>, x: int, y: int, s: seq<int>)
    requires Joint(net, [x, y] + s).Ok?
    ensures Norm(y) < |net|
  {
    var all := [x, y] + s;
    ProductAppend(net, [x, y], s, all);
    assert [x, y][..1] == [x];
  }

  /** Both orders of two targets leave the same nuisance variables. */
  lemma NuisanceSwap(net: seq<EventRecord>, x: int, y: int, deps: seq<int>)
    ensures Nuisance(net, [y, x], deps) == Nuisance(net, [x, y], deps)
  {
    var e1, e2 := [x, y] + deps, [y, x] + deps;
    forall t | t in NormAll(e1)
      ensures t in NormAll(e2)
    {
      var k :| 0 <= k < |e1| && NormAll(e1)[k] == t;
      var k2 := if k == 0 then 1 else if k == 1 then 0 else k;
      assert NormAll(e2)[k2] == t;
    }
    forall t | t in NormAll(e2)
      ensures t in NormAll(e1)
    {
      var k :| 0 <= k < |e2| && NormAll(e2)[k] == t;
      var k2 := if k == 0 then 1 else if k == 1 then 0 else k;
      assert NormAll(e1)[k2] == t;
    }
    UnlistedSame(|net|, NormAll(e1), NormAll(e2));
  }

  /** Bayes' numerator is the same for both orders of two targets, and a
      successful one looked both targets up. */
  lemma NumeratorSwap(net: seq<EventRecord>, x: int, y: int, deps: seq<int>)
    requires Numerator(net, [x, y], deps).Ok?
    ensures Norm(y) < |net|
    ensures Numerator(net, [y, x], deps) == Numerator(net, [x, y], deps)
  {
    NuisanceSwap(net, x, y, deps);
    var own := Combinations(deps, Nuisance(net, [x, y], deps));
    forall i | 0 <= i < |own| && Joint(net, [x, y] + own[i]).Ok?
      ensures Joint(net, [y, x] + own[i]) == Joint(net, [x, y] + own[i])
    {
      JointSwapFirst(net, x, y, own[i]);
    }
    SumJointLast(net, [x, y], own);
    JointSecondExists(net, x, y, own[|own| - 1]);
    SumJointAgree(net, [y, x], own, [x, y], own);
  }

  /** The answer to a two-target query does not depend on the order of the targets. */
  lemma TargetOrderIrrelevant(net: seq<EventRecord>, x: int, y: int, deps: seq<int>)
    requires Posterior(net, [x, y], deps).Ok?
    ensures Posterior(net, [y, x], deps) == Posterior(net, [x, y], deps)
  {
    NumeratorSwap(net, x, y, deps);
    NuisanceSwap(net, x, y, deps);
    DenominatorSwap(net, Nuisance(net, [x, y], deps), deps, x, y);
  }
}
