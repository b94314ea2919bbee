/** What the inference engine guarantees: a posterior is a probability, and a
    variable no other term depends on sums out of a joint probability. */
module Theorems {
  import opened Handles
  import opened Bits
  import opened Model
  import opened Index
  import opened Inference

  /** Two term lists give every dependency of the events in `ts` the same polarity. */
  ghost predicate SameConditions(net: seq<EventRecord>, ts: seq<int>, all1: seq<int>, all2: seq<int>)
  {
    forall k, d :: 0 <= k < |ts| && Norm(ts[k]) < |net| && d in net[Norm(ts[k])].depends ==>
      (Neg(d) in all1 <==> Neg(d) in all2)
  }

  /** A product of lookups depends on the other terms only through the
      polarities they give to dependencies. */
  lemma {:induction false} ProductContext(net: seq<EventRecord>, ts: seq<int>, all1: seq<int>, all2: seq<int>)
    requires SameConditions(net, ts, all1, all2)
    ensures Product(net, ts, all1) == Product(net, ts, all2)
  {
    if |ts| > 0 {
      var front := ts[..|ts| - 1];
      assert SameConditions(net, front, all1, all2) by {
        forall k, d | 0 <= k < |front| && Norm(front[k]) < |net| && d in net[Norm(front[k])].depends
          ensures Neg(d) in all1 <==> Neg(d) in all2
        {
          assert front[k] == ts[k];
        }
      }
      ProductContext(net, front, all1, all2);
      var t := ts[|ts| - 1];
      if Norm(t) < |net| {
        var depends := net[Norm(t)].depends;
        assert ApplyConditions(depends, all1) == ApplyConditions(depends, all2) by {
          forall k | 0 <= k < |depends|
            ensures ApplyConditions(depends, all1)[k] == ApplyConditions(depends, all2)[k]
          {
            assert depends[k] in depends;
          }
        }
      }
    }
  }

  lemma TimesComm(a: Prob, b: Prob)
    requires Times(a, b).Ok?
    ensures Times(b, a) == Times(a, b)
  {
    assert a.value * b.value == b.value * a.value;
  }

  /** The terms of a joint probability may be listed in either order of two runs. */
  lemma JointRotate(net: seq<EventRecord>, xs: seq<int>, ys: seq<int>)
    requires Joint(net, xs + ys).Ok?
    ensures Joint(net, ys + xs) == Joint(net, xs + ys)
  {
    var a, b := xs + ys, ys + xs;
    assert forall x :: x in a <==> x in b;
    ProductAppend(net, xs, ys, a);
    ProductAppend(net, ys, xs, b);
    ProductContext(net, xs, a, b);
    ProductContext(net, ys, a, b);
    var p, q := Product(net, xs, a), Product(net, ys, a);
    assert Joint(net, a) == Times(p, q);
    assert Joint(net, b) == Times(q, p);
    TimesComm(p, q);
  }

  /** Two sums agree when every list of the second that has a joint
      probability has the same one as the matching list of the first. */
  lemma {:induction false} SumJointAgree(net: seq<EventRecord>, p1: seq<int>, c1: seq<seq<int>>, p2: seq<int>, c2: seq<seq<int>>)
    requires |c1| == |c2|
    requires forall i :: 0 <= i < |c1| && Joint(net, p2 + c2[i]).Ok? ==> Joint(net, p1 + c1[i]) == Joint(net, p2 + c2[i])
    requires SumJoint(net, p2, c2).Ok?
    ensures SumJoint(net, p1, c1) == SumJoint(net, p2, c2)
  {
    if |c1| > 0 {
      var n := |c1| - 1;
      assert forall i :: 0 <= i < n ==> c1[..n][i] == c1[i] && c2[..n][i] == c2[i];
      SumJointAgree(net, p1, c1[..n], p2, c2[..n]);
    }
  }

  /** Position `n` of that assignment. */
  lemma AssignSplitAt(vars: seq<int>, extra: seq<int>, i: nat, j: nat, c: nat, n: nat)
    requires i < Pow2(|vars|) && c == i + Pow2(|vars|) * j && n < |vars| + |extra|
    ensures Assign(vars + extra, c)[n] == (Assign(vars, i) + Assign(extra, j))[n]
  {
    var m := |vars|;
    BitOfOffset(i, j, m, n);
    var whole := vars + extra;
    if n < m {
      assert whole[n] == vars[n];
      assert Assign(vars + extra, c)[n] == if Bit(i, n) then vars[n] else Neg(vars[n]);
    } else {
      assert whole[n] == extra[n - m];
      assert Assign(vars + extra, c)[n] == if Bit(j, n - m) then extra[n - m] else Neg(extra[n - m]);
    }
  }

  /** Enumerating `vars ++ extra` with counter `c = i + 2^|vars| * j` assigns
      `vars` by `i` and `extra` by `j`. */
  lemma AssignSplit(vars: seq<int>, extra: seq<int>, i: nat, j: nat, c: nat)
    requires i < Pow2(|vars|) && c == i + Pow2(|vars|) * j
    ensures Assign(vars + extra, c) == Assign(vars, i) + Assign(extra, j)
  {
    forall n | 0 <= n < |vars| + |extra|
      ensures Assign(vars + extra, c)[n] == (Assign(vars, i) + Assign(extra, j))[n]
    {
      AssignSplitAt(vars, extra, i, j, c, n);
    }
  }

  /** The counter with every bit set keeps every handle as given. */
  lemma AssignAllOnes(vars: seq<int>)
    ensures Assign(vars, Pow2(|vars|) - 1) == vars
  {
    forall n | 0 <= n < |vars|
      ensures Assign(vars, Pow2(|vars|) - 1)[n] == vars[n]
    {
      BitOfAllOnes(|vars|, n);
    }
  }

  /** The denominator's enumeration ends with a block, starting at `offset`,
      as long as the numerator's. */
  lemma DenominatorBlock(vars: seq<int>, events: seq<int>) returns (offset: nat)
    ensures offset == Pow2(|vars|) * (Pow2(|events|) - 1)
    ensures offset + Pow2(|vars|) == Pow2(|vars + events|)
  {
    Pow2Add(|vars|, |events|);
    var k: nat := Pow2(|events|) - 1;
    offset := Pow2(|vars|) * k;
  }

  /** Entry `i + 2^|vars| * j` of an enumeration of `vars ++ extra` assigns
      `vars` by `i` and `extra` by `j`. */
  lemma CombinationsAt(deps: seq<int>, vars: seq<int>, extra: seq<int>, i: nat, j: nat, c: nat)
    requires i < Pow2(|vars|) && c == i + Pow2(|vars|) * j && c < Pow2(|vars + extra|)
    ensures c < |Combinations(deps, vars + extra)|
    ensures Combinations(deps, vars + extra)[c] == deps + Assign(vars, i) + Assign(extra, j)
  {
    AssignSplit(vars, extra, i, j, c);
  }

  /** List `i` of that last block is the numerator's list `i` with the targets,
      as given, at the end. */
  lemma DenominatorTailAt(deps: seq<int>, vars: seq<int>, events: seq<int>, offset: nat, i: nat)
    requires offset == Pow2(|vars|) * (Pow2(|events|) - 1)
    requires offset + Pow2(|vars|) == Pow2(|vars + events|)
    requires i < Pow2(|vars|)
    ensures offset + i < |Combinations(deps, vars + events)|
    ensures Combinations(deps, vars + events)[offset + i] == Combinations(deps, vars)[i] + events
  {
    CombinationsAt(deps, vars, events, i, Pow2(|events|) - 1, offset + i);
    AssignAllOnes(events);
  }

  lemma RatioInUnit(num: real, den: real)
    requires 0.0 <= num <= den && den != 0.0
    ensures 0.0 <= num / den <= 1.0
  {
  }

  /** The sum over the last block of an enumeration of `vars ++ events` is the
      sum with the targets in front, when the former succeeds. */
  lemma TailSum(net: seq<EventRecord>, deps: seq<int>, vars: seq<int>, events: seq<int>, offset: nat)
    requires offset == Pow2(|vars|) * (Pow2(|events|) - 1)
    requires offset + Pow2(|vars|) == Pow2(|vars + events|)
    requires SumJoint(net, [], Combinations(deps, vars + events)[offset..]).Ok?
    ensures SumJoint(net, events, Combinations(deps, vars)) == SumJoint(net, [], Combinations(deps, vars + events)[offset..])
  {
    var own, tail := Combinations(deps, vars), Combinations(deps, vars + events)[offset..];
    forall i | 0 <= i < |own| && Joint(net, [] + tail[i]).Ok?
      ensures Joint(net, events + own[i]) == Joint(net, [] + tail[i])
    {
      DenominatorTailAt(deps, vars, events, offset, i);
      assert [] + tail[i] == own[i] + events;
      JointRotate(net, own[i], events);
    }
    SumJointAgree(net, events, own, [], tail);
  }

  /** A successful sum over a list of lists is at least the sum over any suffix. */
  lemma SuffixBelowSum(net: seq<EventRecord>, combos: seq<seq<int>>, offset: nat)
    requires NetInRange(net)
    requires offset <= |combos| && SumJoint(net, [], combos).Ok?
    ensures SumJoint(net, [], combos[offset..]).Ok?
    ensures 0.0 <= SumJoint(net, [], combos[offset..]).value <= SumJoint(net, [], combos).value
  {
    var front, tail := combos[..offset], combos[offset..];
    assert combos == front + tail;
    SumJointAppend(net, [], front, tail);
    SumJointNonNegative(net, [], front);
    SumJointNonNegative(net, [], tail);
  }

  /** Over a network whose stored numbers are probabilities, the numerator of
      Bayes' rule never exceeds the denominator: its lists are a block of the
      denominator's, up to the order of the terms. */
  lemma NumeratorBelowDenominator(net: seq<EventRecord>, events: seq<int>, deps: seq<int>)
    requires NetInRange(net)
    requires Numerator(net, events, deps).Ok? && Denominator(net, events, deps).Ok?
    ensures 0.0 <= Numerator(net, events, deps).value <= Denominator(net, events, deps).value
  {
    var vars := Nuisance(net, events, deps);
    var offset := DenominatorBlock(vars, events);
    SuffixBelowSum(net, Combinations(deps, vars + events), offset);
    TailSum(net, deps, vars, events, offset);
  }

  /** Over a network whose stored numbers are probabilities, every answer of
      `conditionalProbability` is a probability. */
  lemma PosteriorInUnit(net: seq<EventRecord>, events: seq<int>, deps: seq<int>)
    requires NetInRange(net)
    requires |events| > 0
    ensures Posterior(net, events, deps).Ok? ==> 0.0 <= Posterior(net, events, deps).value <= 1.0
  {
    if Norm(events[0]) < |net| && !Shortcut(net, events, deps) {
      var num, den := Numerator(net, events, deps), Denominator(net, events, deps);
      if num.Ok? && den.Ok? && den.value != 0.0 {
        NumeratorBelowDenominator(net, events, deps);
        RatioInUnit(num.value, den.value);
      }
    }
  }

  /** A one-term product is that term's factor. */
  lemma ProductSingle(net: seq<EventRecord>, t: int, all: seq<int>)
    ensures Product(net, [t], all) == Factor(net, t, all)
  {
    assert [t][..0] == [];
    var f := Factor(net, t, all);
    if f.Ok? {
      assert 1.0 * f.value == f.value;
    }
  }

  lemma SumOutAlgebra(x: real, p: real, q: real, y: real)
    requires p + q == 1.0
    ensures x * p * y + x * q * y == x * y
  {
    assert x * p * y + x * q * y == x * (p + q) * y;
  }

  /** The two polarities' factors add up to one, so the products around them
      add up to the product without them. */
  lemma TimesSumOut(x: Prob, f: Prob, g: Prob, y: Prob)
    requires Times(Times(x, f), y).Ok? && Times(Times(x, g), y).Ok?
    requires f.value + g.value == 1.0
    ensures Times(x, y).Ok?
    ensures Times(Times(x, f), y).value + Times(Times(x, g), y).value == Times(x, y).value
  {
    SumOutAlgebra(x.value, f.value, g.value, y.value);
  }

  /** A joint probability split around one of its terms. */
  lemma ProductAround(net: seq<EventRecord>, pre: seq<int>, t: int, post: seq<int>, all: seq<int>)
    ensures Product(net, pre + [t] + post, all) ==
      Times(Times(Product(net, pre, all), Factor(net, t, all)), Product(net, post, all))
  {
    ProductAppend(net, pre + [t], post, all);
    ProductAppend(net, pre, [t], all);
    ProductSingle(net, t, all);
  }

  /** Listing a non-negated term changes no dependency's polarity. */
  lemma PositiveTermInvisible(net: seq<EventRecord>, ts: seq<int>, pre: seq<int>, e: nat, post: seq<int>)
    ensures SameConditions(net, ts, pre + [e] + post, pre + post)
  {
    forall k, d | 0 <= k < |ts| && Norm(ts[k]) < |net| && d in net[Norm(ts[k])].depends
      ensures Neg(d) in pre + [e] + post <==> Neg(d) in pre + post
    {
      assert Neg(d) != e;
    }
  }

  /** Listing a negated term changes the polarity of no dependency but its own. */
  lemma NegatedTermInvisible(net: seq<EventRecord>, ts: seq<int>, pre: seq<int>, e: nat, post: seq<int>)
    requires forall k :: 0 <= k < |ts| && Norm(ts[k]) < |net| ==> e !in net[Norm(ts[k])].depends
    ensures SameConditions(net, ts, pre + [Neg(e)] + post, pre + post)
  {
    forall k, d | 0 <= k < |ts| && Norm(ts[k]) < |net| && d in net[Norm(ts[k])].depends
      ensures Neg(d) in pre + [Neg(e)] + post <==> Neg(d) in pre + post
    {
      assert d != e;
    }
  }

  /** Terms that do not depend on `e` see the same polarities whether `e`, its
      negation or neither is listed. */
  lemma OtherTermsUnaffected(net: seq<EventRecord>, pre: seq<int>, e: nat, post: seq<int>)
    requires forall t :: t in pre + post && Norm(t) < |net| ==> e !in net[Norm(t)].depends
    ensures Product(net, pre, pre + [e] + post) == Product(net, pre, pre + post)
    ensures Product(net, post, pre + [e] + post) == Product(net, post, pre + post)
    ensures Product(net, pre, pre + [Neg(e)] + post) == Product(net, pre, pre + post)
    ensures Product(net, post, pre + [Neg(e)] + post) == Product(net, post, pre + post)
  {
    var a, b, c := pre + [e] + post, pre + [Neg(e)] + post, pre + post;
    PositiveTermInvisible(net, pre, pre, e, post);
    PositiveTermInvisible(net, post, pre, e, post);
    assert forall k :: 0 <= k < |pre| ==> pre[k] in pre + post;
    assert forall k :: 0 <= k < |post| ==> post[k] in pre + post;
    NegatedTermInvisible(net, pre, pre, e, post);
    NegatedTermInvisible(net, post, pre, e, post);
    ProductContext(net, pre, a, c);
    ProductContext(net, post, a, c);
    ProductContext(net, pre, b, c);
    ProductContext(net, post, b, c);
  }

  /** An event that is not among its own dependencies looks itself up with the
      same dependency polarities in either of its polarities. */
  lemma OwnLookupUnaffected(net: seq<EventRecord>, pre: seq<int>, e: nat, post: seq<int>)
    requires e < |net| && e !in net[e].depends
    ensures Factor(net, e, pre + [e] + post) == GetProbability(net, e, ApplyConditions(net[e].depends, pre + [e] + post))
    ensures Factor(net, Neg(e), pre + [Neg(e)] + post) == GetProbability(net, Neg(e), ApplyConditions(net[e].depends, pre + [e] + post))
  {
    var a, b := pre + [e] + post, pre + [Neg(e)] + post;
    NegInvolutive(e);
    var depends := net[e].depends;
    forall k | 0 <= k < |depends|
      ensures ApplyConditions(depends, a)[k] == ApplyConditions(depends, b)[k]
    {
      assert depends[k] != e;
    }
    assert ApplyConditions(depends, a) == ApplyConditions(depends, b);
  }

  /** Summing out: a non-negated event that is not among its own dependencies
      and that no other listed event depends on can be dropped from a joint
      probability by adding the joint probabilities of its two polarities. */
  lemma SumOut(net: seq<EventRecord>, pre: seq<int>, e: nat, post: seq<int>)
    requires e < |net| && e !in net[e].depends
    requires forall t :: t in pre + post && Norm(t) < |net| ==> e !in net[Norm(t)].depends
    requires Joint(net, pre + [e] + post).Ok? && Joint(net, pre + [Neg(e)] + post).Ok?
    ensures Joint(net, pre + post).Ok?
    ensures Joint(net, pre + [e] + post).value + Joint(net, pre + [Neg(e)] + post).value == Joint(net, pre + post).value
  {
    var a, b, c := pre + [e] + post, pre + [Neg(e)] + post, pre + post;
    OtherTermsUnaffected(net, pre, e, post);
    OwnLookupUnaffected(net, pre, e, post);
    ProductAround(net, pre, e, post, a);
    ProductAround(net, pre, Neg(e), post, b);
    ProductAppend(net, pre, post, c);
    var f, g := Factor(net, e, a), Factor(net, Neg(e), b);
    var x, y := Product(net, pre, c), Product(net, post, c);
    GetProbabilityComplement(net, e, ApplyConditions(net[e].depends, a));
    TimesSumOut(x, f, g, y);
  }

  /** Enumerating non-negated handles with counter `x` gives the polarity
      pattern whose table slot is `x`: `nuisanceIterate`'s counter and
      `probIndex` number the patterns alike. */
  lemma SlotOfAssign(vars: seq<int>, x: nat)
    requires forall k :: 0 <= k < |vars| ==> vars[k] >= 0
    requires x < Pow2(|vars|)
    ensures Slot(Assign(vars, x)) == x
  {
    var s := Assign(vars, x);
    forall k | 0 <= k < |vars|
      ensures Bit(Slot(s), k) == Bit(x, k)
    {
      SlotBit(s, k);
    }
    BitsDetermine(Slot(s), x, |vars|);
  }

  /** Every slot of a table over `k` givens belongs to some polarity pattern;
      with `Index.SlotInjective`, patterns and slots correspond one to one. */
  lemma SlotOnto(k: nat, x: nat)
    requires x < Pow2(k)
    ensures exists pattern: seq<int> :: |pattern| == k && Slot(pattern) == x
  {
    var vars := seq(k, _ => 0);
    SlotOfAssign(vars, x);
    assert |Assign(vars, x)| == k;
  }
}
