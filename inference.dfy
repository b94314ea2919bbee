/** The inference engine: table lookup, joint probability, nuisance-variable
    enumeration and Bayes' rule, over a snapshot of the network. */
module Inference {
  import opened Handles
  import opened Bits
  import opened Model
  import opened Index

  /** The number stored for a lookup with the given dependency polarities, if any.
      With no dependencies the source uses the data as a number: a scalar is
      itself, an array coerces to its only element when its length is 1 and
      counts as missing otherwise. With dependencies it reads the slot
      `probIndex(deps)`; a scalar has no slots. */
  function StoredValue(data: ProbData, deps: seq<int>): Option<real>
  {
    if |deps| == 0 then
      match data
      case Scalar(p) => Some(p)
      case Table(t) => if |t| == 1 && 0 in t then Some(t[0]) else None
    else
      match data
      case Scalar(_) => None
      case Table(t) => if Slot(deps) in t then Some(t[Slot(deps)]) else None
  }

  /** `getProbability(e, deps)`: the stored number, complemented for a negated
      term; a hole fails with the missing-data error. */
  function GetProbability(net: seq<EventRecord>, e: int, deps: seq<int>): (r: Prob)
    ensures Norm(e) >= |net| ==> r == Err(NoSuchEvent(Norm(e)))
    ensures Norm(e) < |net| && StoredValue(net[Norm(e)].probabilities, deps).None? ==>
      r == Err(MissingValue(e, deps))
    ensures Norm(e) < |net| && StoredValue(net[Norm(e)].probabilities, deps).Some? ==>
      r.Ok? && r.value == if e >= 0 then StoredValue(net[Norm(e)].probabilities, deps).value
                          else 1.0 - StoredValue(net[Norm(e)].probabilities, deps).value
    ensures r.Ok? && NetInRange(net) ==> 0.0 <= r.value <= 1.0
  {
    var i := Norm(e);
    if i >= |net| then Err(NoSuchEvent(i))
    else match StoredValue(net[i].probabilities, deps)
      case None => Err(MissingValue(e, deps))
      case Some(p) => if e < 0 then Ok(1.0 - p) else Ok(p)
  }

  /** A term and its negation have complementary probabilities. */
  lemma GetProbabilityComplement(net: seq<EventRecord>, e: nat, deps: seq<int>)
    requires GetProbability(net, e, deps).Ok?
    ensures GetProbability(net, Neg(e), deps).Ok?
    ensures GetProbability(net, Neg(e), deps).value + GetProbability(net, e, deps).value == 1.0
  {
    NegInvolutive(e);
  }

  /** `applyConditions(depends, events)`: each stored dependency takes the
      polarity with which it appears among the terms, positive by default. */
  function ApplyConditions(depends: seq<nat>, events: seq<int>): (r: seq<int>)
    ensures |r| == |depends|
    ensures forall k :: 0 <= k < |r| ==> Norm(r[k]) == depends[k]
    ensures forall k :: 0 <= k < |r| ==> (r[k] < 0 <==> Neg(depends[k]) in events)
  {
    seq(|depends|, k requires 0 <= k < |depends| =>
      if Neg(depends[k]) in events then Neg(depends[k]) else depends[k])
  }

  /** Multiplication of two lookups, the left one's error first. */
  function Times(a: Prob, b: Prob): Prob
  {
    if a.Err? then a else if b.Err? then b else Ok(a.value * b.value)
  }

  /** The factor one term contributes to a joint probability over `all`. */
  function Factor(net: seq<EventRecord>, t: int, all: seq<int>): (r: Prob)
    ensures r.Ok? && NetInRange(net) ==> 0.0 <= r.value <= 1.0
  {
    if Norm(t) >= |net| then Err(NoSuchEvent(Norm(t)))
    else GetProbability(net, t, ApplyConditions(net[Norm(t)].depends, all))
  }

  lemma ProductUnit(a: real, b: real)
    requires 0.0 <= a <= 1.0 && 0.0 <= b <= 1.0
    ensures 0.0 <= a * b <= 1.0
  {
    assert 0.0 <= a * b;
    assert a * b <= a * 1.0;
  }

  lemma TimesInUnit(a: Prob, b: Prob)
    requires a.Ok? ==> 0.0 <= a.value <= 1.0
    requires b.Ok? ==> 0.0 <= b.value <= 1.0
    ensures Times(a, b).Ok? ==> 0.0 <= Times(a, b).value <= 1.0
  {
    if a.Ok? && b.Ok? {
      ProductUnit(a.value, b.value);
    }
  }

  /** The product of the factors of `ts`, read left to right: the first failing
      term decides the error. */
  function Product(net: seq<EventRecord>, ts: seq<int>, all: seq<int>): Prob
  {
    if |ts| == 0 then Ok(1.0)
    else Times(Product(net, ts[..|ts| - 1], all), Factor(net, ts[|ts| - 1], all))
  }

  /** Over a network of probabilities, a product of lookups is a probability. */
  lemma {:induction false} ProductInUnit(net: seq<EventRecord>, ts: seq<int>, all: seq<int>)
    requires NetInRange(net)
    ensures Product(net, ts, all).Ok? ==> 0.0 <= Product(net, ts, all).value <= 1.0
  {
    if |ts| > 0 {
      ProductInUnit(net, ts[..|ts| - 1], all);
      var a, b := Product(net, ts[..|ts| - 1], all), Factor(net, ts[|ts| - 1], all);
      TimesInUnit(a, b);
    }
  }

  /** `jointProbability(...events)` as a value: P(all terms hold). */
  function Joint(net: seq<EventRecord>, events: seq<int>): Prob
  {
    Product(net, events, events)
  }

  lemma MulAssoc(x: real, y: real, z: real)
    ensures (x * y) * z == x * (y * z)
  {
  }

  lemma TimesAssoc(a: Prob, b: Prob, c: Prob)
    ensures Times(Times(a, b), c) == Times(a, Times(b, c))
  {
    if a.Ok? && b.Ok? && c.Ok? {
      MulAssoc(a.value, b.value, c.value);
    }
  }

  /** The product of two runs of terms is the product of their products. */
  lemma {:induction false} ProductAppend(net: seq<EventRecord>, xs: seq<int>, ys: seq<int>, all: seq<int>)
    ensures Product(net, xs + ys, all) == Times(Product(net, xs, all), Product(net, ys, all))
    decreases |ys|
  {
    if |ys| == 0 {
      assert xs + ys == xs;
    } else {
      var ys' := ys[..|ys| - 1];
      var y := ys[|ys| - 1];
      assert (xs + ys)[..|xs + ys| - 1] == xs + ys';
      assert (xs + ys)[|xs + ys| - 1] == y;
      ProductAppend(net, xs, ys', all);
      TimesAssoc(Product(net, xs, all), Product(net, ys', all), Factor(net, y, all));
    }
  }

  lemma ProductStep(net: seq<EventRecord>, ts: seq<int>, k: nat, all: seq<int>)
    requires k < |ts|
    ensures Product(net, ts[..k + 1], all) == Times(Product(net, ts[..k], all), Factor(net, ts[k], all))
  {
    assert ts[..k + 1][..k] == ts[..k];
  }

  /** One more successful lookup multiplies the running product. */
  lemma ProductExtend(net: seq<EventRecord>, ts: seq<int>, k: nat, all: seq<int>, x: real)
    requires k < |ts| && Product(net, ts[..k], all) == Ok(x) && Factor(net, ts[k], all).Ok?
    ensures Product(net, ts[..k + 1], all) == Ok(x * Factor(net, ts[k], all).value)
  {
    ProductStep(net, ts, k, all);
  }

  /** The first failing lookup decides the error of the whole product. */
  lemma ProductStops(net: seq<EventRecord>, ts: seq<int>, k: nat, all: seq<int>)
    requires k < |ts|
    requires Product(net, ts[..k], all).Ok? && Factor(net, ts[k], all).Err?
    ensures Product(net, ts, all) == Factor(net, ts[k], all)
  {
    ProductStep(net, ts, k, all);
    ProductAppend(net, ts[..k + 1], ts[k + 1..], all);
    assert ts[..k + 1] + ts[k + 1..] == ts;
  }

  /** `jointProbability`: the loop multiplying one lookup per term. */
  method JointProbability(net: seq<EventRecord>, events: seq<int>) returns (r: Prob)
    ensures r == Joint(net, events)
  {
    var probability := 1.0;
    var length := |events|;
    for i := 0 to length
      invariant Product(net, events[..i], events) == Ok(probability)
    {
      var e := events[i];
      if Norm(e) >= |net| {
        // `network[norm(e)].depends` reads a field of undefined
        ProductStops(net, events, i, events);
        return Err(NoSuchEvent(Norm(e)));
      }
      var depends := ApplyConditions(net[Norm(e)].depends, events);
      var p := GetProbability(net, e, depends);
      assert p == Factor(net, e, events);
      if p.Err? {
        ProductStops(net, events, i, events);
        return p;
      }
      ProductExtend(net, events, i, events, probability);
      probability := probability * p.value;
    }
    assert events[..length] == events;
    return Ok(probability);
  }

  /** The indices below `n`, ascending, that `processed` does not list: the
      filter over `network.keys()`. */
  function Unlisted(n: nat, processed: seq<nat>): seq<nat>
  {
    if n == 0 then []
    else Unlisted(n - 1, processed) + (if n - 1 in processed then [] else [n - 1])
  }

  lemma {:induction false} UnlistedSpec(n: nat, processed: seq<nat>)
    ensures forall k :: 0 <= k < |Unlisted(n, processed)| ==> Unlisted(n, processed)[k] < n
    ensures forall x :: x in Unlisted(n, processed) <==> 0 <= x < n && x !in processed
    ensures forall k :: 0 < k < |Unlisted(n, processed)| ==> Unlisted(n, processed)[k - 1] < Unlisted(n, processed)[k]
  {
    if n > 0 {
      UnlistedSpec(n - 1, processed);
    }
  }

  /** `nuisanceVariables(...events)`: the network indices, ascending, that no
      term mentions in either polarity. */
  function NuisanceVariables(n: nat, mentioned: seq<int>): (r: seq<nat>)
    ensures forall k :: 0 <= k < |r| ==> r[k] < n
    ensures forall x :: x in r <==> 0 <= x < n && x !in NormAll(mentioned)
    ensures forall k :: 0 < k < |r| ==> r[k - 1] < r[k]
  {
    UnlistedSpec(n, NormAll(mentioned));
    Unlisted(n, NormAll(mentioned))
  }

  /** One assignment of the free variables: variable `n` keeps its handle when
      bit `n` of `i` is set and is complemented otherwise. */
  function Assign(vars: seq<int>, i: nat): (r: seq<int>)
    ensures |r| == |vars|
  {
    seq(|vars|, n requires 0 <= n < |vars| => if Bit(i, n) then vars[n] else Neg(vars[n]))
  }

  /** What `nuisanceIterate(depends, vars)` yields, in order: for every counter
      value below `2^m`, `depends` followed by that assignment. */
  function Combinations(depends: seq<int>, vars: seq<int>): (r: seq<seq<int>>)
    ensures |r| == Pow2(|vars|)
  {
    seq(Pow2(|vars|), i requires 0 <= i < Pow2(|vars|) => depends + Assign(vars, i))
  }

  /** `nuisanceIterate`: the bit-counter loop, with the generator's lists
      collected in order. */
  method NuisanceIterate(depends: seq<int>, nuisance: seq<int>) returns (all: seq<seq<int>>)
    ensures |all| == Pow2(|nuisance|)
    ensures forall i :: 0 <= i < |all| ==> |all[i]| == |depends| + |nuisance| && all[i][..|depends|] == depends
    ensures all == Combinations(depends, nuisance)
  {
    var length := |nuisance|;
    all := [];
    var i := 0;
    while i < Pow2(length)
      invariant 0 <= i <= Pow2(length)
      invariant |all| == i
      invariant forall j :: 0 <= j < i ==> all[j] == depends + Assign(nuisance, j)
    {
      var combination := depends;
      for n := 0 to length
        invariant combination == depends + Assign(nuisance, i)[..n]
      {
        var param := nuisance[n];
        if !Bit(i, n) {
          param := Neg(param);
        }
        assert Assign(nuisance, i)[..n + 1] == Assign(nuisance, i)[..n] + [param];
        combination := combination + [param];
      }
      assert Assign(nuisance, i)[..length] == Assign(nuisance, i);
      all := all + [combination];
      i := i + 1;
    }
  }

  /** The sum of `jointProbability(...prefix, ...c)` over the lists `c`, in order;
      the first failing list decides the error. */
  function SumJoint(net: seq<EventRecord>, prefix: seq<int>, combos: seq<seq<int>>): Prob
  {
    if |combos| == 0 then Ok(0.0)
    else Plus(SumJoint(net, prefix, combos[..|combos| - 1]), Joint(net, prefix + combos[|combos| - 1]))
  }

  /** Addition of two sums, the left one's error first. */
  function Plus(a: Prob, b: Prob): Prob
  {
    if a.Err? then a else if b.Err? then b else Ok(a.value + b.value)
  }

  /** `perfectMatch(event, deps)`: the observations are exactly the event's
      stored dependencies, in order. Stored dependencies are non-negated, so a
      negated observation never matches. */
  function PerfectMatch(net: seq<EventRecord>, e: int, deps: seq<int>): (r: Result<bool>)
    ensures Norm(e) >= |net| ==> r == Failure(NoSuchEvent(Norm(e)))
    ensures Norm(e) < |net| ==> r.Success? && (r.value <==> deps == net[Norm(e)].depends)
    ensures r == Success(true) ==> forall k :: 0 <= k < |deps| ==> deps[k] >= 0
  {
    if Norm(e) >= |net| then Failure(NoSuchEvent(Norm(e)))
    else
      var depends := net[Norm(e)].depends;
      Success(|depends| == |deps| && forall k :: 0 <= k < |deps| ==> depends[k] == deps[k])
  }

  /** The nuisance variables of a query. */
  function Nuisance(net: seq<EventRecord>, events: seq<int>, deps: seq<int>): seq<nat>
  {
    NuisanceVariables(|net|, events + deps)
  }

  /** Bayes' numerator: the joint probability of targets and observations,
      summed over every assignment of the nuisance variables. */
  function Numerator(net: seq<EventRecord>, events: seq<int>, deps: seq<int>): Prob
  {
    SumJoint(net, events, Combinations(deps, Nuisance(net, events, deps)))
  }

  /** Bayes' denominator: the same sum with the targets freed as well (they are
      appended, as given, to the variables enumerated). */
  function Denominator(net: seq<EventRecord>, events: seq<int>, deps: seq<int>): Prob
  {
    SumJoint(net, [], Combinations(deps, Nuisance(net, events, deps) + events))
  }

  /** The single-event query whose observations are exactly the event's
      stored dependencies: answered by a table lookup. */
  predicate Shortcut(net: seq<EventRecord>, events: seq<int>, deps: seq<int>)
    requires |events| > 0
  {
    |events| == 1 && Norm(events[0]) < |net| && PerfectMatch(net, events[0], deps) == Success(true)
  }

  /** `conditionalProbability(events, deps)`: P(events | deps). */
  function Posterior(net: seq<EventRecord>, events: seq<int>, deps: seq<int>): (r: Prob)
    requires |events| > 0
  {
    if Norm(events[0]) >= |net| then Err(NoSuchEvent(Norm(events[0])))
    else if Shortcut(net, events, deps) then GetProbability(net, events[0], deps)
    else
      var num :- Numerator(net, events, deps);
      var den :- Denominator(net, events, deps);
      if den == 0.0 then Err(ZeroDenominator) else Ok(num / den)
  }

  lemma PlusAssoc(a: Prob, b: Prob, c: Prob)
    ensures Plus(Plus(a, b), c) == Plus(a, Plus(b, c))
  {
  }

  /** Over a network of probabilities, a sum of joint probabilities is not negative. */
  lemma {:induction false} SumJointNonNegative(net: seq<EventRecord>, prefix: seq<int>, combos: seq<seq<int>>)
    requires NetInRange(net)
    ensures SumJoint(net, prefix, combos).Ok? ==> SumJoint(net, prefix, combos).value >= 0.0
  {
    if |combos| > 0 {
      SumJointNonNegative(net, prefix, combos[..|combos| - 1]);
      ProductInUnit(net, prefix + combos[|combos| - 1], prefix + combos[|combos| - 1]);
    }
  }

  /** Sums over a concatenation of lists add up, the left error first. */
  lemma {:induction false} SumJointAppend(net: seq<EventRecord>, prefix: seq<int>, xs: seq<seq<int>>, ys: seq<seq<int>>)
    ensures SumJoint(net, prefix, xs + ys) == Plus(SumJoint(net, prefix, xs), SumJoint(net, prefix, ys))
    decreases |ys|
  {
    if |ys| == 0 {
      assert xs + ys == xs;
    } else {
      var ys' := ys[..|ys| - 1];
      assert (xs + ys)[..|xs + ys| - 1] == xs + ys';
      assert (xs + ys)[|xs + ys| - 1] == ys[|ys| - 1];
      SumJointAppend(net, prefix, xs, ys');
      PlusAssoc(SumJoint(net, prefix, xs), SumJoint(net, prefix, ys'), Joint(net, prefix + ys[|ys| - 1]));
    }
  }

  /** One more list in the running sum. */
  lemma SumJointStep(net: seq<EventRecord>, prefix: seq<int>, combos: seq<seq<int>>, k: nat)
    requires k < |combos|
    ensures SumJoint(net, prefix, combos[..k + 1]) == Plus(SumJoint(net, prefix, combos[..k]), Joint(net, prefix + combos[k]))
  {
    assert combos[..k + 1][..k] == combos[..k];
  }

  /** The first failing list decides the error of the whole sum. */
  lemma SumJointStops(net: seq<EventRecord>, prefix: seq<int>, combos: seq<seq<int>>, k: nat)
    requires k < |combos|
    requires SumJoint(net, prefix, combos[..k]).Ok? && Joint(net, prefix + combos[k]).Err?
    ensures SumJoint(net, prefix, combos) == Joint(net, prefix + combos[k])
  {
    SumJointStep(net, prefix, combos, k);
    SumJointAppend(net, prefix, combos[..k + 1], combos[k + 1..]);
    assert combos[..k + 1] + combos[k + 1..] == combos;
  }

  /** A sum over two lists, written out. */
  lemma SumJointOfTwo(net: seq<EventRecord>, prefix: seq<int>, c: seq<seq<int>>, v0: real, v1: real)
    requires |c| == 2
    requires Joint(net, prefix + c[0]) == Ok(v0) && Joint(net, prefix + c[1]) == Ok(v1)
    ensures SumJoint(net, prefix, c) == Ok(v0 + v1)
  {
    var first := c[..1];
    assert |first| == 1 && first[0] == c[0] && first[..0] == [];
    assert SumJoint(net, prefix, []) == Ok(0.0);
    assert SumJoint(net, prefix, first) == Ok(0.0 + v0);
    assert c[..|c| - 1] == first;
  }

  /** A sum over four lists, written out. */
  lemma SumJointOfFour(net: seq<EventRecord>, prefix: seq<int>, c: seq<seq<int>>, v0: real, v1: real, v2: real, v3: real)
    requires |c| == 4
    requires Joint(net, prefix + c[0]) == Ok(v0) && Joint(net, prefix + c[1]) == Ok(v1)
    requires Joint(net, prefix + c[2]) == Ok(v2) && Joint(net, prefix + c[3]) == Ok(v3)
    ensures SumJoint(net, prefix, c) == Ok(v0 + v1 + v2 + v3)
  {
    assert c[..0] == [] && c[..4] == c;
    SumJointStep(net, prefix, c, 0);
    SumJointStep(net, prefix, c, 1);
    SumJointStep(net, prefix, c, 2);
    SumJointStep(net, prefix, c, 3);
    assert 0.0 + v0 == v0;
  }

  /** One enumeration loop of `conditionalProbability`: add up the joint
      probability of `prefix` followed by each list. */
  method SumJoints(net: seq<EventRecord>, prefix: seq<int>, combos: seq<seq<int>>) returns (r: Prob)
    ensures r == SumJoint(net, prefix, combos)
  {
    var sum := 0.0;
    for k := 0 to |combos|
      invariant SumJoint(net, prefix, combos[..k]) == Ok(sum)
    {
      var j := JointProbability(net, prefix + combos[k]);
      SumJointStep(net, prefix, combos, k);
      if j.Err? {
        SumJointStops(net, prefix, combos, k);
        return j;
      }
      sum := sum + j.value;
    }
    assert combos[..|combos|] == combos;
    return Ok(sum);
  }

  /** `conditionalProbability`: the shortcut, or both enumeration loops and the
      division. */
  method ConditionalProbability(net: seq<EventRecord>, events: seq<int>, deps: seq<int>) returns (r: Prob)
    requires |events| > 0
    ensures r == Posterior(net, events, deps)
  {
    if Norm(events[0]) >= |net| {
      return Err(NoSuchEvent(Norm(events[0])));
    }
    var exact := PerfectMatch(net, events[0], deps);
    if |events| == 1 && exact == Success(true) {
      return GetProbability(net, events[0], deps);
    }
    var nuisance := NuisanceVariables(|net|, events + deps);

    var combos := NuisanceIterate(deps, nuisance);
    var pJoint :- SumJoints(net, events, combos);
    // unbind the targets: they are enumerated too
    nuisance := nuisance + events;
    combos := NuisanceIterate(deps, nuisance);
    var pDepends :- SumJoints(net, [], combos);
    if pDepends == 0.0 {
      return Err(ZeroDenominator);
    }
    return Ok(pJoint / pDepends);
  }
}
