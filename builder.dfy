/** The fluent probability builder: `P`, `given` (`createConditional`) and `is`
    (`setProbability`). Which of `is` and `given` exist on the object changes
    with every call. */
module Builder {
  import opened Handles
  import opened Model
  import opened Index

  /** The bounds check and percentage scaling at the start of `is(p)`. */
  function ToFraction(p: real): (r: Prob)
    ensures r.Ok? <==> 0.0 <= p <= 100.0
    ensures r.Err? ==> r.error == OutOfBounds(p)
    ensures r.Ok? ==> 0.0 <= r.value <= 1.0
    ensures r.Ok? && p <= 1.0 ==> r.value == p
    ensures r.Ok? && p > 1.0 ==> r.value * 100.0 == p
  {
    if p < 0.0 || p > 100.0 then Err(OutOfBounds(p))
    else if p > 1.0 then Ok(p / 100.0)
    else Ok(p)
  }

  /** A percentage and the fraction it stands for store the same value:
      `is(50)` and `is(0.5)` both store 0.5. */
  lemma PercentIsFraction(p: real)
    requires 1.0 < p <= 100.0
    ensures ToFraction(p) == ToFraction(p / 100.0)
  {
  }

  class Probability {
    /** The event the object describes; negated until the first `is` runs. */
    var event: int
    /** The other events of a joint query `P(event, ...others)`. */
    var others: seq<int>
    var depends: seq<nat>
    var probabilities: ProbData
    /** Whether the properties `is` and `given` currently exist. */
    var hasIs: bool
    var hasGiven: bool
    /** The givens the current `is` is bound to; none for the unconditional `is`. */
    var givens: Option<seq<int>>

    ghost predicate Valid()
      reads this
    {
      && InRange(probabilities)
      && (probabilities.Scalar? ==> !hasIs && !hasGiven)
      && (givens.Some? ==> probabilities.Table?)
      && (others != [] ==> !hasIs)
    }

    /** `P(event, ...others)`: a single event may be assigned (`is`) or
        conditioned (`given`); a joint query only has `given`. */
    constructor P(event: int, others: seq<int>)
      ensures Valid()
      ensures this.event == event && this.others == others
      ensures depends == [] && probabilities == Table(map[])
      ensures others == [] ==> hasIs && hasGiven && givens.None?
      ensures others != [] ==> !hasIs && hasGiven
    {
      this.event := event;
      this.others := others;
      depends := [];
      probabilities := Table(map[]);
      givens := None;
      hasIs := others == [];
      hasGiven := true;
    }

    /** The object as `facts` reads it. */
    function AsFact(): Fact
      reads this
    {
      Fact(event, depends, probabilities)
    }

    /** `given(...events)`. On a single-event object (`createConditional`): the
        normalised givens become `depends` only if `depends` is still empty,
        `given` disappears and an `is` bound to these givens appears. On a joint
        query: `depends` is always overwritten and `given` disappears. */
    method Given(events: seq<int>)
      requires Valid() && hasGiven
      modifies this
      ensures Valid()
      ensures event == old(event) && others == old(others) && probabilities == old(probabilities)
      ensures !hasGiven
      ensures others != [] ==> depends == NormAll(events) && !hasIs && givens == old(givens)
      ensures others == [] ==> hasIs && givens == Some(events)
      ensures others == [] ==> depends == if old(depends) == [] then NormAll(events) else old(depends)
    {
      if others != [] {
        depends := NormAll(events);
        hasGiven := false;
      } else {
        if depends == [] {
          depends := NormAll(events);
        }
        hasGiven := false;
        hasIs := true;
        givens := Some(events);
      }
    }

    /** `is(p)` (`setProbability`). Out of [0, 100]: RangeError, nothing stored.
        A value above 1 is a percentage. A negated event stores `1 - p` and
        becomes its non-negated handle, so a later `is` on the same object stores
        its value as given. Unconditional: the scalar is stored and both `is` and
        `given` disappear. Conditional: only slot `probIndex(givens)` is written,
        `is` disappears and `given` reappears. */
    method Is(p: real) returns (err: Option<Error>)
      requires Valid() && hasIs
      modifies this
      ensures Valid()
      ensures !(0.0 <= p <= 100.0) ==> err == Some(OutOfBounds(p)) && unchanged(this)
      ensures 0.0 <= p <= 100.0 ==> err.None? && !hasIs
      ensures 0.0 <= p <= 100.0 ==> event == Norm(old(event)) && event >= 0
      ensures 0.0 <= p <= 100.0 ==> depends == old(depends) && others == old(others) && givens == old(givens)
      ensures 0.0 <= p <= 100.0 && old(givens).None? ==>
        !hasGiven && probabilities == Scalar(Stored(old(event), p))
      ensures 0.0 <= p <= 100.0 && old(givens).Some? ==>
        hasGiven && probabilities.Table? &&
        probabilities.slots == old(probabilities).slots[Slot(old(givens).value) := Stored(old(event), p)]
    {
      var fraction := ToFraction(p);
      if fraction.Err? {
        return Some(fraction.error);
      }
      var probability := fraction.value;
      if event < 0 {
        event := Neg(event);
        probability := 1.0 - probability;
      }
      if givens.None? {
        probabilities := Scalar(probability);
        hasGiven := false;
      } else {
        var index := ProbIndex(givens.value);
        probabilities := Table(probabilities.slots[index := probability]);
        hasGiven := true;
      }
      hasIs := false;
      return None;
    }
  }

  /** The number `is(p)` stores for a builder whose event is `event`: the
      fraction, complemented when the event is negated. */
  function Stored(event: int, p: real): (r: real)
    requires 0.0 <= p <= 100.0
    ensures 0.0 <= r <= 1.0
    ensures event < 0 ==> r == 1.0 - ToFraction(p).value
    ensures event >= 0 ==> r == ToFraction(p).value
  {
    var q := ToFraction(p).value;
    if event < 0 then 1.0 - q else q
  }
}
