/** The values the engine stores and the errors it raises. */
module Model {

  /** An event's identifier: whatever the caller passed to `EVENT`, or the
      value of the internal counter when nothing was passed. */
  datatype Ident = Number(n: int) | Text(s: string)

  /** The probability data of an event or of a builder: a single number after an
      unconditional `is`, otherwise an array indexed by the polarity pattern of the
      givens. The array starts out empty (`[]`); a slot never written is a hole,
      which is not the same as a stored 0. */
  datatype ProbData = Scalar(p: real) | Table(slots: map<nat, real>)

  /** The record `EVENT` pushes onto the network. */
  datatype EventRecord = EventRecord(id: Ident, probabilities: ProbData, depends: seq<nat>)

  /** What `facts` is handed: a probability object (its `event`, `depends` and
      `probabilities`), or anything whose `event` is not a number. */
  datatype Fact = Fact(event: int, depends: seq<nat>, probabilities: ProbData) | NotAFact

  /** The exceptions the engine throws, and the one query outcome that is not a
      number. */
  datatype Error =
    | NotAProbability          // TypeError from `facts`: the argument has no numeric `event`
    | OutOfBounds(p: real)     // RangeError from `is`: the value lies outside [0, 100]
    | NotAnEvent(handle: int)  // ReferenceError from `facts`: no network entry for the handle
    | MissingValue(event: int, depends: seq<int>)  // ReferenceError: no stored value for P(event | depends)
    | NoSuchEvent(index: nat) // TypeError: inference read a field of `network[handle]`, which is undefined
    | ZeroDenominator         // not thrown: Bayes' rule divides by a zero sum, and the query evaluates to NaN

  datatype Option<T> = None | Some(value: T)

  datatype Result<T> = Success(value: T) | Failure(error: Error)

  /** A probability the engine computes, or the exception computing it threw. */
  datatype Prob = Ok(value: real) | Err(error: Error) {
    predicate IsFailure() { Err? }
    function PropagateFailure(): Prob
      requires Err?
    {
      this
    }
    function Extract(): real
      requires Ok?
    {
      value
    }
  }

  /** Every stored number is a probability. */
  predicate InRange(d: ProbData)
  {
    match d
    case Scalar(p) => 0.0 <= p <= 1.0
    case Table(t) => forall k :: k in t ==> 0.0 <= t[k] <= 1.0
  }

  predicate NetInRange(net: seq<EventRecord>)
  {
    forall k :: 0 <= k < |net| ==> InRange(net[k].probabilities)
  }
}
