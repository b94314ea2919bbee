/** The builder and registry examples of the library's own test suite, stated
    as calls of the model. */
module Scenarios {
  import opened Handles
  import opened Model
  import opened Registry
  import opened Builder

  /** `P(e1).given(e2).is(0.1).given(~e2).is(0.9)`: the first `given` fixes
      `depends`, each `is` writes one slot, and `given` is available again at
      the end while `is` is not. */
  method ChainedConditional(e1: nat, e2: nat) returns (data: ProbData, depends: seq<nat>, hasIs: bool, hasGiven: bool)
    ensures data == Table(map[1 := 0.1, 0 := 0.9])
    ensures depends == [e2]
    ensures !hasIs && hasGiven
  {
    var p := new Probability.P(e1, []);
    p.Given([e2]);
    var err1 := p.Is(0.1);
    p.Given([Neg(e2)]);
    var err2 := p.Is(0.9);
    return p.probabilities, p.depends, p.hasIs, p.hasGiven;
  }

  /** `P(e).is(50)` stores 0.5 and removes both `is` and `given`; `P(e).is(-1)`
      is a RangeError. */
  method Percentage(e: nat) returns (data: ProbData, hasIs: bool, hasGiven: bool, err: Option<Error>)
    ensures data == Scalar(0.5) && !hasIs && !hasGiven
    ensures err == Some(OutOfBounds(-1.0))
  {
    var p := new Probability.P(e, []);
    var ok := p.Is(50.0);
    data, hasIs, hasGiven := p.probabilities, p.hasIs, p.hasGiven;
    var q := new Probability.P(e, []);
    err := q.Is(-1.0);
  }

  /** A negated event stores the complement and the object ends up describing
      the non-negated event. */
  method NegatedIs(e: nat) returns (event: int, data: ProbData)
    ensures event == e && data == Scalar(1.0 - 0.3)
  {
    var p := new Probability.P(Neg(e), []);
    var ok := p.Is(0.3);
    return p.event, p.probabilities;
  }

  /** The fact that `facts` reads from `P(e1).given(e2).is(0.1).given(~e2).is(0.9)`. */
  method ChainedFact(e1: nat, e2: nat) returns (f: Fact)
    ensures f == Fact(e1, [e2], Table(map[1 := 0.1, 0 := 0.9]))
  {
    var q := new Probability.P(e1, []);
    q.Given([e2]);
    var ok := q.Is(0.1);
    q.Given([Neg(e2)]);
    ok := q.Is(0.9);
    f := q.AsFact();
  }

  /** Two events, then `facts(P(e2).is(0.5), P(e1).given(e2).is(0.1).given(~e2).is(0.9))`. */
  method CommitTwo() returns (events: seq<EventRecord>, err: Option<Error>)
    ensures err.None?
    ensures events == [EventRecord(Number(0), Table(map[1 := 0.1, 0 := 0.9]), [1]),
                       EventRecord(Number(1), Scalar(0.5), [])]
  {
    var net := new Network();
    var e1 := net.Event(None);
    var e2 := net.Event(None);
    var p := new Probability.P(e2, []);
    var ok := p.Is(0.5);
    var f1 := p.AsFact();
    var f2 := ChainedFact(e1, e2);
    assert f1 == Fact(1, [], Scalar(0.5));
    var blank := Table(map[]);
    assert net.events == [EventRecord(Number(0), blank, []), EventRecord(Number(1), blank, [])];
    var n0 := net.events;
    var n1 := [n0[0], EventRecord(Number(1), Scalar(0.5), [])];
    var n2 := [EventRecord(Number(0), Table(map[1 := 0.1, 0 := 0.9]), [1]), n1[1]];
    assert n0[1 := n1[1]] == n1;
    assert n1[0 := n2[0]] == n2;
    assert [f1, f2][1..] == [f2] && [f2][1..] == [];
    assert Commit(n0, [f1, f2]) == Commit(n1, [f2]) == Commit(n2, []) == (n2, None);
    err := net.Facts([f1, f2]);
    events := net.events;
  }

  /** `facts(P(777).is(0.4))` on a network without entry 777 is a
      ReferenceError, and the network is left as it was. */
  method CommitUnknown(net: Network) returns (err: Option<Error>)
    requires |net.events| <= 777
    modifies net
    ensures err == Some(NotAnEvent(777)) && net.events == old(net.events)
  {
    var r := new Probability.P(777, []);
    var ok := r.Is(0.4);
    err := net.Facts([r.AsFact()]);
  }
}
