/** The event registry: the closure's `network` array and `id_counter`, with
    `EVENT` (register an event) and `facts` (commit probability objects). */
module Registry {
  import opened Model

  /** `facts` for one probability object: the type check, the reference check,
      then the entry's `probabilities` and `depends` are replaced. */
  function CommitOne(net: seq<EventRecord>, f: Fact): (r: Result<seq<EventRecord>>)
    ensures f.NotAFact? ==> r == Failure(NotAProbability)
    ensures f.Fact? && !(0 <= f.event < |net|) ==> r == Failure(NotAnEvent(f.event))
    ensures r.Success? <==> f.Fact? && 0 <= f.event < |net|
    ensures r.Success? ==> |r.value| == |net|
    ensures r.Success? ==> r.value[f.event] == net[f.event].(probabilities := f.probabilities, depends := f.depends)
    ensures r.Success? ==> forall k :: 0 <= k < |net| && k != f.event ==> r.value[k] == net[k]
  {
    match f
    case NotAFact => Failure(NotAProbability)
    case Fact(event, depends, probabilities) =>
      if 0 <= event < |net| then
        Success(net[event := net[event].(probabilities := probabilities, depends := depends)])
      else Failure(NotAnEvent(event))
  }

  /** The network after `facts(...probs)` and the exception it threw, if any.
      Objects before the failing one stay committed. */
  function Commit(net: seq<EventRecord>, probs: seq<Fact>): (seq<EventRecord>, Option<Error>)
    decreases |probs|
  {
    if |probs| == 0 then (net, None)
    else match CommitOne(net, probs[0])
      case Failure(e) => (net, Some(e))
      case Success(net') => Commit(net', probs[1..])
  }

  /** Some object handed to `facts` names entry `k`. */
  predicate Names(probs: seq<Fact>, k: int)
  {
    exists j :: 0 <= j < |probs| && probs[j].Fact? && probs[j].event == k
  }

  /** `facts` keeps the network's length, writes only entries named by some
      object, succeeds exactly when every object is a valid reference, and
      keeps every stored number a probability when the objects do. */
  lemma {:induction false} CommitFrame(net: seq<EventRecord>, probs: seq<Fact>)
    ensures |Commit(net, probs).0| == |net|
    ensures forall k :: 0 <= k < |net| && !Names(probs, k) ==> Commit(net, probs).0[k] == net[k]
    ensures Commit(net, probs).1.None? <==>
      forall j :: 0 <= j < |probs| ==> probs[j].Fact? && 0 <= probs[j].event < |net|
    ensures NetInRange(net) && (forall j :: 0 <= j < |probs| && probs[j].Fact? ==> InRange(probs[j].probabilities))
      ==> NetInRange(Commit(net, probs).0)
    decreases |probs|
  {
    if |probs| > 0 {
      match CommitOne(net, probs[0])
      case Failure(e) =>
      case Success(net') =>
        CommitFrame(net', probs[1..]);
        forall k | 0 <= k < |net| && !Names(probs, k)
          ensures Commit(net, probs).0[k] == net[k]
        {
          assert probs[0].event != k;
        }
        if forall j :: 0 <= j < |probs| ==> probs[j].Fact? && 0 <= probs[j].event < |net| {
          assert forall j :: 0 <= j < |probs[1..]| ==> probs[1..][j] == probs[j + 1];
        }
    }
  }

  class Network {
    /** The `network` array: one record per event, indexed by handle. */
    var events: seq<EventRecord>
    /** `id_counter`: the next default identifier. */
    var idCounter: nat

    constructor ()
      ensures events == [] && idCounter == 0
    {
      events := [];
      idCounter := 0;
    }

    /** `EVENT(id)`: push a fresh record and return its index. Without an
        identifier the counter supplies one and is incremented. */
    method Event(id: Option<Ident>) returns (h: nat)
      modifies this
      ensures h == |old(events)|
      ensures id.Some? ==> events == old(events) + [EventRecord(id.value, Table(map[]), [])]
      ensures id.Some? ==> idCounter == old(idCounter)
      ensures id.None? ==> events == old(events) + [EventRecord(Number(old(idCounter)), Table(map[]), [])]
      ensures id.None? ==> idCounter == old(idCounter) + 1
      ensures NetInRange(old(events)) ==> NetInRange(events)
    {
      var name: Ident;
      if id.Some? {
        name := id.value;
      } else {
        name := Number(idCounter);
        idCounter := idCounter + 1;
      }
      events := events + [EventRecord(name, Table(map[]), [])];
      h := |events| - 1;
    }

    /** `facts(...probs)`: commit each object in turn; the first object that fails
        the type or reference check stops the loop with that error. */
    method Facts(probs: seq<Fact>) returns (err: Option<Error>)
      modifies this
      ensures (events, err) == Commit(old(events), probs)
      ensures idCounter == old(idCounter)
    {
      for i := 0 to |probs|
        invariant Commit(old(events), probs) == Commit(events, probs[i..])
        invariant idCounter == old(idCounter)
      {
        var prob := probs[i];
        if prob.NotAFact? {
          return Some(NotAProbability);
        }
        if !(0 <= prob.event < |events|) {
          return Some(NotAnEvent(prob.event));
        }
        assert probs[i..][1..] == probs[i + 1..];
        events := events[prob.event := events[prob.event].(probabilities := prob.probabilities, depends := prob.depends)];
      }
      return None;
    }
  }
}
