/** `probIndex`: the table slot of a list of givens, one bit per given, bit `i`
    set exactly when the `i`-th given is non-negated. */
module Index {
  import opened Bits

  /** The slot number, least significant bit first. */
  function Slot(events: seq<int>): (r: nat)
    ensures r < Pow2(|events|)
  {
    if |events| == 0 then 0
    else 2 * Slot(events[1..]) + (if events[0] >= 0 then 1 else 0)
  }

  /** Bit `k` of the slot is set iff the `k`-th given is non-negated. */
  lemma {:induction false} SlotBit(events: seq<int>, k: nat)
    requires k < |events|
    ensures Bit(Slot(events), k) <==> events[k] >= 0
  {
    var rest := Slot(events[1..]);
    var b := if events[0] >= 0 then 1 else 0;
    assert Slot(events) == 2 * rest + b;
    if k == 0 {
      assert (2 * rest + b) % 2 == b;
    } else {
      assert (2 * rest + b) / 2 == rest;
      SlotBit(events[1..], k - 1);
    }
  }

  /** Two polarity patterns of one length share a slot only if they agree in
      every position: the table has no aliasing. */
  lemma SlotInjective(e1: seq<int>, e2: seq<int>)
    requires |e1| == |e2|
    requires Slot(e1) == Slot(e2)
    ensures forall k :: 0 <= k < |e1| ==> (e1[k] >= 0 <==> e2[k] >= 0)
  {
    forall k | 0 <= k < |e1|
      ensures e1[k] >= 0 <==> e2[k] >= 0
    {
      SlotBit(e1, k);
      SlotBit(e2, k);
    }
  }

  /** Appending a given adds its bit at the top. */
  lemma {:induction false} SlotSnoc(s: seq<int>, x: int)
    ensures Slot(s + [x]) == Slot(s) + (if x >= 0 then Pow2(|s|) else 0)
  {
    if |s| > 0 {
      assert (s + [x])[1..] == s[1..] + [x];
      SlotSnoc(s[1..], x);
    }
  }

  /** The loop of `probIndex`: or-ing in one bit per given. */
  method ProbIndex(events: seq<int>) returns (index: nat)
    ensures index < Pow2(|events|)
    ensures forall k :: 0 <= k < |events| ==> (Bit(index, k) <==> events[k] >= 0)
    ensures index == Slot(events)
  {
    index := 0;
    var length := |events|;
    for i := 0 to length
      invariant index == Slot(events[..i])
    {
      // index < 2^i, so the bit or-ed in at position i is not yet set and `|=` adds it
      index := index + (if events[i] >= 0 then Pow2(i) else 0);
      assert events[..i + 1] == events[..i] + [events[i]];
      SlotSnoc(events[..i], events[i]);
    }
    assert events[..length] == events;
    forall k | 0 <= k < |events|
      ensures Bit(index, k) <==> events[k] >= 0
    {
      SlotBit(events, k);
    }
  }
}
