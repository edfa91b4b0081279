/** BufferAccumulatorNode: appends the i-th buffer of every packet to slot i, sends the slots, clears them. The
    storage of a slot grows as needed and is kept when the slots are cleared. Buffers with bytes have data behind
    them. */
module BufferAccumulator {
  import opened FlatBytes

  // ---- what the slots hold ----

  function At(slots: seq<bytes>, i: nat): bytes {
    if i < |slots| then slots[i] else []
  }

  function Longer(slots: seq<bytes>, buffers: seq<bytes>): nat {
    if |slots| < |buffers| then |buffers| else |slots|
  }

  // Slot by slot concatenation.
  function AppendEach(slots: seq<bytes>, buffers: seq<bytes>): (r: seq<bytes>)
    ensures |r| == Longer(slots, buffers) && forall i :: 0 <= i < |r| ==> r[i] == At(slots, i) + At(buffers, i)
  {
    seq(Longer(slots, buffers), i requires i >= 0 => At(slots, i) + At(buffers, i))
  }

  function Emptied(slots: seq<bytes>): (r: seq<bytes>)
    ensures |r| == |slots| && forall i :: 0 <= i < |r| ==> r[i] == []
  {
    seq(|slots|, _ => [])
  }

  // After buffer i of the packet, on top of those before it.
  lemma AppendNext(slots: seq<bytes>, buffers: seq<bytes>, i: nat)
    requires i < |buffers|
    ensures
      var before := AppendEach(slots, buffers[..i]);
      && i <= |before|
      && AppendEach(slots, buffers[..i + 1])
      == if i < |before| then before[i := before[i] + buffers[i]] else before + [buffers[i]]
  {
    var before, after := AppendEach(slots, buffers[..i]), AppendEach(slots, buffers[..i + 1]);
    var expected := if i < |before| then before[i := before[i] + buffers[i]] else before + [buffers[i]];
    assert |after| == |expected|;
    forall k | 0 <= k < |after|
      ensures after[k] == expected[k]
    {
      assert k != i ==> At(buffers[..i + 1], k) == At(buffers[..i], k);
      assert At(slots, i) + [] == At(slots, i) && [] + buffers[i] == buffers[i];
    }
  }

  // The vector's elements are updated in place: the storage on the heap, the record by replacing it.
  datatype BufferInfo = BufferInfo(buffer: array<byte>, usedByteCount: nat)

  class Accumulator {
    var buffers: seq<BufferInfo>
    ghost var slots: seq<bytes>

    // Used bytes fit the storage, which no two slots share.
    ghost predicate Valid()
      reads this, Storage()
    {
      && |slots| == |buffers|
      && (forall i :: 0 <= i < |buffers| ==> Holds(buffers[i], slots[i]))
      && forall i, j :: 0 <= i < j < |buffers| ==> buffers[i].buffer != buffers[j].buffer
    }

    static ghost predicate Holds(info: BufferInfo, content: bytes)
      reads info.buffer
    {
      info.usedByteCount == |content| <= info.buffer.Length && info.buffer[..|content|] == content
    }

    ghost function Storage(): set<object>
      reads this
    {
      set i | 0 <= i < |buffers| :: buffers[i].buffer
    }

    constructor ()
      ensures Valid() && slots == []
    {
      buffers, slots := [], [];
    }

    /** AppendBuffers. */
    method AppendBuffers(incoming: seq<bytes>)
      requires Valid()
      modifies this, Storage()
      ensures Valid() && slots == AppendEach(old(slots), incoming)
      ensures forall o :: o in Storage() ==> fresh(o) || o in old(Storage())
    {
      assert AppendEach(slots, []) == slots by {
        forall i | 0 <= i < |slots|
          ensures AppendEach(slots, [])[i] == slots[i]
        {
        }
      }
      for i := 0 to |incoming|
        invariant Valid() && slots == AppendEach(old(slots), incoming[..i])
        invariant forall o :: o in Storage() ==> fresh(o) || o in old(Storage())
      {
        AppendNext(old(slots), incoming, i);
        AppendBuffer(i, incoming[i]);
      }
      assert incoming[..|incoming|] == incoming;
    }

    // One round of the loop.
    method AppendBuffer(i: nat, incoming: bytes)
      requires Valid() && i <= |slots|
      modifies this, Storage()
      ensures Valid()
      ensures slots == if i < |old(slots)| then old(slots)[i := old(slots)[i] + incoming] else old(slots) + [incoming]
      ensures forall o :: o in Storage() ==> fresh(o) || o in old(Storage())
    {
      if |buffers| == i {
        var storage := new byte[|incoming|];
        buffers, slots := buffers + [BufferInfo(storage, 0)], slots + [[]];
      }
      var info := buffers[i];
      var copyToBufferAtOffset := info.usedByteCount;
      var minimumLength := copyToBufferAtOffset + |incoming|;
      if info.buffer.Length < minimumLength {
        var newBuffer := GrownCopy(info.buffer, minimumLength);
        info := info.(buffer := newBuffer);
        buffers := buffers[i := info];
      }
      CopyInto(i, incoming);
      assert [] + incoming == incoming;
    }

    // A bigger buffer with all the bytes of the old one in front.
    static method GrownCopy(buffer: array<byte>, length: nat) returns (newBuffer: array<byte>)
      requires buffer.Length <= length
      ensures fresh(newBuffer) && newBuffer.Length == length && newBuffer[..buffer.Length] == buffer[..]
    {
      newBuffer := new byte[length];
      forall k | 0 <= k < buffer.Length {
        newBuffer[k] := buffer[k];
      }
    }

    // memcpy behind the used bytes.
    method CopyInto(i: nat, incoming: bytes)
      requires Valid() && i < |buffers| && buffers[i].usedByteCount + |incoming| <= buffers[i].buffer.Length
      modifies this, buffers[i].buffer
      ensures Valid() && slots == old(slots)[i := old(slots)[i] + incoming]
      ensures Storage() == old(Storage())
    {
      var info := buffers[i];
      forall k | 0 <= k < |incoming| {
        info.buffer[info.usedByteCount + k] := incoming[k];
      }
      buffers := buffers[i := info.(usedByteCount := info.usedByteCount + |incoming|)];
      slots := slots[i := slots[i] + incoming];
      SameStorage(old(buffers));
    }

    lemma SameStorage(before: seq<BufferInfo>)
      requires |before| == |buffers| && forall k :: 0 <= k < |buffers| ==> before[k].buffer == buffers[k].buffer
      ensures Storage() == set k | 0 <= k < |before| :: before[k].buffer
    {
      forall o
        ensures o in Storage() <==> o in set k | 0 <= k < |before| :: before[k].buffer
      {
        if k :| 0 <= k < |buffers| && buffers[k].buffer == o {
          assert before[k].buffer == o;
        }
        if k :| 0 <= k < |before| && before[k].buffer == o {
          assert buffers[k].buffer == o;
        }
      }
    }

    /** SendAccumulatedBuffers: copies of the slots. */
    method Send() returns (outgoing: seq<array<byte>>)
      requires Valid()
      ensures |outgoing| == |slots| && forall i :: 0 <= i < |outgoing| ==>
                fresh(outgoing[i]) && outgoing[i][..] == slots[i]
    {
      outgoing := [];
      for i := 0 to |buffers|
        invariant |outgoing| == i && forall k :: 0 <= k < i ==> fresh(outgoing[k]) && outgoing[k][..] == slots[k]
      {
        var info := buffers[i];
        var copy := new byte[info.usedByteCount](
          k requires 0 <= k < info.usedByteCount <= info.buffer.Length reads info.buffer => info.buffer[k]);
        assert copy[..] == info.buffer[..info.usedByteCount];
        outgoing := outgoing + [copy];
      }
    }

    /** ClearBuffers. */
    method Clear()
      requires Valid()
      modifies this
      ensures Valid() && slots == Emptied(old(slots)) && Storage() == old(Storage())
    {
      for i := 0 to |buffers|
        invariant |buffers| == |slots| == |old(buffers)|
        invariant forall k :: 0 <= k < |buffers| ==>
                  buffers[k] == if k < i then old(buffers)[k].(usedByteCount := 0) else old(buffers)[k]
        invariant forall k :: 0 <= k < |slots| ==> slots[k] == if k < i then [] else old(slots)[k]
      {
        buffers, slots := buffers[i := buffers[i].(usedByteCount := 0)], slots[i := []];
      }
    }
  }

  // ---- histories ----

  datatype Event = Append(buffers: seq<bytes>) | ClearAll | SendAll

  function After(events: seq<Event>): seq<bytes> {
    if events == [] then []
    else
      var before := After(events[..|events| - 1]);
      match events[|events| - 1]
      case Append(buffers) => AppendEach(before, buffers)
      case ClearAll => Emptied(before)
      case SendAll => before
  }

  // The i-th buffers appended since the last clear, one after the other.
  function SinceClear(events: seq<Event>, i: nat): bytes {
    if events == [] then []
    else
      match events[|events| - 1]
      case Append(buffers) => SinceClear(events[..|events| - 1], i) + At(buffers, i)
      case ClearAll => []
      case SendAll => SinceClear(events[..|events| - 1], i)
  }

  // The most buffers any packet has brought, clears or not.
  function MostBuffers(events: seq<Event>): nat {
    if events == [] then 0
    else
      var before, e := MostBuffers(events[..|events| - 1]), events[|events| - 1];
      if e.Append? && |e.buffers| > before then |e.buffers| else before
  }

  /** After any sequence of packets: as many slots as the largest buffer count ever appended, and in each of them
      what was appended to it since the last clear, in order. */
  lemma {:induction false} SlotsHoldHistory(events: seq<Event>)
    ensures |After(events)| == MostBuffers(events)
    ensures forall i :: 0 <= i < |After(events)| ==> After(events)[i] == SinceClear(events, i)
    ensures forall i :: i >= |After(events)| ==> SinceClear(events, i) == []
  {
    if events != [] {
      var before := events[..|events| - 1];
      SlotsHoldHistory(before);
      forall i: nat
        ensures SinceClear(events, i) == At(After(events), i)
      {
        assert SinceClear(before, i) == At(After(before), i);
      }
    }
  }

  // An accumulator over a whole history; what every send sends.
  method Serve(events: seq<Event>) returns (sent: seq<seq<bytes>>)
    ensures sent == Sends(events)
  {
    var accumulator := new Accumulator();
    sent := [];
    for i := 0 to |events|
      invariant fresh(accumulator) && accumulator.Valid() && forall o :: o in accumulator.Storage() ==> fresh(o)
      invariant accumulator.slots == After(events[..i]) && sent == Sends(events[..i])
    {
      assert events[..i + 1][..i] == events[..i];
      match events[i]
      case Append(buffers) => accumulator.AppendBuffers(buffers);
      case ClearAll => accumulator.Clear();
      case SendAll =>
        var outgoing := accumulator.Send();
        var copies := Contents(outgoing);
        assert copies == accumulator.slots;
        sent := sent + [copies];
    }
    assert events[..|events|] == events;
  }

  method Contents(arrays: seq<array<byte>>) returns (contents: seq<bytes>)
    ensures |contents| == |arrays| && forall i :: 0 <= i < |arrays| ==> contents[i] == arrays[i][..]
  {
    contents := [];
    for i := 0 to |arrays|
      invariant |contents| == i && forall k :: 0 <= k < i ==> contents[k] == arrays[k][..]
    {
      contents := contents + [arrays[i][..]];
    }
  }

  function Sends(events: seq<Event>): seq<seq<bytes>> {
    if events == [] then []
    else
      var before := events[..|events| - 1];
      Sends(before) + if events[|events| - 1].SendAll? then [After(before)] else []
  }
}
