/** RingStream: a byte queue in a circular buffer. Peek, Read and the copy loop of Write. */
module RingStreams {
  import opened FlatBytes

  // What the ring holds: length bytes from offset on, around the end of the buffer.
  function Ring(data: bytes, offset: nat, length: nat): (r: bytes)
    requires offset < |data| && length <= |data|
    ensures |r| == length
  {
    if offset + length <= |data| then data[offset..offset + length]
    else data[offset..] + data[..offset + length - |data|]
  }

  // a % capacity
  function Wrap(a: nat, capacity: nat): (r: nat)
    requires a < 2 * capacity
    ensures r < capacity
  {
    if a < capacity then a else a - capacity
  }

  lemma WrapIsRemainder(a: nat, capacity: nat)
    requires a < 2 * capacity
    ensures Wrap(a, capacity) == a % capacity
  {
    if a >= capacity {
      var q := a / capacity;
      assert a == capacity * q + a % capacity;
      assert q >= 2 ==> capacity * q >= 2 * capacity;
      assert q <= 0 ==> capacity * q <= 0;
    }
  }

  lemma WrapPlus(a: nat, k: nat, capacity: nat)
    requires a + k < 2 * capacity && Wrap(a, capacity) + k < capacity
    ensures Wrap(a + k, capacity) == Wrap(a, capacity) + k
  {
  }

  lemma RingAt(data: bytes, offset: nat, length: nat, k: nat)
    requires offset < |data| && k < length <= |data|
    ensures Ring(data, offset, length)[k] == data[Wrap(offset + k, |data|)]
  {
  }

  // Where logical positions k to k + n are found, when they do not go around the end.
  lemma RingStretch(data: bytes, offset: nat, length: nat, k: nat, n: nat)
    requires offset < |data| && length <= |data| && k + n <= length && n > 0
    requires Wrap(offset + k, |data|) + n <= |data|
    ensures Ring(data, offset, length)[k..k + n] == data[Wrap(offset + k, |data|)..Wrap(offset + k, |data|) + n]
  {
    var stretch, at := Ring(data, offset, length)[k..k + n], Wrap(offset + k, |data|);
    forall j | 0 <= j < n
      ensures stretch[j] == data[at + j]
    {
      RingAt(data, offset, length, k + j);
    }
  }

  // The first n bytes of contents, written over what was there before.
  function Over(contents: bytes, n: nat, before: bytes): bytes {
    if n <= |contents| && n <= |before| then contents[..n] + before[n..] else before
  }

  class RingStream {
    var buffer: array<byte>
    var offset: nat
    var length: nat

    ghost predicate Valid()
      reads this, buffer
    {
      offset < buffer.Length && length <= buffer.Length
    }

    ghost function Contents(): bytes
      reads this, buffer
      requires Valid()
    {
      Ring(buffer[..], offset, length)
    }

    constructor (initialSize: nat)
      requires initialSize > 0
      ensures Valid() && Contents() == [] && buffer.Length == initialSize && fresh(buffer)
    {
      buffer := new byte[initialSize];
      offset, length := 0, 0;
    }

    /** Copies the first bytes of the contents, as many as there are and fit. The size of a chunk is limited by the
        space after offset even when it is not read from there; the loop still ends, stays in bounds and copies the
        right bytes. */
    method Peek(destination: array<byte>) returns (n: nat)
      requires Valid() && destination != buffer
      modifies destination
      ensures n == if length < destination.Length then length else destination.Length
      ensures destination[..] == Over(Contents(), n, old(destination[..]))
    {
      var byteCountToRead := if length < destination.Length then length else destination.Length;
      var remaining: nat := byteCountToRead;
      var readFrom := offset;
      var copied: nat := 0;
      ghost var contents, before := Contents(), destination[..];
      while remaining > 0
        invariant copied + remaining == byteCountToRead
        invariant readFrom == Wrap(offset + copied, buffer.Length)
        invariant copied > 0 && remaining > 0 ==> offset + copied >= buffer.Length
        invariant contents == Contents()
        invariant destination[..] == Over(contents, copied, before)
      {
        var toEndOfBuffer := buffer.Length - offset;
        var count := if toEndOfBuffer < remaining then toEndOfBuffer else remaining;
        readFrom, copied := PeekChunk(destination, readFrom, count, copied, contents, before);
        remaining := remaining - count;
      }
      return byteCountToRead;
    }

    // One round of the loop.
    method PeekChunk(destination: array<byte>, readFrom: nat, count: nat, copied: nat,
                     ghost contents: bytes, ghost before: bytes) returns (next: nat, done: nat)
      requires Valid() && destination != buffer && 0 < count && copied + count <= length
      requires readFrom == Wrap(offset + copied, buffer.Length) && readFrom + count <= buffer.Length
      requires |before| == destination.Length >= copied + count && contents == Contents()
      requires destination[..] == Over(contents, copied, before)
      modifies destination
      ensures done == copied + count && next == Wrap(offset + done, buffer.Length)
      ensures destination[..] == Over(contents, done, before)
    {
      RingStretch(buffer[..], offset, length, copied, count);
      CopyTo(buffer[readFrom..readFrom + count], destination, copied, contents, before);
      WrapIsRemainder(readFrom + count, buffer.Length);
      next, done := (readFrom + count) % buffer.Length, copied + count;
    }

    // memcpy of the next part of contents.
    static method CopyTo(source: bytes, destination: array<byte>, at: nat, ghost contents: bytes, ghost before: bytes)
      requires at + |source| <= |before| == destination.Length && at + |source| <= |contents|
      requires destination[..] == Over(contents, at, before) && source == contents[at..at + |source|]
      modifies destination
      ensures destination[..] == Over(contents, at + |source|, before)
    {
      forall k | 0 <= k < |source| {
        destination[at + k] := source[k];
      }
    }

    /** Successive reads hand out the contents first in, first out. */
    method Read(destination: array<byte>) returns (n: nat)
      requires Valid() && destination != buffer
      modifies this`offset, this`length, destination
      ensures Valid() && n == if old(length) < destination.Length then old(length) else destination.Length
      ensures destination[..] == Over(old(Contents()), n, old(destination[..]))
      ensures Contents() == old(Contents())[n..]
    {
      n := Peek(destination);
      WrapIsRemainder(offset + n, buffer.Length);
      RingDrop(buffer[..], offset, length, n);
      offset := (offset + n) % buffer.Length;
      length := length - n;
    }

    static lemma RingDrop(data: bytes, offset: nat, length: nat, n: nat)
      requires offset < |data| && n <= length <= |data|
      ensures Ring(data, Wrap(offset + n, |data|), length - n) == Ring(data, offset, length)[n..]
    {
      var next := Wrap(offset + n, |data|);
      var rest, all := Ring(data, next, length - n), Ring(data, offset, length);
      forall k | 0 <= k < length - n
        ensures rest[k] == all[n + k]
      {
        RingAt(data, next, length - n, k);
        RingAt(data, offset, length, n + k);
      }
    }

    /** The copy loop of Write, for input that fits. */
    method Append(source: bytes)
      requires Valid() && length + |source| <= buffer.Length
      modifies this`length, buffer
      ensures Valid() && Contents() == old(Contents()) + source
    {
      var written: nat := 0;
      ghost var contents := Contents();
      while written < |source|
        invariant written <= |source| && Valid() && length == old(length) + written
        invariant Contents() == contents + source[..written]
      {
        var count := AppendChunk(source[written..]);
        TakeMore(contents, source, written, count);
        written := written + count;
      }
      assert source[..written] == source;
    }

    static lemma TakeMore(contents: bytes, source: bytes, written: nat, count: nat)
      requires written + count <= |source|
      ensures contents + source[..written + count] == contents + source[..written] + source[written..][..count]
    {
      assert source[..written + count] == source[..written] + source[written..][..count];
    }

    // One round of the loop: memcpy of as much as goes in one piece.
    method AppendChunk(rest: bytes) returns (count: nat)
      requires Valid() && length + |rest| <= buffer.Length && rest != []
      modifies this`length, buffer
      ensures 0 < count <= |rest| && Valid() && length == old(length) + count
              && Contents() == old(Contents()) + rest[..count]
    {
      WrapIsRemainder(offset + length, buffer.Length);
      var unused := (offset + length) % buffer.Length;
      var toEndOfBuffer := buffer.Length - unused;
      count := if toEndOfBuffer < |rest| then toEndOfBuffer else |rest|;
      ghost var before := buffer[..];
      Store(unused, rest[..count]);
      RingAppend(before, buffer[..], offset, length, rest[..count]);
      length := length + count;
    }

    // memcpy into the buffer.
    method Store(at: nat, added: bytes)
      requires at + |added| <= buffer.Length
      modifies buffer
      ensures Written(old(buffer[..]), buffer[..], at, added)
    {
      forall k | 0 <= k < |added| {
        buffer[at + k] := added[k];
      }
    }

    // Writing into the unused slots after the contents appends.
    static lemma RingAppend(before: bytes, after: bytes, offset: nat, length: nat, added: bytes)
      requires offset < |before| == |after| && length + |added| <= |before| && added != []
      requires Written(before, after, Wrap(offset + length, |before|), added)
      ensures Ring(after, offset, length + |added|) == Ring(before, offset, length) + added
    {
      forall k | 0 <= k < length
        ensures Ring(after, offset, length + |added|)[k] == Ring(before, offset, length)[k]
      {
        RingKept(before, after, offset, length, added, k);
      }
      forall k | 0 <= k < |added|
        ensures Ring(after, offset, length + |added|)[length + k] == added[k]
      {
        RingAdded(before, after, offset, length, added, k);
      }
      Spliced(Ring(after, offset, length + |added|), Ring(before, offset, length), added);
    }

    // added has been written at at, and nothing else.
    static ghost predicate Written(before: bytes, after: bytes, at: nat, added: bytes) {
      && |before| == |after| && at + |added| <= |before|
      && (forall x :: 0 <= x < |after| && !(at <= x < at + |added|) ==> after[x] == before[x])
      && forall k :: 0 <= k < |added| ==> after[at + k] == added[k]
    }

    static lemma RingKept(before: bytes, after: bytes, offset: nat, length: nat, added: bytes, k: nat)
      requires offset < |before| == |after| && length + |added| <= |before| && k < length
      requires Written(before, after, Wrap(offset + length, |before|), added)
      ensures Ring(after, offset, length + |added|)[k] == Ring(before, offset, length)[k]
    {
      RingAt(after, offset, length + |added|, k);
      RingAt(before, offset, length, k);
    }

    static lemma RingAdded(before: bytes, after: bytes, offset: nat, length: nat, added: bytes, k: nat)
      requires offset < |before| == |after| && length + |added| <= |before| && k < |added|
      requires Written(before, after, Wrap(offset + length, |before|), added)
      ensures Ring(after, offset, length + |added|)[length + k] == added[k]
    {
      RingAt(after, offset, length + |added|, length + k);
      WrapPlus(offset + length, k, |after|);
    }

    static lemma Spliced(whole: bytes, first: bytes, second: bytes)
      requires |whole| == |first| + |second|
      requires forall k :: 0 <= k < |first| ==> whole[k] == first[k]
      requires forall k :: 0 <= k < |second| ==> whole[|first| + k] == second[k]
      ensures whole == first + second
    {
      assert whole[|first|..] == second;
      assert whole[..|first|] == first;
    }
  }
}
