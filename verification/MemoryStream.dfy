/** MemoryStream: a list of buffers that reads as one flat byte string. Every read operation is proved against that
    string alone, so its result does not depend on how the bytes are cut into buffers.

    Offsets and lengths are size_t: sums and differences that can leave the word wrap, kNotFound is None and an
    exception is None where a value is expected. */
module MemoryStreams {
  import opened Totals
  import opened FlatBytes

  const SIZE_WORD := 0x1_0000_0000_0000_0000
  const SIZE_MAX := SIZE_WORD - 1

  // Blank, CR, LF and tab.
  const WHITESPACE: set<byte> := {32, 13, 10, 9}

  // size_t addition and subtraction.
  function AddWord(a: nat, b: nat): (r: nat)
    requires a < SIZE_WORD && b < SIZE_WORD
  {
    if a + b < SIZE_WORD then a + b else a + b - SIZE_WORD
  }

  function SubWord(a: nat, b: nat): (r: nat)
    requires a < SIZE_WORD && b < SIZE_WORD
  {
    if b <= a then a - b else a - b + SIZE_WORD
  }

  // A view on bytes; Unbacked has a length but no data behind it.
  datatype Buffer = Buffer(bytes: bytes) | Unbacked(length: nat) {
    function Length(): nat {
      match this
      case Buffer(b) => |b|
      case Unbacked(n) => n
    }

    // Buffer::slice: the part that exists of the length bytes from offset on.
    function Slice(offset: nat, length: nat): (r: Buffer)
      ensures Buffer? ==> r == Buffer.Buffer(Range(bytes, offset, offset + length))
      ensures Unbacked? && offset < Length() ==> r.Unbacked?
      ensures r.Length() == if offset >= Length() then 0
                            else if length < Length() - offset then length
                            else Length() - offset
    {
      if offset >= Length() then Buffer.Buffer([])
      else
        var count := if length < Length() - offset then length else Length() - offset;
        match this
        case Buffer(b) =>
          assert count == 0 ==> b[offset..offset + count] == [];
          Buffer.Buffer(b[offset..offset + count])
        case Unbacked(_) => Unbacked(count)
    }
  }

  function Concat(buffers: seq<Buffer>): bytes {
    if |buffers| == 0 then []
    else
      var last := buffers[|buffers| - 1];
      Concat(buffers[..|buffers| - 1]) + if last.Buffer? then last.bytes else []
  }

  lemma ConcatAppend(buffers: seq<Buffer>, b: Buffer)
    ensures Concat(buffers + [b]) == Concat(buffers) + if b.Buffer? then b.bytes else []
  {
    assert (buffers + [b])[..|buffers|] == buffers;
  }

  lemma SliceOfSlice(s: bytes, a: nat, b: nat, c: nat, d: nat)
    requires a <= b <= |s| && c <= d <= b - a
    ensures s[a..b][c..d] == s[a + c..a + d]
  {
    assert forall k :: 0 <= k < d - c ==> s[a..b][c..d][k] == s[a + c + k];
  }

  lemma ConcatNext(buffers: seq<Buffer>, i: nat)
    requires i < |buffers| && buffers[i].Buffer?
    ensures Concat(buffers[..i + 1]) == Concat(buffers[..i]) + buffers[i].bytes
  {
    assert buffers[..i + 1] == buffers[..i] + [buffers[i]];
    ConcatAppend(buffers[..i], buffers[i]);
  }

  // The bytes of the first i buffers are a prefix of all bytes.
  lemma {:induction false} ConcatPrefix(buffers: seq<Buffer>, i: nat)
    requires i <= |buffers|
    ensures |Concat(buffers[..i])| <= |Concat(buffers)|
    ensures Concat(buffers[..i]) == Concat(buffers)[..|Concat(buffers[..i])|]
  {
    if i == |buffers| {
      assert buffers[..i] == buffers;
    } else {
      assert buffers[..|buffers| - 1][..i] == buffers[..i];
      ConcatPrefix(buffers[..|buffers| - 1], i);
    }
  }

  // Buffer i occupies the bytes right after those of the buffers before it.
  lemma ConcatAt(buffers: seq<Buffer>, i: nat)
    requires i < |buffers| && buffers[i].Buffer?
    ensures |Concat(buffers[..i])| + |buffers[i].bytes| == |Concat(buffers[..i + 1])| <= |Concat(buffers)|
    ensures Concat(buffers)[|Concat(buffers[..i])|..|Concat(buffers[..i + 1])|] == buffers[i].bytes
  {
    ConcatNext(buffers, i);
    ConcatPrefix(buffers, i + 1);
  }

  // Later buffers start later.
  lemma {:induction false} ConcatGrows(buffers: seq<Buffer>, i: nat, j: nat)
    requires i <= j <= |buffers|
    ensures |Concat(buffers[..i])| <= |Concat(buffers[..j])|
  {
    assert buffers[..j][..i] == buffers[..i];
    ConcatPrefix(buffers[..j], i);
  }

  function Min(a: nat, b: nat): nat {
    if a < b then a else b
  }

  // The bytes from start up to end, as far as they exist.
  function Range(flat: bytes, start: nat, end: nat): bytes {
    if start < Min(end, |flat|) then flat[start..Min(end, |flat|)] else []
  }

  function Taken(flat: bytes, offset: nat, n: nat): bytes {
    if 0 < n && offset + n <= |flat| then flat[offset..offset + n] else []
  }

  class MemoryStream {
    var buffers: seq<Buffer>
    var size: nat

    ghost function Flat(): bytes
      reads this
    {
      Concat(buffers)
    }

    ghost predicate Valid()
      reads this
    {
      && size == |Flat()| < SIZE_MAX
      && forall i :: 0 <= i < |buffers| ==> buffers[i].Buffer? && buffers[i].bytes != []
    }

    constructor ()
      ensures Valid() && Flat() == []
    {
      buffers, size := [], 0;
    }

    // The stream's bytes are in memory, so that their number fits a size_t with room to spare.
    method Append(buffer: Buffer) returns (ok: bool)
      requires Valid() && size + buffer.Length() < SIZE_MAX
      modifies this
      ensures Valid()
      ensures ok <==> buffer.Length() == 0 || buffer.Buffer?
      ensures Flat() == if buffer.Buffer? then old(Flat()) + buffer.bytes else old(Flat())
    {
      if buffer.Length() == 0 {
        return true;
      }
      if buffer.Unbacked? {
        return false;
      }
      ConcatAppend(buffers, buffer);
      buffers := buffers + [buffer];
      size := size + buffer.Length();
      return true;
    }

    method Clear()
      modifies this
      ensures Valid() && Flat() == []
    {
      size := 0;
      buffers := [];
    }

    // The buffer byteIndex falls into and its offset there.
    method FindIndex(byteIndex: nat) returns (r: Option<(nat, nat)>)
      requires Valid()
      ensures r.Some? <==> byteIndex < |Flat()|
      ensures r.Some? ==>
                && r.value.0 < |buffers| && r.value.1 < |buffers[r.value.0].bytes|
                && |Concat(buffers[..r.value.0])| + r.value.1 == byteIndex
                && buffers[r.value.0].bytes[r.value.1] == Flat()[byteIndex]
    {
      var previous := 0;
      for i := 0 to |buffers|
        invariant previous == |Concat(buffers[..i])| <= byteIndex
      {
        BufferEnds(i);
        if previous <= byteIndex < previous + buffers[i].Length() {
          ByteOfBuffer(i, byteIndex - previous);
          return Some((i, byteIndex - previous));
        }
        previous := previous + buffers[i].Length();
      }
      assert buffers[..|buffers|] == buffers;
      return None;
    }

    lemma BufferEnds(i: nat)
      requires i < |buffers| && buffers[i].Buffer?
      ensures |Concat(buffers[..i])| + |buffers[i].bytes| == |Concat(buffers[..i + 1])| <= |Flat()|
    {
      ConcatAt(buffers, i);
    }

    lemma ByteOfBuffer(i: nat, k: nat)
      requires i < |buffers| && buffers[i].Buffer? && k < |buffers[i].bytes|
      ensures |Concat(buffers[..i])| + k < |Flat()| && Flat()[|Concat(buffers[..i])| + k] == buffers[i].bytes[k]
    {
      ConcatAt(buffers, i);
      var base := |Concat(buffers[..i])|;
      assert Flat()[base..base + |buffers[i].bytes|][k] == Flat()[base + k];
    }

    method ByteAt(index: nat) returns (r: Option<byte>)
      requires Valid()
      ensures r == if index < |Flat()| then Some(Flat()[index]) else None
    {
      var at := FindIndex(index);
      if at.None? {
        return None;
      }
      return Some(buffers[at.value.0].bytes[at.value.1]);
    }

    /** The pieces of the buffers between start and end, in order. */
    method VisitBuffers(start: nat, end: nat) returns (slices: seq<Buffer>)
      requires Valid()
      ensures Concat(slices) == Range(Flat(), start, end)
      ensures forall i :: 0 <= i < |slices| ==> slices[i].Buffer? && slices[i].bytes != []
    {
      slices := [];
      var stop := if end > size then size else end;
      if start >= stop {
        return;
      }
      var first := FindIndex(start);
      var last := FindIndex(stop - 1);
      FirstBeforeLast(first.value.0, first.value.1, last.value.0, last.value.1);
      slices := VisitFromTo(start, first.value.0, first.value.1, stop, last.value.0, last.value.1 + 1);
    }

    // The loop over the buffers from number i, at offset first, to number j, up to offset lastEnd.
    method VisitFromTo(ghost start: nat, i: nat, first: nat, ghost stop: nat, j: nat, lastEnd: nat)
      returns (slices: seq<Buffer>)
      requires Valid() && i <= j < |buffers|
      requires first < |buffers[i].bytes| && 0 < lastEnd <= |buffers[j].bytes| && (i == j ==> first < lastEnd)
      requires |Concat(buffers[..i])| + first == start && |Concat(buffers[..j])| + lastEnd == stop
      ensures Visited(slices, start, stop)
    {
      slices := [];
      ghost var reached := start;
      PieceOfBuffer(i, first, first);
      for k := i to j + 1
        invariant k <= j ==> reached == |Concat(buffers[..k])| + PieceStart(k, i, first)
        invariant k == j + 1 ==> reached == stop
        invariant Visited(slices, start, reached)
      {
        var begin := PieceStart(k, i, first);
        var end := if k == j then lastEnd else buffers[k].Length();
        assert begin < end <= |buffers[k].bytes|;
        slices, reached := Piece(k, begin, end, start, reached, slices);
      }
    }

    static function PieceStart(k: nat, i: nat, first: nat): nat {
      if k == i then first else 0
    }

    // The slices are the bytes from start up to reached.
    ghost predicate Visited(slices: seq<Buffer>, start: nat, reached: nat)
      reads this
    {
      && start <= reached <= |Flat()| && Concat(slices) == Flat()[start..reached]
      && forall n :: 0 <= n < |slices| ==> slices[n].Buffer? && slices[n].bytes != []
    }

    // One buffer's part of the visited range, which continues the parts before it.
    method Piece(k: nat, begin: nat, end: nat, ghost start: nat, ghost reached: nat, slices: seq<Buffer>)
      returns (more: seq<Buffer>, ghost next: nat)
      requires Valid() && k < |buffers| && begin < end <= |buffers[k].bytes|
      requires reached == |Concat(buffers[..k])| + begin && Visited(slices, start, reached)
      ensures next == reached + (end - begin) && Visited(more, start, next)
      ensures end == |buffers[k].bytes| ==> next == |Concat(buffers[..k + 1])|
    {
      var slice := buffers[k].Slice(begin, end - begin);
      more, next := slices + [slice], reached + (end - begin);
      PieceOfBuffer(k, begin, end);
      Extend(Flat(), start, reached, reached + (end - begin), slices, slice);
    }

    static lemma Extend(flat: bytes, start: nat, reached: nat, next: nat, slices: seq<Buffer>, slice: Buffer)
      requires start <= reached <= next <= |flat| && Concat(slices) == flat[start..reached]
      requires slice.Buffer? && slice.bytes == flat[reached..next]
      ensures Concat(slices + [slice]) == flat[start..next]
    {
      ConcatAppend(slices, slice);
    }

    // Bytes begin .. to of buffer k, found in the whole.
    lemma PieceOfBuffer(k: nat, begin: nat, to: nat)
      requires Valid() && k < |buffers| && begin <= to <= |buffers[k].bytes|
      ensures var base := |Concat(buffers[..k])|;
        && base + to <= |Flat()|
        && buffers[k].bytes[begin..to] == Flat()[base + begin..base + to]
        && (to == |buffers[k].bytes| ==> base + to == |Concat(buffers[..k + 1])|)
    {
      ConcatAt(buffers, k);
      var base := |Concat(buffers[..k])|;
      SliceOfSlice(Flat(), base, base + |buffers[k].bytes|, begin, to);
    }

    // The earlier byte lies in an earlier buffer, or at an earlier offset of the same one.
    lemma FirstBeforeLast(i: nat, begin: nat, j: nat, to: nat)
      requires Valid() && i < |buffers| && j < |buffers|
      requires begin < |buffers[i].bytes| && to < |buffers[j].bytes|
      requires |Concat(buffers[..i])| + begin <= |Concat(buffers[..j])| + to
      ensures i <= j && (i == j ==> begin <= to)
    {
      if j < i {
        ConcatAt(buffers, j);
        ConcatGrows(buffers, j + 1, i);
      }
    }

    method FirstIndexOfByte(b: byte, start: nat, end: nat) returns (r: Option<nat>)
      requires Valid()
      ensures r == FirstMatch(Flat(), [b], start, Min(end, |Flat()|))
    {
      var stop := if end > size then size else end;
      ghost var flat := Flat();
      if stop <= start {
        return None;
      }
      var slices := VisitBuffers(start, stop);
      var at := IndexInSlices(slices, b);
      FirstByteInPart(flat, b, start, stop, at);
      return Shift(at, start);
    }

    // The visitor of firstIndexOf: stops at the first buffer that has the byte.
    static method IndexInSlices(slices: seq<Buffer>, b: byte) returns (r: Option<nat>)
      requires forall i :: 0 <= i < |slices| ==> slices[i].Buffer?
      ensures r.Some? ==> r.value < |Concat(slices)| && Concat(slices)[r.value] == b
      ensures forall k :: 0 <= k < |Concat(slices)| && (r.Some? ==> k < r.value) ==> Concat(slices)[k] != b
    {
      var previous := 0;
      for i := 0 to |slices|
        invariant previous == |Concat(slices[..i])| && b !in Concat(slices[..i])
      {
        var at := IndexInBuffer(slices[i].bytes, b);
        ConcatNext(slices, i);
        if at.Some? {
          ConcatPrefix(slices, i + 1);
          return Some(previous + at.value);
        }
        previous := previous + slices[i].Length();
      }
      assert slices[..|slices|] == slices;
      return None;
    }

    // memchr
    static method IndexInBuffer(data: bytes, b: byte) returns (r: Option<nat>)
      ensures r.Some? ==> r.value < |data| && data[r.value] == b && forall k :: 0 <= k < r.value ==> data[k] != b
      ensures r.None? ==> forall k :: 0 <= k < |data| ==> data[k] != b
    {
      for i := 0 to |data|
        invariant forall k :: 0 <= k < i ==> data[k] != b
      {
        if data[i] == b {
          return Some(i);
        }
      }
      return None;
    }

    /** Does data occur at offset? An offset so large that its sum with the length wraps into the stream is an
        exception. */
    method Equals(data: bytes, offset: nat) returns (r: Option<bool>)
      requires Valid() && offset < SIZE_WORD && |data| < SIZE_MAX - size
      ensures r.None? <==> offset + |data| >= SIZE_WORD && offset + |data| - SIZE_WORD <= size
      ensures r.Some? ==> (r.value <==> MatchAt(Flat(), data, offset))
    {
      if AddWord(offset, |data|) > size {
        return Some(false);
      }
      if offset + |data| <= size {
        MatchBytes(Flat(), data, offset);
      }
      for i := 0 to |data|
        invariant offset + |data| <= size || (i == 0 && offset + |data| >= SIZE_WORD)
        invariant forall k :: 0 <= k < i ==> data[k] == Flat()[offset + k]
      {
        var b := ByteAt(AddWord(offset, i));
        if b.None? {
          return None;
        }
        if data[i] != b.value {
          return Some(false);
        }
      }
      return Some(true);
    }

    /** The least position between start and end at which pattern occurs in the stream, whole. */
    method FirstIndexOf(pattern: bytes, start: nat, end: nat) returns (r: Option<nat>)
      requires Valid() && |pattern| < SIZE_MAX - size
      ensures pattern == [] ==> r == Some(0)
      ensures pattern != [] ==> r == FirstMatch(Flat(), pattern, start, Min(end, |Flat()|))
    {
      var stop := if end > size then size else end;
      if |pattern| == 0 {
        return Some(0);
      }
      if start >= stop {
        return None;
      }
      var begin := start;
      while true
        invariant start <= begin <= stop
        invariant forall k :: start <= k < begin ==> !MatchAt(Flat(), pattern, k)
        decreases stop - begin
      {
        var candidate := FirstIndexOfByte(pattern[0], begin, stop);
        if candidate.None? {
          SearchStep(Flat(), pattern, start, begin, stop, candidate, false);
          return None;
        }
        FirstMatchLeast(Flat(), [pattern[0]], begin, stop);
        var rest := Equals(pattern[1..], candidate.value + 1);
        SearchStep(Flat(), pattern, start, begin, stop, candidate, rest.value);
        if rest.value {
          return candidate;
        }
        begin := begin + 1;
      }
    }

    // What the candidate for the first byte says about the whole pattern.
    static lemma SearchStep(flat: bytes, pattern: bytes, start: nat, begin: nat, stop: nat, candidate: Option<nat>,
                            rest: bool)
      requires pattern != [] && start <= begin <= stop
      requires forall k :: start <= k < begin ==> !MatchAt(flat, pattern, k)
      requires candidate == FirstMatch(flat, [pattern[0]], begin, stop)
      requires candidate.Some? ==> (rest <==> MatchAt(flat, pattern[1..], candidate.value + 1))
      ensures candidate.None? || rest ==> FirstMatch(flat, pattern, start, stop) == candidate
      ensures candidate.Some? && !rest ==> begin < stop && forall k :: start <= k < begin + 1 ==>
                !MatchAt(flat, pattern, k)
    {
      forall k: nat | begin <= k < stop && (candidate.Some? ==> k < candidate.value)
        ensures !MatchAt(flat, pattern, k)
      {
        NotBeforeFirstByte(flat, pattern, begin, stop, k);
      }
      FirstMatchLeast(flat, [pattern[0]], begin, stop);
      if candidate.None? {
        FirstMatchNone(flat, pattern, start, stop);
      } else {
        MatchFirstThenRest(flat, pattern, candidate.value);
        if rest {
          FirstMatchIs(flat, pattern, start, stop, candidate.value);
        }
      }
    }

    /** A new stream with the bytes between start and end. */
    method SubStream(start: nat, end: nat) returns (stream: MemoryStream)
      requires Valid()
      ensures fresh(stream) && stream.Valid() && stream.Flat() == Range(Flat(), start, end)
    {
      stream := new MemoryStream();
      var slices := VisitBuffers(start, end);
      for i := 0 to |slices|
        invariant fresh(stream) && stream.Valid() && stream.Flat() == Concat(slices[..i])
      {
        ConcatAt(slices, i);
        ConcatNext(slices, i);
        var _ := stream.Append(slices[i]);
      }
      assert slices[..|slices|] == slices;
    }

    method AsString() returns (s: bytes)
      requires Valid()
      ensures s == Flat()
    {
      s := [];
      var slices := VisitBuffers(0, size);
      for i := 0 to |slices|
        invariant s == Concat(slices[..i])
      {
        ConcatNext(slices, i);
        s := s + slices[i].bytes;
      }
      assert slices[..|slices|] == slices;
    }

    /** Copies up to count bytes from offset on into destination, as many as exist and fit. */
    method Read(offset: nat, count: nat, destination: array<byte>) returns (n: nat)
      requires Valid() && offset < SIZE_WORD && count < SIZE_WORD && size + destination.Length < SIZE_WORD
      modifies destination
      ensures n == if offset >= |Flat()| then 0 else Min(Min(count, destination.Length), |Flat()| - offset)
      ensures destination[..] == Taken(Flat(), offset, n) + old(destination[..])[n..]
    {
      var wanted := if AddWord(offset, count) > size then SubWord(size, offset) else count;
      if wanted > destination.Length {
        wanted := destination.Length;
      }
      RangeToRead(Flat(), offset, count, destination.Length);
      var slices := VisitBuffers(offset, AddWord(offset, wanted));
      assert Concat(slices) == Taken(Flat(), offset, |Concat(slices)|);
      n := CopySlices(slices, destination);
    }

    // The clamped and wrapped end offset reaches exactly the bytes that exist and fit.
    static lemma RangeToRead(flat: bytes, offset: nat, count: nat, room: nat)
      requires offset < SIZE_WORD && count < SIZE_WORD && |flat| + room < SIZE_WORD
      ensures
        var wanted := Min(if AddWord(offset, count) > |flat| then SubWord(|flat|, offset) else count, room);
        var n := if offset >= |flat| then 0 else Min(Min(count, room), |flat| - offset);
        var range := Range(flat, offset, AddWord(offset, wanted));
        |range| == n && range == Taken(flat, offset, n)
    {
    }

    static method CopySlices(slices: seq<Buffer>, destination: array<byte>) returns (n: nat)
      requires |Concat(slices)| <= destination.Length && forall i :: 0 <= i < |slices| ==> slices[i].Buffer?
      modifies destination
      ensures n == |Concat(slices)| && destination[..] == Concat(slices) + old(destination[..])[n..]
    {
      n := 0;
      ghost var before := destination[..];
      for i := 0 to |slices|
        invariant n == |Concat(slices[..i])| <= destination.Length
        invariant destination[..] == Concat(slices[..i]) + before[n..]
      {
        n := CopySlice(slices, i, destination, n, before);
      }
      assert slices[..|slices|] == slices;
    }

    // One buffer of the visit.
    static method CopySlice(slices: seq<Buffer>, i: nat, destination: array<byte>, at: nat, ghost before: bytes)
      returns (n: nat)
      requires i < |slices| && slices[i].Buffer? && |Concat(slices)| <= destination.Length == |before|
      requires at == |Concat(slices[..i])| <= destination.Length
               && destination[..] == Concat(slices[..i]) + before[at..]
      modifies destination
      ensures n == |Concat(slices[..i + 1])| <= destination.Length
      ensures destination[..] == Concat(slices[..i + 1]) + before[n..]
    {
      ConcatAt(slices, i);
      ConcatNext(slices, i);
      CopyTo(slices[i].bytes, destination, at, Concat(slices[..i]), before);
      n := at + slices[i].Length();
    }

    // memcpy to right after what has been copied.
    static method CopyTo(source: bytes, destination: array<byte>, at: nat, ghost copied: bytes, ghost before: bytes)
      requires at == |copied| && at + |source| <= |before| == destination.Length
               && destination[..] == copied + before[at..]
      modifies destination
      ensures destination[..] == copied + source + before[at + |source|..]
    {
      forall k | 0 <= k < |source| {
        destination[at + k] := source[k];
      }
    }

    /** The base-256 value of the next width bytes. An end offset beyond the stream is an exception; an offset so large
        that the end offset wraps into the stream reads nothing, and the value is whatever the buffer held. */
    method ReadBigEndian(offset: nat, width: nat) returns (r: Option<nat>)
      requires Valid() && offset < SIZE_WORD && size + width < SIZE_WORD
      ensures r.None? <==> AddWord(offset, width) > |Flat()|
      ensures offset + width <= |Flat()| ==> r == Some(BigEndian(Flat()[offset..offset + width]))
      ensures r.Some? ==> r.value < Pow256(width)
    {
      var buffer := new byte[width];
      if AddWord(offset, width) > size {
        return None;
      }
      var _ := Read(offset, width, buffer);
      assert offset + width <= size ==> buffer[..] == Flat()[offset..offset + width];
      var value := FoldBigEndian(buffer);
      BigEndianBound(buffer[..]);
      return Some(value);
    }

    // Shifts the bytes into an integer as wide as the buffer.
    static method FoldBigEndian(buffer: array<byte>) returns (value: nat)
      ensures value == BigEndian(buffer[..])
    {
      value := 0;
      for i := 0 to buffer.Length
        invariant value == BigEndian(buffer[..i])
      {
        ShiftIn(buffer[..i + 1], buffer.Length);
        assert buffer[..i + 1][..i] == buffer[..i];
        value := (value * 256) % Pow256(buffer.Length) + buffer[i] as nat;
      }
      assert buffer[..buffer.Length] == buffer[..];
    }

    // Shifting in one of at most width bytes loses no bit.
    static lemma ShiftIn(s: bytes, width: nat)
      requires 0 < |s| <= width
      ensures BigEndian(s[..|s| - 1]) * 256 < Pow256(width)
      ensures (BigEndian(s[..|s| - 1]) * 256) % Pow256(width) + s[|s| - 1] as nat == BigEndian(s) < Pow256(width)
    {
      BigEndianBound(s);
      PowGrows(|s|, width);
      SmallRemainder(BigEndian(s[..|s| - 1]) * 256, Pow256(width));
    }

    static lemma {:induction false} PowGrows(a: nat, b: nat)
      requires a <= b
      ensures Pow256(a) <= Pow256(b)
    {
      if a < b {
        PowGrows(a, b - 1);
      }
    }

    static lemma SmallRemainder(a: nat, b: nat)
      requires a < b
      ensures a % b == a
    {
    }

    method FirstIndexNotOfAnyInSet(members: set<byte>, start: nat, end: nat) returns (r: Option<nat>)
      requires Valid()
      ensures r.Some? ==> start <= r.value < Min(end, |Flat()|) && Flat()[r.value] !in members
      ensures forall k :: start <= k < Min(end, |Flat()|) && (r.Some? ==> k < r.value) ==> Flat()[k] in members
    {
      var stop := if end > size then size else end;
      if start >= stop {
        return None;
      }
      for i := start to stop
        invariant forall k :: start <= k < i ==> Flat()[k] in members
      {
        var b := ByteAt(i);
        if b.value !in members {
          return Some(i);
        }
      }
      return None;
    }

    method LastIndexNotOfAnyInSet(members: set<byte>, start: nat, end: nat) returns (r: Option<nat>)
      requires Valid()
      ensures r.Some? ==> start <= r.value < Min(end, |Flat()|) && Flat()[r.value] !in members
      ensures forall k :: start <= k < Min(end, |Flat()|) && (r.Some? ==> k > r.value) ==> Flat()[k] in members
    {
      var stop := if end > size then size else end;
      if start >= stop {
        return None;
      }
      var i := stop - 1;
      while true
        invariant start <= i < stop
        invariant forall k :: i < k < stop ==> Flat()[k] in members
        decreases i
      {
        var b := ByteAt(i);
        if b.value !in members {
          return Some(i);
        }
        if i == start {
          return None;
        }
        i := i - 1;
      }
    }

    /** A new stream without the leading and trailing blanks, carriage returns, line feeds and tabs. */
    method Trim() returns (stream: MemoryStream)
      requires Valid()
      ensures fresh(stream) && stream.Valid() && stream.Flat() == TrimEnd(TrimStart(Flat(), WHITESPACE), WHITESPACE)
      ensures TrimsTo(Flat(), stream.Flat())
    {
      var first := FirstIndexNotOfAnyInSet(WHITESPACE, 0, SIZE_MAX);
      var last := LastIndexNotOfAnyInSet(WHITESPACE, 0, SIZE_MAX);
      TrimmedPart(Flat(), WHITESPACE, first, last);
      TrimsWhiteSpace(Flat(), TrimEnd(TrimStart(Flat(), WHITESPACE), WHITESPACE));
      if first.None? {
        stream := new MemoryStream();
        return;
      }
      stream := SubStream(first.value, last.value + 1);
    }

    /** White space is blank, CR, LF and tab: what is left has none at its ends, and only such bytes were cut off. */
    static lemma TrimsWhiteSpace(flat: bytes, trimmed: bytes)
      ensures trimmed == TrimEnd(TrimStart(flat, WHITESPACE), WHITESPACE) <==> TrimsTo(flat, trimmed)
    {
      assert forall b :: b in WHITESPACE <==> Blank(b);
      TrimmedExactly(flat, WHITESPACE, trimmed);
    }

    // The first and the last byte outside the set bound what trimming leaves; without any, nothing is left.
    static lemma TrimmedPart(flat: bytes, members: set<byte>, first: Option<nat>, last: Option<nat>)
      requires first.Some? ==> first.value < |flat| && flat[first.value] !in members
      requires forall k :: 0 <= k < |flat| && (first.Some? ==> k < first.value) ==> flat[k] in members
      requires last.Some? ==> last.value < |flat| && flat[last.value] !in members
      requires forall k :: 0 <= k < |flat| && (last.Some? ==> k > last.value) ==> flat[k] in members
      ensures first.None? ==> TrimEnd(TrimStart(flat, members), members) == []
      ensures first.Some? ==> last.Some? && first.value <= last.value
                              && TrimEnd(TrimStart(flat, members), members) == flat[first.value..last.value + 1]
    {
      TrimStartIs(flat, members, if first.None? then |flat| else first.value);
      if first.Some? {
        TrimmedEnd(flat, members, first.value, last);
      }
    }

    static lemma TrimmedEnd(flat: bytes, members: set<byte>, first: nat, last: Option<nat>)
      requires first < |flat| && flat[first] !in members
      requires last.Some? ==> last.value < |flat| && flat[last.value] !in members
      requires forall k :: 0 <= k < |flat| && (last.Some? ==> k > last.value) ==> flat[k] in members
      ensures last.Some? && first <= last.value
      ensures TrimEnd(flat[first..], members) == flat[first..last.value + 1]
    {
      assert last.Some?;
      var length := last.value + 1 - first;
      assert flat[first..][length - 1] == flat[last.value];
      forall k | length <= k < |flat| - first
        ensures flat[first..][k] in members
      {
      }
      TrimEndIs(flat[first..], members, length);
      assert flat[first..][..length] == flat[first..last.value + 1];
    }

    // What split hands out. An empty separator is found at position 0 every time, so it cuts off empty fragments until
    // the limit is reached, which for 0 wraps to the whole word.
    static function Cut(flat: bytes, separator: bytes, maxTokens: nat): seq<bytes> {
      if separator != [] then Fragments(flat, separator, maxTokens)
      else if flat == [] then [[]]
      else seq(Limit(maxTokens) - 1, _ => []) + [flat]
    }

    static function Limit(maxTokens: nat): (n: nat)
      ensures n > 0
    {
      if maxTokens == 0 then SIZE_WORD else maxTokens
    }

    /** Cuts the stream at every occurrence of separator, into at most maxTokens streams if maxTokens is positive. */
    method Split(separator: bytes, maxTokens: nat) returns (tokens: seq<MemoryStream>)
      requires Valid() && |separator| < SIZE_MAX - size && maxTokens < SIZE_WORD
      ensures forall i :: 0 <= i < |tokens| ==> fresh(tokens[i])
      ensures Hold(tokens, Cut(Flat(), separator, maxTokens))
    {
      CutBegins(Flat(), separator, maxTokens);
      tokens := SplitInto(separator, maxTokens, Flat(), Cut(Flat(), separator, maxTokens));
    }

    // The loop of split.
    method SplitInto(separator: bytes, maxTokens: nat, ghost flat: bytes, ghost all: seq<bytes>)
      returns (tokens: seq<MemoryStream>)
      requires Valid() && |separator| < SIZE_MAX - size && maxTokens < SIZE_WORD && flat == Flat()
      requires Underway(flat, separator, maxTokens, all, 0, 0)
      ensures forall i :: 0 <= i < |tokens| ==> fresh(tokens[i])
      ensures Hold(tokens, all)
    {
      tokens := [];
      var startOffset, fragmentIndex := 0, 0;
      while true
        invariant Underway(flat, separator, maxTokens, all, fragmentIndex, startOffset)
        invariant fragmentIndex == |tokens| && forall i :: 0 <= i < |tokens| ==> fresh(tokens[i])
        invariant HoldFirst(tokens, all)
        decreases |flat| - startOffset, |all| - fragmentIndex
      {
        var last;
        ghost var before := tokens;
        tokens, last, startOffset := AddFragment(separator, maxTokens, startOffset, fragmentIndex, tokens, flat, all);
        forall i | 0 <= i < |tokens| ensures fresh(tokens[i]) { assert i < fragmentIndex ==> tokens[i] == before[i]; }
        if last {
          return;
        }
        fragmentIndex := fragmentIndex + 1;
      }
    }

    // onFragment collects the fragment.
    method AddFragment(separator: bytes, maxTokens: nat, startOffset: nat, fragmentIndex: nat,
                       tokens: seq<MemoryStream>, ghost flat: bytes, ghost all: seq<bytes>)
      returns (more: seq<MemoryStream>, last: bool, next: nat)
      requires Valid() && |separator| < SIZE_MAX - size && maxTokens < SIZE_WORD && fragmentIndex == |tokens|
      requires flat == Flat() && Underway(flat, separator, maxTokens, all, fragmentIndex, startOffset)
      requires HoldFirst(tokens, all)
      ensures |more| == fragmentIndex + 1 && fresh(more[fragmentIndex]) && HoldFirst(more, all)
      ensures forall i :: 0 <= i < fragmentIndex ==> more[i] == tokens[i]
      ensures startOffset + |separator| <= next && fragmentIndex < |all|
      ensures last ==> |all| == |more|
      ensures !last ==> Underway(flat, separator, maxTokens, all, fragmentIndex + 1, next)
    {
      var fragment;
      fragment, last, next := FragmentAt(separator, maxTokens, startOffset, fragmentIndex, flat, all);
      more := tokens + [fragment];
    }

    // Without a limit of the caller's: more tokens than any stream has.
    method SplitAll(separator: bytes) returns (tokens: seq<MemoryStream>)
      requires Valid() && separator != [] && |separator| < SIZE_MAX - size
      ensures forall i :: 0 <= i < |tokens| ==> fresh(tokens[i])
      ensures Hold(tokens, Fragments(Flat(), separator, 0))
    {
      tokens := Split(separator, SIZE_MAX);
      FragmentsCount(Flat(), separator);
      FragmentsBelowLimit(Flat(), separator, SIZE_MAX);
    }

    // Where the fragment at start ends.
    static ghost function FragmentEnd(flat: bytes, separator: bytes, maxTokens: nat, done: nat, start: nat): nat
      requires maxTokens < SIZE_WORD
    {
      if done == SubWord(maxTokens, 1) then |flat|
      else if separator == [] then 0
      else match FirstMatch(flat, separator, start, |flat|)
           case None => |flat|
           case Some(at) => at
    }

    method EndOfFragment(separator: bytes, maxTokens: nat, startOffset: nat, fragmentIndex: nat)
      returns (endOffset: nat)
      requires Valid() && |separator| < SIZE_MAX - size && maxTokens < SIZE_WORD
      ensures endOffset == FragmentEnd(Flat(), separator, maxTokens, fragmentIndex, startOffset)
    {
      endOffset := size;
      if fragmentIndex != SubWord(maxTokens, 1) {
        var found := FirstIndexOf(separator, startOffset, size);
        endOffset := if found.Some? then found.value else size;
      }
    }

    // The offset of the separator of this round, or the end, and what that means for the fragments to come.
    method RoundEnd(separator: bytes, maxTokens: nat, startOffset: nat, fragmentIndex: nat,
                    ghost flat: bytes, ghost all: seq<bytes>)
      returns (endOffset: nat)
      requires Valid() && |separator| < SIZE_MAX - size && maxTokens < SIZE_WORD
      requires flat == Flat() && Underway(flat, separator, maxTokens, all, fragmentIndex, startOffset)
      ensures startOffset <= endOffset && fragmentIndex < |all|
      ensures all[fragmentIndex] == Range(flat, startOffset, endOffset)
      ensures endOffset == size ==> |all| == fragmentIndex + 1
      ensures endOffset != size ==>
                Underway(flat, separator, maxTokens, all, fragmentIndex + 1, endOffset + |separator|)
    {
      endOffset := EndOfFragment(separator, maxTokens, startOffset, fragmentIndex);
      CutRound(flat, separator, maxTokens, all, fragmentIndex, startOffset, endOffset);
    }

    // One round of split: the fragment at startOffset, and where the next one starts if this is not the last.
    method FragmentAt(separator: bytes, maxTokens: nat, startOffset: nat, fragmentIndex: nat,
                      ghost flat: bytes, ghost all: seq<bytes>)
      returns (fragment: MemoryStream, last: bool, next: nat)
      requires Valid() && |separator| < SIZE_MAX - size && maxTokens < SIZE_WORD
      requires flat == Flat() && Underway(flat, separator, maxTokens, all, fragmentIndex, startOffset)
      ensures fragmentIndex < |all| && fresh(fragment) && fragment.Valid() && fragment.Flat() == all[fragmentIndex]
      ensures startOffset + |separator| <= next
      ensures last ==> |all| == fragmentIndex + 1
      ensures !last ==> Underway(flat, separator, maxTokens, all, fragmentIndex + 1, next)
    {
      var endOffset := RoundEnd(separator, maxTokens, startOffset, fragmentIndex, flat, all);
      last, next := endOffset == size, endOffset + |separator|;
      fragment := SubStream(startOffset, endOffset);
    }

    // A round of split hands out the next fragment, and the last one ends with the stream.
    static lemma CutRound(flat: bytes, separator: bytes, maxTokens: nat, all: seq<bytes>, done: nat, start: nat,
                          end: nat)
      requires maxTokens < SIZE_WORD && |flat| < SIZE_MAX && Underway(flat, separator, maxTokens, all, done, start)
      requires end == FragmentEnd(flat, separator, maxTokens, done, start)
      ensures start <= end && done < |all| && all[done] == Range(flat, start, end)
      ensures end == |flat| ==> |all| == done + 1
      ensures end != |flat| ==> Underway(flat, separator, maxTokens, all, done + 1, end + |separator|)
    {
      if separator == [] {
        EmptySeparator(flat, maxTokens, all, done);
      } else if end == |flat| {
        FragmentEndLast(flat, separator, maxTokens, done, start);
        LastFragment(flat, separator, maxTokens, all, done, start);
      } else {
        FragmentEndNext(flat, separator, maxTokens, done, start);
        NextFragment(flat, separator, maxTokens, all, done, start, end);
      }
    }

    static lemma FragmentEndLast(flat: bytes, separator: bytes, maxTokens: nat, done: nat, start: nat)
      requires separator != [] && maxTokens < SIZE_WORD && done <= |flat| < SIZE_MAX
      requires maxTokens > 0 ==> done < maxTokens
      requires FragmentEnd(flat, separator, maxTokens, done, start) == |flat|
      ensures Left(maxTokens, done) == 1 || FirstMatch(flat, separator, start, |flat|) == None
    {
      FirstMatchLeast(flat, separator, start, |flat|);
    }

    static lemma FragmentEndNext(flat: bytes, separator: bytes, maxTokens: nat, done: nat, start: nat)
      requires separator != [] && maxTokens < SIZE_WORD && done <= |flat| < SIZE_MAX
      requires maxTokens > 0 ==> done < maxTokens
      requires FragmentEnd(flat, separator, maxTokens, done, start) != |flat|
      ensures Left(maxTokens, done) != 1
      ensures FirstMatch(flat, separator, start, |flat|)
           == Some(FragmentEnd(flat, separator, maxTokens, done, start))
    {
    }

    // After done of all fragments, split goes on from start.
    static ghost predicate Underway(flat: bytes, separator: bytes, maxTokens: nat, all: seq<bytes>, done: nat,
                                    start: nat) {
      if separator == [] then start == 0 && done < |all| && all == Cut(flat, [], maxTokens)
      else done <= start && Cutting(flat, separator, maxTokens, all, done, start)
    }

    static lemma CutBegins(flat: bytes, separator: bytes, maxTokens: nat)
      ensures Underway(flat, separator, maxTokens, Cut(flat, separator, maxTokens), 0, 0)
    {
      assert flat[0..] == flat;
    }

    static lemma EmptySeparator(flat: bytes, maxTokens: nat, all: seq<bytes>, done: nat)
      requires maxTokens < SIZE_WORD && done < |all| && all == Cut(flat, [], maxTokens)
      ensures flat == [] || done == SubWord(maxTokens, 1) ==> all[done] == flat[0..|flat|] && |all| == done + 1
      ensures flat != [] && done != SubWord(maxTokens, 1) ==> all[done] == [] && done + 1 < |all|
    {
    }

    // The fragments still allowed after done of them; 0 for no limit.
    static function Left(maxTokens: nat, done: nat): nat {
      if maxTokens <= done then 0 else maxTokens - done
    }

    // After done of all fragments, what is left is the cutting of the bytes from start on.
    static ghost predicate Cutting(flat: bytes, separator: bytes, maxTokens: nat, all: seq<bytes>, done: nat,
                                   start: nat)
      requires separator != []
    {
      && start <= |flat| && done < |all| && (maxTokens > 0 ==> done < maxTokens)
      && all[done..] == Fragments(flat[start..], separator, Left(maxTokens, done))
    }

    static lemma LastFragment(flat: bytes, separator: bytes, maxTokens: nat, all: seq<bytes>, done: nat, start: nat)
      requires separator != [] && Cutting(flat, separator, maxTokens, all, done, start)
      requires Left(maxTokens, done) == 1 || FirstMatch(flat, separator, start, |flat|) == None
      ensures |all| == done + 1 && all[done] == flat[start..|flat|]
    {
      FragmentsLast(flat, separator, Left(maxTokens, done), start);
      assert all[done..][0] == flat[start..] == flat[start..|flat|];
    }

    static lemma NextFragment(flat: bytes, separator: bytes, maxTokens: nat, all: seq<bytes>, done: nat, start: nat,
                              end: nat)
      requires separator != [] && Cutting(flat, separator, maxTokens, all, done, start)
      requires Left(maxTokens, done) != 1 && FirstMatch(flat, separator, start, |flat|) == Some(end)
      ensures all[done] == flat[start..end] && end + |separator| <= |flat|
      ensures Cutting(flat, separator, maxTokens, all, done + 1, end + |separator|)
    {
      FragmentsNext(flat, separator, Left(maxTokens, done), start, end);
      TakeNext(all, done, flat[start..end], Fragments(flat[end + |separator|..], separator, Left(maxTokens, done + 1)));
    }

    static lemma TakeNext(all: seq<bytes>, done: nat, piece: bytes, after: seq<bytes>)
      requires done <= |all| && all[done..] == [piece] + after
      ensures done < |all| && all[done] == piece && all[done + 1..] == after
    {
      assert all[done..][0] == piece;
      assert all[done..][1..] == after;
    }

    // The streams hold the byte strings, in order.
    static ghost predicate Hold(streams: seq<MemoryStream>, contents: seq<bytes>)
      reads streams
    {
      |streams| == |contents| && HoldFirst(streams, contents)
    }

    static ghost predicate HoldFirst(streams: seq<MemoryStream>, contents: seq<bytes>)
      reads streams
    {
      && |streams| <= |contents|
      && forall i :: 0 <= i < |streams| ==> streams[i].Valid() && streams[i].Flat() == contents[i]
    }
  }
}
