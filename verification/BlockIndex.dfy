/** The circular block index of ImplicitProducer: which entry belongs to which block of 32 element indices. The
    producer inserts at the tail and rewinds it by one; everybody looks entries up.

    index_t and size_t are 64-bit words. next, the base of the next block, and window, the entries in use from the
    oldest to the tail, are auxiliary. A lookup sees the current header; allocation succeeds. */
module BlockIndices {
  import opened Modular
  import opened Totals

  const INDEX_WORD := 0x1_0000_0000_0000_0000
  const BLOCK_SIZE := 32
  const IMPLICIT_INITIAL_INDEX_SIZE := 32
  const INVALID_BLOCK_BASE := 1

  // index_t / BLOCK_SIZE, and its binary logarithm.
  const BLOCKS := 0x800_0000_0000_0000
  const BLOCKS_BITS := 59

  function Sub(a: nat, b: nat): (r: nat)
    requires a < INDEX_WORD && b < INDEX_WORD
    ensures r < INDEX_WORD
  {
    if b <= a then a - b else a - b + INDEX_WORD
  }

  function Add(a: nat, b: nat): (r: nat)
    requires a < INDEX_WORD && b < INDEX_WORD
    ensures r < INDEX_WORD
  {
    if a + b < INDEX_WORD then a + b else a + b - INDEX_WORD
  }

  // The slot j before slot tail on the circle.
  function Back(tail: nat, j: nat, capacity: nat): (r: nat)
    requires tail < capacity && j < capacity
    ensures r < capacity
  {
    if j <= tail then tail - j else tail - j + capacity
  }

  // (tail + 1) & (capacity - 1): on the circle, as far back as one can go.
  function Forward(tail: nat, capacity: nat): (r: nat)
    requires tail < capacity
    ensures r == Back(tail, capacity - 1, capacity) && Back(r, if capacity == 1 then 0 else 1, capacity) == tail
  {
    if tail + 1 == capacity then 0 else tail + 1
  }

  // Capacities are powers of two, far below the number of blocks a word can count.
  ghost predicate Capacity(n: nat) {
    exists bits: nat :: 0 < bits < BLOCKS_BITS && n == Pow2(bits)
  }

  lemma CapacityDivides(capacity: nat) returns (q: nat)
    requires Capacity(capacity)
    ensures q >= 2 && capacity * q == BLOCKS && 0 < capacity < BLOCKS
  {
    var bits: nat :| 0 < bits < BLOCKS_BITS && capacity == Pow2(bits);
    q := Pow2(BLOCKS_BITS - bits);
    assert q == 2 * Pow2(BLOCKS_BITS - bits - 1);
    AllBlocks(bits);
    AtLeastTwice(capacity, q);
  }

  lemma AllBlocks(bits: nat)
    requires bits <= BLOCKS_BITS
    ensures Pow2(bits) * Pow2(BLOCKS_BITS - bits) == BLOCKS
  {
    BlocksPower();
    Pow2Add(bits, BLOCKS_BITS - bits);
  }

  lemma BlocksPower()
    ensures Pow2(BLOCKS_BITS) == BLOCKS
  {
    assert Pow2(14) == 0x4000;
    Pow2Add(14, 15);
    Pow2Add(29, 30);
  }

  lemma AtLeastTwice(c: nat, q: nat)
    requires q >= 2
    ensures c * q >= 2 * c
  {
  }

  lemma CapacityDoubles(capacity: nat)
    requires Capacity(capacity) && 2 * capacity < BLOCKS
    ensures Capacity(2 * capacity)
  {
    var bits: nat :| 0 < bits < BLOCKS_BITS && capacity == Pow2(bits);
    BlocksPower();
    assert Pow2(bits + 1) == 2 * capacity;
  }

  // A distance of j blocks back as an unsigned word, in blocks.
  function Distance(j: nat): nat
    requires j < BLOCKS
  {
    Sub(0, BLOCK_SIZE * j) / BLOCK_SIZE
  }

  lemma DistanceInBlocks(j: nat)
    requires j < BLOCKS
    ensures Distance(j) == if j == 0 then 0 else BLOCKS - j
  {
  }

  /** The position arithmetic of a lookup: a distance of j blocks back, computed as an unsigned word and divided by
      BLOCK_SIZE as an unsigned word, still lands j slots back, because every capacity divides the number of blocks. */
  lemma UnsignedDistance(tail: nat, j: nat, capacity: nat)
    requires Capacity(capacity) && tail < capacity && j < capacity
    ensures j < BLOCKS && (tail + Distance(j)) % capacity == Back(tail, j, capacity)
  {
    var q := CapacityDivides(capacity);
    DistanceInBlocks(j);
    var sum, back := tail + Distance(j), Back(tail, j, capacity);
    var p := if j == 0 then 0 else if j <= tail then q else q - 1;
    assert capacity * (q - 1) == capacity * q - capacity;
    assert sum == capacity * p + back;
    DivisionUnique(capacity, sum / capacity, sum % capacity, p, back);
  }

  // The base of the block j blocks before next.
  function BaseBack(next: nat, j: nat): (r: nat)
    requires next < INDEX_WORD && j < BLOCKS
    ensures r < INDEX_WORD
  {
    Sub(next, BLOCK_SIZE * j)
  }

  lemma BasesApart(next: nat, i: nat, j: nat)
    requires next < INDEX_WORD && i <= j <= BLOCKS - 1
    ensures Sub(BaseBack(next, j), BaseBack(next, i)) / BLOCK_SIZE == Distance(j - i)
  {
  }

  // Where a lookup finds the base j blocks before the tail's.
  lemma Position(next: nat, tail: nat, j: nat, capacity: nat)
    requires next < INDEX_WORD && Capacity(capacity) && capacity < BLOCKS && tail < capacity && j < capacity
             && j + 1 < BLOCKS
    ensures (tail + Sub(BaseBack(next, j + 1), BaseBack(next, 1)) / BLOCK_SIZE) % capacity == Back(tail, j, capacity)
  {
    BasesApart(next, 1, j + 1);
    UnsignedDistance(tail, j, capacity);
  }

  lemma NextBase(next: nat, j: nat)
    requires next < INDEX_WORD && 0 < j + 1 < BLOCKS
    ensures BaseBack(Add(next, BLOCK_SIZE), j + 1) == BaseBack(next, j)
    ensures BaseBack(BaseBack(next, 1), j) == BaseBack(next, j + 1)
    ensures BaseBack(Add(next, BLOCK_SIZE), 1) == next && Add(BaseBack(next, 1), BLOCK_SIZE) == next
    ensures next % BLOCK_SIZE == 0 ==> Add(next, BLOCK_SIZE) % BLOCK_SIZE == 0 == BaseBack(next, j) % BLOCK_SIZE
  {
  }

  class BlockIndexEntry {
    var key: nat
    var value: Option<nat>

    // The value is left as it is in the memory.
    constructor ()
      ensures key == INVALID_BLOCK_BASE
    {
      key, value := INVALID_BLOCK_BASE, *;
    }
  }

  class BlockIndexHeader {
    const capacity: nat
    var tail: nat
    const index: array<BlockIndexEntry>

    constructor (capacity: nat, tail: nat, index: array<BlockIndexEntry>)
      ensures this.capacity == capacity && this.tail == tail && this.index == index
    {
      this.capacity, this.tail, this.index := capacity, tail, index;
    }
  }

  class BlockIndex {
    var blockIndex: BlockIndexHeader
    var nextBlockIndexCapacity: nat
    ghost var window: seq<BlockIndexEntry>
    ghost var next: nat

    ghost predicate Shape()
      reads this, blockIndex, blockIndex.index
    {
      && Capacity(blockIndex.capacity) && blockIndex.capacity < BLOCKS && blockIndex.index.Length == blockIndex.capacity
      && nextBlockIndexCapacity == 2 * blockIndex.capacity
      && blockIndex.tail < blockIndex.capacity && |window| <= blockIndex.capacity
      && next < INDEX_WORD && next % BLOCK_SIZE == 0
      && (forall x, y :: 0 <= x < y < blockIndex.capacity ==> blockIndex.index[x] != blockIndex.index[y])
      && forall k :: 0 <= k < |window| ==>
           window[k] == blockIndex.index[Back(blockIndex.tail, |window| - 1 - k, blockIndex.capacity)]
    }

    // The keys count down from the tail block by block; a slot outside the window is free.
    ghost predicate Valid()
      reads this, blockIndex, blockIndex.index, blockIndex.index[..]
    {
      && Shape()
      && (forall k :: 0 <= k < |window| ==> window[k].key == BaseBack(next, |window| - k))
      && forall x :: 0 <= x < blockIndex.capacity ==> Free(blockIndex.index[x]) || blockIndex.index[x] in window
    }

    static predicate Free(entry: BlockIndexEntry)
      reads entry
    {
      entry.key == INVALID_BLOCK_BASE || entry.value.None?
    }

    constructor ()
      ensures Valid() && window == [] && next == 0
      ensures fresh(blockIndex) && fresh(blockIndex.index)
    {
      var capacity := IMPLICIT_INITIAL_INDEX_SIZE;
      var entry := new BlockIndexEntry();
      var index := new BlockIndexEntry[capacity](_ => entry);
      var i := 0;
      while i != capacity
        invariant 0 <= i <= capacity
        invariant forall x :: 0 <= x < i ==> fresh(index[x]) && index[x].key == INVALID_BLOCK_BASE
        invariant forall x, y :: 0 <= x < y < i ==> index[x] != index[y]
      {
        entry := new BlockIndexEntry();
        index[i] := entry;
        i := i + 1;
      }
      assert capacity == Pow2(5);
      blockIndex := new BlockIndexHeader(capacity, capacity - 1, index);
      nextBlockIndexCapacity := 2 * capacity;
      window, next := [], 0;
    }

    /** insert_block_index_entry: the entry for the block that begins at blockStartIndex, the next one. It takes the
        slot after the tail, dropping the oldest entry if its block is gone; if that block is still there the index
        doubles. */
    method Insert(blockStartIndex: nat, canAllocate: bool) returns (entry: Option<BlockIndexEntry>)
      requires Valid() && blockStartIndex == next && nextBlockIndexCapacity < BLOCKS
      modifies this, blockIndex, blockIndex.index[..]
      ensures Valid()
      ensures entry.None? <==> old(Blocked()) && !canAllocate
      ensures entry.None? ==> window == old(window) && next == old(next) && blockIndex == old(blockIndex)
      ensures entry.Some? ==>
                && entry.value.key == blockStartIndex && next == Add(old(next), BLOCK_SIZE)
                && window == (if old(Blocked()) || !old(Full()) then old(window) else old(window)[1..]) + [entry.value]
      ensures nextBlockIndexCapacity
           == if entry.Some? && old(Blocked()) then 2 * old(nextBlockIndexCapacity) else old(nextBlockIndexCapacity)
      ensures forall e :: e in old(window) && entry != Some(e) ==> e.value == old(e.value) && e.key == old(e.key)
    {
      var newTail := Forward(blockIndex.tail, blockIndex.capacity);
      var idxEntry := blockIndex.index[newTail];
      SlotAfterTail();
      if idxEntry.key == INVALID_BLOCK_BASE || idxEntry.value == None {
        Advance(idxEntry, blockStartIndex, newTail);
        return Some(idxEntry);
      }
      if !canAllocate {
        return None;
      }
      NewBlockIndex();
      newTail := Forward(blockIndex.tail, blockIndex.capacity);
      idxEntry := blockIndex.index[newTail];
      Advance(idxEntry, blockStartIndex, newTail);
      return Some(idxEntry);
    }

    ghost predicate Full()
      reads this, blockIndex
    {
      |window| == blockIndex.capacity
    }

    // Every slot is in use and the oldest block is still there.
    ghost predicate Blocked()
      reads this, blockIndex, window
    {
      Full() && window != [] && !Free(window[0])
    }

    // The slot after the tail holds the oldest entry if the window is full, and is outside the window otherwise.
    lemma SlotAfterTail()
      requires Valid()
      ensures var after := blockIndex.index[Forward(blockIndex.tail, blockIndex.capacity)];
        && (if Full() then window != [] && window[0] == after else after !in window)
        && (Blocked() <==> !Free(after))
    {
      var capacity, tail := blockIndex.capacity, blockIndex.tail;
      var newTail := Forward(tail, capacity);
      if Full() {
        assert window[0] == blockIndex.index[Back(tail, capacity - 1, capacity)];
      } else {
        forall k | 0 <= k < |window|
          ensures window[k] != blockIndex.index[newTail]
        {
          assert Back(tail, |window| - 1 - k, capacity) != newTail;
        }
      }
    }

    // Store the key, then move the tail.
    method Advance(idxEntry: BlockIndexEntry, blockStartIndex: nat, newTail: nat)
      requires Valid() && blockStartIndex == next && newTail == Forward(blockIndex.tail, blockIndex.capacity)
      requires idxEntry == blockIndex.index[newTail] && Free(idxEntry)
      modifies this`window, this`next, blockIndex`tail, idxEntry`key
      ensures Valid()
      ensures window == (if old(Full()) then old(window)[1..] else old(window)) + [idxEntry]
      ensures next == Add(old(next), BLOCK_SIZE) && idxEntry.key == blockStartIndex
    {
      SlotAfterTail();
      ghost var kept := if Full() then window[1..] else window;
      WindowMoves(kept);
      NextBase(next, 0);
      idxEntry.key := blockStartIndex;
      blockIndex.tail := newTail;
      window := kept + [idxEntry];
      next := Add(next, BLOCK_SIZE);
      forall k | 0 <= k < |window|
        ensures window[k] == blockIndex.index[Back(newTail, |window| - 1 - k, blockIndex.capacity)]
        ensures window[k].key == BaseBack(next, |window| - k)
      {
        if k < |kept| {
          assert window[k] == kept[k] && |window| - 1 - k == |kept| - k;
        }
      }
      forall x | 0 <= x < blockIndex.capacity
        ensures Free(blockIndex.index[x]) || blockIndex.index[x] in window
      {
        if x == newTail {
          assert window[|kept|] == blockIndex.index[x];
        } else if !Free(blockIndex.index[x]) {
          var e := blockIndex.index[x];
          assert e in old(window) && e != idxEntry && e in kept;
        }
      }
    }

    // The entries that stay in the window, seen from the next tail and the next base; the slot after the tail is not
    // one.
    lemma WindowMoves(kept: seq<BlockIndexEntry>)
      requires Valid() && kept == if Full() then window[1..] else window
      ensures
        var capacity := blockIndex.capacity;
        var newTail := Forward(blockIndex.tail, capacity);
        && |kept| < capacity && (forall e :: e in window && e != blockIndex.index[newTail] ==> e in kept)
        && forall k :: 0 <= k < |kept| ==>
             && kept[k] == blockIndex.index[Back(newTail, |kept| - k, capacity)] != blockIndex.index[newTail]
             && kept[k].key == BaseBack(Add(next, BLOCK_SIZE), |kept| - k + 1)
    {
      var capacity := blockIndex.capacity;
      var newTail := Forward(blockIndex.tail, capacity);
      SlotAfterTail();
      forall k | 0 <= k < |kept|
        ensures kept[k] == blockIndex.index[Back(newTail, |kept| - k, capacity)] != blockIndex.index[newTail]
        ensures kept[k].key == BaseBack(Add(next, BLOCK_SIZE), |kept| - k + 1)
      {
        assert kept[k] == window[|window| - |kept| + k];
        assert Back(newTail, |kept| - k, capacity) == Back(blockIndex.tail, |kept| - 1 - k, capacity) != newTail;
        NextBase(next, |kept| - k);
      }
    }

    /** new_block_index: twice the slots, the old entries in order of age from slot 0 on. */
    method NewBlockIndex()
      requires Valid() && Full() && nextBlockIndexCapacity < BLOCKS
      modifies this`blockIndex, this`nextBlockIndexCapacity
      ensures Valid() && fresh(blockIndex) && fresh(blockIndex.index)
      ensures blockIndex.capacity == 2 * old(blockIndex.capacity)
              && nextBlockIndexCapacity == 2 * old(nextBlockIndexCapacity)
      ensures forall x :: old(blockIndex.capacity) <= x < blockIndex.capacity ==> fresh(blockIndex.index[x])
    {
      var prevCapacity := blockIndex.capacity;
      CapacityDoubles(prevCapacity);
      var index := DoubledSlots();
      blockIndex := new BlockIndexHeader(nextBlockIndexCapacity, prevCapacity - 1, index);
      nextBlockIndexCapacity := 2 * nextBlockIndexCapacity;
      forall k | 0 <= k < |window|
        ensures window[k] == index[Back(prevCapacity - 1, |window| - 1 - k, blockIndex.capacity)]
      {
        assert window[k] == index[k];
      }
      forall x | 0 <= x < blockIndex.capacity
        ensures Free(blockIndex.index[x]) || blockIndex.index[x] in window
      {
        if x < |window| { assert index[x] == window[x]; }
      }
    }

    method DoubledSlots() returns (index: array<BlockIndexEntry>)
      requires Valid() && Full()
      ensures fresh(index) && index.Length == nextBlockIndexCapacity
      ensures forall x :: 0 <= x < |window| ==> index[x] == window[x]
      ensures forall x :: |window| <= x < index.Length ==> fresh(index[x]) && index[x].key == INVALID_BLOCK_BASE
      ensures forall x, y :: 0 <= x < y < index.Length ==> index[x] != index[y]
    {
      index := Rotated();
      AddEntries(index, blockIndex.capacity);
      WindowDistinct();
      forall x, y | 0 <= x < y < index.Length
        ensures index[x] != index[y]
      {
        assert y < blockIndex.capacity ==> index[x] == window[x] && index[y] == window[y];
      }
    }

    lemma WindowDistinct()
      requires Valid()
      ensures forall i, k :: 0 <= i < k < |window| ==> window[i] != window[k]
    {
    }

    // The new slots, the first half filled with the old entries from the one after the tail around to the tail.
    method Rotated() returns (index: array<BlockIndexEntry>)
      requires Valid() && Full()
      ensures fresh(index) && index.Length == nextBlockIndexCapacity
      ensures forall x :: 0 <= x < |window| ==> index[x] == window[x]
    {
      var prev := blockIndex;
      var prevTail := prev.tail;
      var some := prev.index[0];
      index := new BlockIndexEntry[nextBlockIndexCapacity](_ => some);
      var prevPos := Forward(prevTail, prev.capacity);
      index[0] := prev.index[prevPos];
      var i := 1;
      while prevPos != prevTail
        invariant 1 <= i <= prev.capacity && prevPos == Back(prevTail, prev.capacity - i, prev.capacity)
        invariant forall x :: 0 <= x < i ==> index[x] == window[x]
        decreases prev.capacity - i
      {
        prevPos := Forward(prevPos, prev.capacity);
        index[i] := prev.index[prevPos];
        i := i + 1;
      }
    }

    static method AddEntries(index: array<BlockIndexEntry>, entryCount: nat)
      requires index.Length == 2 * entryCount
      modifies index
      ensures forall x :: 0 <= x < entryCount ==> index[x] == old(index[x])
      ensures forall x :: entryCount <= x < index.Length ==> fresh(index[x]) && index[x].key == INVALID_BLOCK_BASE
      ensures forall x, y :: entryCount <= x < y < index.Length ==> index[x] != index[y]
    {
      var i := 0;
      while i != entryCount
        invariant 0 <= i <= entryCount
        invariant forall x :: 0 <= x < entryCount ==> index[x] == old(index[x])
        invariant forall x :: entryCount <= x < entryCount + i ==> fresh(index[x]) && index[x].key == INVALID_BLOCK_BASE
        invariant forall x, y :: entryCount <= x < y < entryCount + i ==> index[x] != index[y]
      {
        var entry := new BlockIndexEntry();
        index[entryCount + i] := entry;
        i := i + 1;
      }
    }

    /** rewind_block_index_tail, and the store of no block that follows it, after a failed allocation. */
    method Rewind(entry: BlockIndexEntry)
      requires Valid() && window != [] && entry == window[|window| - 1]
      modifies this`window, this`next, blockIndex`tail, entry`value
      ensures Valid() && window == old(window)[..|old(window)| - 1] && next == BaseBack(old(next), 1)
      ensures entry.value == None
    {
      WindowRewinds();
      blockIndex.tail := Back(blockIndex.tail, 1, blockIndex.capacity);
      entry.value := None;
      ghost var kept := window[..|window| - 1];
      window, next := kept, BaseBack(next, 1);
      forall x | 0 <= x < blockIndex.capacity
        ensures Free(blockIndex.index[x]) || blockIndex.index[x] in window
      {
        if !Free(blockIndex.index[x]) {
          assert blockIndex.index[x] in old(window) && blockIndex.index[x] != entry;
        }
      }
    }

    // The entries before the last, seen from the tail before and the base before.
    lemma WindowRewinds()
      requires Valid() && window != []
      ensures 1 < blockIndex.capacity && next % BLOCK_SIZE == BaseBack(next, 1) % BLOCK_SIZE
      ensures
        var tail := Back(blockIndex.tail, 1, blockIndex.capacity);
        forall k :: 0 <= k < |window| - 1 ==>
          window[k] == blockIndex.index[Back(tail, |window| - 2 - k, blockIndex.capacity)]
      ensures forall k :: 0 <= k < |window| - 1 ==> window[k].key == BaseBack(BaseBack(next, 1), |window| - 1 - k)
    {
      var bits: nat :| 0 < bits < BLOCKS_BITS && blockIndex.capacity == Pow2(bits);
      forall k | 0 <= k < |window| - 1
        ensures var tail := Back(blockIndex.tail, 1, blockIndex.capacity);
                window[k] == blockIndex.index[Back(tail, |window| - 2 - k, blockIndex.capacity)]
        ensures window[k].key == BaseBack(BaseBack(next, 1), |window| - 1 - k)
      {
        BackTwice(blockIndex.tail, |window| - 2 - k, blockIndex.capacity);
        NextBase(next, |window| - 1 - k);
      }
    }

    static lemma BackTwice(tail: nat, j: nat, capacity: nat)
      requires tail < capacity && j + 1 < capacity
      ensures Back(Back(tail, 1, capacity), j, capacity) == Back(tail, j + 1, capacity)
    {
    }

    // The producer stores the block; whoever empties it takes it out again.
    method SetBlock(entry: BlockIndexEntry, block: Option<nat>)
      requires Valid() && entry in window
      modifies entry`value
      ensures Valid() && entry.value == block
    {
      entry.value := block;
    }

    /** get_block_index_entry_for_index: the entry whose key is the base of the index's block, for every entry in
        use; so for every block that is there. */
    method Lookup(index: nat, ghost sought: BlockIndexEntry) returns (entry: BlockIndexEntry)
      requires Valid() && index < INDEX_WORD
      requires sought in window || (sought in blockIndex.index[..] && !Free(sought))
      requires sought.key == index - index % BLOCK_SIZE
      ensures entry == sought
    {
      ghost var k: nat :| k < |window| && window[k] == sought;
      var base := index - index % BLOCK_SIZE;
      var tail := blockIndex.tail;
      var tailBase := blockIndex.index[tail].key;
      TailBase();
      var offset := Sub(base, tailBase) / BLOCK_SIZE;
      Position(next, tail, |window| - 1 - k, blockIndex.capacity);
      var idx := (tail + offset) % blockIndex.capacity;
      entry := blockIndex.index[idx];
    }

    lemma TailBase()
      requires Valid() && window != []
      ensures blockIndex.index[blockIndex.tail].key == BaseBack(next, 1)
    {
      assert window[|window| - 1] == blockIndex.index[Back(blockIndex.tail, 0, blockIndex.capacity)];
    }
  }
}
