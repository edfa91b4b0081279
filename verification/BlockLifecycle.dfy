/** What happens to the memory blocks behind one ImplicitProducer: enqueue takes a free block at every block
    boundary and writes elements into it, dequeuers move their claimed elements out and count them, and the one
    whose count completes a block clears its index entry and gives the block back.

    The counters are those of ImplicitQueue. Logical block b holds the indices b * BLOCK_SIZE and up; entries[b] is
    the value in its block index entry, found in one step, which IndexLookups justifies. Auxiliary: where, the owner
    of a block, and taken, the elements a dequeuer has moved out so far. */
module BlockLifecycle {
  import opened Totals
  import Q = ImplicitQueue

  const BLOCK_SIZE := 32

  datatype Where = Free | Reserved | InUse(number: nat) | Leaving(t: nat)

  datatype Block<T> = Block(slots: seq<Option<T>>, dequeued: nat, where: Where)

  // The enqueuer between two accesses of enqueue(x).
  datatype Producer<T> =
    | Resting
    | Requisition(x: T)
    | Reset(x: T, block: nat)
    | SetEntry(x: T, block: nat)
    | Write(x: T)
    | Publish(x: T)

  // A dequeuer that owns the indices pos .. end it has not counted as dequeued yet.
  datatype Reader =
    | Away
    | Segment(pos: nat, end: nat)                                    // load the block index entry
    | Moving(pos: nat, at: nat, stop: nat, end: nat, block: nat)     // move elements, then count stop - pos
    | ClearEntry(number: nat, block: nat, pos: nat, end: nat)
    | GiveUp(block: nat, pos: nat, end: nat)                         // add_block_to_free_list

  datatype State<T> = State(
    q: Q.State<T>, blocks: seq<Block<T>>, entries: seq<Option<nat>>, tailBlock: nat,
    producer: Producer<T>, readers: seq<Reader>, taken: seq<seq<T>>)

  datatype Move<T> = Begin(x: T) | Produce(choice: nat) | Count(m: Q.Move<T>) | Read(t: nat)

  // Which of the indices lo .. hi lie in block number b.
  function Overlap(lo: int, hi: int, b: nat): nat {
    var first := if lo < b * BLOCK_SIZE then b * BLOCK_SIZE else lo;
    var to := if hi < (b + 1) * BLOCK_SIZE then hi else (b + 1) * BLOCK_SIZE;
    if first < to then to - first else 0
  }

  predicate Enabled<T>(s: State<T>, m: Move<T>)
    requires InRange(s)
  {
    match m
    case Begin(_) => s.producer.Resting?
    case Produce(choice) =>
      !s.producer.Resting? && (s.producer.Requisition? ==> choice < |s.blocks| && s.blocks[choice].where.Free?)
    case Count(c) =>
      && !c.Enqueue? && Q.Enabled(s.q, c)
      && (c.Continue? ==> !s.q.threads[c.t].Owner?)
    case Read(t) => t < |s.readers| && !s.readers[t].Away?
  }

  predicate InRange<T>(s: State<T>) {
    && |s.readers| == |s.taken| == |s.q.threads|
    && (forall p :: 0 <= p < |s.blocks| ==> |s.blocks[p].slots| == BLOCK_SIZE)
    && (s.producer.Reset? ==> s.producer.block < |s.blocks|)
    && (s.producer.SetEntry? ==> s.producer.block < |s.blocks|)
    && ((s.producer.Write? || s.producer.Publish? || s.q.tail % BLOCK_SIZE != 0) ==> s.tailBlock < |s.blocks|)
    && (forall t :: 0 <= t < |s.readers| ==> ReaderInRange(s, s.readers[t]))
    && (forall t :: 0 <= t < |s.readers| ==> (s.readers[t].Away? <==> !s.q.threads[t].Owner?))
  }

  predicate ReaderInRange<T>(s: State<T>, r: Reader) {
    match r
    case Away => true
    case Segment(pos, end) =>
      pos < end ==> pos / BLOCK_SIZE < |s.entries| && s.entries[pos / BLOCK_SIZE].Some?
                    && s.entries[pos / BLOCK_SIZE].value < |s.blocks|
    case Moving(_, _, _, _, p) => p < |s.blocks|
    case ClearEntry(b, p, _, _) => b < |s.entries| && p < |s.blocks|
    case GiveUp(p, _, _) => p < |s.blocks|
  }

  function SetBlock<T>(s: State<T>, p: nat, block: Block<T>): State<T>
    requires p < |s.blocks|
  {
    s.(blocks := s.blocks[p := block])
  }

  function SetReader<T>(s: State<T>, t: nat, r: Reader): State<T>
    requires t < |s.readers|
  {
    s.(readers := s.readers[t := r])
  }

  function Step<T>(s: State<T>, m: Move<T>): State<T>
    requires InRange(s) && Enabled(s, m)
  {
    match m
    case Begin(x) => s.(producer := if s.q.tail % BLOCK_SIZE == 0 then Requisition(x) else Write(x))
    case Produce(choice) => StepProduce(s, choice)
    case Count(c) => StepCount(s, c)
    case Read(t) => StepRead(s, t)
  }

  function StepProduce<T>(s: State<T>, choice: nat): State<T>
    requires InRange(s) && Enabled(s, Produce(choice))
  {
    match s.producer
    case Resting => s
    case Requisition(x) => SetBlock(s, choice, s.blocks[choice].(where := Reserved)).(producer := Reset(x, choice))
    case Reset(x, p) => SetBlock(s, p, s.blocks[p].(dequeued := 0)).(producer := SetEntry(x, p))
    case SetEntry(x, p) => StepSetEntry(s, x, p)
    case Write(x) => StepWrite(s, x)
    case Publish(x) => s.(q := Q.Step(s.q, Q.Enqueue(x)), producer := Resting)
  }

  // Insert the new block into the index and make it the tail block.
  function StepSetEntry<T>(s: State<T>, x: T, p: nat): State<T>
    requires p < |s.blocks|
  {
    SetBlock(s, p, s.blocks[p].(where := InUse(|s.entries|)))
    .(entries := s.entries + [Some(p)], tailBlock := p, producer := Write(x))
  }

  // Construct the element in its slot of the tail block.
  function StepWrite<T>(s: State<T>, x: T): State<T>
    requires s.tailBlock < |s.blocks| && |s.blocks[s.tailBlock].slots| == BLOCK_SIZE
  {
    var block := s.blocks[s.tailBlock];
    SetBlock(s, s.tailBlock, block.(slots := block.slots[s.q.tail % BLOCK_SIZE := Some(x)])).(producer := Publish(x))
  }

  // A counter access; winning indices makes the thread a reader of them.
  function StepCount<T>(s: State<T>, c: Q.Move<T>): State<T>
    requires InRange(s) && Enabled(s, Count(c))
  {
    if s.q.threads[c.t].Advance? then StepAdvance(s, c.t, s.q.threads[c.t].count) else s.(q := Q.Step(s.q, c))
  }

  function StepAdvance<T>(s: State<T>, t: nat, count: nat): State<T>
    requires t < |s.q.threads| == |s.readers| == |s.taken| && s.q.threads[t] == Q.Advance(count)
  {
    SetReader(s.(q := Q.Step(s.q, Q.Continue(t))), t, Segment(s.q.head, s.q.head + count)).(taken := s.taken[t := []])
  }

  function StepRead<T>(s: State<T>, t: nat): State<T>
    requires InRange(s) && Enabled(s, Read(t))
  {
    match s.readers[t]
    case Away => s
    case Segment(pos, end) =>
      if pos >= end then SetReader(s, t, Away).(q := Q.Step(s.q, Q.Continue(t)))
      else
        var blockEnd := (pos / BLOCK_SIZE + 1) * BLOCK_SIZE;
        var stop := if end < blockEnd then end else blockEnd;
        SetReader(s, t, Moving(pos, pos, stop, end, s.entries[pos / BLOCK_SIZE].value))
    case Moving(pos, at, stop, end, p) =>
      if at < stop then StepMoveOut(s, t, pos, at, stop, end, p) else StepCountOut(s, t, pos, stop, end, p)
    case ClearEntry(b, p, pos, end) => StepClearEntry(s, t, b, p, pos, end)
    case GiveUp(p, pos, end) => StepGiveUp(s, t, p, pos, end)
  }

  // Move one element out of its slot and destroy it there.
  function StepMoveOut<T>(s: State<T>, t: nat, pos: nat, at: nat, stop: nat, end: nat, p: nat): State<T>
    requires InRange(s) && t < |s.readers| && p < |s.blocks|
  {
    var i := at % BLOCK_SIZE;
    var element := s.blocks[p].slots[i];
    SetReader(SetBlock(s, p, s.blocks[p].(slots := s.blocks[p].slots[i := None])), t, Moving(pos, at + 1, stop, end, p))
    .(taken := s.taken[t := s.taken[t] + if element.Some? then [element.value] else []])
  }

  // set_many_empty: fetch_add on elementsCompletelyDequeued, true when the block is complete.
  function StepCountOut<T>(s: State<T>, t: nat, pos: nat, stop: nat, end: nat, p: nat): State<T>
    requires InRange(s) && t < |s.readers| && p < |s.blocks|
  {
    var count := s.blocks[p].dequeued + if pos < stop then stop - pos else 0;
    SetReader(SetBlock(s, p, s.blocks[p].(dequeued := count)), t,
              if count == BLOCK_SIZE then ClearEntry(pos / BLOCK_SIZE, p, stop, end) else Segment(stop, end))
  }

  // Store nullptr in the block index entry.
  function StepClearEntry<T>(s: State<T>, t: nat, b: nat, p: nat, pos: nat, end: nat): State<T>
    requires t < |s.readers| && b < |s.entries| && p < |s.blocks|
  {
    SetReader(SetBlock(s, p, s.blocks[p].(where := Leaving(t))), t, GiveUp(p, pos, end))
    .(entries := s.entries[b := None])
  }

  // Put the block on the free list.
  function StepGiveUp<T>(s: State<T>, t: nat, p: nat, pos: nat, end: nat): State<T>
    requires t < |s.readers| && p < |s.blocks|
  {
    SetReader(SetBlock(s, p, s.blocks[p].(where := Free)), t, Segment(pos, end))
  }

  // ----- the invariant

  // The indices of block b a reader has claimed and not counted as dequeued yet.
  function Uncounted(b: nat): Reader -> int {
    (r: Reader) =>
      match r
      case Away => 0
      case Segment(pos, end) => Overlap(pos, end, b)
      case Moving(pos, _, _, end, _) => Overlap(pos, end, b)
      case ClearEntry(_, _, pos, end) => Overlap(pos, end, b)
      case GiveUp(_, pos, end) => Overlap(pos, end, b)
  }

  function Pos(r: Reader): nat
    requires !r.Away?
  {
    match r
    case Segment(pos, _) => pos
    case Moving(pos, _, _, _, _) => pos
    case ClearEntry(_, _, pos, _) => pos
    case GiveUp(_, pos, _) => pos
  }

  // The next element the reader moves out.
  function At(r: Reader): nat
    requires !r.Away?
  {
    if r.Moving? then r.at else Pos(r)
  }

  function End(r: Reader): nat
    requires !r.Away?
  {
    r.end
  }

  // The block of index i is in use and its slot holds the element enqueued there.
  ghost predicate Present<T>(s: State<T>, i: nat) {
    && i < |s.q.items|
    && i / BLOCK_SIZE < |s.entries| && s.entries[i / BLOCK_SIZE].Some?
    && s.entries[i / BLOCK_SIZE].value < |s.blocks|
    && var block := s.blocks[s.entries[i / BLOCK_SIZE].value];
       |block.slots| == BLOCK_SIZE && block.slots[i % BLOCK_SIZE] == Some(s.q.items[i])
  }

  ghost predicate EntryOk<T>(s: State<T>, b: nat)
    requires b < |s.entries|
  {
    var claimed := Overlap(0, s.q.head, b);
    var uncounted := Total(s.readers, Uncounted(b));
    match s.entries[b]
    case None => claimed == BLOCK_SIZE && uncounted == 0
    case Some(p) =>
      && p < |s.blocks| && s.blocks[p].where == InUse(b)
      && s.blocks[p].dequeued + uncounted == claimed
      && (s.blocks[p].dequeued == BLOCK_SIZE ==> exists t :: 0 <= t < |s.readers| && Clears(s.readers[t], b))
  }

  ghost predicate Clears(r: Reader, b: nat) {
    r.ClearEntry? && r.number == b
  }

  ghost predicate BlockOk<T>(s: State<T>, p: nat)
    requires p < |s.blocks|
  {
    match s.blocks[p].where
    case InUse(b) => b < |s.entries| && s.entries[b] == Some(p)
    case Reserved => (s.producer.Reset? || s.producer.SetEntry?) && s.producer.block == p
    case Leaving(t) => t < |s.readers| && s.readers[t].GiveUp? && s.readers[t].block == p
    case Free => true
  }

  ghost predicate ReaderOk<T>(s: State<T>, t: nat)
    requires InRange(s) && t < |s.readers|
  {
    var r := s.readers[t];
    !r.Away? ==>
      && s.q.threads[t].Owner?
      && var first, last := s.q.threads[t].first, s.q.threads[t].first + s.q.threads[t].count;
      && first <= Pos(r) <= At(r) <= End(r) == last <= s.q.head
      && last <= |s.q.items|
      && s.taken[t] == s.q.items[first..At(r)]
      && match r
         case Moving(pos, at, stop, end, p) =>
           pos < stop && at <= stop <= end && stop <= (pos / BLOCK_SIZE + 1) * BLOCK_SIZE
           && pos / BLOCK_SIZE < |s.entries| && s.entries[pos / BLOCK_SIZE] == Some(p)
         case ClearEntry(b, p, _, _) => s.entries[b] == Some(p) && s.blocks[p].dequeued == BLOCK_SIZE
         case GiveUp(p, _, _) => s.blocks[p].where == Leaving(t)
         case _ => true
  }

  ghost predicate Pending<T>(s: State<T>, t: nat)
    requires t < |s.readers|
  {
    !s.readers[t].Away? ==> forall i :: At(s.readers[t]) <= i < End(s.readers[t]) ==> Present(s, i)
  }

  // Readers own disjoint index ranges, and no two clear the same entry.
  ghost predicate Apart<T>(s: State<T>, t: nat, u: nat)
    requires t < |s.readers| && u < |s.readers|
  {
    var r, v := s.readers[t], s.readers[u];
    t != u && !r.Away? && !v.Away? ==>
      && (End(r) <= Pos(v) || End(v) <= Pos(r))
      && (r.ClearEntry? && v.ClearEntry? ==> r.number != v.number)
  }

  ghost predicate ProducerOk<T>(s: State<T>) {
    var unfilled := s.producer.Write? || s.producer.Publish? || s.q.tail % BLOCK_SIZE != 0;
    && |s.entries| == s.q.tail / BLOCK_SIZE + (if unfilled then 1 else 0)
    && (unfilled ==> s.entries[s.q.tail / BLOCK_SIZE] == Some(s.tailBlock))
    && match s.producer
       case Requisition(_) => s.q.tail % BLOCK_SIZE == 0
       case Reset(_, p) => s.q.tail % BLOCK_SIZE == 0 && p < |s.blocks| && s.blocks[p].where == Reserved
       case SetEntry(_, p) =>
         s.q.tail % BLOCK_SIZE == 0 && p < |s.blocks| && s.blocks[p].where == Reserved && s.blocks[p].dequeued == 0
       case Publish(x) =>
         s.tailBlock < |s.blocks| && |s.blocks[s.tailBlock].slots| == BLOCK_SIZE
         && s.blocks[s.tailBlock].slots[s.q.tail % BLOCK_SIZE] == Some(x)
       case _ => true
  }

  ghost predicate EntriesOk<T>(s: State<T>) {
    forall b :: 0 <= b < |s.entries| ==> EntryOk(s, b)
  }

  ghost predicate BlocksOk<T>(s: State<T>) {
    forall p :: 0 <= p < |s.blocks| ==> BlockOk(s, p)
  }

  ghost predicate ReadersOk<T>(s: State<T>)
    requires InRange(s)
  {
    forall t :: 0 <= t < |s.readers| ==> ReaderOk(s, t) && Pending(s, t)
  }

  ghost predicate AllApart<T>(s: State<T>) {
    forall t, u :: 0 <= t < |s.readers| && 0 <= u < |s.readers| ==> Apart(s, t, u)
  }

  ghost predicate AllPresent<T>(s: State<T>) {
    forall i :: s.q.head <= i < s.q.tail ==> Present(s, i)
  }

  // Counters, entries, blocks and readers agree.
  ghost predicate Core<T>(s: State<T>) {
    && InRange(s)
    && Q.Inv(s.q)
    && ProducerOk(s)
    && EntriesOk(s)
    && BlocksOk(s)
    && ReadersOk(s)
    && AllApart(s)
    && AllPresent(s)
  }

  // What the slot of index i holds while the block of i is in the index.
  ghost function Held<T>(s: State<T>, i: nat): Option<T> {
    if i / BLOCK_SIZE < |s.entries| && s.entries[i / BLOCK_SIZE].Some?
       && s.entries[i / BLOCK_SIZE].value < |s.blocks|
       && |s.blocks[s.entries[i / BLOCK_SIZE].value].slots| == BLOCK_SIZE
    then s.blocks[s.entries[i / BLOCK_SIZE].value].slots[i % BLOCK_SIZE]
    else None
  }

  // The reader is still to move out index i.
  predicate Waits(r: Reader, i: nat) {
    !r.Away? && At(r) <= i < End(r)
  }

  // The slot of index i is empty unless some reader is still to move it out.
  ghost predicate Emptied<T>(s: State<T>, i: nat) {
    (forall t :: 0 <= t < |s.readers| ==> !Waits(s.readers[t], i)) ==> Held(s, i) == None
  }

  ghost predicate AllEmptied<T>(s: State<T>) {
    forall i :: 0 <= i < s.q.head ==> Emptied(s, i)
  }

  ghost predicate Inv<T>(s: State<T>) {
    Core(s) && AllEmptied(s)
  }

  // An empty queue; every block is free.
  ghost predicate Init<T>(s: State<T>) {
    && Q.Init(s.q) && s.entries == [] && s.producer.Resting?
    && |s.readers| == |s.taken| == |s.q.threads|
    && (forall t :: 0 <= t < |s.readers| ==> s.readers[t].Away?)
    && (forall p :: 0 <= p < |s.blocks| ==> s.blocks[p].where.Free? && |s.blocks[p].slots| == BLOCK_SIZE)
  }

  lemma InitInv<T>(s: State<T>)
    requires Init(s)
    ensures Core(s)
  {
    Q.InitInv(s.q);
  }

  // ----- what a step leaves alone

  // Reader t keeps its place; the indices it is still to move out are still present, its block is still its own.
  ghost predicate ReaderKept<T>(s: State<T>, s': State<T>, t: nat)
    requires InRange(s) && InRange(s') && t < |s.readers| == |s'.readers|
  {
    && s'.readers[t] == s.readers[t]
    && (!s.readers[t].Away? ==>
          && s'.q.threads[t] == s.q.threads[t]
          && s'.taken[t] == s.taken[t]
          && (forall i :: At(s.readers[t]) <= i < End(s.readers[t]) ==> Present(s', i)))
    && match s.readers[t]
       case Moving(pos, _, _, _, p) => pos / BLOCK_SIZE < |s'.entries| && s'.entries[pos / BLOCK_SIZE] == Some(p)
       case ClearEntry(b, p, _, _) => s'.entries[b] == Some(p) && s'.blocks[p].dequeued == BLOCK_SIZE
       case GiveUp(p, _, _) => s'.blocks[p].where == Leaving(t)
       case _ => true
  }

  lemma KeptReaderOk<T>(s: State<T>, s': State<T>, t: nat)
    requires InRange(s) && InRange(s') && t < |s.readers| == |s'.readers|
    requires ReaderOk(s, t) && ReaderKept(s, s', t)
    requires s.q.head <= s'.q.head && s.q.items <= s'.q.items
    ensures ReaderOk(s', t) && Pending(s', t)
  {
    if !s.readers[t].Away? {
      var first := s.q.threads[t].first;
      assert s'.q.items[first..At(s.readers[t])] == s.q.items[first..At(s.readers[t])];
    }
  }

  // Present survives in every block whose entry and slot stay.
  lemma KeptPresent<T>(s: State<T>, s': State<T>, i: nat)
    requires Present(s, i) && s.q.items <= s'.q.items
    requires i / BLOCK_SIZE < |s'.entries| && s'.entries[i / BLOCK_SIZE] == s.entries[i / BLOCK_SIZE]
    requires |s'.blocks| == |s.blocks|
    requires var p := s.entries[i / BLOCK_SIZE].value;
             && |s'.blocks[p].slots| == BLOCK_SIZE
             && s'.blocks[p].slots[i % BLOCK_SIZE] == s.blocks[p].slots[i % BLOCK_SIZE]
    ensures Present(s', i)
  {
  }

  // The enqueuer's steps: entries are only added, slots and counts of blocks in use stay, except for one slot
  // at the tail.
  ghost predicate Produces<T>(s: State<T>, s': State<T>) {
    && s'.q.head == s.q.head && s.q.items <= s'.q.items && |s'.q.threads| == |s.q.threads|
    && (forall t :: 0 <= t < |s.q.threads| && s.q.threads[t].Owner? ==> s'.q.threads[t] == s.q.threads[t])
    && s'.readers == s.readers && s'.taken == s.taken && s.entries <= s'.entries && |s'.blocks| == |s.blocks|
    && (forall p :: 0 <= p < |s.blocks| && (s.blocks[p].where.InUse? || s.blocks[p].where.Leaving?) ==>
          && s'.blocks[p].where == s.blocks[p].where && s'.blocks[p].dequeued == s.blocks[p].dequeued
          && |s'.blocks[p].slots| == |s.blocks[p].slots|)
    && (forall p, i :: 0 <= p < |s.blocks| && 0 <= i < |s.blocks[p].slots| && s.blocks[p].where.InUse? ==>
          s'.blocks[p].slots[i] == s.blocks[p].slots[i]
          || (s.blocks[p].where.number == s.q.tail / BLOCK_SIZE && i == s.q.tail % BLOCK_SIZE))
  }

  lemma ProducesPresent<T>(s: State<T>, s': State<T>, i: nat)
    requires InRange(s) && EntriesOk(s) && Produces(s, s') && Present(s, i) && i < s.q.tail
    ensures Present(s', i)
  {
    assert EntryOk(s, i / BLOCK_SIZE);
    KeptPresent(s, s', i);
  }

  lemma ProducesKeeps<T>(s: State<T>, s': State<T>)
    requires InRange(s) && EntriesOk(s) && ReadersOk(s) && AllApart(s) && AllPresent(s) && |s.q.items| == s.q.tail
    requires InRange(s') && Produces(s, s')
    ensures ReadersOk(s') && AllApart(s')
    ensures forall i :: s'.q.head <= i < s.q.tail ==> Present(s', i)
    ensures forall b :: 0 <= b < |s.entries| ==> EntryOk(s', b)
  {
    forall t | 0 <= t < |s.readers|
      ensures ReaderOk(s', t) && Pending(s', t)
    {
      assert ReaderOk(s, t) && Pending(s, t);
      if !s.readers[t].Away? {
        forall i | At(s.readers[t]) <= i < End(s.readers[t]) ensures Present(s', i) { ProducesPresent(s, s', i); }
        if s.readers[t].ClearEntry? { assert EntryOk(s, s.readers[t].number); }
      }
      KeptReaderOk(s, s', t);
    }
    forall t, u | 0 <= t < |s'.readers| && 0 <= u < |s'.readers| ensures Apart(s', t, u) { assert Apart(s, t, u); }
    forall i | s'.q.head <= i < s.q.tail ensures Present(s', i) { ProducesPresent(s, s', i); }
    forall b | 0 <= b < |s.entries| ensures EntryOk(s', b) { assert EntryOk(s, b); }
  }

  // ----- the enqueuer's steps

  lemma PrepareFrame<T>(s: State<T>, m: Move<T>)
    requires InRange(s) && ProducerOk(s) && BlocksOk(s) && Enabled(s, m)
    requires m.Begin? || (m.Produce? && (s.producer.Requisition? || s.producer.Reset?))
    ensures var s' := Step(s, m); s'.q == s.q && InRange(s') && ProducerOk(s') && BlocksOk(s') && Produces(s, s')
  {
    var s' := Step(s, m);
    forall p | 0 <= p < |s'.blocks| ensures BlockOk(s', p) { assert BlockOk(s, p); }
  }

  lemma PrepareInv<T>(s: State<T>, m: Move<T>)
    requires Core(s) && Enabled(s, m)
    requires m.Begin? || (m.Produce? && (s.producer.Requisition? || s.producer.Reset?))
    ensures Core(Step(s, m))
  {
    PrepareFrame(s, m);
    ProducesKeeps(s, Step(s, m));
  }

  // No reader owns an index at or beyond headIndex.
  lemma NothingUncounted<T>(s: State<T>, b: nat)
    requires InRange(s) && ReadersOk(s) && s.q.head <= b * BLOCK_SIZE
    ensures Total(s.readers, Uncounted(b)) == 0
  {
    forall t | 0 <= t < |s.readers|
      ensures Uncounted(b)(s.readers[t]) == 0
    {
      assert ReaderOk(s, t);
    }
    TotalZero(s.readers, Uncounted(b));
  }

  lemma SetEntryFrame<T>(s: State<T>, x: T, p: nat)
    requires InRange(s) && ProducerOk(s) && BlocksOk(s) && s.producer == SetEntry(x, p)
    ensures var s' := StepSetEntry(s, x, p); InRange(s') && ProducerOk(s') && BlocksOk(s') && Produces(s, s')
  {
    var s' := StepSetEntry(s, x, p);
    assert BlockOk(s, p);
    forall k | 0 <= k < |s'.blocks| ensures BlockOk(s', k) { assert BlockOk(s, k); }
  }

  lemma SetEntryInv<T>(s: State<T>, x: T, p: nat)
    requires Core(s) && s.producer == SetEntry(x, p) && p < |s.blocks|
    ensures Core(StepSetEntry(s, x, p))
  {
    var s' := StepSetEntry(s, x, p);
    Q.HeadAtMostTail(s.q);
    SetEntryFrame(s, x, p);
    NothingUncounted(s, |s.entries|);
    ProducesKeeps(s, s');
    assert EntryOk(s', |s.entries|);
  }

  /** Whenever the enqueuer writes, tailBlock is in use as the block of tailIndex: it has not been given back. */
  lemma TailBlockInUse<T>(s: State<T>)
    requires Core(s) && s.producer.Write?
    ensures s.tailBlock < |s.blocks| && s.blocks[s.tailBlock].where == InUse(s.q.tail / BLOCK_SIZE)
  {
    assert EntryOk(s, s.q.tail / BLOCK_SIZE);
  }

  lemma WriteInv<T>(s: State<T>, x: T)
    requires Core(s) && s.producer == Write(x)
    ensures Core(StepWrite(s, x))
  {
    var s' := StepWrite(s, x);
    TailBlockInUse(s);
    forall p | 0 <= p < |s'.blocks| ensures BlockOk(s', p) { assert BlockOk(s, p); }
    ProducesKeeps(s, s');
  }

  lemma PublishFrame<T>(s: State<T>, choice: nat, x: T)
    requires InRange(s) && ProducerOk(s) && EntriesOk(s) && BlocksOk(s) && Enabled(s, Produce(choice))
    requires s.producer == Publish(x) && |s.q.items| == s.q.tail
    ensures var s' := StepProduce(s, choice); InRange(s') && ProducerOk(s') && BlocksOk(s') && Produces(s, s')
    ensures Present(StepProduce(s, choice), s.q.tail)
  {
    var s' := StepProduce(s, choice);
    assert s'.q.items == s.q.items + [x];
    forall p | 0 <= p < |s'.blocks| ensures BlockOk(s', p) { assert BlockOk(s, p); }
    assert EntryOk(s, s.q.tail / BLOCK_SIZE);
  }

  lemma PublishInv<T>(s: State<T>, choice: nat, x: T)
    requires Core(s) && Enabled(s, Produce(choice)) && s.producer == Publish(x)
    ensures Core(StepProduce(s, choice))
  {
    PublishFrame(s, choice, x);
    Q.StepInv(s.q, Q.Enqueue(x));
    ProducesKeeps(s, StepProduce(s, choice));
  }

  // ----- the dequeuers' accesses to the counters

  lemma CountFrame<T>(s: State<T>, c: Q.Move<T>)
    requires InRange(s) && ProducerOk(s) && BlocksOk(s) && Enabled(s, Count(c)) && !s.q.threads[c.t].Advance?
    ensures var s' := StepCount(s, c); InRange(s') && ProducerOk(s') && BlocksOk(s') && Produces(s, s')
    ensures s.q.tail == StepCount(s, c).q.tail
  {
    var s' := StepCount(s, c);
    assert s'.q.threads == s.q.threads[c.t := s'.q.threads[c.t]];
    forall p | 0 <= p < |s'.blocks| ensures BlockOk(s', p) { assert BlockOk(s, p); }
  }

  lemma CountInv<T>(s: State<T>, c: Q.Move<T>)
    requires Core(s) && Enabled(s, Count(c)) && !s.q.threads[c.t].Advance?
    ensures Core(StepCount(s, c))
  {
    CountFrame(s, c);
    Q.StepInv(s.q, c);
    ProducesKeeps(s, StepCount(s, c));
  }

  // ----- the dequeuers' steps

  // Reader t moves on to r: what is left uncounted in block b.
  lemma UncountedAfter<T>(s: State<T>, t: nat, r: Reader, b: nat)
    requires t < |s.readers|
    ensures Total(s.readers[t := r], Uncounted(b))
            == Total(s.readers, Uncounted(b)) - Uncounted(b)(s.readers[t]) + Uncounted(b)(r)
    ensures 0 <= Uncounted(b)(s.readers[t]) <= Total(s.readers, Uncounted(b))
  {
    TotalUpdate(s.readers, t, r, Uncounted(b));
    TotalCovers(s.readers, t, Uncounted(b));
  }

  // Claimed indices of block b that reader t gains are uncounted ones.
  lemma EntryKept<T>(s: State<T>, s': State<T>, t: nat, b: nat)
    requires t < |s.readers| == |s'.readers| && s'.readers == s.readers[t := s'.readers[t]]
    requires b < |s.entries| == |s'.entries| && EntryOk(s, b) && s'.entries[b] == s.entries[b]
    requires s.entries[b].Some? ==>
               var p := s.entries[b].value;
               && p < |s'.blocks| && s'.blocks[p].where == s.blocks[p].where
               && s'.blocks[p].dequeued == s.blocks[p].dequeued
    requires s.q.head <= s'.q.head
    requires Overlap(0, s'.q.head, b) - Overlap(0, s.q.head, b)
             == Uncounted(b)(s'.readers[t]) - Uncounted(b)(s.readers[t])
    requires !Clears(s.readers[t], b)
    ensures EntryOk(s', b)
  {
    UncountedAfter(s, t, s'.readers[t], b);
    if s.entries[b].Some? && s.blocks[s.entries[b].value].dequeued == BLOCK_SIZE {
      var u :| 0 <= u < |s.readers| && Clears(s.readers[u], b);
      assert Clears(s'.readers[u], b);
    }
  }

  // The rest of the invariant, once every reader but t is left alone.
  lemma OthersOk<T>(s: State<T>, s': State<T>, t: nat)
    requires InRange(s) && ReadersOk(s) && InRange(s') && t < |s.readers| == |s'.readers|
    requires s.q.head <= s'.q.head && s.q.items <= s'.q.items
    requires forall u :: 0 <= u < |s.readers| && u != t ==> ReaderKept(s, s', u)
    requires ReaderOk(s', t) && Pending(s', t)
    ensures ReadersOk(s')
  {
    forall u | 0 <= u < |s'.readers|
      ensures ReaderOk(s', u) && Pending(s', u)
    {
      if u != t {
        assert ReaderOk(s, u);
        KeptReaderOk(s, s', u);
      }
    }
  }

  // Reader u is left alone when entries and slots are.
  lemma UntouchedKept<T>(s: State<T>, s': State<T>, u: nat)
    requires InRange(s) && InRange(s') && u < |s.readers| == |s'.readers| && ReaderOk(s, u) && Pending(s, u)
    requires s'.readers[u] == s.readers[u] && s'.taken[u] == s.taken[u] && s'.q.threads[u] == s.q.threads[u]
    requires s'.q.items == s.q.items && s'.entries == s.entries && s'.blocks == s.blocks
    ensures ReaderKept(s, s', u)
  {
    if !s.readers[u].Away? {
      forall i | At(s.readers[u]) <= i < End(s.readers[u]) ensures Present(s', i) { assert Present(s, i); }
    }
  }

  lemma AdvanceCounters<T>(q: Q.State<T>, t: nat, count: nat)
    requires Q.Inv(q) && t < |q.threads| && q.threads[t] == Q.Advance(count)
    ensures var q' := Q.Step(q, Q.Continue(t));
      && Q.Inv(q') && q'.tail == q.tail == |q.items| && q'.items == q.items
      && q.head < q'.head == q.head + count <= q.tail && q'.threads == q.threads[t := Q.Owner(q.head, count)]
  {
    Q.StepInv(q, Q.Continue(t));
    Q.HeadAtMostTail(Q.Step(q, Q.Continue(t)));
    assert Q.ThreadOk(q, t);
  }

  // What StepAdvance does: thread t becomes a reader of the next count indices.
  ghost predicate Claims<T>(s: State<T>, s': State<T>, t: nat, count: nat) {
    && t < |s.readers| && t < |s.q.threads| && t < |s.taken| && s.q.threads[t] == Q.Advance(count)
    && s'.q.tail == s.q.tail == |s.q.items| && s'.q.items == s.q.items
    && s.q.head < s'.q.head == s.q.head + count <= s.q.tail
    && s'.q.threads == s.q.threads[t := Q.Owner(s.q.head, count)]
    && s'.readers == s.readers[t := Segment(s.q.head, s'.q.head)] && s'.taken == s.taken[t := []]
    && s'.blocks == s.blocks && s'.entries == s.entries && s'.producer == s.producer && s'.tailBlock == s.tailBlock
  }

  lemma ClaimsInRange<T>(s: State<T>, s': State<T>, t: nat, count: nat)
    requires InRange(s) && AllPresent(s) && Claims(s, s', t, count)
    ensures InRange(s')
  {
    assert Present(s, s.q.head);
  }

  lemma ClaimsOther<T>(s: State<T>, s': State<T>, t: nat, count: nat, u: nat)
    requires InRange(s) && ReadersOk(s) && Claims(s, s', t, count) && InRange(s') && u < |s.readers| && u != t
    ensures ReaderKept(s, s', u) && Apart(s', t, u) && Apart(s', u, t)
  {
    assert ReaderOk(s, u) && Pending(s, u);
    UntouchedKept(s, s', u);
  }

  // The reader's new indices are those nobody else has claimed.
  lemma ClaimsReaders<T>(s: State<T>, s': State<T>, t: nat, count: nat)
    requires InRange(s) && AllPresent(s) && ReadersOk(s) && AllApart(s) && Claims(s, s', t, count)
    ensures InRange(s') && ReadersOk(s') && AllApart(s')
  {
    ClaimsInRange(s, s', t, count);
    forall i | s.q.head <= i < s'.q.head ensures Present(s', i) { assert Present(s, i); }
    forall u | 0 <= u < |s.readers| && u != t
      ensures ReaderKept(s, s', u) && Apart(s', t, u) && Apart(s', u, t)
    {
      ClaimsOther(s, s', t, count, u);
    }
    forall u, v | 0 <= u < |s'.readers| && 0 <= v < |s'.readers|
      ensures Apart(s', u, v)
    {
      assert u != t && v != t ==> Apart(s, u, v);
    }
    OthersOk(s, s', t);
  }

  // Claimed elements become uncounted ones of their reader.
  lemma ClaimsEntry<T>(s: State<T>, s': State<T>, t: nat, count: nat, b: nat)
    requires InRange(s) && Claims(s, s', t, count) && b < |s.entries| && EntryOk(s, b)
    ensures EntryOk(s', b)
  {
    EntryKept(s, s', t, b);
  }

  lemma ClaimsBlocks<T>(s: State<T>, s': State<T>, t: nat, count: nat)
    requires InRange(s) && EntriesOk(s) && BlocksOk(s) && AllPresent(s) && ProducerOk(s) && Claims(s, s', t, count)
    ensures EntriesOk(s') && BlocksOk(s') && AllPresent(s') && ProducerOk(s')
  {
    forall b | 0 <= b < |s'.entries| ensures EntryOk(s', b) { assert EntryOk(s, b); ClaimsEntry(s, s', t, count, b); }
    forall p | 0 <= p < |s'.blocks| ensures BlockOk(s', p) { assert BlockOk(s, p); }
    forall i | s'.q.head <= i < s'.q.tail ensures Present(s', i) { assert Present(s, i); }
  }

  lemma AdvanceClaims<T>(s: State<T>, t: nat, count: nat)
    requires Q.Inv(s.q) && t < |s.readers| == |s.q.threads| == |s.taken| && s.q.threads[t] == Q.Advance(count)
    ensures var s' := StepAdvance(s, t, count); Q.Inv(s'.q) && Claims(s, s', t, count)
  {
    AdvanceCounters(s.q, t, count);
  }

  lemma AdvanceInv<T>(s: State<T>, t: nat, count: nat)
    requires Core(s) && t < |s.readers| && s.q.threads[t] == Q.Advance(count)
    ensures Core(StepAdvance(s, t, count))
  {
    AdvanceClaims(s, t, count);
    ClaimsReaders(s, StepAdvance(s, t, count), t, count);
    ClaimsBlocks(s, StepAdvance(s, t, count), t, count);
  }

  lemma DepartFrame<T>(s: State<T>, t: nat)
    requires Core(s) && t < |s.readers| && s.readers[t].Segment? && s.readers[t].pos >= s.readers[t].end
    ensures var s' := StepRead(s, t);
      && Enabled(s, Read(t)) && Q.Enabled(s.q, Q.Continue(t)) && s.q.threads[t].Owner?
      && s' == s.(readers := s.readers[t := Away], q := s.q.(threads := s.q.threads[t := Q.Idle]))
      && InRange(s') && Q.Inv(s'.q)
  {
    Q.StepInv(s.q, Q.Continue(t));
  }

  lemma DepartInv<T>(s: State<T>, t: nat)
    requires Core(s) && t < |s.readers| && s.readers[t].Segment? && s.readers[t].pos >= s.readers[t].end
    ensures Core(StepRead(s, t))
  {
    var s' := StepRead(s, t);
    assert ReaderOk(s, t);
    DepartFrame(s, t);
    SameBlocks(s, s', t);
  }

  lemma EnterFrame<T>(s: State<T>, t: nat)
    requires InRange(s) && ReadersOk(s) && t < |s.readers| && s.readers[t].Segment?
    requires s.readers[t].pos < s.readers[t].end
    ensures var s' := StepRead(s, t);
      && s'.q == s.q && InRange(s') && MovesOn(s, s', t) && ReaderOk(s', t) && Pending(s', t)
  {
    var s' := StepRead(s, t);
    assert ReaderOk(s, t) && Pending(s, t);
    var i := s.readers[t].pos;
    assert Present(s, i);
    forall k | i <= k < s.readers[t].end ensures Present(s', k) { assert Present(s, k); }
  }

  lemma EnterInv<T>(s: State<T>, t: nat)
    requires Core(s) && t < |s.readers| && s.readers[t].Segment? && s.readers[t].pos < s.readers[t].end
    ensures Core(StepRead(s, t))
  {
    EnterFrame(s, t);
    SameBlocks(s, StepRead(s, t), t);
  }

  // A reader enters a block or leaves: it changes its own position only and owns the same indices as before.
  ghost predicate MovesOn<T>(s: State<T>, s': State<T>, t: nat) {
    && t < |s.readers| == |s'.readers| && s'.readers == s.readers[t := s'.readers[t]] && s'.taken == s.taken
    && s'.q == s.q.(threads := s'.q.threads) && |s'.q.threads| == |s.q.threads| == |s.readers|
    && (forall u :: 0 <= u < |s.readers| && u != t ==> s'.q.threads[u] == s.q.threads[u])
    && s'.blocks == s.blocks && s'.entries == s.entries && s'.producer == s.producer && s'.tailBlock == s.tailBlock
    && s.readers[t].Segment? && (s'.readers[t].Away? || s'.readers[t].Moving?)
    && (forall b: nat :: Uncounted(b)(s'.readers[t]) == Uncounted(b)(s.readers[t]))
    && (s'.readers[t].Moving? ==> Pos(s'.readers[t]) == Pos(s.readers[t]) && End(s'.readers[t]) == End(s.readers[t]))
  }

  lemma MovesOnEntry<T>(s: State<T>, s': State<T>, t: nat, b: nat)
    requires InRange(s) && MovesOn(s, s', t) && b < |s.entries| && EntryOk(s, b)
    ensures EntryOk(s', b)
  {
    EntryKept(s, s', t, b);
  }

  lemma MovesOnReaders<T>(s: State<T>, s': State<T>, t: nat)
    requires InRange(s) && ReadersOk(s) && AllApart(s) && InRange(s') && MovesOn(s, s', t)
    requires ReaderOk(s', t) && Pending(s', t)
    ensures ReadersOk(s') && AllApart(s')
  {
    forall u | 0 <= u < |s.readers| && u != t
      ensures ReaderKept(s, s', u)
    {
      assert ReaderOk(s, u) && Pending(s, u);
      UntouchedKept(s, s', u);
    }
    forall u, v | 0 <= u < |s'.readers| && 0 <= v < |s'.readers| ensures Apart(s', u, v) { assert Apart(s, u, v); }
    OthersOk(s, s', t);
  }

  lemma SameBlocks<T>(s: State<T>, s': State<T>, t: nat)
    requires Core(s) && InRange(s') && Q.Inv(s'.q) && MovesOn(s, s', t) && ReaderOk(s', t) && Pending(s', t)
    ensures Core(s')
  {
    forall b | 0 <= b < |s'.entries| ensures EntryOk(s', b) { assert EntryOk(s, b); MovesOnEntry(s, s', t, b); }
    forall p | 0 <= p < |s'.blocks| ensures BlockOk(s', p) { assert BlockOk(s, p); }
    forall i | s'.q.head <= i < s'.q.tail ensures Present(s', i) { assert Present(s, i); }
    MovesOnReaders(s, s', t);
  }

  // An index other than the one moved out stays present.
  lemma MoveOutPresent<T>(s: State<T>, t: nat, pos: nat, at: nat, stop: nat, end: nat, p: nat, i: nat)
    requires InRange(s) && EntriesOk(s) && t < |s.readers| && p < |s.blocks|
    requires at / BLOCK_SIZE < |s.entries| && s.entries[at / BLOCK_SIZE] == Some(p)
    requires Present(s, i) && i != at
    ensures Present(StepMoveOut(s, t, pos, at, stop, end, p), i)
  {
    assert EntryOk(s, i / BLOCK_SIZE) && EntryOk(s, at / BLOCK_SIZE);
    KeptPresent(s, StepMoveOut(s, t, pos, at, stop, end, p), i);
  }

  lemma MoveOutOwn<T>(s: State<T>, t: nat, pos: nat, at: nat, stop: nat, end: nat, p: nat)
    requires InRange(s) && EntriesOk(s) && t < |s.readers| && s.readers[t] == Moving(pos, at, stop, end, p) && at < stop
    requires ReaderOk(s, t) && Pending(s, t)
    ensures var s' := StepMoveOut(s, t, pos, at, stop, end, p); InRange(s') && ReaderOk(s', t) && Pending(s', t)
  {
    var s' := StepMoveOut(s, t, pos, at, stop, end, p);
    assert Present(s, at) && pos / BLOCK_SIZE == at / BLOCK_SIZE;
    forall i | at + 1 <= i < end
      ensures Present(s', i)
    {
      assert Present(s, i);
      MoveOutPresent(s, t, pos, at, stop, end, p, i);
    }
  }

  lemma MoveOutOther<T>(s: State<T>, t: nat, pos: nat, at: nat, stop: nat, end: nat, p: nat, u: nat)
    requires InRange(s) && EntriesOk(s) && t < |s.readers| && s.readers[t] == Moving(pos, at, stop, end, p) && at < stop
    requires ReaderOk(s, t) && InRange(StepMoveOut(s, t, pos, at, stop, end, p))
    requires u < |s.readers| && u != t && ReaderOk(s, u) && Pending(s, u) && Apart(s, t, u)
    ensures ReaderKept(s, StepMoveOut(s, t, pos, at, stop, end, p), u)
  {
    var s' := StepMoveOut(s, t, pos, at, stop, end, p);
    assert pos / BLOCK_SIZE == at / BLOCK_SIZE;
    if !s.readers[u].Away? {
      forall i | At(s.readers[u]) <= i < End(s.readers[u])
        ensures Present(s', i)
      {
        assert Present(s, i);
        MoveOutPresent(s, t, pos, at, stop, end, p, i);
      }
    }
  }

  lemma MoveOutReaders<T>(s: State<T>, t: nat, pos: nat, at: nat, stop: nat, end: nat, p: nat)
    requires InRange(s) && EntriesOk(s) && ReadersOk(s) && AllApart(s)
    requires t < |s.readers| && s.readers[t] == Moving(pos, at, stop, end, p) && at < stop
    ensures var s' := StepMoveOut(s, t, pos, at, stop, end, p); InRange(s') && ReadersOk(s') && AllApart(s')
  {
    var s' := StepMoveOut(s, t, pos, at, stop, end, p);
    MoveOutOwn(s, t, pos, at, stop, end, p);
    forall u | 0 <= u < |s.readers| && u != t
      ensures ReaderKept(s, s', u)
    {
      MoveOutOther(s, t, pos, at, stop, end, p, u);
    }
    forall u, v | 0 <= u < |s'.readers| && 0 <= v < |s'.readers| ensures Apart(s', u, v) { assert Apart(s, u, v); }
    OthersOk(s, s', t);
  }

  /** The element a dequeuer moves out is the one enqueued at its index: no slot was recycled under it. */
  lemma MovesOutRight<T>(s: State<T>, t: nat)
    requires Core(s) && t < |s.readers| && s.readers[t].Moving? && s.readers[t].at < s.readers[t].stop
    ensures var r := s.readers[t];
      && r.block < |s.blocks| && r.at < |s.q.items|
      && s.blocks[r.block].where == InUse(r.at / BLOCK_SIZE)
      && s.blocks[r.block].slots[r.at % BLOCK_SIZE] == Some(s.q.items[r.at])
  {
    assert ReaderOk(s, t) && Pending(s, t) && Present(s, s.readers[t].at);
    assert EntryOk(s, s.readers[t].at / BLOCK_SIZE);
  }

  lemma MoveOutBlocks<T>(s: State<T>, t: nat, pos: nat, at: nat, stop: nat, end: nat, p: nat)
    requires InRange(s) && EntriesOk(s) && BlocksOk(s) && ProducerOk(s) && ReadersOk(s) && AllPresent(s)
    requires t < |s.readers| && s.readers[t] == Moving(pos, at, stop, end, p) && at < stop && s.q.head <= s.q.tail
    ensures var s' := StepMoveOut(s, t, pos, at, stop, end, p);
            EntriesOk(s') && BlocksOk(s') && ProducerOk(s') && AllPresent(s')
  {
    var s' := StepMoveOut(s, t, pos, at, stop, end, p);
    assert ReaderOk(s, t) && pos / BLOCK_SIZE == at / BLOCK_SIZE && EntryOk(s, at / BLOCK_SIZE);
    forall b | 0 <= b < |s'.entries| ensures EntryOk(s', b) { assert EntryOk(s, b); EntryKept(s, s', t, b); }
    forall k | 0 <= k < |s'.blocks| ensures BlockOk(s', k) { assert BlockOk(s, k); }
    forall i | s'.q.head <= i < s'.q.tail
      ensures Present(s', i)
    {
      assert Present(s, i);
      MoveOutPresent(s, t, pos, at, stop, end, p, i);
    }
    if s.producer.Publish? { assert EntryOk(s, s.q.tail / BLOCK_SIZE); }
  }

  lemma MoveOutInv<T>(s: State<T>, t: nat, pos: nat, at: nat, stop: nat, end: nat, p: nat)
    requires Core(s) && t < |s.readers| && s.readers[t] == Moving(pos, at, stop, end, p) && at < stop
    ensures Core(StepMoveOut(s, t, pos, at, stop, end, p))
  {
    Q.HeadAtMostTail(s.q);
    MoveOutReaders(s, t, pos, at, stop, end, p);
    MoveOutBlocks(s, t, pos, at, stop, end, p);
  }

  // Counting a finished segment moves its size from the uncounted to the dequeued elements of its block.
  lemma CountOutOwnEntry<T>(s: State<T>, t: nat, pos: nat, stop: nat, end: nat, p: nat)
    requires InRange(s) && t < |s.readers| && s.readers[t] == Moving(pos, stop, stop, end, p) && ReaderOk(s, t)
    requires EntryOk(s, pos / BLOCK_SIZE)
    ensures EntryOk(StepCountOut(s, t, pos, stop, end, p), pos / BLOCK_SIZE)
    ensures s.blocks[p].dequeued < BLOCK_SIZE && s.blocks[p].where == InUse(pos / BLOCK_SIZE)
  {
    var s' := StepCountOut(s, t, pos, stop, end, p);
    UncountedAfter(s, t, s'.readers[t], pos / BLOCK_SIZE);
    assert s'.blocks[p].dequeued == BLOCK_SIZE ==> Clears(s'.readers[t], pos / BLOCK_SIZE);
  }

  lemma CountOutEntry<T>(s: State<T>, t: nat, pos: nat, stop: nat, end: nat, p: nat, b: nat)
    requires InRange(s) && EntriesOk(s) && t < |s.readers| && s.readers[t] == Moving(pos, stop, stop, end, p)
    requires ReaderOk(s, t) && b < |s.entries|
    ensures EntryOk(StepCountOut(s, t, pos, stop, end, p), b)
  {
    assert EntryOk(s, pos / BLOCK_SIZE) && EntryOk(s, b);
    CountOutOwnEntry(s, t, pos, stop, end, p);
    if b != pos / BLOCK_SIZE {
      EntryKept(s, StepCountOut(s, t, pos, stop, end, p), t, b);
    }
  }

  lemma CountOutOwn<T>(s: State<T>, t: nat, pos: nat, stop: nat, end: nat, p: nat)
    requires InRange(s) && EntriesOk(s) && t < |s.readers| && s.readers[t] == Moving(pos, stop, stop, end, p)
    requires ReaderOk(s, t) && Pending(s, t)
    ensures var s' := StepCountOut(s, t, pos, stop, end, p); InRange(s') && ReaderOk(s', t) && Pending(s', t)
  {
    var s' := StepCountOut(s, t, pos, stop, end, p);
    assert stop < end ==> Present(s, stop);
    forall i | stop <= i < end ensures Present(s', i) { assert Present(s, i); KeptPresent(s, s', i); }
  }

  lemma CountOutOther<T>(s: State<T>, t: nat, pos: nat, stop: nat, end: nat, p: nat, u: nat)
    requires InRange(s) && EntriesOk(s) && t < |s.readers| && s.readers[t] == Moving(pos, stop, stop, end, p)
    requires ReaderOk(s, t) && InRange(StepCountOut(s, t, pos, stop, end, p))
    requires u < |s.readers| && u != t && ReaderOk(s, u) && Pending(s, u)
    ensures ReaderKept(s, StepCountOut(s, t, pos, stop, end, p), u)
    ensures s.readers[u].ClearEntry? ==> s.readers[u].number != pos / BLOCK_SIZE
  {
    var s' := StepCountOut(s, t, pos, stop, end, p);
    assert EntryOk(s, pos / BLOCK_SIZE);
    CountOutOwnEntry(s, t, pos, stop, end, p);
    if !s.readers[u].Away? {
      forall i | At(s.readers[u]) <= i < End(s.readers[u])
        ensures Present(s', i)
      {
        assert Present(s, i);
        KeptPresent(s, s', i);
      }
    }
  }

  lemma CountOutReaders<T>(s: State<T>, t: nat, pos: nat, stop: nat, end: nat, p: nat)
    requires InRange(s) && EntriesOk(s) && ReadersOk(s) && AllApart(s)
    requires t < |s.readers| && s.readers[t] == Moving(pos, stop, stop, end, p)
    ensures var s' := StepCountOut(s, t, pos, stop, end, p); InRange(s') && ReadersOk(s') && AllApart(s')
  {
    var s' := StepCountOut(s, t, pos, stop, end, p);
    assert ReaderOk(s, t);
    CountOutOwn(s, t, pos, stop, end, p);
    forall u | 0 <= u < |s.readers| && u != t
      ensures ReaderKept(s, s', u)
      ensures s.readers[u].ClearEntry? ==> s.readers[u].number != pos / BLOCK_SIZE
    {
      CountOutOther(s, t, pos, stop, end, p, u);
    }
    forall u, v | 0 <= u < |s'.readers| && 0 <= v < |s'.readers| ensures Apart(s', u, v) { assert Apart(s, u, v); }
    OthersOk(s, s', t);
  }

  lemma CountOutInv<T>(s: State<T>, t: nat, pos: nat, stop: nat, end: nat, p: nat)
    requires Core(s) && t < |s.readers| && s.readers[t] == Moving(pos, stop, stop, end, p)
    ensures Core(StepCountOut(s, t, pos, stop, end, p))
  {
    var s' := StepCountOut(s, t, pos, stop, end, p);
    assert ReaderOk(s, t) && EntryOk(s, pos / BLOCK_SIZE);
    CountOutReaders(s, t, pos, stop, end, p);
    forall b | 0 <= b < |s'.entries| ensures EntryOk(s', b) { CountOutEntry(s, t, pos, stop, end, p, b); }
    forall k | 0 <= k < |s'.blocks| ensures BlockOk(s', k) { assert BlockOk(s, k); }
    forall i | s'.q.head <= i < s'.q.tail ensures Present(s', i) { assert Present(s, i); KeptPresent(s, s', i); }
  }

  // A complete block: every index of it has been claimed and counted, so nobody else works on it.
  lemma CompleteBlock<T>(s: State<T>, t: nat, b: nat, p: nat, pos: nat, end: nat)
    requires InRange(s) && EntriesOk(s) && ReadersOk(s) && t < |s.readers| && s.readers[t] == ClearEntry(b, p, pos, end)
    ensures Overlap(0, s.q.head, b) == BLOCK_SIZE && Total(s.readers, Uncounted(b)) == 0
    ensures s.blocks[p].where == InUse(b)
    ensures forall u :: 0 <= u < |s.readers| ==> Uncounted(b)(s.readers[u]) == 0
  {
    assert ReaderOk(s, t) && EntryOk(s, b);
    TotalNonNegative(s.readers, Uncounted(b));
    forall u | 0 <= u < |s.readers| ensures Uncounted(b)(s.readers[u]) == 0 { TotalCovers(s.readers, u, Uncounted(b)); }
  }

  lemma ClearPresent<T>(s: State<T>, t: nat, b: nat, p: nat, pos: nat, end: nat, i: nat)
    requires InRange(s) && EntriesOk(s) && t < |s.readers| && s.readers[t] == ClearEntry(b, p, pos, end)
    requires Present(s, i) && i / BLOCK_SIZE != b
    ensures Present(StepClearEntry(s, t, b, p, pos, end), i)
  {
    assert EntryOk(s, i / BLOCK_SIZE);
    KeptPresent(s, StepClearEntry(s, t, b, p, pos, end), i);
  }

  lemma ClearOwn<T>(s: State<T>, t: nat, b: nat, p: nat, pos: nat, end: nat)
    requires InRange(s) && EntriesOk(s) && ReadersOk(s) && t < |s.readers| && s.readers[t] == ClearEntry(b, p, pos, end)
    ensures var s' := StepClearEntry(s, t, b, p, pos, end); InRange(s') && ReaderOk(s', t) && Pending(s', t)
  {
    var s' := StepClearEntry(s, t, b, p, pos, end);
    assert ReaderOk(s, t) && Pending(s, t);
    CompleteBlock(s, t, b, p, pos, end);
    forall i | pos <= i < end
      ensures Present(s', i)
    {
      assert Present(s, i);
      assert Uncounted(b)(s.readers[t]) == Overlap(pos, end, b);
      ClearPresent(s, t, b, p, pos, end, i);
    }
    forall u | 0 <= u < |s'.readers|
      ensures ReaderInRange(s', s'.readers[u])
    {
      assert ReaderOk(s, u) && Pending(s, u);
      if u != t && s.readers[u].Segment? && s.readers[u].pos < s.readers[u].end {
        assert Present(s, s.readers[u].pos);
        assert Uncounted(b)(s.readers[u]) == Overlap(s.readers[u].pos, s.readers[u].end, b);
      }
    }
  }

  lemma ClearOther<T>(s: State<T>, t: nat, b: nat, p: nat, pos: nat, end: nat, u: nat)
    requires InRange(s) && EntriesOk(s) && ReadersOk(s) && t < |s.readers| && s.readers[t] == ClearEntry(b, p, pos, end)
    requires InRange(StepClearEntry(s, t, b, p, pos, end)) && u < |s.readers| && u != t && Apart(s, t, u)
    ensures ReaderKept(s, StepClearEntry(s, t, b, p, pos, end), u)
  {
    var s' := StepClearEntry(s, t, b, p, pos, end);
    assert ReaderOk(s, t) && ReaderOk(s, u) && Pending(s, u);
    CompleteBlock(s, t, b, p, pos, end);
    var r := s.readers[u];
    if !r.Away? {
      assert Uncounted(b)(r) == Overlap(Pos(r), End(r), b);
      forall i | At(r) <= i < End(r)
        ensures Present(s', i)
      {
        assert Present(s, i);
        ClearPresent(s, t, b, p, pos, end, i);
      }
      if r.ClearEntry? { assert EntryOk(s, r.number) && EntryOk(s, b); }
    }
  }

  lemma ClearEntryInv<T>(s: State<T>, t: nat, b: nat, p: nat, pos: nat, end: nat)
    requires Core(s) && t < |s.readers| && s.readers[t] == ClearEntry(b, p, pos, end)
    ensures Core(StepClearEntry(s, t, b, p, pos, end))
  {
    var s' := StepClearEntry(s, t, b, p, pos, end);
    Q.HeadAtMostTail(s.q);
    CompleteBlock(s, t, b, p, pos, end);
    ClearOwn(s, t, b, p, pos, end);
    forall u | 0 <= u < |s.readers| && u != t
      ensures ReaderKept(s, s', u)
    {
      assert Apart(s, t, u);
      ClearOther(s, t, b, p, pos, end, u);
    }
    OthersOk(s, s', t);
    ClearBlocks(s, t, b, p, pos, end);
  }

  lemma ClearEntryOk<T>(s: State<T>, t: nat, b: nat, p: nat, pos: nat, end: nat, k: nat)
    requires InRange(s) && EntriesOk(s) && ReadersOk(s) && t < |s.readers| && s.readers[t] == ClearEntry(b, p, pos, end)
    requires k < |s.entries|
    ensures b < |s.entries| && p < |s.blocks| && EntryOk(StepClearEntry(s, t, b, p, pos, end), k)
  {
    var s' := StepClearEntry(s, t, b, p, pos, end);
    CompleteBlock(s, t, b, p, pos, end);
    assert ReaderOk(s, t) && EntryOk(s, k);
    if k == b { UncountedAfter(s, t, s'.readers[t], b); } else { EntryKept(s, s', t, k); }
  }

  lemma ClearBlocks<T>(s: State<T>, t: nat, b: nat, p: nat, pos: nat, end: nat)
    requires InRange(s) && EntriesOk(s) && BlocksOk(s) && ReadersOk(s) && AllApart(s) && AllPresent(s) && ProducerOk(s)
    requires s.q.head <= s.q.tail
    requires t < |s.readers| && s.readers[t] == ClearEntry(b, p, pos, end)
    ensures var s' := StepClearEntry(s, t, b, p, pos, end);
            EntriesOk(s') && BlocksOk(s') && AllApart(s') && AllPresent(s') && ProducerOk(s')
  {
    var s' := StepClearEntry(s, t, b, p, pos, end);
    CompleteBlock(s, t, b, p, pos, end);
    assert ReaderOk(s, t);
    forall k | 0 <= k < |s'.entries| ensures EntryOk(s', k) { ClearEntryOk(s, t, b, p, pos, end, k); }
    forall k | 0 <= k < |s'.blocks| ensures BlockOk(s', k) { assert BlockOk(s, k); }
    forall i | s'.q.head <= i < s'.q.tail
      ensures Present(s', i)
    {
      assert Present(s, i);
      ClearPresent(s, t, b, p, pos, end, i);
    }
    forall u, v | 0 <= u < |s'.readers| && 0 <= v < |s'.readers| ensures Apart(s', u, v) { assert Apart(s, u, v); }
  }

  lemma GiveUpPresent<T>(s: State<T>, t: nat, p: nat, pos: nat, end: nat, i: nat)
    requires InRange(s) && EntriesOk(s) && ReadersOk(s) && t < |s.readers| && s.readers[t] == GiveUp(p, pos, end)
    requires Present(s, i)
    ensures Present(StepGiveUp(s, t, p, pos, end), i)
  {
    assert ReaderOk(s, t) && EntryOk(s, i / BLOCK_SIZE);
    KeptPresent(s, StepGiveUp(s, t, p, pos, end), i);
  }

  lemma GiveUpOther<T>(s: State<T>, t: nat, p: nat, pos: nat, end: nat, u: nat)
    requires InRange(s) && EntriesOk(s) && ReadersOk(s) && t < |s.readers| && s.readers[t] == GiveUp(p, pos, end)
    requires InRange(StepGiveUp(s, t, p, pos, end)) && u < |s.readers| && u != t
    ensures ReaderKept(s, StepGiveUp(s, t, p, pos, end), u)
  {
    var s' := StepGiveUp(s, t, p, pos, end);
    assert ReaderOk(s, t) && ReaderOk(s, u) && Pending(s, u);
    if !s.readers[u].Away? {
      forall i | At(s.readers[u]) <= i < End(s.readers[u])
        ensures Present(s', i)
      {
        GiveUpPresent(s, t, p, pos, end, i);
      }
      if s.readers[u].ClearEntry? { assert EntryOk(s, s.readers[u].number); }
    }
  }

  lemma GiveUpReaders<T>(s: State<T>, t: nat, p: nat, pos: nat, end: nat)
    requires InRange(s) && EntriesOk(s) && ReadersOk(s) && t < |s.readers| && s.readers[t] == GiveUp(p, pos, end)
    ensures var s' := StepGiveUp(s, t, p, pos, end); InRange(s') && ReadersOk(s')
  {
    var s' := StepGiveUp(s, t, p, pos, end);
    assert ReaderOk(s, t) && Pending(s, t);
    assert pos < end ==> Present(s, pos);
    forall u | 0 <= u < |s.readers| && u != t ensures ReaderKept(s, s', u) { GiveUpOther(s, t, p, pos, end, u); }
    forall i | pos <= i < end ensures Present(s', i) { GiveUpPresent(s, t, p, pos, end, i); }
    OthersOk(s, s', t);
  }

  lemma GiveUpInv<T>(s: State<T>, t: nat, p: nat, pos: nat, end: nat)
    requires Core(s) && t < |s.readers| && s.readers[t] == GiveUp(p, pos, end)
    ensures Core(StepGiveUp(s, t, p, pos, end))
  {
    GiveUpReaders(s, t, p, pos, end);
    GiveUpBlocks(s, t, p, pos, end);
  }

  lemma GiveUpBlocks<T>(s: State<T>, t: nat, p: nat, pos: nat, end: nat)
    requires InRange(s) && EntriesOk(s) && BlocksOk(s) && ReadersOk(s) && AllApart(s) && AllPresent(s) && ProducerOk(s)
    requires t < |s.readers| && s.readers[t] == GiveUp(p, pos, end)
    ensures var s' := StepGiveUp(s, t, p, pos, end);
            EntriesOk(s') && BlocksOk(s') && AllApart(s') && AllPresent(s') && ProducerOk(s')
  {
    var s' := StepGiveUp(s, t, p, pos, end);
    assert ReaderOk(s, t);
    forall k | 0 <= k < |s'.entries| ensures EntryOk(s', k) { assert EntryOk(s, k); EntryKept(s, s', t, k); }
    forall k | 0 <= k < |s'.blocks| ensures BlockOk(s', k) { assert BlockOk(s, k); }
    forall i | s'.q.head <= i < s'.q.tail
      ensures Present(s', i)
    {
      assert Present(s, i) && EntryOk(s, i / BLOCK_SIZE);
      KeptPresent(s, s', i);
    }
    forall u, v | 0 <= u < |s'.readers| && 0 <= v < |s'.readers| ensures Apart(s', u, v) { assert Apart(s, u, v); }
  }

  lemma StepCore<T>(s: State<T>, m: Move<T>)
    requires Core(s) && Enabled(s, m)
    ensures Core(Step(s, m))
  {
    match m
    case Begin(_) => PrepareInv(s, m);
    case Produce(choice) =>
      match s.producer {
        case SetEntry(x, p) => SetEntryInv(s, x, p);
        case Write(x) => WriteInv(s, x);
        case Publish(x) => PublishInv(s, choice, x);
        case Requisition(_) => PrepareInv(s, m);
        case Reset(_, _) => PrepareInv(s, m);
        case Resting =>
      }
    case Count(c) =>
      if s.q.threads[c.t].Advance? { AdvanceInv(s, c.t, s.q.threads[c.t].count); } else { CountInv(s, c); }
    case Read(t) =>
      assert ReaderOk(s, t);
      match s.readers[t] {
        case Segment(pos, end) => if pos >= end { DepartInv(s, t); } else { EnterInv(s, t); }
        case Moving(pos, at, stop, end, p) =>
          if at < stop { MoveOutInv(s, t, pos, at, stop, end, p); } else { CountOutInv(s, t, pos, stop, end, p); }
        case ClearEntry(b, p, pos, end) => ClearEntryInv(s, t, b, p, pos, end);
        case GiveUp(p, pos, end) => GiveUpInv(s, t, p, pos, end);
        case Away =>
      }
  }

  // ----- claimed slots nobody waits for are empty

  // No slot is filled and no index still to be moved out is given up.
  lemma EmptiedKept<T>(s: State<T>, s': State<T>, i: nat)
    requires Emptied(s, i) && |s'.readers| == |s.readers|
    requires Held(s', i) == Held(s, i) || Held(s', i) == None
    requires forall t :: 0 <= t < |s.readers| && Waits(s.readers[t], i) ==> Waits(s'.readers[t], i)
    ensures Emptied(s', i)
  {
  }

  lemma ProduceEmptied<T>(s: State<T>, m: Move<T>)
    requires Core(s) && AllEmptied(s) && Enabled(s, m) && (m.Begin? || m.Produce?)
    ensures AllEmptied(Step(s, m))
  {
    var s' := Step(s, m);
    Q.HeadAtMostTail(s.q);
    forall i | 0 <= i < s'.q.head
      ensures Emptied(s', i)
    {
      assert Emptied(s, i);
      ProduceHeld(s, m, i);
      EmptiedKept(s, s', i);
    }
  }

  // The enqueuer leaves the slots of claimed indices alone.
  lemma ProduceHeld<T>(s: State<T>, m: Move<T>, i: nat)
    requires InRange(s) && ProducerOk(s) && EntriesOk(s) && Enabled(s, m) && (m.Begin? || m.Produce?)
    requires i < s.q.head <= s.q.tail
    ensures Held(Step(s, m), i) == Held(s, i)
  {
    assert i / BLOCK_SIZE < |s.entries|;
    assert EntryOk(s, i / BLOCK_SIZE);
    if s.producer.Write? { assert EntryOk(s, s.q.tail / BLOCK_SIZE); }
  }

  lemma CountEmptied<T>(s: State<T>, c: Q.Move<T>)
    requires Core(s) && AllEmptied(s) && Enabled(s, Count(c))
    ensures AllEmptied(StepCount(s, c))
  {
    var s' := StepCount(s, c);
    if s.q.threads[c.t].Advance? { AdvanceCounters(s.q, c.t, s.q.threads[c.t].count); }
    forall i | 0 <= i < s'.q.head
      ensures Emptied(s', i)
    {
      if i < s.q.head {
        assert Emptied(s, i);
        EmptiedKept(s, s', i);
      } else {
        assert Waits(s'.readers[c.t], i);
      }
    }
  }

  lemma MoveOutEmptied<T>(s: State<T>, t: nat, pos: nat, at: nat, stop: nat, end: nat, p: nat, i: nat)
    requires InRange(s) && EntriesOk(s) && t < |s.readers| && s.readers[t] == Moving(pos, at, stop, end, p) && at < stop
    requires ReaderOk(s, t) && Emptied(s, i)
    ensures Emptied(StepMoveOut(s, t, pos, at, stop, end, p), i)
  {
    var s' := StepMoveOut(s, t, pos, at, stop, end, p);
    assert pos / BLOCK_SIZE == at / BLOCK_SIZE;
    assert Held(s', i) == if i == at then None else Held(s, i) by {
      if i / BLOCK_SIZE < |s.entries| { assert EntryOk(s, i / BLOCK_SIZE) && EntryOk(s, at / BLOCK_SIZE); }
    }
    forall u | 0 <= u < |s.readers| && Waits(s.readers[u], i) && i != at
      ensures Waits(s'.readers[u], i)
    {
    }
  }

  // Every other access of a reader leaves its claim and the slots alone, or takes the block out of the index.
  lemma ReadEmptied<T>(s: State<T>, t: nat, i: nat)
    requires InRange(s) && EntriesOk(s) && Enabled(s, Read(t)) && ReaderOk(s, t) && Emptied(s, i)
    ensures Emptied(StepRead(s, t), i)
  {
    var s' := StepRead(s, t);
    match s.readers[t]
    case Moving(pos, at, stop, end, p) =>
      if at < stop { MoveOutEmptied(s, t, pos, at, stop, end, p, i); } else { EmptiedKept(s, s', i); }
    case _ => EmptiedKept(s, s', i);
  }

  lemma StepEmptied<T>(s: State<T>, m: Move<T>)
    requires Core(s) && AllEmptied(s) && Enabled(s, m)
    ensures AllEmptied(Step(s, m))
  {
    match m
    case Begin(_) => ProduceEmptied(s, m);
    case Produce(_) => ProduceEmptied(s, m);
    case Count(c) => CountEmptied(s, c);
    case Read(t) =>
      assert ReaderOk(s, t);
      var s' := StepRead(s, t);
      forall i | 0 <= i < s'.q.head ensures Emptied(s', i) { assert Emptied(s, i); ReadEmptied(s, t, i); }
  }

  /** Every access of the enqueuer and of every dequeuer keeps the invariant. */
  lemma StepInv<T>(s: State<T>, m: Move<T>)
    requires Inv(s) && Enabled(s, m)
    ensures Inv(Step(s, m))
  {
    StepCore(s, m);
    StepEmptied(s, m);
  }

  // ----- what holds over every run

  datatype Run<T> = Run(states: seq<State<T>>, moves: seq<Move<T>>)

  ghost predicate IsRun<T>(r: Run<T>) {
    && |r.states| == |r.moves| + 1
    && Init(r.states[0])
    && forall i :: 0 <= i < |r.moves| ==>
         InRange(r.states[i]) && Enabled(r.states[i], r.moves[i]) && r.states[i + 1] == Step(r.states[i], r.moves[i])
  }

  lemma {:induction false} RunInv<T>(r: Run<T>, i: nat)
    requires IsRun(r) && i < |r.states|
    ensures Inv(r.states[i])
  {
    if i == 0 {
      InitInv(r.states[0]);
    } else {
      RunInv(r, i - 1);
      StepInv(r.states[i - 1], r.moves[i - 1]);
    }
  }

  // Any number of free blocks and of dequeuers.
  function Start<T>(blocks: nat, dequeuers: nat): State<T> {
    State(Q.State(0, 0, 0, 0, seq(dequeuers, _ => Q.Idle), [], [], []),
          seq(blocks, _ => Block(seq(BLOCK_SIZE, _ => None), 0, Free)), [], 0,
          Resting, seq(dequeuers, _ => Away), seq(dequeuers, _ => []))
  }

  /** There is a run from any number of free blocks and of dequeuers, and every enabled step carries a run on: its
      states are always in range. */
  lemma RunGoesOn<T>(blocks: nat, dequeuers: nat, r: Run<T>, m: Move<T>)
    ensures IsRun<T>(Run([Start(blocks, dequeuers)], []))
    ensures IsRun(r) ==>
              var s := r.states[|r.moves|];
              InRange(s) && (Enabled(s, m) ==> IsRun(Run(r.states + [Step(s, m)], r.moves + [m])))
  {
    if IsRun(r) {
      RunInv(r, |r.moves|);
      Extends(r, m);
    }
  }

  lemma Extends<T>(r: Run<T>, m: Move<T>)
    requires IsRun(r) && InRange(r.states[|r.moves|])
    ensures var s := r.states[|r.moves|]; Enabled(s, m) ==> IsRun(Run(r.states + [Step(s, m)], r.moves + [m]))
  {
    var s := r.states[|r.moves|];
    if Enabled(s, m) {
      var longer := Run(r.states + [Step(s, m)], r.moves + [m]);
      forall i | 0 <= i < |longer.moves|
        ensures InRange(longer.states[i]) && Enabled(longer.states[i], longer.moves[i])
        ensures longer.states[i + 1] == Step(longer.states[i], longer.moves[i])
      {
        if i < |r.moves| {
          assert longer.states[i] == r.states[i] && longer.states[i + 1] == r.states[i + 1];
          assert longer.moves[i] == r.moves[i];
        }
      }
    }
  }

  // The step puts block p on the free list.
  ghost predicate Frees<T>(s: State<T>, m: Move<T>, p: nat) {
    m.Read? && m.t < |s.readers| && s.readers[m.t].GiveUp? && s.readers[m.t].block == p
  }

  /** A block is given back once per use: between two returns of the same block the enqueuer has requisitioned it. */
  lemma FreedOncePerUse<T>(r: Run<T>, i: nat, j: nat, p: nat) returns (k: nat)
    requires IsRun(r) && i < j < |r.moves| && Frees(r.states[i], r.moves[i], p) && Frees(r.states[j], r.moves[j], p)
    ensures i < k < j && r.moves[k] == Produce(p) && r.states[k].producer.Requisition?
  {
    RunInv(r, i);
    RunInv(r, j);
    assert ReaderOk(r.states[j], r.moves[j].t);
    k := i + 1;
    while k < j && !(r.moves[k] == Produce(p) && r.states[k].producer.Requisition?)
      invariant i < k <= j
      invariant p < |r.states[k].blocks| && r.states[k].blocks[p].where.Free?
    {
      RunInv(r, k);
      FreeStays(r.states[k], r.moves[k], p);
      k := k + 1;
    }
  }

  lemma FreeStays<T>(s: State<T>, m: Move<T>, p: nat)
    requires Inv(s) && Enabled(s, m) && p < |s.blocks| && s.blocks[p].where.Free?
    requires !(m == Produce(p) && s.producer.Requisition?)
    ensures var s' := Step(s, m); p < |s'.blocks| && s'.blocks[p].where.Free?
  {
    if m.Read? {
      assert ReaderOk(s, m.t);
      if s.readers[m.t].ClearEntry? { assert EntryOk(s, s.readers[m.t].number); }
    }
  }

  // A claimed block that no reader has indices in is empty.
  lemma AllSlotsEmpty<T>(s: State<T>, b: nat, p: nat)
    requires InRange(s) && ReadersOk(s) && AllEmptied(s) && b < |s.entries| && s.entries[b] == Some(p) && p < |s.blocks|
    requires (b + 1) * BLOCK_SIZE <= s.q.head
    requires forall u :: 0 <= u < |s.readers| && !s.readers[u].Away? ==>
              Overlap(Pos(s.readers[u]), End(s.readers[u]), b) == 0
    ensures s.blocks[p].slots == seq(BLOCK_SIZE, _ => None)
  {
    forall k | 0 <= k < BLOCK_SIZE
      ensures s.blocks[p].slots[k] == None
    {
      var i := b * BLOCK_SIZE + k;
      assert Emptied(s, i);
      forall u | 0 <= u < |s.readers|
        ensures !Waits(s.readers[u], i)
      {
        assert ReaderOk(s, u);
      }
    }
  }

  /** When a block is taken out of the index on its way to the free list, all of its BLOCK_SIZE elements have been
      moved out, no thread reads it any more and the enqueuer is past it. */
  lemma FreedWhenEmpty<T>(r: Run<T>, n: nat, t: nat)
    requires IsRun(r) && n < |r.states| && t < |r.states[n].readers| && r.states[n].readers[t].ClearEntry?
    ensures var s, b := r.states[n], r.states[n].readers[t].number;
      && (b + 1) * BLOCK_SIZE <= s.q.head <= s.q.tail
      && s.readers[t].block < |s.blocks| && s.blocks[s.readers[t].block].where == InUse(b)
      && s.blocks[s.readers[t].block].slots == seq(BLOCK_SIZE, _ => None)
      && (forall u :: 0 <= u < |s.readers| && !s.readers[u].Away? ==>
            Overlap(Pos(s.readers[u]), End(s.readers[u]), b) == 0)
  {
    var s := r.states[n];
    RunInv(r, n);
    Q.HeadAtMostTail(s.q);
    var c := s.readers[t];
    CompleteBlock(s, t, c.number, c.block, c.pos, c.end);
    forall u | 0 <= u < |s.readers| && !s.readers[u].Away?
      ensures Overlap(Pos(s.readers[u]), End(s.readers[u]), c.number) == 0
    {
      assert Uncounted(c.number)(s.readers[u]) == 0;
    }
    assert ReaderOk(s, t);
    AllSlotsEmpty(s, c.number, c.block);
  }

  /** Every element a dequeuer has claimed and not moved out yet is in its slot, and its block in the index. So a
      lookup is always for a block that is there. */
  lemma ClaimedIsThere<T>(r: Run<T>, n: nat, t: nat, i: nat)
    requires IsRun(r) && n < |r.states| && t < |r.states[n].readers| && !r.states[n].readers[t].Away?
    requires At(r.states[n].readers[t]) <= i < End(r.states[n].readers[t])
    ensures Present(r.states[n], i)
  {
    RunInv(r, n);
    assert Pending(r.states[n], t);
  }

  /** The elements a dequeuer has moved out are those enqueued at its indices so far, in order; when it leaves, they are
      the whole range it claimed. */
  lemma TakesWhatWasEnqueued<T>(r: Run<T>, n: nat, t: nat)
    requires IsRun(r) && n < |r.states| && t < |r.states[n].readers| && !r.states[n].readers[t].Away?
    ensures t < |r.states[n].q.threads| && t < |r.states[n].taken|
    ensures var s, owner := r.states[n], r.states[n].q.threads[t];
      && owner.Owner? && owner.first <= At(s.readers[t]) <= owner.first + owner.count <= |s.q.items|
      && s.taken[t] == s.q.items[owner.first..At(s.readers[t])]
      && (s.readers[t].Segment? && s.readers[t].pos >= s.readers[t].end ==>
            s.taken[t] == s.q.items[owner.first..owner.first + owner.count])
  {
    RunInv(r, n);
    assert ReaderOk(r.states[n], t);
  }

  /** Once every dequeuer has left, no block is leaked: the only blocks still in use hold elements not claimed yet or
      slots not written yet. */
  lemma NoBlockLeaks<T>(r: Run<T>, n: nat, p: nat)
    requires IsRun(r) && n < |r.states| && p < |r.states[n].blocks|
    requires forall t :: 0 <= t < |r.states[n].readers| ==> r.states[n].readers[t].Away?
    ensures var s := r.states[n];
      match s.blocks[p].where
      case InUse(b) => s.q.head < (b + 1) * BLOCK_SIZE && b < |s.entries| && s.entries[b] == Some(p)
      case Leaving(_) => false
      case _ => true
  {
    var s := r.states[n];
    RunInv(r, n);
    assert BlockOk(s, p);
    if s.blocks[p].where.InUse? {
      var b := s.blocks[p].where.number;
      assert EntryOk(s, b);
      TotalZero(s.readers, Uncounted(b));
    }
  }

  // How far a dequeuer is from having moved out and counted all it claimed: at most 40 accesses for every element,
  // however the elements lie in blocks.
  function ReadsLeft(r: Reader): int {
    match r
    case Away => 0
    case Segment(pos, end) => 40 * (if pos < end then end - pos else 0) + 34
    case Moving(pos, at, stop, end, _) => 40 * (end - pos) + (stop - at)
    case ClearEntry(_, _, pos, end) => 40 * (end - pos) + 36
    case GiveUp(_, pos, end) => 40 * (end - pos) + 35
  }

  function ProducesLeft<T>(p: Producer<T>): nat {
    match p
    case Resting => 0
    case Publish(_) => 1
    case Write(_) => 2
    case SetEntry(_, _) => 3
    case Reset(_, _) => 4
    case Requisition(_) => 5
  }

  lemma ReadNearer<T>(s: State<T>, t: nat)
    requires InRange(s) && Enabled(s, Read(t)) && ReaderOk(s, t)
    ensures var s' := StepRead(s, t); t < |s'.readers| && 0 <= ReadsLeft(s'.readers[t]) < ReadsLeft(s.readers[t])
    ensures StepRead(s, t).producer == s.producer
  {
  }

  lemma ProduceNearer<T>(s: State<T>, choice: nat)
    requires InRange(s) && Enabled(s, Produce(choice))
    ensures var s' := StepProduce(s, choice);
            ProducesLeft(s'.producer) < ProducesLeft(s.producer) && s'.readers == s.readers
  {
  }

  // A reader stays where it is in anybody else's access.
  lemma ReaderStays<T>(s: State<T>, m: Move<T>, t: nat)
    requires InRange(s) && Enabled(s, m) && t < |s.readers| && !s.readers[t].Away? && m != Read(t)
    ensures t < |Step(s, m).readers| && Step(s, m).readers[t] == s.readers[t]
    ensures !m.Begin? && !m.Produce? ==> Step(s, m).producer == s.producer
  {
  }

  lemma ReadsLeftNonNegative<T>(s: State<T>, t: nat)
    requires InRange(s) && t < |s.readers| && ReaderOk(s, t)
    ensures ReadsLeft(s.readers[t]) >= 0
  {
  }

  /** Calls end: every access of a dequeuer brings it nearer to the end of its claim, every access of the enqueuer
      brings the element nearer to being published, and nobody else's access holds either up. */
  lemma CallsEnd<T>(r: Run<T>, n: nat, t: nat)
    requires IsRun(r) && n < |r.moves| && t < |r.states[n].readers| && !r.states[n].readers[t].Away?
    ensures t < |r.states[n + 1].readers|
    ensures 0 <= ReadsLeft(r.states[n + 1].readers[t]) <= ReadsLeft(r.states[n].readers[t])
    ensures r.moves[n] == Read(t) ==> ReadsLeft(r.states[n + 1].readers[t]) < ReadsLeft(r.states[n].readers[t])
    ensures r.moves[n].Produce? ==> ProducesLeft(r.states[n + 1].producer) < ProducesLeft(r.states[n].producer)
    ensures !r.moves[n].Begin? ==> ProducesLeft(r.states[n + 1].producer) <= ProducesLeft(r.states[n].producer)
  {
    RunInv(r, n);
    assert ReaderOk(r.states[n], t);
    ReadsLeftNonNegative(r.states[n], t);
    if r.moves[n] == Read(t) {
      ReadNearer(r.states[n], t);
    } else {
      ReaderStays(r.states[n], r.moves[n], t);
    }
    if r.moves[n].Produce? {
      ProduceNearer(r.states[n], r.moves[n].choice);
    }
  }
}
