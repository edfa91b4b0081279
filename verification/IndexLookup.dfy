/** Lookups in the block index of an ImplicitProducer while the enqueuer inserts into it: the header, its tail and
    the tail's key are separate loads, the key, the tail and the value of a new entry are separate stores, and a
    lookup may go on with a header that has been replaced by one of twice the size.

    Block numbers stand for base indices and are unbounded; BlockIndices.UnsignedDistance relates the position
    arithmetic to wrapping words. A lookup is for consecutive blocks that its thread has claimed elements in; what
    the thread may rely on, that nobody takes such a block out of the index, is proved in BlockLifecycle and a guard
    here. Auxiliary: live, what each block's entry logically is, and the phase of a header, the number of the block
    its slot 0 was first used for. */
module IndexLookups {
  import opened Modular
  import opened Totals
  import B = BlockIndices

  // One BlockIndexEntry: the block number its key says, and the block.
  datatype Entry = Entry(key: Option<nat>, value: Option<nat>)

  // One BlockIndexHeader; slots name entries, which headers share.
  datatype Header = Header(tail: nat, slots: seq<nat>, phase: nat)

  // The enqueuer between two accesses of insert_block_index_entry and of what enqueue does with the entry.
  datatype Enqueuer =
    | Idle
    | Grow                                       // the slot after the tail is taken: publish a new header
    | StoreKey(entry: nat, newTail: nat)
    | StoreTail(entry: nat, newTail: nat)
    | SetValue(entry: nat)                       // a block was requisitioned, or the tail is rewound
    | ClearValue(entry: nat)                     // ... and the entry emptied

  // A dequeuer that looks up blocks block .. last.
  datatype Reader =
    | Away
    | LoadHeader(block: nat, last: nat)
    | LoadTail(block: nat, last: nat, header: nat)
    | LoadKey(block: nat, last: nat, header: nat, tail: nat)
    | Found(block: nat, last: nat, header: nat, slot: nat)

  datatype State = State(
    entries: seq<Entry>, headers: seq<Header>, enqueuer: Enqueuer, readers: seq<Reader>, live: seq<Option<nat>>)

  // Produce: the block got, if any; as a new header is made, whatever the memory of its new entries held.
  datatype Move =
    | Insert
    | GiveUp                                     // no memory for a new header, or none may be allocated
    | Produce(got: Option<nat>)
    | Begin(t: nat, block: nat, last: nat)
    | Read(t: nat)
    | Leave(t: nat)
    | Clear(t: nat)

  function Capacity(h: Header): nat {
    |h.slots|
  }

  function Current(s: State): Header
    requires s.headers != []
  {
    s.headers[|s.headers| - 1]
  }

  predicate Live(live: seq<Option<nat>>, b: nat) {
    b < |live| && live[b].Some?
  }

  // The reader still has to do with block b.
  predicate Uses(r: Reader, b: nat) {
    !r.Away? && r.block <= b <= r.last
  }

  predicate Enabled(s: State, m: Move) {
    match m
    case Insert => s.enqueuer.Idle?
    case GiveUp => s.enqueuer.Grow?
    case Produce(_) => !s.enqueuer.Idle?
    case Begin(t, b, last) =>
      t < |s.readers| && s.readers[t].Away? && b <= last && forall k :: b <= k <= last ==> Live(s.live, k)
    case Read(t) =>
      && t < |s.readers| && !s.readers[t].Away?
      && (s.readers[t].Found? ==> s.readers[t].block < s.readers[t].last)
    case Leave(t) => t < |s.readers| && s.readers[t].Found?
    case Clear(t) =>
      && t < |s.readers| && s.readers[t].Found? && s.readers[t].block < |s.live|
      && forall u :: 0 <= u < |s.readers| && u != t ==> !Uses(s.readers[u], s.readers[t].block)
  }

  // ----- the steps

  predicate HeaderInRange(count: nat, h: Header) {
    h.tail < Capacity(h) && forall x :: 0 <= x < Capacity(h) ==> h.slots[x] < count
  }

  predicate HeadersInRange(count: nat, headers: seq<Header>) {
    headers != [] && forall h :: 0 <= h < |headers| ==> HeaderInRange(count, headers[h])
  }

  predicate ReaderInRange(headers: seq<Header>, r: Reader) {
    match r
    case Away | LoadHeader(_, _) => true
    case LoadTail(_, _, h) => h < |headers|
    case LoadKey(_, _, h, tail) => h < |headers| && tail < Capacity(headers[h])
    case Found(_, _, h, slot) => h < |headers| && slot < Capacity(headers[h])
  }

  predicate ReadersInRange(headers: seq<Header>, readers: seq<Reader>) {
    forall t :: 0 <= t < |readers| ==> ReaderInRange(headers, readers[t])
  }

  predicate EnqueuerInRange(count: nat, h: Header, enqueuer: Enqueuer) {
    match enqueuer
    case StoreKey(e, x) => e < count && x < Capacity(h)
    case StoreTail(e, x) => e < count && x < Capacity(h)
    case SetValue(e) => e < count
    case ClearValue(e) => e < count
    case _ => true
  }

  predicate InRange(s: State) {
    && HeadersInRange(|s.entries|, s.headers) && ReadersInRange(s.headers, s.readers)
    && EnqueuerInRange(|s.entries|, Current(s), s.enqueuer)
  }

  function NewTail(h: Header): nat
    requires h.tail < Capacity(h)
  {
    B.Forward(h.tail, Capacity(h))
  }

  // (tail - 1) & (capacity - 1)
  function OldTail(h: Header): nat
    requires h.tail < Capacity(h)
  {
    if h.tail == 0 then Capacity(h) - 1 else h.tail - 1
  }

  function SetEntry(s: State, e: nat, entry: Entry): State
    requires e < |s.entries|
  {
    s.(entries := s.entries[e := entry])
  }

  function MovedTail(headers: seq<Header>, tail: nat): seq<Header>
    requires headers != []
  {
    headers[|headers| - 1 := headers[|headers| - 1].(tail := tail)]
  }

  function SetTail(s: State, tail: nat): State
    requires s.headers != []
  {
    s.(headers := MovedTail(s.headers, tail))
  }

  function SetReader(s: State, t: nat, r: Reader): State
    requires t < |s.readers|
  {
    s.(readers := s.readers[t := r])
  }

  function Step(s: State, m: Move): State
    requires InRange(s) && Enabled(s, m)
  {
    match m
    case Insert => StepInsert(s)
    case GiveUp => s.(enqueuer := Idle)
    case Produce(p) => StepProduce(s, p)
    case Begin(t, b, last) => SetReader(s, t, LoadHeader(b, last))
    case Read(t) => SetReader(s, t, StepReader(s, s.readers[t]))
    case Leave(t) => SetReader(s, t, Away)
    case Clear(t) => StepClear(s, t)
  }

  // insert_block_index_entry: may the slot after the tail be used?
  function StepInsert(s: State): State
    requires InRange(s)
  {
    var h := Current(s);
    var e := h.slots[NewTail(h)];
    s.(enqueuer := if s.entries[e].key.None? || s.entries[e].value.None? then StoreKey(e, NewTail(h)) else Grow)
  }

  function StepProduce(s: State, p: Option<nat>): State
    requires InRange(s)
  {
    match s.enqueuer
    case Idle => s
    case Grow => StepGrow(s, p)
    case StoreKey(e, x) => SetEntry(s, e, s.entries[e].(key := Some(|s.live|))).(enqueuer := StoreTail(e, x))
    case StoreTail(e, x) => SetTail(s, x).(enqueuer := SetValue(e))
    case SetValue(e) =>
      if p.None? then SetTail(s, OldTail(Current(s))).(enqueuer := ClearValue(e))
      else SetEntry(s, e, s.entries[e].(value := p)).(live := s.live + [p], enqueuer := Idle)
    case ClearValue(e) => SetEntry(s, e, s.entries[e].(value := None)).(enqueuer := Idle)
  }

  // The old entries in order of age, from the one after the tail around to the tail.
  function Rotated(h: Header): (slots: seq<nat>)
    requires h.tail < Capacity(h)
    ensures |slots| == Capacity(h)
  {
    seq(Capacity(h), i requires 0 <= i < Capacity(h) => h.slots[(h.tail + 1 + i) % Capacity(h)])
  }

  // new_block_index: the old entries and as many new ones, count in number so far.
  function NewHeader(h: Header, count: nat, n: nat): Header
    requires h.tail < Capacity(h)
  {
    var phase := if Capacity(h) <= n then n - Capacity(h) else 0;
    Header(Capacity(h) - 1, Rotated(h) + seq(Capacity(h), i => count + i), phase)
  }

  function NewEntries(h: Header, junk: Option<nat>): seq<Entry> {
    seq(Capacity(h), _ => Entry(None, junk))
  }

  // ... up to the store of the new header.
  function StepGrow(s: State, junk: Option<nat>): State
    requires InRange(s)
  {
    var h := Current(s);
    s.(entries := s.entries + NewEntries(h, junk), headers := s.headers + [NewHeader(h, |s.entries|, |s.live|)],
       enqueuer := StoreKey(|s.entries|, Capacity(h)))
  }

  // get_block_index_index_for_index, and indexIndex + 1 for the next block of a bulk dequeue.
  function StepReader(s: State, r: Reader): Reader
    requires InRange(s) && ReaderInRange(s.headers, r)
  {
    match r
    case Away => r
    case LoadHeader(b, last) => LoadTail(b, last, |s.headers| - 1)
    case LoadTail(b, last, h) => LoadKey(b, last, h, s.headers[h].tail)
    case LoadKey(b, last, h, tail) =>
      var key := s.entries[s.headers[h].slots[tail]].key;
      if key.None? then r else Found(b, last, h, (tail + (b - key.value)) % Capacity(s.headers[h]))
    case Found(b, last, h, slot) =>
      if b < last then Found(b + 1, last, h, B.Forward(slot, Capacity(s.headers[h]))) else r
  }

  // The block of the entry found is complete: its value becomes nullptr.
  function StepClear(s: State, t: nat): State
    requires InRange(s) && Enabled(s, Clear(t))
  {
    var r := s.readers[t];
    var e := s.headers[r.header].slots[r.slot];
    SetReader(SetEntry(s, e, s.entries[e].(value := None)), t, if r.block < r.last then StepReader(s, r) else Away)
    .(live := s.live[r.block := None])
  }

  // ----- remainders

  lemma SameRemainder(a: int, b: int, q: int, c: nat)
    requires c > 0 && a == b + c * q
    ensures a % c == b % c
  {
    assert c * (b / c + q) == c * (b / c) + c * q;
    DivisionUnique(c, a / c, a % c, b / c + q, b % c);
  }

  lemma Quotient(a: int, b: int, c: nat) returns (q: int)
    requires c > 0 && a % c == b % c
    ensures a == b + c * q
  {
    q := a / c - b / c;
    assert c * q == c * (a / c) - c * (b / c);
  }

  lemma AddToRemainder(a: int, d: int, c: nat)
    requires c > 0
    ensures (a % c + d) % c == (a + d) % c
  {
    assert a + d == (a % c + d) + c * (a / c);
    SameRemainder(a + d, a % c + d, a / c, c);
  }

  // Two numbers less than c apart, or exactly c, that have the same remainder.
  lemma NearRemainder(a: int, b: int, c: nat)
    requires c > 0 && a % c == b % c && a <= b <= a + c
    ensures a == b || b == a + c
  {
    var q := Quotient(b, a, c);
    if q > 1 {
      AtLeastOnce(c, q - 1);
      assert c * q == c * (q - 1) + c;
    } else if q < 0 {
      AtLeastOnce(c, -q);
      assert c * (-q) == -(c * q);
    }
  }

  lemma SmallIsRemainder(a: nat, c: nat)
    requires a < c
    ensures a % c == a
  {
  }

  // ----- the invariant

  // The slot of block k in a header: keys and slots keep in step, by the header's phase.
  function Slot(h: Header, k: int): (x: nat)
    requires Capacity(h) > 0
    ensures x < Capacity(h)
  {
    (k - h.phase) % Capacity(h)
  }

  function KeyAt(entries: seq<Entry>, h: Header, x: nat): Option<nat> {
    if x < Capacity(h) && h.slots[x] < |entries| then entries[h.slots[x]].key else None
  }

  // The header leads to the entry of block b, as it logically is.
  predicate Holds(entries: seq<Entry>, live: seq<Option<nat>>, h: Header, b: nat) {
    && b < |live| && Capacity(h) > 0 && h.slots[Slot(h, b)] < |entries|
    && entries[h.slots[Slot(h, b)]] == Entry(Some(b), live[b])
  }

  predicate Distinct(h: Header) {
    forall x, y :: 0 <= x < y < Capacity(h) ==> h.slots[x] != h.slots[y]
  }

  // Every new header is twice the size of the one before.
  ghost predicate Doubling(headers: seq<Header>) {
    && (forall h :: 0 <= h < |headers| ==> Capacity(headers[h]) == B.IMPLICIT_INITIAL_INDEX_SIZE * Pow2(h))
    && (forall h :: 0 <= h < |headers| ==> Distinct(headers[h]))
  }

  // Every key is in step with its slot.
  predicate InStep(entries: seq<Entry>, h: Header) {
    && Capacity(h) > 0
    && forall x :: 0 <= x < Capacity(h) && KeyAt(entries, h, x).Some? ==> Slot(h, KeyAt(entries, h, x).value) == x
  }

  predicate AllInStep(entries: seq<Entry>, headers: seq<Header>) {
    forall h :: 0 <= h < |headers| ==> InStep(entries, headers[h])
  }

  // Every slot has been used.
  predicate Filled(entries: seq<Entry>, h: Header) {
    forall x :: 0 <= x < Capacity(h) ==> KeyAt(entries, h, x).Some?
  }

  predicate OlderFilled(entries: seq<Entry>, headers: seq<Header>) {
    forall h :: 0 <= h < |headers| - 1 ==> Filled(entries, headers[h])
  }

  // With n blocks inserted, the current header's keys are no older than its capacity allows ...
  predicate Recent(entries: seq<Entry>, n: nat, h: Header) {
    && h.phase <= n && (n > 0 ==> h.phase < n)
    && forall x :: 0 <= x < Capacity(h) && KeyAt(entries, h, x).Some? ==>
         h.phase <= KeyAt(entries, h, x).value <= n <= KeyAt(entries, h, x).value + Capacity(h)
  }

  // ... and all of the newest are there.
  predicate Newest(entries: seq<Entry>, n: nat, h: Header)
    requires Capacity(h) > 0
  {
    forall k :: h.phase <= k < n < k + Capacity(h) ==> KeyAt(entries, h, Slot(h, k)) == Some(k)
  }

  // The enqueuer works on the slot of the next block.
  predicate EnqueuerOk(entries: seq<Entry>, n: nat, h: Header, enqueuer: Enqueuer)
    requires Capacity(h) > 0
  {
    var next := Slot(h, n);
    && h.slots[next] < |entries|
    && h.tail == Slot(h, if enqueuer.SetValue? then n else n - 1)
    && match enqueuer
       case Idle => KeyAt(entries, h, next) == Some(n) ==> entries[h.slots[next]].value.None?
       case Grow => n >= Capacity(h) && KeyAt(entries, h, next) == Some(n - Capacity(h))
       case StoreKey(e, x) => x == next && e == h.slots[next] && (entries[e].key.None? || entries[e].value.None?)
       case StoreTail(e, x) => x == next && e == h.slots[next] && KeyAt(entries, h, next) == Some(n)
       case SetValue(e) => e == h.slots[next] && KeyAt(entries, h, next) == Some(n)
       case ClearValue(e) => e == h.slots[next] && KeyAt(entries, h, next) == Some(n)
  }

  predicate AllHeld(entries: seq<Entry>, live: seq<Option<nat>>, h: Header) {
    forall b :: 0 <= b < |live| && live[b].Some? ==> Holds(entries, live, h, b)
  }

  // What a reader looks for is there to be found.
  predicate ReaderOk(entries: seq<Entry>, headers: seq<Header>, live: seq<Option<nat>>, r: Reader)
    requires ReaderInRange(headers, r)
  {
    !r.Away? ==>
      && r.block <= r.last
      && (forall b :: r.block <= b <= r.last ==> Live(live, b))
      && (!r.LoadHeader? ==> forall b :: r.block <= b <= r.last ==> Holds(entries, live, headers[r.header], b))
      && (r.LoadKey? ==> KeyAt(entries, headers[r.header], r.tail).Some?)
      && (r.Found? ==> Capacity(headers[r.header]) > 0 && r.slot == Slot(headers[r.header], r.block))
  }

  predicate ReadersOk(entries: seq<Entry>, headers: seq<Header>, live: seq<Option<nat>>, readers: seq<Reader>)
    requires ReadersInRange(headers, readers)
  {
    forall t :: 0 <= t < |readers| ==> ReaderOk(entries, headers, live, readers[t])
  }

  ghost predicate Inv(s: State) {
    && InRange(s) && Doubling(s.headers) && AllInStep(s.entries, s.headers) && OlderFilled(s.entries, s.headers)
    && Recent(s.entries, |s.live|, Current(s)) && Newest(s.entries, |s.live|, Current(s))
    && EnqueuerOk(s.entries, |s.live|, Current(s), s.enqueuer)
    && AllHeld(s.entries, s.live, Current(s)) && ReadersOk(s.entries, s.headers, s.live, s.readers)
  }

  // The constructor: one header of the initial size, nothing inserted.
  predicate Init(s: State) {
    && |s.headers| == 1 && s.live == [] && s.enqueuer.Idle?
    && (forall e :: 0 <= e < |s.entries| ==> s.entries[e].key.None?)
    && (forall t :: 0 <= t < |s.readers| ==> s.readers[t].Away?)
    && var h := s.headers[0];
       && Capacity(h) == B.IMPLICIT_INITIAL_INDEX_SIZE && h.tail == Capacity(h) - 1 && h.phase == 0
       && HeaderInRange(|s.entries|, h) && Distinct(h)
  }

  lemma InitInv(s: State)
    requires Init(s)
    ensures Inv(s)
  {
  }

  // ----- slots

  lemma SlotNext(h: Header, k: int)
    requires Capacity(h) > 1
    ensures Slot(h, k + 1) == B.Forward(Slot(h, k), Capacity(h))
  {
    var c, x := Capacity(h), Slot(h, k);
    AddToRemainder(k - h.phase, 1, c);
    if x + 1 == c {
      SameRemainder(x + 1, 0, 1, c);
    } else {
      SmallIsRemainder(x + 1, c);
    }
  }

  lemma SlotBefore(h: Header, k: int)
    requires Capacity(h) > 1 && h.tail == Slot(h, k)
    ensures Slot(h, k - 1) == OldTail(h)
  {
    SlotNext(h, k - 1);
  }

  // Keys a capacity or less apart that belong to the same slot.
  lemma SlotShared(h: Header, k: int, n: int)
    requires Capacity(h) > 0 && Slot(h, k) == Slot(h, n) && k <= n <= k + Capacity(h)
    ensures k == n || n == k + Capacity(h)
  {
    NearRemainder(k - h.phase, n - h.phase, Capacity(h));
  }

  lemma SlotAgain(h: Header, k: int)
    requires Capacity(h) > 0
    ensures Slot(h, k + Capacity(h)) == Slot(h, k)
  {
    SameRemainder(k + Capacity(h) - h.phase, k - h.phase, 1, Capacity(h));
  }

  lemma AtLeastTwo(headers: seq<Header>, h: nat)
    requires h < |headers| && Doubling(headers)
    ensures Capacity(headers[h]) >= B.IMPLICIT_INITIAL_INDEX_SIZE
  {
    AtLeastOnce(B.IMPLICIT_INITIAL_INDEX_SIZE, Pow2(h));
  }

  lemma CapacityDivides(headers: seq<Header>, h: nat) returns (m: nat)
    requires h < |headers| && Doubling(headers)
    ensures Capacity(headers[|headers| - 1]) == Capacity(headers[h]) * m
  {
    m := Pow2(|headers| - 1 - h);
    Pow2Add(h, |headers| - 1 - h);
    assert B.IMPLICIT_INITIAL_INDEX_SIZE * (Pow2(h) * m) == B.IMPLICIT_INITIAL_INDEX_SIZE * Pow2(h) * m;
  }

  // Keys in step with one slot of the current header are in step with one slot of every older one.
  lemma SlotInOlder(headers: seq<Header>, h: nat, k: int, n: int)
    requires h < |headers| && Doubling(headers)
    requires var g := headers[|headers| - 1]; Capacity(g) > 0 && Slot(g, k) == Slot(g, n)
    ensures Capacity(headers[h]) > 0 && Slot(headers[h], k) == Slot(headers[h], n)
  {
    var g, older := headers[|headers| - 1], headers[h];
    AtLeastTwo(headers, h);
    var m := CapacityDivides(headers, h);
    var q := Quotient(k - g.phase, n - g.phase, Capacity(g));
    OlderSlot(older, k, n, m, q);
  }

  lemma OlderSlot(h: Header, k: int, n: int, m: nat, q: int)
    requires Capacity(h) > 0 && k - n == Capacity(h) * m * q
    ensures Slot(h, k) == Slot(h, n)
  {
    assert Capacity(h) * m * q == Capacity(h) * (m * q);
    SameRemainder(k - h.phase, n - h.phase, m * q, Capacity(h));
  }

  // ----- the dequeuers' steps

  // Once a block has been inserted, the current tail's entry has a key.
  lemma TailKeyed(entries: seq<Entry>, n: nat, h: Header, enqueuer: Enqueuer)
    requires Capacity(h) > 1 && n > 0 && h.phase < n && Newest(entries, n, h) && EnqueuerOk(entries, n, h, enqueuer)
    ensures KeyAt(entries, h, h.tail).Some?
  {
  }

  lemma LoadHeaderOk(s: State, b: nat, last: nat)
    requires InRange(s) && AllHeld(s.entries, s.live, Current(s))
    requires ReaderOk(s.entries, s.headers, s.live, LoadHeader(b, last))
    ensures ReaderOk(s.entries, s.headers, s.live, LoadTail(b, last, |s.headers| - 1))
  {
    forall k | b <= k <= last ensures Holds(s.entries, s.live, Current(s), k) { assert Live(s.live, k); }
  }

  lemma LoadTailOk(s: State, b: nat, last: nat, h: nat)
    requires Inv(s) && h < |s.headers| && ReaderOk(s.entries, s.headers, s.live, LoadTail(b, last, h))
    ensures s.headers[h].tail < Capacity(s.headers[h])
    ensures ReaderOk(s.entries, s.headers, s.live, LoadKey(b, last, h, s.headers[h].tail))
  {
    assert Live(s.live, b);
    AtLeastTwo(s.headers, |s.headers| - 1);
    TailKeyed(s.entries, |s.live|, Current(s), s.enqueuer);
    assert h < |s.headers| - 1 ==> Filled(s.entries, s.headers[h]);
  }

  // The position arithmetic: from the tail, as far as its key is from the block sought.
  lemma LookupSlot(h: Header, tail: nat, key: nat, b: nat)
    requires Capacity(h) > 0 && tail == Slot(h, key)
    ensures (tail + (b - key)) % Capacity(h) == Slot(h, b)
  {
    AddToRemainder(key - h.phase, b - key, Capacity(h));
  }

  lemma LoadKeyOk(s: State, b: nat, last: nat, h: nat, tail: nat)
    requires h < |s.headers| && InStep(s.entries, s.headers[h]) && tail < Capacity(s.headers[h])
    requires ReaderOk(s.entries, s.headers, s.live, LoadKey(b, last, h, tail))
    ensures ReaderOk(s.entries, s.headers, s.live, Found(b, last, h, Slot(s.headers[h], b)))
    ensures var key := KeyAt(s.entries, s.headers[h], tail);
            key.Some? && (tail + (b - key.value)) % Capacity(s.headers[h]) == Slot(s.headers[h], b)
  {
    LookupSlot(s.headers[h], tail, KeyAt(s.entries, s.headers[h], tail).value, b);
  }

  lemma FoundOk(s: State, b: nat, last: nat, h: nat, slot: nat)
    requires h < |s.headers| && slot < Capacity(s.headers[h]) && Capacity(s.headers[h]) > 1 && b < last
    requires ReaderOk(s.entries, s.headers, s.live, Found(b, last, h, slot))
    ensures ReaderOk(s.entries, s.headers, s.live, Found(b + 1, last, h, B.Forward(slot, Capacity(s.headers[h]))))
  {
    SlotNext(s.headers[h], b);
  }

  lemma StepReaderOk(s: State, r: Reader, r': Reader)
    requires Inv(s) && ReaderInRange(s.headers, r) && ReaderOk(s.entries, s.headers, s.live, r)
    requires (r.Found? ==> r.block < r.last) && r' == StepReader(s, r)
    ensures ReaderInRange(s.headers, r') && ReaderOk(s.entries, s.headers, s.live, r')
  {
    match r
    case Away =>
    case LoadHeader(b, last) => LoadHeaderOk(s, b, last);
    case LoadTail(b, last, h) => LoadTailOk(s, b, last, h);
    case LoadKey(b, last, h, tail) => LoadKeyOk(s, b, last, h, tail);
    case Found(b, last, h, slot) =>
      AtLeastTwo(s.headers, h);
      FoundOk(s, b, last, h, slot);
  }

  // One reader changes and nothing else does.
  lemma ReadersChange(s: State, t: nat, r: Reader)
    requires Inv(s) && t < |s.readers| && ReaderInRange(s.headers, r) && ReaderOk(s.entries, s.headers, s.live, r)
    ensures Inv(SetReader(s, t, r))
  {
  }

  lemma ReadInv(s: State, t: nat)
    requires Inv(s) && Enabled(s, Read(t))
    ensures Inv(Step(s, Read(t)))
  {
    StepReaderOk(s, s.readers[t], StepReader(s, s.readers[t]));
    ReadersChange(s, t, StepReader(s, s.readers[t]));
  }

  lemma BeginInv(s: State, t: nat, b: nat, last: nat)
    requires Inv(s) && Enabled(s, Begin(t, b, last))
    ensures Inv(Step(s, Begin(t, b, last)))
  {
    ReadersChange(s, t, LoadHeader(b, last));
  }

  // ----- entries that change

  // No block but perhaps new ones comes in, some may go.
  predicate Shrinks(live: seq<Option<nat>>, live': seq<Option<nat>>) {
    |live| <= |live'| && forall b :: 0 <= b < |live| ==> live'[b] == live[b] || live'[b] == None
  }

  // The entry is that of no block still in the index.
  predicate Unused(entry: Entry, live: seq<Option<nat>>) {
    entry.key.None? || entry.value.None? || !Live(live, entry.key.value)
  }

  lemma HeldStays(entries: seq<Entry>, live: seq<Option<nat>>, h: Header, b: nat,
                  e: nat, entry: Entry, live': seq<Option<nat>>)
    requires Holds(entries, live, h, b) && Live(live, b) && Shrinks(live, live') && Live(live', b)
    requires e < |entries| && Unused(entries[e], live')
    ensures Holds(entries[e := entry], live', h, b)
  {
  }

  lemma AllHeldStay(entries: seq<Entry>, live: seq<Option<nat>>, h: Header,
                    e: nat, entry: Entry, live': seq<Option<nat>>)
    requires AllHeld(entries, live, h) && Shrinks(live, live') && e < |entries| && Unused(entries[e], live')
    ensures forall b :: 0 <= b < |live| && live'[b].Some? ==> Holds(entries[e := entry], live', h, b)
  {
    forall b | 0 <= b < |live| && live'[b].Some?
      ensures Holds(entries[e := entry], live', h, b)
    {
      HeldStays(entries, live, h, b, e, entry, live');
    }
  }

  lemma ReaderStays(entries: seq<Entry>, headers: seq<Header>, live: seq<Option<nat>>, r: Reader,
                    e: nat, entry: Entry, live': seq<Option<nat>>)
    requires ReaderInRange(headers, r) && ReaderOk(entries, headers, live, r) && e < |entries|
    requires Shrinks(live, live') && Unused(entries[e], live') && (entries[e].key.Some? ==> entry.key.Some?)
    requires !r.Away? ==> forall b :: r.block <= b <= r.last ==> Live(live', b)
    ensures ReaderOk(entries[e := entry], headers, live', r)
  {
    var entries' := entries[e := entry];
    if !r.Away? && !r.LoadHeader? {
      forall b | r.block <= b <= r.last
        ensures Holds(entries', live', headers[r.header], b)
      {
        assert Live(live, b) && Live(live', b);
        HeldStays(entries, live, headers[r.header], b, e, entry, live');
      }
    }
  }

  lemma ReadersStay(entries: seq<Entry>, headers: seq<Header>, live: seq<Option<nat>>, readers: seq<Reader>,
                    e: nat, entry: Entry)
    requires ReadersInRange(headers, readers) && ReadersOk(entries, headers, live, readers) && e < |entries|
    requires Unused(entries[e], live) && (entries[e].key.Some? ==> entry.key.Some?)
    ensures ReadersOk(entries[e := entry], headers, live, readers)
  {
    forall t | 0 <= t < |readers|
      ensures ReaderOk(entries[e := entry], headers, live, readers[t])
    {
      ReaderStays(entries, headers, live, readers[t], e, entry, live);
    }
  }

  // A new block in the index.
  lemma MoreLive(entries: seq<Entry>, headers: seq<Header>, live: seq<Option<nat>>, readers: seq<Reader>,
                 p: Option<nat>)
    requires ReadersInRange(headers, readers) && ReadersOk(entries, headers, live, readers)
    ensures ReadersOk(entries, headers, live + [p], readers)
  {
    forall t | 0 <= t < |readers|
      ensures ReaderOk(entries, headers, live + [p], readers[t])
    {
      var r := readers[t];
      assert ReaderOk(entries, headers, live, r);
      if !r.Away? {
        forall b | r.block <= b <= r.last
          ensures Live(live + [p], b) && (!r.LoadHeader? ==> Holds(entries, live + [p], headers[r.header], b))
        {
          assert Live(live, b) && (!r.LoadHeader? ==> Holds(entries, live, headers[r.header], b));
        }
      }
    }
  }

  lemma KeysStay(entries: seq<Entry>, h: Header, e: nat, entry: Entry, x: nat)
    requires e < |entries| && entry.key == entries[e].key
    ensures KeyAt(entries[e := entry], h, x) == KeyAt(entries, h, x)
  {
  }

  // A value changes, the keys stay.
  lemma ValueChanges(entries: seq<Entry>, headers: seq<Header>, n: nat, e: nat, value: Option<nat>)
    requires headers != [] && AllInStep(entries, headers) && OlderFilled(entries, headers) && e < |entries|
    requires var h := headers[|headers| - 1]; Capacity(h) > 0 && Recent(entries, n, h) && Newest(entries, n, h)
    ensures var entries', h := entries[e := entries[e].(value := value)], headers[|headers| - 1];
      AllInStep(entries', headers) && OlderFilled(entries', headers) && Recent(entries', n, h) && Newest(entries', n, h)
  {
    var entries' := entries[e := entries[e].(value := value)];
    forall h: Header, x: nat
      ensures KeyAt(entries', h, x) == KeyAt(entries, h, x)
    {
      KeysStay(entries, h, e, entries'[e], x);
    }
    forall h | 0 <= h < |headers| ensures InStep(entries', headers[h]) { assert InStep(entries, headers[h]); }
    forall h | 0 <= h < |headers| - 1 ensures Filled(entries', headers[h]) { assert Filled(entries, headers[h]); }
  }

  // ----- taking a block out

  lemma ClearOwn(s: State, t: nat)
    requires Inv(s) && Enabled(s, Clear(t))
    ensures var r, s' := s.readers[t], Step(s, Clear(t));
      && s'.entries == s.entries[s.headers[r.header].slots[r.slot] := Entry(Some(r.block), None)]
      && s'.live == s.live[r.block := None] && s'.headers == s.headers && s'.enqueuer == s.enqueuer
      && Unused(s.entries[s.headers[r.header].slots[r.slot]], s'.live) && Shrinks(s.live, s'.live)
      && ReaderInRange(s'.headers, s'.readers[t]) && ReaderOk(s'.entries, s'.headers, s'.live, s'.readers[t])
  {
    var r, s' := s.readers[t], Step(s, Clear(t));
    var e := s.headers[r.header].slots[r.slot];
    assert Holds(s.entries, s.live, s.headers[r.header], r.block);
    if r.block < r.last {
      StepReaderOk(s, r, StepReader(s, r));
      forall b | r.block + 1 <= b <= r.last ensures Live(s'.live, b) { assert Live(s.live, b); }
      ReaderStays(s.entries, s.headers, s.live, StepReader(s, r), e, s'.entries[e], s'.live);
    }
  }

  lemma ClearOther(s: State, t: nat, u: nat)
    requires Inv(s) && Enabled(s, Clear(t)) && u < |s.readers| && u != t
    ensures var s' := Step(s, Clear(t)); ReaderOk(s'.entries, s'.headers, s'.live, s.readers[u])
  {
    var r, v, s' := s.readers[t], s.readers[u], Step(s, Clear(t));
    ClearOwn(s, t);
    assert !Uses(v, r.block);
    if !v.Away? {
      forall b | v.block <= b <= v.last ensures Live(s'.live, b) { assert Live(s.live, b); }
    }
    var e := s.headers[r.header].slots[r.slot];
    ReaderStays(s.entries, s.headers, s.live, v, e, Entry(Some(r.block), None), s'.live);
  }

  lemma ClearInv(s: State, t: nat)
    requires Inv(s) && Enabled(s, Clear(t))
    ensures Inv(Step(s, Clear(t)))
  {
    var r, s' := s.readers[t], Step(s, Clear(t));
    var e := s.headers[r.header].slots[r.slot];
    ClearOwn(s, t);
    ValueChanges(s.entries, s.headers, |s.live|, e, None);
    forall u | 0 <= u < |s'.readers|
      ensures ReaderInRange(s'.headers, s'.readers[u]) && ReaderOk(s'.entries, s'.headers, s'.live, s'.readers[u])
    {
      if u != t { ClearOther(s, t, u); }
    }
    AllHeldStay(s.entries, s.live, Current(s), e, s'.entries[e], s'.live);
  }

  // ----- the enqueuer's steps

  // The slot after the tail is that of the next block; if it is taken, by the block a whole capacity older.
  lemma InsertOk(entries: seq<Entry>, n: nat, h: Header, next: Enqueuer)
    requires Capacity(h) > 1 && InStep(entries, h) && Recent(entries, n, h) && EnqueuerOk(entries, n, h, Idle)
    requires h.tail < Capacity(h)
    requires var e := h.slots[NewTail(h)];
      e < |entries| &&
      next == if entries[e].key.None? || entries[e].value.None? then StoreKey(e, NewTail(h)) else Grow
    ensures EnqueuerOk(entries, n, h, next)
  {
    SlotNext(h, n - 1);
    var key := KeyAt(entries, h, Slot(h, n));
    if key.Some? {
      SlotShared(h, key.value, n);
    }
  }

  lemma InsertInv(s: State)
    requires Inv(s) && s.enqueuer.Idle?
    ensures Inv(StepInsert(s))
  {
    AtLeastTwo(s.headers, |s.headers| - 1);
    InsertOk(s.entries, |s.live|, Current(s), StepInsert(s).enqueuer);
  }

  // The entry of block n in an older header: its key there so far is in step with n.
  lemma StoreKeyOlder(entries: seq<Entry>, headers: seq<Header>, n: nat, h: nat, x: nat)
    requires h < |headers| - 1 && Doubling(headers) && AllInStep(entries, headers) && OlderFilled(entries, headers)
    requires var g := headers[|headers| - 1];
      && Capacity(g) > 0 && x < Capacity(headers[h])
      && headers[h].slots[x] == g.slots[Slot(g, n)] < |entries|
    ensures Capacity(headers[h]) > 0 && Slot(headers[h], n) == x
  {
    var g, older := headers[|headers| - 1], headers[h];
    assert Filled(entries, older) && InStep(entries, older) && InStep(entries, g);
    var k := KeyAt(entries, older, x).value;
    assert KeyAt(entries, g, Slot(g, n)) == Some(k);
    SlotInOlder(headers, h, k, n);
  }

  // A key stored in the slot of block n is in step in every header that shares the entry.
  lemma StoreKeyInStep(entries: seq<Entry>, headers: seq<Header>, n: nat, e: nat, entry: Entry, h: nat)
    requires h < |headers| && Doubling(headers) && AllInStep(entries, headers) && OlderFilled(entries, headers)
    requires var g := headers[|headers| - 1]; Capacity(g) > 0 && e == g.slots[Slot(g, n)] < |entries|
    requires entry.key == Some(n)
    ensures InStep(entries[e := entry], headers[h])
  {
    var entries', older := entries[e := entry], headers[h];
    assert InStep(entries, older);
    forall x | 0 <= x < Capacity(older) && KeyAt(entries', older, x).Some?
      ensures Slot(older, KeyAt(entries', older, x).value) == x
    {
      if older.slots[x] != e {
        assert KeyAt(entries', older, x) == KeyAt(entries, older, x);
      } else if h < |headers| - 1 {
        StoreKeyOlder(entries, headers, n, h, x);
      } else {
        assert Distinct(older);
      }
    }
  }

  // The newest keys do not share the slot of block n.
  lemma StoreKeyNewest(entries: seq<Entry>, n: nat, h: Header, e: nat, entry: Entry)
    requires Capacity(h) > 0 && Newest(entries, n, h) && Distinct(h) && e < |entries| && e == h.slots[Slot(h, n)]
    ensures Newest(entries[e := entry], n, h)
  {
    var entries' := entries[e := entry];
    forall k | h.phase <= k < n < k + Capacity(h)
      ensures KeyAt(entries', h, Slot(h, k)) == Some(k)
    {
      if Slot(h, k) == Slot(h, n) {
        SlotShared(h, k, n);
      }
    }
  }

  lemma StoreKeyRecent(entries: seq<Entry>, n: nat, h: Header, e: nat, entry: Entry)
    requires Recent(entries, n, h) && e < |entries| && entry.key == Some(n)
    ensures Recent(entries[e := entry], n, h)
  {
    var entries' := entries[e := entry];
    forall x | 0 <= x < Capacity(h) && KeyAt(entries', h, x).Some?
      ensures var key := KeyAt(entries', h, x).value; h.phase <= key <= n <= key + Capacity(h)
    {
      assert h.slots[x] == e || KeyAt(entries', h, x) == KeyAt(entries, h, x);
    }
  }

  lemma StoreKeyFilled(entries: seq<Entry>, h: Header, e: nat, entry: Entry)
    requires Filled(entries, h) && e < |entries| && entry.key.Some?
    ensures Filled(entries[e := entry], h)
  {
    var entries' := entries[e := entry];
    forall x | 0 <= x < Capacity(h)
      ensures KeyAt(entries', h, x).Some?
    {
      assert KeyAt(entries, h, x).Some?;
    }
  }

  lemma StoreKeyInv(s: State, p: Option<nat>)
    requires Inv(s) && s.enqueuer.StoreKey?
    ensures Inv(StepProduce(s, p))
  {
    var s', e := StepProduce(s, p), s.enqueuer.entry;
    forall h | 0 <= h < |s.headers|
      ensures InStep(s'.entries, s.headers[h])
    {
      StoreKeyInStep(s.entries, s.headers, |s.live|, e, s'.entries[e], h);
    }
    forall h | 0 <= h < |s.headers| - 1
      ensures Filled(s'.entries, s.headers[h])
    {
      StoreKeyFilled(s.entries, s.headers[h], e, s'.entries[e]);
    }
    StoreKeyNewest(s.entries, |s.live|, Current(s), e, s'.entries[e]);
    StoreKeyRecent(s.entries, |s.live|, Current(s), e, s'.entries[e]);
    AllHeldStay(s.entries, s.live, Current(s), e, s'.entries[e], s.live);
    ReadersStay(s.entries, s.headers, s.live, s.readers, e, s'.entries[e]);
  }

  // Nothing but the loads of a tail depends on it.
  lemma TailMovesHeaders(entries: seq<Entry>, headers: seq<Header>, tail: nat)
    requires HeadersInRange(|entries|, headers) && Doubling(headers)
    requires AllInStep(entries, headers) && OlderFilled(entries, headers)
    requires tail < Capacity(headers[|headers| - 1])
    ensures var headers' := MovedTail(headers, tail);
      && HeadersInRange(|entries|, headers') && Doubling(headers')
      && AllInStep(entries, headers') && OlderFilled(entries, headers')
  {
    var headers' := MovedTail(headers, tail);
    forall h | 0 <= h < |headers|
      ensures HeaderInRange(|entries|, headers'[h]) && InStep(entries, headers'[h])
    {
      TailMovesInStep(entries, headers[h], tail);
    }
    forall h | 0 <= h < |headers| - 1 ensures Filled(entries, headers'[h]) { assert Filled(entries, headers[h]); }
  }

  lemma TailMovesInStep(entries: seq<Entry>, h: Header, tail: nat)
    requires InStep(entries, h)
    ensures InStep(entries, h.(tail := tail))
  {
    forall x | 0 <= x < Capacity(h) ensures KeyAt(entries, h.(tail := tail), x) == KeyAt(entries, h, x) { }
  }

  lemma TailMovesWindow(entries: seq<Entry>, n: nat, h: Header, tail: nat)
    requires Capacity(h) > 0 && Recent(entries, n, h) && Newest(entries, n, h)
    ensures Recent(entries, n, h.(tail := tail)) && Newest(entries, n, h.(tail := tail))
  {
    forall x | 0 <= x < Capacity(h) ensures KeyAt(entries, h.(tail := tail), x) == KeyAt(entries, h, x) { }
    forall k | h.phase <= k < n < k + Capacity(h)
      ensures KeyAt(entries, h.(tail := tail), Slot(h.(tail := tail), k)) == Some(k)
    {
      assert KeyAt(entries, h, Slot(h, k)) == Some(k);
    }
  }

  lemma TailMovesHeld(entries: seq<Entry>, live: seq<Option<nat>>, h: Header, tail: nat)
    requires AllHeld(entries, live, h)
    ensures AllHeld(entries, live, h.(tail := tail))
  {
    forall b | 0 <= b < |live| && live[b].Some?
      ensures Holds(entries, live, h.(tail := tail), b)
    {
      assert Holds(entries, live, h, b);
    }
  }

  lemma TailMovesReaders(entries: seq<Entry>, headers: seq<Header>, live: seq<Option<nat>>, readers: seq<Reader>,
                         tail: nat)
    requires headers != [] && ReadersInRange(headers, readers) && ReadersOk(entries, headers, live, readers)
    ensures var headers' := MovedTail(headers, tail);
            ReadersInRange(headers', readers) && ReadersOk(entries, headers', live, readers)
  {
    var headers' := MovedTail(headers, tail);
    forall t | 0 <= t < |readers|
      ensures ReaderInRange(headers', readers[t]) && ReaderOk(entries, headers', live, readers[t])
    {
      assert ReaderInRange(headers, readers[t]) && ReaderOk(entries, headers, live, readers[t]);
      TailMovesReader(entries, headers, live, readers[t], tail);
    }
  }

  lemma TailMovesReader(entries: seq<Entry>, headers: seq<Header>, live: seq<Option<nat>>, r: Reader, tail: nat)
    requires headers != [] && ReaderInRange(headers, r) && ReaderOk(entries, headers, live, r)
    ensures var headers' := MovedTail(headers, tail); ReaderInRange(headers', r) && ReaderOk(entries, headers', live, r)
  {
    var headers' := MovedTail(headers, tail);
    if !r.Away? && !r.LoadHeader? {
      forall b | r.block <= b <= r.last
        ensures Holds(entries, live, headers'[r.header], b)
      {
        assert Holds(entries, live, headers[r.header], b);
      }
    }
  }

  lemma TailMoves(s: State, tail: nat, enqueuer: Enqueuer)
    requires Inv(s) && tail < Capacity(Current(s)) && EnqueuerInRange(|s.entries|, Current(s), enqueuer)
    requires EnqueuerOk(s.entries, |s.live|, Current(s).(tail := tail), enqueuer)
    ensures Inv(SetTail(s, tail).(enqueuer := enqueuer))
  {
    TailMovesHeaders(s.entries, s.headers, tail);
    TailMovesWindow(s.entries, |s.live|, Current(s), tail);
    TailMovesHeld(s.entries, s.live, Current(s), tail);
    TailMovesReaders(s.entries, s.headers, s.live, s.readers, tail);
  }

  lemma StoreTailInv(s: State, p: Option<nat>)
    requires Inv(s) && s.enqueuer.StoreTail?
    ensures Inv(StepProduce(s, p))
  {
    TailMoves(s, s.enqueuer.newTail, SetValue(s.enqueuer.entry));
  }

  // No block for the entry: the tail goes back to the block before.
  lemma RewindInv(s: State)
    requires Inv(s) && s.enqueuer.SetValue?
    ensures Inv(StepProduce(s, None))
  {
    AtLeastTwo(s.headers, |s.headers| - 1);
    SlotBefore(Current(s), |s.live|);
    TailMoves(s, OldTail(Current(s)), ClearValue(s.enqueuer.entry));
  }

  lemma ClearValueInv(s: State, p: Option<nat>)
    requires Inv(s) && s.enqueuer.ClearValue?
    ensures Inv(StepProduce(s, p))
  {
    var s', e := StepProduce(s, p), s.enqueuer.entry;
    ValueChanges(s.entries, s.headers, |s.live|, e, None);
    AllHeldStay(s.entries, s.live, Current(s), e, s'.entries[e], s.live);
    ReadersStay(s.entries, s.headers, s.live, s.readers, e, s'.entries[e]);
  }

  // One block more: the oldest key has just been replaced, and the newest has been added.
  lemma OneMore(entries: seq<Entry>, n: nat, h: Header)
    requires Capacity(h) > 1 && InStep(entries, h) && Recent(entries, n, h) && Newest(entries, n, h)
    requires KeyAt(entries, h, Slot(h, n)) == Some(n)
    ensures Recent(entries, n + 1, h) && Newest(entries, n + 1, h)
    ensures KeyAt(entries, h, Slot(h, n + 1)) != Some(n + 1)
  {
    forall x | 0 <= x < Capacity(h) && KeyAt(entries, h, x).Some?
      ensures n + 1 <= KeyAt(entries, h, x).value + Capacity(h)
    {
      if KeyAt(entries, h, x).value + Capacity(h) == n {
        SlotAgain(h, KeyAt(entries, h, x).value);
      }
    }
  }

  lemma SetValueHeld(entries: seq<Entry>, live: seq<Option<nat>>, h: Header, e: nat, p: Option<nat>)
    requires Capacity(h) > 0 && AllHeld(entries, live, h) && e < |entries| && e == h.slots[Slot(h, |live|)]
    requires KeyAt(entries, h, Slot(h, |live|)) == Some(|live|)
    ensures AllHeld(entries[e := entries[e].(value := p)], live + [p], h)
  {
    var entry := entries[e].(value := p);
    AllHeldStay(entries, live, h, e, entry, live);
    forall b | 0 <= b < |live + [p]| && (live + [p])[b].Some?
      ensures Holds(entries[e := entry], live + [p], h, b)
    {
      assert b < |live| ==> Holds(entries[e := entry], live, h, b);
    }
  }

  lemma SetValueIndex(entries: seq<Entry>, headers: seq<Header>, n: nat, e: nat, p: Option<nat>)
    requires headers != [] && Doubling(headers) && AllInStep(entries, headers) && OlderFilled(entries, headers)
    requires var h := headers[|headers| - 1];
      && Capacity(h) > 0 && Recent(entries, n, h) && Newest(entries, n, h) && EnqueuerOk(entries, n, h, SetValue(e))
      && HeaderInRange(|entries|, h)
    ensures var entries', h := entries[e := entries[e].(value := p)], headers[|headers| - 1];
      && AllInStep(entries', headers) && OlderFilled(entries', headers)
      && Recent(entries', n + 1, h) && Newest(entries', n + 1, h) && EnqueuerOk(entries', n + 1, h, Idle)
  {
    AtLeastTwo(headers, |headers| - 1);
    ValueChanges(entries, headers, n, e, p);
    OneMore(entries[e := entries[e].(value := p)], n, headers[|headers| - 1]);
  }

  lemma SetValueInv(s: State, p: Option<nat>)
    requires Inv(s) && s.enqueuer.SetValue? && p.Some?
    ensures Inv(StepProduce(s, p))
  {
    var s', e := StepProduce(s, p), s.enqueuer.entry;
    SetValueIndex(s.entries, s.headers, |s.live|, e, p);
    SetValueHeld(s.entries, s.live, Current(s), e, p);
    ReadersStay(s.entries, s.headers, s.live, s.readers, e, s'.entries[e]);
    MoreLive(s'.entries, s.headers, s.live, s.readers, p);
  }

  // ----- a new header

  lemma AfterTail(a: int, tail: nat, i: nat, c: nat)
    requires c > 0 && tail == a % c
    ensures (tail + 1 + i) % c == (a + 1 + i - c) % c
  {
    AddToRemainder(a, 1 + i, c);
    assert tail + 1 + i == a % c + (1 + i);
    SameRemainder(a + (1 + i), a + 1 + i - c, 1, c);
  }

  // The rotation puts the entry of block k at k less the oldest key.
  lemma RotatedAt(h: Header, n: int, i: nat)
    requires Capacity(h) > 1 && h.tail == Slot(h, n - 1) && i < Capacity(h)
    ensures Rotated(h)[i] == h.slots[Slot(h, n - Capacity(h) + i)]
  {
    AfterTail(n - 1 - h.phase, h.tail, i, Capacity(h));
  }

  // Every slot is that of one of the newest blocks.
  lemma RotatedFrom(h: Header, n: nat, x: nat) returns (i: nat)
    requires Capacity(h) > 0 && x < Capacity(h)
    ensures i < Capacity(h) && Slot(h, n - Capacity(h) + i) == x
  {
    var c := Capacity(h);
    var a := n - c - h.phase;
    i := (x - a) % c;
    AddToRemainder(x - a, a, c);
    SmallIsRemainder(x, c);
  }

  // When the index grows, the current header holds exactly the newest blocks, as many as it has slots.
  lemma GrowKeys(entries: seq<Entry>, n: nat, h: Header, i: nat)
    requires Capacity(h) > 1 && Recent(entries, n, h) && Newest(entries, n, h) && EnqueuerOk(entries, n, h, Grow)
    requires i < Capacity(h)
    ensures n >= Capacity(h) && KeyAt(entries, h, Slot(h, n - Capacity(h) + i)) == Some(n - Capacity(h) + i)
  {
    if i == 0 {
      SlotAgain(h, n - Capacity(h));
    }
  }

  // The index is about to grow with n blocks inserted.
  predicate Growing(entries: seq<Entry>, n: nat, h: Header) {
    && Capacity(h) > 1 && HeaderInRange(|entries|, h) && Distinct(h) && InStep(entries, h)
    && Recent(entries, n, h) && Newest(entries, n, h) && EnqueuerOk(entries, n, h, Grow)
  }

  lemma NewSlot(h: Header, count: nat, n: nat, i: nat)
    requires h.tail < Capacity(h) <= n && i < 2 * Capacity(h)
    ensures Capacity(NewHeader(h, count, n)) == 2 * Capacity(h)
    ensures Slot(NewHeader(h, count, n), n - Capacity(h) + i) == i
  {
    SmallIsRemainder(i, 2 * Capacity(h));
  }

  lemma NewKeys(entries: seq<Entry>, n: nat, h: Header, junk: Option<nat>, i: nat)
    requires Growing(entries, n, h) && i < 2 * Capacity(h)
    ensures n >= Capacity(h)
    ensures KeyAt(entries + NewEntries(h, junk), NewHeader(h, |entries|, n), i)
         == if i < Capacity(h) then Some(n - Capacity(h) + i) else None
  {
    if i < Capacity(h) {
      RotatedAt(h, n, i);
      GrowKeys(entries, n, h, i);
    }
  }

  lemma NewInStep(entries: seq<Entry>, n: nat, h: Header, junk: Option<nat>)
    requires Growing(entries, n, h)
    ensures InStep(entries + NewEntries(h, junk), NewHeader(h, |entries|, n))
  {
    forall i | 0 <= i < 2 * Capacity(h)
      ensures var key := KeyAt(entries + NewEntries(h, junk), NewHeader(h, |entries|, n), i);
              key.Some? ==> Slot(NewHeader(h, |entries|, n), key.value) == i
    {
      NewKeys(entries, n, h, junk, i);
      NewSlot(h, |entries|, n, i);
    }
  }

  lemma NewWindow(entries: seq<Entry>, n: nat, h: Header, junk: Option<nat>)
    requires Growing(entries, n, h)
    ensures var entries', h' := entries + NewEntries(h, junk), NewHeader(h, |entries|, n);
            Recent(entries', n, h') && Newest(entries', n, h')
  {
    var entries', h' := entries + NewEntries(h, junk), NewHeader(h, |entries|, n);
    forall x | 0 <= x < Capacity(h') && KeyAt(entries', h', x).Some?
      ensures h'.phase <= KeyAt(entries', h', x).value <= n <= KeyAt(entries', h', x).value + Capacity(h')
    {
      NewKeys(entries, n, h, junk, x);
    }
    forall k | h'.phase <= k < n < k + Capacity(h')
      ensures KeyAt(entries', h', Slot(h', k)) == Some(k)
    {
      NewSlot(h, |entries|, n, k - h'.phase);
      NewKeys(entries, n, h, junk, k - h'.phase);
    }
  }

  lemma NewEnqueuer(entries: seq<Entry>, n: nat, h: Header, junk: Option<nat>)
    requires Growing(entries, n, h)
    ensures EnqueuerOk(entries + NewEntries(h, junk), n, NewHeader(h, |entries|, n), StoreKey(|entries|, Capacity(h)))
  {
    NewSlot(h, |entries|, n, Capacity(h));
    NewSlot(h, |entries|, n, Capacity(h) - 1);
  }

  lemma NewDistinct(entries: seq<Entry>, n: nat, h: Header)
    requires Growing(entries, n, h)
    ensures Distinct(NewHeader(h, |entries|, n)) && HeaderInRange(|entries| + Capacity(h), NewHeader(h, |entries|, n))
  {
    var h' := NewHeader(h, |entries|, n);
    forall x | 0 <= x < Capacity(h')
      ensures if x < Capacity(h) then h'.slots[x] < |entries| else h'.slots[x] == |entries| + x - Capacity(h)
    {
    }
    forall x, y | 0 <= x < y < Capacity(h)
      ensures h'.slots[x] != h'.slots[y]
    {
      NewKeys(entries, n, h, None, x);
      NewKeys(entries, n, h, None, y);
    }
  }

  lemma NewHeld(entries: seq<Entry>, live: seq<Option<nat>>, h: Header, junk: Option<nat>)
    requires Growing(entries, |live|, h) && AllHeld(entries, live, h)
    ensures AllHeld(entries + NewEntries(h, junk), live, NewHeader(h, |entries|, |live|))
  {
    var n := |live|;
    forall b | 0 <= b < n && live[b].Some?
      ensures Holds(entries + NewEntries(h, junk), live, NewHeader(h, |entries|, n), b)
    {
      assert Holds(entries, live, h, b) && KeyAt(entries, h, Slot(h, b)) == Some(b);
      var i := b - (n - Capacity(h));
      RotatedAt(h, n, i);
      NewSlot(h, |entries|, n, i);
    }
  }

  // Headers and readers from before.
  lemma MoreEntries(entries: seq<Entry>, more: seq<Entry>, headers: seq<Header>)
    requires HeadersInRange(|entries|, headers) && AllInStep(entries, headers) && OlderFilled(entries, headers)
    ensures AllInStep(entries + more, headers) && OlderFilled(entries + more, headers)
  {
    forall h | 0 <= h < |headers|
      ensures InStep(entries + more, headers[h]) && (h < |headers| - 1 ==> Filled(entries + more, headers[h]))
    {
      assert InStep(entries, headers[h]) && (h < |headers| - 1 ==> Filled(entries, headers[h]));
      forall x | 0 <= x < Capacity(headers[h])
        ensures KeyAt(entries + more, headers[h], x) == KeyAt(entries, headers[h], x)
      {
      }
    }
  }

  lemma CurrentFilled(entries: seq<Entry>, n: nat, h: Header, more: seq<Entry>)
    requires Growing(entries, n, h)
    ensures Filled(entries + more, h)
  {
    forall x | 0 <= x < Capacity(h)
      ensures KeyAt(entries + more, h, x).Some?
    {
      var i := RotatedFrom(h, n, x);
      GrowKeys(entries, n, h, i);
    }
  }

  lemma ReadersGrow(entries: seq<Entry>, more: seq<Entry>, headers: seq<Header>, h': Header,
                    live: seq<Option<nat>>, readers: seq<Reader>)
    requires HeadersInRange(|entries|, headers) && ReadersInRange(headers, readers)
    requires ReadersOk(entries, headers, live, readers)
    ensures ReadersInRange(headers + [h'], readers) && ReadersOk(entries + more, headers + [h'], live, readers)
  {
    forall t | 0 <= t < |readers|
      ensures ReaderInRange(headers + [h'], readers[t]) && ReaderOk(entries + more, headers + [h'], live, readers[t])
    {
      ReaderGrows(entries, more, headers, h', live, readers[t]);
    }
  }

  lemma ReaderGrows(entries: seq<Entry>, more: seq<Entry>, headers: seq<Header>, h': Header,
                    live: seq<Option<nat>>, r: Reader)
    requires HeadersInRange(|entries|, headers) && ReaderInRange(headers, r) && ReaderOk(entries, headers, live, r)
    ensures ReaderInRange(headers + [h'], r) && ReaderOk(entries + more, headers + [h'], live, r)
  {
    if !r.Away? && !r.LoadHeader? {
      assert (headers + [h'])[r.header] == headers[r.header];
      forall b | r.block <= b <= r.last
        ensures Holds(entries + more, live, headers[r.header], b)
      {
        assert Holds(entries, live, headers[r.header], b);
      }
    }
  }

  lemma GrowHeaders(entries: seq<Entry>, headers: seq<Header>, n: nat, junk: Option<nat>)
    requires HeadersInRange(|entries|, headers) && Doubling(headers)
    requires AllInStep(entries, headers) && OlderFilled(entries, headers) && Growing(entries, n, headers[|headers| - 1])
    ensures
      var h := headers[|headers| - 1];
      var entries', headers' := entries + NewEntries(h, junk), headers + [NewHeader(h, |entries|, n)];
      && HeadersInRange(|entries'|, headers') && Doubling(headers')
      && AllInStep(entries', headers') && OlderFilled(entries', headers')
  {
    var h := headers[|headers| - 1];
    MoreEntries(entries, NewEntries(h, junk), headers);
    CurrentFilled(entries, n, h, NewEntries(h, junk));
    NewInStep(entries, n, h, junk);
    NewDistinct(entries, n, h);
    assert 2 * (B.IMPLICIT_INITIAL_INDEX_SIZE * Pow2(|headers| - 1)) == B.IMPLICIT_INITIAL_INDEX_SIZE * Pow2(|headers|);
  }

  lemma GrowInv(s: State, p: Option<nat>)
    requires Inv(s) && s.enqueuer.Grow?
    ensures Inv(StepProduce(s, p))
  {
    var h := Current(s);
    AtLeastTwo(s.headers, |s.headers| - 1);
    GrowHeaders(s.entries, s.headers, |s.live|, p);
    NewWindow(s.entries, |s.live|, h, p);
    NewEnqueuer(s.entries, |s.live|, h, p);
    NewHeld(s.entries, s.live, h, p);
    ReadersGrow(s.entries, NewEntries(h, p), s.headers, NewHeader(h, |s.entries|, |s.live|), s.live, s.readers);
  }

  /** Every access of the enqueuer to the index, and every access of every lookup, keeps the invariant. */
  lemma StepInv(s: State, m: Move)
    requires Inv(s) && Enabled(s, m)
    ensures Inv(Step(s, m))
  {
    match m
    case Insert => InsertInv(s);
    case GiveUp =>
    case Produce(p) =>
      match s.enqueuer {
        case Idle =>
        case Grow => GrowInv(s, p);
        case StoreKey(_, _) => StoreKeyInv(s, p);
        case StoreTail(_, _) => StoreTailInv(s, p);
        case SetValue(_) => if p.Some? { SetValueInv(s, p); } else { RewindInv(s); }
        case ClearValue(_) => ClearValueInv(s, p);
      }
    case Begin(t, b, last) => BeginInv(s, t, b, last);
    case Read(t) => ReadInv(s, t);
    case Leave(t) => ReadersChange(s, t, Away);
    case Clear(t) => ClearInv(s, t);
  }

  // ----- what holds over every run

  datatype Run = Run(states: seq<State>, moves: seq<Move>)

  ghost predicate IsRun(r: Run) {
    && |r.states| == |r.moves| + 1
    && Init(r.states[0])
    && forall i :: 0 <= i < |r.moves| ==>
         InRange(r.states[i]) && Enabled(r.states[i], r.moves[i]) && r.states[i + 1] == Step(r.states[i], r.moves[i])
  }

  lemma {:induction false} RunInv(r: Run, i: nat)
    requires IsRun(r) && i < |r.states|
    ensures Inv(r.states[i])
  {
    if i == 0 {
      InitInv(r.states[0]);
    } else {
      RunInv(r, i - 1);
      StepInv(r.states[i - 1], r.moves[i - 1]);
    }
  }

  // The index as constructed, whatever its entries' memory held, and any number of dequeuers.
  function Start(values: nat -> Option<nat>, dequeuers: nat): State {
    State(seq(B.IMPLICIT_INITIAL_INDEX_SIZE, i requires 0 <= i => Entry(None, values(i))),
          [Header(B.IMPLICIT_INITIAL_INDEX_SIZE - 1, seq(B.IMPLICIT_INITIAL_INDEX_SIZE, i => i), 0)],
          Idle, seq(dequeuers, _ => Away), [])
  }

  /** There is a run from every index as constructed, and every enabled access carries a run on. */
  lemma RunGoesOn(values: nat -> Option<nat>, dequeuers: nat, r: Run, m: Move)
    ensures IsRun(Run([Start(values, dequeuers)], []))
    ensures IsRun(r) ==>
              var s := r.states[|r.moves|];
              InRange(s) && (Enabled(s, m) ==> IsRun(Run(r.states + [Step(s, m)], r.moves + [m])))
  {
    if IsRun(r) {
      RunInv(r, |r.moves|);
      Extends(r, m);
    }
  }

  lemma Extends(r: Run, m: Move)
    requires IsRun(r) && InRange(r.states[|r.moves|])
    ensures var s := r.states[|r.moves|]; Enabled(s, m) ==> IsRun(Run(r.states + [Step(s, m)], r.moves + [m]))
  {
    var s := r.states[|r.moves|];
    if Enabled(s, m) {
      var longer := Run(r.states + [Step(s, m)], r.moves + [m]);
      forall i | 0 <= i < |longer.moves|
        ensures InRange(longer.states[i]) && Enabled(longer.states[i], longer.moves[i])
        ensures longer.states[i + 1] == Step(longer.states[i], longer.moves[i])
      {
        if i < |r.moves| {
          assert longer.states[i] == r.states[i] && longer.states[i + 1] == r.states[i + 1];
          assert longer.moves[i] == r.moves[i];
        }
      }
    }
  }

  /** What a lookup finds, however its loads are interleaved with insertions and with the index growing, and through
      whichever header: the entry whose key is the block sought and whose value is its block, at the moment it is found
      and as long as the dequeuer goes on with it. */
  lemma LookupRight(r: Run, i: nat, t: nat)
    requires IsRun(r) && i < |r.states| && t < |r.states[i].readers| && r.states[i].readers[t].Found?
    ensures
      var s, found := r.states[i], r.states[i].readers[t];
      && found.header < |s.headers| && found.slot < Capacity(s.headers[found.header])
      && var e := s.headers[found.header].slots[found.slot];
         e < |s.entries| && Live(s.live, found.block) && s.entries[e] == Entry(Some(found.block), s.live[found.block])
  {
    var s := r.states[i];
    RunInv(r, i);
    var found := s.readers[t];
    assert ReaderOk(s.entries, s.headers, s.live, found);
    assert Live(s.live, found.block) && Holds(s.entries, s.live, s.headers[found.header], found.block);
  }

  /** The tail a lookup has loaded always leads to an entry with a key: INVALID_BLOCK_BASE is never subtracted. */
  lemma TailHasKey(r: Run, i: nat, t: nat)
    requires IsRun(r) && i < |r.states| && t < |r.states[i].readers| && r.states[i].readers[t].LoadKey?
    ensures
      var s, reader := r.states[i], r.states[i].readers[t];
      && reader.header < |s.headers| && reader.tail < Capacity(s.headers[reader.header])
      && var e := s.headers[reader.header].slots[reader.tail]; e < |s.entries| && s.entries[e].key.Some?
  {
    RunInv(r, i);
    assert ReaderOk(r.states[i].entries, r.states[i].headers, r.states[i].live, r.states[i].readers[t]);
  }

  /** The enqueuer's store of a key never hits the entry of a block that is still in the index. */
  lemma KeyStoreSpares(r: Run, i: nat, b: nat)
    requires IsRun(r) && i < |r.states| && r.states[i].enqueuer.StoreKey? && Live(r.states[i].live, b)
    ensures
      var s := r.states[i];
      && s.headers != [] && s.enqueuer.entry < |s.entries|
      && s.entries[s.enqueuer.entry] != Entry(Some(b), s.live[b])
      && exists x :: 0 <= x < Capacity(Current(s)) && Current(s).slots[x] < |s.entries|
                     && s.entries[Current(s).slots[x]] == Entry(Some(b), s.live[b])
  {
    var s := r.states[i];
    RunInv(r, i);
    assert Holds(s.entries, s.live, Current(s), b);
    assert s.entries[Current(s).slots[Slot(Current(s), b)]] == Entry(Some(b), s.live[b]);
  }

  // The loads of a lookup still to come, and the blocks after the first.
  function LoadsLeft(r: Reader): int {
    match r
    case Away => 0
    case LoadHeader(b, last) => 3 + last - b
    case LoadTail(b, last, _) => 2 + last - b
    case LoadKey(b, last, _, _) => 1 + last - b
    case Found(b, last, _, _) => last - b
  }

  /** A lookup needs one load for the header, one for its tail and one for the tail's key, and one step for every
      further block, whatever the enqueuer and the other dequeuers do in between. */
  lemma LookupEnds(r: Run, n: nat, t: nat)
    requires IsRun(r) && n < |r.moves| && t < |r.states[n].readers|
    ensures t < |r.states[n + 1].readers|
    ensures r.moves[n] == Read(t) ==>
              !r.states[n + 1].readers[t].Away?
              && LoadsLeft(r.states[n + 1].readers[t]) == LoadsLeft(r.states[n].readers[t]) - 1 >= 0
    ensures r.moves[n].Insert? || r.moves[n].GiveUp? || r.moves[n].Produce? || r.moves[n].t != t ==>
              r.states[n + 1].readers[t] == r.states[n].readers[t]
  {
    var s := r.states[n];
    RunInv(r, n);
    assert ReaderOk(s.entries, s.headers, s.live, s.readers[t]);
  }
}
