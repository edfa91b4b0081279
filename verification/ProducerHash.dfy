/** get_or_add_implicit_producer: the chain of linear-probed tables from thread id to implicit producer, for any
    number of threads, one atomic access per step. A thread's id is its position; hashed is hash_thread_id of it,
    any number at all.

    The tables are listed oldest first, so prev of table i is table i - 1 and implicitProducerHash is the last one.
    Allocation succeeds. number, producer and home of a thread, and who holds the resize flag, are auxiliary. */
module ProducerHash {
  import opened Modular
  import opened Totals

  const INITIAL_IMPLICIT_PRODUCER_HASH_SIZE := 32

  datatype Table = Table(capacity: nat, keys: seq<Option<nat>>, values: seq<Option<nat>>)

  // A thread's next access with the locals it still needs; probes is how often index has been incremented.
  datatype Pc =
    | Idle
    | LoadMain
    | Look(main: nat, table: nat, probes: nat)
    | CopyLoad(main: nat, value: Option<nat>, probes: nat)   // found in an older table: put it into the main one
    | CopyCas(main: nat, value: Option<nat>, probes: nat)
    | CopyStore(main: nat, value: Option<nat>, probes: nat)
    | Count(main: nat)
    | Test(main: nat, newCount: nat)                         // top of the insertion loop: test_and_set if half full
    | Reload(newCount: nat)                                  // resize flag held from here ...
    | Resize(main: nat, newCount: nat)
    | Clear(main: nat, newCount: nat)                        // ... to here
    | Decide(main: nat, newCount: nat)                       // less than three quarters full?
    | InsertLoad(main: nat, value: Option<nat>, probes: nat)
    | InsertCas(main: nat, value: Option<nat>, probes: nat)
    | InsertStore(main: nat, value: Option<nat>, probes: nat)
    | Done(value: Option<nat>)

  // number: what newCount - 1 was, once counted; producer: the one created for the thread; home: the table of its
  // first entry.
  datatype Thread = Thread(pc: Pc, hashed: nat, number: Option<nat>, producer: Option<nat>, home: Option<nat>)

  datatype State = State(tables: seq<Table>, count: nat, resizing: Option<nat>, created: nat, threads: seq<Thread>)

  // ---- the steps ----

  // The slot reached from hashed after so many increments; capacities are powers of two, so the mask is a remainder.
  function Slot(hashed: nat, probes: nat, capacity: nat): (r: nat)
    requires capacity > 0
    ensures r < capacity
  {
    (hashed + probes) % capacity
  }

  function EmptyTable(capacity: nat): Table {
    Table(capacity, seq(capacity, _ => None), seq(capacity, _ => None))
  }

  // Doubles until the count is below half.
  function Grown(capacity: nat, newCount: nat): nat
    requires capacity > 0
    decreases newCount + 1 - capacity / 2
  {
    if newCount >= capacity / 2 then Grown(2 * capacity, newCount) else capacity
  }

  // newCount < (capacity >> 1) + (capacity >> 2)
  predicate Room(newCount: nat, capacity: nat) {
    newCount < capacity / 2 + capacity / 4
  }

  datatype Move = Call(t: nat) | Continue(t: nat)

  predicate Enabled(s: State, m: Move) {
    m.t < |s.threads| && (m.Call? <==> s.threads[m.t].pc.Idle?)
  }

  function Goto(s: State, t: nat, pc: Pc): State
    requires t < |s.threads|
  {
    s.(threads := s.threads[t := s.threads[t].(pc := pc)])
  }

  // The slot thread t looks at next in a table.
  function At(s: State, t: nat, table: nat, probes: nat): (r: nat)
    requires t < |s.threads| && table < |s.tables| && s.tables[table].capacity > 0
    ensures r < s.tables[table].capacity
  {
    Slot(s.threads[t].hashed, probes, s.tables[table].capacity)
  }

  // The compare-and-swap that puts the key into an empty slot.
  function WithKey(s: State, t: nat, main: nat, slot: nat, pc: Pc, home: Option<nat>): State
    requires t < |s.threads| && main < |s.tables| && slot < |s.tables[main].keys|
  {
    s.(threads := s.threads[t := s.threads[t].(pc := pc, home := home)],
       tables := s.tables[main := s.tables[main].(keys := s.tables[main].keys[slot := Some(t)])])
  }

  function SetValue(s: State, table: nat, slot: nat, value: Option<nat>): State
    requires table < |s.tables| && slot < |s.tables[table].values|
  {
    s.(tables := s.tables[table := s.tables[table].(values := s.tables[table].values[slot := value])])
  }

  predicate Shaped(table: Table) {
    table.capacity >= INITIAL_IMPLICIT_PRODUCER_HASH_SIZE && |table.keys| == |table.values| == table.capacity
  }

  // The tables the locals of a thread point to exist.
  predicate InRange(s: State, pc: Pc) {
    match pc
    case Idle | LoadMain | Reload(_) | Done(_) => true
    case Look(main, table, _) => table <= main < |s.tables|
    case CopyLoad(main, _, _) => main < |s.tables|
    case CopyCas(main, _, _) => main < |s.tables|
    case CopyStore(main, _, _) => main < |s.tables|
    case Count(main) => main < |s.tables|
    case Test(main, _) => main < |s.tables|
    case Resize(main, _) => main < |s.tables|
    case Clear(main, _) => main < |s.tables|
    case Decide(main, _) => main < |s.tables|
    case InsertLoad(main, _, _) => main < |s.tables|
    case InsertCas(main, _, _) => main < |s.tables|
    case InsertStore(main, _, _) => main < |s.tables|
  }

  predicate WellFormed(s: State) {
    && s.tables != []
    && (forall i :: 0 <= i < |s.tables| ==> Shaped(s.tables[i]))
    && (forall t :: 0 <= t < |s.threads| ==> InRange(s, s.threads[t].pc))
  }

  function Step(s: State, m: Move): State
    requires WellFormed(s) && Enabled(s, m)
  {
    match m
    case Call(t) => Goto(s, t, LoadMain)
    case Continue(t) =>
      assert InRange(s, s.threads[t].pc);
      match s.threads[t].pc
      case Idle => s
      case LoadMain => Goto(s, t, Look(|s.tables| - 1, |s.tables| - 1, 0))
      case Look(main, table, probes) => StepLook(s, t, main, table, probes)
      case CopyLoad(main, value, probes) =>
        var key := s.tables[main].keys[At(s, t, main, probes)];
        Goto(s, t, if key.None? then CopyCas(main, value, probes) else CopyLoad(main, value, probes + 1))
      case CopyCas(main, value, probes) =>
        var slot := At(s, t, main, probes);
        if s.tables[main].keys[slot].None? then
          WithKey(s, t, main, slot, CopyStore(main, value, probes), s.threads[t].home)
        else Goto(s, t, CopyLoad(main, value, probes + 1))
      case CopyStore(main, value, probes) => SetValue(Goto(s, t, Done(value)), main, At(s, t, main, probes), value)
      case Count(main) => StepCount(s, t, main)
      case Test(main, newCount) =>
        if newCount >= s.tables[main].capacity / 2 && s.resizing.None? then
          Goto(s, t, Reload(newCount)).(resizing := Some(t))
        else Goto(s, t, Decide(main, newCount))
      case Reload(newCount) => Goto(s, t, Resize(|s.tables| - 1, newCount))
      case Resize(main, newCount) => StepResize(s, t, main, newCount)
      case Clear(main, newCount) => Goto(s, t, Decide(main, newCount)).(resizing := None)
      case Decide(main, newCount) => StepDecide(s, t, main, newCount)
      case InsertLoad(main, value, probes) =>
        var key := s.tables[main].keys[At(s, t, main, probes)];
        Goto(s, t, if key.None? then InsertCas(main, value, probes) else InsertLoad(main, value, probes + 1))
      case InsertCas(main, value, probes) =>
        var slot := At(s, t, main, probes);
        if s.tables[main].keys[slot].None? then WithKey(s, t, main, slot, InsertStore(main, value, probes), Some(main))
        else Goto(s, t, InsertLoad(main, value, probes + 1))
      case InsertStore(main, value, probes) => SetValue(Goto(s, t, Done(value)), main, At(s, t, main, probes), value)
      case Done(_) => Goto(s, t, Idle)
  }

  // One probe of the search for the thread's own id.
  function StepLook(s: State, t: nat, main: nat, table: nat, probes: nat): State
    requires WellFormed(s) && t < |s.threads| && table <= main < |s.tables|
  {
    var slot := At(s, t, table, probes);
    var key := s.tables[table].keys[slot];
    Goto(s, t,
         if key == Some(t) then
           if table != main then CopyLoad(main, s.tables[table].values[slot], 0) else Done(s.tables[table].values[slot])
         else if key.Some? then Look(main, table, probes + 1)
         else if table > 0 then Look(main, table - 1, 0)
         else Count(main))
  }

  function StepCount(s: State, t: nat, main: nat): State
    requires t < |s.threads|
  {
    var thread := s.threads[t].(pc := Test(main, s.count + 1), number := Some(s.count));
    s.(threads := s.threads[t := thread], count := s.count + 1)
  }

  // Under the resize flag: publish a bigger table, unless somebody else has.
  function StepResize(s: State, t: nat, main: nat, newCount: nat): State
    requires WellFormed(s) && t < |s.threads| && main < |s.tables|
  {
    var capacity := s.tables[main].capacity;
    if newCount >= capacity / 2 then
      Goto(s, t, Clear(|s.tables|, newCount)).(tables := s.tables + [EmptyTable(Grown(2 * capacity, newCount))])
    else Goto(s, t, Clear(main, newCount))
  }

  // Create the producer if there is room in the table, otherwise take the latest table and try again.
  function StepDecide(s: State, t: nat, main: nat, newCount: nat): State
    requires WellFormed(s) && t < |s.threads| && main < |s.tables|
  {
    if Room(newCount, s.tables[main].capacity) then
      var thread := s.threads[t].(pc := InsertLoad(main, Some(s.created), 0), producer := Some(s.created));
      s.(threads := s.threads[t := thread], created := s.created + 1)
    else Goto(s, t, Test(|s.tables| - 1, newCount))
  }

  function Init(hashed: seq<nat>): State {
    State([EmptyTable(INITIAL_IMPLICIT_PRODUCER_HASH_SIZE)], 0, None, 0,
          seq(|hashed|, t requires 0 <= t < |hashed| => Thread(Idle, hashed[t], None, None, None)))
  }

  // ---- linear probing ----

  // How many increments it takes from hashed to the slot.
  function Distance(hashed: nat, slot: nat, capacity: nat): (r: nat)
    requires slot < capacity
    ensures r < capacity
  {
    (slot - hashed) % capacity
  }

  lemma SlotOfDistance(hashed: nat, slot: nat, capacity: nat)
    requires slot < capacity
    ensures Slot(hashed, Distance(hashed, slot, capacity), capacity) == slot
  {
    var d := Distance(hashed, slot, capacity);
    var q, p := (slot - hashed) / capacity, (hashed + d) / capacity;
    assert hashed + d == capacity * p + Slot(hashed, d, capacity);
    assert capacity * (-q) == -(capacity * q);
    assert hashed + d == capacity * (-q) + slot;
    DivisionUnique(capacity, p, Slot(hashed, d, capacity), -q, slot);
  }

  ghost predicate Absent(table: Table, t: nat) {
    forall x :: 0 <= x < |table.keys| ==> table.keys[x] != Some(t)
  }

  ghost predicate Present(table: Table, t: nat) {
    exists x :: 0 <= x < |table.keys| && table.keys[x] == Some(t)
  }

  // The slots of the first probes are taken.
  ghost predicate Passed(table: Table, hashed: nat, probes: nat)
    requires Shaped(table)
  {
    forall j: nat :: j < probes ==> table.keys[Slot(hashed, j, table.capacity)].Some?
  }

  // ... none of them by t.
  ghost predicate PassedOthers(table: Table, hashed: nat, probes: nat, t: nat)
    requires Shaped(table)
  {
    forall j: nat :: j < probes ==>
      table.keys[Slot(hashed, j, table.capacity)].Some? && table.keys[Slot(hashed, j, table.capacity)] != Some(t)
  }

  // Every slot from where t starts up to its key is taken.
  ghost predicate Reachable(table: Table, hashed: nat, slot: nat)
    requires Shaped(table) && slot < table.capacity
  {
    Passed(table, hashed, Distance(hashed, slot, table.capacity))
  }

  // An empty slot ends the search: the id is not in the table.
  lemma SearchMisses(table: Table, hashed: nat, probes: nat, t: nat)
    requires Shaped(table) && PassedOthers(table, hashed, probes, t)
    requires table.keys[Slot(hashed, probes, table.capacity)].None?
    requires forall x :: 0 <= x < table.capacity && table.keys[x] == Some(t) ==> Reachable(table, hashed, x)
    ensures Absent(table, t)
  {
    forall x | 0 <= x < table.capacity
      ensures table.keys[x] != Some(t)
    {
      SlotOfDistance(hashed, x, table.capacity);
    }
  }

  lemma DistanceOfSlot(hashed: nat, probes: nat, capacity: nat)
    requires capacity > 0
    ensures Distance(hashed, Slot(hashed, probes, capacity), capacity) <= probes
  {
    if probes < capacity {
      var slot := Slot(hashed, probes, capacity);
      var d := Distance(hashed, slot, capacity);
      SlotOfDistance(hashed, slot, capacity);
      var p, q := (hashed + probes) / capacity, (hashed + d) / capacity;
      assert hashed + probes == capacity * p + slot && hashed + d == capacity * q + slot;
      assert capacity * (p - q) == probes - d;
      if p > q {
        AtLeastOnce(capacity, p - q);
      } else if q > p {
        assert capacity * (q - p) == d - probes;
        AtLeastOnce(capacity, q - p);
      }
    }
  }

  // ---- the invariant ----

  // The key is in its slot and its value is about to be stored.
  ghost predicate Storing(s: State, t: nat, table: nat, slot: nat)
    requires t < |s.threads| && table < |s.tables| && Shaped(s.tables[table])
  {
    match s.threads[t].pc
    case CopyStore(main, _, probes) => main == table && At(s, t, table, probes) == slot
    case InsertStore(main, _, probes) => main == table && At(s, t, table, probes) == slot
    case _ => false
  }

  // What a taken slot says: its thread's number leaves room in this table, and the value is its producer.
  ghost predicate EntryOk(s: State, i: nat, x: nat)
    requires i < |s.tables| && Shaped(s.tables[i]) && x < s.tables[i].capacity && s.tables[i].keys[x].Some?
  {
    var k := s.tables[i].keys[x].value;
    && k < |s.threads|
    && s.threads[k].number.Some? && Room(s.threads[k].number.value + 1, s.tables[i].capacity)
    && s.threads[k].producer.Some? && s.threads[k].home.Some?
    && (s.tables[i].values[x] == s.threads[k].producer || Storing(s, k, i, x))
    && Reachable(s.tables[i], s.threads[k].hashed, x)
  }

  ghost predicate KeyOnce(table: Table) {
    forall x, y :: 0 <= x < y < |table.keys| && table.keys[x].Some? ==> table.keys[x] != table.keys[y]
  }

  ghost predicate TablesOk(s: State) {
    && s.tables != []
    && (forall i :: 0 <= i < |s.tables| ==> Shaped(s.tables[i]) && KeyOnce(s.tables[i]))
    && (forall i, j :: 0 <= i < j < |s.tables| ==> s.tables[i].capacity <= s.tables[j].capacity)
  }

  ghost predicate EntriesOk(s: State)
    requires TablesOk(s)
  {
    forall i, x :: 0 <= i < |s.tables| && 0 <= x < s.tables[i].capacity && s.tables[i].keys[x].Some? ==>
      EntryOk(s, i, x)
  }

  predicate Registering(pc: Pc) {
    pc.Test? || pc.Reload? || pc.Resize? || pc.Clear? || pc.Decide? || pc.InsertLoad? || pc.InsertCas?
  }

  predicate HoldsFlag(pc: Pc) {
    pc.Reload? || pc.Resize? || pc.Clear?
  }

  ghost predicate Known(s: State, t: nat)
    requires t < |s.threads|
  {
    var thread := s.threads[t];
    && (thread.home.Some? ==> thread.home.value < |s.tables| && Present(s.tables[thread.home.value], t)
                              && thread.producer.Some? && thread.number.Some?)
    && (thread.home.None? ==> forall j :: 0 <= j < |s.tables| ==> Absent(s.tables[j], t))
    && (thread.home.None? && thread.number.Some? ==> Registering(thread.pc))
    && (thread.home.None? && thread.producer.Some? ==> thread.pc.InsertLoad? || thread.pc.InsertCas?)
    && (thread.number.Some? ==> thread.number.value < s.count)
    && (thread.producer.Some? ==> thread.producer.value < s.created)
    && (s.resizing == Some(t) <==> HoldsFlag(thread.pc))
  }

  // About to put the thread's entry into table main.
  ghost predicate Placing(s: State, t: nat, main: nat, value: Option<nat>, probes: nat)
    requires TablesOk(s) && t < |s.threads| && main < |s.tables|
  {
    && value.Some? && value == s.threads[t].producer && s.threads[t].number.Some?
    && Room(s.threads[t].number.value + 1, s.tables[main].capacity)
    && Absent(s.tables[main], t) && Passed(s.tables[main], s.threads[t].hashed, probes)
  }

  ghost predicate Placed(s: State, t: nat, main: nat, value: Option<nat>, probes: nat)
    requires TablesOk(s) && t < |s.threads| && main < |s.tables|
  {
    value.Some? && value == s.threads[t].producer && s.threads[t].home.Some?
      && s.tables[main].keys[At(s, t, main, probes)] == Some(t)
  }

  ghost predicate Counted(s: State, t: nat, newCount: nat)
    requires t < |s.threads|
  {
    newCount > 0 && s.threads[t].number == Some(newCount - 1) && s.threads[t].home.None? && s.threads[t].producer.None?
  }

  ghost predicate PcOk(s: State, t: nat)
    requires TablesOk(s) && t < |s.threads| && InRange(s, s.threads[t].pc)
  {
    match s.threads[t].pc
    case Idle | LoadMain => true
    case Look(main, table, probes) =>
      && PassedOthers(s.tables[table], s.threads[t].hashed, probes, t)
      && forall j :: table < j < |s.tables| ==> Absent(s.tables[j], t)
    case CopyLoad(main, value, probes) => s.threads[t].home.Some? && Placing(s, t, main, value, probes)
    case CopyCas(main, value, probes) => s.threads[t].home.Some? && Placing(s, t, main, value, probes)
    case CopyStore(main, value, probes) => Placed(s, t, main, value, probes)
    case Count(main) => s.threads[t].home.None? && s.threads[t].number.None?
    case Test(main, newCount) => Counted(s, t, newCount)
    case Reload(newCount) => Counted(s, t, newCount)
    case Resize(main, newCount) => Counted(s, t, newCount) && main == |s.tables| - 1
    case Clear(main, newCount) => Counted(s, t, newCount)
    case Decide(main, newCount) => Counted(s, t, newCount)
    case InsertLoad(main, value, probes) => s.threads[t].home.None? && Placing(s, t, main, value, probes)
    case InsertCas(main, value, probes) => s.threads[t].home.None? && Placing(s, t, main, value, probes)
    case InsertStore(main, value, probes) => Placed(s, t, main, value, probes)
    case Done(value) => value.Some? && value == s.threads[t].producer && s.threads[t].home.Some?
  }

  ghost predicate ThreadOk(s: State, t: nat)
    requires TablesOk(s) && t < |s.threads|
  {
    InRange(s, s.threads[t].pc) && Known(s, t) && PcOk(s, t)
  }

  ghost predicate Distinct(s: State) {
    && (forall t, u :: 0 <= t < u < |s.threads| && s.threads[t].number.Some? ==>
          s.threads[t].number != s.threads[u].number)
    && (forall t, u :: 0 <= t < u < |s.threads| && s.threads[t].producer.Some? ==>
          s.threads[t].producer != s.threads[u].producer)
  }

  ghost predicate Inv(s: State) {
    && TablesOk(s) && EntriesOk(s) && Distinct(s)
    && (forall t :: 0 <= t < |s.threads| ==> ThreadOk(s, t))
    && (s.resizing.Some? ==> s.resizing.value < |s.threads|)
  }

  lemma InvWellFormed(s: State)
    requires Inv(s)
    ensures WellFormed(s)
  {
    forall t | 0 <= t < |s.threads|
      ensures InRange(s, s.threads[t].pc)
    {
      assert ThreadOk(s, t);
    }
  }

  // ---- what a step of thread t leaves alone ----

  ghost predicate TableGrows(before: Table, after: Table, t: nat) {
    && after.capacity == before.capacity && |after.keys| == |before.keys|
       && |after.values| == |before.values| == |before.keys|
    && (forall x :: 0 <= x < |before.keys| ==>
          after.keys[x] == before.keys[x] || (before.keys[x].None? && after.keys[x] == Some(t)))
    && (forall x :: 0 <= x < |before.keys| ==> after.values[x] == before.values[x] || after.keys[x] == Some(t))
  }

  ghost predicate Grows(s: State, r: State, t: nat) {
    && |r.threads| == |s.threads| && t < |s.threads|
    && (forall u :: 0 <= u < |s.threads| && u != t ==> r.threads[u] == s.threads[u])
    && |s.tables| <= |r.tables| && (|s.tables| < |r.tables| ==> s.resizing == Some(t))
    && (forall i :: 0 <= i < |s.tables| ==> TableGrows(s.tables[i], r.tables[i], t))
    && (forall i :: |s.tables| <= i < |r.tables| ==>
          forall x :: 0 <= x < |r.tables[i].keys| ==> r.tables[i].keys[x].None?)
    && s.count <= r.count && s.created <= r.created
    && (forall u: nat :: u != t ==> (s.resizing == Some(u) <==> r.resizing == Some(u)))
  }

  lemma AbsentKept(before: Table, after: Table, t: nat, u: nat)
    requires TableGrows(before, after, t) && u != t
    ensures Absent(before, u) <==> Absent(after, u)
    ensures Present(before, u) ==> Present(after, u)
  {
    if Present(before, u) {
      var x :| 0 <= x < |before.keys| && before.keys[x] == Some(u);
      assert after.keys[x] == Some(u);
    }
    if Absent(after, u) {
      forall x | 0 <= x < |before.keys|
        ensures before.keys[x] != Some(u)
      {
        assert after.keys[x] != Some(u);
      }
    }
  }

  lemma PassedKept(before: Table, after: Table, t: nat, hashed: nat, probes: nat)
    requires Shaped(before) && Shaped(after) && TableGrows(before, after, t)
    ensures Passed(before, hashed, probes) ==> Passed(after, hashed, probes)
    ensures forall u: nat :: u != t && PassedOthers(before, hashed, probes, u) ==>
              PassedOthers(after, hashed, probes, u)
  {
    if Passed(before, hashed, probes) {
      forall j: nat | j < probes
        ensures after.keys[Slot(hashed, j, after.capacity)].Some?
      {
        assert before.keys[Slot(hashed, j, before.capacity)].Some?;
      }
    }
    forall u: nat | u != t && PassedOthers(before, hashed, probes, u)
      ensures PassedOthers(after, hashed, probes, u)
    {
      forall j: nat | j < probes
        ensures after.keys[Slot(hashed, j, after.capacity)].Some?
                && after.keys[Slot(hashed, j, after.capacity)] != Some(u)
      {
        assert before.keys[Slot(hashed, j, before.capacity)].Some?
               && before.keys[Slot(hashed, j, before.capacity)] != Some(u);
      }
    }
  }

  lemma KnownKept(s: State, r: State, t: nat, u: nat)
    requires Grows(s, r, t) && u < |s.threads| && u != t && Known(s, u)
    ensures Known(r, u)
  {
    forall i | 0 <= i < |s.tables|
      ensures Absent(s.tables[i], u) <==> Absent(r.tables[i], u)
      ensures Present(s.tables[i], u) ==> Present(r.tables[i], u)
    {
      AbsentKept(s.tables[i], r.tables[i], t, u);
    }
    forall i | |s.tables| <= i < |r.tables|
      ensures Absent(r.tables[i], u)
    {
    }
  }

  lemma PlacingKept(s: State, r: State, t: nat, u: nat, main: nat, value: Option<nat>, probes: nat)
    requires TablesOk(s) && TablesOk(r) && Grows(s, r, t) && u < |s.threads| && u != t && main < |s.tables|
    ensures Placing(s, u, main, value, probes) ==> Placing(r, u, main, value, probes)
    ensures Placed(s, u, main, value, probes) ==> Placed(r, u, main, value, probes)
  {
    AbsentKept(s.tables[main], r.tables[main], t, u);
    PassedKept(s.tables[main], r.tables[main], t, s.threads[u].hashed, probes);
  }

  lemma LookKept(s: State, r: State, t: nat, u: nat, table: nat, probes: nat)
    requires TablesOk(s) && TablesOk(r) && Grows(s, r, t) && u < |s.threads| && u != t && table < |s.tables|
    requires PassedOthers(s.tables[table], s.threads[u].hashed, probes, u)
    requires forall j :: table < j < |s.tables| ==> Absent(s.tables[j], u)
    ensures PassedOthers(r.tables[table], r.threads[u].hashed, probes, u)
    ensures forall j :: table < j < |r.tables| ==> Absent(r.tables[j], u)
  {
    PassedKept(s.tables[table], r.tables[table], t, s.threads[u].hashed, probes);
    forall j | table < j < |r.tables|
      ensures Absent(r.tables[j], u)
    {
      if j < |s.tables| {
        AbsentKept(s.tables[j], r.tables[j], t, u);
      }
    }
  }

  lemma OtherKept(s: State, r: State, t: nat, u: nat)
    requires TablesOk(s) && TablesOk(r) && Grows(s, r, t) && u < |s.threads| && u != t && ThreadOk(s, u)
    ensures ThreadOk(r, u)
  {
    KnownKept(s, r, t, u);
    match s.threads[u].pc
    case Look(main, table, probes) => LookKept(s, r, t, u, table, probes);
    case CopyLoad(main, value, probes) => PlacingKept(s, r, t, u, main, value, probes);
    case CopyCas(main, value, probes) => PlacingKept(s, r, t, u, main, value, probes);
    case CopyStore(main, value, probes) => PlacingKept(s, r, t, u, main, value, probes);
    case InsertLoad(main, value, probes) => PlacingKept(s, r, t, u, main, value, probes);
    case InsertCas(main, value, probes) => PlacingKept(s, r, t, u, main, value, probes);
    case InsertStore(main, value, probes) => PlacingKept(s, r, t, u, main, value, probes);
    case _ =>
  }

  // Entries of the other threads stay as they are.
  lemma EntryKept(s: State, r: State, t: nat, i: nat, x: nat)
    requires TablesOk(s) && TablesOk(r) && EntriesOk(s) && Grows(s, r, t)
    requires i < |r.tables| && x < r.tables[i].capacity && r.tables[i].keys[x].Some? && r.tables[i].keys[x] != Some(t)
    ensures EntryOk(r, i, x)
  {
    assert i < |s.tables| && r.tables[i].keys[x] == s.tables[i].keys[x];
    var k := s.tables[i].keys[x].value;
    assert EntryOk(s, i, x);
    PassedKept(s.tables[i], r.tables[i], t, s.threads[k].hashed,
      Distance(s.threads[k].hashed, x, s.tables[i].capacity));
  }

  ghost predicate OwnEntriesOk(s: State, t: nat)
    requires TablesOk(s)
  {
    forall i, x :: 0 <= i < |s.tables| && 0 <= x < s.tables[i].capacity && s.tables[i].keys[x] == Some(t) ==>
      EntryOk(s, i, x)
  }

  // What is left to show of a step: the thread that moved, its entries, and that numbers and producers stay distinct.
  lemma Assemble(s: State, r: State, t: nat)
    requires Inv(s) && TablesOk(r) && Grows(s, r, t) && ThreadOk(r, t) && OwnEntriesOk(r, t) && Distinct(r)
    ensures Inv(r)
  {
    forall u | 0 <= u < |r.threads|
      ensures ThreadOk(r, u)
    {
      if u != t {
        OtherKept(s, r, t, u);
      }
    }
    forall i, x | 0 <= i < |r.tables| && 0 <= x < r.tables[i].capacity && r.tables[i].keys[x].Some?
      ensures EntryOk(r, i, x)
    {
      if r.tables[i].keys[x] != Some(t) {
        EntryKept(s, r, t, i, x);
      }
    }
    if r.resizing.Some? && r.resizing.value != t {
      assert s.resizing == Some(r.resizing.value);
    }
  }

  // ---- steps that touch no table ----

  predicate IsStoring(pc: Pc) {
    pc.CopyStore? || pc.InsertStore?
  }

  // Only the thread's pc and perhaps the flag change.
  lemma LocalMove(s: State, r: State, t: nat, pc: Pc)
    requires Inv(s) && t < |s.threads| && !IsStoring(s.threads[t].pc)
    requires r == s.(threads := s.threads[t := s.threads[t].(pc := pc)], resizing := r.resizing) && TablesOk(r)
    requires forall u: nat :: u != t ==> (s.resizing == Some(u) <==> r.resizing == Some(u))
    requires InRange(r, pc) && PcOk(r, t) && (r.resizing == Some(t) <==> HoldsFlag(pc))
    requires s.threads[t].home.None? && s.threads[t].number.Some? ==> Registering(pc)
    requires s.threads[t].home.None? && s.threads[t].producer.Some? ==> pc.InsertLoad? || pc.InsertCas?
    ensures Inv(r)
  {
    LocalKept(s, r, t, pc);
    assert ThreadOk(s, t);
    Assemble(s, r, t);
  }

  lemma LocalKept(s: State, r: State, t: nat, pc: Pc)
    requires TablesOk(s) && EntriesOk(s) && Distinct(s) && t < |s.threads| && !IsStoring(s.threads[t].pc)
    requires r == s.(threads := s.threads[t := s.threads[t].(pc := pc)], resizing := r.resizing) && TablesOk(r)
    ensures OwnEntriesOk(r, t) && Distinct(r)
  {
    forall i, x | 0 <= i < |r.tables| && 0 <= x < r.tables[i].capacity && r.tables[i].keys[x] == Some(t)
      ensures EntryOk(r, i, x)
    {
      assert EntryOk(s, i, x);
    }
    assert forall u :: 0 <= u < |s.threads| ==>
        r.threads[u].number == s.threads[u].number && r.threads[u].producer == s.threads[u].producer;
  }

  lemma RoomGrows(s: State, i: nat, j: nat, newCount: nat)
    requires TablesOk(s) && i <= j < |s.tables| && Room(newCount, s.tables[i].capacity)
    ensures Room(newCount, s.tables[j].capacity)
  {
    assert s.tables[i].capacity <= s.tables[j].capacity;
  }

  lemma LookInv(s: State, t: nat, main: nat, table: nat, probes: nat)
    requires Inv(s) && t < |s.threads| && s.threads[t].pc == Look(main, table, probes) && WellFormed(s)
    requires InRange(s, s.threads[t].pc)
    ensures Inv(StepLook(s, t, main, table, probes))
  {
    var slot := At(s, t, table, probes);
    var key := s.tables[table].keys[slot];
    var r := StepLook(s, t, main, table, probes);
    assert ThreadOk(s, t);
    if key == Some(t) {
      LookFinds(s, t, main, table, slot);
    } else if key.Some? {
      LocalMove(s, r, t, Look(main, table, probes + 1));
    } else {
      LookMisses(s, t, main, table, probes);
    }
  }

  lemma LookFinds(s: State, t: nat, main: nat, table: nat, slot: nat)
    requires Inv(s) && t < |s.threads| && s.threads[t].pc.Look? && table <= main < |s.tables|
             && slot < s.tables[table].capacity
    requires s.tables[table].keys[slot] == Some(t)
    requires forall j :: table < j < |s.tables| ==> Absent(s.tables[j], t)
    ensures var value := s.tables[table].values[slot];
      Inv(Goto(s, t, if table != main then CopyLoad(main, value, 0) else Done(value)))
  {
    assert ThreadOk(s, t) && EntryOk(s, table, slot);
    var value := s.tables[table].values[slot];
    var pc := if table != main then CopyLoad(main, value, 0) else Done(value);
    RoomGrows(s, table, main, s.threads[t].number.value + 1);
    LocalMove(s, Goto(s, t, pc), t, pc);
  }

  // An empty slot: the thread has no entry in this table, and it had none in the newer ones.
  lemma MissedHere(s: State, t: nat, main: nat, table: nat, probes: nat)
    requires Inv(s) && t < |s.threads| && s.threads[t].pc == Look(main, table, probes) && table <= main < |s.tables|
    requires s.tables[table].keys[At(s, t, table, probes)].None?
    ensures forall j :: table <= j < |s.tables| ==> Absent(s.tables[j], t)
  {
    assert ThreadOk(s, t);
    forall x | 0 <= x < s.tables[table].capacity && s.tables[table].keys[x] == Some(t)
      ensures Reachable(s.tables[table], s.threads[t].hashed, x)
    {
      assert EntryOk(s, table, x);
    }
    SearchMisses(s.tables[table], s.threads[t].hashed, probes, t);
  }

  lemma LookMisses(s: State, t: nat, main: nat, table: nat, probes: nat)
    requires Inv(s) && t < |s.threads| && s.threads[t].pc == Look(main, table, probes) && table <= main < |s.tables|
    requires s.tables[table].keys[At(s, t, table, probes)].None?
    ensures Inv(Goto(s, t, if table > 0 then Look(main, table - 1, 0) else Count(main)))
  {
    assert ThreadOk(s, t);
    MissedHere(s, t, main, table, probes);
    var pc := if table > 0 then Look(main, table - 1, 0) else Count(main);
    LocalMove(s, Goto(s, t, pc), t, pc);
  }

  // A taken slot is passed.
  lemma PassOne(s: State, t: nat, main: nat, value: Option<nat>, probes: nat)
    requires TablesOk(s) && t < |s.threads| && main < |s.tables| && Placing(s, t, main, value, probes)
    requires s.tables[main].keys[At(s, t, main, probes)].Some?
    ensures Placing(s, t, main, value, probes + 1)
  {
  }

  // CopyLoad and InsertLoad, and their compare-and-swaps when they fail.
  lemma PlaceNext(s: State, t: nat, main: nat, value: Option<nat>, probes: nat, pc: Pc)
    requires Inv(s) && t < |s.threads| && main < |s.tables| && Placing(s, t, main, value, probes)
    requires var now := s.threads[t].pc;
      if s.threads[t].home.Some? then now.CopyLoad? || now.CopyCas? else now.InsertLoad? || now.InsertCas?
    requires
      var taken := s.tables[main].keys[At(s, t, main, probes)].Some?;
      if s.threads[t].home.Some? then
        (taken && pc == CopyLoad(main, value, probes + 1)) || (!taken && pc == CopyCas(main, value, probes))
      else (taken && pc == InsertLoad(main, value, probes + 1)) || (!taken && pc == InsertCas(main, value, probes))
    ensures Inv(Goto(s, t, pc))
  {
    assert ThreadOk(s, t);
    if s.tables[main].keys[At(s, t, main, probes)].Some? {
      PassOne(s, t, main, value, probes);
    }
    var r := Goto(s, t, pc);
    assert Placing(r, t, main, value, if pc.CopyLoad? || pc.InsertLoad? then probes + 1 else probes);
    LocalMove(s, r, t, pc);
  }

  lemma NoEntries(s: State, t: nat, r: State)
    requires TablesOk(s) && t < |s.threads| && Known(s, t) && s.threads[t].home.None? && TablesOk(r)
             && r.tables == s.tables
    ensures OwnEntriesOk(r, t)
  {
    assert forall i :: 0 <= i < |s.tables| ==> Absent(s.tables[i], t);
  }

  lemma CountInv(s: State, t: nat, main: nat)
    requires Inv(s) && t < |s.threads| && s.threads[t].pc == Count(main)
    ensures Inv(StepCount(s, t, main))
  {
    var r := StepCount(s, t, main);
    assert ThreadOk(s, t);
    NoEntries(s, t, r);
    forall u | 0 <= u < |s.threads| && s.threads[u].number.Some?
      ensures s.threads[u].number.value < s.count
    {
      assert ThreadOk(s, u);
    }
    Assemble(s, r, t);
  }

  lemma DecideInv(s: State, t: nat, main: nat, newCount: nat)
    requires Inv(s) && WellFormed(s) && t < |s.threads| && s.threads[t].pc == Decide(main, newCount)
             && main < |s.tables|
    ensures Inv(StepDecide(s, t, main, newCount))
  {
    assert ThreadOk(s, t);
    if Room(newCount, s.tables[main].capacity) {
      CreateInv(s, t, main, newCount);
    } else {
      LocalMove(s, StepDecide(s, t, main, newCount), t, Test(|s.tables| - 1, newCount));
    }
  }

  lemma CreateInv(s: State, t: nat, main: nat, newCount: nat)
    requires Inv(s) && WellFormed(s) && t < |s.threads| && s.threads[t].pc == Decide(main, newCount)
             && main < |s.tables|
    requires Room(newCount, s.tables[main].capacity)
    ensures Inv(StepDecide(s, t, main, newCount))
  {
    var r := StepDecide(s, t, main, newCount);
    assert ThreadOk(s, t);
    NoEntries(s, t, r);
    forall u | 0 <= u < |s.threads| && s.threads[u].producer.Some?
      ensures s.threads[u].producer.value < s.created
    {
      assert ThreadOk(s, u);
    }
    assert Placing(r, t, main, Some(s.created), 0);
    Assemble(s, r, t);
  }

  // ---- steps that write to a table ----

  lemma {:induction false} GrownAtLeast(capacity: nat, newCount: nat)
    requires capacity > 0
    ensures Grown(capacity, newCount) >= capacity && newCount < Grown(capacity, newCount) / 2
    decreases newCount + 1 - capacity / 2
  {
    if newCount >= capacity / 2 {
      GrownAtLeast(2 * capacity, newCount);
    }
  }

  lemma ResizeInv(s: State, t: nat, main: nat, newCount: nat)
    requires Inv(s) && WellFormed(s) && t < |s.threads| && s.threads[t].pc == Resize(main, newCount)
             && main < |s.tables|
    ensures Inv(StepResize(s, t, main, newCount))
  {
    assert ThreadOk(s, t);
    if newCount >= s.tables[main].capacity / 2 {
      PublishInv(s, t, main, newCount);
    } else {
      LocalMove(s, StepResize(s, t, main, newCount), t, Clear(main, newCount));
    }
  }

  lemma PublishInv(s: State, t: nat, main: nat, newCount: nat)
    requires Inv(s) && WellFormed(s) && t < |s.threads| && s.threads[t].pc == Resize(main, newCount)
             && main < |s.tables|
    requires newCount >= s.tables[main].capacity / 2
    ensures Inv(StepResize(s, t, main, newCount))
  {
    var r := StepResize(s, t, main, newCount);
    assert ThreadOk(s, t);
    var capacity := s.tables[main].capacity;
    GrownAtLeast(2 * capacity, newCount);
    NewTable(s, r, EmptyTable(Grown(2 * capacity, newCount)), t);
    Assemble(s, r, t);
  }

  lemma NewTable(s: State, r: State, table: Table, t: nat)
    requires TablesOk(s) && r.tables == s.tables + [table] && table == EmptyTable(table.capacity)
    requires table.capacity >= s.tables[|s.tables| - 1].capacity
    ensures TablesOk(r)
    ensures forall i :: 0 <= i < |s.tables| ==> TableGrows(s.tables[i], r.tables[i], t)
    ensures (forall i :: 0 <= i < |s.tables| ==> Absent(s.tables[i], t)) ==>
              OwnEntriesOk(r, t) && forall i :: 0 <= i < |r.tables| ==> Absent(r.tables[i], t)
  {
  }

  lemma KeyTables(s: State, t: nat, main: nat, slot: nat, pc: Pc, home: Option<nat>)
    requires TablesOk(s) && t < |s.threads| && main < |s.tables| && slot < s.tables[main].capacity
    requires Absent(s.tables[main], t) && s.tables[main].keys[slot].None?
    ensures TablesOk(WithKey(s, t, main, slot, pc, home))
    ensures forall i :: 0 <= i < |s.tables| ==>
              TableGrows(s.tables[i], WithKey(s, t, main, slot, pc, home).tables[i], t)
  {
  }

  lemma NewEntry(s: State, t: nat, main: nat, value: Option<nat>, probes: nat, pc: Pc, home: Option<nat>)
    requires TablesOk(s) && t < |s.threads| && main < |s.tables| && Placing(s, t, main, value, probes) && home.Some?
    requires s.tables[main].keys[At(s, t, main, probes)].None?
    requires pc == CopyStore(main, value, probes) || pc == InsertStore(main, value, probes)
    ensures var slot := At(s, t, main, probes); var r := WithKey(s, t, main, slot, pc, home);
      TablesOk(r) && EntryOk(r, main, slot) && Placed(r, t, main, value, probes)
  {
    var slot := At(s, t, main, probes);
    var r := WithKey(s, t, main, slot, pc, home);
    KeyTables(s, t, main, slot, pc, home);
    var hashed := s.threads[t].hashed;
    DistanceOfSlot(hashed, probes, s.tables[main].capacity);
    PassedKept(s.tables[main], r.tables[main], t, hashed, Distance(hashed, slot, s.tables[main].capacity));
  }

  lemma CopyCasInv(s: State, t: nat, main: nat, value: Option<nat>, probes: nat)
    requires Inv(s) && t < |s.threads| && s.threads[t].pc == CopyCas(main, value, probes) && main < |s.tables|
    requires s.tables[main].keys[At(s, t, main, probes)].None?
    ensures Inv(WithKey(s, t, main, At(s, t, main, probes), CopyStore(main, value, probes), s.threads[t].home))
  {
    var slot := At(s, t, main, probes);
    var r := WithKey(s, t, main, slot, CopyStore(main, value, probes), s.threads[t].home);
    assert ThreadOk(s, t);
    NewEntry(s, t, main, value, probes, CopyStore(main, value, probes), s.threads[t].home);
    KeyTables(s, t, main, slot, CopyStore(main, value, probes), s.threads[t].home);
    forall i, x | 0 <= i < |r.tables| && 0 <= x < r.tables[i].capacity && r.tables[i].keys[x] == Some(t)
      ensures EntryOk(r, i, x)
    {
      if i != main {
        assert EntryOk(s, i, x);
      }
    }
    assert Distinct(r);
    assert Present(r.tables[s.threads[t].home.value], t);
    Assemble(s, r, t);
  }

  lemma InsertCasInv(s: State, t: nat, main: nat, value: Option<nat>, probes: nat)
    requires Inv(s) && t < |s.threads| && s.threads[t].pc == InsertCas(main, value, probes) && main < |s.tables|
    requires s.tables[main].keys[At(s, t, main, probes)].None?
    ensures Inv(WithKey(s, t, main, At(s, t, main, probes), InsertStore(main, value, probes), Some(main)))
  {
    var slot := At(s, t, main, probes);
    var r := WithKey(s, t, main, slot, InsertStore(main, value, probes), Some(main));
    assert ThreadOk(s, t);
    NewEntry(s, t, main, value, probes, InsertStore(main, value, probes), Some(main));
    KeyTables(s, t, main, slot, InsertStore(main, value, probes), Some(main));
    assert forall i :: 0 <= i < |s.tables| ==> Absent(s.tables[i], t);
    assert forall i, x :: 0 <= i < |r.tables| && 0 <= x < r.tables[i].capacity && r.tables[i].keys[x] == Some(t) ==>
           i == main && x == slot;
    assert Distinct(r);
    assert r.tables[main].keys[slot] == Some(t);
    Assemble(s, r, t);
  }

  // Both stores of the value beside the key.
  lemma StoreInv(s: State, t: nat, main: nat, value: Option<nat>, probes: nat)
    requires Inv(s) && t < |s.threads| && main < |s.tables|
    requires s.threads[t].pc == CopyStore(main, value, probes) || s.threads[t].pc == InsertStore(main, value, probes)
    ensures Inv(SetValue(Goto(s, t, Done(value)), main, At(s, t, main, probes), value))
  {
    var slot := At(s, t, main, probes);
    var r := SetValue(Goto(s, t, Done(value)), main, slot, value);
    assert ThreadOk(s, t);
    StoreTables(s, r, t, main, value, probes);
    StoreEntries(s, r, t, main, value, probes);
    StoreThread(s, r, t, main, value, probes);
    Assemble(s, r, t);
  }

  lemma StoreTables(s: State, r: State, t: nat, main: nat, value: Option<nat>, probes: nat)
    requires TablesOk(s) && Distinct(s) && t < |s.threads| && main < |s.tables| && Placed(s, t, main, value, probes)
    requires r == SetValue(Goto(s, t, Done(value)), main, At(s, t, main, probes), value)
    ensures TablesOk(r) && Grows(s, r, t) && Distinct(r)
  {
  }

  lemma StoreEntries(s: State, r: State, t: nat, main: nat, value: Option<nat>, probes: nat)
    requires TablesOk(s) && EntriesOk(s) && t < |s.threads| && main < |s.tables| && Placed(s, t, main, value, probes)
    requires s.threads[t].pc == CopyStore(main, value, probes) || s.threads[t].pc == InsertStore(main, value, probes)
    requires r == SetValue(Goto(s, t, Done(value)), main, At(s, t, main, probes), value) && TablesOk(r)
    ensures OwnEntriesOk(r, t)
  {
    forall i, x | 0 <= i < |r.tables| && 0 <= x < r.tables[i].capacity && r.tables[i].keys[x] == Some(t)
      ensures EntryOk(r, i, x)
    {
      assert EntryOk(s, i, x);
    }
  }

  lemma StoreThread(s: State, r: State, t: nat, main: nat, value: Option<nat>, probes: nat)
    requires TablesOk(s) && t < |s.threads| && main < |s.tables| && Placed(s, t, main, value, probes) && Known(s, t)
    requires s.threads[t].pc == CopyStore(main, value, probes) || s.threads[t].pc == InsertStore(main, value, probes)
    requires r == SetValue(Goto(s, t, Done(value)), main, At(s, t, main, probes), value) && TablesOk(r)
    ensures ThreadOk(r, t)
  {
    var home := s.threads[t].home.value;
    var x :| 0 <= x < |s.tables[home].keys| && s.tables[home].keys[x] == Some(t);
    assert r.tables[home].keys[x] == Some(t);
  }

  // The steps that only move the thread's pc, or take or clear the flag.
  lemma LocalInv(s: State, m: Move)
    requires Inv(s) && WellFormed(s) && Enabled(s, m)
    requires var pc := s.threads[m.t].pc; pc.Idle? || pc.LoadMain? || pc.Done?
    ensures Inv(Step(s, m))
  {
    var t := m.t;
    var r := Step(s, m);
    assert ThreadOk(s, t);
    LocalMove(s, r, t, r.threads[t].pc);
  }

  lemma FlagInv(s: State, m: Move)
    requires Inv(s) && WellFormed(s) && Enabled(s, m)
    requires var pc := s.threads[m.t].pc; pc.Test? || pc.Reload? || pc.Clear?
    ensures Inv(Step(s, m))
  {
    var t := m.t;
    var r := Step(s, m);
    assert ThreadOk(s, t);
    LocalMove(s, r, t, r.threads[t].pc);
  }

  lemma CopyingInv(s: State, m: Move)
    requires Inv(s) && WellFormed(s) && Enabled(s, m) && (s.threads[m.t].pc.CopyLoad? || s.threads[m.t].pc.CopyCas?)
    ensures Inv(Step(s, m))
  {
    var t := m.t;
    var pc := s.threads[t].pc;
    assert ThreadOk(s, t);
    if pc.CopyCas? && s.tables[pc.main].keys[At(s, t, pc.main, pc.probes)].None? {
      CopyCasInv(s, t, pc.main, pc.value, pc.probes);
    } else {
      PlaceNext(s, t, pc.main, pc.value, pc.probes, Step(s, m).threads[t].pc);
    }
  }

  lemma InsertingInv(s: State, m: Move)
    requires Inv(s) && WellFormed(s) && Enabled(s, m) && (s.threads[m.t].pc.InsertLoad? || s.threads[m.t].pc.InsertCas?)
    ensures Inv(Step(s, m))
  {
    var t := m.t;
    var pc := s.threads[t].pc;
    assert ThreadOk(s, t);
    if pc.InsertCas? && s.tables[pc.main].keys[At(s, t, pc.main, pc.probes)].None? {
      InsertCasInv(s, t, pc.main, pc.value, pc.probes);
    } else {
      PlaceNext(s, t, pc.main, pc.value, pc.probes, Step(s, m).threads[t].pc);
    }
  }

  lemma StepInv(s: State, m: Move)
    requires Inv(s) && WellFormed(s) && Enabled(s, m)
    ensures Inv(Step(s, m)) && WellFormed(Step(s, m))
  {
    var t := m.t;
    assert InRange(s, s.threads[t].pc);
    match s.threads[t].pc {
      case Look(main, table, probes) => LookInv(s, t, main, table, probes);
      case CopyStore(main, value, probes) => StoreInv(s, t, main, value, probes);
      case Count(main) => CountInv(s, t, main);
      case Resize(main, newCount) => ResizeInv(s, t, main, newCount);
      case Decide(main, newCount) => DecideInv(s, t, main, newCount);
      case InsertStore(main, value, probes) => StoreInv(s, t, main, value, probes);
      case CopyLoad(_, _, _) => CopyingInv(s, m);
      case CopyCas(_, _, _) => CopyingInv(s, m);
      case InsertLoad(_, _, _) => InsertingInv(s, m);
      case InsertCas(_, _, _) => InsertingInv(s, m);
      case Test(_, _) => FlagInv(s, m);
      case Reload(_) => FlagInv(s, m);
      case Clear(_, _) => FlagInv(s, m);
      case _ => LocalInv(s, m);
    }
    InvWellFormed(Step(s, m));
  }

  // ---- runs ----

  lemma InitInv(hashed: seq<nat>)
    ensures Inv(Init(hashed)) && WellFormed(Init(hashed))
  {
  }

  // From the initial state by enabled steps only.
  ghost predicate Run(states: seq<State>, moves: seq<Move>, hashed: seq<nat>) {
    && |states| == |moves| + 1 && states[0] == Init(hashed)
    && forall i :: 0 <= i < |moves| ==>
         WellFormed(states[i]) && Enabled(states[i], moves[i]) && states[i + 1] == Step(states[i], moves[i])
  }

  lemma {:induction false} RunInv(states: seq<State>, moves: seq<Move>, hashed: seq<nat>, i: nat)
    requires Run(states, moves, hashed) && i < |states|
    ensures Inv(states[i]) && WellFormed(states[i])
  {
    if i == 0 {
      InitInv(hashed);
    } else {
      RunInv(states, moves, hashed, i - 1);
      StepInv(states[i - 1], moves[i - 1]);
    }
  }

  /** There is a run for any threads with any hash values, and every enabled step carries a run on. */
  lemma RunGoesOn(states: seq<State>, moves: seq<Move>, hashed: seq<nat>, m: Move)
    ensures Run([Init(hashed)], [], hashed)
    ensures Run(states, moves, hashed) ==>
              && WellFormed(states[|moves|])
              && (Enabled(states[|moves|], m) ==> Run(states + [Step(states[|moves|], m)], moves + [m], hashed))
  {
    if Run(states, moves, hashed) {
      RunInv(states, moves, hashed, |moves|);
      if Enabled(states[|moves|], m) {
        var longer, more := states + [Step(states[|moves|], m)], moves + [m];
        forall i | 0 <= i < |more|
          ensures WellFormed(longer[i]) && Enabled(longer[i], more[i]) && longer[i + 1] == Step(longer[i], more[i])
        {
          if i < |moves| {
            assert longer[i] == states[i] && longer[i + 1] == states[i + 1] && more[i] == moves[i];
          }
        }
      }
    }
  }

  // ---- room in every table ----

  // The taken slots of a table.
  ghost function Taken(table: Table): set<nat> {
    set x: nat | x < |table.keys| && table.keys[x].Some?
  }

  lemma {:induction false} InjectiveSize(slots: set<nat>, number: map<nat, nat>, bound: nat)
    requires slots <= number.Keys && forall x :: x in slots ==> number[x] < bound
    requires forall x, y :: x in slots && y in slots && number[x] == number[y] ==> x == y
    ensures |slots| <= bound
    decreases bound
  {
    if bound == 0 {
      assert slots == {};
    } else if x :| x in slots && number[x] == bound - 1 {
      InjectiveSize(slots - {x}, number, bound - 1);
    } else {
      InjectiveSize(slots, number, bound - 1);
    }
  }

  lemma {:induction false} FullSize(keys: seq<Option<nat>>, n: nat)
    requires n <= |keys| && forall x :: 0 <= x < n ==> keys[x].Some?
    ensures |set x: nat | x < n && keys[x].Some?| == n
  {
    if n > 0 {
      FullSize(keys, n - 1);
      assert (set x: nat | x < n && keys[x].Some?) == (set x: nat | x < n - 1 && keys[x].Some?) + {n - 1};
    }
  }

  lemma NumberOfEntry(s: State, i: nat, x: nat)
    requires Inv(s) && i < |s.tables| && x < s.tables[i].capacity && s.tables[i].keys[x].Some?
    ensures s.tables[i].keys[x].value < |s.threads| && s.threads[s.tables[i].keys[x].value].number.Some?
    ensures Room(s.threads[s.tables[i].keys[x].value].number.value + 1, s.tables[i].capacity)
  {
    assert EntryOk(s, i, x);
  }

  /** Every entry of a table belongs to a thread whose registration number is below three quarters of its capacity, and
      the numbers differ: so fewer than three quarters of the slots are taken and some slot is empty. */
  lemma EmptySlot(s: State, i: nat)
    requires Inv(s) && i < |s.tables|
    ensures Room(|Taken(s.tables[i])|, s.tables[i].capacity)
    ensures exists x :: 0 <= x < s.tables[i].capacity && s.tables[i].keys[x].None?
  {
    var table := s.tables[i];
    assert Shaped(table);
    var taken := Taken(table);
    forall x | x in taken
      ensures table.keys[x].value < |s.threads| && s.threads[table.keys[x].value].number.Some?
      ensures Room(s.threads[table.keys[x].value].number.value + 1, table.capacity)
    {
      NumberOfEntry(s, i, x);
    }
    var number := map x | x in taken :: s.threads[table.keys[x].value].number.value;
    InjectiveSize(taken, number, table.capacity / 2 + table.capacity / 4 - 1);
    if forall x :: 0 <= x < table.capacity ==> table.keys[x].Some? {
      FullSize(table.keys, table.capacity);
    }
  }

  /** Every probe loop ends: a search or an insertion has looked at fewer slots than the table has. */
  lemma ProbesEnd(s: State, t: nat)
    requires Inv(s) && t < |s.threads|
    ensures
      match s.threads[t].pc
      case Look(_, table, probes) => table < |s.tables| && probes < s.tables[table].capacity
      case CopyLoad(main, _, probes) => main < |s.tables| && probes < s.tables[main].capacity
      case CopyCas(main, _, probes) => main < |s.tables| && probes < s.tables[main].capacity
      case InsertLoad(main, _, probes) => main < |s.tables| && probes < s.tables[main].capacity
      case InsertCas(main, _, probes) => main < |s.tables| && probes < s.tables[main].capacity
      case _ => true
  {
    assert ThreadOk(s, t);
    var pc := s.threads[t].pc;
    match pc
    case Look(_, table, probes) => PassedBound(s, table, s.threads[t].hashed, probes);
    case CopyLoad(main, _, probes) => PassedBound(s, main, s.threads[t].hashed, probes);
    case CopyCas(main, _, probes) => PassedBound(s, main, s.threads[t].hashed, probes);
    case InsertLoad(main, _, probes) => PassedBound(s, main, s.threads[t].hashed, probes);
    case InsertCas(main, _, probes) => PassedBound(s, main, s.threads[t].hashed, probes);
    case _ =>
  }

  lemma PassedBound(s: State, i: nat, hashed: nat, probes: nat)
    requires Inv(s) && i < |s.tables| && Passed(s.tables[i], hashed, probes)
    ensures probes < s.tables[i].capacity
  {
    EmptySlot(s, i);
    var x :| 0 <= x < s.tables[i].capacity && s.tables[i].keys[x].None?;
    SlotOfDistance(hashed, x, s.tables[i].capacity);
  }

  // ---- one producer per thread ----

  /** What a call returns is the thread's own producer, which no other thread ever has; its key is at most once in any
      table. */
  lemma OwnProducer(s: State, t: nat, u: nat)
    requires Inv(s) && t < |s.threads| && u < |s.threads| && t != u
    ensures s.threads[t].pc.Done? ==> s.threads[t].pc.value.Some? && s.threads[t].pc.value == s.threads[t].producer
    ensures s.threads[t].producer.Some? ==> s.threads[t].producer != s.threads[u].producer
    ensures forall i, x, y :: 0 <= i < |s.tables| && 0 <= x < y < s.tables[i].capacity ==>
              !(s.tables[i].keys[x] == s.tables[i].keys[y] == Some(t))
  {
    assert ThreadOk(s, t);
  }

  lemma StepKeepsProducer(s: State, m: Move, t: nat)
    requires Inv(s) && WellFormed(s) && Enabled(s, m) && t < |s.threads| && s.threads[t].producer.Some?
    ensures t < |Step(s, m).threads| && Step(s, m).threads[t].producer == s.threads[t].producer
  {
    assert ThreadOk(s, t) && InRange(s, s.threads[m.t].pc);
  }

  lemma {:induction false} RunKeepsProducer(states: seq<State>, moves: seq<Move>, hashed: seq<nat>, i: nat, j: nat,
                                            t: nat)
    requires Run(states, moves, hashed) && i <= j < |states| && t < |states[i].threads|
             && states[i].threads[t].producer.Some?
    ensures t < |states[j].threads| && states[j].threads[t].producer == states[i].threads[t].producer
  {
    if i < j {
      RunKeepsProducer(states, moves, hashed, i, j - 1, t);
      RunInv(states, moves, hashed, j - 1);
      StepKeepsProducer(states[j - 1], moves[j - 1], t);
    }
  }

  /** Whenever a thread calls, it gets the producer it got before, and never one another thread gets. */
  lemma SameProducerForever(states: seq<State>, moves: seq<Move>, hashed: seq<nat>, i: nat, t: nat, j: nat, u: nat)
    requires Run(states, moves, hashed) && i <= j < |states|
    requires t < |states[i].threads| && states[i].threads[t].pc.Done? && u < |states[j].threads|
             && states[j].threads[u].pc.Done?
    ensures states[i].threads[t].pc.value == states[j].threads[u].pc.value <==> t == u
  {
    RunInv(states, moves, hashed, i);
    RunInv(states, moves, hashed, j);
    assert ThreadOk(states[i], t) && ThreadOk(states[j], u);
    RunKeepsProducer(states, moves, hashed, i, j, t);
    if t != u {
      OwnProducer(states[j], t, u);
    }
  }

  // ---- a call that is not held up by another thread's resizing ends ----

  ghost predicate NoneElseResizes(s: State, t: nat) {
    s.resizing.None? || s.resizing == Some(t)
  }

  // Which part of the call is still to come, the last first. A count that finds no room in its table is sent back
  // to the test, and with the flag free on to a table that has room.
  function Stage(s: State, pc: Pc): nat
    requires WellFormed(s) && InRange(s, pc)
  {
    match pc
    case Done(_) => 0
    case CopyStore(_, _, _) => 1
    case CopyLoad(_, _, _) => 2
    case CopyCas(_, _, _) => 2
    case InsertStore(_, _, _) => 3
    case InsertLoad(_, _, _) => 4
    case InsertCas(_, _, _) => 4
    case Decide(main, newCount) => if Room(newCount, s.tables[main].capacity) then 5 else 10
    case Clear(main, newCount) => if Room(newCount, s.tables[main].capacity) then 6 else 11
    case Resize(_, _) => 7
    case Reload(_) => 8
    case Test(_, _) => 9
    case Count(_) => 12
    case Look(_, _, _) => 13
    case LoadMain => 14
    case Idle => 15
  }

  function Older(pc: Pc): nat {
    if pc.Look? then pc.table else 0
  }

  // Accesses left in the probe loop: the probes not made yet, and a CAS or a load for each.
  function ToProbe(s: State, pc: Pc): int
    requires WellFormed(s) && InRange(s, pc)
  {
    match pc
    case Look(_, table, probes) => s.tables[table].capacity - probes
    case CopyLoad(main, _, probes) => 2 * (s.tables[main].capacity - probes)
    case CopyCas(main, _, probes) => 2 * (s.tables[main].capacity - probes) - 1
    case InsertLoad(main, _, probes) => 2 * (s.tables[main].capacity - probes)
    case InsertCas(main, _, probes) => 2 * (s.tables[main].capacity - probes) - 1
    case _ => 0
  }

  predicate Nearer(s: State, t: nat, r: State)
    requires WellFormed(s) && t < |s.threads|
  {
    assert InRange(s, s.threads[t].pc);
    WellFormed(r) && t < |r.threads|
    && (assert InRange(r, r.threads[t].pc);
        var was, now := s.threads[t].pc, r.threads[t].pc;
        || Stage(r, now) < Stage(s, was)
        || (Stage(r, now) == Stage(s, was) && Older(now) < Older(was))
        || (Stage(r, now) == Stage(s, was) && Older(now) == Older(was) && ToProbe(r, now) < ToProbe(s, was)))
  }

  ghost predicate Continues(s: State, t: nat, r: State) {
    WellFormed(s) && Enabled(s, Continue(t)) && r == Step(s, Continue(t)) && WellFormed(r)
  }

  lemma SearchNearer(s: State, t: nat, r: State)
    requires Inv(s) && Continues(s, t, r)
    requires s.threads[t].pc.LoadMain? || s.threads[t].pc.Look? || s.threads[t].pc.Count?
    ensures Nearer(s, t, r)
  {
    assert InRange(s, s.threads[t].pc);
  }

  // The test sends a count that fills half of its table to the resize, so that a count it lets pass has room.
  lemma TestNearer(s: State, t: nat, r: State)
    requires Inv(s) && Continues(s, t, r)
    requires s.threads[t].pc.Test? && NoneElseResizes(s, t)
    ensures Nearer(s, t, r)
  {
    assert InRange(s, s.threads[t].pc) && ThreadOk(s, t) && Known(s, t);
  }

  lemma ResizeNearer(s: State, t: nat, r: State, main: nat, newCount: nat)
    requires Inv(s) && WellFormed(s) && t < |s.threads| && main < |s.tables| && WellFormed(r)
    requires s.threads[t].pc == Resize(main, newCount) && r == StepResize(s, t, main, newCount)
    ensures Nearer(s, t, r)
  {
    GrownAtLeast(2 * s.tables[main].capacity, newCount);
  }

  lemma DecideNearer(s: State, t: nat, r: State, main: nat, newCount: nat)
    requires Inv(s) && WellFormed(s) && t < |s.threads| && main < |s.tables| && WellFormed(r)
    requires s.threads[t].pc == Decide(main, newCount) && r == StepDecide(s, t, main, newCount)
    ensures Nearer(s, t, r)
  {
  }

  lemma FlagNearer(s: State, t: nat, r: State)
    requires Inv(s) && Continues(s, t, r)
    requires s.threads[t].pc.Reload? || s.threads[t].pc.Clear?
    ensures Nearer(s, t, r)
  {
    assert InRange(s, s.threads[t].pc);
  }

  lemma PlacingNearer(s: State, t: nat, r: State)
    requires Inv(s) && Continues(s, t, r)
    requires s.threads[t].pc.CopyLoad? || s.threads[t].pc.CopyCas? || s.threads[t].pc.CopyStore?
             || s.threads[t].pc.InsertLoad? || s.threads[t].pc.InsertCas? || s.threads[t].pc.InsertStore?
    ensures Nearer(s, t, r)
  {
    assert InRange(s, s.threads[t].pc);
  }

  lemma StepNearer(s: State, t: nat, r: State)
    requires Inv(s) && Continues(s, t, r) && NoneElseResizes(s, t) && !s.threads[t].pc.Done?
    ensures Nearer(s, t, r)
  {
    assert InRange(s, s.threads[t].pc);
    match s.threads[t].pc
    case Test(_, _) => TestNearer(s, t, r);
    case Resize(main, newCount) => ResizeNearer(s, t, r, main, newCount);
    case Decide(main, newCount) => DecideNearer(s, t, r, main, newCount);
    case Reload(_) => FlagNearer(s, t, r);
    case Clear(_, _) => FlagNearer(s, t, r);
    case LoadMain => SearchNearer(s, t, r);
    case Look(_, _, _) => SearchNearer(s, t, r);
    case Count(_) => SearchNearer(s, t, r);
    case _ => PlacingNearer(s, t, r);
  }

  // The flag stays free, or with the thread.
  lemma StillNoneElse(s: State, t: nat)
    requires Inv(s) && WellFormed(s) && Enabled(s, Continue(t)) && NoneElseResizes(s, t)
    ensures NoneElseResizes(Step(s, Continue(t)), t) && |Step(s, Continue(t)).threads| == |s.threads|
  {
    assert InRange(s, s.threads[t].pc);
  }

  // After k more accesses of thread t; it stays where it is once it has its producer.
  ghost function Alone(s: State, t: nat, k: nat): State
    requires Inv(s) && t < |s.threads|
    decreases k
  {
    InvWellFormed(s);
    if k == 0 || s.threads[t].pc.Done? || s.threads[t].pc.Idle? then s
    else (StepInv(s, Continue(t)); Counts(s, t); Alone(Step(s, Continue(t)), t, k - 1))
  }

  lemma Counts(s: State, t: nat)
    requires WellFormed(s) && Enabled(s, Continue(t))
    ensures |Step(s, Continue(t)).threads| == |s.threads|
  {
    assert InRange(s, s.threads[t].pc);
  }

  lemma {:induction false} ReturnsWithin(s: State, t: nat, stage: nat, older: nat, toProbe: int) returns (k: nat)
    requires Inv(s) && WellFormed(s) && t < |s.threads| && !s.threads[t].pc.Idle? && NoneElseResizes(s, t)
    requires InRange(s, s.threads[t].pc) && stage == Stage(s, s.threads[t].pc) && older == Older(s.threads[t].pc)
             && toProbe == ToProbe(s, s.threads[t].pc)
    ensures t < |Alone(s, t, k).threads| && ReturnsOwn(Alone(s, t, k).threads[t])
    decreases stage, older, toProbe
  {
    k := 0;
    if s.threads[t].pc.Done? {
      assert ThreadOk(s, t);
    } else {
      var r := Step(s, Continue(t));
      StepInv(s, Continue(t));
      StillNoneElse(s, t);
      StepNearer(s, t, r);
      ProbesEnd(s, t);
      assert InRange(r, r.threads[t].pc);
      k := ReturnsWithin(r, t, Stage(r, r.threads[t].pc), Older(r.threads[t].pc), ToProbe(r, r.threads[t].pc));
      k := k + 1;
    }
  }

  ghost predicate ReturnsOwn(thread: Thread) {
    thread.pc.Done? && thread.pc.value.Some? && thread.pc.value == thread.producer
  }

  /** However far the other threads have got with their calls, as long as none of them holds the resize flag, a call
      that runs alone from there returns, with the thread's own producer. */
  lemma ReturnsAlone(s: State, t: nat) returns (k: nat)
    requires Inv(s) && t < |s.threads| && !s.threads[t].pc.Idle? && NoneElseResizes(s, t)
    ensures t < |Alone(s, t, k).threads| && ReturnsOwn(Alone(s, t, k).threads[t])
  {
    InvWellFormed(s);
    assert InRange(s, s.threads[t].pc);
    var pc := s.threads[t].pc;
    k := ReturnsWithin(s, t, Stage(s, pc), Older(pc), ToProbe(s, pc));
  }

  // ---- capacities are powers of two, so that masking with capacity - 1 is taking the remainder ----

  ghost predicate PowerOfTwo(n: nat) {
    exists k: nat :: n == Pow2(k)
  }

  ghost predicate PowersOfTwo(s: State) {
    forall i :: 0 <= i < |s.tables| ==> PowerOfTwo(s.tables[i].capacity)
  }

  lemma PowerDoubles(n: nat)
    requires PowerOfTwo(n)
    ensures PowerOfTwo(2 * n)
  {
    var k: nat :| n == Pow2(k);
    assert 2 * n == Pow2(k + 1);
  }

  lemma {:induction false} GrownPower(capacity: nat, newCount: nat)
    requires capacity > 0 && PowerOfTwo(capacity)
    ensures PowerOfTwo(Grown(capacity, newCount))
    decreases newCount + 1 - capacity / 2
  {
    if newCount >= capacity / 2 {
      PowerDoubles(capacity);
      GrownPower(2 * capacity, newCount);
    }
  }

  lemma StepKeepsPowers(s: State, m: Move)
    requires WellFormed(s) && Enabled(s, m) && PowersOfTwo(s)
    ensures PowersOfTwo(Step(s, m))
  {
    assert InRange(s, s.threads[m.t].pc);
    match s.threads[m.t].pc
    case Resize(main, newCount) =>
      PowerDoubles(s.tables[main].capacity);
      GrownPower(2 * s.tables[main].capacity, newCount);
    case _ =>
  }

  lemma {:induction false} RunPowers(states: seq<State>, moves: seq<Move>, hashed: seq<nat>, i: nat)
    requires Run(states, moves, hashed) && i < |states|
    ensures PowersOfTwo(states[i])
  {
    if i == 0 {
      assert Pow2(5) == 32;
    } else {
      RunPowers(states, moves, hashed, i - 1);
      assert states[i] == Step(states[i - 1], moves[i - 1]);
      StepKeepsPowers(states[i - 1], moves[i - 1]);
    }
  }
}
