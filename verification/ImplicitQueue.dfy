/** The counters of one ImplicitProducer: one enqueuer advances tailIndex, any number of dequeue and
    dequeue_bulk calls compete through dequeueOptimisticCount, dequeueOvercommit and headIndex, one
    atomic access per step. dequeue is dequeue_bulk with max == 1: it makes the same accesses.

    Auxiliary, never read by a step: items is everything enqueued so far, tickets lists the
    fetch_adds on the optimistic counter in order, claims those on headIndex. Counters are unbounded;
    CircularLessThan relates them to the wrapping words of the source. */
module ImplicitQueue {
  import opened Totals

  const INDEX_WORD := 0x1_0000_0000_0000_0000
  const INDEX_HALF := 0x8000_0000_0000_0000

  // circular_less_than on two words
  predicate CircularLessThan(a: nat, b: nat) {
    (a - b) % INDEX_WORD > INDEX_HALF
  }

  /** circular_less_than on the wrapped counters says whether one counter is behind the other, as long as
      they are less than half the index range apart. */
  lemma CircularLessThanExact(a: nat, b: nat)
    requires -INDEX_HALF < a - b < INDEX_HALF
    ensures CircularLessThan(a % INDEX_WORD, b % INDEX_WORD) <==> a < b
  {
    var d := a % INDEX_WORD - b % INDEX_WORD;
    var q := a / INDEX_WORD - b / INDEX_WORD;
    assert d == a - b - q * INDEX_WORD;
    assert -INDEX_WORD < d < INDEX_WORD;
  }

  // One fetch_add on dequeueOptimisticCount; granted once the thread has compared it with the tail.
  datatype Ticket = Ticket(wanted: nat, granted: Option<nat>)

  datatype Claim = Claim(first: nat, count: nat)

  datatype Pc =
    | Idle
    | LoadOvercommit(max: nat, tail: nat)
    | LoadOptimistic(max: nat, tail: nat, over: nat)
    | TakeTicket(want: nat, over: nat)                          // fetch_add on the optimistic counter
    | Recheck(ticket: nat, before: nat, want: nat, over: nat)   // load the tail again
    | GiveBack(amount: nat, keep: nat)                          // fetch_add on the overcommit counter
    | Advance(count: nat)                                       // fetch_add on headIndex
    | Owner(first: nat, count: nat)                             // may move elements first .. first + count out

  datatype State<T> = State(
    tail: nat, head: nat, optimistic: nat, overcommit: nat, threads: seq<Pc>,
    items: seq<T>, tickets: seq<Ticket>, claims: seq<Claim>)

  datatype Move<T> = Enqueue(item: T) | Dequeue(t: nat, max: nat) | Continue(t: nat)

  predicate Enabled<T>(s: State<T>, m: Move<T>) {
    match m
    case Enqueue(_) => true
    case Dequeue(t, max) => t < |s.threads| && s.threads[t].Idle? && max > 0
    case Continue(t) => t < |s.threads| && !s.threads[t].Idle?
  }

  function Goto<T>(s: State<T>, t: nat, pc: Pc): State<T>
    requires t < |s.threads|
  {
    s.(threads := s.threads[t := pc])
  }

  function Min(a: int, b: int): int {
    if a < b then a else b
  }

  function Step<T>(s: State<T>, m: Move<T>): State<T>
    requires Enabled(s, m)
  {
    match m
    case Enqueue(x) => s.(tail := s.tail + 1, items := s.items + [x])
    case Dequeue(t, max) => Goto(s, t, LoadOvercommit(max, s.tail))
    case Continue(t) =>
      match s.threads[t]
      case LoadOvercommit(max, tail) => Goto(s, t, LoadOptimistic(max, tail, s.overcommit))
      case LoadOptimistic(max, tail, over) =>
        var desired := tail - (s.optimistic - over);
        Goto(s, t, if desired > 0 then TakeTicket(Min(desired, max), over) else Idle)
      case TakeTicket(want, over) =>
        Goto(s, t, Recheck(|s.tickets|, s.optimistic, want, over))
        .(optimistic := s.optimistic + want, tickets := s.tickets + [Ticket(want, None)])
      case Recheck(k, before, want, over) => StepRecheck(s, t, k, before, want, over)
      case GiveBack(amount, keep) =>
        Goto(s, t, if keep > 0 then Advance(keep) else Idle).(overcommit := s.overcommit + amount)
      case Advance(count) =>
        Goto(s, t, Owner(s.head, count)).(head := s.head + count, claims := s.claims + [Claim(s.head, count)])
      case Owner(_, _) => Goto(s, t, Idle)
      case Idle => s
  }

  // How much of a request for want elements the ticket drawn at before is worth now.
  function Worth(tail: nat, before: nat, want: nat, over: nat): nat {
    var actual := tail - (before - over);
    if actual <= 0 then 0 else Min(want, actual)
  }

  function StepRecheck<T>(s: State<T>, t: nat, k: nat, before: nat, want: nat, over: nat): State<T>
    requires t < |s.threads|
  {
    var worth := Worth(s.tail, before, want, over);
    Goto(s, t, if worth == want then Advance(want) else GiveBack(want - worth, worth))
    .(tickets := if k < |s.tickets| then s.tickets[k := Ticket(want, Some(worth))] else s.tickets)
  }

  // ----- the invariant

  function Wanted(k: Ticket): int { k.wanted }

  function Granted(k: Ticket): int {
    if k.granted.Some? then k.granted.value else 0
  }

  function Failed(k: Ticket): int {
    if k.granted.Some? then k.wanted - k.granted.value else 0
  }

  // Settled tickets whose effect on a counter is still to come.
  function ToGiveBack(pc: Pc): int {
    if pc.GiveBack? then pc.amount else 0
  }

  function ToClaim(pc: Pc): int {
    match pc
    case GiveBack(_, keep) => keep
    case Advance(count) => count
    case _ => 0
  }

  // What a thread has drawn from the optimistic counter and put on neither of the other two yet.
  function Unsettled(pc: Pc): int {
    match pc
    case Recheck(_, _, want, _) => want
    case GiveBack(amount, keep) => amount + keep
    case Advance(count) => count
    case _ => 0
  }

  function Length(c: Claim): int { c.count }

  function Before(tickets: seq<Ticket>, k: nat, weight: Ticket -> int): int {
    Total(if k < |tickets| then tickets[..k] else tickets, weight)
  }

  predicate TicketOk<T>(s: State<T>, k: nat)
    requires k < |s.tickets|
  {
    var ticket := s.tickets[k];
    ticket.granted.Some? ==>
      && ticket.granted.value <= ticket.wanted
      && (ticket.granted.value > 0 ==>
            Before(s.tickets, k, Wanted) - Before(s.tickets, k, Failed) + ticket.granted.value <= s.tail)
  }

  predicate ThreadOk<T>(s: State<T>, t: nat)
    requires t < |s.threads|
  {
    match s.threads[t]
    case LoadOvercommit(max, tail) => max > 0 && tail <= s.tail
    case LoadOptimistic(max, tail, over) => max > 0 && tail <= s.tail && over <= Total(s.tickets, Failed)
    case TakeTicket(want, over) => want > 0 && over <= Total(s.tickets, Failed)
    case Recheck(k, before, want, over) =>
      && k < |s.tickets| && s.tickets[k] == Ticket(want, None) && want > 0
      && before == Before(s.tickets, k, Wanted)
      && over <= Before(s.tickets, k, Failed)
    case GiveBack(amount, _) => amount > 0
    case Advance(count) => count > 0
    case Owner(first, count) => count > 0 && first + count <= s.head
    case Idle => true
  }

  predicate ClaimsOk<T>(s: State<T>) {
    && s.head == Total(s.claims, Length)
    && forall i :: 0 <= i < |s.claims| ==> s.claims[i].count > 0 && s.claims[i].first == Total(s.claims[..i], Length)
  }

  // No two threads settle the same ticket.
  predicate TicketsApart<T>(s: State<T>) {
    forall t, u :: 0 <= t < |s.threads| && 0 <= u < |s.threads| && s.threads[t].Recheck? && s.threads[u].Recheck? ==>
      t == u || s.threads[t].ticket != s.threads[u].ticket
  }

  predicate Inv<T>(s: State<T>) {
    && |s.items| == s.tail
    && s.optimistic == Total(s.tickets, Wanted)
    && s.overcommit + Total(s.threads, ToGiveBack) == Total(s.tickets, Failed)
    && s.head + Total(s.threads, ToClaim) == Total(s.tickets, Granted)
    && (forall k :: 0 <= k < |s.tickets| ==> TicketOk(s, k))
    && (forall t :: 0 <= t < |s.threads| ==> ThreadOk(s, t))
    && TicketsApart(s)
    && s.optimistic == s.head + s.overcommit + Total(s.threads, Unsettled)
    && ClaimsOk(s)
  }

  predicate Init<T>(s: State<T>) {
    && s.tail == s.head == s.optimistic == s.overcommit == 0
    && s.items == [] && s.tickets == [] && s.claims == []
    && forall t :: 0 <= t < |s.threads| ==> s.threads[t].Idle?
  }

  lemma InitInv<T>(s: State<T>)
    requires Init(s)
    ensures Inv(s)
  {
    TotalZero(s.threads, ToGiveBack);
    TotalZero(s.threads, ToClaim);
    TotalZero(s.threads, Unsettled);
  }

  // Settling ticket j changes the totals before a later ticket k only.
  lemma BeforeSettled(tickets: seq<Ticket>, j: nat, x: Ticket, k: nat, weight: Ticket -> int)
    requires j < |tickets| && k <= |tickets|
    ensures Before(tickets[j := x], k, weight)
         == Before(tickets, k, weight) + if j < k then weight(x) - weight(tickets[j]) else 0
  {
    var updated := tickets[j := x];
    if k < |tickets| {
      if j < k {
        assert updated[..k] == tickets[..k][j := x];
        TotalUpdate(tickets[..k], j, x, weight);
      } else {
        assert updated[..k] == tickets[..k];
      }
    } else {
      TotalUpdate(tickets, j, x, weight);
    }
  }

  lemma BeforeDrawn(tickets: seq<Ticket>, x: Ticket, k: nat, weight: Ticket -> int)
    requires k <= |tickets|
    ensures Before(tickets + [x], k, weight) == Before(tickets, k, weight)
  {
    assert (tickets + [x])[..k] == if k < |tickets| then tickets[..k] else tickets;
  }

  lemma ThreadTotals(threads: seq<Pc>, t: nat, pc: Pc)
    requires t < |threads|
    ensures Total(threads[t := pc], ToGiveBack) == Total(threads, ToGiveBack) - ToGiveBack(threads[t]) + ToGiveBack(pc)
    ensures Total(threads[t := pc], ToClaim) == Total(threads, ToClaim) - ToClaim(threads[t]) + ToClaim(pc)
    ensures Total(threads[t := pc], Unsettled) == Total(threads, Unsettled) - Unsettled(threads[t]) + Unsettled(pc)
    ensures Total(threads, ToGiveBack) >= 0
  {
    TotalUpdate(threads, t, pc, ToGiveBack);
    TotalUpdate(threads, t, pc, ToClaim);
    TotalUpdate(threads, t, pc, Unsettled);
    TotalNonNegative(threads, ToGiveBack);
  }

  // A step that only changes where the thread is.
  lemma LocalInv<T>(s: State<T>, t: nat, pc: Pc)
    requires Inv(s) && t < |s.threads| && ThreadOk(Goto(s, t, pc), t) && !pc.Recheck?
    requires ToGiveBack(pc) == ToGiveBack(s.threads[t]) && ToClaim(pc) == ToClaim(s.threads[t])
    requires Unsettled(pc) == Unsettled(s.threads[t])
    ensures Inv(Goto(s, t, pc))
  {
    ThreadTotals(s.threads, t, pc);
    var s' := Goto(s, t, pc);
    forall u | 0 <= u < |s'.threads| ensures ThreadOk(s', u) { assert u != t ==> ThreadOk(s, u); }
    forall k | 0 <= k < |s'.tickets| ensures TicketOk(s', k) { assert TicketOk(s, k); }
  }

  lemma TakeTicketThreads<T>(s: State<T>, t: nat, want: nat, over: nat)
    requires Inv(s) && t < |s.threads| && s.threads[t] == TakeTicket(want, over)
    ensures var s' := Step(s, Continue(t)); (forall u :: 0 <= u < |s'.threads| ==> ThreadOk(s', u)) && TicketsApart(s')
  {
    var s' := Step(s, Continue(t));
    var x := Ticket(want, None);
    TotalAppend(s.tickets, x, Failed);
    BeforeDrawn(s.tickets, x, |s.tickets|, Wanted);
    BeforeDrawn(s.tickets, x, |s.tickets|, Failed);
    forall u | 0 <= u < |s'.threads|
      ensures ThreadOk(s', u)
      ensures u != t && s'.threads[u].Recheck? ==> s'.threads[u].ticket < |s.tickets|
    {
      assert ThreadOk(s, u);
      if u != t && s.threads[u].Recheck? {
        BeforeDrawn(s.tickets, x, s.threads[u].ticket, Wanted);
        BeforeDrawn(s.tickets, x, s.threads[u].ticket, Failed);
      }
    }
  }

  lemma TakeTicketInv<T>(s: State<T>, t: nat, want: nat, over: nat)
    requires Inv(s) && t < |s.threads| && s.threads[t] == TakeTicket(want, over)
    ensures Inv(Step(s, Continue(t)))
  {
    var s' := Step(s, Continue(t));
    var x := Ticket(want, None);
    TakeTicketThreads(s, t, want, over);
    ThreadTotals(s.threads, t, s'.threads[t]);
    TotalAppend(s.tickets, x, Wanted);
    TotalAppend(s.tickets, x, Failed);
    TotalAppend(s.tickets, x, Granted);
    forall k | 0 <= k < |s'.tickets|
      ensures TicketOk(s', k)
    {
      if k < |s.tickets| {
        assert TicketOk(s, k);
        BeforeDrawn(s.tickets, x, k, Wanted);
        BeforeDrawn(s.tickets, x, k, Failed);
      }
    }
  }

  lemma RecheckThreads<T>(s: State<T>, t: nat, k: nat, before: nat, want: nat, over: nat)
    requires Inv(s) && t < |s.threads| && s.threads[t] == Recheck(k, before, want, over)
    ensures var s' := Step(s, Continue(t)); (forall u :: 0 <= u < |s'.threads| ==> ThreadOk(s', u)) && TicketsApart(s')
  {
    var s' := Step(s, Continue(t));
    assert ThreadOk(s, t);
    var x := Ticket(want, Some(Worth(s.tail, before, want, over)));
    TotalUpdate(s.tickets, k, x, Failed);
    forall u | 0 <= u < |s'.threads|
      ensures ThreadOk(s', u)
    {
      assert ThreadOk(s, u);
      if u != t && s.threads[u].Recheck? {
        BeforeSettled(s.tickets, k, x, s.threads[u].ticket, Wanted);
        BeforeSettled(s.tickets, k, x, s.threads[u].ticket, Failed);
      }
    }
  }

  // The settled ticket respects the tail: its overcommit value counted only failures of earlier tickets.
  lemma RecheckTickets<T>(s: State<T>, t: nat, k: nat, before: nat, want: nat, over: nat)
    requires t < |s.threads| && s.threads[t] == Recheck(k, before, want, over) && ThreadOk(s, t)
    requires forall j :: 0 <= j < |s.tickets| ==> TicketOk(s, j)
    ensures var s' := Step(s, Continue(t)); forall j :: 0 <= j < |s'.tickets| ==> TicketOk(s', j)
  {
    var s' := Step(s, Continue(t));
    var x := Ticket(want, Some(Worth(s.tail, before, want, over)));
    forall j | 0 <= j < |s'.tickets|
      ensures TicketOk(s', j)
    {
      assert TicketOk(s, j);
      BeforeSettled(s.tickets, k, x, j, Wanted);
      BeforeSettled(s.tickets, k, x, j, Failed);
    }
  }

  lemma RecheckInv<T>(s: State<T>, t: nat, k: nat, before: nat, want: nat, over: nat)
    requires Inv(s) && t < |s.threads| && s.threads[t] == Recheck(k, before, want, over)
    ensures Inv(Step(s, Continue(t)))
  {
    var s' := Step(s, Continue(t));
    assert ThreadOk(s, t);
    RecheckThreads(s, t, k, before, want, over);
    var x := Ticket(want, Some(Worth(s.tail, before, want, over)));
    ThreadTotals(s.threads, t, s'.threads[t]);
    TotalUpdate(s.tickets, k, x, Wanted);
    TotalUpdate(s.tickets, k, x, Failed);
    TotalUpdate(s.tickets, k, x, Granted);
    RecheckTickets(s, t, k, before, want, over);
  }

  lemma GiveBackInv<T>(s: State<T>, t: nat, amount: nat, keep: nat)
    requires Inv(s) && t < |s.threads| && s.threads[t] == GiveBack(amount, keep)
    ensures Inv(Step(s, Continue(t)))
  {
    var s' := Step(s, Continue(t));
    ThreadTotals(s.threads, t, s'.threads[t]);
    forall u | 0 <= u < |s'.threads| ensures ThreadOk(s', u) { assert ThreadOk(s, u); }
    forall k | 0 <= k < |s'.tickets| ensures TicketOk(s', k) { assert TicketOk(s, k); }
  }

  lemma AdvanceClaims<T>(s: State<T>, t: nat, count: nat)
    requires ClaimsOk(s) && t < |s.threads| && s.threads[t] == Advance(count) && count > 0
    ensures ClaimsOk(Step(s, Continue(t)))
  {
    var s' := Step(s, Continue(t));
    TotalAppend(s.claims, Claim(s.head, count), Length);
    forall i | 0 <= i < |s'.claims|
      ensures s'.claims[i].count > 0 && s'.claims[i].first == Total(s'.claims[..i], Length)
    {
      assert s'.claims[..i] == s.claims[..i];
      assert s.claims[..|s.claims|] == s.claims;
    }
  }

  lemma AdvanceInv<T>(s: State<T>, t: nat, count: nat)
    requires Inv(s) && t < |s.threads| && s.threads[t] == Advance(count)
    ensures Inv(Step(s, Continue(t)))
  {
    var s' := Step(s, Continue(t));
    assert ThreadOk(s, t);
    ThreadTotals(s.threads, t, s'.threads[t]);
    AdvanceClaims(s, t, count);
    forall u | 0 <= u < |s'.threads| ensures ThreadOk(s', u) { assert ThreadOk(s, u); }
    forall k | 0 <= k < |s'.tickets| ensures TicketOk(s', k) { assert TicketOk(s, k); }
  }

  /** Every enqueue and every access of every dequeuer keeps the invariant. */
  lemma StepInv<T>(s: State<T>, m: Move<T>)
    requires Inv(s) && Enabled(s, m)
    ensures Inv(Step(s, m))
  {
    if m.Enqueue? {
      var s' := Step(s, m);
      forall t | 0 <= t < |s'.threads| ensures ThreadOk(s', t) { assert ThreadOk(s, t); }
      forall k | 0 <= k < |s'.tickets| ensures TicketOk(s', k) { assert TicketOk(s, k); }
    } else if m.Dequeue? {
      ThreadTotals(s.threads, m.t, LoadOvercommit(m.max, s.tail));
      LocalInv(s, m.t, LoadOvercommit(m.max, s.tail));
    } else {
      assert ThreadOk(s, m.t);
      match s.threads[m.t]
      case TakeTicket(want, over) => TakeTicketInv(s, m.t, want, over);
      case Recheck(k, before, want, over) => RecheckInv(s, m.t, k, before, want, over);
      case GiveBack(amount, keep) => GiveBackInv(s, m.t, amount, keep);
      case Advance(count) => AdvanceInv(s, m.t, count);
      case LoadOvercommit(max, tail) =>
        ThreadTotals(s.threads, m.t, Idle);
        LocalInv(s, m.t, LoadOptimistic(max, tail, s.overcommit));
      case LoadOptimistic(_, _, _) => LocalInv(s, m.t, Step(s, m).threads[m.t]);
      case Owner(_, _) => LocalInv(s, m.t, Idle);
      case Idle =>
    }
  }

  // ----- what holds over every run

  datatype Run<T> = Run(states: seq<State<T>>, moves: seq<Move<T>>)

  ghost predicate IsRun<T>(r: Run<T>) {
    && |r.states| == |r.moves| + 1
    && Init(r.states[0])
    && forall i :: 0 <= i < |r.moves| ==>
         Enabled(r.states[i], r.moves[i]) && r.states[i + 1] == Step(r.states[i], r.moves[i])
  }

  lemma {:induction false} RunInv<T>(r: Run<T>, i: nat)
    requires IsRun(r) && i < |r.states|
    ensures Inv(r.states[i])
  {
    if i == 0 {
      InitInv(r.states[0]);
    } else {
      RunInv(r, i - 1);
      StepInv(r.states[i - 1], r.moves[i - 1]);
    }
  }

  // The first n tickets were granted no more elements than had been enqueued: the last one that was granted
  // any bounds everything granted before it.
  lemma {:induction false} GrantedWithinTail<T>(s: State<T>, n: nat)
    requires n <= |s.tickets| && forall k :: 0 <= k < |s.tickets| ==> TicketOk(s, k)
    ensures Total(s.tickets[..n], Granted) <= s.tail
    ensures Total(s.tickets[..n], Granted) <= Total(s.tickets[..n], Wanted) - Total(s.tickets[..n], Failed)
  {
    if n > 0 {
      GrantedWithinTail(s, n - 1);
      assert TicketOk(s, n - 1);
      assert s.tickets[..n][..n - 1] == s.tickets[..n - 1];
    }
  }

  lemma HeadAtMostTail<T>(s: State<T>)
    requires Inv(s)
    ensures s.head <= s.head + Total(s.threads, ToClaim) <= s.tail
  {
    TotalNonNegative(s.threads, ToClaim);
    GrantedWithinTail(s, |s.tickets|);
    assert s.tickets[..|s.tickets|] == s.tickets;
  }

  /** headIndex never passes tailIndex, not even after every claim already granted has been made. */
  lemma HeadWithinTail<T>(r: Run<T>, i: nat)
    requires IsRun(r) && i < |r.states|
    ensures var s := r.states[i]; s.head <= s.head + Total(s.threads, ToClaim) <= s.tail == |s.items|
  {
    RunInv(r, i);
    HeadAtMostTail(r.states[i]);
  }

  lemma {:induction false} ClaimsAdjoin(claims: seq<Claim>, i: nat, j: nat)
    requires i < j <= |claims|
    ensures Total(claims[..i], Length) + claims[i].count <= Total(claims[..j], Length)
  {
    assert claims[..j][..j - 1] == claims[..j - 1];
    if i < j - 1 {
      ClaimsAdjoin(claims, i, j - 1);
    }
  }

  /** No index is claimed twice, and claims follow the order in which the elements were enqueued. */
  lemma ClaimsApart<T>(r: Run<T>, n: nat, i: nat, j: nat)
    requires IsRun(r) && n < |r.states| && i < j < |r.states[n].claims|
    ensures var c := r.states[n].claims; c[i].first + c[i].count <= c[j].first
    ensures var c := r.states[n].claims; c[j].first + c[j].count <= r.states[n].tail
  {
    var c := r.states[n].claims;
    RunInv(r, n);
    HeadWithinTail(r, n);
    ClaimsAdjoin(c, i, j);
    ClaimsAdjoin(c, j, |c|);
    assert c[..|c|] == c;
    TotalNonNegative(r.states[n].threads, ToClaim);
  }

  // The elements handed out by the first n claims, claim after claim.
  function Delivered<T>(s: State<T>, n: nat): seq<T>
    requires n <= |s.claims| && forall i :: 0 <= i < |s.claims| ==> s.claims[i].first + s.claims[i].count <= |s.items|
  {
    if n == 0 then []
    else Delivered(s, n - 1) + s.items[s.claims[n - 1].first..s.claims[n - 1].first + s.claims[n - 1].count]
  }

  /** The claims taken together hand out exactly the first headIndex elements, each once, in order. */
  lemma DeliveredInOrder<T>(r: Run<T>, n: nat)
    requires IsRun(r) && n < |r.states|
    ensures var s := r.states[n];
      && s.head <= |s.items|
      && (forall i :: 0 <= i < |s.claims| ==> s.claims[i].first + s.claims[i].count <= |s.items|)
      && Delivered(s, |s.claims|) == s.items[..s.head]
  {
    var s := r.states[n];
    RunInv(r, n);
    HeadWithinTail(r, n);
    forall i | 0 <= i < |s.claims|
      ensures s.claims[i].first + s.claims[i].count <= s.head
    {
      ClaimsAdjoin(s.claims, i, |s.claims|);
      assert s.claims[..|s.claims|] == s.claims;
    }
    DeliveredPrefix(s, |s.claims|);
    assert s.claims[..|s.claims|] == s.claims;
  }

  lemma TakeOn<T>(items: seq<T>, a: nat, n: nat)
    requires a + n <= |items|
    ensures items[..a] + items[a..a + n] == items[..a + n]
  {
  }

  lemma ClaimedThrough(claims: seq<Claim>, n: nat)
    requires 0 < n <= |claims|
    ensures Total(claims[..n], Length) == Total(claims[..n - 1], Length) + claims[n - 1].count
  {
    assert claims[..n][..n - 1] == claims[..n - 1];
  }

  lemma {:induction false} DeliveredPrefix<T>(s: State<T>, n: nat)
    requires ClaimsOk(s) && n <= |s.claims|
    requires forall i :: 0 <= i < |s.claims| ==> s.claims[i].first + s.claims[i].count <= |s.items|
    ensures 0 <= Total(s.claims[..n], Length) <= |s.items|
    ensures Delivered(s, n) == s.items[..Total(s.claims[..n], Length)]
  {
    if n > 0 {
      DeliveredPrefix(s, n - 1);
      ClaimedThrough(s.claims, n);
      TakeOn(s.items, s.claims[n - 1].first, s.claims[n - 1].count);
    }
  }

  predicate Quiet<T>(s: State<T>) {
    forall t :: 0 <= t < |s.threads| ==> s.threads[t].Idle?
  }

  // s' is the state after one more access of thread t.
  ghost predicate Next<T>(s: State<T>, t: nat, s': State<T>) {
    Enabled(s, Continue(t)) && s' == Step(s, Continue(t))
  }

  /** Without other calls in flight, a dequeue gives up, leaving every counter as it was, when head equals tail. */
  lemma LoneDequeueEmpty<T>(r: Run<T>, n: nat, t: nat, max: nat) returns (s1: State<T>)
    requires IsRun(r) && n < |r.states| && Quiet(r.states[n]) && t < |r.states[n].threads| && max > 0
    requires r.states[n].head == r.states[n].tail
    ensures Next(Step(r.states[n], Dequeue(t, max)), t, s1) && Next(s1, t, r.states[n])
  {
    var s := r.states[n];
    RunInv(r, n);
    TotalZero(s.threads, Unsettled);
    s1 := Step(Step(s, Dequeue(t, max)), Continue(t));
  }

  // Five accesses of a thread nobody disturbs, with everything drawn so far settled.
  lemma FiveAccesses<T>(s: State<T>, t: nat, max: nat)
    returns (s1: State<T>, s2: State<T>, s3: State<T>, s4: State<T>, s5: State<T>)
    requires t < |s.threads| && s.threads[t].Idle? && max > 0 && s.optimistic == s.head + s.overcommit
             && s.head < s.tail
    ensures Next(Step(s, Dequeue(t, max)), t, s1)
    ensures Next(s1, t, s2) && Next(s2, t, s3) && Next(s3, t, s4) && Next(s4, t, s5)
    ensures var count := Min(s.tail - s.head, max);
      s5.threads[t] == Owner(s.head, count) && s5.head == s.head + count && s5.overcommit == s.overcommit
  {
    var count := Min(s.tail - s.head, max);
    s1 := Step(Step(s, Dequeue(t, max)), Continue(t));
    assert s1.threads[t] == LoadOptimistic(max, s.tail, s.overcommit);
    s2 := Step(s1, Continue(t));
    assert s2.threads[t] == TakeTicket(count, s.overcommit);
    s3 := Step(s2, Continue(t));
    assert s3.threads[t] == Recheck(|s.tickets|, s.optimistic, count, s.overcommit);
    s4 := Step(s3, Continue(t));
    assert s4.threads[t] == Advance(count);
    s5 := Step(s4, Continue(t));
  }

  /** Without other calls in flight and with elements present, a dequeue does not fail: it claims
      min(max, tail - head) elements from headIndex on. */
  lemma LoneDequeueClaims<T>(r: Run<T>, n: nat, t: nat, max: nat)
    returns (s1: State<T>, s2: State<T>, s3: State<T>, s4: State<T>, s5: State<T>)
    requires IsRun(r) && n < |r.states| && Quiet(r.states[n]) && t < |r.states[n].threads| && max > 0
    requires r.states[n].head != r.states[n].tail
    ensures Next(Step(r.states[n], Dequeue(t, max)), t, s1)
    ensures Next(s1, t, s2) && Next(s2, t, s3) && Next(s3, t, s4) && Next(s4, t, s5)
    ensures var s := r.states[n];
      var count := Min(s.tail - s.head, max);
      count > 0 && s5.threads[t] == Owner(s.head, count) && s5.head == s.head + count && s5.overcommit == s.overcommit
  {
    var s := r.states[n];
    RunInv(r, n);
    HeadWithinTail(r, n);
    TotalZero(s.threads, Unsettled);
    s1, s2, s3, s4, s5 := FiveAccesses(s, t, max);
  }

  // ----- what a call that gets too little has read

  // Thread t makes an access with move i of the run.
  ghost predicate Moves<T>(r: Run<T>, i: nat, t: nat) {
    i < |r.moves| && !r.moves[i].Enqueue? && r.moves[i].t == t
  }

  // The tickets drawn before move d, less what had been given back at move b, and count more elements cover
  // everything enqueued at move c; and exactly that, if count is not zero.
  ghost predicate Covers<T>(r: Run<T>, b: nat, c: nat, d: nat, count: nat)
    requires b < |r.states| && c < |r.states| && d < |r.states|
  {
    && Total(r.states[d].tickets, Wanted) + count >= r.states[c].tail + r.states[b].overcommit
    && (count > 0 ==> Total(r.states[d].tickets, Wanted) + count == r.states[c].tail + r.states[b].overcommit)
  }

  // The moves of a call that made each of its loads.
  datatype Loads = Loads(begun: nat, over: nat, optimistic: nat, drawn: nat, tail: nat)

  // What the locals of a call say, given the moves with which it read them.
  ghost predicate Follows<T>(r: Run<T>, pc: Pc, max: nat, n: Loads)
    requires n.begun < |r.states| && n.over < |r.states| && n.optimistic < |r.states| && n.drawn < |r.states|
    requires n.tail < |r.states|
  {
    var over := r.states[n.over].overcommit;
    var desired := r.states[n.begun].tail - (r.states[n.optimistic].optimistic - over);
    match pc
    case LoadOvercommit(m, tail) => n.tail == n.begun && m == max && tail == r.states[n.begun].tail
    case LoadOptimistic(m, tail, o) =>
      n.tail == n.begun && m == max && tail == r.states[n.begun].tail && o == over
    case TakeTicket(want, o) => n.tail == n.begun && o == over && 0 < want == Min(desired, max)
    case Recheck(_, before, want, o) =>
      && n.tail == n.begun && o == over && 0 < want == Min(desired, max)
      && before == r.states[n.drawn].optimistic
    case GiveBack(_, keep) => keep < max && Covers(r, n.over, n.tail, n.drawn, keep)
    case Advance(count) => count <= max && (count < max ==> Covers(r, n.over, n.tail, n.drawn, count))
    case _ => false
  }

  // The call's own moves before move l.
  ghost predicate LoadsOk<T>(r: Run<T>, t: nat, n: Loads, l: nat) {
    && l <= |r.moves| < |r.states|
    && n.begun <= n.over < l && n.begun <= n.optimistic < l && n.begun <= n.drawn < l && n.begun <= n.tail < l
    && Moves(r, n.over, t) && Moves(r, n.optimistic, t) && Moves(r, n.drawn, t) && Moves(r, n.tail, t)
  }

  ghost predicate OptimisticOk<T>(r: Run<T>, n: Loads)
    requires n.optimistic < |r.states| && n.drawn < |r.states|
  {
    && r.states[n.optimistic].optimistic == Total(r.states[n.optimistic].tickets, Wanted)
    && r.states[n.drawn].optimistic == Total(r.states[n.drawn].tickets, Wanted)
  }

  function Loaded(n: Loads, pc: Pc, tail: nat, l: nat): Loads {
    match pc
    case LoadOvercommit(_, _) => n.(over := l)
    case LoadOptimistic(_, _, _) => n.(optimistic := l, drawn := l)
    case TakeTicket(_, _) => n.(drawn := l)
    case Recheck(_, before, want, over) =>
      if Worth(tail, before, want, over) == want then n.(drawn := n.optimistic) else n.(tail := l)
    case _ => n
  }

  // One access of the call: it goes on, or ends with what it has read.
  lemma FollowsStep<T>(r: Run<T>, l: nat, t: nat, max: nat, n: Loads)
    requires LoadsOk(r, t, n, l) && l < |r.moves| && r.moves[l] == Continue(t)
    requires Inv(r.states[l]) && Enabled(r.states[l], r.moves[l]) && r.states[l + 1] == Step(r.states[l], r.moves[l])
    requires Follows(r, r.states[l].threads[t], max, n) && OptimisticOk(r, n)
    ensures var n' := Loaded(n, r.states[l].threads[t], r.states[l].tail, l);
            var pc := r.states[l + 1].threads[t];
            && LoadsOk(r, t, n', l + 1)
            && (pc.Idle? ==> Covers(r, n'.over, n'.tail, n'.drawn, 0))
            && (pc.Owner? ==> pc.count <= max && (pc.count < max ==> Covers(r, n'.over, n'.tail, n'.drawn, pc.count)))
            && (!pc.Idle? && !pc.Owner? ==> Follows(r, pc, max, n') && OptimisticOk(r, n'))
  {
    assert ThreadOk(r.states[l], t);
  }

  lemma OthersKeepPlace<T>(s: State<T>, m: Move<T>, t: nat)
    requires Enabled(s, m) && t < |s.threads| && (m.Enqueue? || m.t != t)
    ensures var s' := Step(s, m); t < |s'.threads| && s'.threads[t] == s.threads[t]
  {
  }

  // No load of the tail by the call comes after move n.tail.
  ghost predicate LastLoad<T>(r: Run<T>, t: nat, c: nat, l: nat) {
    forall x :: c < x < l && l < |r.states| && Moves(r, x, t) && t < |r.states[x].threads| ==>
      !r.states[x].threads[t].Recheck?
  }

  // Between move i and state j + 1 thread t is inside one call.
  ghost predicate InCall<T>(r: Run<T>, i: nat, j: nat, t: nat) {
    && i < j < |r.moves| < |r.states|
    && (forall l :: i < l <= j + 1 ==> t < |r.states[l].threads|)
    && (forall l :: i < l <= j ==> !r.states[l].threads[t].Idle? && !r.states[l].threads[t].Owner?)
  }

  function LoadedBy<T>(r: Run<T>, l: nat, t: nat, n: Loads): Loads
    requires l < |r.moves| < |r.states| && t < |r.states[l].threads|
  {
    if r.moves[l] == Continue(t) then Loaded(n, r.states[l].threads[t], r.states[l].tail, l) else n
  }

  lemma FollowsMove<T>(r: Run<T>, l: nat, t: nat, max: nat, n: Loads)
    requires IsRun(r) && l < |r.moves| && LoadsOk(r, t, n, l) && t < |r.states[l].threads|
    requires Follows(r, r.states[l].threads[t], max, n) && OptimisticOk(r, n)
    ensures var n' := LoadedBy(r, l, t, n);
            LoadsOk(r, t, n', l + 1) && n'.begun == n.begun && t < |r.states[l + 1].threads|
    ensures var pc := r.states[l + 1].threads[t];
            var n' := LoadedBy(r, l, t, n);
            && (pc.Idle? ==> Covers(r, n'.over, n'.tail, n'.drawn, 0))
            && (pc.Owner? ==> pc.count <= max && (pc.count < max ==> Covers(r, n'.over, n'.tail, n'.drawn, pc.count)))
            && (!pc.Idle? && !pc.Owner? ==> Follows(r, pc, max, n') && OptimisticOk(r, n'))
  {
    RunInv(r, l);
    if r.moves[l] == Continue(t) {
      FollowsStep(r, l, t, max, n);
    } else {
      OthersKeepPlace(r.states[l], r.moves[l], t);
    }
  }

  lemma LastLoadMove<T>(r: Run<T>, l: nat, t: nat, n: Loads, s: State<T>, s': State<T>)
    requires l < |r.moves| < |r.states| && r.states[l] == s && t < |s.threads| && !s.threads[t].Idle?
    requires Enabled(s, r.moves[l]) && s' == Step(s, r.moves[l]) && t < |s'.threads|
    requires s.threads[t].Advance? || LastLoad(r, t, n.tail, l)
    ensures s'.threads[t].Owner? || s'.threads[t].Advance? || LastLoad(r, t, LoadedBy(r, l, t, n).tail, l + 1)
  {
    if r.moves[l] == Continue(t) {
    } else {
      OthersKeepPlace(s, r.moves[l], t);
    }
  }

  // What the call has read before move l.
  ghost predicate Read<T>(r: Run<T>, l: nat, t: nat, max: nat, n: Loads) {
    && LoadsOk(r, t, n, l) && l < |r.states| && t < |r.states[l].threads|
    && Follows(r, r.states[l].threads[t], max, n) && OptimisticOk(r, n)
    && (r.states[l].threads[t].Advance? || LastLoad(r, t, n.tail, l))
  }

  lemma ReadBegun<T>(r: Run<T>, i: nat, t: nat, max: nat)
    requires IsRun(r) && i < |r.moves| && r.moves[i] == Dequeue(t, max)
    ensures Read(r, i + 1, t, max, Loads(i, i, i, i, i))
  {
    RunInv(r, i);
  }

  lemma ReadMove<T>(r: Run<T>, i: nat, j: nat, t: nat, max: nat, l: nat, n: Loads) returns (n': Loads)
    requires IsRun(r) && InCall(r, i, j, t) && i < l < j && Read(r, l, t, max, n)
    ensures Read(r, l + 1, t, max, n') && n'.begun == n.begun
  {
    FollowsMove(r, l, t, max, n);
    LastLoadMove(r, l, t, n, r.states[l], r.states[l + 1]);
    n' := LoadedBy(r, l, t, n);
  }

  lemma {:induction false} ReadBefore<T>(r: Run<T>, i: nat, j: nat, t: nat, max: nat, l: nat) returns (n: Loads)
    requires IsRun(r) && InCall(r, i, j, t) && r.moves[i] == Dequeue(t, max) && i < l <= j
    ensures Read(r, l, t, max, n) && n.begun == i
    decreases l
  {
    if l == i + 1 {
      n := Loads(i, i, i, i, i);
      ReadBegun(r, i, t, max);
    } else {
      var before := ReadBefore(r, i, j, t, max, l - 1);
      n := ReadMove(r, i, j, t, max, l - 1, before);
    }
  }

  /** However many dequeues run at once, one that leaves with fewer elements than it asked for (with none, when it
      fails) has left nothing behind: at its last load of the tail, move c, the tickets drawn by other calls before
      its own draw, or before the load that kept it from drawing, move d, less what its load of the overcommit
      counter, move b, saw given back, cover everything enqueued but the elements it gets. */
  lemma ShortOnlyIfDrawn<T>(r: Run<T>, i: nat, j: nat, t: nat, max: nat, count: nat) returns (b: nat, c: nat, d: nat)
    requires IsRun(r) && InCall(r, i, j, t) && r.moves[i] == Dequeue(t, max)
    requires count == 0 ==> r.states[j + 1].threads[t].Idle?
    requires count > 0 ==> r.states[j + 1].threads[t].Owner? && r.states[j + 1].threads[t].count == count
    ensures i <= b <= j && i <= c <= j && i <= d <= j && Moves(r, b, t) && Moves(r, c, t) && Moves(r, d, t)
    ensures count <= max && (count == 0 ==> LastLoad(r, t, c, j + 1))
    ensures count < max ==> Total(r.states[d].tickets, Wanted) + count >= r.states[c].tail + r.states[b].overcommit
    ensures 0 < count < max ==> Total(r.states[d].tickets, Wanted) + count == r.states[c].tail + r.states[b].overcommit
    ensures 0 < count < max ==>
              (r.states[j + 1].threads[t].first + count == r.states[c].tail
               <==> r.states[j + 1].threads[t].first == Total(r.states[d].tickets, Wanted) - r.states[b].overcommit)
  {
    var before := ReadBefore(r, i, j, t, max, j);
    FollowsMove(r, j, t, max, before);
    LastLoadMove(r, j, t, before, r.states[j], r.states[j + 1]);
    var n := LoadedBy(r, j, t, before);
    b, c, d := n.over, n.tail, n.drawn;
  }

  function Last<T>(r: Run<T>): State<T>
    requires |r.states| > 0
  {
    r.states[|r.states| - 1]
  }

  lemma Extend<T>(r: Run<T>, m: Move<T>) returns (longer: Run<T>)
    requires IsRun(r) && Enabled(Last(r), m)
    ensures longer == Run(r.states + [Step(Last(r), m)], r.moves + [m]) && IsRun(longer)
  {
    longer := Run(r.states + [Step(Last(r), m)], r.moves + [m]);
    forall i | 0 <= i < |longer.moves|
      ensures Enabled(longer.states[i], longer.moves[i])
      ensures longer.states[i + 1] == Step(longer.states[i], longer.moves[i])
    {
      if i < |r.moves| {
        assert longer.states[i] == r.states[i] && longer.states[i + 1] == r.states[i + 1]
               && longer.moves[i] == r.moves[i];
      }
    }
  }

  // Three elements are enqueued.
  lemma Filled() returns (r: Run<int>)
    ensures IsRun(r) && Last(r) == State(3, 0, 0, 0, [Idle, Idle], [7, 8, 9], [], [])
  {
    r := Run([State(0, 0, 0, 0, [Idle, Idle], [], [], [])], []);
    r := Extend(r, Enqueue(7));
    r := Extend(r, Enqueue(8));
    r := Extend(r, Enqueue(9));
  }

  // Two dequeue_bulk calls for two elements each have both decided to draw.
  lemma BothDecide() returns (r: Run<int>)
    ensures IsRun(r) && Last(r) == State(3, 0, 0, 0, [TakeTicket(2, 0), TakeTicket(2, 0)], [7, 8, 9], [], [])
  {
    r := Filled();
    r := Decides(r, 0);
    r := Decides(r, 1);
  }

  // A call of thread t up to where it draws its ticket.
  lemma Decides(r: Run<int>, t: nat) returns (longer: Run<int>)
    requires IsRun(r) && t < |Last(r).threads| && Last(r).threads[t] == Idle
    requires Last(r).tail == 3 && Last(r).optimistic == 0 && Last(r).overcommit == 0
    ensures IsRun(longer) && Last(longer) == Last(r).(threads := Last(r).threads[t := TakeTicket(2, 0)])
  {
    longer := Extend(r, Dequeue(t, 2));
    assert Last(longer) == Goto(Last(r), t, LoadOvercommit(2, 3));
    longer := Extend(longer, Continue(t));
    assert Last(longer) == Goto(Last(r), t, LoadOptimistic(2, 3, 0));
    longer := Extend(longer, Continue(t));
  }

  /** A claim for the part a ticket is worth need not end at the tail its call saw: tickets are drawn in one order
      and headIndex is advanced in another. Here the second ticket is worth one of three elements, and its call
      claims before the first one does. */
  lemma PartMayEndEarlier() returns (r: Run<int>, c: nat)
    ensures IsRun(r) && c < |r.moves| && r.states[c].threads == [Advance(2), Recheck(1, 2, 2, 0)]
    ensures r.moves[c] == Continue(1) && r.states[c].tail == 3 && Last(r).threads == [Advance(2), Owner(0, 1)]
  {
    r := BothDecide();
    r := Extend(r, Continue(0));
    r := Extend(r, Continue(1));
    r := Extend(r, Continue(0));
    assert Last(r).threads == [Advance(2), Recheck(1, 2, 2, 0)] && Last(r).head == 0;
    c := |r.moves|;
    r := Extend(r, Continue(1));
    assert Last(r).threads == [Advance(2), GiveBack(1, 1)];
    r := Extend(r, Continue(1));
    r := Extend(r, Continue(1));
  }
}
