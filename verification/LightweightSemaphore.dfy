/** LightweightSemaphore: a counter in front of a kernel semaphore, for any number of threads, one atomic
    access or kernel call per step.

    tryWait, wait and tryWaitMany are waitMany with max == 1 or without patience: they make the same
    accesses. returned, the permits handed to callers so far, and signalled, the permits signal has been
    called with, are auxiliary. A kernel wait without a time limit returns only with a permit. */
module LightweightSemaphore {
  import opened Totals

  datatype Patience = Never | Zero | Timed | Forever

  // waitMany(max, timeout); a tryWait has no patience at all.
  datatype Call = Call(max: nat, patience: Patience)

  datatype Pc =
    | Idle
    | TryLoad(call: Call, got: nat)                // tryWaitMany(max - got): load the count
    | TryCas(call: Call, got: nat, seen: int)      // its loop: CAS while seen is positive
    | SpinLoad(call: Call, spins: nat)
    | SpinCas(call: Call, spins: nat, seen: int)
    | FetchSub(call: Call)
    | Blocked(call: Call)                          // kernel wait or timed_wait
    | Repair(call: Call)                           // timed out: load the count
    | RepairCas(call: Call, seen: int)             // kernel try_wait, or CAS the count back up
    | Won(call: Call)                              // one permit won the slow way
    | Return(call: Call, got: nat)
    | Posting(left: nat)                           // signal: kernel posts still to make

  datatype State = State(
    count: int, kernel: nat, maxSpins: nat, threads: seq<Pc>, initial: nat, signalled: nat, returned: nat)

  // Weak: a compare_exchange_weak that fails although the count is as expected. Expire: a timed wait ends without a
  // permit.
  datatype Move =
    | Acquire(t: nat, call: Call)
    | Signal(t: nat, permits: nat)
    | Continue(t: nat)
    | Weak(t: nat)
    | Expire(t: nat)

  predicate Enabled(s: State, m: Move) {
    && m.t < |s.threads|
    && match m
       case Acquire(t, _) => s.threads[t].Idle?
       case Signal(t, _) => s.threads[t].Idle?
       case Continue(t) => !s.threads[t].Idle? && (s.threads[t].Blocked? ==> s.kernel > 0)
       case Weak(t) => s.threads[t].TryCas? && s.threads[t].seen > 0
       case Expire(t) => s.threads[t].Blocked? && s.threads[t].call.patience.Timed?
  }

  function Goto(s: State, t: nat, pc: Pc): State
    requires t < |s.threads|
  {
    s.(threads := s.threads[t := pc])
  }

  // What a CAS on a positive count leaves when up to want permits are taken.
  function Taken(seen: int, want: nat): int {
    if seen > want then seen - want else 0
  }

  // tryWaitMany has failed with got permits in hand.
  function GaveUpTrying(s: State, call: Call, got: nat): Pc {
    if got > 0 || call.patience.Never? || call.max == 0 then Return(call, got) else SpinLoad(call, s.maxSpins)
  }

  function Step(s: State, m: Move): State
    requires Enabled(s, m)
  {
    match m
    case Acquire(t, call) => Goto(s, t, TryLoad(call, 0))
    case Signal(t, permits) =>
      var toRelease := if -s.count < permits then -s.count else permits;
      Goto(s, t, if toRelease > 0 then Posting(toRelease) else Idle)
      .(count := s.count + permits, signalled := s.signalled + permits)
    case Weak(t) => s
    case Expire(t) => Goto(s, t, Repair(s.threads[t].call))
    case Continue(t) => StepContinue(s, t)
  }

  function StepContinue(s: State, t: nat): State
    requires Enabled(s, Continue(t))
  {
    match s.threads[t]
    case Idle => s
    case TryLoad(call, got) => Goto(s, t, TryCas(call, got, s.count))
    case TryCas(call, got, seen) =>
      if seen <= 0 then Goto(s, t, GaveUpTrying(s, call, got))
      else if s.count != seen then Goto(s, t, TryCas(call, got, s.count))
      else
        var left := Taken(seen, if got < call.max then call.max - got else 0);
        Goto(s, t, Return(call, got + seen - left)).(count := left)
    case SpinLoad(call, spins) =>
      if spins == 0 then Goto(s, t, FetchSub(call)) else Goto(s, t, SpinCas(call, spins - 1, s.count))
    case SpinCas(call, spins, seen) =>
      if seen > 0 && s.count == seen then
        Goto(s, t, Return(call, seen - Taken(seen, call.max))).(count := Taken(seen, call.max))
      else Goto(s, t, SpinLoad(call, spins))
    case FetchSub(call) =>
      Goto(s, t, if s.count > 0 then Won(call) else if call.patience.Zero? then Repair(call) else Blocked(call))
      .(count := s.count - 1)
    case Blocked(call) => Goto(s, t, Won(call)).(kernel := s.kernel - 1)
    case Repair(call) => Goto(s, t, RepairCas(call, s.count))
    case RepairCas(call, seen) =>
      if seen >= 0 then
        if s.kernel > 0 then Goto(s, t, Won(call)).(kernel := s.kernel - 1) else Goto(s, t, Repair(call))
      else
        if s.count == seen then Goto(s, t, Return(call, 0)).(count := seen + 1) else Goto(s, t, Repair(call))
    case Won(call) => Goto(s, t, if call.max > 1 then TryLoad(call, 1) else Return(call, 1))
    case Return(call, got) => Goto(s, t, Idle).(returned := s.returned + got)
    case Posting(left) =>
      if left > 1 then Goto(s, t, Posting(left - 1)).(kernel := s.kernel + 1)
      else Goto(s, t, Idle).(kernel := s.kernel + left)
  }

  // ----- the invariant

  // Permits a thread has taken from the semaphore and not returned to its caller yet.
  function Holding(pc: Pc): int {
    match pc
    case TryLoad(_, got) => got
    case TryCas(_, got, _) => got
    case Won(_) => 1
    case Return(_, got) => got
    case _ => 0
  }

  // One for a thread whose fetch_sub found no permit and whose wait is not resolved.
  function Waiting(pc: Pc): int {
    if pc.Blocked? || pc.Repair? || pc.RepairCas? then 1 else 0
  }

  function ToPost(pc: Pc): int {
    if pc.Posting? then pc.left else 0
  }

  function Positive(n: int): int {
    if n > 0 then n else 0
  }

  predicate ThreadOk(s: State, t: nat)
    requires t < |s.threads|
  {
    match s.threads[t]
    case TryLoad(call, got) => got == 0 || (got == 1 && call.max > 1)
    case TryCas(call, got, _) => got == 0 || (got == 1 && call.max > 1)
    case SpinLoad(call, _) => call.max > 0 && !call.patience.Never?
    case SpinCas(call, _, _) => call.max > 0 && !call.patience.Never?
    case FetchSub(call) => call.max > 0 && !call.patience.Never?
    case Blocked(call) => call.max > 0 && (call.patience.Timed? || call.patience.Forever?)
    case Repair(call) => call.max > 0 && (call.patience.Timed? || call.patience.Zero?)
    case RepairCas(call, _) => call.max > 0 && (call.patience.Timed? || call.patience.Zero?)
    case Won(call) => call.max > 0
    case Return(call, got) => got <= call.max && (call.patience.Forever? && call.max > 0 ==> got > 0)
    case Posting(left) => left > 0
    case Idle => true
  }

  predicate Inv(s: State) {
    // every permit is in the count, in the kernel, about to be posted, in a thread's hand, or returned
    && s.initial + s.signalled == s.returned + Total(s.threads, Holding) + Positive(s.count) + s.kernel
       + Total(s.threads, ToPost)
    // a negative count owes a permit to each waiter the kernel does not already have one for
    && Total(s.threads, Waiting) == Positive(-s.count) + s.kernel + Total(s.threads, ToPost)
    && (forall t :: 0 <= t < |s.threads| ==> ThreadOk(s, t))
  }

  predicate Init(s: State) {
    && s.count == s.initial && s.kernel == 0 && s.signalled == 0 && s.returned == 0
    && forall t :: 0 <= t < |s.threads| ==> s.threads[t].Idle?
  }

  lemma InitInv(s: State)
    requires Init(s)
    ensures Inv(s)
  {
    TotalZero(s.threads, Holding);
    TotalZero(s.threads, Waiting);
    TotalZero(s.threads, ToPost);
  }

  // Thread t moves and the shared counters change by what the thread's own contributions say.
  predicate Balanced(s: State, s': State, t: nat)
    requires t < |s.threads| == |s'.threads|
  {
    var was, now := s.threads[t], s'.threads[t];
    && s'.initial + s'.signalled - s.initial - s.signalled
       == s'.returned - s.returned + Holding(now) - Holding(was) + Positive(s'.count) - Positive(s.count)
          + s'.kernel - s.kernel + ToPost(now) - ToPost(was)
    && Waiting(now) - Waiting(was)
       == Positive(-s'.count) - Positive(-s.count) + s'.kernel - s.kernel + ToPost(now) - ToPost(was)
  }

  lemma BalancedInv(s: State, s': State, t: nat)
    requires Inv(s) && t < |s.threads| == |s'.threads| && s'.threads == s.threads[t := s'.threads[t]]
    requires ThreadOk(s', t) && Balanced(s, s', t)
    ensures Inv(s')
  {
    TotalUpdate(s.threads, t, s'.threads[t], Holding);
    TotalUpdate(s.threads, t, s'.threads[t], Waiting);
    TotalUpdate(s.threads, t, s'.threads[t], ToPost);
    forall u | 0 <= u < |s'.threads| ensures ThreadOk(s', u) { assert u != t ==> ThreadOk(s, u); }
  }

  predicate Fast(pc: Pc) {
    pc.TryLoad? || pc.TryCas? || pc.SpinLoad? || pc.SpinCas?
  }

  lemma FastBalanced(s: State, t: nat)
    requires Enabled(s, Continue(t)) && ThreadOk(s, t) && Fast(s.threads[t])
    ensures var s' := StepContinue(s, t); |s'.threads| == |s.threads| && ThreadOk(s', t) && Balanced(s, s', t)
  {
  }

  predicate Slow(pc: Pc) {
    pc.FetchSub? || pc.Blocked? || pc.Repair? || pc.RepairCas?
  }

  lemma SlowBalanced(s: State, t: nat)
    requires Enabled(s, Continue(t)) && ThreadOk(s, t) && Slow(s.threads[t])
    ensures var s' := StepContinue(s, t); |s'.threads| == |s.threads| && ThreadOk(s', t) && Balanced(s, s', t)
  {
  }

  lemma EndBalanced(s: State, t: nat)
    requires Enabled(s, Continue(t)) && ThreadOk(s, t) && !Fast(s.threads[t]) && !Slow(s.threads[t])
    ensures var s' := StepContinue(s, t); |s'.threads| == |s.threads| && ThreadOk(s', t) && Balanced(s, s', t)
  {
  }

  lemma ContinueInv(s: State, t: nat)
    requires Inv(s) && Enabled(s, Continue(t))
    ensures Inv(StepContinue(s, t))
  {
    var s' := StepContinue(s, t);
    assert ThreadOk(s, t);
    if Fast(s.threads[t]) {
      FastBalanced(s, t);
    } else if Slow(s.threads[t]) {
      SlowBalanced(s, t);
    } else {
      EndBalanced(s, t);
    }
    assert s'.threads == s.threads[t := s'.threads[t]];
    BalancedInv(s, s', t);
  }

  /** Every atomic access, kernel call, spurious failure and timeout of every thread keeps both counts. */
  lemma StepInv(s: State, m: Move)
    requires Inv(s) && Enabled(s, m)
    ensures Inv(Step(s, m))
  {
    assert ThreadOk(s, m.t);
    match m
    case Continue(t) => ContinueInv(s, t);
    case Weak(_) =>
    case Acquire(t, _) => BalancedInv(s, Step(s, m), t);
    case Signal(t, _) => BalancedInv(s, Step(s, m), t);
    case Expire(t) => BalancedInv(s, Step(s, m), t);
  }

  // ----- what holds over every run

  datatype Run = Run(states: seq<State>, moves: seq<Move>)

  ghost predicate IsRun(r: Run) {
    && |r.states| == |r.moves| + 1
    && Init(r.states[0])
    && forall i :: 0 <= i < |r.moves| ==>
         Enabled(r.states[i], r.moves[i]) && r.states[i + 1] == Step(r.states[i], r.moves[i])
  }

  lemma {:induction false} RunInv(r: Run, i: nat)
    requires IsRun(r) && i < |r.states|
    ensures Inv(r.states[i])
  {
    if i == 0 {
      InitInv(r.states[0]);
    } else {
      RunInv(r, i - 1);
      StepInv(r.states[i - 1], r.moves[i - 1]);
    }
  }

  /** Permits are conserved, and never more are handed to callers than there were. */
  lemma PermitsConserved(r: Run, i: nat)
    requires IsRun(r) && i < |r.states|
    ensures var s := r.states[i];
      && s.initial + s.signalled
         == s.returned + Total(s.threads, Holding) + Positive(s.count) + s.kernel + Total(s.threads, ToPost)
      && s.returned <= s.initial + s.signalled
  {
    RunInv(r, i);
    TotalNonNegative(r.states[i].threads, Holding);
    TotalNonNegative(r.states[i].threads, ToPost);
  }

  /** The waiters not resolved yet are as many as the count is negative plus the permits the kernel has or is
      getting. */
  lemma WaitersCounted(r: Run, i: nat)
    requires IsRun(r) && i < |r.states|
    ensures var s := r.states[i]; Total(s.threads, Waiting) == Positive(-s.count) + s.kernel + Total(s.threads, ToPost)
  {
    RunInv(r, i);
  }

  /** While a waiter that has timed out sees a count that is not negative, the kernel has a permit for it or is about
      to get one: the repair loop neither drops a permit nor waits for one that is not coming. */
  lemma RepairHasPermit(r: Run, i: nat, t: nat)
    requires IsRun(r) && i < |r.states| && t < |r.states[i].threads|
    requires Waiting(r.states[i].threads[t]) == 1 && r.states[i].count >= 0
    ensures r.states[i].kernel + Total(r.states[i].threads, ToPost) >= 1
  {
    RunInv(r, i);
    TotalCovers(r.states[i].threads, t, Waiting);
  }

  /** When nobody is inside a call, every permit is in the count again and the kernel semaphore is empty. */
  lemma QuietState(r: Run, i: nat)
    requires IsRun(r) && i < |r.states| && forall t :: 0 <= t < |r.states[i].threads| ==> r.states[i].threads[t].Idle?
    ensures var s := r.states[i]; s.kernel == 0 && s.count >= 0 && s.initial + s.signalled == s.returned + s.count
  {
    RunInv(r, i);
    TotalZero(r.states[i].threads, Holding);
    TotalZero(r.states[i].threads, Waiting);
    TotalZero(r.states[i].threads, ToPost);
  }

  /** Threads are only ever stuck in the kernel for good when every permit has gone to a caller. */
  lemma StuckOnlyWithoutPermits(r: Run, i: nat, t: nat)
    requires IsRun(r) && i < |r.states| && t < |r.states[i].threads| && r.states[i].threads[t].Blocked?
    requires r.states[i].kernel == 0
    requires forall u :: 0 <= u < |r.states[i].threads| ==>
              r.states[i].threads[u].Idle? || r.states[i].threads[u].Blocked?
    ensures var s := r.states[i];
            && s.count == -Total(s.threads, Waiting) && s.count < 0
            && s.returned == s.initial + s.signalled
  {
    var s := r.states[i];
    RunInv(r, i);
    TotalZero(s.threads, Holding);
    TotalZero(s.threads, ToPost);
    TotalCovers(s.threads, t, Waiting);
  }

  /** A call returns at most max permits, and at least one if it waits without a time limit. */
  lemma ReturnedAmount(r: Run, i: nat, t: nat)
    requires IsRun(r) && i < |r.states| && t < |r.states[i].threads| && r.states[i].threads[t].Return?
    ensures var pc := r.states[i].threads[t];
      pc.got <= pc.call.max && (pc.call.patience.Forever? && pc.call.max > 0 ==> pc.got > 0)
  {
    RunInv(r, i);
    assert ThreadOk(r.states[i], t);
  }

  /** A call that meets no interference takes min(max, count) permits without entering the kernel whenever there are
      any. */
  lemma LoneAcquire(r: Run, i: nat, t: nat, call: Call) returns (s1: State, s2: State)
    requires IsRun(r) && i < |r.states| && t < |r.states[i].threads| && r.states[i].threads[t].Idle?
    requires r.states[i].count > 0 && call.max > 0
    ensures
      var s, s0 := r.states[i], Step(r.states[i], Acquire(t, call));
      var got := if s.count < call.max then s.count else call.max;
      && Enabled(s0, Continue(t)) && s1 == Step(s0, Continue(t))
      && Enabled(s1, Continue(t)) && s2 == Step(s1, Continue(t))
      && got >= 0 && s2.threads[t] == Return(call, got) && s2.count == s.count - got && s2.kernel == s.kernel
  {
    var s0 := Step(r.states[i], Acquire(t, call));
    s1 := Step(s0, Continue(t));
    s2 := Step(s1, Continue(t));
  }

  // The thread's next access is a load of the count or a CAS on it.
  predicate LooksAtCount(pc: Pc) {
    pc.TryLoad? || pc.TryCas? || pc.SpinCas? || pc.RepairCas?
  }

  // The move has just read the count that thread t compares with, or left the thread alone.
  predicate ReadsOrStays(s: State, m: Move, t: nat, s': State) {
    t < |s.threads| == |s'.threads|
    && (s'.threads[t].TryCas? ==>
          if m.t == t && !m.Weak? then
            m == Continue(t) && s.count == s'.threads[t].seen && LooksAtCount(s.threads[t])
          else s'.threads[t] == s.threads[t])
  }

  lemma StepReads(s: State, m: Move, t: nat, s': State)
    requires Enabled(s, m) && s' == Step(s, m) && t < |s'.threads|
    ensures ReadsOrStays(s, m, t, s')
  {
  }

  // Where the loop of tryWaitMany got the count it has seen: at the thread's last access that went through.
  lemma {:induction false} SeenAt(states: seq<State>, moves: seq<Move>, l: nat, t: nat) returns (k: nat)
    requires |states| == |moves| + 1 && l < |states| && t < |states[l].threads| && states[l].threads[t].TryCas?
    requires forall x :: 0 <= x < l ==> ReadsOrStays(states[x], moves[x], t, states[x + 1])
    requires t < |states[0].threads| && !states[0].threads[t].TryCas?
    ensures k < l && moves[k] == Continue(t) && states[k].count == states[l].threads[t].seen
    ensures t < |states[k].threads| && LooksAtCount(states[k].threads[t])
    ensures forall x :: k < x < l ==> moves[x].t == t ==> moves[x].Weak?
  {
    k := l - 1;
    assert ReadsOrStays(states[l - 1], moves[l - 1], t, states[l]);
    if moves[l - 1].t != t || moves[l - 1].Weak? {
      k := SeenAt(states, moves, l - 1, t);
    }
  }

  lemma {:induction false} SameThreads(r: Run, l: nat)
    requires IsRun(r) && l < |r.states|
    ensures |r.states[l].threads| == |r.states[0].threads|
  {
    if l > 0 {
      SameThreads(r, l - 1);
    }
  }

  lemma RunReads(r: Run, l: nat, t: nat)
    requires IsRun(r) && l < |r.states| && t < |r.states[l].threads|
    ensures t < |r.states[0].threads| && !r.states[0].threads[t].TryCas?
    ensures forall x :: 0 <= x < l ==> ReadsOrStays(r.states[x], r.moves[x], t, r.states[x + 1])
  {
    SameThreads(r, l);
    forall x | 0 <= x < l
      ensures ReadsOrStays(r.states[x], r.moves[x], t, r.states[x + 1])
    {
      SameThreads(r, x + 1);
      StepReads(r.states[x], r.moves[x], t, r.states[x + 1]);
    }
  }

  /** However many threads take and signal, a call settles for fewer than max permits only if the last count it read or
      swapped was not positive, or was one that it took whole. */
  lemma FewerOnlyIfShort(r: Run, j: nat, t: nat) returns (k: nat)
    requires IsRun(r) && j < |r.moves| && r.moves[j] == Continue(t) && t < |r.states[j + 1].threads|
    requires !r.states[j].threads[t].Return? && r.states[j + 1].threads[t].Return?
    requires r.states[j + 1].threads[t].got < r.states[j + 1].threads[t].call.max
    ensures k <= j && r.moves[k] == Continue(t) && t < |r.states[k].threads| && LooksAtCount(r.states[k].threads[t])
    ensures forall x :: k < x < j ==> r.moves[x].t == t ==> r.moves[x].Weak?
    ensures r.states[k].count <= 0 || (k == j && r.states[j + 1].count == 0)
  {
    RunInv(r, j);
    assert ThreadOk(r.states[j], t);
    k := j;
    if r.states[j].threads[t].TryCas? && r.states[j].threads[t].seen <= 0 {
      RunReads(r, j, t);
      k := SeenAt(r.states, r.moves, j, t);
    }
  }

  // ----- a call that runs alone ends

  ghost predicate NoOtherPosts(s: State, t: nat) {
    forall u :: 0 <= u < |s.threads| && u != t ==> !s.threads[u].Posting?
  }

  // Which part of the call is still to come, the last first. A CAS on an outdated count only reads it again.
  function Stage(s: State, pc: Pc): nat {
    match pc
    case Idle => 0
    case Posting(left) => 1
    case Return(_, _) => 2
    case TryCas(_, got, seen) => (if got > 0 then 3 else 13) + if seen == s.count then 0 else 1
    case TryLoad(_, got) => if got > 0 then 5 else 15
    case Won(_) => 6
    case Blocked(_) => 7
    case RepairCas(_, seen) => if seen == s.count then 8 else 10
    case Repair(_) => 9
    case FetchSub(_) => 11
    case SpinCas(_, _, _) => 12
    case SpinLoad(_, _) => 12
  }

  function Rounds(pc: Pc): nat {
    match pc
    case Posting(left) => left
    case SpinLoad(_, spins) => 2 * spins
    case SpinCas(_, spins, _) => 2 * spins + 1
    case _ => 0
  }

  // The thread can do nothing until a permit is posted, or has returned.
  predicate Over(s: State, t: nat) {
    t < |s.threads| && (s.threads[t].Idle? || (s.threads[t].Blocked? && s.kernel == 0))
  }

  predicate Nearer(s: State, t: nat, s': State) {
    t < |s.threads| && t < |s'.threads|
    && var was, now := s.threads[t], s'.threads[t];
       Stage(s', now) < Stage(s, was) || (Stage(s', now) == Stage(s, was) && Rounds(now) < Rounds(was))
  }

  // A waiter that has timed out finds a permit in the kernel, or a count it can put back.
  lemma RepairPermit(s: State, t: nat)
    requires Inv(s) && t < |s.threads| && NoOtherPosts(s, t) && Waiting(s.threads[t]) == 1
    ensures s.count < 0 || s.kernel > 0
  {
    TotalCovers(s.threads, t, Waiting);
    TotalZero(s.threads, ToPost);
  }

  lemma StepNearer(s: State, t: nat)
    requires Inv(s) && t < |s.threads| && NoOtherPosts(s, t) && !Over(s, t)
    ensures Enabled(s, Continue(t)) && Nearer(s, t, StepContinue(s, t)) && NoOtherPosts(StepContinue(s, t), t)
  {
    assert ThreadOk(s, t);
    if s.threads[t].RepairCas? {
      RepairPermit(s, t);
    }
  }

  // The state after k more accesses of thread t, as far as it can make them.
  function Alone(s: State, t: nat, k: nat): State
    requires t < |s.threads|
    decreases k
  {
    if k == 0 || Over(s, t) then s else Alone(StepContinue(s, t), t, k - 1)
  }

  lemma {:induction false} EndsWithin(s: State, t: nat, stage: nat, rounds: nat) returns (k: nat)
    requires Inv(s) && t < |s.threads| && NoOtherPosts(s, t)
    requires stage == Stage(s, s.threads[t]) && rounds == Rounds(s.threads[t])
    ensures Over(Alone(s, t, k), t) && Inv(Alone(s, t, k)) && NoOtherPosts(Alone(s, t, k), t)
    decreases stage, rounds
  {
    k := 0;
    if !Over(s, t) {
      StepNearer(s, t);
      StepInv(s, Continue(t));
      var s' := StepContinue(s, t);
      k := EndsWithin(s', t, Stage(s', s'.threads[t]), Rounds(s'.threads[t]));
      k := k + 1;
    }
  }

  /** Wherever the other threads are, as long as none of them is about to post, a call that runs alone returns, or stays
      in the kernel with no permit there and none in the count. */
  lemma EndsAlone(s: State, t: nat) returns (k: nat)
    requires Inv(s) && t < |s.threads| && NoOtherPosts(s, t)
    ensures t < |Alone(s, t, k).threads|
    ensures var r := Alone(s, t, k);
            r.threads[t].Idle? || (r.threads[t].Blocked? && r.kernel == 0 && r.count < 0)
  {
    k := EndsWithin(s, t, Stage(s, s.threads[t]), Rounds(s.threads[t]));
    var r := Alone(s, t, k);
    if r.threads[t].Blocked? {
      TotalZero(r.threads, ToPost);
      TotalCovers(r.threads, t, Waiting);
    }
  }
}
