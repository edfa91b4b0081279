/** BlockingConcurrentQueue: an inner queue whose elements are paired with the permits of a
    LightweightSemaphore. An enqueuer puts elements in and then signals; a dequeuer first acquires permits and
    then calls the inner try_dequeue until it has turned each of them into an element.

    The inner queue is seen through the number of elements it holds. Its try_dequeue may fail or return fewer
    elements than asked for at any time, but never more than it holds. */
module BlockingQueue {
  import opened Totals
  import S = LightweightSemaphore

  datatype Pc =
    | Free
    | Added(count: nat)       // the inner enqueue is done, the semaphore is not signalled yet
    | Signalling              // inside sema->signal
    | Acquiring               // inside sema->wait, tryWait, waitMany or tryWaitMany
    | Taking(left: nat)       // permits to turn into elements: the loop around inner.try_dequeue

  datatype State = State(sema: S.State, elements: nat, threads: seq<Pc>)

  // Semaphore: the thread makes one step inside the semaphore call it is in.
  datatype Move =
    | Enqueue(t: nat, count: nat)
    | BeginSignal(t: nat)
    | Dequeue(t: nat, call: S.Call)
    | Semaphore(m: S.Move)
    | TryDequeue(t: nat, got: nat)

  predicate Enabled(s: State, m: Move)
    requires InRange(s)
  {
    match m
    case Enqueue(t, _) => t < |s.threads| && s.threads[t].Free?
    case BeginSignal(t) => t < |s.threads| && s.threads[t].Added?
    case Dequeue(t, _) => t < |s.threads| && s.threads[t].Free?
    case Semaphore(c) =>
      && !c.Acquire? && !c.Signal? && S.Enabled(s.sema, c)
      && (s.threads[c.t].Signalling? || s.threads[c.t].Acquiring?)
    case TryDequeue(t, got) =>
      t < |s.threads| && s.threads[t].Taking? && got <= s.threads[t].left && got <= s.elements
  }

  // A thread is inside a semaphore call exactly while it says so.
  predicate InRange(s: State) {
    && |s.threads| == |s.sema.threads|
    && forall t :: 0 <= t < |s.threads| ==>
         match s.threads[t]
         case Signalling => s.sema.threads[t].Posting?
         case Acquiring => !s.sema.threads[t].Idle? && !s.sema.threads[t].Posting?
         case _ => s.sema.threads[t].Idle?
  }

  function Goto(s: State, t: nat, pc: Pc): State
    requires t < |s.threads|
  {
    s.(threads := s.threads[t := pc])
  }

  function After(left: nat): Pc {
    if left > 0 then Taking(left) else Free
  }

  function Step(s: State, m: Move): State
    requires InRange(s) && Enabled(s, m)
  {
    match m
    case Enqueue(t, count) => Goto(s, t, Added(count)).(elements := s.elements + count)
    case BeginSignal(t) =>
      var sema := S.Step(s.sema, S.Signal(t, s.threads[t].count));
      Goto(s, t, if sema.threads[t].Idle? then Free else Signalling).(sema := sema)
    case Dequeue(t, call) => Goto(s, t, Acquiring).(sema := S.Step(s.sema, S.Acquire(t, call)))
    case Semaphore(c) =>
      var sema := S.Step(s.sema, c);
      var pc := s.sema.threads[c.t];
      Goto(s, c.t, if !sema.threads[c.t].Idle? then s.threads[c.t] else if pc.Return? then After(pc.got) else Free)
      .(sema := sema)
    case TryDequeue(t, got) => Goto(s, t, After(s.threads[t].left - got)).(elements := s.elements - got)
  }

  // ----- the invariant

  function Unsignalled(pc: Pc): int {
    if pc.Added? then pc.count else 0
  }

  function ToTake(pc: Pc): int {
    if pc.Taking? then pc.left else 0
  }

  predicate Inv(s: State) {
    && InRange(s)
    && S.Inv(s.sema)
    && s.sema.initial == 0
    && s.elements + s.sema.returned == s.sema.signalled + Total(s.threads, Unsignalled) + Total(s.threads, ToTake)
    && forall t :: 0 <= t < |s.threads| ==> s.threads[t].Taking? ==> s.threads[t].left > 0
  }

  predicate Init(s: State) {
    && S.Init(s.sema) && s.sema.initial == 0
    && s.elements == 0
    && |s.threads| == |s.sema.threads|
    && forall t :: 0 <= t < |s.threads| ==> s.threads[t].Free?
  }

  lemma InitInv(s: State)
    requires Init(s)
    ensures Inv(s)
  {
    S.InitInv(s.sema);
    TotalZero(s.threads, Unsignalled);
    TotalZero(s.threads, ToTake);
  }

  // Thread t moves; elements, signalled and returned permits change by what its own contributions say.
  lemma BalancedInv(s: State, s': State, t: nat)
    requires Inv(s) && InRange(s') && S.Inv(s'.sema) && s'.sema.initial == 0
    requires t < |s.threads| == |s'.threads| && s'.threads == s.threads[t := s'.threads[t]]
    requires s'.threads[t].Taking? ==> s'.threads[t].left > 0
    requires
      var was, now := s.threads[t], s'.threads[t];
      s'.elements - s.elements + s'.sema.returned - s.sema.returned
      == s'.sema.signalled - s.sema.signalled + Unsignalled(now) - Unsignalled(was) + ToTake(now) - ToTake(was)
    ensures Inv(s')
  {
    TotalUpdate(s.threads, t, s'.threads[t], Unsignalled);
    TotalUpdate(s.threads, t, s'.threads[t], ToTake);
  }

  // What one access inside a semaphore call changes, seen from outside.
  lemma SemaphoreFrame(s: S.State, c: S.Move)
    requires S.Inv(s) && S.Enabled(s, c) && !c.Acquire? && !c.Signal?
    ensures var s' := S.Step(s, c);
      && S.Inv(s') && s'.initial == s.initial && s'.signalled == s.signalled
      && |s'.threads| == |s.threads| && s'.threads == s.threads[c.t := s'.threads[c.t]]
      && !s.threads[c.t].Idle?
      && (s'.threads[c.t].Idle? ==> s.threads[c.t].Return? || s.threads[c.t].Posting?)
      && (s.threads[c.t].Return? ==> s'.threads[c.t].Idle?)
      && (s'.threads[c.t].Posting? <==> s.threads[c.t].Posting? && !s'.threads[c.t].Idle?)
      && s'.returned == s.returned + if s.threads[c.t].Return? then s.threads[c.t].got else 0
  {
    S.StepInv(s, c);
  }

  lemma SemaphoreInv(s: State, c: S.Move)
    requires Inv(s) && Enabled(s, Semaphore(c))
    ensures Inv(Step(s, Semaphore(c)))
  {
    SemaphoreFrame(s.sema, c);
    BalancedInv(s, Step(s, Semaphore(c)), c.t);
  }

  /** Every step keeps the balance of elements and permits. */
  lemma StepInv(s: State, m: Move)
    requires Inv(s) && Enabled(s, m)
    ensures Inv(Step(s, m))
  {
    match m
    case Enqueue(t, _) => BalancedInv(s, Step(s, m), t);
    case BeginSignal(t) =>
      S.StepInv(s.sema, S.Signal(t, s.threads[t].count));
      BalancedInv(s, Step(s, m), t);
    case Dequeue(t, call) =>
      S.StepInv(s.sema, S.Acquire(t, call));
      BalancedInv(s, Step(s, m), t);
    case Semaphore(c) => SemaphoreInv(s, c);
    case TryDequeue(t, _) => BalancedInv(s, Step(s, m), t);
  }

  // ----- what holds over every run

  datatype Run = Run(states: seq<State>, moves: seq<Move>)

  ghost predicate IsRun(r: Run) {
    && |r.states| == |r.moves| + 1
    && Init(r.states[0])
    && forall i :: 0 <= i < |r.moves| ==>
         InRange(r.states[i]) && Enabled(r.states[i], r.moves[i]) && r.states[i + 1] == Step(r.states[i], r.moves[i])
  }

  lemma {:induction false} RunInv(r: Run, i: nat)
    requires IsRun(r) && i < |r.states|
    ensures Inv(r.states[i])
  {
    if i == 0 {
      InitInv(r.states[0]);
    } else {
      RunInv(r, i - 1);
      StepInv(r.states[i - 1], r.moves[i - 1]);
    }
  }

  /** Every enabled step carries a run on: the states of a run are always in range. */
  lemma RunGoesOn(r: Run, m: Move)
    requires IsRun(r)
    ensures var s := r.states[|r.moves|];
            && InRange(s)
            && (Enabled(s, m) ==> IsRun(Run(r.states + [Step(s, m)], r.moves + [m])))
  {
    RunInv(r, |r.moves|);
    var s := r.states[|r.moves|];
    if Enabled(s, m) {
      var longer := Run(r.states + [Step(s, m)], r.moves + [m]);
      forall i | 0 <= i < |longer.moves|
        ensures InRange(longer.states[i]) && Enabled(longer.states[i], longer.moves[i])
        ensures longer.states[i + 1] == Step(longer.states[i], longer.moves[i])
      {
        if i < |r.moves| {
          assert longer.states[i] == r.states[i] && longer.states[i + 1] == r.states[i + 1]
                 && longer.moves[i] == r.moves[i];
        }
      }
    }
  }

  // Permits that can still be acquired or are on their way out of the semaphore.
  function Permits(s: State): int {
    S.Positive(s.sema.count) + s.sema.kernel + Total(s.sema.threads, S.ToPost) + Total(s.sema.threads, S.Holding)
  }

  /** Permits still in the semaphore and permits granted but not yet turned into an element are all backed by elements
      of the inner queue; the only elements not backing one belong to enqueuers that have not signalled yet. */
  lemma PermitsBacked(r: Run, i: nat)
    requires IsRun(r) && i < |r.states|
    ensures var s := r.states[i];
      && Permits(s) >= 0
      && Permits(s) + Total(s.threads, ToTake) + Total(s.threads, Unsignalled) == s.elements
  {
    RunInv(r, i);
    TotalNonNegative(r.states[i].sema.threads, S.ToPost);
    TotalNonNegative(r.states[i].sema.threads, S.Holding);
  }

  /** A thread in the loop around try_dequeue always finds the inner queue holding at least as many elements as it still
      has to take, whatever the other threads do. */
  lemma TakerHasElements(r: Run, i: nat, t: nat)
    requires IsRun(r) && i < |r.states| && t < |r.states[i].threads| && r.states[i].threads[t].Taking?
    ensures 0 < r.states[i].threads[t].left <= Total(r.states[i].threads, ToTake) <= r.states[i].elements
  {
    RunInv(r, i);
    PermitsBacked(r, i);
    TotalCovers(r.states[i].threads, t, ToTake);
    TotalNonNegative(r.states[i].threads, Unsignalled);
  }

  /** Nobody waits for good while an element is left: if every thread is outside the queue or blocked in the kernel and
      the kernel has no permit, the queue is empty. */
  lemma BlockedOnlyWhenEmpty(r: Run, i: nat, t: nat)
    requires IsRun(r) && i < |r.states| && t < |r.states[i].threads|
    requires r.states[i].sema.kernel == 0 && r.states[i].threads[t].Acquiring?
    requires forall u :: 0 <= u < |r.states[i].threads| ==>
               r.states[i].threads[u].Free?
               || (r.states[i].threads[u].Acquiring? && u < |r.states[i].sema.threads|
                  && r.states[i].sema.threads[u].Blocked?)
    ensures r.states[i].elements == 0
  {
    var s := r.states[i];
    RunInv(r, i);
    PermitsBacked(r, i);
    TotalZero(s.threads, Unsignalled);
    TotalZero(s.threads, ToTake);
    TotalZero(s.sema.threads, S.ToPost);
    TotalZero(s.sema.threads, S.Holding);
    TotalCovers(s.sema.threads, t, S.Waiting);
  }
}
