/** The reference-counted lock-free free list: FreeList::add, try_get and
    add_knowing_refcount_is_zero, for any number of threads and nodes, one atomic access per step.

    A node's reference word keeps the count in its low 31 bits and "should be on the free list" in
    the top bit. Two components are auxiliary and never read by a step that models code: the place
    of a node says who is responsible for it, and list is the chain the next pointers spell out. */
module FreeList {
  import opened Totals

  const SHOULD_BE_ON_FREELIST := 0x8000_0000
  const WORD := 0x1_0000_0000

  datatype Place =
    | WithClient          // handed out, or never added yet
    | Preparing(owner: nat)  // a thread runs add_knowing_refcount_is_zero, word not yet stored
    | Publishing(owner: nat) // that thread has stored the word 1 and tries to swing the head
    | Owed                // bit set, some thread still holds a reference and must add the node
    | Listed              // on the list
    | Taking(owner: nat)     // unlinked by a thread that has not dropped its references yet

  datatype Node = Node(refs: nat, next: Option<nat>, place: Place)

  // What a thread does after add_knowing_refcount_is_zero returns.
  datatype Then = Return | Resume(head: Option<nat>)

  // A thread's next atomic access, with the locals it still needs.
  datatype Pc =
    | Idle
    | Loop(head: Option<nat>)                         // the loop test of try_get, then load refs
    | TryRef(node: nat, refs: nat)                    // CAS the reference word
    | Reload                                          // load the head again
    | LoadNext(node: nat)                             // reference held: load next
    | SwingHead(node: nat, next: Option<nat>)         // CAS the head away from node
    | DropTwo(node: nat)                              // head swung: fetch_sub(2) and return node
    | DropOne(node: nat, head: Option<nat>)           // head CAS lost: fetch_sub(1)
    | LoadHead(node: nat, ret: Then)                 // add_knowing_refcount_is_zero from here on
    | StoreNext(node: nat, head: Option<nat>, ret: Then)
    | StoreRefs(node: nat, head: Option<nat>, ret: Then)
    | PublishHead(node: nat, head: Option<nat>, ret: Then)
    | Restore(node: nat, head: Option<nat>, ret: Then)

  datatype State = State(head: Option<nat>, nodes: seq<Node>, threads: seq<Pc>, list: seq<nat>)

  // An idle thread chooses a call; a busy one continues.
  datatype Move = Add(t: nat, node: nat) | TryGet(t: nat) | Continue(t: nat)

  predicate IsNode(s: State, n: Option<nat>) {
    n.Some? ==> n.value < |s.nodes|
  }

  predicate PcInRange(s: State, pc: Pc) {
    match pc
    case Idle | Reload => true
    case Loop(h) => IsNode(s, h)
    case TryRef(n, _) => n < |s.nodes|
    case LoadNext(n) => n < |s.nodes|
    case SwingHead(n, h) => n < |s.nodes| && IsNode(s, h)
    case DropTwo(n) => n < |s.nodes|
    case DropOne(n, h) => n < |s.nodes| && IsNode(s, h)
    case LoadHead(n, c) => n < |s.nodes| && ThenInRange(s, c)
    case StoreNext(n, h, c) => n < |s.nodes| && IsNode(s, h) && ThenInRange(s, c)
    case StoreRefs(n, h, c) => n < |s.nodes| && IsNode(s, h) && ThenInRange(s, c)
    case PublishHead(n, h, c) => n < |s.nodes| && IsNode(s, h) && ThenInRange(s, c)
    case Restore(n, h, c) => n < |s.nodes| && IsNode(s, h) && ThenInRange(s, c)
  }

  predicate ThenInRange(s: State, c: Then) {
    c.Resume? ==> IsNode(s, c.head)
  }

  predicate InRange(s: State) {
    && IsNode(s, s.head)
    && (forall n :: 0 <= n < |s.nodes| ==> IsNode(s, s.nodes[n].next))
    && (forall t :: 0 <= t < |s.threads| ==> PcInRange(s, s.threads[t]))
  }

  // ----- the steps

  predicate Enabled(s: State, m: Move) {
    && m.t < |s.threads|
    && match m
       case Add(t, n) => s.threads[t].Idle? && n < |s.nodes| && s.nodes[n].place.WithClient?
       case TryGet(t) => s.threads[t].Idle?
       case Continue(t) => !s.threads[t].Idle?
  }

  function Goto(s: State, t: nat, pc: Pc): State
    requires t < |s.threads|
  {
    s.(threads := s.threads[t := pc])
  }

  function SetNode(s: State, n: nat, node: Node): State
    requires n < |s.nodes|
  {
    s.(nodes := s.nodes[n := node])
  }

  // 32-bit arithmetic on the reference word: the sum and difference wrap, the mask drops the top bit.
  function FetchAdd(word: nat, delta: nat): nat {
    if word + delta < WORD then word + delta else word + delta - WORD
  }

  function FetchSub(word: nat, delta: nat): nat
    requires delta <= WORD
  {
    if word >= delta then word - delta else word + WORD - delta
  }

  function Masked(word: nat): nat {
    if word < SHOULD_BE_ON_FREELIST then word else word - SHOULD_BE_ON_FREELIST
  }

  function After(ret: Then): Pc {
    match ret
    case Return => Idle
    case Resume(h) => Loop(h)
  }

  function Step(s: State, m: Move): State
    requires InRange(s) && Enabled(s, m)
  {
    var t := m.t;
    match s.threads[t]
    case Idle => if m.Add? then BeginAdd(s, t, m.node) else Goto(s, t, Loop(s.head))
    case Loop(h) => if h.None? then Goto(s, t, Idle) else Goto(s, t, TryRef(h.value, s.nodes[h.value].refs))
    case Reload => Goto(s, t, Loop(s.head))
    case TryRef(n, r) => StepTryRef(s, t, n, r)
    case LoadNext(n) => Goto(s, t, SwingHead(n, s.nodes[n].next))
    case SwingHead(n, h) => StepSwingHead(s, t, n, h)
    case DropTwo(n) => StepDropTwo(s, t, n)
    case DropOne(n, h) => StepDropOne(s, t, n, h)
    case LoadHead(n, c) => Goto(s, t, StoreNext(n, s.head, c))
    case StoreNext(n, h, c) => StepStoreNext(s, t, n, h, c)
    case StoreRefs(n, h, c) => StepStoreRefs(s, t, n, h, c)
    case PublishHead(n, h, c) => StepPublishHead(s, t, n, h, c)
    case Restore(n, h, c) => StepRestore(s, t, n, h, c)
  }

  // add: fetch_add(SHOULD_BE_ON_FREELIST)
  function BeginAdd(s: State, t: nat, n: nat): State
    requires t < |s.threads| && n < |s.nodes|
  {
    var was := s.nodes[n].refs;
    var now := FetchAdd(was, SHOULD_BE_ON_FREELIST);
    if was == 0 then
      Goto(SetNode(s, n, s.nodes[n].(refs := now, place := Preparing(t))), t, LoadHead(n, Return))
    else
      SetNode(s, n, s.nodes[n].(refs := now, place := Owed))
  }

  // a zero count means the head is loaded again; otherwise CAS refs -> refs + 1
  function StepTryRef(s: State, t: nat, n: nat, r: nat): State
    requires t < |s.threads| && n < |s.nodes|
  {
    if Masked(r) == 0 then Goto(s, t, Loop(s.head))
    else if s.nodes[n].refs == r then Goto(SetNode(s, n, s.nodes[n].(refs := FetchAdd(r, 1))), t, LoadNext(n))
    else Goto(s, t, Reload)
  }

  // CAS the head from n to the next pointer read earlier
  function StepSwingHead(s: State, t: nat, n: nat, next: Option<nat>): State
    requires t < |s.threads| && n < |s.nodes|
  {
    if s.head == Some(n) then
      Goto(SetNode(s, n, s.nodes[n].(place := Taking(t))), t, DropTwo(n))
      .(head := next, list := if |s.list| > 0 then s.list[1..] else [])
    else Goto(s, t, DropOne(n, s.head))
  }

  function StepDropTwo(s: State, t: nat, n: nat): State
    requires t < |s.threads| && n < |s.nodes|
  {
    Goto(SetNode(s, n, s.nodes[n].(refs := FetchSub(s.nodes[n].refs, 2), place := WithClient)), t, Idle)
  }

  function StepDropOne(s: State, t: nat, n: nat, head: Option<nat>): State
    requires t < |s.threads| && n < |s.nodes|
  {
    var was := s.nodes[n].refs;
    var now := FetchSub(was, 1);
    if was == SHOULD_BE_ON_FREELIST + 1 then
      Goto(SetNode(s, n, s.nodes[n].(refs := now, place := Preparing(t))), t, LoadHead(n, Resume(head)))
    else
      Goto(SetNode(s, n, s.nodes[n].(refs := now)), t, Loop(head))
  }

  function StepStoreNext(s: State, t: nat, n: nat, head: Option<nat>, ret: Then): State
    requires t < |s.threads| && n < |s.nodes|
  {
    Goto(SetNode(s, n, s.nodes[n].(next := head)), t, StoreRefs(n, head, ret))
  }

  function StepStoreRefs(s: State, t: nat, n: nat, head: Option<nat>, ret: Then): State
    requires t < |s.threads| && n < |s.nodes|
  {
    Goto(SetNode(s, n, s.nodes[n].(refs := 1, place := Publishing(t))), t, PublishHead(n, head, ret))
  }

  // CAS the head from the value read earlier to n
  function StepPublishHead(s: State, t: nat, n: nat, head: Option<nat>, ret: Then): State
    requires t < |s.threads| && n < |s.nodes|
  {
    if s.head == head then
      Goto(SetNode(s, n, s.nodes[n].(place := Listed)), t, After(ret)).(head := Some(n), list := [n] + s.list)
    else Goto(s, t, Restore(n, s.head, ret))
  }

  // the head CAS failed: fetch_add(SHOULD_BE_ON_FREELIST - 1)
  function StepRestore(s: State, t: nat, n: nat, head: Option<nat>, ret: Then): State
    requires t < |s.threads| && n < |s.nodes|
  {
    var was := s.nodes[n].refs;
    var now := FetchAdd(was, SHOULD_BE_ON_FREELIST - 1);
    if was == 1 then
      Goto(SetNode(s, n, s.nodes[n].(refs := now, place := Preparing(t))), t, StoreNext(n, head, ret))
    else
      Goto(SetNode(s, n, s.nodes[n].(refs := now, place := Owed)), t, After(ret))
  }

  // ----- the invariant

  // The counted reference a thread holds on node n.
  function Holds(n: nat): Pc -> int {
    (pc: Pc) =>
      match pc
      case LoadNext(m) => if m == n then 1 else 0
      case SwingHead(m, _) => if m == n then 1 else 0
      case DropTwo(m) => if m == n then 1 else 0
      case DropOne(m, _) => if m == n then 1 else 0
      case _ => 0
  }

  function Holders(s: State, n: nat): int {
    Total(s.threads, Holds(n))
  }

  predicate Prepares(pc: Pc, n: nat) {
    match pc
    case LoadHead(m, _) => m == n
    case StoreNext(m, _, _) => m == n
    case StoreRefs(m, _, _) => m == n
    case _ => false
  }

  predicate Publishes(pc: Pc, n: nat) {
    match pc
    case PublishHead(m, _, _) => m == n
    case Restore(m, _, _) => m == n
    case _ => false
  }

  // The reference word of a node is what its place and its holders say.
  predicate WordOk(s: State, n: nat)
    requires n < |s.nodes|
  {
    var held := Holders(s, n);
    match s.nodes[n].place
    case WithClient => s.nodes[n].refs == held
    case Preparing(_) => s.nodes[n].refs == SHOULD_BE_ON_FREELIST && held == 0
    case Publishing(_) => s.nodes[n].refs == 1 + held
    case Owed => s.nodes[n].refs == SHOULD_BE_ON_FREELIST + held && held > 0
    case Listed => s.nodes[n].refs == 1 + held
    case Taking(_) => s.nodes[n].refs == 1 + held
  }

  predicate PlaceOk(s: State, n: nat)
    requires n < |s.nodes|
  {
    match s.nodes[n].place
    case Preparing(t) => t < |s.threads| && Prepares(s.threads[t], n)
    case Publishing(t) => t < |s.threads| && Publishes(s.threads[t], n)
    case Taking(t) => t < |s.threads| && s.threads[t] == DropTwo(n)
    case Listed => n in s.list
    case _ => true
  }

  predicate ThreadOk(s: State, t: nat)
    requires InRange(s) && t < |s.threads|
  {
    match s.threads[t]
    case SwingHead(n, next) => s.nodes[n].next == next
    case DropTwo(n) => s.nodes[n].place == Taking(t)
    case LoadHead(n, _) => s.nodes[n].place == Preparing(t)
    case StoreNext(n, _, _) => s.nodes[n].place == Preparing(t)
    case StoreRefs(n, h, _) => s.nodes[n].place == Preparing(t) && s.nodes[n].next == h
    case PublishHead(n, h, _) => s.nodes[n].place == Publishing(t) && s.nodes[n].next == h
    case Restore(n, _, _) => s.nodes[n].place == Publishing(t)
    case _ => true
  }

  function First(list: seq<nat>, i: nat): Option<nat> {
    if i < |list| then Some(list[i]) else None
  }

  // Following next pointers from the head visits exactly list, and no node twice.
  predicate ChainOk(s: State) {
    && s.head == First(s.list, 0)
    && (forall i :: 0 <= i < |s.list| ==>
          s.list[i] < |s.nodes| && s.nodes[s.list[i]].place.Listed? && s.nodes[s.list[i]].next == First(s.list, i + 1))
    && (forall i, j :: 0 <= i < j < |s.list| ==> s.list[i] != s.list[j])
  }

  predicate Inv(s: State) {
    && InRange(s)
    && |s.threads| + 1 < SHOULD_BE_ON_FREELIST
    && ChainOk(s)
    && (forall n :: 0 <= n < |s.nodes| ==> WordOk(s, n) && PlaceOk(s, n))
    && (forall t :: 0 <= t < |s.threads| ==> ThreadOk(s, t))
  }

  // No node has been added yet and every thread is idle. The count field has room for one reference
  // per thread plus the list's own.
  predicate Init(s: State) {
    && s.head == None && s.list == []
    && |s.threads| + 1 < SHOULD_BE_ON_FREELIST
    && (forall t :: 0 <= t < |s.threads| ==> s.threads[t] == Idle)
    && (forall n :: 0 <= n < |s.nodes| ==> s.nodes[n] == Node(0, None, WithClient))
  }

  lemma InitInv(s: State)
    requires Init(s)
    ensures Inv(s)
  {
    forall n | 0 <= n < |s.nodes|
      ensures WordOk(s, n)
    {
      TotalZero(s.threads, Holds(n));
    }
  }

  // Thread t moves on to pc: the references held on node n afterwards, and before.
  lemma HoldersAfter(s: State, t: nat, pc: Pc, n: nat)
    requires t < |s.threads|
    ensures Total(s.threads[t := pc], Holds(n)) == Holders(s, n) - Holds(n)(s.threads[t]) + Holds(n)(pc)
    ensures Holds(n)(s.threads[t]) <= Holders(s, n) <= |s.threads|
  {
    TotalUpdate(s.threads, t, pc, Holds(n));
    TotalAtMostLength(s.threads, Holds(n));
    TotalCovers(s.threads, t, Holds(n));
  }

  // The responsibilities thread t has towards node n, other than a counted reference.
  predicate SameDuty(was: Pc, now: Pc, n: nat) {
    && Holds(n)(was) == Holds(n)(now)
    && (Prepares(was, n) ==> Prepares(now, n))
    && (Publishes(was, n) ==> Publishes(now, n))
    && (was == DropTwo(n) ==> now == DropTwo(n))
  }

  // s' differs from s in thread t, in node n, and in the head and list.
  predicate Touches(s: State, s': State, t: nat, n: nat) {
    && t < |s.threads| == |s'.threads| && n < |s.nodes| == |s'.nodes|
    && s'.threads == s.threads[t := s'.threads[t]]
    && s'.nodes == s.nodes[n := s'.nodes[n]]
    && IsNode(s', s'.head) && IsNode(s', s'.nodes[n].next) && PcInRange(s', s'.threads[t])
    && (forall k :: 0 <= k < |s.nodes| && k != n ==> SameDuty(s.threads[t], s'.threads[t], k))
    && (forall k :: k in s.list && k != n ==> k in s'.list)
  }

  lemma TouchWords(s: State, s': State, t: nat, n: nat)
    requires Inv(s) && Touches(s, s', t, n) && WordOk(s', n) && PlaceOk(s', n)
    ensures forall k :: 0 <= k < |s'.nodes| ==> WordOk(s', k) && PlaceOk(s', k)
  {
    forall k | 0 <= k < |s'.nodes|
      ensures WordOk(s', k) && PlaceOk(s', k)
    {
      if k != n {
        HoldersAfter(s, t, s'.threads[t], k);
        assert WordOk(s, k) && PlaceOk(s, k) && SameDuty(s.threads[t], s'.threads[t], k);
      }
    }
  }

  // A step that leaves every other thread's knowledge about node n true keeps the invariant.
  lemma TouchInv(s: State, s': State, t: nat, n: nat)
    requires Inv(s) && Touches(s, s', t, n) && ChainOk(s') && WordOk(s', n) && PlaceOk(s', n)
    requires s'.nodes[n].next == s.nodes[n].next || Holders(s, n) == 0
    requires s'.nodes[n].place == s.nodes[n].place || !Held(s.nodes[n].place) || s.nodes[n].place.owner == t
    requires s'.nodes[n].next == s.nodes[n].next || !Held(s.nodes[n].place) || s.nodes[n].place.owner == t
    requires InRange(s') ==> ThreadOk(s', t)
    ensures Inv(s')
  {
    TouchWords(s, s', t, n);
    forall u | 0 <= u < |s'.threads|
      ensures PcInRange(s', s'.threads[u])
    {
      assert PcInRange(s, s.threads[u]);
    }
    forall u | 0 <= u < |s'.threads|
      ensures ThreadOk(s', u)
    {
      if u != t {
        assert ThreadOk(s, u);
        TotalCovers(s.threads, u, Holds(n));
      }
    }
  }

  predicate Held(place: Place) {
    place.Preparing? || place.Publishing? || place.Taking?
  }

  // If the head stays and node n is unlisted, or keeps its place and next pointer, so does the chain.
  lemma TouchChain(s: State, s': State, t: nat, n: nat)
    requires ChainOk(s) && Touches(s, s', t, n)
    requires s'.head == s.head && s'.list == s.list
    requires !s.nodes[n].place.Listed? || (s'.nodes[n].place.Listed? && s'.nodes[n].next == s.nodes[n].next)
    ensures ChainOk(s')
  {
  }

  // A step that only changes the thread's own position keeps the invariant.
  lemma GotoInv(s: State, t: nat, pc: Pc)
    requires Inv(s) && t < |s.threads| && PcInRange(s, pc)
    requires forall k :: 0 <= k < |s.nodes| ==> SameDuty(s.threads[t], pc, k)
    requires InRange(Goto(s, t, pc)) ==> ThreadOk(Goto(s, t, pc), t)
    ensures Inv(Goto(s, t, pc))
  {
    var s' := Goto(s, t, pc);
    forall k | 0 <= k < |s.nodes|
      ensures WordOk(s', k) && PlaceOk(s', k)
    {
      HoldersAfter(s, t, pc, k);
      assert WordOk(s, k) && PlaceOk(s, k) && SameDuty(s.threads[t], pc, k);
    }
    forall u | 0 <= u < |s'.threads|
      ensures PcInRange(s', s'.threads[u]) && (u != t ==> InRange(s') ==> ThreadOk(s', u))
    {
      assert PcInRange(s, s.threads[u]) && ThreadOk(s, u);
    }
  }

  // The facts about the node a step works on.
  lemma Focus(s: State, t: nat, n: nat, s': State)
    requires Inv(s) && Touches(s, s', t, n)
    ensures Holders(s', n) == Holders(s, n) - Holds(n)(s.threads[t]) + Holds(n)(s'.threads[t])
    ensures Holds(n)(s.threads[t]) <= Holders(s, n) <= |s.threads|
    ensures WordOk(s, n) && PlaceOk(s, n) && ThreadOk(s, t)
  {
    HoldersAfter(s, t, s'.threads[t], n);
  }

  lemma BeginAddInv(s: State, t: nat, n: nat)
    requires Inv(s) && t < |s.threads| && s.threads[t].Idle? && n < |s.nodes| && s.nodes[n].place.WithClient?
    ensures Inv(BeginAdd(s, t, n))
  {
    var s' := BeginAdd(s, t, n);
    Focus(s, t, n, s');
    TouchChain(s, s', t, n);
    TouchInv(s, s', t, n);
  }

  lemma TryRefWord(s: State, t: nat, n: nat, r: nat)
    requires t < |s.threads| < SHOULD_BE_ON_FREELIST - 1 && n < |s.nodes| && s.threads[t] == TryRef(n, r)
    requires s.nodes[n].refs == r && Masked(r) != 0
    requires WordOk(s, n) && PlaceOk(s, n)
    ensures WordOk(StepTryRef(s, t, n, r), n) && PlaceOk(StepTryRef(s, t, n, r), n)
  {
    HoldersAfter(s, t, LoadNext(n), n);
  }

  lemma TryRefInv(s: State, t: nat, n: nat, r: nat)
    requires Inv(s) && t < |s.threads| && s.threads[t] == TryRef(n, r) && n < |s.nodes|
    ensures Inv(StepTryRef(s, t, n, r))
  {
    var s' := StepTryRef(s, t, n, r);
    if Masked(r) == 0 || s.nodes[n].refs != r {
      GotoInv(s, t, s'.threads[t]);
    } else {
      TryRefWord(s, t, n, r);
      TouchChain(s, s', t, n);
      TouchInv(s, s', t, n);
    }
  }

  lemma SwingHeadInv(s: State, t: nat, n: nat, next: Option<nat>)
    requires Inv(s) && t < |s.threads| && s.threads[t] == SwingHead(n, next) && n < |s.nodes| && IsNode(s, next)
    ensures Inv(StepSwingHead(s, t, n, next))
  {
    var s' := StepSwingHead(s, t, n, next);
    assert ThreadOk(s, t);
    if s.head != Some(n) {
      GotoInv(s, t, s'.threads[t]);
    } else {
      Focus(s, t, n, s');
      TouchInv(s, s', t, n);
    }
  }

  lemma DropTwoInv(s: State, t: nat, n: nat)
    requires Inv(s) && t < |s.threads| && s.threads[t] == DropTwo(n) && n < |s.nodes|
    ensures Inv(StepDropTwo(s, t, n))
  {
    var s' := StepDropTwo(s, t, n);
    Focus(s, t, n, s');
    TouchChain(s, s', t, n);
    TouchInv(s, s', t, n);
  }

  lemma DropOneWord(s: State, t: nat, n: nat, head: Option<nat>)
    requires t < |s.threads| < SHOULD_BE_ON_FREELIST && n < |s.nodes| && s.threads[t] == DropOne(n, head)
    requires WordOk(s, n) && PlaceOk(s, n)
    ensures WordOk(StepDropOne(s, t, n, head), n) && PlaceOk(StepDropOne(s, t, n, head), n)
    ensures s.nodes[n].place == StepDropOne(s, t, n, head).nodes[n].place || s.nodes[n].place.Owed?
  {
    HoldersAfter(s, t, StepDropOne(s, t, n, head).threads[t], n);
  }

  lemma DropOneInv(s: State, t: nat, n: nat, head: Option<nat>)
    requires Inv(s) && t < |s.threads| && s.threads[t] == DropOne(n, head) && n < |s.nodes| && IsNode(s, head)
    ensures Inv(StepDropOne(s, t, n, head))
  {
    var s' := StepDropOne(s, t, n, head);
    DropOneWord(s, t, n, head);
    TouchChain(s, s', t, n);
    TouchInv(s, s', t, n);
  }

  lemma StoreNextInv(s: State, t: nat, n: nat, head: Option<nat>, ret: Then)
    requires Inv(s) && t < |s.threads| && s.threads[t] == StoreNext(n, head, ret) && PcInRange(s, s.threads[t])
    ensures Inv(StepStoreNext(s, t, n, head, ret))
  {
    var s' := StepStoreNext(s, t, n, head, ret);
    Focus(s, t, n, s');
    TouchChain(s, s', t, n);
    TouchInv(s, s', t, n);
  }

  lemma StoreRefsInv(s: State, t: nat, n: nat, head: Option<nat>, ret: Then)
    requires Inv(s) && t < |s.threads| && s.threads[t] == StoreRefs(n, head, ret) && PcInRange(s, s.threads[t])
    ensures Inv(StepStoreRefs(s, t, n, head, ret))
  {
    var s' := StepStoreRefs(s, t, n, head, ret);
    Focus(s, t, n, s');
    TouchChain(s, s', t, n);
    TouchInv(s, s', t, n);
  }

  lemma PublishInv(s: State, t: nat, n: nat, head: Option<nat>, ret: Then)
    requires Inv(s) && t < |s.threads| && s.threads[t] == PublishHead(n, head, ret) && PcInRange(s, s.threads[t])
    ensures Inv(StepPublishHead(s, t, n, head, ret))
  {
    var s' := StepPublishHead(s, t, n, head, ret);
    assert ThreadOk(s, t);
    if s.head != head {
      GotoInv(s, t, s'.threads[t]);
    } else {
      Focus(s, t, n, s');
      TouchInv(s, s', t, n);
    }
  }

  lemma RestoreInv(s: State, t: nat, n: nat, head: Option<nat>, ret: Then)
    requires Inv(s) && t < |s.threads| && s.threads[t] == Restore(n, head, ret) && PcInRange(s, s.threads[t])
    ensures Inv(StepRestore(s, t, n, head, ret))
  {
    var s' := StepRestore(s, t, n, head, ret);
    Focus(s, t, n, s');
    TouchChain(s, s', t, n);
    TouchInv(s, s', t, n);
  }

  /** Every step of every thread keeps the invariant. */
  lemma StepInv(s: State, m: Move)
    requires Inv(s) && Enabled(s, m)
    ensures Inv(Step(s, m))
  {
    var t := m.t;
    assert ThreadOk(s, t) && PcInRange(s, s.threads[t]);
    match s.threads[t]
    case Idle => if m.Add? { BeginAddInv(s, t, m.node); } else { GotoInv(s, t, Loop(s.head)); }
    case Loop(h) => GotoInv(s, t, Step(s, m).threads[t]);
    case Reload => GotoInv(s, t, Loop(s.head));
    case TryRef(n, r) => TryRefInv(s, t, n, r);
    case LoadNext(n) => GotoInv(s, t, SwingHead(n, s.nodes[n].next));
    case SwingHead(n, h) => SwingHeadInv(s, t, n, h);
    case DropTwo(n) => DropTwoInv(s, t, n);
    case DropOne(n, h) => DropOneInv(s, t, n, h);
    case LoadHead(n, c) => GotoInv(s, t, StoreNext(n, s.head, c));
    case StoreNext(n, h, c) => StoreNextInv(s, t, n, h, c);
    case StoreRefs(n, h, c) => StoreRefsInv(s, t, n, h, c);
    case PublishHead(n, h, c) => PublishInv(s, t, n, h, c);
    case Restore(n, h, c) => RestoreInv(s, t, n, h, c);
  }

  // ----- what holds over every run

  datatype Run = Run(states: seq<State>, moves: seq<Move>)

  ghost predicate IsRun(r: Run) {
    && |r.states| == |r.moves| + 1
    && Init(r.states[0])
    && forall i :: 0 <= i < |r.moves| ==>
         InRange(r.states[i]) && Enabled(r.states[i], r.moves[i]) && r.states[i + 1] == Step(r.states[i], r.moves[i])
  }

  lemma {:induction false} RunInv(r: Run, i: nat)
    requires IsRun(r) && i < |r.states|
    ensures Inv(r.states[i])
  {
    if i == 0 {
      InitInv(r.states[0]);
    } else {
      RunInv(r, i - 1);
      StepInv(r.states[i - 1], r.moves[i - 1]);
    }
  }

  /** Every enabled step carries a run on: the states of a run are always in range. */
  lemma RunGoesOn(r: Run, m: Move)
    requires IsRun(r)
    ensures var s := r.states[|r.moves|];
            && InRange(s)
            && (Enabled(s, m) ==> IsRun(Run(r.states + [Step(s, m)], r.moves + [m])))
  {
    RunInv(r, |r.moves|);
    var s := r.states[|r.moves|];
    if Enabled(s, m) {
      var longer := Run(r.states + [Step(s, m)], r.moves + [m]);
      forall i | 0 <= i < |longer.moves|
        ensures InRange(longer.states[i]) && Enabled(longer.states[i], longer.moves[i])
        ensures longer.states[i + 1] == Step(longer.states[i], longer.moves[i])
      {
        if i < |r.moves| {
          assert longer.states[i] == r.states[i] && longer.states[i + 1] == r.states[i + 1]
                 && longer.moves[i] == r.moves[i];
        }
      }
    }
  }

  predicate HandsOut(s: State, m: Move, n: nat) {
    Enabled(s, m) && s.threads[m.t] == DropTwo(n)
  }

  /** A node handed out by try_get is not handed out again before somebody adds it again. */
  lemma HandedOutOncePerAdd(r: Run, i: nat, j: nat, n: nat) returns (k: nat)
    requires IsRun(r) && i < j < |r.moves|
    requires HandsOut(r.states[i], r.moves[i], n) && HandsOut(r.states[j], r.moves[j], n)
    ensures i < k < j && r.moves[k].Add? && r.moves[k].node == n
  {
    k := i + 1;
    RunInv(r, i);
    assert ThreadOk(r.states[i], r.moves[i].t);
    RunInv(r, j);
    assert ThreadOk(r.states[j], r.moves[j].t);
    while k < j && !(r.moves[k].Add? && r.moves[k].node == n)
      invariant i < k <= j
      invariant n < |r.states[k].nodes| && r.states[k].nodes[n].place.WithClient?
    {
      RunInv(r, k);
      ClientKeeps(r.states[k], r.moves[k], n);
      k := k + 1;
    }
  }

  lemma ClientKeeps(s: State, m: Move, n: nat)
    requires Inv(s) && Enabled(s, m) && n < |s.nodes| && s.nodes[n].place.WithClient?
    requires !(m.Add? && m.node == n)
    ensures var s' := Step(s, m); n < |s'.nodes| && s'.nodes[n].place.WithClient?
  {
    if Acts(s.threads[m.t], n) {
      assert ThreadOk(s, m.t) && WordOk(s, n);
      TotalAtMostLength(s.threads, Holds(n));
    } else {
      OtherNode(s, m, n);
    }
  }

  // The thread's next access is to the node, or may move the head past it or to it.
  predicate Acts(pc: Pc, n: nat) {
    match pc
    case TryRef(k, _) => k == n
    case SwingHead(k, _) => k == n
    case DropTwo(k) => k == n
    case DropOne(k, _) => k == n
    case StoreNext(k, _, _) => k == n
    case StoreRefs(k, _, _) => k == n
    case PublishHead(k, _, _) => k == n
    case Restore(k, _, _) => k == n
    case _ => false
  }

  lemma OtherNode(s: State, m: Move, n: nat)
    requires InRange(s) && Enabled(s, m) && n < |s.nodes| && !(m.Add? && m.node == n) && !Acts(s.threads[m.t], n)
    ensures var s' := Step(s, m); n < |s'.nodes| && s'.nodes[n] == s.nodes[n]
  {
    assert PcInRange(s, s.threads[m.t]);
  }

  /** While a thread is about to hand a node out, the node's bit is clear, the node is off the list and no
      other thread is handing it out: the assertion in try_get never fails. */
  lemma TakenAlone(r: Run, i: nat, t: nat, u: nat, n: nat)
    requires IsRun(r) && i < |r.states| && t < |r.states[i].threads| && u < |r.states[i].threads|
    requires r.states[i].threads[t] == DropTwo(n)
    ensures n < |r.states[i].nodes| && Masked(r.states[i].nodes[n].refs) == r.states[i].nodes[n].refs
    ensures n !in r.states[i].list
    ensures r.states[i].threads[u] == DropTwo(n) ==> u == t
  {
    var s := r.states[i];
    RunInv(r, i);
    assert ThreadOk(s, t) && ThreadOk(s, u) && WordOk(s, n);
    TotalAtMostLength(s.threads, Holds(n));
  }

  predicate OwnsUp(s: State, t: nat, n: nat)
    requires t < |s.threads|
  {
    Holds(n)(s.threads[t]) > 0 || Prepares(s.threads[t], n) || Publishes(s.threads[t], n)
  }

  /** No node is lost: it is with a client, on the list exactly once, or some thread is still bound to deal with it. */
  lemma NeverLost(r: Run, i: nat, n: nat)
    requires IsRun(r) && i < |r.states| && n < |r.states[i].nodes|
    ensures
      var s := r.states[i];
      || s.nodes[n].place.WithClient?
      || (exists p :: 0 <= p < |s.list| && s.list[p] == n && forall q :: 0 <= q < |s.list| && s.list[q] == n ==> q == p)
      || (exists t :: 0 <= t < |s.threads| && OwnsUp(s, t, n))
  {
    var s := r.states[i];
    RunInv(r, i);
    assert WordOk(s, n) && PlaceOk(s, n);
    match s.nodes[n].place
    case Owed =>
      var t := TotalWitness(s.threads, Holds(n));
      assert OwnsUp(s, t, n);
    case Preparing(t) => assert OwnsUp(s, t, n);
    case Publishing(t) => assert OwnsUp(s, t, n);
    case Taking(t) => assert OwnsUp(s, t, n);
    case _ =>
  }

  predicate Quiet(s: State) {
    forall t :: 0 <= t < |s.threads| ==> s.threads[t].Idle?
  }

  /** Once every thread is idle, the nodes on the list are exactly those added and not handed out since, and
      each reference word is back to the list's one reference or to zero. */
  lemma QuietState(r: Run, i: nat, n: nat)
    requires IsRun(r) && i < |r.states| && n < |r.states[i].nodes| && Quiet(r.states[i])
    ensures n in r.states[i].list <==> !r.states[i].nodes[n].place.WithClient?
    ensures r.states[i].nodes[n].refs == if n in r.states[i].list then 1 else 0
  {
    var s := r.states[i];
    RunInv(r, i);
    assert WordOk(s, n) && PlaceOk(s, n);
    TotalZero(s.threads, Holds(n));
  }

  lemma OnlyHolderFreeNextChanges(s: State, m: Move, n: nat)
    requires Inv(s) && Enabled(s, m) && n < |s.nodes|
    ensures var s' := Step(s, m); n < |s'.nodes| && (s'.nodes[n].next != s.nodes[n].next ==> Holders(s, n) == 0)
  {
    if s.threads[m.t].StoreNext? {
      assert ThreadOk(s, m.t) && WordOk(s, n);
    } else {
      NextKept(s, m, n);
    }
  }

  // Only the store of a next pointer changes one.
  lemma NextKept(s: State, m: Move, n: nat)
    requires InRange(s) && Enabled(s, m) && n < |s.nodes| && !s.threads[m.t].StoreNext?
    ensures var s' := Step(s, m); n < |s'.nodes| && s'.nodes[n].next == s.nodes[n].next
  {
    assert PcInRange(s, s.threads[m.t]);
  }

  /** As long as threads hold a counted reference to a node, from state i of a run to state j, its next pointer
      is the same one. */
  lemma {:induction false} NextStable(r: Run, i: nat, j: nat, n: nat)
    requires IsRun(r) && i <= j < |r.states| && n < |r.states[i].nodes|
    requires forall k :: i <= k < j ==> Holders(r.states[k], n) > 0
    ensures n < |r.states[j].nodes| && r.states[j].nodes[n].next == r.states[i].nodes[n].next
    decreases j
  {
    if i < j {
      NextStable(r, i, j - 1, n);
      RunInv(r, j - 1);
      OnlyHolderFreeNextChanges(r.states[j - 1], r.moves[j - 1], n);
    }
  }

  /** The head CAS of try_get is free of the ABA problem: however often the head changed in between, a CAS
      that succeeds removes the first node of the list and leaves the rest as it was. */
  lemma SwingRemovesFirst(r: Run, i: nat, n: nat, next: Option<nat>)
    requires IsRun(r) && i < |r.moves|
    requires r.states[i].threads[r.moves[i].t] == SwingHead(n, next) && r.states[i].head == Some(n)
    ensures |r.states[i].list| > 0 && r.states[i].list[0] == n
    ensures r.states[i + 1].list == r.states[i].list[1..] && ChainOk(r.states[i + 1])
  {
    RunInv(r, i);
    RunInv(r, i + 1);
  }

  // s' is the state after one more access of thread t.
  predicate Next(s: State, t: nat, s': State) {
    InRange(s) && Enabled(s, Continue(t)) && s' == Step(s, Continue(t))
  }

  lemma NextInv(s: State, t: nat, s': State)
    requires Inv(s) && Next(s, t, s')
    ensures Inv(s')
  {
    StepInv(s, Continue(t));
  }

  // In a quiet state the first node of the list is counted by the list alone.
  lemma FirstNode(s: State)
    requires Inv(s) && Quiet(s) && s.list != []
    ensures s.head == Some(s.list[0]) && s.list[0] < |s.nodes|
    ensures s.nodes[s.list[0]] == Node(1, First(s.list, 1), Listed)
  {
    assert WordOk(s, s.list[0]);
    TotalZero(s.threads, Holds(s.list[0]));
  }

  // A try_get that runs alone, access by access: it loads the first node's reference word ...
  lemma AloneLoop(s: State, t: nat, n: nat) returns (s1: State)
    requires Inv(s) && t < |s.threads| && s.threads[t].Idle?
    requires s.head == Some(n) && n < |s.nodes| && s.nodes[n].refs == 1
    ensures Next(Step(s, TryGet(t)), t, s1) && Inv(s1)
    ensures s1.threads == s.threads[t := TryRef(n, 1)] && s1.nodes == s.nodes && s1.head == s.head && s1.list == s.list
  {
    var s0 := Step(s, TryGet(t));
    StepInv(s, TryGet(t));
    s1 := Goto(s0, t, TryRef(n, 1));
    NextInv(s0, t, s1);
  }

  // ... counts its own reference in it ...
  lemma AloneCount(s: State, t: nat, n: nat) returns (s': State)
    requires Inv(s) && t < |s.threads| && s.threads[t] == TryRef(n, 1) && s.nodes[n].refs == 1
    ensures Next(s, t, s') && Inv(s')
    ensures s'.threads == s.threads[t := LoadNext(n)] && s'.head == s.head && s'.list == s.list
    ensures s'.nodes == s.nodes[n := s.nodes[n].(refs := 2)]
  {
    assert PcInRange(s, s.threads[t]);
    s' := StepTryRef(s, t, n, 1);
    NextInv(s, t, s');
  }

  // ... loads its next pointer ...
  lemma AloneLoadNext(s: State, t: nat, n: nat) returns (s': State)
    requires Inv(s) && t < |s.threads| && s.threads[t] == LoadNext(n)
    ensures n < |s.nodes| && Next(s, t, s') && Inv(s')
    ensures s'.threads == s.threads[t := SwingHead(n, s.nodes[n].next)]
    ensures s'.nodes == s.nodes && s'.head == s.head && s'.list == s.list
  {
    assert PcInRange(s, s.threads[t]);
    s' := Goto(s, t, SwingHead(n, s.nodes[n].next));
    NextInv(s, t, s');
  }

  // ... swings the head to it ...
  lemma AloneSwing(s: State, t: nat, n: nat, next: Option<nat>) returns (s': State)
    requires Inv(s) && t < |s.threads| && s.threads[t] == SwingHead(n, next) && s.head == Some(n)
    ensures n < |s.nodes| && s.list != [] && Next(s, t, s') && Inv(s')
    ensures s'.threads == s.threads[t := DropTwo(n)] && s'.head == next && s'.list == s.list[1..]
    ensures s'.nodes == s.nodes[n := s.nodes[n].(place := Taking(t))]
  {
    s' := StepSwingHead(s, t, n, next);
    NextInv(s, t, s');
  }

  // ... and drops the list's reference with its own.
  lemma AloneDrop(s: State, t: nat, n: nat) returns (s': State)
    requires Inv(s) && t < |s.threads| && s.threads[t] == DropTwo(n) && s.nodes[n].refs == 2
    ensures n < |s.nodes| && Next(s, t, s')
    ensures s'.threads == s.threads[t := Idle] && s'.head == s.head && s'.list == s.list
    ensures s'.nodes == s.nodes[n := s.nodes[n].(refs := 0, place := WithClient)]
  {
    assert PcInRange(s, s.threads[t]);
    s' := StepDropTwo(s, t, n);
  }

  /** From a quiet state, a try_get that runs alone returns the first node of the list after five accesses and
      leaves its reference word at zero. */
  lemma AloneTryGet(s: State, t: nat) returns (s1: State, s2: State, s3: State, s4: State, s5: State)
    requires Inv(s) && Quiet(s) && t < |s.threads| && s.list != []
    ensures Next(Step(s, TryGet(t)), t, s1) && Next(s1, t, s2) && Next(s2, t, s3) && Next(s3, t, s4) && Next(s4, t, s5)
    ensures s5.list == s.list[1..] && s5.head == First(s.list, 1) && Quiet(s5)
    ensures s5.nodes == s.nodes[s.list[0] := Node(0, First(s.list, 1), WithClient)]
  {
    var n := s.list[0];
    FirstNode(s);
    s1 := AloneLoop(s, t, n);
    s2 := AloneCount(s1, t, n);
    s3 := AloneLoadNext(s2, t, n);
    s4 := AloneSwing(s3, t, n, First(s.list, 1));
    s5 := AloneDrop(s4, t, n);
  }

  // An add that runs alone finds a reference word of zero, loads the head ...
  lemma AloneBegin(s: State, t: nat, n: nat) returns (s1: State)
    requires Inv(s) && Quiet(s) && t < |s.threads| && n < |s.nodes| && s.nodes[n].place.WithClient?
    ensures Next(Step(s, Add(t, n)), t, s1) && Inv(s1)
    ensures s1.threads == s.threads[t := StoreNext(n, s.head, Return)] && s1.head == s.head && s1.list == s.list
    ensures s1.nodes == s.nodes[n := s.nodes[n].(refs := SHOULD_BE_ON_FREELIST, place := Preparing(t))]
  {
    assert WordOk(s, n);
    TotalZero(s.threads, Holds(n));
    var s0 := Step(s, Add(t, n));
    StepInv(s, Add(t, n));
    s1 := Goto(s0, t, StoreNext(n, s.head, Return));
    NextInv(s0, t, s1);
  }

  // ... and stores the next pointer and the word 1.
  lemma AloneStore(s: State, t: nat, n: nat) returns (s': State, s'': State)
    requires Inv(s) && t < |s.threads| && s.threads[t] == StoreNext(n, s.head, Return)
    ensures n < |s.nodes| && Next(s, t, s') && Next(s', t, s'') && Inv(s'')
    ensures s''.threads == s.threads[t := PublishHead(n, s.head, Return)] && s''.head == s.head && s''.list == s.list
    ensures s''.nodes == s.nodes[n := Node(1, s.head, Publishing(t))]
  {
    assert PcInRange(s, s.threads[t]);
    s' := StepStoreNext(s, t, n, s.head, Return);
    NextInv(s, t, s');
    s'' := StepStoreRefs(s', t, n, s.head, Return);
    NextInv(s', t, s'');
  }

  /** From a quiet state, an add that runs alone puts the node in front of the list. */
  lemma AloneAdd(s: State, t: nat, n: nat) returns (s1: State, s2: State, s3: State, s4: State)
    requires Inv(s) && Quiet(s) && t < |s.threads| && n < |s.nodes| && s.nodes[n].place.WithClient?
    ensures Next(Step(s, Add(t, n)), t, s1) && Next(s1, t, s2) && Next(s2, t, s3) && Next(s3, t, s4)
    ensures s4.list == [n] + s.list && s4.head == Some(n) && Quiet(s4)
    ensures s4.nodes == s.nodes[n := Node(1, s.head, Listed)]
  {
    s1 := AloneBegin(s, t, n);
    s2, s3 := AloneStore(s1, t, n);
    s4 := StepPublishHead(s3, t, n, s.head, Return);
  }

  // ----- what a try_get that returns nothing has seen

  // The thread is inside a try_get.
  predicate Trying(pc: Pc) {
    match pc
    case Idle => false
    case LoadHead(_, c) => c.Resume?
    case StoreNext(_, _, c) => c.Resume?
    case StoreRefs(_, _, c) => c.Resume?
    case PublishHead(_, _, c) => c.Resume?
    case Restore(_, _, c) => c.Resume?
    case _ => true
  }

  // The head with which the thread will take up its loop again is null.
  predicate SawNone(pc: Pc) {
    match pc
    case Loop(h) => h.None?
    case DropOne(_, h) => h.None?
    case LoadHead(_, c) => c == Resume(None)
    case StoreNext(_, _, c) => c == Resume(None)
    case StoreRefs(_, _, c) => c == Resume(None)
    case PublishHead(_, _, c) => c == Resume(None)
    case Restore(_, _, c) => c == Resume(None)
    case _ => false
  }

  // An access of a try_get ends it with a node, or because it saw a null head; and it sees one only when the list
  // is empty.
  lemma TryingStep(s: State, t: nat)
    requires Inv(s) && t < |s.threads| && Trying(s.threads[t])
    ensures var now := Step(s, Continue(t)).threads[t];
            && (now.Idle? ==> s.threads[t].DropTwo? || SawNone(s.threads[t]))
            && (!now.Idle? ==> Trying(now))
            && (SawNone(now) && !SawNone(s.threads[t]) ==> s.list == [])
  {
    assert PcInRange(s, s.threads[t]);
  }

  lemma OthersKeepPlace(s: State, m: Move, t: nat)
    requires InRange(s) && Enabled(s, m) && t < |s.threads| && m.t != t
    ensures var s' := Step(s, m); t < |s'.threads| && s'.threads[t] == s.threads[t]
  {
    assert PcInRange(s, s.threads[m.t]);
  }

  // What a move may do to a thread inside a try_get.
  predicate TryGoesOn(s: State, m: Move, t: nat, s': State) {
    t < |s.threads| && t < |s'.threads| && Trying(s.threads[t]) ==>
      && (s'.threads[t].Idle? ==> s.threads[t].DropTwo? || SawNone(s.threads[t]))
      && (s'.threads[t].Idle? || Trying(s'.threads[t]))
      && (SawNone(s'.threads[t]) && !SawNone(s.threads[t]) ==> m.t == t && s.list == [])
  }

  lemma TryingMove(s: State, m: Move, t: nat)
    requires Inv(s) && Enabled(s, m)
    ensures TryGoesOn(s, m, t, Step(s, m))
  {
    if t < |s.threads| && Trying(s.threads[t]) {
      if m.t == t {
        assert m == Continue(t);
        TryingStep(s, t);
      } else {
        OthersKeepPlace(s, m, t);
      }
    }
  }

  // From move i to move j, as far as the thread's own position shows it.
  predicate TriesThrough(states: seq<State>, moves: seq<Move>, i: nat, j: nat, t: nat)
    requires i <= j < |moves| && |states| == |moves| + 1
  {
    && (forall l :: i < l <= j + 1 ==> t < |states[l].threads|)
    && (forall l :: i < l <= j ==> !states[l].threads[t].Idle? && TryGoesOn(states[l], moves[l], t, states[l + 1]))
  }

  lemma LastNone(states: seq<State>, moves: seq<Move>, i: nat, j: nat, t: nat) returns (k: nat)
    requires i < j < |moves| && |states| == |moves| + 1 && TriesThrough(states, moves, i, j, t)
    requires moves[i].t == t && Trying(states[i + 1].threads[t])
    requires SawNone(states[i + 1].threads[t]) ==> states[i].list == []
    requires states[j + 1].threads[t].Idle? && !states[j].threads[t].DropTwo?
    ensures i <= k < j && moves[k].t == t && states[k].list == []
  {
    k := i;
    var l := i + 1;
    while l < j
      invariant i < l <= j && i <= k < l && moves[k].t == t
      invariant Trying(states[l].threads[t])
      invariant SawNone(states[l].threads[t]) ==> states[k].list == []
    {
      assert TryGoesOn(states[l], moves[l], t, states[l + 1]);
      if SawNone(states[l + 1].threads[t]) && !SawNone(states[l].threads[t]) {
        k := l;
      }
      l := l + 1;
    }
    assert TryGoesOn(states[j], moves[j], t, states[j + 1]);
  }

  /** However many threads take and add nodes meanwhile, a try_get returns nothing only if the list was empty at
      one of its own accesses: the call begun at move i of a run leaves with move j, which hands no node out. */
  lemma NothingOnlyIfEmpty(r: Run, i: nat, j: nat, t: nat) returns (k: nat)
    requires IsRun(r) && i < j < |r.moves| && r.moves[i] == TryGet(t) && r.moves[j] == Continue(t)
    requires forall l :: i < l <= j ==> t < |r.states[l].threads| && !r.states[l].threads[t].Idle?
    requires t < |r.states[j + 1].threads| && r.states[j + 1].threads[t].Idle? && !r.states[j].threads[t].DropTwo?
    ensures i <= k < j && r.moves[k].t == t && r.states[k].list == []
  {
    RunInv(r, i);
    forall l | i < l <= j
      ensures TryGoesOn(r.states[l], r.moves[l], t, r.states[l + 1])
    {
      RunInv(r, l);
      TryingMove(r.states[l], r.moves[l], t);
    }
    k := LastNone(r.states, r.moves, i, j, t);
  }

  // ----- a call that runs alone ends

  function Resumes(s: State, h: Option<nat>): nat {
    if h.None? then 1 else if h.value in s.list then 10 else 19
  }

  function Afterwards(s: State, c: Then): nat {
    if c.Return? then 0 else Resumes(s, c.head)
  }

  // How many accesses thread t is away from its end at most, if no other thread moves.
  function Left(s: State, pc: Pc): nat
    requires InRange(s) && PcInRange(s, pc)
  {
    match pc
    case Idle => 0
    case Loop(h) => if h.Some? && h == s.head then 5 else Resumes(s, h)
    case Reload => 6
    case TryRef(n, r) => if s.nodes[n].refs != r || Masked(r) == 0 then 7 else 1 + WithReference(s, n)
    case LoadNext(n) => WithReference(s, n)
    case SwingHead(n, _) => WithReference(s, n) - 1
    case DropTwo(_) => 1
    case DropOne(n, h) =>
      if n !in s.list then 5 + Resumes(s, h) else if h.Some? && h == s.head then 6 else 1 + Resumes(s, h)
    case LoadHead(_, c) => 4 + Afterwards(s, c)
    case StoreNext(_, h, c) => 2 + Swing(s, h) + Afterwards(s, c)
    case StoreRefs(_, h, c) => 1 + Swing(s, h) + Afterwards(s, c)
    case PublishHead(_, h, c) => Swing(s, h) + Afterwards(s, c)
    case Restore(_, h, c) => 3 + Swing(s, h) + Afterwards(s, c)
  }

  function WithReference(s: State, n: nat): nat {
    if s.head == Some(n) then 3 else if n in s.list then 8 else 17
  }

  function Swing(s: State, h: Option<nat>): nat {
    if s.head == h then 1 else 5
  }

  // The state after k more accesses of thread t, which stays where it is once its call has ended.
  function Alone(s: State, t: nat, k: nat): State
    requires Inv(s) && t < |s.threads|
    decreases k
  {
    if k == 0 || s.threads[t].Idle? then s
    else (StepInv(s, Continue(t)); KeepsThreads(s, t); Alone(Step(s, Continue(t)), t, k - 1))
  }

  lemma KeepsThreads(s: State, t: nat)
    requires InRange(s) && Enabled(s, Continue(t))
    ensures |Step(s, Continue(t)).threads| == |s.threads|
  {
    assert PcInRange(s, s.threads[t]);
  }

  // The access of thread t brings it nearer to its end.
  predicate Nearer(s: State, t: nat, s': State)
    requires InRange(s) && t < |s.threads| && PcInRange(s, s.threads[t])
  {
    InRange(s') && t < |s'.threads| && PcInRange(s', s'.threads[t]) && Left(s', s'.threads[t]) < Left(s, s.threads[t])
  }

  // The first node's reference word is the list's one reference and the counted ones, so it is no reason to retry.
  lemma HeadWord(s: State)
    requires Inv(s) && s.head.Some?
    ensures s.head.value < |s.nodes| && Masked(s.nodes[s.head.value].refs) > 0 && s.head.value in s.list
  {
    assert s.list[0] == s.head.value && s.nodes[s.list[0]].place.Listed?;
    assert WordOk(s, s.list[0]);
    TotalNonNegative(s.threads, Holds(s.list[0]));
    TotalAtMostLength(s.threads, Holds(s.list[0]));
  }

  lemma TryRefNearer(s: State, t: nat, n: nat, r: nat)
    requires Inv(s) && t < |s.threads| && s.threads[t] == TryRef(n, r) && n < |s.nodes|
    requires Inv(StepTryRef(s, t, n, r))
    ensures Nearer(s, t, StepTryRef(s, t, n, r))
  {
    if s.head.Some? {
      HeadWord(s);
    }
  }

  lemma LoopNearer(s: State, t: nat, h: Option<nat>)
    requires Inv(s) && t < |s.threads| && s.threads[t] == Loop(h) && IsNode(s, h)
    requires Inv(Step(s, Continue(t)))
    ensures Nearer(s, t, Step(s, Continue(t)))
  {
    if s.head.Some? {
      HeadWord(s);
    }
  }

  lemma SwingHeadNearer(s: State, t: nat, n: nat, next: Option<nat>)
    requires Inv(s) && t < |s.threads| && s.threads[t] == SwingHead(n, next) && n < |s.nodes|
    requires Inv(StepSwingHead(s, t, n, next))
    ensures Nearer(s, t, StepSwingHead(s, t, n, next))
  {
    if s.head.Some? {
      HeadWord(s);
    }
  }

  lemma DropOneNearer(s: State, t: nat, n: nat, h: Option<nat>)
    requires Inv(s) && t < |s.threads| && s.threads[t] == DropOne(n, h) && n < |s.nodes| && IsNode(s, h)
    requires Inv(StepDropOne(s, t, n, h))
    ensures Nearer(s, t, StepDropOne(s, t, n, h))
  {
    assert WordOk(s, n) && PlaceOk(s, n);
    TotalAtMostLength(s.threads, Holds(n));
  }

  lemma AddingNearer(s: State, t: nat)
    requires Inv(s) && t < |s.threads|
    requires s.threads[t].LoadHead? || s.threads[t].StoreNext? || s.threads[t].StoreRefs?
    requires Inv(Step(s, Continue(t)))
    ensures PcInRange(s, s.threads[t]) && Nearer(s, t, Step(s, Continue(t)))
  {
    assert PcInRange(s, s.threads[t]);
  }

  lemma PublishNearer(s: State, t: nat, n: nat, h: Option<nat>, c: Then)
    requires Inv(s) && t < |s.threads| && s.threads[t] == PublishHead(n, h, c) && PcInRange(s, s.threads[t])
    requires Inv(StepPublishHead(s, t, n, h, c))
    ensures Nearer(s, t, StepPublishHead(s, t, n, h, c))
  {
  }

  lemma RestoreNearer(s: State, t: nat, n: nat, h: Option<nat>, c: Then)
    requires Inv(s) && t < |s.threads| && s.threads[t] == Restore(n, h, c) && PcInRange(s, s.threads[t])
    requires Inv(StepRestore(s, t, n, h, c))
    ensures Nearer(s, t, StepRestore(s, t, n, h, c))
  {
  }

  lemma StepNearer(s: State, t: nat)
    requires Inv(s) && t < |s.threads| && !s.threads[t].Idle?
    ensures PcInRange(s, s.threads[t]) && Nearer(s, t, Step(s, Continue(t)))
    ensures Left(s, s.threads[t]) <= 27
  {
    StepInv(s, Continue(t));
    KeepsThreads(s, t);
    assert PcInRange(s, s.threads[t]);
    match s.threads[t]
    case Idle =>
    case Loop(h) => LoopNearer(s, t, h);
    case Reload =>
    case TryRef(n, r) => TryRefNearer(s, t, n, r);
    case LoadNext(n) =>
    case SwingHead(n, h) => SwingHeadNearer(s, t, n, h);
    case DropTwo(n) =>
    case DropOne(n, h) => DropOneNearer(s, t, n, h);
    case LoadHead(n, c) => AddingNearer(s, t);
    case StoreNext(n, h, c) => AddingNearer(s, t);
    case StoreRefs(n, h, c) => AddingNearer(s, t);
    case PublishHead(n, h, c) => PublishNearer(s, t, n, h, c);
    case Restore(n, h, c) => RestoreNearer(s, t, n, h, c);
  }

  lemma {:induction false} AloneSteps(s: State, t: nat, bound: nat) returns (k: nat)
    requires Inv(s) && t < |s.threads| && PcInRange(s, s.threads[t]) && Left(s, s.threads[t]) <= bound
    ensures k <= bound && t < |Alone(s, t, k).threads| && Alone(s, t, k).threads[t].Idle?
    decreases bound
  {
    k := 0;
    if !s.threads[t].Idle? {
      StepNearer(s, t);
      StepInv(s, Continue(t));
      k := AloneSteps(Step(s, Continue(t)), t, bound - 1);
      k := k + 1;
    }
  }

  /** Whatever the other threads have left half done, a call that runs alone from there is over after at most 27
      accesses. */
  lemma EndsAlone(s: State, t: nat) returns (k: nat)
    requires Inv(s) && t < |s.threads|
    ensures k <= 27 && t < |Alone(s, t, k).threads| && Alone(s, t, k).threads[t].Idle?
  {
    if s.threads[t].Idle? {
      k := 0;
    } else {
      StepNearer(s, t);
      k := AloneSteps(s, t, Left(s, s.threads[t]));
    }
  }
}
