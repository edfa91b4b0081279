/** Packet dispatch of a DataGraph: pushPacket delivers directly or queues a packet once per target thread,
    sendPacket queues it for one node, and packetReady later decides which edges a queued packet still owes.

    Any number of threads push at any time, also from inside the handler of a packet being delivered. A push
    considers one edge per step; queueing a packet and waking the target loop are separate steps; a loop
    collects a batch producer by producer, since the packet queue keeps one sub-queue per pushing thread. The
    graph does not change while packets are in flight. delivered is the log of all deliveries. */
module Dispatch {
  import opened Totals

  datatype Edge = Edge(target: nat, alwaysQueue: bool)
  datatype ChannelEdges = ChannelEdges(channel: string, edges: seq<Edge>)

  // forward[n] is forwardEdges of node n in iteration order; groupOf[n] its thread group; loopThread[g] the id of
  // the thread that runs the loop of group g.
  datatype Graph = Graph(forward: seq<seq<ChannelEdges>>, groupOf: seq<nat>, loopThread: seq<nat>)

  predicate WellFormed(g: Graph) {
    && |g.forward| == |g.groupOf|
    && (forall n :: 0 <= n < |g.groupOf| ==> g.groupOf[n] < |g.loopThread|)
    && (forall n :: 0 <= n < |g.forward| ==> ForwardOk(g, g.forward[n]))
  }

  // Channels are keys of a map, and edges lead to nodes of the graph.
  predicate ForwardOk(g: Graph, forward: seq<ChannelEdges>) {
    && (forall c, d :: 0 <= c < d < |forward| ==> forward[c].channel != forward[d].channel)
    && (forall c, j :: 0 <= c < |forward| && 0 <= j < |forward[c].edges| ==> forward[c].edges[j].target < |g.groupOf|)
  }

  // The edges of a channel; none when the channel is not connected.
  function Find(forward: seq<ChannelEdges>, channel: string): seq<Edge> {
    if forward == [] then []
    else if forward[0].channel == channel then forward[0].edges
    else Find(forward[1..], channel)
  }

  /** A channel's edges are those listed for it, and a channel that is not listed has none. */
  lemma {:induction false} FindsChannel(forward: seq<ChannelEdges>, channel: string, c: nat)
    requires forall d, e :: 0 <= d < e < |forward| ==> forward[d].channel != forward[e].channel
    ensures c < |forward| && forward[c].channel == channel ==> Find(forward, channel) == forward[c].edges
    ensures (forall d :: 0 <= d < |forward| ==> forward[d].channel != channel) ==> Find(forward, channel) == []
  {
    if forward != [] {
      FindsChannel(forward[1..], channel, if c == 0 then 0 else c - 1);
    }
  }

  function GroupOf(g: Graph, node: nat): nat {
    if node < |g.groupOf| then g.groupOf[node] else 0
  }

  function ThreadOf(g: Graph, node: nat): nat {
    var group := GroupOf(g, node);
    if group < |g.loopThread| then g.loopThread[group] else 0
  }

  // ----- the two decisions

  // pushPacket: this edge is served at once.
  predicate PushDirectly(g: Graph, e: Edge, pusher: nat) {
    pusher == ThreadOf(g, e.target) && !e.alwaysQueue
  }

  // packetReady on thread me: this edge of the packet's channel is served from the queue.
  predicate ServedFromQueue(g: Graph, e: Edge, pusher: nat, me: nat) {
    me == ThreadOf(g, e.target) && (me != pusher || e.alwaysQueue)
  }

  /** The two decisions are complements: an edge is served from the queue of exactly its own target's thread, unless it
      was served directly. */
  lemma DecisionsComplement(g: Graph, e: Edge, pusher: nat, me: nat)
    ensures ServedFromQueue(g, e, pusher, me) <==> me == ThreadOf(g, e.target) && !PushDirectly(g, e, pusher)
  {
  }

  // The indices of the edges packetReady serves in the edge list of one channel, from index j on.
  function RescanEdges(g: Graph, edges: seq<Edge>, j: nat, matches: bool, pusher: nat, me: nat): seq<nat>
    decreases |edges| - j
  {
    if j >= |edges| then []
    else
      (if ServedFromQueue(g, edges[j], pusher, me) && matches then [j] else [])
      + RescanEdges(g, edges, j + 1, matches, pusher, me)
  }

  // All channels of the node, as packetReady visits them.
  function Rescan(g: Graph, forward: seq<ChannelEdges>, channel: string, pusher: nat, me: nat): seq<nat> {
    if forward == [] then []
    else RescanEdges(g, forward[0].edges, 0, forward[0].channel == channel, pusher, me)
         + Rescan(g, forward[1..], channel, pusher, me)
  }

  lemma {:induction false} RescanEdgesCount(g: Graph, edges: seq<Edge>, k: nat, matches: bool, pusher: nat, me: nat,
                                            j: nat)
    ensures multiset(RescanEdges(g, edges, k, matches, pusher, me))[j]
         == if k <= j < |edges| && matches && ServedFromQueue(g, edges[j], pusher, me) then 1 else 0
    decreases |edges| - k
  {
    if k < |edges| {
      RescanEdgesCount(g, edges, k + 1, matches, pusher, me, j);
      var rest := RescanEdges(g, edges, k + 1, matches, pusher, me);
      if ServedFromQueue(g, edges[k], pusher, me) && matches {
        assert RescanEdges(g, edges, k, matches, pusher, me) == [k] + rest;
      } else {
        assert RescanEdges(g, edges, k, matches, pusher, me) == rest;
      }
    }
  }

  lemma {:induction false} RescanCount(g: Graph, forward: seq<ChannelEdges>, channel: string, pusher: nat, me: nat,
                                       j: nat)
    requires forall c, d :: 0 <= c < d < |forward| ==> forward[c].channel != forward[d].channel
    ensures
      var edges := Find(forward, channel);
      multiset(Rescan(g, forward, channel, pusher, me))[j]
      == if j < |edges| && ServedFromQueue(g, edges[j], pusher, me) then 1 else 0
  {
    if forward != [] {
      RescanEdgesCount(g, forward[0].edges, 0, forward[0].channel == channel, pusher, me, j);
      RescanCount(g, forward[1..], channel, pusher, me, j);
      if forward[0].channel == channel {
        FindAbsent(forward[1..], channel);
      }
    }
  }

  lemma {:induction false} FindAbsent(forward: seq<ChannelEdges>, channel: string)
    requires forall c :: 0 <= c < |forward| ==> forward[c].channel != channel
    ensures Find(forward, channel) == []
  {
    if forward != [] {
      FindAbsent(forward[1..], channel);
    }
  }

  lemma {:induction false} FindTargets(g: Graph, forward: seq<ChannelEdges>, channel: string)
    requires ForwardOk(g, forward)
    ensures forall j :: 0 <= j < |Find(forward, channel)| ==> Find(forward, channel)[j].target < |g.groupOf|
  {
    if forward != [] && forward[0].channel != channel {
      FindTargets(g, forward[1..], channel);
    }
  }

  // ----- the protocol

  datatype Kind = OnChannel(node: nat, channel: string) | ToNode(node: nat)

  datatype Phase =
    | Scanning(next: nat)      // edges before next have been considered
    | Queueing(index: nat)     // waiting[index] is to be queued next
    | Waking(index: nat)       // waiting[index] has been queued, its loop is not woken yet

  // One call of pushPacket or sendPacket by thread pusher. waiting: the groups to queue the packet to, seen: their
  // thread ids.
  datatype Push = Push(kind: Kind, pusher: nat, phase: Phase, waiting: seq<nat>, seen: set<nat>)

  datatype Consumer =
    | Asleep
    | Collecting(batch: seq<nat>, source: nat)   // try_dequeue_bulk, about to look at the sub-queue of thread source
    | Handling(batch: seq<nat>)                 // packets still to be handled

  const MAX_DEQUEUE_AT_ONCE := 100

  // queues[p]: the packets queued by thread p, each named by the index of its push.
  datatype ThreadGroup = ThreadGroup(queues: seq<seq<nat>>, wakeUp: bool, consumer: Consumer)

  datatype State = State(pushes: seq<Push>, groups: seq<ThreadGroup>, delivered: multiset<(nat, nat)>)

  datatype Move = Begin(kind: Kind, pusher: nat) | Advance(push: nat) | Wake(group: nat) | Consume(group: nat)

  // The edges a push has to serve; a packet sent to a node has one, which is always queued.
  function Edges(g: Graph, kind: Kind): seq<Edge> {
    match kind
    case OnChannel(n, channel) => if n < |g.forward| then Find(g.forward[n], channel) else []
    case ToNode(n) => [Edge(n, true)]
  }

  predicate Done(g: Graph, p: Push) {
    match p.phase
    case Scanning(next) => next >= |Edges(g, p.kind)| && p.waiting == []
    case Queueing(i) => i >= |p.waiting|
    case Waking(_) => false
  }

  predicate Enabled(g: Graph, s: State, m: Move) {
    match m
    case Begin(kind, pusher) =>
      && kind.node < |g.groupOf|
      && (forall h :: 0 <= h < |s.groups| ==> pusher < |s.groups[h].queues|)
    case Advance(i) => i < |s.pushes| && !Done(g, s.pushes[i])
    case Wake(h) => h < |s.groups| && s.groups[h].wakeUp && s.groups[h].consumer.Asleep?
    case Consume(h) => h < |s.groups| && !s.groups[h].consumer.Asleep?
  }

  function SetPush(s: State, i: nat, p: Push): State
    requires i < |s.pushes|
  {
    s.(pushes := s.pushes[i := p])
  }

  function SetGroup(s: State, h: nat, group: ThreadGroup): State
    requires h < |s.groups|
  {
    s.(groups := s.groups[h := group])
  }

  function Step(g: Graph, s: State, m: Move): State
    requires Enabled(g, s, m)
  {
    match m
    case Begin(kind, pusher) => s.(pushes := s.pushes + [Push(kind, pusher, Scanning(0), [], {})])
    case Advance(i) => StepPush(g, s, i)
    case Wake(h) => SetGroup(s, h, s.groups[h].(wakeUp := false, consumer := Collecting([], 0)))
    case Consume(h) => StepConsumer(g, s, h)
  }

  function StepPush(g: Graph, s: State, i: nat): State
    requires Enabled(g, s, Advance(i))
  {
    var p := s.pushes[i];
    match p.phase
    case Scanning(j) =>
      if j >= |Edges(g, p.kind)| then SetPush(s, i, p.(phase := Queueing(0)))
      else StepEdge(g, s, i, j, Edges(g, p.kind)[j])
    case Queueing(k) => StepEnqueue(s, i, k)
    case Waking(k) => StepSend(s, i, k)
  }

  // One turn of the edge loop of pushPacket: the push after edge e, which is served at once or leaves its group
  // waiting.
  function AfterEdge(g: Graph, p: Push, j: nat, e: Edge): Push {
    var p' := p.(phase := Scanning(j + 1));
    if PushDirectly(g, e, p.pusher) || ThreadOf(g, e.target) in p.seen then p'
    else p'.(waiting := p.waiting + [GroupOf(g, e.target)], seen := p.seen + {ThreadOf(g, e.target)})
  }

  function StepEdge(g: Graph, s: State, i: nat, j: nat, e: Edge): State
    requires i < |s.pushes|
  {
    var p := s.pushes[i];
    var s' := SetPush(s, i, AfterEdge(g, p, j, e));
    if PushDirectly(g, e, p.pusher) then s'.(delivered := s.delivered + multiset{(i, j)}) else s'
  }

  function StepEnqueue(s: State, i: nat, k: nat): State
    requires i < |s.pushes|
  {
    var p := s.pushes[i];
    if k < |p.waiting| && p.waiting[k] < |s.groups| && p.pusher < |s.groups[p.waiting[k]].queues| then
      var group := s.groups[p.waiting[k]];
      SetGroup(SetPush(s, i, p.(phase := Waking(k))), p.waiting[k],
               group.(queues := group.queues[p.pusher := group.queues[p.pusher] + [i]]))
    else s
  }

  // uv_async_send: wake-ups coalesce into one flag.
  function StepSend(s: State, i: nat, k: nat): State
    requires i < |s.pushes|
  {
    var p := s.pushes[i];
    if k < |p.waiting| && p.waiting[k] < |s.groups| then
      SetGroup(SetPush(s, i, p.(phase := Queueing(k + 1))), p.waiting[k], s.groups[p.waiting[k]].(wakeUp := true))
    else s
  }

  function StepConsumer(g: Graph, s: State, h: nat): State
    requires h < |s.groups|
  {
    var group := s.groups[h];
    match group.consumer
    case Asleep => s
    case Collecting(batch, k) =>
      if k < |group.queues| && |batch| < MAX_DEQUEUE_AT_ONCE then
        var room := MAX_DEQUEUE_AT_ONCE - |batch|;
        var count := if |group.queues[k]| < room then |group.queues[k]| else room;
        SetGroup(s, h, group.(queues := group.queues[k := group.queues[k][count..]],
                              consumer := Collecting(batch + group.queues[k][..count], k + 1)))
      else SetGroup(s, h, group.(consumer := if batch == [] then Asleep else Handling(batch)))
    case Handling(batch) =>
      if batch == [] then SetGroup(s, h, group.(consumer := Collecting([], 0)))
      else
        SetGroup(s, h, group.(consumer := Handling(batch[1..])))
        .(delivered := s.delivered + Handled(g, s, h, batch[0]))
  }

  // What packetReady delivers for one dequeued packet.
  function Handled(g: Graph, s: State, h: nat, i: nat): multiset<(nat, nat)> {
    if i < |s.pushes| && h < |g.loopThread| then
      var p := s.pushes[i];
      match p.kind
      case OnChannel(n, channel) =>
        if n < |g.forward| then Deliveries(i, Rescan(g, g.forward[n], channel, p.pusher, g.loopThread[h]))
        else multiset{}
      case ToNode(_) => multiset{(i, 0)}
    else multiset{}
  }

  function Deliveries(i: nat, edges: seq<nat>): multiset<(nat, nat)> {
    if edges == [] then multiset{} else multiset{(i, edges[0])} + Deliveries(i, edges[1..])
  }

  lemma {:induction false} DeliveriesCount(i: nat, edges: seq<nat>, k: nat, j: nat)
    ensures Deliveries(i, edges)[(k, j)] == if k == i then multiset(edges)[j] else 0
  {
    if edges != [] {
      DeliveriesCount(i, edges[1..], k, j);
      assert edges == [edges[0]] + edges[1..];
    }
  }

  // ----- the invariant

  // How often packet i lies in one sub-queue.
  function CountOf(i: nat): seq<nat> -> int {
    (queue: seq<nat>) => multiset(queue)[i]
  }

  function Batch(c: Consumer): seq<nat> {
    if c.Asleep? then [] else c.batch
  }

  // How often packet i lies in a thread group's queue or in the batch being handled.
  function Held(group: ThreadGroup, i: nat): int {
    Total(group.queues, CountOf(i)) + multiset(Batch(group.consumer))[i]
  }

  // How many of the waiting groups the packet has been queued to.
  function Queued(p: Push): nat {
    match p.phase
    case Scanning(_) => 0
    case Queueing(k) => k
    case Waking(k) => k + 1
  }

  function Considered(g: Graph, p: Push): nat {
    if p.phase.Scanning? then p.phase.next else |Edges(g, p.kind)|
  }

  function LoopThread(g: Graph, h: nat): nat {
    if h < |g.loopThread| then g.loopThread[h] else 0
  }

  // Is the k-th waiting group still to handle packet i?
  function Unserved(s: State, i: nat, k: nat): int
    requires i < |s.pushes| && k < |s.pushes[i].waiting|
  {
    var h := s.pushes[i].waiting[k];
    if k >= Queued(s.pushes[i]) then 1 else if h < |s.groups| then Held(s.groups[h], i) else 0
  }

  ghost predicate InRange(g: Graph, s: State) {
    && WellFormed(g) && |s.groups| == |g.loopThread|
    && (forall i :: 0 <= i < |s.pushes| ==> PushInRange(g, s, s.pushes[i]))
    && (forall h, i :: 0 <= h < |s.groups| && i >= |s.pushes| ==> Held(s.groups[h], i) == 0)
  }

  ghost predicate PushInRange(g: Graph, s: State, p: Push) {
    && p.kind.node < |g.groupOf|
    && (forall h :: 0 <= h < |s.groups| ==> p.pusher < |s.groups[h].queues|)
    && (forall k :: 0 <= k < |p.waiting| ==> p.waiting[k] < |s.groups|)
    && Considered(g, p) <= |Edges(g, p.kind)|
    && (p.phase.Queueing? ==> p.phase.index <= |p.waiting|)
    && (p.phase.Waking? ==> p.phase.index < |p.waiting|)
  }

  // The waiting groups run on distinct threads: those seen, which are the threads of the edges considered so far that
  // are not served directly.
  ghost predicate WaitingOk(g: Graph, p: Push) {
    && (forall k, l :: 0 <= k < l < |p.waiting| ==> LoopThread(g, p.waiting[k]) != LoopThread(g, p.waiting[l]))
    && (forall k :: 0 <= k < |p.waiting| ==> LoopThread(g, p.waiting[k]) in p.seen)
    && (forall t :: t in p.seen ==> exists k :: 0 <= k < |p.waiting| && LoopThread(g, p.waiting[k]) == t)
    && (forall j :: 0 <= j < Considered(g, p) && j < |Edges(g, p.kind)|
                    && !PushDirectly(g, Edges(g, p.kind)[j], p.pusher) ==>
          ThreadOf(g, Edges(g, p.kind)[j].target) in p.seen)
    && (forall t :: t in p.seen ==> exists j :: 0 <= j < Considered(g, p) && NeedsThread(g, p, j, t))
  }

  // Edge j of the push has to be served from the queue of thread t.
  ghost predicate NeedsThread(g: Graph, p: Push, j: nat, t: nat) {
    j < |Edges(g, p.kind)| && ServedFromQueue(g, Edges(g, p.kind)[j], p.pusher, t)
  }

  // A packet lies at most once in a group, and only in one it has been queued to.
  ghost predicate HeldOk(s: State, i: nat, h: nat)
    requires i < |s.pushes| && h < |s.groups|
  {
    && 0 <= Held(s.groups[h], i) <= 1
    && (Held(s.groups[h], i) == 1 ==>
          exists k :: 0 <= k < |s.pushes[i].waiting| && k < Queued(s.pushes[i]) && s.pushes[i].waiting[k] == h)
  }

  // An edge considered has been served directly, or from the queue of its thread's waiting group, or is owed by it.
  ghost predicate DeliveredOk(g: Graph, s: State, i: nat, j: nat)
    requires i < |s.pushes|
  {
    var p := s.pushes[i];
    if j >= Considered(g, p) || j >= |Edges(g, p.kind)| then s.delivered[(i, j)] == 0
    else if PushDirectly(g, Edges(g, p.kind)[j], p.pusher) then s.delivered[(i, j)] == 1
    else forall k :: 0 <= k < |p.waiting| && LoopThread(g, p.waiting[k]) == ThreadOf(g, Edges(g, p.kind)[j].target) ==>
           s.delivered[(i, j)] == 1 - Unserved(s, i, k)
  }

  // What is true of push i, or of packet i in some group, does not depend on the other pushes.
  ghost predicate AllOk(g: Graph, s: State, i: nat)
    requires i < |s.pushes|
  {
    && WaitingOk(g, s.pushes[i])
    && (forall h :: 0 <= h < |s.groups| ==> HeldOk(s, i, h))
    && (forall j: nat :: DeliveredOk(g, s, i, j))
  }

  // The consumer will look at the sub-queue of thread p before it falls asleep.
  ghost predicate WillLook(c: Consumer, p: nat) {
    match c
    case Asleep => false
    case Collecting(batch, k) => batch != [] || p >= k
    case Handling(_) => true
  }

  // Thread p has queued a packet to group h and is about to wake it.
  ghost predicate AboutToWake(s: State, i: nat, h: nat, p: nat)
    requires i < |s.pushes|
  {
    var push := s.pushes[i];
    push.pusher == p && push.phase.Waking? && push.phase.index < |push.waiting| && push.waiting[push.phase.index] == h
  }

  ghost predicate NotStranded(s: State, h: nat, p: nat)
    requires h < |s.groups| && p < |s.groups[h].queues|
  {
    s.groups[h].queues[p] != [] ==>
      || s.groups[h].wakeUp
      || WillLook(s.groups[h].consumer, p)
      || exists i :: 0 <= i < |s.pushes| && AboutToWake(s, i, h, p)
  }

  ghost predicate CollectingOk(s: State, h: nat)
    requires h < |s.groups|
  {
    s.groups[h].consumer.Collecting? ==>
      s.groups[h].consumer.source <= |s.groups[h].queues| && |s.groups[h].consumer.batch| <= MAX_DEQUEUE_AT_ONCE
  }

  ghost predicate Inv(g: Graph, s: State) {
    && InRange(g, s)
    && (forall i :: 0 <= i < |s.pushes| ==> AllOk(g, s, i))
    && (forall i: nat, j: nat :: i >= |s.pushes| ==> s.delivered[(i, j)] == 0)
    && (forall h, p :: 0 <= h < |s.groups| && 0 <= p < |s.groups[h].queues| ==> NotStranded(s, h, p))
    && (forall h :: 0 <= h < |s.groups| ==> CollectingOk(s, h))
  }

  // Nothing pushed yet, every loop asleep.
  ghost predicate Init(g: Graph, s: State) {
    && WellFormed(g) && |s.groups| == |g.loopThread|
    && s.pushes == [] && s.delivered == multiset{}
    && forall h :: 0 <= h < |s.groups| ==>
         s.groups[h].consumer.Asleep? && !s.groups[h].wakeUp
         && forall p :: 0 <= p < |s.groups[h].queues| ==> s.groups[h].queues[p] == []
  }

  lemma InitInv(g: Graph, s: State)
    requires Init(g, s)
    ensures Inv(g, s)
  {
    forall h, i: nat | 0 <= h < |s.groups|
      ensures Held(s.groups[h], i) == 0
    {
      TotalZero(s.groups[h].queues, CountOf(i));
    }
  }

  // ----- the pushing threads' steps

  // Only push i and its deliveries change.
  lemma PushStepInv(g: Graph, s: State, s': State, i: nat)
    requires Inv(g, s) && i < |s.pushes| && |s'.pushes| == |s.pushes| && s'.pushes == s.pushes[i := s'.pushes[i]]
    requires s'.groups == s.groups && s'.pushes[i].pusher == s.pushes[i].pusher && !s.pushes[i].phase.Waking?
    requires forall k: nat, j: nat :: k != i ==> s'.delivered[(k, j)] == s.delivered[(k, j)]
    requires PushInRange(g, s', s'.pushes[i]) && AllOk(g, s', i)
    ensures Inv(g, s')
  {
    forall k | 0 <= k < |s'.pushes|
      ensures AllOk(g, s', k) && PushInRange(g, s', s'.pushes[k])
    {
      if k != i {
        assert AllOk(g, s, k);
        OtherPushOk(g, s, s', k);
      }
    }
    forall h, p | 0 <= h < |s'.groups| && 0 <= p < |s'.groups[h].queues|
      ensures NotStranded(s', h, p)
    {
      assert NotStranded(s, h, p);
      if k :| 0 <= k < |s.pushes| && AboutToWake(s, k, h, p) {
        assert AboutToWake(s', k, h, p);
      }
    }
    forall h | 0 <= h < |s'.groups| ensures CollectingOk(s', h) { assert CollectingOk(s, h); }
  }

  // A push keeps what is true of it if its packet lies where it lay and its deliveries are as they were.
  lemma OtherPushOk(g: Graph, s: State, s': State, k: nat)
    requires k < |s.pushes| && k < |s'.pushes| && s'.pushes[k] == s.pushes[k] && AllOk(g, s, k)
    requires |s'.groups| == |s.groups| && forall h :: 0 <= h < |s.groups| ==>
              Held(s'.groups[h], k) == Held(s.groups[h], k)
    requires forall j: nat :: s'.delivered[(k, j)] == s.delivered[(k, j)]
    ensures AllOk(g, s', k)
  {
    forall h | 0 <= h < |s'.groups| ensures HeldOk(s', k, h) { assert HeldOk(s, k, h); }
    forall j: nat
      ensures DeliveredOk(g, s', k, j)
    {
      assert DeliveredOk(g, s, k, j);
      forall l | 0 <= l < |s.pushes[k].waiting| ensures Unserved(s', k, l) == Unserved(s, k, l) { }
    }
  }

  // A push whose considered edges stay the same keeps its waiting groups right.
  lemma SameWaiting(g: Graph, p: Push, p': Push)
    requires WaitingOk(g, p) && p'.kind == p.kind && p'.pusher == p.pusher && p'.waiting == p.waiting
             && p'.seen == p.seen
    requires Considered(g, p') == Considered(g, p)
    ensures WaitingOk(g, p')
  {
    forall t | t in p'.seen
      ensures exists l :: 0 <= l < Considered(g, p') && NeedsThread(g, p', l, t)
    {
      var l :| 0 <= l < Considered(g, p) && NeedsThread(g, p, l, t);
      assert NeedsThread(g, p', l, t);
    }
  }

  // A push that considers the same edges, and whose waiting groups owe what they owed, keeps its deliveries right.
  lemma SameDeliveries(g: Graph, s: State, s': State, i: nat)
    requires i < |s.pushes| == |s'.pushes| && s'.delivered == s.delivered
    requires var p, p' := s.pushes[i], s'.pushes[i];
             && p'.kind == p.kind && p'.pusher == p.pusher && p'.waiting == p.waiting
             && Considered(g, p') == Considered(g, p)
    requires forall k :: 0 <= k < |s.pushes[i].waiting| ==> Unserved(s', i, k) == Unserved(s, i, k)
    requires forall j: nat :: DeliveredOk(g, s, i, j)
    ensures forall j: nat :: DeliveredOk(g, s', i, j)
  {
    forall j: nat ensures DeliveredOk(g, s', i, j) { assert DeliveredOk(g, s, i, j); }
  }

  lemma FinishScanInv(g: Graph, s: State, i: nat)
    requires Inv(g, s) && Enabled(g, s, Advance(i)) && s.pushes[i].phase.Scanning?
    requires s.pushes[i].phase.next >= |Edges(g, s.pushes[i].kind)|
    ensures Inv(g, StepPush(g, s, i))
  {
    var s' := StepPush(g, s, i);
    assert AllOk(g, s, i);
    SameWaiting(g, s.pushes[i], s'.pushes[i]);
    forall h | 0 <= h < |s'.groups| ensures HeldOk(s', i, h) { assert HeldOk(s, i, h); }
    SameDeliveries(g, s, s', i);
    PushStepInv(g, s, s', i);
  }

  // A thread seen after a turn of the edge loop has a waiting group and an edge to serve.
  lemma EdgeSeen(g: Graph, p: Push, j: nat, t: nat)
    requires WellFormed(g) && p.kind.node < |g.groupOf| && j < |Edges(g, p.kind)| && p.phase == Scanning(j)
    requires WaitingOk(g, p) && t in AfterEdge(g, p, j, Edges(g, p.kind)[j]).seen
    ensures var p' := AfterEdge(g, p, j, Edges(g, p.kind)[j]);
      && (exists k :: 0 <= k < |p'.waiting| && LoopThread(g, p'.waiting[k]) == t)
      && (exists l :: 0 <= l < Considered(g, p') && NeedsThread(g, p', l, t))
  {
    var p' := AfterEdge(g, p, j, Edges(g, p.kind)[j]);
    EdgeTarget(g, p.kind, j);
    if t in p.seen {
      var k :| 0 <= k < |p.waiting| && LoopThread(g, p.waiting[k]) == t;
      assert LoopThread(g, p'.waiting[k]) == t;
      var l :| 0 <= l < Considered(g, p) && NeedsThread(g, p, l, t);
      assert NeedsThread(g, p', l, t);
    } else {
      assert LoopThread(g, p'.waiting[|p.waiting|]) == t;
      assert NeedsThread(g, p', j, t);
    }
  }

  // A turn of the edge loop adds a group of this graph, on a thread not seen so far.
  lemma EdgeGroups(g: Graph, p: Push, j: nat)
    requires WellFormed(g) && p.kind.node < |g.groupOf| && j < |Edges(g, p.kind)| && p.phase == Scanning(j)
    requires WaitingOk(g, p)
    ensures var p' := AfterEdge(g, p, j, Edges(g, p.kind)[j]);
      && (forall k, l :: 0 <= k < l < |p'.waiting| ==> LoopThread(g, p'.waiting[k]) != LoopThread(g, p'.waiting[l]))
      && (forall k :: 0 <= k < |p'.waiting| ==> LoopThread(g, p'.waiting[k]) in p'.seen)
  {
    EdgeTarget(g, p.kind, j);
    var p' := AfterEdge(g, p, j, Edges(g, p.kind)[j]);
    assert p'.waiting == p.waiting || p'.waiting == p.waiting + [GroupOf(g, Edges(g, p.kind)[j].target)];
  }

  lemma EdgeInRange(g: Graph, s: State, i: nat, j: nat)
    requires InRange(g, s) && i < |s.pushes| && s.pushes[i].phase == Scanning(j) && j < |Edges(g, s.pushes[i].kind)|
    ensures var s' := StepEdge(g, s, i, j, Edges(g, s.pushes[i].kind)[j]); PushInRange(g, s', s'.pushes[i])
  {
    var p := s.pushes[i];
    EdgeTarget(g, p.kind, j);
    assert PushInRange(g, s, p);
    var p' := AfterEdge(g, p, j, Edges(g, p.kind)[j]);
    assert p'.waiting == p.waiting || p'.waiting == p.waiting + [GroupOf(g, Edges(g, p.kind)[j].target)];
  }

  lemma EdgeWaiting(g: Graph, p: Push, j: nat)
    requires WellFormed(g) && p.kind.node < |g.groupOf| && j < |Edges(g, p.kind)| && p.phase == Scanning(j)
    requires WaitingOk(g, p)
    ensures WaitingOk(g, AfterEdge(g, p, j, Edges(g, p.kind)[j]))
  {
    var p' := AfterEdge(g, p, j, Edges(g, p.kind)[j]);
    EdgeGroups(g, p, j);
    forall t | t in p'.seen
      ensures exists k :: 0 <= k < |p'.waiting| && LoopThread(g, p'.waiting[k]) == t
      ensures exists l :: 0 <= l < Considered(g, p') && NeedsThread(g, p', l, t)
    {
      EdgeSeen(g, p, j, t);
    }
  }

  // An edge considered before is served or owed as it was; a group added now has not got the packet yet.
  lemma EdgeUnserved(g: Graph, s: State, i: nat, j: nat, k: nat)
    requires i < |s.pushes| && s.pushes[i].phase == Scanning(j) && j < |Edges(g, s.pushes[i].kind)|
    requires k < |StepEdge(g, s, i, j, Edges(g, s.pushes[i].kind)[j]).pushes[i].waiting|
    ensures Unserved(StepEdge(g, s, i, j, Edges(g, s.pushes[i].kind)[j]), i, k) == 1
  {
  }

  lemma EdgeDelivered(g: Graph, s: State, i: nat, j: nat, l: nat)
    requires InRange(g, s) && i < |s.pushes| && s.pushes[i].phase == Scanning(j) && j < |Edges(g, s.pushes[i].kind)|
    requires WaitingOk(g, s.pushes[i]) && DeliveredOk(g, s, i, l)
    ensures DeliveredOk(g, StepEdge(g, s, i, j, Edges(g, s.pushes[i].kind)[j]), i, l)
  {
    var p := s.pushes[i];
    if l < j && !PushDirectly(g, Edges(g, p.kind)[l], p.pusher) {
      var k :| 0 <= k < |p.waiting| && LoopThread(g, p.waiting[k]) == ThreadOf(g, Edges(g, p.kind)[l].target);
      assert Unserved(s, i, k) == 1;
    }
    var s' := StepEdge(g, s, i, j, Edges(g, p.kind)[j]);
    forall k | 0 <= k < |s'.pushes[i].waiting| ensures Unserved(s', i, k) == 1 { EdgeUnserved(g, s, i, j, k); }
  }

  lemma EdgeInv(g: Graph, s: State, i: nat, j: nat)
    requires Inv(g, s) && i < |s.pushes| && s.pushes[i].phase == Scanning(j) && j < |Edges(g, s.pushes[i].kind)|
    ensures Inv(g, StepEdge(g, s, i, j, Edges(g, s.pushes[i].kind)[j]))
  {
    var s' := StepEdge(g, s, i, j, Edges(g, s.pushes[i].kind)[j]);
    assert AllOk(g, s, i);
    EdgeWaiting(g, s.pushes[i], j);
    EdgeInRange(g, s, i, j);
    forall h | 0 <= h < |s'.groups| ensures HeldOk(s', i, h) { assert HeldOk(s, i, h); }
    forall l: nat ensures DeliveredOk(g, s', i, l) { assert DeliveredOk(g, s, i, l); EdgeDelivered(g, s, i, j, l); }
    PushStepInv(g, s, s', i);
  }

  lemma EdgeTarget(g: Graph, kind: Kind, j: nat)
    requires WellFormed(g) && kind.node < |g.groupOf| && j < |Edges(g, kind)|
    ensures Edges(g, kind)[j].target < |g.groupOf|
    ensures GroupOf(g, Edges(g, kind)[j].target) < |g.loopThread|
    ensures ThreadOf(g, Edges(g, kind)[j].target) == LoopThread(g, GroupOf(g, Edges(g, kind)[j].target))
  {
    if kind.OnChannel? {
      FindTargets(g, g.forward[kind.node], kind.channel);
    }
  }

  lemma BeginInv(g: Graph, s: State, m: Move)
    requires Inv(g, s) && Enabled(g, s, m) && m.Begin?
    ensures Inv(g, Step(g, s, m))
  {
    var s' := Step(g, s, m);
    var n := |s.pushes|;
    forall k | 0 <= k < |s'.pushes|
      ensures AllOk(g, s', k) && PushInRange(g, s', s'.pushes[k])
    {
      if k < n {
        assert AllOk(g, s, k);
        OtherPushOk(g, s, s', k);
      } else {
        forall h | 0 <= h < |s'.groups| ensures HeldOk(s', k, h) { }
      }
    }
    forall h, p | 0 <= h < |s'.groups| && 0 <= p < |s'.groups[h].queues|
      ensures NotStranded(s', h, p)
    {
      assert NotStranded(s, h, p);
      if k :| 0 <= k < |s.pushes| && AboutToWake(s, k, h, p) {
        assert AboutToWake(s', k, h, p);
      }
    }
    forall h | 0 <= h < |s'.groups| ensures CollectingOk(s', h) { assert CollectingOk(s, h); }
  }

  // ----- queueing, waking and the loops

  lemma HeldNonNegative(group: ThreadGroup, i: nat)
    ensures Held(group, i) >= 0
    ensures forall p :: 0 <= p < |group.queues| ==> multiset(group.queues[p])[i] <= Held(group, i)
  {
    TotalNonNegative(group.queues, CountOf(i));
    forall p | 0 <= p < |group.queues|
      ensures multiset(group.queues[p])[i] <= Held(group, i)
    {
      TotalCovers(group.queues, p, CountOf(i));
      assert CountOf(i)(group.queues[p]) == multiset(group.queues[p])[i];
    }
  }

  // Queueing packet i puts it into one group more.
  lemma EnqueueHeld(group: ThreadGroup, p: nat, i: nat, n: nat)
    requires p < |group.queues|
    ensures Held(group.(queues := group.queues[p := group.queues[p] + [i]]), n)
         == Held(group, n) + if n == i then 1 else 0
  {
    TotalUpdate(group.queues, p, group.queues[p] + [i], CountOf(n));
    assert CountOf(n)(group.queues[p] + [i]) == CountOf(n)(group.queues[p]) + if n == i then 1 else 0;
  }

  lemma EnqueueHeldAll(s: State, i: nat, k: nat, n: nat, h: nat)
    requires i < |s.pushes| && s.pushes[i].phase == Queueing(k) && k < |s.pushes[i].waiting| && h < |s.groups|
    requires s.pushes[i].waiting[k] < |s.groups| && s.pushes[i].pusher < |s.groups[s.pushes[i].waiting[k]].queues|
    ensures h < |StepEnqueue(s, i, k).groups|
    ensures Held(StepEnqueue(s, i, k).groups[h], n)
         == Held(s.groups[h], n) + if n == i && h == s.pushes[i].waiting[k] then 1 else 0
  {
    if h == s.pushes[i].waiting[k] { EnqueueHeld(s.groups[h], s.pushes[i].pusher, i, n); }
  }

  // The group the packet is queued to next does not hold it yet.
  lemma NotHeldYet(s: State, i: nat, k: nat)
    requires i < |s.pushes| && s.pushes[i].phase == Queueing(k) && k < |s.pushes[i].waiting|
    requires s.pushes[i].waiting[k] < |s.groups| && HeldOk(s, i, s.pushes[i].waiting[k])
    requires forall l, m :: 0 <= l < m < |s.pushes[i].waiting| ==> s.pushes[i].waiting[l] != s.pushes[i].waiting[m]
    ensures Held(s.groups[s.pushes[i].waiting[k]], i) == 0
  {
  }

  lemma EnqueueHeldOk(s: State, i: nat, k: nat, h: nat)
    requires i < |s.pushes| && s.pushes[i].phase == Queueing(k) && k < |s.pushes[i].waiting| && h < |s.groups|
    requires s.pushes[i].waiting[k] < |s.groups| && s.pushes[i].pusher < |s.groups[s.pushes[i].waiting[k]].queues|
    requires HeldOk(s, i, h) && Held(s.groups[s.pushes[i].waiting[k]], i) == 0
    ensures h < |StepEnqueue(s, i, k).groups| && HeldOk(StepEnqueue(s, i, k), i, h)
  {
    var s' := StepEnqueue(s, i, k);
    EnqueueHeldAll(s, i, k, i, h);
    if h == s.pushes[i].waiting[k] { assert s'.pushes[i].waiting[k] == h && k < Queued(s'.pushes[i]); }
  }

  lemma EnqueueOwnOk(g: Graph, s: State, i: nat, k: nat)
    requires InRange(g, s) && i < |s.pushes| && s.pushes[i].phase == Queueing(k) && k < |s.pushes[i].waiting|
    requires AllOk(g, s, i)
    ensures AllOk(g, StepEnqueue(s, i, k), i)
  {
    var s' := StepEnqueue(s, i, k);
    var p := s.pushes[i];
    SameWaiting(g, p, s'.pushes[i]);
    assert HeldOk(s, i, p.waiting[k]);
    NotHeldYet(s, i, k);
    forall h | 0 <= h < |s'.groups| ensures HeldOk(s', i, h) { assert HeldOk(s, i, h); EnqueueHeldOk(s, i, k, h); }
    forall l | 0 <= l < |p.waiting|
      ensures Unserved(s', i, l) == Unserved(s, i, l)
    {
      EnqueueHeldAll(s, i, k, i, p.waiting[l]);
    }
    SameDeliveries(g, s, s', i);
  }

  lemma EnqueueAllOk(g: Graph, s: State, i: nat, k: nat, n: nat)
    requires InRange(g, s) && i < |s.pushes| && s.pushes[i].phase == Queueing(k) && k < |s.pushes[i].waiting|
    requires n < |s.pushes| && AllOk(g, s, n)
    ensures AllOk(g, StepEnqueue(s, i, k), n)
  {
    if n == i {
      EnqueueOwnOk(g, s, i, k);
    } else {
      forall h | 0 <= h < |s.groups|
        ensures Held(StepEnqueue(s, i, k).groups[h], n) == Held(s.groups[h], n)
      {
        EnqueueHeldAll(s, i, k, n, h);
      }
      OtherPushOk(g, s, StepEnqueue(s, i, k), n);
    }
  }

  lemma EnqueueInv(g: Graph, s: State, i: nat, k: nat)
    requires Inv(g, s) && i < |s.pushes| && s.pushes[i].phase == Queueing(k) && k < |s.pushes[i].waiting|
    ensures Inv(g, StepEnqueue(s, i, k))
  {
    var s' := StepEnqueue(s, i, k);
    var p := s.pushes[i];
    var h := p.waiting[k];
    forall n | 0 <= n < |s'.pushes|
      ensures AllOk(g, s', n)
    {
      assert AllOk(g, s, n);
      EnqueueAllOk(g, s, i, k, n);
    }
    forall n: nat | n >= |s.pushes| ensures Held(s'.groups[h], n) == 0 { EnqueueHeld(s.groups[h], p.pusher, i, n); }
    forall x, q | 0 <= x < |s'.groups| && 0 <= q < |s'.groups[x].queues|
      ensures NotStranded(s', x, q)
    {
      assert NotStranded(s, x, q);
      assert x == h && q == p.pusher ==> AboutToWake(s', i, x, q);
      if n :| 0 <= n < |s.pushes| && AboutToWake(s, n, x, q) {
        assert AboutToWake(s', n, x, q);
      }
    }
    forall x | 0 <= x < |s'.groups| ensures CollectingOk(s', x) { assert CollectingOk(s, x); }
  }

  lemma SendOwnOk(g: Graph, s: State, i: nat, k: nat)
    requires InRange(g, s) && i < |s.pushes| && s.pushes[i].phase == Waking(k) && k < |s.pushes[i].waiting|
    requires AllOk(g, s, i)
    ensures AllOk(g, StepSend(s, i, k), i)
  {
    var s' := StepSend(s, i, k);
    SameWaiting(g, s.pushes[i], s'.pushes[i]);
    forall h | 0 <= h < |s'.groups| ensures HeldOk(s', i, h) { assert HeldOk(s, i, h); }
    SameDeliveries(g, s, s', i);
  }

  lemma SendAllOk(g: Graph, s: State, i: nat, k: nat, n: nat)
    requires InRange(g, s) && i < |s.pushes| && s.pushes[i].phase == Waking(k) && k < |s.pushes[i].waiting|
    requires n < |s.pushes| && AllOk(g, s, n)
    ensures AllOk(g, StepSend(s, i, k), n)
  {
    if n == i { SendOwnOk(g, s, i, k); } else { OtherPushOk(g, s, StepSend(s, i, k), n); }
  }

  lemma SendInv(g: Graph, s: State, i: nat, k: nat)
    requires Inv(g, s) && i < |s.pushes| && s.pushes[i].phase == Waking(k) && k < |s.pushes[i].waiting|
    ensures Inv(g, StepSend(s, i, k))
  {
    var s' := StepSend(s, i, k);
    forall n | 0 <= n < |s'.pushes| ensures AllOk(g, s', n) { assert AllOk(g, s, n); SendAllOk(g, s, i, k, n); }
    forall x, n: nat | 0 <= x < |s'.groups| ensures Held(s'.groups[x], n) == Held(s.groups[x], n) { }
    forall x, q | 0 <= x < |s'.groups| && 0 <= q < |s'.groups[x].queues|
      ensures NotStranded(s', x, q)
    {
      assert NotStranded(s, x, q);
      if n :| 0 <= n < |s.pushes| && AboutToWake(s, n, x, q) {
        assert n != i ==> AboutToWake(s', n, x, q);
      }
    }
    forall x | 0 <= x < |s'.groups| ensures CollectingOk(s', x) { assert CollectingOk(s, x); }
  }

  // Only group h changes its queues, flag and consumer; what its packets still have to do is taken care of.
  lemma GroupStepInv(g: Graph, s: State, s': State, h: nat)
    requires Inv(g, s) && h < |s.groups| == |s'.groups| && s'.groups == s.groups[h := s'.groups[h]]
    requires s'.pushes == s.pushes && |s'.groups[h].queues| == |s.groups[h].queues|
    requires forall n :: 0 <= n < |s.pushes| ==> AllOk(g, s', n)
    requires forall n: nat :: n >= |s.pushes| ==> Held(s'.groups[h], n) == 0
    requires forall n: nat, j: nat :: n >= |s.pushes| ==> s'.delivered[(n, j)] == 0
    requires forall q :: 0 <= q < |s'.groups[h].queues| ==> NotStranded(s', h, q)
    requires CollectingOk(s', h)
    ensures Inv(g, s')
  {
    forall x, q | 0 <= x < |s'.groups| && 0 <= q < |s'.groups[x].queues|
      ensures NotStranded(s', x, q)
    {
      if x != h {
        assert NotStranded(s, x, q);
        if n :| 0 <= n < |s.pushes| && AboutToWake(s, n, x, q) { assert AboutToWake(s', n, x, q); }
      }
    }
    forall x | 0 <= x < |s'.groups| ensures CollectingOk(s', x) { assert x != h ==> CollectingOk(s, x); }
  }

  // Packets only move inside group h.
  lemma SameHeldInv(g: Graph, s: State, s': State, h: nat)
    requires Inv(g, s) && h < |s.groups| == |s'.groups| && s'.groups == s.groups[h := s'.groups[h]]
    requires s'.pushes == s.pushes && |s'.groups[h].queues| == |s.groups[h].queues| && s'.delivered == s.delivered
    requires forall n: nat :: Held(s'.groups[h], n) == Held(s.groups[h], n)
    requires forall q :: 0 <= q < |s'.groups[h].queues| ==> NotStranded(s', h, q)
    requires CollectingOk(s', h)
    ensures Inv(g, s')
  {
    forall n | 0 <= n < |s.pushes|
      ensures AllOk(g, s', n)
    {
      assert AllOk(g, s, n);
      OtherPushOk(g, s, s', n);
    }
    GroupStepInv(g, s, s', h);
  }

  lemma WakeInv(g: Graph, s: State, h: nat)
    requires Inv(g, s) && Enabled(g, s, Wake(h))
    ensures Inv(g, Step(g, s, Wake(h)))
  {
    SameHeldInv(g, s, Step(g, s, Wake(h)), h);
  }

  // Collecting moves packets from a sub-queue to the batch.
  lemma CollectHeld(group: ThreadGroup, batch: seq<nat>, k: nat, count: nat, n: nat)
    requires group.consumer == Collecting(batch, k) && k < |group.queues| && count <= |group.queues[k]|
    ensures
      var queue := group.queues[k];
      var consumer := Collecting(batch + queue[..count], k + 1);
      Held(group.(queues := group.queues[k := queue[count..]], consumer := consumer), n)
      == Held(group, n)
  {
    var queue := group.queues[k];
    TotalUpdate(group.queues, k, queue[count..], CountOf(n));
    assert queue == queue[..count] + queue[count..];
    assert CountOf(n)(queue) == multiset(queue[..count])[n] + CountOf(n)(queue[count..]);
  }

  lemma CollectInv(g: Graph, s: State, h: nat)
    requires Inv(g, s) && h < |s.groups| && s.groups[h].consumer.Collecting?
    ensures Inv(g, StepConsumer(g, s, h))
  {
    var s' := StepConsumer(g, s, h);
    var group := s.groups[h];
    var k, room := group.consumer.source, MAX_DEQUEUE_AT_ONCE - |group.consumer.batch|;
    assert CollectingOk(s, h);
    if k < |group.queues| && room > 0 {
      var count := if |group.queues[k]| < room then |group.queues[k]| else room;
      forall n: nat
        ensures Held(s'.groups[h], n) == Held(group, n)
      {
        CollectHeld(group, group.consumer.batch, k, count, n);
      }
    }
    forall q | 0 <= q < |s'.groups[h].queues|
      ensures NotStranded(s', h, q)
    {
      assert NotStranded(s, h, q);
      if n :| 0 <= n < |s.pushes| && AboutToWake(s, n, h, q) { assert AboutToWake(s', n, h, q); }
    }
    SameHeldInv(g, s, s', h);
  }

  // Handling one packet serves exactly the edges that the group's thread still owes it.
  lemma HandledCount(g: Graph, s: State, h: nat, i: nat, n: nat, j: nat)
    requires InRange(g, s) && h < |s.groups| && i < |s.pushes|
    requires s.pushes[i].kind.ToNode? ==> ThreadOf(g, s.pushes[i].kind.node) == g.loopThread[h]
    ensures
      var edges := Edges(g, s.pushes[i].kind);
      Handled(g, s, h, i)[(n, j)]
      == if n == i && j < |edges| && ServedFromQueue(g, edges[j], s.pushes[i].pusher, g.loopThread[h]) then 1 else 0
  {
    var p := s.pushes[i];
    if p.kind.OnChannel? {
      RescanCount(g, g.forward[p.kind.node], p.kind.channel, p.pusher, g.loopThread[h], j);
      DeliveriesCount(i, Rescan(g, g.forward[p.kind.node], p.kind.channel, p.pusher, g.loopThread[h]), n, j);
    }
  }

  // Handling takes the first packet off the batch.
  lemma HandleHeld(group: ThreadGroup, batch: seq<nat>, n: nat)
    requires group.consumer == Handling(batch) && batch != []
    ensures Held(group.(consumer := Handling(batch[1..])), n) == Held(group, n) - if n == batch[0] then 1 else 0
  {
    assert batch == [batch[0]] + batch[1..];
  }

  // The packet a loop is about to handle is one of the pushes, and was queued to this group.
  lemma HandledPush(g: Graph, s: State, h: nat, batch: seq<nat>) returns (k: nat)
    requires InRange(g, s) && (forall i :: 0 <= i < |s.pushes| ==> AllOk(g, s, i))
    requires h < |s.groups| && s.groups[h].consumer == Handling(batch) && batch != []
    ensures batch[0] < |s.pushes| && Held(s.groups[h], batch[0]) == 1
    ensures k < Queued(s.pushes[batch[0]]) && k < |s.pushes[batch[0]].waiting| && s.pushes[batch[0]].waiting[k] == h
    ensures s.pushes[batch[0]].kind.ToNode? ==> ThreadOf(g, s.pushes[batch[0]].kind.node) == g.loopThread[h]
  {
    var i := batch[0];
    TotalNonNegative(s.groups[h].queues, CountOf(i));
    assert i in multiset(batch);
    assert Held(s.groups[h], i) >= 1;
    assert AllOk(g, s, i) && HeldOk(s, i, h);
    k :| 0 <= k < |s.pushes[i].waiting| && k < Queued(s.pushes[i]) && s.pushes[i].waiting[k] == h;
    var l :| 0 <= l < Considered(g, s.pushes[i]) && NeedsThread(g, s.pushes[i], l, LoopThread(g, h));
  }

  lemma HandleAllOk(g: Graph, s: State, h: nat, batch: seq<nat>, n: nat)
    requires InRange(g, s) && (forall i :: 0 <= i < |s.pushes| ==> AllOk(g, s, i))
    requires h < |s.groups| && s.groups[h].consumer == Handling(batch) && batch != [] && n < |s.pushes|
    ensures AllOk(g, StepConsumer(g, s, h), n)
  {
    var s' := StepConsumer(g, s, h);
    var i := batch[0];
    var k := HandledPush(g, s, h, batch);
    assert AllOk(g, s, n);
    forall x | 0 <= x < |s.groups|
      ensures Held(s'.groups[x], n) == Held(s.groups[x], n) - if n == i && x == h then 1 else 0
    {
      if x == h { HandleHeld(s.groups[h], batch, n); }
    }
    forall j: nat
      ensures s'.delivered[(n, j)] == s.delivered[(n, j)] + Handled(g, s, h, i)[(n, j)]
    { }
    if n != i {
      forall j: nat ensures s'.delivered[(n, j)] == s.delivered[(n, j)] { HandledCount(g, s, h, i, n, j); }
      OtherPushOk(g, s, s', n);
    } else {
      forall x | 0 <= x < |s'.groups| ensures HeldOk(s', i, x) { assert HeldOk(s, i, x); }
      forall j: nat
        ensures DeliveredOk(g, s', i, j)
      {
        HandleDelivered(g, s, h, batch, k, j);
      }
    }
  }

  lemma HandleDelivered(g: Graph, s: State, h: nat, batch: seq<nat>, k: nat, j: nat)
    requires InRange(g, s) && h < |s.groups| && s.groups[h].consumer == Handling(batch) && batch != []
    requires batch[0] < |s.pushes| && AllOk(g, s, batch[0]) && Held(s.groups[h], batch[0]) == 1
    requires k < Queued(s.pushes[batch[0]]) && k < |s.pushes[batch[0]].waiting| && s.pushes[batch[0]].waiting[k] == h
    requires s.pushes[batch[0]].kind.ToNode? ==> ThreadOf(g, s.pushes[batch[0]].kind.node) == g.loopThread[h]
    ensures DeliveredOk(g, StepConsumer(g, s, h), batch[0], j)
  {
    var s' := StepConsumer(g, s, h);
    var i := batch[0];
    var p := s.pushes[i];
    assert DeliveredOk(g, s, i, j);
    HandledCount(g, s, h, i, i, j);
    HandleHeld(s.groups[h], batch, i);
    forall l | 0 <= l < |p.waiting|
      ensures Unserved(s', i, l) == Unserved(s, i, l) - if l == k then 1 else 0
    {
      assert l != k ==> p.waiting[l] != h;
    }
  }

  lemma HandleInv(g: Graph, s: State, h: nat, batch: seq<nat>)
    requires Inv(g, s) && h < |s.groups| && s.groups[h].consumer == Handling(batch)
    ensures Inv(g, StepConsumer(g, s, h))
  {
    var s' := StepConsumer(g, s, h);
    forall q | 0 <= q < |s'.groups[h].queues|
      ensures NotStranded(s', h, q)
    {
      assert NotStranded(s, h, q);
    }
    if batch == [] {
      SameHeldInv(g, s, s', h);
    } else {
      var k := HandledPush(g, s, h, batch);
      forall n | 0 <= n < |s.pushes| ensures AllOk(g, s', n) { HandleAllOk(g, s, h, batch, n); }
      forall n: nat | n >= |s.pushes| ensures Held(s'.groups[h], n) == 0 { HandleHeld(s.groups[h], batch, n); }
      forall n: nat, j: nat | n >= |s.pushes|
        ensures s'.delivered[(n, j)] == 0
      {
        HandledCount(g, s, h, batch[0], n, j);
      }
      GroupStepInv(g, s, s', h);
    }
  }

  /** Every step of every pushing thread and every loop keeps the invariant. */
  lemma StepInv(g: Graph, s: State, m: Move)
    requires Inv(g, s) && Enabled(g, s, m)
    ensures Inv(g, Step(g, s, m))
  {
    match m
    case Begin(_, _) => BeginInv(g, s, m);
    case Wake(h) => WakeInv(g, s, h);
    case Consume(h) =>
      match s.groups[h].consumer {
        case Collecting(_, _) => CollectInv(g, s, h);
        case Handling(batch) => HandleInv(g, s, h, batch);
        case Asleep =>
      }
    case Advance(i) =>
      match s.pushes[i].phase {
        case Scanning(j) =>
          if j < |Edges(g, s.pushes[i].kind)| { EdgeInv(g, s, i, j); } else { FinishScanInv(g, s, i); }
        case Queueing(k) => EnqueueInv(g, s, i, k);
        case Waking(k) => SendInv(g, s, i, k);
      }
  }

  // ----- what holds over every run

  datatype Run = Run(states: seq<State>, moves: seq<Move>)

  ghost predicate IsRun(g: Graph, r: Run) {
    && |r.states| == |r.moves| + 1
    && Init(g, r.states[0])
    && forall i :: 0 <= i < |r.moves| ==>
         Enabled(g, r.states[i], r.moves[i]) && r.states[i + 1] == Step(g, r.states[i], r.moves[i])
  }

  lemma {:induction false} RunInv(g: Graph, r: Run, i: nat)
    requires IsRun(g, r) && i < |r.states|
    ensures Inv(g, r.states[i])
  {
    if i == 0 {
      InitInv(g, r.states[0]);
    } else {
      RunInv(g, r, i - 1);
      StepInv(g, r.states[i - 1], r.moves[i - 1]);
    }
  }

  // Any well-formed graph, with any number of pushing threads, starts with nothing pushed and every loop asleep.
  function Start(g: Graph, pushers: nat): State {
    State([], seq(|g.loopThread|, _ => ThreadGroup(seq(pushers, _ => []), false, Asleep)), multiset{})
  }

  /** There is a run from the start of every graph, and every enabled step carries a run on. */
  lemma RunGoesOn(g: Graph, pushers: nat, r: Run, m: Move)
    requires WellFormed(g)
    ensures IsRun(g, Run([Start(g, pushers)], []))
    ensures IsRun(g, r) && Enabled(g, r.states[|r.moves|], m) ==>
              IsRun(g, Run(r.states + [Step(g, r.states[|r.moves|], m)], r.moves + [m]))
  {
    if IsRun(g, r) && Enabled(g, r.states[|r.moves|], m) {
      var longer := Run(r.states + [Step(g, r.states[|r.moves|], m)], r.moves + [m]);
      forall i | 0 <= i < |longer.moves|
        ensures Enabled(g, longer.states[i], longer.moves[i])
                && longer.states[i + 1] == Step(g, longer.states[i], longer.moves[i])
      {
        if i < |r.moves| {
          assert longer.states[i] == r.states[i] && longer.states[i + 1] == r.states[i + 1]
                 && longer.moves[i] == r.moves[i];
        }
      }
    }
  }

  /** No queued packet is stranded: while a sub-queue is not empty, its loop is to be woken, is awake and still going to
      look at it, or the thread that queued the packet is about to wake it. */
  lemma NoPacketStranded(g: Graph, r: Run, i: nat, h: nat, p: nat)
    requires IsRun(g, r) && i < |r.states| && h < |r.states[i].groups| && p < |r.states[i].groups[h].queues|
    requires r.states[i].groups[h].queues[p] != []
    ensures
      var s := r.states[i];
      || s.groups[h].wakeUp
      || WillLook(s.groups[h].consumer, p)
      || exists k :: 0 <= k < |s.pushes| && AboutToWake(s, k, h, p)
  {
    RunInv(g, r, i);
    assert NotStranded(r.states[i], h, p);
  }

  // Nothing is left to do: every push is finished, no wake-up is pending and every loop sleeps.
  ghost predicate Settled(g: Graph, s: State) {
    && (forall i :: 0 <= i < |s.pushes| ==> Done(g, s.pushes[i]))
    && (forall h :: 0 <= h < |s.groups| ==> !s.groups[h].wakeUp && s.groups[h].consumer.Asleep?)
  }

  /** A packet is delivered along an edge at most once, along edges of its channel only, in every state of every run. */
  lemma AtMostOnce(g: Graph, r: Run, n: nat, i: nat, j: nat)
    requires IsRun(g, r) && n < |r.states|
    ensures r.states[n].delivered[(i, j)] <= 1
    ensures r.states[n].delivered[(i, j)] == 1 ==>
              i < |r.states[n].pushes| && j < |Edges(g, r.states[n].pushes[i].kind)|
  {
    var s := r.states[n];
    RunInv(g, r, n);
    if i < |s.pushes| {
      assert AllOk(g, s, i) && DeliveredOk(g, s, i, j);
      var p := s.pushes[i];
      if j < Considered(g, p) && j < |Edges(g, p.kind)| && !PushDirectly(g, Edges(g, p.kind)[j], p.pusher) {
        var k :| 0 <= k < |p.waiting| && LoopThread(g, p.waiting[k]) == ThreadOf(g, Edges(g, p.kind)[j].target);
        if k < Queued(p) { HeldNonNegative(s.groups[p.waiting[k]], i); }
      }
    }
  }

  /** Once everything has settled, all queues are empty and every packet pushed on a channel has been delivered exactly
      once along each edge of the channel, whoever pushed it and wherever the targets run; a packet sent to a node has
      been delivered exactly once. */
  lemma ExactlyOnce(g: Graph, r: Run, n: nat, i: nat, j: nat)
    requires IsRun(g, r) && n < |r.states| && Settled(g, r.states[n]) && i < |r.states[n].pushes|
    ensures r.states[n].delivered[(i, j)] == if j < |Edges(g, r.states[n].pushes[i].kind)| then 1 else 0
    ensures forall h, p :: 0 <= h < |r.states[n].groups| && 0 <= p < |r.states[n].groups[h].queues| ==>
              r.states[n].groups[h].queues[p] == []
  {
    var s := r.states[n];
    RunInv(g, r, n);
    forall h, p | 0 <= h < |s.groups| && 0 <= p < |s.groups[h].queues|
      ensures s.groups[h].queues[p] == []
    {
      assert NotStranded(s, h, p);
    }
    assert AllOk(g, s, i) && DeliveredOk(g, s, i, j);
    var p := s.pushes[i];
    if j < |Edges(g, p.kind)| && !PushDirectly(g, Edges(g, p.kind)[j], p.pusher) {
      var k :| 0 <= k < |p.waiting| && LoopThread(g, p.waiting[k]) == ThreadOf(g, Edges(g, p.kind)[j].target);
      TotalZero(s.groups[p.waiting[k]].queues, CountOf(i));
    }
  }

  // ----- where packets are handled

  // Every waiting group is the group of the target of one of the push's edges.
  ghost predicate WaitsForTargets(g: Graph, p: Push) {
    forall k :: 0 <= k < |p.waiting| ==> IsTargetGroup(g, p.kind, p.waiting[k])
  }

  ghost predicate IsTargetGroup(g: Graph, kind: Kind, h: nat) {
    exists j :: 0 <= j < |Edges(g, kind)| && IsGroupOf(g, h, Edges(g, kind)[j].target)
  }

  predicate IsGroupOf(g: Graph, h: nat, node: nat) {
    node < |g.groupOf| && h == g.groupOf[node]
  }

  lemma EdgeWaitsForTargets(g: Graph, p: Push, j: nat)
    requires WellFormed(g) && p.kind.node < |g.groupOf| && j < |Edges(g, p.kind)| && WaitsForTargets(g, p)
    ensures WaitsForTargets(g, AfterEdge(g, p, j, Edges(g, p.kind)[j]))
  {
    EdgeTarget(g, p.kind, j);
    var target := Edges(g, p.kind)[j].target;
    assert IsGroupOf(g, GroupOf(g, target), target);
    assert IsTargetGroup(g, p.kind, GroupOf(g, target));
  }

  lemma StepWaitsForTargets(g: Graph, s: State, m: Move, i: nat)
    requires Inv(g, s) && Enabled(g, s, m) && i < |Step(g, s, m).pushes|
    requires forall k :: 0 <= k < |s.pushes| ==> WaitsForTargets(g, s.pushes[k])
    ensures WaitsForTargets(g, Step(g, s, m).pushes[i])
  {
    var p' := Step(g, s, m).pushes[i];
    if i < |s.pushes| {
      var p := s.pushes[i];
      assert PushInRange(g, s, p);
      if m == Advance(i) && p.phase.Scanning? && p.phase.next < |Edges(g, p.kind)| {
        EdgeWaitsForTargets(g, p, p.phase.next);
      } else {
        assert p'.kind == p.kind && p'.waiting == p.waiting;
      }
    }
  }

  lemma {:induction false} RunWaitsForTargets(g: Graph, r: Run, n: nat)
    requires IsRun(g, r) && n < |r.states|
    ensures forall i :: 0 <= i < |r.states[n].pushes| ==> WaitsForTargets(g, r.states[n].pushes[i])
  {
    if n > 0 {
      RunWaitsForTargets(g, r, n - 1);
      RunInv(g, r, n - 1);
      forall i | 0 <= i < |r.states[n].pushes|
        ensures WaitsForTargets(g, r.states[n].pushes[i])
      {
        StepWaitsForTargets(g, r.states[n - 1], r.moves[n - 1], i);
      }
    }
  }

  // Packet i is delivered along edge j by the thread of the edge's target: by the pushing thread itself, or by a loop.
  ghost predicate OnOwnThread(g: Graph, s: State, m: Move, i: nat, j: nat) {
    && i < |s.pushes| && j < |Edges(g, s.pushes[i].kind)|
    && var p, e := s.pushes[i], Edges(g, s.pushes[i].kind)[j];
    && e.target < |g.groupOf| && g.groupOf[e.target] < |g.loopThread|
    && var own := g.loopThread[g.groupOf[e.target]];
    match m
    case Advance(k) => k == i && p.kind.OnChannel? && p.pusher == own && !e.alwaysQueue
    case Consume(h) => h < |g.loopThread| && g.loopThread[h] == own && (p.pusher != own || e.alwaysQueue)
    case _ => false
  }

  lemma PushOnOwnThread(g: Graph, s: State, m: Move, i: nat, j: nat)
    requires Inv(g, s) && Enabled(g, s, m) && m.Advance?
    requires Step(g, s, m).delivered[(i, j)] > s.delivered[(i, j)]
    ensures OnOwnThread(g, s, m, i, j)
  {
    var p := s.pushes[m.push];
    assert PushInRange(g, s, p);
    if p.phase.Scanning? && p.phase.next < |Edges(g, p.kind)| {
      EdgeTarget(g, p.kind, p.phase.next);
    }
  }

  lemma LoopOnOwnThread(g: Graph, s: State, h: nat, i: nat, j: nat)
    requires Inv(g, s) && Enabled(g, s, Consume(h))
    requires Step(g, s, Consume(h)).delivered[(i, j)] > s.delivered[(i, j)]
    ensures OnOwnThread(g, s, Consume(h), i, j)
    ensures exists k :: 0 <= k < |s.pushes[i].waiting| && s.pushes[i].waiting[k] == h
  {
    var batch := Batch(s.groups[h].consumer);
    var k := HandledPush(g, s, h, batch);
    var packet := batch[0];
    assert PushInRange(g, s, s.pushes[packet]);
    HandledCount(g, s, h, packet, i, j);
    EdgeTarget(g, s.pushes[packet].kind, j);
  }

  /** Packets are handled on the thread of their target. Whenever a packet is delivered along an edge, the acting thread
      is the one that runs the loop of the target's group: the pushing thread, when it is that thread and the edge does
      not always queue, and the loop of a group on that thread otherwise. A packet sent to a node is handled by the loop
      of the node's own group. */
  lemma HandledOnOwnThread(g: Graph, r: Run, n: nat, i: nat, j: nat)
    requires IsRun(g, r) && n < |r.moves|
    requires r.states[n + 1].delivered[(i, j)] > r.states[n].delivered[(i, j)]
    ensures OnOwnThread(g, r.states[n], r.moves[n], i, j)
    ensures var kind := r.states[n].pushes[i].kind;
            kind.ToNode? ==> kind.node < |g.groupOf| && r.moves[n] == Consume(g.groupOf[kind.node])
  {
    var s := r.states[n];
    RunInv(g, r, n);
    match r.moves[n]
    case Advance(_) => PushOnOwnThread(g, s, r.moves[n], i, j);
    case Consume(h) =>
      LoopOnOwnThread(g, s, h, i, j);
      RunWaitsForTargets(g, r, n);
      assert WaitsForTargets(g, s.pushes[i]) && IsTargetGroup(g, s.pushes[i].kind, h);
    case _ =>
  }

  // ----- the order in which packets are handled

  // The packets among these that thread p pushed.
  function OfPusher(pushes: seq<Push>, packets: seq<nat>, p: nat): seq<nat> {
    if packets == [] then [] else IfPusher(pushes, packets[0], p) + OfPusher(pushes, packets[1..], p)
  }

  function IfPusher(pushes: seq<Push>, packet: nat, p: nat): seq<nat> {
    if packet < |pushes| && pushes[packet].pusher == p then [packet] else []
  }

  lemma Associate(a: seq<nat>, b: seq<nat>, c: seq<nat>)
    ensures a + (b + c) == (a + b) + c
  {
  }

  lemma {:induction false} OfPusherAppend(pushes: seq<Push>, a: seq<nat>, b: seq<nat>, p: nat)
    ensures OfPusher(pushes, a + b, p) == OfPusher(pushes, a, p) + OfPusher(pushes, b, p)
  {
    if a == [] {
      assert a + b == b;
    } else {
      OfPusherAppend(pushes, a[1..], b, p);
      assert (a + b)[1..] == a[1..] + b && (a + b)[0] == a[0];
      Associate(IfPusher(pushes, a[0], p), OfPusher(pushes, a[1..], p), OfPusher(pushes, b, p));
    }
  }

  lemma {:induction false} OfPusherOne(pushes: seq<Push>, a: seq<nat>, q: nat, p: nat)
    requires PushedBy(pushes, a, q)
    ensures OfPusher(pushes, a, p) == if p == q then a else []
  {
    if a != [] {
      OfPusherOne(pushes, a[1..], q, p);
    }
  }

  lemma {:induction false} OfPusherKept(pushes: seq<Push>, later: seq<Push>, a: seq<nat>, p: nat)
    requires SamePushers(pushes, later) && Pushed(pushes, a)
    ensures OfPusher(later, a, p) == OfPusher(pushes, a, p)
  {
    if a != [] {
      OfPusherKept(pushes, later, a[1..], p);
    }
  }

  predicate PushedBy(pushes: seq<Push>, packets: seq<nat>, q: nat) {
    forall k :: 0 <= k < |packets| ==> packets[k] < |pushes| && pushes[packets[k]].pusher == q
  }

  predicate Pushed(pushes: seq<Push>, packets: seq<nat>) {
    forall k :: 0 <= k < |packets| ==> packets[k] < |pushes|
  }

  predicate SamePushers(pushes: seq<Push>, later: seq<Push>) {
    |pushes| <= |later| && forall i :: 0 <= i < |pushes| ==> later[i].pusher == pushes[i].pusher
  }

  // Sub-queue q holds packets of thread q only, and the batch packets that were pushed.
  predicate SortedByPusher(pushes: seq<Push>, group: ThreadGroup) {
    && (forall q :: 0 <= q < |group.queues| ==> PushedBy(pushes, group.queues[q], q))
    && Pushed(pushes, Batch(group.consumer))
  }

  // The packets of thread p that the group has still to handle, the next one first.
  function Pending(pushes: seq<Push>, group: ThreadGroup, p: nat): seq<nat>
    requires p < |group.queues|
  {
    OfPusher(pushes, Batch(group.consumer), p) + group.queues[p]
  }

  // The packet that move m queues to group h for thread p.
  function Queues(s: State, m: Move, h: nat, p: nat): seq<nat> {
    if m.Advance? && m.push < |s.pushes| && s.pushes[m.push].phase.Queueing? && s.pushes[m.push].pusher == p then
      var k := s.pushes[m.push].phase.index;
      if k < |s.pushes[m.push].waiting| && s.pushes[m.push].waiting[k] == h then [m.push] else []
    else []
  }

  // The packet of thread p that move m handles in group h.
  function Handles(s: State, m: Move, h: nat, p: nat): seq<nat> {
    if m == Consume(h) && h < |s.groups| && s.groups[h].consumer.Handling? && s.groups[h].consumer.batch != [] then
      OfPusher(s.pushes, [s.groups[h].consumer.batch[0]], p)
    else []
  }

  // What one move of anybody does to what a group holds of thread p's packets.
  ghost predicate InOrder(s: State, s': State, m: Move, h: nat, p: nat) {
    && h < |s.groups| == |s'.groups| && p < |s.groups[h].queues| == |s'.groups[h].queues|
    && SortedByPusher(s'.pushes, s'.groups[h])
    && Handles(s, m, h, p) + Pending(s'.pushes, s'.groups[h], p)
    == Pending(s.pushes, s.groups[h], p) + Queues(s, m, h, p)
  }

  lemma PushersStay(g: Graph, s: State, m: Move)
    requires Enabled(g, s, m)
    ensures SamePushers(s.pushes, Step(g, s, m).pushes)
  {
  }

  // A group whose packets lie where they lay.
  lemma StillInOrder(s: State, s': State, m: Move, h: nat, p: nat)
    requires h < |s.groups| == |s'.groups| && p < |s.groups[h].queues| && SortedByPusher(s.pushes, s.groups[h])
    requires SamePushers(s.pushes, s'.pushes) && s'.groups[h].queues == s.groups[h].queues
    requires Batch(s'.groups[h].consumer) == Batch(s.groups[h].consumer)
    requires Handles(s, m, h, p) == [] && Queues(s, m, h, p) == []
    ensures InOrder(s, s', m, h, p)
  {
    OfPusherKept(s.pushes, s'.pushes, Batch(s.groups[h].consumer), p);
  }

  lemma EnqueueInOrder(s: State, s': State, i: nat, k: nat, h: nat, p: nat)
    requires h < |s.groups| == |s'.groups| && p < |s.groups[h].queues| && SortedByPusher(s.pushes, s.groups[h])
    requires i < |s.pushes| && s.pushes[i].phase == Queueing(k) && k < |s.pushes[i].waiting|
             && s.pushes[i].waiting[k] == h && s.pushes[i].pusher < |s.groups[h].queues|
    requires SamePushers(s.pushes, s'.pushes) && s'.groups[h].consumer == s.groups[h].consumer
    requires var q := s.pushes[i].pusher; s'.groups[h].queues == s.groups[h].queues[q := s.groups[h].queues[q] + [i]]
    ensures InOrder(s, s', Advance(i), h, p)
  {
    OfPusherKept(s.pushes, s'.pushes, Batch(s.groups[h].consumer), p);
  }

  lemma CollectSorted(pushes: seq<Push>, group: ThreadGroup, group': ThreadGroup, k: nat, count: nat)
    requires SortedByPusher(pushes, group) && k < |group.queues| && count <= |group.queues[k]|
    requires group'.queues == group.queues[k := group.queues[k][count..]]
    requires Batch(group'.consumer) == Batch(group.consumer) + group.queues[k][..count]
    ensures SortedByPusher(pushes, group')
  {
    assert PushedBy(pushes, group.queues[k], k);
  }

  // What is appended to a batch from the sub-queue of thread q is all that thread's.
  lemma BatchGrows(pushes: seq<Push>, batch: seq<nat>, taken: seq<nat>, q: nat, p: nat)
    requires PushedBy(pushes, taken, q)
    ensures OfPusher(pushes, batch + taken, p) == OfPusher(pushes, batch, p) + if p == q then taken else []
  {
    OfPusherAppend(pushes, batch, taken, p);
    OfPusherOne(pushes, taken, q, p);
  }

  lemma SplitAt(front: seq<nat>, queue: seq<nat>, count: nat)
    requires count <= |queue|
    ensures (front + queue[..count]) + queue[count..] == front + queue
  {
  }

  // Collecting takes the front of a sub-queue to the end of the batch.
  lemma CollectPending(pushes: seq<Push>, group: ThreadGroup, group': ThreadGroup, k: nat, count: nat, p: nat)
    requires SortedByPusher(pushes, group) && k < |group.queues| && count <= |group.queues[k]| && p < |group.queues|
    requires group'.queues == group.queues[k := group.queues[k][count..]]
    requires Batch(group'.consumer) == Batch(group.consumer) + group.queues[k][..count]
    ensures Pending(pushes, group', p) == Pending(pushes, group, p)
  {
    assert PushedBy(pushes, group.queues[k], k);
    BatchGrows(pushes, Batch(group.consumer), group.queues[k][..count], k, p);
    SplitAt(OfPusher(pushes, Batch(group.consumer), p), group.queues[k], count);
  }

  lemma CollectInOrder(s: State, s': State, h: nat, p: nat, k: nat, count: nat)
    requires h < |s.groups| == |s'.groups| && p < |s.groups[h].queues| && SortedByPusher(s.pushes, s.groups[h])
    requires s'.pushes == s.pushes && s.groups[h].consumer.Collecting?
    requires k < |s.groups[h].queues| && count <= |s.groups[h].queues[k]|
    requires s'.groups[h].queues == s.groups[h].queues[k := s.groups[h].queues[k][count..]]
    requires Batch(s'.groups[h].consumer) == s.groups[h].consumer.batch + s.groups[h].queues[k][..count]
    ensures InOrder(s, s', Consume(h), h, p)
  {
    CollectSorted(s.pushes, s.groups[h], s'.groups[h], k, count);
    CollectPending(s.pushes, s.groups[h], s'.groups[h], k, count, p);
  }

  lemma HandleInOrder(s: State, s': State, h: nat, p: nat)
    requires h < |s.groups| == |s'.groups| && p < |s.groups[h].queues| && SortedByPusher(s.pushes, s.groups[h])
    requires s'.pushes == s.pushes && s.groups[h].consumer.Handling? && s.groups[h].consumer.batch != []
    requires s'.groups[h].queues == s.groups[h].queues
    requires Batch(s'.groups[h].consumer) == s.groups[h].consumer.batch[1..]
    ensures InOrder(s, s', Consume(h), h, p)
  {
    var batch := s.groups[h].consumer.batch;
    OfPusherAppend(s.pushes, [batch[0]], batch[1..], p);
    assert [batch[0]] + batch[1..] == batch;
  }

  lemma ConsumeInOrder(g: Graph, s: State, h: nat, p: nat)
    requires Enabled(g, s, Consume(h)) && p < |s.groups[h].queues| && SortedByPusher(s.pushes, s.groups[h])
    ensures InOrder(s, Step(g, s, Consume(h)), Consume(h), h, p)
  {
    var s' := Step(g, s, Consume(h));
    var group := s.groups[h];
    match group.consumer
    case Collecting(batch, k) =>
      if k < |group.queues| && |batch| < MAX_DEQUEUE_AT_ONCE {
        var room := MAX_DEQUEUE_AT_ONCE - |batch|;
        CollectInOrder(s, s', h, p, k, if |group.queues[k]| < room then |group.queues[k]| else room);
      } else {
        StillInOrder(s, s', Consume(h), h, p);
      }
    case Handling(batch) =>
      if batch == [] {
        StillInOrder(s, s', Consume(h), h, p);
      } else {
        HandleInOrder(s, s', h, p);
      }
    case Asleep =>
  }

  lemma StepInOrder(g: Graph, s: State, m: Move, h: nat, p: nat)
    requires Inv(g, s) && Enabled(g, s, m) && h < |s.groups| && p < |s.groups[h].queues|
    requires SortedByPusher(s.pushes, s.groups[h])
    ensures InOrder(s, Step(g, s, m), m, h, p)
  {
    var s' := Step(g, s, m);
    PushersStay(g, s, m);
    if m == Consume(h) {
      ConsumeInOrder(g, s, h, p);
    } else if m.Advance? && s.pushes[m.push].phase.Queueing? && Target(s, m.push) == Some(h) {
      assert PushInRange(g, s, s.pushes[m.push]);
      EnqueueInOrder(s, s', m.push, s.pushes[m.push].phase.index, h, p);
    } else {
      StillInOrder(s, s', m, h, p);
    }
  }

  // The group a push is about to queue its packet to.
  function Target(s: State, i: nat): Option<nat>
    requires i < |s.pushes| && s.pushes[i].phase.Queueing?
  {
    var k := s.pushes[i].phase.index;
    if k < |s.pushes[i].waiting| then Some(s.pushes[i].waiting[k]) else None
  }

  function QueuedLog(r: Run, n: nat, h: nat, p: nat): seq<nat>
    requires n < |r.states| == |r.moves| + 1
  {
    if n == 0 then [] else QueuedLog(r, n - 1, h, p) + Queues(r.states[n - 1], r.moves[n - 1], h, p)
  }

  function HandledLog(r: Run, n: nat, h: nat, p: nat): seq<nat>
    requires n < |r.states| == |r.moves| + 1
  {
    if n == 0 then [] else HandledLog(r, n - 1, h, p) + Handles(r.states[n - 1], r.moves[n - 1], h, p)
  }

  // From one state of a run to the next.
  lemma RunStepInOrder(g: Graph, r: Run, n: nat, h: nat, p: nat)
    requires IsRun(g, r) && n < |r.moves| && h < |r.states[n].groups| && p < |r.states[n].groups[h].queues|
    requires SortedByPusher(r.states[n].pushes, r.states[n].groups[h])
    ensures InOrder(r.states[n], r.states[n + 1], r.moves[n], h, p)
  {
    RunInv(g, r, n);
    StepInOrder(g, r.states[n], r.moves[n], h, p);
  }

  ghost predicate LogsAgree(r: Run, n: nat, h: nat, p: nat)
    requires n < |r.states| == |r.moves| + 1
  {
    && h < |r.states[n].groups| && p < |r.states[n].groups[h].queues|
    && SortedByPusher(r.states[n].pushes, r.states[n].groups[h])
    && HandledLog(r, n, h, p) + Pending(r.states[n].pushes, r.states[n].groups[h], p) == QueuedLog(r, n, h, p)
  }

  lemma Shift(handled: seq<nat>, pending: seq<nat>, queued: seq<nat>, out: seq<nat>, left: seq<nat>, put: seq<nat>)
    requires handled + pending == queued && out + left == pending + put
    ensures (handled + out) + left == queued + put
  {
    assert (handled + out) + left == handled + (out + left);
    assert handled + (pending + put) == (handled + pending) + put;
  }

  lemma LogsStep(r: Run, n: nat, h: nat, p: nat)
    requires |r.states| == |r.moves| + 1 && n < |r.moves| && LogsAgree(r, n, h, p)
    requires InOrder(r.states[n], r.states[n + 1], r.moves[n], h, p)
    ensures LogsAgree(r, n + 1, h, p)
  {
    var s, s' := r.states[n], r.states[n + 1];
    Shift(HandledLog(r, n, h, p), Pending(s.pushes, s.groups[h], p), QueuedLog(r, n, h, p),
          Handles(s, r.moves[n], h, p), Pending(s'.pushes, s'.groups[h], p), Queues(s, r.moves[n], h, p));
  }

  lemma {:induction false} AllLogsAgree(g: Graph, r: Run, n: nat, h: nat, p: nat)
    requires IsRun(g, r) && n < |r.states| && h < |r.states[0].groups| && p < |r.states[0].groups[h].queues|
    ensures LogsAgree(r, n, h, p)
  {
    if n > 0 {
      AllLogsAgree(g, r, n - 1, h, p);
      RunStepInOrder(g, r, n - 1, h, p);
      LogsStep(r, n - 1, h, p);
    }
  }

  /** Packets that one thread queues to one group are handled in the order in which they were queued: those handled so
      far, and then those pending, are the ones queued so far. */
  lemma HandledInOrder(g: Graph, r: Run, n: nat, h: nat, p: nat)
    requires IsRun(g, r) && n < |r.states| && h < |r.states[0].groups| && p < |r.states[0].groups[h].queues|
    ensures h < |r.states[n].groups| && p < |r.states[n].groups[h].queues|
    ensures HandledLog(r, n, h, p) + Pending(r.states[n].pushes, r.states[n].groups[h], p) == QueuedLog(r, n, h, p)
    ensures HandledLog(r, n, h, p) <= QueuedLog(r, n, h, p)
  {
    AllLogsAgree(g, r, n, h, p);
  }

  // ----- without new pushes everything settles

  // The most steps a push has to make.
  function PushLeft(g: Graph): Push -> int {
    (p: Push) =>
      match p.phase
      case Scanning(j) => 3 * (if j < |Edges(g, p.kind)| then |Edges(g, p.kind)| - j else 0) + 2 * |p.waiting| + 2
      case Queueing(k) => 2 * (if k < |p.waiting| then |p.waiting| - k else 0) + 1
      case Waking(k) => 2 * (if k < |p.waiting| then |p.waiting| - k else 0)
  }

  function QueueLength(queue: seq<nat>): int {
    |queue|
  }

  function InQueues(group: ThreadGroup): int {
    Total(group.queues, QueueLength)
  }

  function WakeUps(group: ThreadGroup): int {
    if group.wakeUp then 1 else 0
  }

  // The most steps a loop makes before it sleeps, as long as it finds no packet to collect.
  function LoopLeft(group: ThreadGroup): int {
    var sources := |group.queues|;
    match group.consumer
    case Asleep => 0
    case Collecting(batch, k) =>
      (if k < sources then sources - k else 0) + 1 + if batch == [] then 0 else |batch| + sources + 3
    case Handling(batch) => |batch| + sources + 2
  }

  datatype Work = Work(pushing: int, queued: int, wakeUps: int, looping: int)

  function WorkLeft(g: Graph, s: State): Work {
    Work(Total(s.pushes, PushLeft(g)), Total(s.groups, InQueues), Total(s.groups, WakeUps), Total(s.groups, LoopLeft))
  }

  // Less work, a push's step counting for more than any number of packets, and so on.
  predicate Less(a: Work, b: Work) {
    || a.pushing < b.pushing
    || (a.pushing == b.pushing && a.queued < b.queued)
    || (a.pushing == b.pushing && a.queued == b.queued && a.wakeUps < b.wakeUps)
    || (a.pushing == b.pushing && a.queued == b.queued && a.wakeUps == b.wakeUps && a.looping < b.looping)
  }

  lemma WorkNonNegative(g: Graph, s: State)
    ensures WorkLeft(g, s).pushing >= 0 && WorkLeft(g, s).queued >= 0
    ensures WorkLeft(g, s).wakeUps >= 0 && WorkLeft(g, s).looping >= 0
  {
    TotalNonNegative(s.pushes, PushLeft(g));
    forall group: ThreadGroup ensures InQueues(group) >= 0 { TotalNonNegative(group.queues, QueueLength); }
    TotalNonNegative(s.groups, InQueues);
    TotalNonNegative(s.groups, WakeUps);
    TotalNonNegative(s.groups, LoopLeft);
  }

  lemma AdvanceSettles(g: Graph, s: State, i: nat)
    requires Inv(g, s) && Enabled(g, s, Advance(i))
    ensures Less(WorkLeft(g, Step(g, s, Advance(i))), WorkLeft(g, s))
  {
    var s' := Step(g, s, Advance(i));
    assert PushInRange(g, s, s.pushes[i]);
    assert s'.pushes == s.pushes[i := s'.pushes[i]];
    assert PushLeft(g)(s'.pushes[i]) < PushLeft(g)(s.pushes[i]);
    TotalUpdate(s.pushes, i, s'.pushes[i], PushLeft(g));
  }

  // A loop's move changes its own group only.
  lemma GroupWork(g: Graph, s: State, h: nat, group: ThreadGroup)
    requires h < |s.groups|
    ensures var was, now := WorkLeft(g, s), WorkLeft(g, SetGroup(s, h, group));
            && now.pushing == was.pushing
            && now.queued == was.queued - InQueues(s.groups[h]) + InQueues(group)
            && now.wakeUps == was.wakeUps - WakeUps(s.groups[h]) + WakeUps(group)
            && now.looping == was.looping - LoopLeft(s.groups[h]) + LoopLeft(group)
  {
    TotalUpdate(s.groups, h, group, InQueues);
    TotalUpdate(s.groups, h, group, WakeUps);
    TotalUpdate(s.groups, h, group, LoopLeft);
  }

  lemma CollectSettles(g: Graph, s: State, h: nat, batch: seq<nat>, k: nat)
    requires h < |s.groups| && s.groups[h].consumer == Collecting(batch, k)
    ensures Less(WorkLeft(g, StepConsumer(g, s, h)), WorkLeft(g, s))
  {
    var group := s.groups[h];
    var s' := StepConsumer(g, s, h);
    GroupWork(g, s, h, s'.groups[h]);
    if k < |group.queues| && |batch| < MAX_DEQUEUE_AT_ONCE {
      var room := MAX_DEQUEUE_AT_ONCE - |batch|;
      var count := if |group.queues[k]| < room then |group.queues[k]| else room;
      TotalUpdate(group.queues, k, group.queues[k][count..], QueueLength);
      assert QueueLength(group.queues[k][count..]) == QueueLength(group.queues[k]) - count;
    }
  }

  lemma HandleSettles(g: Graph, s: State, h: nat, batch: seq<nat>)
    requires h < |s.groups| && s.groups[h].consumer == Handling(batch)
    ensures Less(WorkLeft(g, StepConsumer(g, s, h)), WorkLeft(g, s))
  {
    GroupWork(g, s, h, StepConsumer(g, s, h).groups[h]);
  }

  /** Every move other than the begin of a push leaves less work, whichever threads and loops move in whatever order: a
      graph to which nothing new is pushed cannot go on for ever. */
  lemma StepSettles(g: Graph, s: State, m: Move)
    requires Inv(g, s) && Enabled(g, s, m) && !m.Begin?
    ensures Less(WorkLeft(g, Step(g, s, m)), WorkLeft(g, s))
  {
    match m
    case Advance(i) => AdvanceSettles(g, s, i);
    case Wake(h) => GroupWork(g, s, h, Step(g, s, m).groups[h]);
    case Consume(h) =>
      match s.groups[h].consumer {
        case Collecting(batch, k) => CollectSettles(g, s, h, batch, k);
        case Handling(batch) => HandleSettles(g, s, h, batch);
        case Asleep =>
      }
    case Begin(_, _) =>
  }

  // As long as something is left to do, somebody can move.
  lemma Unsettled(g: Graph, s: State) returns (m: Move)
    requires !Settled(g, s)
    ensures Enabled(g, s, m) && !m.Begin?
  {
    if i :| 0 <= i < |s.pushes| && !Done(g, s.pushes[i]) {
      m := Advance(i);
    } else {
      var h :| 0 <= h < |s.groups| && (s.groups[h].wakeUp || !s.groups[h].consumer.Asleep?);
      m := if s.groups[h].consumer.Asleep? then Wake(h) else Consume(h);
    }
  }

  // The longer run only has moves of the pushes begun and of the loops added.
  ghost predicate CarriesOn(r: Run, longer: Run) {
    && r.states <= longer.states && r.moves <= longer.moves
    && forall k :: |r.moves| <= k < |longer.moves| ==> !longer.moves[k].Begin?
  }

  lemma OneMoreMove(g: Graph, r: Run, m: Move) returns (longer: Run)
    requires IsRun(g, r) && Enabled(g, r.states[|r.moves|], m) && !m.Begin?
    ensures IsRun(g, longer) && CarriesOn(r, longer) && |longer.moves| == |r.moves| + 1
    ensures Less(WorkLeft(g, longer.states[|longer.moves|]), WorkLeft(g, r.states[|r.moves|]))
  {
    RunInv(g, r, |r.moves|);
    RunGoesOn(g, 0, r, m);
    StepSettles(g, r.states[|r.moves|], m);
    longer := Run(r.states + [Step(g, r.states[|r.moves|], m)], r.moves + [m]);
  }

  lemma {:induction false} SettlesFrom(g: Graph, r: Run, work: Work) returns (longer: Run)
    requires IsRun(g, r) && work == WorkLeft(g, r.states[|r.moves|])
    ensures IsRun(g, longer) && CarriesOn(r, longer) && Settled(g, longer.states[|longer.moves|])
    decreases work.pushing, work.queued, work.wakeUps, work.looping
  {
    var s := r.states[|r.moves|];
    if Settled(g, s) {
      longer := r;
    } else {
      var m := Unsettled(g, s);
      var next := OneMoreMove(g, r, m);
      WorkNonNegative(g, s);
      longer := SettlesFrom(g, next, WorkLeft(g, next.states[|next.moves|]));
    }
  }

  /** Every run can be carried on, without a new push, to a state in which everything has settled. */
  lemma Settles(g: Graph, r: Run) returns (longer: Run)
    requires IsRun(g, r)
    ensures IsRun(g, longer) && CarriesOn(r, longer) && Settled(g, longer.states[|longer.moves|])
  {
    longer := SettlesFrom(g, r, WorkLeft(g, r.states[|r.moves|]));
  }
}
