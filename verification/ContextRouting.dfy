/** ContextualNode: packets are routed to one instance per value of their key parameter. What one key sees must be
    what it would see if nothing but its own packets and removals existed.

    An instance is its state and a reaction to packets, the same for every instance the factory creates. A key
    parameter that is missing or not a string is None: reading it throws. The instance creator outlives the router. */
module ContextRouting {
  import opened Totals

  datatype Behaviour<!S, !P, !O> = Behaviour(initial: S, react: (S, P) -> (S, O))

  datatype Packet<+P> = Packet(key: Option<string>, content: P)

  // ofInterface, the interface of a group the instance stands for, is auxiliary.
  class Instance<S> {
    var state: S
    ghost const ofInterface: string

    constructor (state: S, ghost ofInterface: string)
      ensures this.state == state && this.ofInterface == ofInterface
    {
      this.state, this.ofInterface := state, ofInterface;
    }
  }

  // ---- the meaning of a router: the states of its instances ----

  // Some(o) for a handled packet with output o; None if reading the key throws.
  function Route<S, P, O>(b: Behaviour<S, P, O>, states: map<string, S>, packet: Packet<P>)
    : (map<string, S>, Option<O>)
  {
    match packet.key
    case None => (states, None)
    case Some(k) =>
      var (next, output) := b.react(if k in states then states[k] else b.initial, packet.content);
      (states[k := next], Some(output))
  }

  class SingleNodeRouter<S, P, O> {
    const behaviour: Behaviour<S, P, O>
    var nodes: map<string, Instance<S>>
    var reverseNodeLookup: map<Instance<S>, string>

    // The two maps are inverse to each other.
    ghost predicate Valid()
      reads this
    {
      && (forall k :: k in nodes ==> nodes[k] in reverseNodeLookup && reverseNodeLookup[nodes[k]] == k)
      && (forall n :: n in reverseNodeLookup ==> reverseNodeLookup[n] in nodes && nodes[reverseNodeLookup[n]] == n)
    }

    ghost function States(): map<string, S>
      reads this, nodes.Values
    {
      map k | k in nodes :: nodes[k].state
    }

    // The one instance a packet of the key may change, if it exists.
    ghost function Target(key: Option<string>): set<Instance<S>>
      reads `nodes
    {
      if key.Some? && key.value in nodes then {nodes[key.value]} else {}
    }

    // The state for the key: that of its instance, or the initial one.
    ghost function StateFor(key: string): S
      reads `nodes, Target(Some(key))`state
    {
      if key in nodes then nodes[key].state else behaviour.initial
    }

    constructor (behaviour: Behaviour<S, P, O>)
      ensures Valid() && nodes == map[] && this.behaviour == behaviour
    {
      this.behaviour, nodes, reverseNodeLookup := behaviour, map[], map[];
    }

    /** Stores the node under the key in both maps. They stay inverse to each other exactly if neither of the two
        was in use for something else; an instance the key had before is overwritten, and its reverse entry is left
        behind. */
    method AddNode(contextLookup: string, node: Instance<S>)
      requires Valid()
      modifies `nodes, `reverseNodeLookup
      ensures nodes == old(nodes)[contextLookup := node]
      ensures reverseNodeLookup == old(reverseNodeLookup)[node := contextLookup]
      ensures Valid() <==> old((contextLookup in nodes ==> nodes[contextLookup] == node)
                               && (node in reverseNodeLookup ==> reverseNodeLookup[node] == contextLookup))
    {
      nodes := nodes[contextLookup := node];
      reverseNodeLookup := reverseNodeLookup[node := contextLookup];
      if n :| n in old(reverseNodeLookup) && n != node && old(reverseNodeLookup)[n] == contextLookup {
        assert n in reverseNodeLookup;
      }
      if k :| k in old(nodes) && k != contextLookup && old(nodes)[k] == node {
        assert k in nodes;
      }
    }

    method CreateNewInstance(forNewContextLookup: string)
      requires Valid() && forNewContextLookup !in nodes
      modifies this
      ensures Valid() && nodes.Keys == old(nodes.Keys) + {forNewContextLookup} && fresh(nodes[forNewContextLookup])
      ensures nodes[forNewContextLookup].state == behaviour.initial
      ensures forall k :: k in old(nodes) ==> nodes[k] == old(nodes[k])
    {
      var newInstance := new Instance(behaviour.initial, "");
      AddNode(forNewContextLookup, newInstance);
    }

    method HandlePacket(packet: Packet<P>) returns (output: Option<O>)
      requires Valid()
      modifies this, Target(packet.key)
      ensures Valid() && (States(), output) == Route(behaviour, old(States()), packet)
      ensures forall k :: k in nodes ==> if k in old(nodes) then nodes[k] == old(nodes[k]) else fresh(nodes[k])
    {
      if packet.key.None? {
        return None;
      }
      var contextLookup := packet.key.value;
      if contextLookup !in nodes {
        CreateNewInstance(contextLookup);
        assert States() == old(States())[contextLookup := behaviour.initial];
      }
      ghost var before := States();
      ghost var next := behaviour.react(before[contextLookup], packet.content).0;
      assert before[contextLookup := next] == old(States())[contextLookup := next];
      var result := Deliver(contextLookup, packet.content);
      return Some(result);
    }

    // node->handlePacket for the instance of the key.
    method Deliver(contextLookup: string, content: P) returns (output: O)
      requires Valid() && contextLookup in nodes
      modifies Target(Some(contextLookup))`state
      ensures
        var (next, result) := behaviour.react(old(nodes[contextLookup].state), content);
        && States() == old(States())[contextLookup := next] && output == result && nodes[contextLookup].state == next
      ensures forall k :: k in nodes && k != contextLookup ==> nodes[k].state == old(nodes[k].state)
    {
      var node := nodes[contextLookup];
      assert forall k :: k in nodes && k != contextLookup ==> nodes[k] != node;
      var (next, result) := behaviour.react(node.state, content);
      node.state := next;
      output := result;
    }

    method RemoveNode(contextLookup: string) returns (removed: bool)
      requires Valid()
      modifies this
      ensures Valid() && nodes == old(nodes) - {contextLookup} && (removed <==> contextLookup in old(nodes))
    {
      if contextLookup !in nodes {
        return false;
      }
      var node := nodes[contextLookup];
      nodes := nodes - {contextLookup};
      reverseNodeLookup := reverseNodeLookup - {node};
      return true;
    }
  }

  // ContextRemover: what it pushes, if anything.
  datatype Removal = RemovedKey(key: string) | Nothing | Thrown

  method HandleRemoval<S, P, O>(contextRouter: SingleNodeRouter<S, P, O>, key: Option<string>) returns (pushed: Removal)
    requires contextRouter.Valid()
    modifies contextRouter
    ensures contextRouter.Valid()
    ensures contextRouter.nodes
         == if key.Some? then old(contextRouter.nodes) - {key.value} else old(contextRouter.nodes)
    ensures pushed == if key.None? then Thrown
                      else if key.value in old(contextRouter.nodes) then RemovedKey(key.value)
                      else Nothing
  {
    if key.None? {
      return Thrown;
    }
    var removed := contextRouter.RemoveNode(key.value);
    return if removed then RemovedKey(key.value) else Nothing;
  }

  // ---- demultiplexing ----

  datatype Event<+P> = Routed(packet: Packet<P>) | Removed(key: Option<string>)

  datatype Response<+O> = Handled(output: O) | Pushed(key: string) | Silent | Exception

  function KeyOf<P>(e: Event<P>): Option<string> {
    match e
    case Routed(packet) => packet.key
    case Removed(key) => key
  }

  function Step<S, P, O>(b: Behaviour<S, P, O>, states: map<string, S>, e: Event<P>): (map<string, S>, Response<O>) {
    match e
    case Routed(packet) =>
      var (next, output) := Route(b, states, packet);
      (next, if output.Some? then Handled(output.value) else Exception)
    case Removed(key) =>
      if key.None? then (states, Exception)
      else (states - {key.value}, if key.value in states then Pushed(key.value) else Silent)
  }

  function Run<S, P, O>(b: Behaviour<S, P, O>, events: seq<Event<P>>): (map<string, S>, seq<Response<O>>) {
    if events == [] then (map[], [])
    else
      var (states, responses) := Run(b, events[..|events| - 1]);
      var (next, response) := Step(b, states, events[|events| - 1]);
      (next, responses + [response])
  }

  // One instance on its own: made when first needed, thrown away by a removal.
  function StepOne<S, P, O>(b: Behaviour<S, P, O>, state: Option<S>, k: string, e: Event<P>): (Option<S>, Response<O>) {
    match e
    case Routed(packet) =>
      var (next, output) := b.react(if state.Some? then state.value else b.initial, packet.content);
      (Some(next), Handled(output))
    case Removed(_) => (None, if state.Some? then Pushed(k) else Silent)
  }

  function RunOne<S, P, O>(b: Behaviour<S, P, O>, k: string, events: seq<Event<P>>): (Option<S>, seq<Response<O>>) {
    if events == [] then (None, [])
    else
      var (state, responses) := RunOne(b, k, events[..|events| - 1]);
      var (next, response) := StepOne(b, state, k, events[|events| - 1]);
      (next, responses + [response])
  }

  // The events of key k, and what was answered to them.
  function EventsOf<P>(events: seq<Event<P>>, k: string): seq<Event<P>> {
    if events == [] then []
    else
      var last := events[|events| - 1];
      EventsOf(events[..|events| - 1], k) + if KeyOf(last) == Some(k) then [last] else []
  }

  function ResponsesTo<P, O>(events: seq<Event<P>>, responses: seq<Response<O>>, k: string): seq<Response<O>>
    requires |responses| == |events|
  {
    if events == [] then []
    else
      ResponsesTo(events[..|events| - 1], responses[..|events| - 1], k)
      + if KeyOf(events[|events| - 1]) == Some(k) then [responses[|events| - 1]] else []
  }

  function StateOf<S>(states: map<string, S>, k: string): Option<S> {
    if k in states then Some(states[k]) else None
  }

  lemma {:induction false} OneResponseEach<S, P, O>(b: Behaviour<S, P, O>, events: seq<Event<P>>)
    ensures |Run(b, events).1| == |events|
  {
    if events != [] {
      OneResponseEach(b, events[..|events| - 1]);
    }
  }

  // An event of another key, or of none, leaves k's instance alone; one of k acts on it as on an instance of its own.
  lemma StepOfKey<S, P, O>(b: Behaviour<S, P, O>, states: map<string, S>, e: Event<P>, k: string)
    ensures var (next, response) := Step(b, states, e);
      if KeyOf(e) == Some(k) then (StateOf(next, k), response) == StepOne(b, StateOf(states, k), k, e)
      else StateOf(next, k) == StateOf(states, k) && (KeyOf(e) == None <==> response == Exception)
  {
  }

  /** For every interleaving of packets and removals, what is answered for key k, and the state its instance is left in,
      are those of running k's own events alone on one instance, restarted at each removal. */
  lemma {:induction false} Demultiplexes<S, P, O>(b: Behaviour<S, P, O>, events: seq<Event<P>>, k: string)
    ensures
      var (states, responses) := Run(b, events);
      && |responses| == |events|
      && (StateOf(states, k), ResponsesTo(events, responses, k)) == RunOne(b, k, EventsOf(events, k))
  {
    OneResponseEach(b, events);
    if events != [] {
      var before, e := events[..|events| - 1], events[|events| - 1];
      Demultiplexes(b, before, k);
      var (states, responses) := Run(b, before);
      StepOfKey(b, states, e, k);
      var response := Step(b, states, e).1;
      assert (responses + [response])[..|before|] == responses;
      assert Run(b, events).1 == responses + [response];
      if KeyOf(e) == Some(k) {
        assert ResponsesTo(events, responses + [response], k) == ResponsesTo(before, responses, k) + [response];
        RunOneAppend(b, k, EventsOf(before, k), e);
      } else {
        assert EventsOf(events, k) == EventsOf(before, k);
        assert ResponsesTo(events, responses + [response], k) == ResponsesTo(before, responses, k);
      }
    }
  }

  lemma RunOneAppend<S, P, O>(b: Behaviour<S, P, O>, k: string, events: seq<Event<P>>, e: Event<P>)
    ensures
      var (state, responses) := RunOne(b, k, events);
      var (next, response) := StepOne(b, state, k, e);
      RunOne(b, k, events + [e]) == (next, responses + [response])
  {
    assert (events + [e])[..|events|] == events;
  }

  // A router over a whole history, from its construction on.
  method Serve<S, P, O>(b: Behaviour<S, P, O>, events: seq<Event<P>>) returns (responses: seq<Response<O>>)
    ensures responses == Run(b, events).1
  {
    var router := new SingleNodeRouter(b);
    responses := [];
    for i := 0 to |events|
      invariant fresh(router) && router.Valid() && router.behaviour == b
      invariant forall k :: k in router.nodes ==> fresh(router.nodes[k])
      invariant (router.States(), responses) == Run(b, events[..i])
    {
      assert events[..i + 1][..i] == events[..i];
      var response := Dispatch(router, events[i]);
      responses := responses + [response];
    }
    assert events[..|events|] == events;
  }

  method Dispatch<S, P, O>(router: SingleNodeRouter<S, P, O>, e: Event<P>) returns (response: Response<O>)
    requires router.Valid()
    modifies router, router.nodes.Values
    ensures router.Valid() && (router.States(), response) == Step(router.behaviour, old(router.States()), e)
    ensures forall k :: k in router.nodes ==>
              || fresh(router.nodes[k])
              || (k in old(router.nodes) && router.nodes[k] == old(router.nodes[k]))
  {
    match e
    case Routed(packet) =>
      var output := router.HandlePacket(packet);
      response := if output.Some? then Handled(output.value) else Exception;
    case Removed(key) =>
      var pushed := HandleRemoval(router, key);
      assert router.States() == if key.None? then old(router.States()) else old(router.States()) - {key.value};
      response := match pushed case RemovedKey(k) => Pushed(k) case Nothing => Silent case Thrown => Exception;
  }

  // ---- groups ----

  // The states after an instance for the key has been made, if there was none.
  function Touched<S>(states: map<string, S>, key: Option<string>, initial: S): map<string, S> {
    if key.Some? && key.value !in states then states[key.value := initial] else states
  }

  /** CohesiveGroupRouter: one router per interface of the group. An instance created for any of them is a whole
      group and is added to all of them. Removal from a group is not part of this model. */
  class CohesiveGroupRouter<S, P, O> {
    const groupNodeNames: seq<string>
    const nodeRouters: map<string, SingleNodeRouter<S, P, O>>
    ghost var keys: set<string>

    ghost predicate Shape() {
      && (forall i, j :: 0 <= i < j < |groupNodeNames| ==> groupNodeNames[i] != groupNodeNames[j])
      && (forall i :: 0 <= i < |groupNodeNames| ==> groupNodeNames[i] in nodeRouters)
      && (forall n :: n in nodeRouters ==> n in groupNodeNames)
      && (forall m, n :: m in nodeRouters && n in nodeRouters && m != n ==> nodeRouters[m] != nodeRouters[n])
    }

    lemma RoutersApart()
      requires Shape()
      ensures forall i, j :: 0 <= i < |groupNodeNames| && 0 <= j < |groupNodeNames| && i != j ==>
                nodeRouters[groupNodeNames[i]] != nodeRouters[groupNodeNames[j]]
    {
    }

    // The router of one interface, with instances of that interface only.
    static ghost predicate RouterOk(router: SingleNodeRouter<S, P, O>, nodeName: string, keys: set<string>)
      reads router
    {
      && router.Valid() && router.nodes.Keys == keys
      && forall k :: k in router.nodes ==> router.nodes[k].ofInterface == nodeName
    }

    // All sub-routers hold the same keys.
    ghost predicate Valid()
      reads this, nodeRouters.Values
    {
      Shape() && forall n :: n in nodeRouters ==> RouterOk(nodeRouters[n], n, keys)
    }

    constructor (templates: map<string, Behaviour<S, P, O>>, names: seq<string>)
      requires forall i, j :: 0 <= i < j < |names| ==> names[i] != names[j]
      requires forall n :: n in names <==> n in templates
      ensures Valid() && keys == {} && groupNodeNames == names
      ensures forall n :: n in nodeRouters ==>
                && n in templates && fresh(nodeRouters[n]) && nodeRouters[n].behaviour == templates[n]
                && nodeRouters[n].nodes == map[]
    {
      var routerNodes: map<string, SingleNodeRouter<S, P, O>> := map[];
      for i := 0 to |names|
        invariant forall n :: n in routerNodes <==> n in names[..i]
        invariant forall n :: n in routerNodes ==>
                    && fresh(routerNodes[n]) && RouterOk(routerNodes[n], n, {})
                    && routerNodes[n].behaviour == templates[n]
        invariant forall m, n :: m in routerNodes && n in routerNodes && m != n ==> routerNodes[m] != routerNodes[n]
      {
        var routerNode := new SingleNodeRouter(templates[names[i]]);
        routerNodes := routerNodes[names[i] := routerNode];
      }
      groupNodeNames, nodeRouters, keys := names, routerNodes, {};
    }

    // Instances stay, and new ones are new objects.
    static twostate predicate Kept(router: SingleNodeRouter<S, P, O>)
      reads router`nodes
    {
      && (forall k :: k in old(router.nodes) ==> k in router.nodes && router.nodes[k] == old(router.nodes[k]))
      && forall k :: k in router.nodes && k !in old(router.nodes) ==> fresh(router.nodes[k])
    }

    // createNewInstance: a whole group is made and added, which changes no state.
    method CreateNewInstance(contextLookup: string)
      requires Valid() && contextLookup !in keys
      modifies `keys, nodeRouters.Values`nodes, nodeRouters.Values`reverseNodeLookup
      ensures Valid() && keys == old(keys) + {contextLookup}
      ensures forall n :: n in nodeRouters ==> Kept(nodeRouters[n])
      ensures forall n, k :: n in nodeRouters ==> nodeRouters[n].StateFor(k) == old(nodeRouters[n].StateFor(k))
    {
      var newInstance := NewGroup();
      AddNode(contextLookup, newInstance);
      forall n | n in nodeRouters
        ensures contextLookup !in old(nodeRouters[n].nodes)
      {
        assert old(RouterOk(nodeRouters[n], n, keys));
      }
      NothingLost(contextLookup, newInstance);
    }

    // Adding instances in their initial state for a key without any changes no state.
    twostate lemma NothingLost(contextLookup: string, new group: map<string, Instance<S>>)
      requires forall n :: n in nodeRouters ==> n in group && fresh(group[n])
      requires forall n :: n in nodeRouters ==> group[n].state == nodeRouters[n].behaviour.initial
      requires forall n :: n in nodeRouters ==> contextLookup !in old(nodeRouters[n].nodes)
      requires forall n :: n in nodeRouters ==> Added(nodeRouters[n], contextLookup, group[n])
      requires forall n :: n in nodeRouters ==> InstancesStay(old(nodeRouters[n].nodes.Values))
      ensures forall n :: n in nodeRouters ==> Kept(nodeRouters[n])
      ensures forall n, k :: n in nodeRouters ==> nodeRouters[n].StateFor(k) == old(nodeRouters[n].StateFor(k))
    {
      forall n | n in nodeRouters
        ensures Kept(nodeRouters[n])
      {
        assert Added(nodeRouters[n], contextLookup, group[n]);
      }
      forall n, k | n in nodeRouters
        ensures nodeRouters[n].StateFor(k) == old(nodeRouters[n].StateFor(k))
      {
        var router := nodeRouters[n];
        assert Added(router, contextLookup, group[n]) && InstancesStay(old(router.nodes.Values));
        if k in old(router.nodes) {
          assert old(router.nodes[k]) in old(router.nodes.Values);
        }
      }
    }

    static twostate predicate InstancesStay(instances: set<Instance<S>>)
      reads instances
    {
      forall o :: o in instances ==> o.state == old(o.state)
    }

    // createImplementation: one new instance per interface.
    method NewGroup() returns (group: map<string, Instance<S>>)
      requires Shape()
      ensures forall n :: n in nodeRouters ==>
                && n in group && fresh(group[n]) && group[n].ofInterface == n
                && group[n].state == nodeRouters[n].behaviour.initial
    {
      group := map[];
      for i := 0 to |groupNodeNames|
        invariant forall j :: 0 <= j < i ==>
                    && groupNodeNames[j] in group && fresh(group[groupNodeNames[j]])
                    && group[groupNodeNames[j]].ofInterface == groupNodeNames[j]
                    && group[groupNodeNames[j]].state == nodeRouters[groupNodeNames[j]].behaviour.initial
      {
        var name := groupNodeNames[i];
        var subnode := new Instance(nodeRouters[name].behaviour.initial, name);
        group := group[name := subnode];
      }
    }

    // addNode: every sub-router gets its interface of the group.
    method AddNode(contextLookup: string, group: map<string, Instance<S>>)
      requires Valid() && contextLookup !in keys
      requires forall n :: n in nodeRouters ==>
                 && n in group && group[n].ofInterface == n && group[n] !in nodeRouters[n].reverseNodeLookup
      modifies `keys, nodeRouters.Values`nodes, nodeRouters.Values`reverseNodeLookup
      ensures Valid() && keys == old(keys) + {contextLookup}
      ensures forall n :: n in nodeRouters ==> Added(nodeRouters[n], contextLookup, group[n])
    {
      RoutersApart();
      for i := 0 to |groupNodeNames|
        invariant keys == old(keys)
        invariant forall j :: 0 <= j < i ==>
                    RouterOk(nodeRouters[groupNodeNames[j]], groupNodeNames[j], keys + {contextLookup})
        invariant forall j :: 0 <= j < i ==>
                    Added(nodeRouters[groupNodeNames[j]], contextLookup, group[groupNodeNames[j]])
        invariant forall j :: i <= j < |groupNodeNames| ==> unchanged(nodeRouters[groupNodeNames[j]])
      {
        var name := groupNodeNames[i];
        assert RouterOk(nodeRouters[name], name, keys);
        AddSubnode(nodeRouters[name], name, contextLookup, group[name], keys);
      }
      keys := keys + {contextLookup};
    }

    static twostate predicate Added(router: SingleNodeRouter<S, P, O>, contextLookup: string, new node: Instance<S>)
      reads router`nodes
    {
      router.nodes == old(router.nodes)[contextLookup := node]
    }

    // addNode of one sub-router.
    static method AddSubnode(routerNode: SingleNodeRouter<S, P, O>, name: string, contextLookup: string,
                             subnode: Instance<S>, ghost keys: set<string>)
      requires RouterOk(routerNode, name, keys) && contextLookup !in keys
      requires subnode.ofInterface == name && subnode !in routerNode.reverseNodeLookup
      modifies routerNode`nodes, routerNode`reverseNodeLookup
      ensures RouterOk(routerNode, name, keys + {contextLookup})
      ensures Added(routerNode, contextLookup, subnode)
    {
      routerNode.AddNode(contextLookup, subnode);
    }

    // Whoever needs an instance first, all interfaces get one, and no state changes by that.
    method EnsureInstance(nodeName: string, contextLookup: string) returns (node: Instance<S>)
      requires Valid() && nodeName in nodeRouters
      modifies `keys, nodeRouters.Values`nodes, nodeRouters.Values`reverseNodeLookup
      ensures Valid() && keys == old(keys) + {contextLookup}
      ensures forall n :: n in nodeRouters ==> Kept(nodeRouters[n])
      ensures forall n, k :: n in nodeRouters ==> nodeRouters[n].StateFor(k) == old(nodeRouters[n].StateFor(k))
      ensures contextLookup in nodeRouters[nodeName].nodes && node == nodeRouters[nodeName].nodes[contextLookup]
      ensures fresh(node) || node in old(nodeRouters[nodeName].Target(Some(contextLookup)))
    {
      var router := nodeRouters[nodeName];
      assert RouterOk(router, nodeName, keys);
      if contextLookup !in router.nodes {
        CreateNewInstance(contextLookup);
        assert RouterOk(router, nodeName, keys) && Kept(router);
      }
      node := router.nodes[contextLookup];
    }

    // handlePacket of the interface's instance for the key leaves the others alone.
    method DeliverTo(nodeName: string, contextLookup: string, node: Instance<S>, content: P) returns (output: O)
      requires Valid() && nodeName in nodeRouters && contextLookup in nodeRouters[nodeName].nodes
      requires node == nodeRouters[nodeName].nodes[contextLookup]
      modifies node`state
      ensures Valid()
      ensures (nodeRouters[nodeName].StateFor(contextLookup), output)
           == nodeRouters[nodeName].behaviour.react(old(nodeRouters[nodeName].StateFor(contextLookup)), content)
      ensures forall n, k :: n in nodeRouters && (n != nodeName || k != contextLookup) ==>
                nodeRouters[n].StateFor(k) == old(nodeRouters[n].StateFor(k))
    {
      var router := nodeRouters[nodeName];
      assert RouterOk(router, nodeName, keys);
      output := router.Deliver(contextLookup, content);
      forall n, k | n in nodeRouters && (n != nodeName || k != contextLookup)
        ensures nodeRouters[n].StateFor(k) == old(nodeRouters[n].StateFor(k))
      {
        assert RouterOk(nodeRouters[n], n, keys);
      }
    }

    /** The packet goes to the interface's instance for its key, made together with the other interfaces' if need be. No
        other state of any interface changes, and instances once made stay. */
    method HandlePacket(nodeName: string, packet: Packet<P>) returns (output: Option<O>)
      requires Valid() && nodeName in nodeRouters
      modifies this, nodeRouters.Values, nodeRouters[nodeName].Target(packet.key)
      ensures Valid() && keys == old(keys) + if packet.key.Some? then {packet.key.value} else {}
      ensures forall n :: n in nodeRouters ==> Kept(nodeRouters[n])
      ensures output == if packet.key.None? then None
                        else Some(nodeRouters[nodeName].behaviour.react(
                                    old(nodeRouters[nodeName].StateFor(packet.key.value)), packet.content).1)
      ensures forall n, k :: n in nodeRouters ==>
                nodeRouters[n].StateFor(k)
                == if n == nodeName && packet.key.Some? && k == packet.key.value
                   then nodeRouters[n].behaviour.react(old(nodeRouters[n].StateFor(k)), packet.content).0
                   else old(nodeRouters[n].StateFor(k))
    {
      if packet.key.None? {
        return None;
      }
      var result := HandleKeyed(nodeName, packet.key.value, packet.content);
      return Some(result);
    }

    method HandleKeyed(nodeName: string, contextLookup: string, content: P) returns (output: O)
      requires Valid() && nodeName in nodeRouters
      modifies `keys, nodeRouters.Values`nodes, nodeRouters.Values`reverseNodeLookup
      modifies nodeRouters[nodeName].Target(Some(contextLookup))`state
      ensures Valid() && keys == old(keys) + {contextLookup}
      ensures forall n :: n in nodeRouters ==> Kept(nodeRouters[n])
      ensures (nodeRouters[nodeName].StateFor(contextLookup), output)
           == nodeRouters[nodeName].behaviour.react(old(nodeRouters[nodeName].StateFor(contextLookup)), content)
      ensures forall n, k :: n in nodeRouters && (n != nodeName || k != contextLookup) ==>
                nodeRouters[n].StateFor(k) == old(nodeRouters[n].StateFor(k))
    {
      var node := EnsureInstance(nodeName, contextLookup);
      assert nodeRouters[nodeName].StateFor(contextLookup) == old(nodeRouters[nodeName].StateFor(contextLookup));
      output := DeliverTo(nodeName, contextLookup, node, content);
    }
  }

  // ---- demultiplexing a group ----

  datatype GroupPacket<+P> = GroupPacket(nodeName: string, packet: Packet<P>)

  // What interface n of a group does for key k: its state after the packets.
  function MemberState<S, P, O>(b: Behaviour<S, P, O>, n: string, k: string, packets: seq<GroupPacket<P>>): S {
    if packets == [] then b.initial
    else
      var before, last := MemberState(b, n, k, packets[..|packets| - 1]), packets[|packets| - 1];
      if last.nodeName == n && last.packet.key == Some(k) then b.react(before, last.packet.content).0 else before
  }

  ghost predicate ForGroup<S, P, O>(b: map<string, Behaviour<S, P, O>>, packets: seq<GroupPacket<P>>) {
    forall i :: 0 <= i < |packets| ==> packets[i].nodeName in b
  }

  // The answer to the last packet of a history.
  function LastAnswer<S, P, O>(b: map<string, Behaviour<S, P, O>>, packets: seq<GroupPacket<P>>): Option<O>
    requires packets != [] && packets[|packets| - 1].nodeName in b
  {
    var before, last := packets[..|packets| - 1], packets[|packets| - 1];
    match last.packet.key
    case None => None
    case Some(k) =>
      Some(b[last.nodeName].react(MemberState(b[last.nodeName], last.nodeName, k, before), last.packet.content).1)
  }

  // What a router of interface n on its own would get.
  function EventsFor<P>(packets: seq<GroupPacket<P>>, n: string): seq<Event<P>> {
    if packets == [] then []
    else
      var last := packets[|packets| - 1];
      EventsFor(packets[..|packets| - 1], n) + if last.nodeName == n then [Routed(last.packet)] else []
  }

  // What the group answers for interface n, packet by packet.
  function AnswersFor<S, P, O>(b: map<string, Behaviour<S, P, O>>, packets: seq<GroupPacket<P>>, n: string)
    : seq<Response<O>>
    requires ForGroup(b, packets)
  {
    if packets == [] then []
    else
      var answer := LastAnswer(b, packets);
      AnswersFor(b, packets[..|packets| - 1], n)
      + if packets[|packets| - 1].nodeName != n then []
        else [if answer.Some? then Handled(answer.value) else Exception]
  }

  /** Every interface of a group answers, and keeps the states, as a router of its own would that got its packets alone:
      being created together with others has no effect on it. With Demultiplexes, each key of each interface is on its
      own. */
  lemma {:induction false} GroupDemultiplexes<S, P, O>(b: map<string, Behaviour<S, P, O>>, packets: seq<GroupPacket<P>>,
                                                       n: string)
    requires ForGroup(b, packets) && n in b
    ensures var (states, responses) := Run(b[n], EventsFor(packets, n));
      && AnswersFor(b, packets, n) == responses
      && forall k :: MemberState(b[n], n, k, packets) == if k in states then states[k] else b[n].initial
  {
    if packets != [] {
      var before, last := packets[..|packets| - 1], packets[|packets| - 1];
      GroupDemultiplexes(b, before, n);
      if last.nodeName == n {
        RunAppend(b[n], EventsFor(before, n), Routed(last.packet));
      } else {
        assert EventsFor(packets, n) == EventsFor(before, n);
        assert AnswersFor(b, packets, n) == AnswersFor(b, before, n);
      }
    }
  }

  lemma RunAppend<S, P, O>(b: Behaviour<S, P, O>, events: seq<Event<P>>, e: Event<P>)
    ensures var (states, responses) := Run(b, events);
            var (next, response) := Step(b, states, e);
            Run(b, events + [e]) == (next, responses + [response])
  {
    assert (events + [e])[..|events|] == events;
  }

  // One packet more.
  lemma MemberStateNext<S, P, O>(b: Behaviour<S, P, O>, n: string, k: string, before: seq<GroupPacket<P>>,
                                 p: GroupPacket<P>)
    ensures MemberState(b, n, k, before + [p])
         == var was := MemberState(b, n, k, before);
            if n == p.nodeName && p.packet.key.Some? && k == p.packet.key.value
            then b.react(was, p.packet.content).0
            else was
  {
    assert (before + [p])[..|before|] == before;
  }

  // Packet i of a history.
  method ServeOne<S, P, O>(group: CohesiveGroupRouter<S, P, O>, b: map<string, Behaviour<S, P, O>>,
                           packets: seq<GroupPacket<P>>, i: nat) returns (answer: Option<O>)
    requires i < |packets| && group.Valid() && packets[i].nodeName in group.nodeRouters
    requires forall n :: n in group.nodeRouters ==> n in b && group.nodeRouters[n].behaviour == b[n]
    requires forall n, k :: n in group.nodeRouters ==>
               group.nodeRouters[n].StateFor(k) == MemberState(b[n], n, k, packets[..i])
    modifies group, group.nodeRouters.Values, group.nodeRouters[packets[i].nodeName].Target(packets[i].packet.key)
    ensures group.Valid()
    ensures forall n, k :: n in group.nodeRouters ==>
              group.nodeRouters[n].StateFor(k) == MemberState(b[n], n, k, packets[..i + 1])
    ensures answer == LastAnswer(b, packets[..i + 1])
    ensures forall n :: n in group.nodeRouters ==> CohesiveGroupRouter.Kept(group.nodeRouters[n])
  {
    ghost var before := packets[..i];
    assert packets[..i + 1] == before + [packets[i]] && packets[..i + 1][..i] == before;
    answer := group.HandlePacket(packets[i].nodeName, packets[i].packet);
    forall n, k | n in group.nodeRouters
      ensures group.nodeRouters[n].StateFor(k) == MemberState(b[n], n, k, packets[..i + 1])
    {
      MemberStateNext(b[n], n, k, before, packets[i]);
    }
  }

  // The answers to the first packets are those the histories up to each of them give.
  ghost predicate Answered<S, P, O>(b: map<string, Behaviour<S, P, O>>, packets: seq<GroupPacket<P>>,
                                    answers: seq<Option<O>>)
    requires ForGroup(b, packets)
  {
    && |answers| <= |packets|
    && forall j :: 0 <= j < |answers| ==> answers[j] == LastAnswer(b, packets[..j + 1])
  }

  lemma AnsweredNext<S, P, O>(b: map<string, Behaviour<S, P, O>>, packets: seq<GroupPacket<P>>,
                              answers: seq<Option<O>>, answer: Option<O>)
    requires ForGroup(b, packets) && Answered(b, packets, answers) && |answers| < |packets|
    requires answer == LastAnswer(b, packets[..|answers| + 1])
    ensures Answered(b, packets, answers + [answer])
  {
    forall j | 0 <= j < |answers| + 1
      ensures (answers + [answer])[j] == LastAnswer(b, packets[..j + 1])
    {
      assert j < |answers| ==> (answers + [answer])[j] == answers[j];
    }
  }

  // A group over a whole history, from its construction on.
  method ServeGroup<S, P, O>(b: map<string, Behaviour<S, P, O>>, names: seq<string>, packets: seq<GroupPacket<P>>)
    returns (answers: seq<Option<O>>)
    requires forall i, j :: 0 <= i < j < |names| ==> names[i] != names[j]
    requires forall n :: n in names <==> n in b
    requires ForGroup(b, packets)
    ensures |answers| == |packets|
    ensures forall i :: 0 <= i < |packets| ==> answers[i] == LastAnswer(b, packets[..i + 1])
  {
    var group := new CohesiveGroupRouter(b, names);
    answers := [];
    for i := 0 to |packets|
      invariant fresh(group) && group.Valid()
      invariant forall n :: n in group.nodeRouters <==> n in b
      invariant forall n :: n in group.nodeRouters ==>
                  fresh(group.nodeRouters[n]) && group.nodeRouters[n].behaviour == b[n]
      invariant forall n, k :: n in group.nodeRouters ==>
                  group.nodeRouters[n].StateFor(k) == MemberState(b[n], n, k, packets[..i])
      invariant forall n, k :: n in group.nodeRouters && k in group.nodeRouters[n].nodes ==>
                  fresh(group.nodeRouters[n].nodes[k])
      invariant |answers| == i && Answered(b, packets, answers)
    {
      label before:
      var answer := ServeOne(group, b, packets, i);
      AnsweredNext(b, packets, answers, answer);
      answers := answers + [answer];
      forall n, k | n in group.nodeRouters && k in group.nodeRouters[n].nodes
        ensures fresh(group.nodeRouters[n].nodes[k])
      {
        assert CohesiveGroupRouter.Kept@before(group.nodeRouters[n]);
      }
    }
  }
}
