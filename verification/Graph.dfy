/** Graph: named nodes, edges by channel, and back edges, as connect builds them. Delivery relies on a channel never
    holding two edges to the same node. No node is ever removed, so every weak back edge still points to its node.
    edges, the set of all connections made, is auxiliary. */
module Graphs {
  import opened Totals

  datatype GraphEdge = GraphEdge(next: GraphNode, channel: string)

  class GraphNode {
    const name: string
    var forwardEdges: map<string, seq<GraphEdge>>
    var backEdges: seq<GraphNode>

    constructor (name: string)
      ensures this.name == name && forwardEdges == map[] && backEdges == []
    {
      this.name, forwardEdges, backEdges := name, map[], [];
    }

    function EdgesOn(channel: string): seq<GraphEdge>
      reads this`forwardEdges
    {
      if channel in forwardEdges then forwardEdges[channel] else []
    }
  }

  type Connection = (GraphNode, string, GraphNode)

  // The list leads to the node.
  ghost predicate Leads(list: seq<GraphEdge>, to: GraphNode) {
    exists k :: 0 <= k < |list| && list[k].next == to
  }

  // The list of a channel: one edge for each of the connections, no two to the same node.
  ghost predicate ListOk(from: GraphNode, channel: string, list: seq<GraphEdge>, edges: set<Connection>) {
    && (forall k :: 0 <= k < |list| ==> list[k].channel == channel && (from, channel, list[k].next) in edges)
    && (forall j, k :: 0 <= j < k < |list| ==> list[j].next != list[k].next)
  }

  ghost predicate Connected(from: GraphNode, to: GraphNode, edges: set<Connection>) {
    exists channel :: (from, channel, to) in edges
  }

  // The sources of the connections to the node, each once.
  ghost predicate BackEdgesOk(to: GraphNode, backEdges: seq<GraphNode>, edges: set<Connection>) {
    && (forall k :: 0 <= k < |backEdges| ==> Connected(backEdges[k], to, edges))
    && (forall j, k :: 0 <= j < k < |backEdges| ==> backEdges[j] != backEdges[k])
  }

  lemma ListKept(from: GraphNode, channel: string, list: seq<GraphEdge>, edges: set<Connection>, more: set<Connection>)
    requires ListOk(from, channel, list, edges) && edges <= more
    ensures ListOk(from, channel, list, more)
  {
  }

  lemma ListGrows(from: GraphNode, channel: string, list: seq<GraphEdge>, edges: set<Connection>, to: GraphNode)
    requires ListOk(from, channel, list, edges) && !Leads(list, to)
    ensures ListOk(from, channel, list + [GraphEdge(to, channel)], edges + {(from, channel, to)})
  {
  }

  lemma LeadsMore(list: seq<GraphEdge>, edge: GraphEdge, to: GraphNode)
    requires to == edge.next || Leads(list, to)
    ensures Leads(list + [edge], to)
  {
    if to == edge.next {
      assert (list + [edge])[|list|].next == to;
    } else {
      var k :| 0 <= k < |list| && list[k].next == to;
      assert (list + [edge])[k].next == to;
    }
  }

  lemma BackEdgesKept(to: GraphNode, backEdges: seq<GraphNode>, edges: set<Connection>, more: set<Connection>)
    requires BackEdgesOk(to, backEdges, edges) && edges <= more
    ensures BackEdgesOk(to, backEdges, more)
  {
    forall k | 0 <= k < |backEdges|
      ensures Connected(backEdges[k], to, more)
    {
      var channel :| (backEdges[k], channel, to) in edges;
      assert (backEdges[k], channel, to) in more;
    }
  }

  // What toNode's list becomes, with from in it once.
  function WithBackEdge(backEdges: seq<GraphNode>, from: GraphNode): seq<GraphNode> {
    if from in backEdges then backEdges else backEdges + [from]
  }

  lemma WithBackEdgeHas(backEdges: seq<GraphNode>, from: GraphNode, node: GraphNode)
    ensures node in WithBackEdge(backEdges, from) <==> node in backEdges || node == from
  {
  }

  lemma BackEdgesGrow(to: GraphNode, backEdges: seq<GraphNode>, edges: set<Connection>, from: GraphNode,
                      channel: string)
    requires BackEdgesOk(to, backEdges, edges)
    ensures BackEdgesOk(to, WithBackEdge(backEdges, from), edges + {(from, channel, to)})
  {
    var more, grown := edges + {(from, channel, to)}, WithBackEdge(backEdges, from);
    BackEdgesKept(to, backEdges, edges, more);
    assert (from, channel, to) in more;
    forall k | 0 <= k < |grown|
      ensures Connected(grown[k], to, more)
    {
      assert grown[k] == if k == |backEdges| then from else backEdges[k];
    }
  }

  class Graph {
    var nameToNodeMap: map<string, GraphNode>
    ghost var edges: set<Connection>

    /** Forward edges and back edges both say what edges says, each connection once. */
    ghost predicate Valid()
      reads this, nameToNodeMap.Values
    {
      && (forall n :: n in nameToNodeMap ==> nameToNodeMap[n].name == n)
      && (forall e :: e in edges ==> e.0 in nameToNodeMap.Values && e.2 in nameToNodeMap.Values)
      && (forall e :: e in edges ==> Leads(e.0.EdgesOn(e.1), e.2) && e.0 in e.2.backEdges)
      && (forall n, channel :: n in nameToNodeMap ==>
            ListOk(nameToNodeMap[n], channel, nameToNodeMap[n].EdgesOn(channel), edges))
      && (forall n :: n in nameToNodeMap ==> BackEdgesOk(nameToNodeMap[n], nameToNodeMap[n].backEdges, edges))
    }

    constructor ()
      ensures Valid() && nameToNodeMap == map[] && edges == {}
    {
      nameToNodeMap, edges := map[], {};
    }

    /** None stands for the exception that a node of the name exists. */
    method CreateGraphNode(nodeName: string) returns (node: Option<GraphNode>)
      requires Valid()
      modifies this
      ensures Valid() && edges == old(edges) && (node.None? <==> nodeName in old(nameToNodeMap))
      ensures nameToNodeMap == if node.Some? then old(nameToNodeMap)[nodeName := node.value] else old(nameToNodeMap)
      ensures node.Some? ==> fresh(node.value) && node.value.name == nodeName
    {
      if nodeName in nameToNodeMap {
        return None;
      }
      var newNode := new GraphNode(nodeName);
      nameToNodeMap := nameToNodeMap[nodeName := newNode];
      assert forall n :: n in old(nameToNodeMap) ==> n in nameToNodeMap && nameToNodeMap[n] == old(nameToNodeMap)[n];
      return Some(newNode);
    }

    /** Both nodes exist. Connecting twice changes nothing; otherwise the edge goes to the end of the channel's list. */
    method Connect(fromNodeName: string, fromChannel: string, toNodeName: string) returns (edge: GraphEdge)
      requires Valid() && fromNodeName in nameToNodeMap && toNodeName in nameToNodeMap
      modifies this, nameToNodeMap.Values
      ensures Valid() && nameToNodeMap == old(nameToNodeMap)
              && edge == GraphEdge(nameToNodeMap[toNodeName], fromChannel)
      ensures edges == old(edges) + {(nameToNodeMap[fromNodeName], fromChannel, nameToNodeMap[toNodeName])}
      ensures forall n, channel :: n in nameToNodeMap ==>
                nameToNodeMap[n].EdgesOn(channel) == old(nameToNodeMap[n].EdgesOn(channel))
                + if n == fromNodeName && channel == fromChannel && edges != old(edges) then [edge] else []
    {
      edge := ConnectNodes(nameToNodeMap[fromNodeName], fromChannel, nameToNodeMap[toNodeName]);
    }

    method ConnectNodes(fromNode: GraphNode, fromChannel: string, toNode: GraphNode) returns (edge: GraphEdge)
      requires Valid() && fromNode in nameToNodeMap.Values && toNode in nameToNodeMap.Values
      modifies this`edges, fromNode`forwardEdges, toNode`backEdges
      ensures Valid() && edge == GraphEdge(toNode, fromChannel)
              && edges == old(edges) + {(fromNode, fromChannel, toNode)}
      ensures fromNode.EdgesOn(fromChannel)
           == old(fromNode.EdgesOn(fromChannel)) + if edges == old(edges) then [] else [edge]
      ensures forall channel :: channel != fromChannel ==> fromNode.EdgesOn(channel) == old(fromNode.EdgesOn(channel))
    {
      EnsureChannel(fromNode, fromChannel);
      var channelEdges := fromNode.EdgesOn(fromChannel);
      var found := FindEdge(channelEdges, toNode);
      if found.Some? {
        return found.value;
      }
      edge := GraphEdge(toNode, fromChannel);
      var backEdges := AddBackEdge(toNode.backEdges, fromNode);
      AddEdge(fromNode, fromChannel, toNode, backEdges);
    }

    // try_emplace
    method EnsureChannel(fromNode: GraphNode, fromChannel: string)
      requires Valid() && fromNode in nameToNodeMap.Values
      modifies fromNode`forwardEdges
      ensures Valid() && fromChannel in fromNode.forwardEdges
      ensures forall channel :: fromNode.EdgesOn(channel) == old(fromNode.EdgesOn(channel))
    {
      AddChannel(fromNode, fromChannel);
      assert forall n, channel :: n in nameToNodeMap ==>
             nameToNodeMap[n].EdgesOn(channel) == old(nameToNodeMap[n].EdgesOn(channel));
      assert forall e :: e in edges ==> e.0.EdgesOn(e.1) == old(e.0.EdgesOn(e.1));
    }

    static method AddChannel(fromNode: GraphNode, fromChannel: string)
      modifies fromNode`forwardEdges
      ensures fromChannel in fromNode.forwardEdges
      ensures forall channel :: fromNode.EdgesOn(channel) == old(fromNode.EdgesOn(channel))
    {
      if fromChannel !in fromNode.forwardEdges {
        fromNode.forwardEdges := fromNode.forwardEdges[fromChannel := []];
      }
    }

    // The stores of a new edge and its back edge.
    method AddEdge(fromNode: GraphNode, fromChannel: string, toNode: GraphNode, backEdges: seq<GraphNode>)
      requires Valid() && fromNode in nameToNodeMap.Values && toNode in nameToNodeMap.Values
      requires fromChannel in fromNode.forwardEdges && !Leads(fromNode.EdgesOn(fromChannel), toNode)
      requires backEdges == WithBackEdge(toNode.backEdges, fromNode)
      modifies this`edges, fromNode`forwardEdges, toNode`backEdges
      ensures Valid() && edges == old(edges) + {(fromNode, fromChannel, toNode)}
      ensures fromNode.EdgesOn(fromChannel) == old(fromNode.EdgesOn(fromChannel)) + [GraphEdge(toNode, fromChannel)]
      ensures forall channel :: channel != fromChannel ==> fromNode.EdgesOn(channel) == old(fromNode.EdgesOn(channel))
    {
      ghost var list := fromNode.EdgesOn(fromChannel);
      ListGrows(fromNode, fromChannel, list, edges, toNode);
      BackEdgesGrow(toNode, toNode.backEdges, edges, fromNode, fromChannel);
      PushEdge(fromNode, fromChannel, GraphEdge(toNode, fromChannel));
      toNode.backEdges := backEdges;
      edges := edges + {(fromNode, fromChannel, toNode)};
      forall n, channel | n in nameToNodeMap
        ensures ListOk(nameToNodeMap[n], channel, nameToNodeMap[n].EdgesOn(channel), edges)
      {
        if nameToNodeMap[n] != fromNode || channel != fromChannel {
          assert nameToNodeMap[n].EdgesOn(channel) == old(nameToNodeMap[n].EdgesOn(channel));
          ListKept(nameToNodeMap[n], channel, nameToNodeMap[n].EdgesOn(channel), old(edges), edges);
        }
      }
      forall n | n in nameToNodeMap
        ensures BackEdgesOk(nameToNodeMap[n], nameToNodeMap[n].backEdges, edges)
      {
        if nameToNodeMap[n] != toNode {
          BackEdgesKept(nameToNodeMap[n], nameToNodeMap[n].backEdges, old(edges), edges);
        }
      }
      forall e | e in edges
        ensures Leads(e.0.EdgesOn(e.1), e.2)
      {
        if e.0 == fromNode && e.1 == fromChannel {
          LeadsMore(list, GraphEdge(toNode, fromChannel), e.2);
        }
      }
      forall e | e in edges
        ensures e.0 in e.2.backEdges
      {
        assert e in old(edges) || e == (fromNode, fromChannel, toNode);
        WithBackEdgeHas(old(toNode.backEdges), fromNode, e.0);
      }
    }

    // channelEdges.emplace_back
    static method PushEdge(fromNode: GraphNode, fromChannel: string, edge: GraphEdge)
      requires fromChannel in fromNode.forwardEdges
      modifies fromNode`forwardEdges
      ensures fromNode.EdgesOn(fromChannel) == old(fromNode.EdgesOn(fromChannel)) + [edge]
      ensures forall channel :: channel != fromChannel ==> fromNode.EdgesOn(channel) == old(fromNode.EdgesOn(channel))
      ensures fromNode.forwardEdges.Keys == old(fromNode.forwardEdges.Keys)
    {
      fromNode.forwardEdges := fromNode.forwardEdges[fromChannel := fromNode.forwardEdges[fromChannel] + [edge]];
    }

    static method FindEdge(channelEdges: seq<GraphEdge>, toNode: GraphNode) returns (found: Option<GraphEdge>)
      ensures found.None? <==> !Leads(channelEdges, toNode)
      ensures found.Some? ==> found.value in channelEdges && found.value.next == toNode
    {
      for k := 0 to |channelEdges|
        invariant forall j :: 0 <= j < k ==> channelEdges[j].next != toNode
      {
        if channelEdges[k].next == toNode {
          return Some(channelEdges[k]);
        }
      }
      return None;
    }

    static method AddBackEdge(backEdges: seq<GraphNode>, fromNode: GraphNode) returns (grown: seq<GraphNode>)
      ensures grown == WithBackEdge(backEdges, fromNode)
    {
      var haveBackEdgeAlready := false;
      for k := 0 to |backEdges|
        invariant haveBackEdgeAlready <==> fromNode in backEdges[..k]
      {
        if backEdges[k] == fromNode {
          haveBackEdgeAlready := true;
        }
      }
      assert backEdges[..|backEdges|] == backEdges;
      grown := if haveBackEdgeAlready then backEdges else backEdges + [fromNode];
    }
  }
}
