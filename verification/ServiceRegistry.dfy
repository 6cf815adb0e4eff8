/** The registry as an object over node objects that others may hold as well. */
module ServiceRegistry {
  import opened Options
  import opened Registry

  class ClusterNode {
    const nodeId: string
    var services: seq<string>
    var status: Status
    var lastHeartbeat: real

    function View(): Node
      reads this
    {
      Node(services, status, lastHeartbeat)
    }

    constructor (nodeId: string, services: seq<string>, status: Status, lastHeartbeat: real := 0.0)
      ensures this.nodeId == nodeId && View() == Node(services, status, lastHeartbeat)
    {
      this.nodeId, this.services, this.status, this.lastHeartbeat := nodeId, services, status, lastHeartbeat;
    }
  }

  lemma AddOneMore(m: Index, done: set<string>, svc: string, id: string)
    ensures IndexAdd(IndexAdd(m, done, id), {svc}, id) == IndexAdd(m, done + {svc}, id)
  {
  }

  lemma RemoveNothing(m: Index, id: string)
    ensures IndexRemove(m, {}, id) == m
  {
  }

  lemma RemoveOneMore(m: Index, done: set<string>, svc: string, id: string)
    ensures IndexRemove(IndexRemove(m, done, id), {svc}, id) == IndexRemove(m, done + {svc}, id)
  {
    if svc in m {
      WithoutSpec(m[svc], id);
      WithoutSpec(Without(m[svc], id), id);
    }
  }

  class ServiceRegistry {
    var nodes: map<string, ClusterNode>
    var serviceMap: Index
    var rrIndex: map<string, nat>
    ghost var registry: Registry  // the abstract value
    ghost var repr: set<ClusterNode>

    ghost predicate Valid()
      reads this, repr
    {
      && serviceMap == registry.index && rrIndex == registry.rr
      && nodes.Keys == registry.nodes.Keys
      && forall id | id in nodes ::
           nodes[id] in repr && nodes[id].nodeId == id && nodes[id].View() == registry.nodes[id]
    }

    constructor ()
      ensures Valid() && registry == EMPTY && repr == {}
    {
      nodes, serviceMap, rrIndex, registry, repr := map[], map[], map[], EMPTY, {};
    }

    method AddEntry(svc: string, nodeId: string)
      modifies this`serviceMap
      ensures serviceMap == IndexAdd(old(serviceMap), {svc}, nodeId)
    {
      if svc !in serviceMap {
        serviceMap := serviceMap[svc := []];
      }
      if nodeId !in serviceMap[svc] {
        serviceMap := serviceMap[svc := serviceMap[svc] + [nodeId]];
      }
    }

    method RegisterNode(node: ClusterNode)
      requires Valid()
      modifies this
      ensures Valid() && repr == old(repr) + {node}
      ensures nodes == old(nodes)[node.nodeId := node]
      ensures registry == Register(old(registry), node.nodeId, node.View())
    {
      nodes := nodes[node.nodeId := node];
      var i := 0;
      assert IndexAdd(serviceMap, {}, node.nodeId) == serviceMap;
      while i < |node.services|
        invariant 0 <= i <= |node.services|
        invariant serviceMap == IndexAdd(old(serviceMap), Names(node.services[..i]), node.nodeId)
        invariant nodes == old(nodes)[node.nodeId := node]
        invariant registry == old(registry) && rrIndex == old(rrIndex) && repr == old(repr)
      {
        AddOneMore(old(serviceMap), Names(node.services[..i]), node.services[i], node.nodeId);
        assert Names(node.services[..i + 1]) == Names(node.services[..i]) + {node.services[i]};
        AddEntry(node.services[i], node.nodeId);
        i := i + 1;
      }
      assert node.services[..|node.services|] == node.services;
      registry := Register(registry, node.nodeId, node.View());
      repr := repr + {node};
    }

    method RemoveEntry(svc: string, nodeId: string)
      modifies this`serviceMap
      ensures serviceMap == IndexRemove(old(serviceMap), {svc}, nodeId)
    {
      if svc in serviceMap {
        var rest := Without(serviceMap[svc], nodeId);
        if rest == [] {
          serviceMap := serviceMap - {svc};
        } else {
          serviceMap := serviceMap[svc := rest];
        }
      }
    }

    method UnregisterNode(nodeId: string)
      requires Valid()
      modifies this
      ensures Valid() && repr == old(repr)
      ensures registry == Unregister(old(registry), nodeId)
    {
      if nodeId !in nodes {
        return;
      }
      var services := nodes[nodeId].services;
      nodes := nodes - {nodeId};
      var i := 0;
      RemoveNothing(serviceMap, nodeId);
      while i < |services|
        invariant 0 <= i <= |services|
        invariant serviceMap == IndexRemove(old(serviceMap), Names(services[..i]), nodeId)
        invariant nodes == old(nodes) - {nodeId}
        invariant registry == old(registry) && rrIndex == old(rrIndex) && repr == old(repr)
      {
        RemoveOneMore(old(serviceMap), Names(services[..i]), services[i], nodeId);
        assert Names(services[..i + 1]) == Names(services[..i]) + {services[i]};
        RemoveEntry(services[i], nodeId);
        i := i + 1;
      }
      assert services[..|services|] == services;
      registry := Unregister(registry, nodeId);
    }

    /** node.services = list(services), once the index has been brought into line. */
    method SetServices(node: ClusterNode, services: seq<string>)
      requires nodes.Keys == registry.nodes.Keys && rrIndex == registry.rr
      requires forall id | id in nodes ::
                 nodes[id] in repr && nodes[id].nodeId == id && nodes[id].View() == registry.nodes[id]
      requires node.nodeId in nodes && nodes[node.nodeId] == node
      requires serviceMap == UpdateServices(registry, node.nodeId, services).index
      modifies this`registry, node
      ensures Valid()
      ensures registry == UpdateServices(old(registry), node.nodeId, services)
    {
      hide IndexAdd, IndexRemove, Names;
      node.services := services;
      registry := UpdateServices(registry, node.nodeId, services);
    }

    /** A loop over a set, in no particular order. */
    method RemoveEntries(services: set<string>, nodeId: string)
      modifies this`serviceMap
      ensures serviceMap == IndexRemove(old(serviceMap), services, nodeId)
    {
      var todo := services;
      RemoveNothing(serviceMap, nodeId);
      ghost var done: set<string> := {};
      while todo != {}
        invariant todo + done == services
        invariant serviceMap == IndexRemove(old(serviceMap), done, nodeId)
        decreases todo
      {
        var svc :| svc in todo;
        RemoveOneMore(old(serviceMap), done, svc, nodeId);
        RemoveEntry(svc, nodeId);
        todo, done := todo - {svc}, done + {svc};
      }
      assert done == services;
    }

    method AddEntries(services: set<string>, nodeId: string)
      modifies this`serviceMap
      ensures serviceMap == IndexAdd(old(serviceMap), services, nodeId)
    {
      var todo := services;
      assert IndexAdd(serviceMap, {}, nodeId) == serviceMap;
      ghost var done: set<string> := {};
      while todo != {}
        invariant todo + done == services
        invariant serviceMap == IndexAdd(old(serviceMap), done, nodeId)
        decreases todo
      {
        var svc :| svc in todo;
        AddOneMore(old(serviceMap), done, svc, nodeId);
        AddEntry(svc, nodeId);
        todo, done := todo - {svc}, done + {svc};
      }
      assert done == services;
    }

    method UpdateNodeServices(nodeId: string, services: seq<string>)
      requires Valid()
      modifies this, repr
      ensures Valid() && repr == old(repr) && nodes == old(nodes)
      ensures registry == UpdateServices(old(registry), nodeId, services)
    {
      if nodeId !in nodes {
        return;
      }
      hide IndexAdd, IndexRemove, Names;
      var node := nodes[nodeId];
      var before, after := Names(node.services), Names(services);
      RemoveEntries(before - after, nodeId);
      AddEntries(after - before, nodeId);
      SetServices(node, services);
    }

    function IsHealthy(nodeId: string): (b: bool)
      requires Valid()
      reads this, repr
      ensures b == Healthy(registry, nodeId)
    {
      nodeId in nodes && nodes[nodeId].status == Online
    }

    method FindHealthy(nodeIds: seq<string>) returns (node: ClusterNode?)
      requires Valid()
      ensures node == null <==> FirstHealthy(registry, nodeIds).None?
      ensures node != null ==>
                && FirstHealthy(registry, nodeIds) == Some(node.nodeId)
                && node.nodeId in nodes && nodes[node.nodeId] == node
    {
      var i := 0;
      assert nodeIds[0..] == nodeIds;
      while i < |nodeIds|
        invariant 0 <= i <= |nodeIds|
        invariant FirstHealthy(registry, nodeIds) == FirstHealthy(registry, nodeIds[i..])
      {
        if IsHealthy(nodeIds[i]) {
          return nodes[nodeIds[i]];
        }
        assert nodeIds[i..][1..] == nodeIds[i + 1..];
        i := i + 1;
      }
      return null;
    }

    method ResolveNode(intentName: string) returns (node: ClusterNode?)
      requires Valid()
      ensures node == null <==> Resolve(registry, intentName).None?
      ensures node != null ==>
                && Resolve(registry, intentName) == Some(node.nodeId)
                && node.nodeId in nodes && nodes[node.nodeId] == node
    {
      node := FindHealthy(Listed(serviceMap, intentName));
      if node == null {
        node := FindHealthy(Listed(serviceMap, Wildcard(intentName)));
      }
    }

    method HealthyOf(nodeIds: seq<string>) returns (healthy: seq<string>)
      requires Valid()
      ensures healthy == AllHealthy(registry, nodeIds)
    {
      healthy := [];
      var i := 0;
      assert nodeIds[0..] == nodeIds;
      while i < |nodeIds|
        invariant 0 <= i <= |nodeIds|
        invariant AllHealthy(registry, nodeIds) == healthy + AllHealthy(registry, nodeIds[i..])
      {
        assert nodeIds[i..][1..] == nodeIds[i + 1..];
        if IsHealthy(nodeIds[i]) {
          healthy := healthy + [nodeIds[i]];
        }
        i := i + 1;
      }
    }

    method ResolveAllNodes(intentName: string) returns (found: seq<ClusterNode>)
      requires Valid()
      ensures |found| == |ResolveAll(registry, intentName)|
      ensures forall i | 0 <= i < |found| ::
                && found[i].nodeId == ResolveAll(registry, intentName)[i]
                && found[i].nodeId in nodes && nodes[found[i].nodeId] == found[i]
    {
      var nodeIds := Listed(serviceMap, intentName);
      if nodeIds == [] {
        nodeIds := Listed(serviceMap, Wildcard(intentName));
      }
      var healthy := HealthyOf(nodeIds);
      AllHealthySpec(registry, nodeIds);
      forall i | 0 <= i < |healthy| ensures healthy[i] in nodes {
        assert healthy[i] in healthy;
      }
      found := seq(|healthy|, i requires 0 <= i < |healthy| && healthy[i] in nodes reads this => nodes[healthy[i]]);
    }

    method ResolveLoadBalanced(intentName: string) returns (node: ClusterNode?)
      requires Valid()
      modifies this`rrIndex, this`registry
      ensures Valid()
      ensures registry == Balance(old(registry), intentName).0
      ensures node == null <==> Balance(old(registry), intentName).1.None?
      ensures node != null ==>
                && Balance(old(registry), intentName).1 == Some(node.nodeId)
                && node.nodeId in nodes && nodes[node.nodeId] == node
    {
      var nodeIds := Listed(serviceMap, intentName);
      if nodeIds == [] {
        nodeIds := Listed(serviceMap, Wildcard(intentName));
      }
      if nodeIds == [] {
        return null;
      }
      hide AllHealthy, Wildcard;
      var healthy := HealthyOf(nodeIds);
      if healthy == [] {
        return null;
      }
      AllHealthySpec(registry, nodeIds);
      var i := (if intentName in rrIndex then rrIndex[intentName] else 0) % |healthy|;
      rrIndex := rrIndex[intentName := i + 1];
      registry := Balance(registry, intentName).0;
      assert healthy[i] in healthy;
      node := nodes[healthy[i]];
    }

    method MarkNode(nodeId: string, status: Status)
      requires Valid()
      modifies this`registry, repr
      ensures Valid()
      ensures registry == Mark(old(registry), nodeId, status)
    {
      if nodeId in nodes {
        nodes[nodeId].status := status;
      }
      registry := Mark(registry, nodeId, status);
    }

    /** What the health checker does to a node it hears from. */
    method NodeHeardFrom(nodeId: string, now: real)
      requires Valid()
      modifies this`registry, repr
      ensures Valid()
      ensures registry == Heartbeat(old(registry), nodeId, now)
    {
      if nodeId in nodes {
        var node := nodes[nodeId];
        node.lastHeartbeat := now;
        node.status := Online;
      }
      registry := Heartbeat(registry, nodeId, now);
    }

    /** Any of the operations, as other tasks call them. */
    method Perform(e: Event)
      requires Valid()
      modifies this, repr
      ensures Valid() && fresh(repr - old(repr))
      ensures registry == Step(old(registry), e)
    {
      hide Register, Unregister, UpdateServices, Mark, Heartbeat, Balance;
      match e
      case RegisterNode(id, node) =>
        var arrival := new ClusterNode(id, node.services, node.status, node.lastHeartbeat);
        RegisterNode(arrival);
      case UnregisterNode(id) => UnregisterNode(id);
      case Update(id, services) => UpdateNodeServices(id, services);
      case SetStatus(id, status) => MarkNode(id, status);
      case Beat(id, now) => NodeHeardFrom(id, now);
      case Balanced(name) => var _ := ResolveLoadBalanced(name);
    }
  }
}
