/** The client's own state (src/state.rs): contract ids per node and the subnets of loaded networks. */
module GridStates {
  import opened GridErrors
  import opened KeyOrder
  import opened Networks
  import opened Fragments

  // ---- Contract ids per node ----

  function Store(ids: seq<nat>, more: seq<nat>): seq<nat> {
    if more == [] then ids
    else
      var before, last := Store(ids, more[..|more| - 1]), more[|more| - 1];
      if last in before then before else before + [last]
  }

  function Retain(ids: seq<nat>, gone: nat): seq<nat> {
    if ids == [] then []
    else Retain(ids[..|ids| - 1], gone) + if ids[|ids| - 1] == gone then [] else [ids[|ids| - 1]]
  }

  function Remove(ids: seq<nat>, gone: seq<nat>): seq<nat> {
    if gone == [] then ids else Retain(Remove(ids, gone[..|gone| - 1]), gone[|gone| - 1])
  }

  /** Storing is set union, and appends without touching what is there. */
  lemma {:induction false} StoreIsUnion(ids: seq<nat>, more: seq<nat>)
    requires Distinct(ids)
    ensures Distinct(Store(ids, more)) && Elements(Store(ids, more)) == Elements(ids) + Elements(more)
    ensures ids <= Store(ids, more)
    decreases |more|
  {
    if more != [] {
      StoreIsUnion(ids, more[..|more| - 1]);
      assert Elements(more) == Elements(more[..|more| - 1]) + {more[|more| - 1]};
      var before := Store(ids, more[..|more| - 1]);
      assert Elements(before + [more[|more| - 1]]) == Elements(before) + {more[|more| - 1]};
    }
  }

  /** New ids are appended in the order given. */
  lemma {:induction false} StoreAppends(ids: seq<nat>, more: seq<nat>)
    requires Distinct(ids + more)
    ensures Store(ids, more) == ids + more
    decreases |more|
  {
    if more != [] {
      var before, last := more[..|more| - 1], more[|more| - 1];
      var all, some := ids + more, ids + before;
      assert all == some + [last];
      assert forall i :: 0 <= i < |some| ==> some[i] == all[i];
      StoreAppends(ids, before);
      forall i | 0 <= i < |some| ensures some[i] != last { assert all[i] != all[|all| - 1]; }
      assert last !in some;
    }
  }

  /** The ids that are not removed, in the order they have. */
  function Others(ids: seq<nat>, gone: set<nat>): seq<nat> {
    if ids == [] then [] else (if ids[0] in gone then [] else [ids[0]]) + Others(ids[1..], gone)
  }

  lemma {:induction false} OthersPush(ids: seq<nat>, last: nat, gone: set<nat>)
    ensures Others(ids + [last], gone) == Others(ids, gone) + if last in gone then [] else [last]
  {
    if ids != [] {
      assert (ids + [last])[1..] == ids[1..] + [last];
      OthersPush(ids[1..], last, gone);
    }
  }

  lemma {:induction false} RetainIsOthers(ids: seq<nat>, gone: nat)
    ensures Retain(ids, gone) == Others(ids, {gone})
    decreases |ids|
  {
    if ids != [] {
      RetainIsOthers(ids[..|ids| - 1], gone);
      assert ids == ids[..|ids| - 1] + [ids[|ids| - 1]];
      OthersPush(ids[..|ids| - 1], ids[|ids| - 1], {gone});
    }
  }

  lemma {:induction false} OthersTwice(ids: seq<nat>, a: set<nat>, b: set<nat>)
    ensures Others(Others(ids, a), b) == Others(ids, a + b)
  {
    if ids != [] {
      OthersTwice(ids[1..], a, b);
      var rest := Others(ids[1..], a);
      if ids[0] !in a { assert ([ids[0]] + rest)[1..] == rest; } else { assert [] + rest == rest; }
    }
  }

  /** Removing keeps the others in their order. */
  lemma {:induction false} RemoveKeepsOthers(ids: seq<nat>, gone: seq<nat>)
    ensures Remove(ids, gone) == Others(ids, Elements(gone))
    decreases |gone|
  {
    if gone == [] {
      OthersOfNone(ids);
    } else {
      var before, last := gone[..|gone| - 1], gone[|gone| - 1];
      RemoveKeepsOthers(ids, before);
      RetainIsOthers(Others(ids, Elements(before)), last);
      OthersTwice(ids, Elements(before), {last});
      assert Elements(gone) == Elements(before) + {last};
    }
  }

  lemma {:induction false} OthersOfNone(ids: seq<nat>)
    ensures Others(ids, Elements([])) == ids
  {
    if ids != [] { OthersOfNone(ids[1..]); }
  }

  lemma {:induction false} RetainIsDifference(ids: seq<nat>, gone: nat)
    requires Distinct(ids)
    ensures Distinct(Retain(ids, gone)) && Elements(Retain(ids, gone)) == Elements(ids) - {gone}
    decreases |ids|
  {
    if ids != [] {
      var before, last := ids[..|ids| - 1], ids[|ids| - 1];
      RetainIsDifference(before, gone);
      assert Elements(ids) == Elements(before) + {last};
      assert last !in before;
      assert Elements(Retain(before, gone) + [last]) == Elements(Retain(before, gone)) + {last};
      assert forall i :: 0 <= i < |Retain(before, gone)| ==> Retain(before, gone)[i] in Elements(Retain(before, gone));
    }
  }

  /** Removing is set difference. */
  lemma {:induction false} RemoveIsDifference(ids: seq<nat>, gone: seq<nat>)
    requires Distinct(ids)
    ensures Distinct(Remove(ids, gone)) && Elements(Remove(ids, gone)) == Elements(ids) - Elements(gone)
    decreases |gone|
  {
    if gone != [] {
      var before := gone[..|gone| - 1];
      assert Elements(gone) == Elements(before) + {gone[|gone| - 1]};
      hide Elements, Retain, Distinct;
      RemoveIsDifference(ids, before);
      RetainIsDifference(Remove(ids, before), gone[|gone| - 1]);
    }
  }

  datatype Change = Stored(node: nat, ids: seq<nat>) | Removed(node: nat, ids: seq<nat>)

  function Listed(m: map<nat, seq<nat>>, node: nat): seq<nat> {
    if node in m then m[node] else []
  }

  function Apply(m: map<nat, seq<nat>>, c: Change): map<nat, seq<nat>> {
    match c
    case Stored(n, ids) => m[n := Store(Listed(m, n), ids)]
    case Removed(n, ids) => if n in m then m[n := Remove(m[n], ids)] else m
  }

  function Run(changes: seq<Change>): map<nat, seq<nat>> {
    if changes == [] then map[] else Apply(Run(changes[..|changes| - 1]), changes[|changes| - 1])
  }

  /** The same changes on a set. */
  function SetRun(changes: seq<Change>, node: nat): set<nat> {
    if changes == [] then {}
    else
      var before, last := SetRun(changes[..|changes| - 1], node), changes[|changes| - 1];
      if last.node != node then before
      else if last.Stored? then before + Elements(last.ids) else before - Elements(last.ids)
  }

  /** After any changes a node's ids are without repeats, and are those stored and not removed since. */
  lemma {:induction false} IdsBehaveAsSets(changes: seq<Change>, node: nat)
    ensures Distinct(Listed(Run(changes), node)) && Elements(Listed(Run(changes), node)) == SetRun(changes, node)
  {
    if changes != [] {
      var before, last := changes[..|changes| - 1], changes[|changes| - 1];
      IdsBehaveAsSets(before, node);
      var ids := Listed(Run(before), node);
      hide Elements, Distinct;
      StoreIsUnion(ids, last.ids);
      RemoveIsDifference(ids, last.ids);
      if last.Removed? && last.node == node && node !in Run(before) { RemoveFromNothing(last.ids); }
    }
  }

  lemma {:induction false} RemoveFromNothing(gone: seq<nat>)
    ensures Remove([], gone) == []
  {
    if gone != [] { RemoveFromNothing(gone[..|gone| - 1]); }
  }

  // ---- Failing while collecting ----

  lemma {:induction false} DeploymentsStop(view: View, light: bool, name: string, node: nat,
                                           ds: seq<StoredDeployment>, n: nat)
    requires n <= |ds| && FromDeployments(view, light, name, node, ds[..n]).Err?
    ensures FromDeployments(view, light, name, node, ds) == FromDeployments(view, light, name, node, ds[..n])
    decreases |ds| - n
  {
    if n == |ds| {
      assert ds[..n] == ds;
    } else {
      assert ds[..n + 1][..n] == ds[..n];
      DeploymentsStop(view, light, name, node, ds, n + 1);
    }
  }

  lemma {:induction false} NodesStop(view: View, light: bool, name: string, order: seq<nat>, n: nat)
    requires n <= |order| && FromNodes(view, light, name, order[..n]).Err?
    ensures FromNodes(view, light, name, order) == FromNodes(view, light, name, order[..n])
    decreases |order| - n
  {
    if n == |order| {
      assert order[..n] == order;
    } else {
      assert order[..n + 1][..n] == order[..n];
      NodesStop(view, light, name, order, n + 1);
    }
  }

  // ---- The state in place ----

  class State {
    var currentNodeDeployments: map<nat, seq<nat>>
    var networks: map<string, map<nat, string>>

    constructor ()
      ensures currentNodeDeployments == map[] && networks == map[]
    {
      currentNodeDeployments, networks := map[], map[];
    }

    method StoreContractIds(node: nat, ids: seq<nat>)
      modifies this`currentNodeDeployments
      ensures currentNodeDeployments == Apply(old(currentNodeDeployments), Stored(node, ids))
    {
      if node !in currentNodeDeployments { currentNodeDeployments := currentNodeDeployments[node := []]; }
      ghost var before := currentNodeDeployments;
      for i := 0 to |ids|
        invariant currentNodeDeployments == before[node := Store(before[node], ids[..i])]
      {
        assert ids[..i + 1][..i] == ids[..i];
        var entry := currentNodeDeployments[node];
        if ids[i] !in entry { currentNodeDeployments := currentNodeDeployments[node := entry + [ids[i]]]; }
      }
      assert ids[..|ids|] == ids;
    }

    /** `retain` on one node's list, one id at a time. */
    method RemoveContractIds(node: nat, ids: seq<nat>)
      modifies this`currentNodeDeployments
      ensures currentNodeDeployments == Apply(old(currentNodeDeployments), Removed(node, ids))
    {
      if node in currentNodeDeployments {
        ghost var before := currentNodeDeployments;
        for i := 0 to |ids|
          invariant currentNodeDeployments == before[node := Remove(before[node], ids[..i])]
        {
          assert ids[..i + 1][..i] == ids[..i];
          currentNodeDeployments := currentNodeDeployments[node := Retain(currentNodeDeployments[node], ids[i])];
        }
        assert ids[..|ids|] == ids;
      }
    }

    function GetNodeSubnet(network: string, node: nat): string
      reads this
    {
      if network in networks && node in networks[network] then networks[network][node] else ""
    }

    method UpdateNetworkSubnets(name: string, subnets: map<nat, string>)
      modifies this`networks
      ensures networks == old(networks)[name := subnets]
    {
      networks := networks[name := subnets];
    }

    /** The loop over the workloads of one deployment, which stops at the first match. */
    method ScanDeployment(view: View, light: bool, name: string, node: nat, d: StoredDeployment)
      returns (r: Result<Option<Found>>)
      ensures r == FromDeployment(view, light, name, node, d)
      ensures r.Ok? ==> (r.value.Some? <==> exists w :: FirstOf(d.workloads, light, name, w))
      ensures r.Ok? ==> forall w :: FirstOf(d.workloads, light, name, w) ==>
                          && w.data.Ok? && w.metadata.Ok? && d.project.Ok?
                          && Says(view, light, node, d, w, r.value.value)
    {
      hide FirstOf, Says;
      if FromDeployment(view, light, name, node, d).Ok? { FragmentSaysWhatIsStored(view, light, name, node, d); }
      if d.project.Err? { return Err(d.project.error); }
      hide ReadNetwork;
      for i := 0 to |d.workloads|
        invariant FirstMatch(d.workloads, light, name) == FirstMatch(d.workloads[i..], light, name)
      {
        var w := d.workloads[i];
        assert d.workloads[i..][1..] == d.workloads[i + 1..];
        if IsNetwork(w, light, name) {
          var net := ReadNetwork(view, light, w, node);
          if net.Err? { return Err(net.error); }
          var found := net.value.(solutionType := d.project.value);
          if !light && found.publicNodeId == node {
            var endpoint := view.endpoint(node);
            if endpoint.Err? { return Err(endpoint.error); }
            return Ok(Some(Found(node, d.contractId, found, Some(endpoint.value))));
          }
          return Ok(Some(Found(node, d.contractId, found, None)));
        }
      }
      return Ok(None);
    }

    method ScanNode(view: View, light: bool, name: string, node: nat) returns (r: Result<seq<Found>>)
      ensures r == FromNode(view, light, name, node)
    {
      hide FromDeployment;
      var listed := view.deployments(node);
      if listed.Err? { return Err(listed.error); }
      var ds, found := listed.value, [];
      for i := 0 to |ds|
        invariant FromDeployments(view, light, name, node, ds[..i]) == Ok(found)
      {
        assert ds[..i + 1][..i] == ds[..i];
        var one := ScanDeployment(view, light, name, node, ds[i]);
        if one.Err? {
          DeploymentsStop(view, light, name, node, ds, i + 1);
          return Err(one.error);
        }
        if one.value.Some? { found := found + [one.value.value]; }
      }
      assert ds[..|ds|] == ds;
      return Ok(found);
    }

    /** `load_network_from_grid` and its light form: `order` is the order in which the hash map yields its
        keys. The state changes only when loading succeeds, and then only at that network. */
    method LoadNetwork(view: View, light: bool, name: string, order: seq<nat>) returns (r: Result<ZNet>)
      requires Distinct(order) && Elements(order) == currentNodeDeployments.Keys
      modifies this`networks
      ensures r == Load(view, light, name, order)
      ensures r.Ok? && OneEach(view, light, name, order) ==>
                forall n, d, w :: n in order && Stores(view, light, name, n, d, w) ==>
                  w.data.Ok? && EntryIs(r.value.nodesIpRange, n, true, w.data.value.subnet)
      ensures networks == if r.Ok? then old(networks)[name := r.value.nodesIpRange] else old(networks)
    {
      hide FromNode, Join, Finish, Elements, OneEach, Stores, EntryIs;
      var found: seq<Found> := [];
      for i := 0 to |order|
        invariant FromNodes(view, light, name, order[..i]) == Ok(found) && networks == old(networks)
      {
        assert order[..i + 1][..i] == order[..i];
        var here := ScanNode(view, light, name, order[i]);
        if here.Err? {
          NodesStop(view, light, name, order, i + 1);
          return Err(here.error);
        }
        found := found + here.value;
      }
      assert order[..|order|] == order;
      if found == [] { return Err(NotFound("failed to get network")); }
      var z, endpoint, contracts := found[0].net, "", map[];
      for i := 0 to |found|
        invariant contracts == Deployments(found[..i]) && endpoint == PublicEndpoint(found[..i])
        invariant networks == old(networks)
      {
        assert found[..i + 1][..i] == found[..i];
        contracts := contracts[found[i].node := found[i].contractId];
        if found[i].endpoint.Some? { endpoint := found[i].endpoint.value; }
      }
      for i := 1 to |found|
        invariant z == MergeAll(found[..i]) && networks == old(networks)
      {
        assert found[..i + 1][..i] == found[..i];
        z := Join(z, found[i].net);
      }
      assert found[..|found|] == found;
      z := z.(nodeDeploymentId := contracts);
      r := Finish(view, z, endpoint);
      if r.Ok? && OneEach(view, light, name, order) { SubnetsAreStored(view, light, name, order); }
      if r.Ok? {
        UpdateNetworkSubnets(name, r.value.nodesIpRange);
      }
    }

    /** `assign_nodes_ip_range`: a subnet for every member's node, or none at all. */
    method AssignNodesIpRange(network: string, master: Option<nat>, workers: seq<nat>)
      returns (r: Result<map<nat, string>>)
      ensures var members := Elements(workers) + (if master.Some? then {master.value} else {});
              && (r.Ok? <==> forall n :: n in members ==> GetNodeSubnet(network, n) != "")
              && (r.Ok? ==> r.value == map n | n in members :: GetNodeSubnet(network, n))
    {
      var nodes: map<nat, string> := map[];
      if master.Some? {
        var subnet := GetNodeSubnet(network, master.value);
        if subnet == "" { return Err(NotFound("failed to get ip range for master node")); }
        nodes := nodes[master.value := subnet];
      }
      ghost var first := nodes.Keys;
      for i := 0 to |workers|
        invariant nodes.Keys == Elements(workers[..i]) + first
        invariant forall n :: n in nodes ==> nodes[n] == GetNodeSubnet(network, n) != ""
      {
        var subnet := GetNodeSubnet(network, workers[i]);
        if subnet == "" {
          assert workers[i] in Elements(workers);
          return Err(NotFound("failed to get ip range for worker node"));
        }
        nodes := nodes[workers[i] := subnet];
        assert Elements(workers[..i + 1]) == Elements(workers[..i]) + {workers[i]};
      }
      assert workers[..|workers|] == workers;
      return Ok(nodes);
    }
  }
}
