/** The deployer facade over the in-memory chain and the node stores (src/deployer.rs, src/node.rs). */
module Deployers {
  import opened GridErrors
  import opened Text
  import opened Workloads
  import RoundTrips
  import L = Ledgers

  type Store = map<nat, ZosDeployment>

  function DeploymentHash(d: Deployment): string {
    d.name + ":" + Decimal(d.nodeId) + ":" + d.solutionType
  }

  // ---- The grid as a value ----

  /** `ensure_node_client`: a node's store is created empty on first use. */
  function Opened(stores: map<nat, Store>, node: nat): map<nat, Store> {
    if node in stores then stores else stores[node := map[]]
  }

  function With(store: Store, z: ZosDeployment): Store {
    store[z.contractId := z]
  }

  function Put(stores: map<nat, Store>, node: nat, z: ZosDeployment): map<nat, Store> {
    Opened(stores, node)[node := With(Opened(stores, node)[node], z)]
  }

  function Delete(stores: map<nat, Store>, node: nat, id: nat): map<nat, Store> {
    Opened(stores, node)[node := Opened(stores, node)[node] - {id}]
  }

  /** The chain together with every node's store. */
  datatype Grid = Grid(ledger: L.Ledger, stores: map<nat, Store>) {
    function Holds(node: nat): Store {
      if node in stores then stores[node] else map[]
    }

    function Load(node: nat, id: nat): Option<ZosDeployment> {
      if id in Holds(node) then Some(Holds(node)[id]) else None
    }

    function AddNode(node: L.Node): Grid {
      this.(ledger := ledger.AddNode(node))
    }

    function Deploy(d: Deployment): (Grid, Result<nat>) {
      if d.nodeId !in ledger.nodes then (this, Err(NotFound("node twin " + Decimal(d.nodeId))))
      else
        var (l, r) := ledger.Create(d.nodeId, GenerateMetadata(d), DeploymentHash(d),
                                    RoundTrips.GetPublicIpCount(d.vms));
        if r.value == 0 then (Grid(l, Opened(stores, d.nodeId)), Err(Validation("contract id is required")))
        else (Grid(l, Put(stores, d.nodeId, ToZos(d, d.nodeId).(contractId := r.value))), r)
    }

    function Cancel(id: nat): (Grid, Result<()>) {
      var (l, r) := ledger.Cancel(id);
      if r.Err? then (this, r)
      else
        match l.contracts[id].contractType.NodeId()
        case None => (Grid(l, stores), r)
        case Some(n) =>
          if n !in l.nodes then (Grid(l, stores), Err(NotFound("node " + Decimal(n))))
          else (Grid(l, Delete(stores, n, id)), r)
    }

    ghost predicate IsLiveOn(c: nat, n: nat) {
      c in ledger.contracts && ledger.contracts[c].isCreated && ledger.contracts[c].contractType.NodeId() == Some(n)
    }

    ghost predicate ContractsOnKnownNodes() {
      forall c :: c in ledger.contracts ==>
        ledger.contracts[c].contractType.isNode && ledger.contracts[c].contractType.nodeContract.node in ledger.nodes
    }

    ghost predicate StoresExactlyLive() {
      forall n: nat, c: nat :: c in Holds(n) <==> IsLiveOn(c, n)
    }

    ghost predicate StoresMatch() {
      forall n: nat, c: nat :: c in Holds(n) && c in ledger.contracts ==> Matches(Holds(n)[c], ledger.contracts[c])
    }

    /** Chain and stores agree: a node stores a deployment under an id exactly when that contract is
        live and the node's; the deployment carries the id, the metadata anchored on chain, and as
        many addresses as the contract is charged for. */
    ghost predicate Agrees() {
      ledger.Indexed() && ContractsOnKnownNodes() && StoresExactlyLive() && StoresMatch()
    }
  }

  predicate Matches(z: ZosDeployment, c: L.Contract) {
    && z.contractId == c.contractId
    && z.metadata == c.contractType.nodeContract.deploymentData
    && RoundTrips.CountAddresses(z.workloads) == c.contractType.nodeContract.publicIpsCount
  }

  const EMPTY := Grid(L.EMPTY, map[])

  // ---- What a failed operation leaves behind ----

  /** Deploying fails on unknown nodes, without a trace - and when the allocator has wrapped to 0, which
      leaves a contract that no node serves. */
  lemma DeployFailsIff(g: Grid, d: Deployment)
    ensures g.Deploy(d).1.Err? <==> d.nodeId !in g.ledger.nodes || g.ledger.next == 0
    ensures g.Deploy(d).1.Err? ==> (g.Deploy(d).0 == g <==> d.nodeId !in g.ledger.nodes)
  {
    if d.nodeId in g.ledger.nodes && g.ledger.next == 0 {
      assert g.Deploy(d).0.ledger.next == 1;
    }
  }

  /** Cancelling fails on unknown ids, without a trace - and on contracts whose node is unknown, which
      are deleted nevertheless. */
  lemma CancelFailsIff(g: Grid, id: nat)
    ensures g.Cancel(id).1.Err?
       <==> || id !in g.ledger.contracts
            || (var n := g.ledger.contracts[id].contractType.NodeId(); n.Some? && n.value !in g.ledger.nodes)
    ensures id !in g.ledger.contracts ==> g.Cancel(id).0 == g
    ensures id in g.ledger.contracts ==> g.Cancel(id).0.ledger.contracts[id].isDeleted
  {
  }

  // ---- What a deployment leaves on chain and node ----

  /** How many machines want a public address. */
  function WantAddresses(vms: seq<VM>): nat {
    if vms == [] then 0 else (if vms[0].publicIp || vms[0].publicIp6 then 1 else 0) + WantAddresses(vms[1..])
  }

  lemma {:induction false} WantedIsCounted(vms: seq<VM>)
    ensures RoundTrips.GetPublicIpCount(vms) == WantAddresses(vms)
  {
    if vms != [] { WantedIsCounted(vms[1..]); }
  }

  /** A deployment that succeeds is a live contract of its node, charged for each machine that wants an address,
      found by name, node and solution type, and stored by the node under the contract's id and metadata. */
  lemma DeployIsRecorded(g: Grid, d: Deployment)
    requires g.Deploy(d).1.Ok?
    ensures var (h, id) := (g.Deploy(d).0, g.Deploy(d).1.value);
            && id in h.ledger.contracts
            && var c := h.ledger.contracts[id];
            && c.contractId == id && c.isCreated && !c.isDeleted && c.contractType.NodeId() == Some(d.nodeId)
            && c.contractType.nodeContract.publicIpsCount == WantAddresses(d.vms)
            && h.ledger.Lookup(d.nodeId, d.name + ":" + Decimal(d.nodeId) + ":" + d.solutionType) == Some(id)
            && var z := h.Load(d.nodeId, id);
            && z.Some? && z.value.contractId == id && z.value.workloads == Flatten(d)
            && z.value.twinId == d.nodeId && z.value.version == 0 && z.value.expiration == 0
            && z.value.metadata == c.contractType.nodeContract.deploymentData
            && z.value.metadata.Metadata? && z.value.metadata.version == 3 && z.value.metadata.name == d.name
            && z.value.metadata.kind == (if d.vmsLight != [] then "vm-light" else "vm")
            && z.value.metadata.projectName == if d.solutionType != "" then d.solutionType else d.name
  {
    WantedIsCounted(d.vms);
    hide Flatten, RoundTrips.GetPublicIpCount, WantAddresses;
  }

  // ---- Agreement is kept ----

  lemma AddNodeKeepsAgreement(g: Grid, node: L.Node)
    requires g.Agrees()
    ensures g.AddNode(node).Agrees()
  {
    L.AddNodeKeepsIndex(g.ledger, node);
    hide L.Ledger.Indexed;
    assert forall n: nat :: g.AddNode(node).Holds(n) == g.Holds(n);
  }

  lemma DeployedMatches(d: Deployment, id: nat)
    ensures Matches(ToZos(d, d.nodeId).(contractId := id),
                    L.NewContract(id, d.nodeId, GenerateMetadata(d), RoundTrips.GetPublicIpCount(d.vms)))
  {
    RoundTrips.ChargedAddressesAreSent(d);
  }

  /** What deploying on a known node does, before the allocator wraps. */
  lemma DeployEffect(g: Grid, d: Deployment)
    requires g.ledger.Indexed() && d.nodeId in g.ledger.nodes
    ensures var (h, r) := g.Deploy(d);
            var id := g.ledger.next;
            && r == Ok(id) && id !in g.ledger.contracts
            && h.ledger.nodes == g.ledger.nodes
            && h.ledger.contracts == g.ledger.contracts[id := L.NewContract(id, d.nodeId, GenerateMetadata(d),
                                                                           RoundTrips.GetPublicIpCount(d.vms))]
            && forall n: nat :: h.Holds(n) == if n == d.nodeId then g.Holds(n)[id := ToZos(d, n).(contractId := id)]
                                              else g.Holds(n)
  {
    hide ToZos, GenerateMetadata, RoundTrips.GetPublicIpCount, DeploymentHash, L.HashKey, L.NewContract;
  }

  /** Storing under a new live contract keeps the stores exact. */
  lemma StoringKeepsExact(g: Grid, h: Grid, id: nat, c: L.Contract, z: ZosDeployment)
    requires g.ContractsOnKnownNodes() && g.StoresExactlyLive() && g.StoresMatch()
    requires c.isCreated && c.contractType.isNode && Matches(z, c)
    requires id !in g.ledger.contracts && h.ledger.contracts == g.ledger.contracts[id := c]
    requires h.ledger.nodes == g.ledger.nodes && c.contractType.nodeContract.node in g.ledger.nodes
    requires forall n: nat ::
               h.Holds(n) == if n == c.contractType.nodeContract.node then g.Holds(n)[id := z] else g.Holds(n)
    ensures h.ContractsOnKnownNodes() && h.StoresExactlyLive() && h.StoresMatch()
  {
    hide Matches, Grid.Holds;
  }

  lemma DeployKeepsAgreement(g: Grid, d: Deployment)
    requires g.Agrees() && g.ledger.next < L.U64_MAX
    ensures g.Deploy(d).0.Agrees()
  {
    hide Matches, ToZos, GenerateMetadata, RoundTrips.GetPublicIpCount, DeploymentHash, L.Ledger.Indexed, Grid.Holds;
    hide Grid.ContractsOnKnownNodes, Grid.StoresExactlyLive, Grid.StoresMatch;
    if d.nodeId in g.ledger.nodes {
      var ips, id := RoundTrips.GetPublicIpCount(d.vms), g.ledger.next;
      L.CreateKeepsIndexIff(g.ledger, d.nodeId, GenerateMetadata(d), DeploymentHash(d), ips);
      DeployedMatches(d, id);
      DeployEffect(g, d);
      StoringKeepsExact(g, g.Deploy(d).0, id, L.NewContract(id, d.nodeId, GenerateMetadata(d), ips),
                        ToZos(d, d.nodeId).(contractId := id));
    }
  }

  lemma CancelEffect(g: Grid, id: nat)
    requires g.ContractsOnKnownNodes() && id in g.ledger.contracts
    ensures var (h, r) := g.Cancel(id);
            && r == Ok(()) && h.ledger.nodes == g.ledger.nodes
            && h.ledger.contracts
               == g.ledger.contracts[id := g.ledger.contracts[id].(isCreated := false, isDeleted := true)]
            && forall n: nat :: h.Holds(n) == if g.ledger.contracts[id].contractType.nodeContract.node == n
                                              then g.Holds(n) - {id} else g.Holds(n)
  {
  }

  /** Emptying the slot of a contract that stops being live keeps the stores exact. */
  lemma DeletingKeepsExact(g: Grid, h: Grid, id: nat, c: L.Contract)
    requires g.ContractsOnKnownNodes() && g.StoresExactlyLive() && g.StoresMatch()
    requires id in g.ledger.contracts && !c.isCreated && c.contractType == g.ledger.contracts[id].contractType
    requires h.ledger.contracts == g.ledger.contracts[id := c] && h.ledger.nodes == g.ledger.nodes
    requires forall n: nat ::
               h.Holds(n) == if n == c.contractType.nodeContract.node then g.Holds(n) - {id} else g.Holds(n)
    ensures h.ContractsOnKnownNodes() && h.StoresExactlyLive() && h.StoresMatch()
  {
    hide Matches, Grid.Holds;
  }

  lemma CancelKeepsAgreement(g: Grid, id: nat)
    requires g.Agrees()
    ensures g.Cancel(id).0.Agrees()
  {
    hide Matches, L.Ledger.Indexed, Grid.Holds, Grid.StoresExactlyLive, Grid.StoresMatch;
    if id in g.ledger.contracts {
      L.CancelKeepsIndex(g.ledger, id);
      CancelEffect(g, id);
      DeletingKeepsExact(g, g.Cancel(id).0, id, g.ledger.contracts[id].(isCreated := false, isDeleted := true));
    }
  }

  // ---- Runs ----

  datatype Op = AddNode(node: L.Node) | Deploy(deployment: Deployment) | Cancel(id: nat)

  function Apply(g: Grid, op: Op): Grid {
    match op
    case AddNode(node) => g.AddNode(node)
    case Deploy(d) => g.Deploy(d).0
    case Cancel(id) => g.Cancel(id).0
  }

  function Run(ops: seq<Op>): Grid {
    if ops == [] then EMPTY else Apply(Run(ops[..|ops| - 1]), ops[|ops| - 1])
  }

  /** The chain operation behind each deployer operation. */
  function OnChain(op: Op): L.Op {
    match op
    case AddNode(node) => L.AddNode(node)
    case Deploy(d) => L.Create(d.nodeId, GenerateMetadata(d), DeploymentHash(d), RoundTrips.GetPublicIpCount(d.vms))
    case Cancel(id) => L.Cancel(id)
  }

  function AllOnChain(ops: seq<Op>): (r: seq<L.Op>)
    ensures |r| == |ops|
  {
    seq(|ops|, i requires 0 <= i < |ops| => OnChain(ops[i]))
  }

  /** The deployer drives the chain through its own operations only, so every property of chain runs
      holds of deployer runs. */
  lemma {:induction false} RunProjects(ops: seq<Op>)
    ensures Run(ops).ledger == L.Run(AllOnChain(ops))
  {
    if ops != [] {
      var before := ops[..|ops| - 1];
      RunProjects(before);
      assert AllOnChain(ops)[..|ops| - 1] == AllOnChain(before);
    }
  }

  /** Below id overflow, chain and stores agree after any sequence of operations. */
  lemma {:induction false} ReachableAgrees(ops: seq<Op>)
    requires |ops| < L.U64_MAX
    ensures Run(ops).Agrees()
  {
    if ops != [] {
      var before := ops[..|ops| - 1];
      hide Grid.Agrees, Grid.Deploy, Grid.Cancel, Grid.AddNode;
      ReachableAgrees(before);
      RunProjects(before);
      assert forall op :: op in AllOnChain(before) ==> !op.AddContract?;
      L.PlainRunsFit(AllOnChain(before));
      match ops[|ops| - 1]
      case AddNode(node) => AddNodeKeepsAgreement(Run(before), node);
      case Deploy(d) => DeployKeepsAgreement(Run(before), d);
      case Cancel(id) => CancelKeepsAgreement(Run(before), id);
    } else {
      EmptyAgrees();
    }
  }

  lemma EmptyAgrees()
    ensures EMPTY.Agrees()
  {
    L.EmptyIsIndexed();
  }

  /** What the history of operations says a node stores under an id: the deployment that was answered
      with that id, unless it was cancelled since. */
  function Outstanding(ops: seq<Op>, node: nat, id: nat): Option<ZosDeployment> {
    if ops == [] then None
    else
      var before, op := ops[..|ops| - 1], ops[|ops| - 1];
      match op
      case Deploy(d) =>
        if d.nodeId == node && Run(before).Deploy(d).1 == Ok(id) then Some(ToZos(d, node).(contractId := id))
        else Outstanding(before, node, id)
      case Cancel(c) => if c == id then None else Outstanding(before, node, id)
      case AddNode(_) => Outstanding(before, node, id)
  }

  /** Loading answers exactly what the history says, after any sequence of operations. */
  lemma {:induction false} HistoryDecidesStore(ops: seq<Op>, node: nat, id: nat)
    requires |ops| < L.U64_MAX
    ensures Run(ops).Load(node, id) == Outstanding(ops, node, id)
  {
    hide L.Ledger.Indexed, Matches, ToZos, GenerateMetadata, RoundTrips.GetPublicIpCount, DeploymentHash, Grid.Holds;
    hide Grid.Deploy, Grid.Cancel;
    if ops != [] {
      var before, op := ops[..|ops| - 1], ops[|ops| - 1];
      var g := Run(before);
      HistoryDecidesStore(before, node, id);
      ReachableAgrees(before);
      match op
      case AddNode(n) =>
        assert g.AddNode(n).Holds(node) == g.Holds(node) by { HoldsIgnoresLedger(g, g.AddNode(n), node); }
      case Deploy(d) =>
        DeployFailsIff(g, d);
        if d.nodeId in g.ledger.nodes { DeployEffect(g, d); }
      case Cancel(c) =>
        CancelFailsIff(g, c);
        if c in g.ledger.contracts {
          CancelEffect(g, c);
          assert c in g.Holds(node) <==> g.IsLiveOn(c, node);
        } else {
          assert c in g.Holds(node) <==> g.IsLiveOn(c, node);
        }
    } else {
      NothingHeld(node);
    }
  }

  lemma HoldsIgnoresLedger(g: Grid, h: Grid, node: nat)
    requires g.stores == h.stores
    ensures g.Holds(node) == h.Holds(node)
  {
  }

  lemma NothingHeld(node: nat)
    ensures EMPTY.Holds(node) == map[]
  {
  }

  /** Cancelling a fresh deployment empties its slot again, touches no other, and keeps the contract as
      deleted. */
  lemma CancelUndoesDeploy(g: Grid, d: Deployment)
    requires g.Agrees() && d.nodeId in g.ledger.nodes && g.ledger.next < L.U64_MAX
    ensures var (deployed, id) := g.Deploy(d);
            && id.Ok?
            && deployed.Load(d.nodeId, id.value) == Some(ToZos(d, d.nodeId).(contractId := id.value))
            && var (cancelled, r) := deployed.Cancel(id.value);
               && r.Ok?
               && (forall n: nat :: cancelled.Holds(n) == g.Holds(n))
               && id.value !in g.ledger.contracts
               && cancelled.ledger.contracts.Keys == g.ledger.contracts.Keys + {id.value}
               && cancelled.ledger.contracts[id.value].isDeleted && !cancelled.ledger.contracts[id.value].isCreated
               && (forall c :: c in g.ledger.contracts ==> cancelled.ledger.contracts[c] == g.ledger.contracts[c])
  {
    hide Matches, ToZos, GenerateMetadata, RoundTrips.GetPublicIpCount, Grid.Deploy, Grid.Cancel, Grid.Holds;
    hide L.Ledger.Indexed, Grid.StoresMatch;
    var id := g.ledger.next;
    DeployEffect(g, d);
    var deployed := g.Deploy(d).0;
    assert !g.IsLiveOn(id, d.nodeId);
    assert id !in g.Holds(d.nodeId);
    hide Grid.StoresExactlyLive;
    assert deployed.ContractsOnKnownNodes();
    CancelEffect(deployed, id);
    assert g.Holds(d.nodeId)[id := ToZos(d, d.nodeId).(contractId := id)] - {id} == g.Holds(d.nodeId);
  }

  // ---- The imperative stores and deployer ----

  class NodeState {
    var deployments: Store

    constructor ()
      ensures deployments == map[]
    {
      deployments := map[];
    }
  }

  /** A handle on a node's store; handles for one node share it. */
  class MockNodeClient {
    const nodeId: nat
    const state: NodeState

    constructor (nodeId: nat, state: NodeState)
      ensures this.nodeId == nodeId && this.state == state
    {
      this.nodeId, this.state := nodeId, state;
    }

    method DeploymentGet(id: nat) returns (r: Result<ZosDeployment>)
      ensures r.Ok? <==> id in state.deployments
      ensures r.Ok? ==> r.value == state.deployments[id]
    {
      if id in state.deployments { return Ok(state.deployments[id]); }
      return Err(NotFound("deployment " + Decimal(id)));
    }

    method DeploymentPut(z: ZosDeployment) returns (r: Result<()>)
      modifies state
      ensures r == if z.contractId == 0 then Err(Validation("contract id is required")) else Ok(())
      ensures state.deployments == if r.Ok? then With(old(state.deployments), z) else old(state.deployments)
    {
      if z.contractId == 0 { return Err(Validation("contract id is required")); }
      state.deployments := state.deployments[z.contractId := z];
      return Ok(());
    }

    method DeploymentDelete(id: nat) returns (r: Result<()>)
      modifies state
      ensures r == Ok(()) && state.deployments == old(state.deployments) - {id}
    {
      state.deployments := state.deployments - {id};
      return Ok(());
    }
  }

  class MockNodeClientGetter {
    var clients: map<nat, NodeState>

    /** No two nodes share a store. */
    ghost predicate Valid()
      reads this
    {
      forall m, n :: m in clients && n in clients && m != n ==> clients[m] != clients[n]
    }

    ghost function Stores(): map<nat, Store>
      reads this, clients.Values
    {
      map n | n in clients :: clients[n].deployments
    }

    constructor ()
      ensures Valid() && clients == map[]
    {
      clients := map[];
    }

    method EnsureNodeClient(node: nat) returns (client: MockNodeClient)
      requires Valid()
      modifies this
      ensures Valid() && node in clients && client.state == clients[node]
      ensures node in old(clients) ==> clients == old(clients)
      ensures node !in old(clients) ==> fresh(clients[node]) && clients == old(clients)[node := clients[node]]
      ensures Stores() == Opened(old(Stores()), node)
    {
      if node !in clients {
        var state := new NodeState();
        clients := clients[node := state];
      }
      client := new MockNodeClient(node, clients[node]);
    }

    method GetNodeClient(substrate: L.MockSubstrate, node: nat) returns (r: Result<MockNodeClient>)
      requires Valid()
      modifies this
      ensures Valid()
      ensures r.Ok? <==> node in substrate.State().nodes
      ensures r.Err? ==> clients == old(clients) && r.error == NotFound("node " + Decimal(node))
      ensures r.Ok? ==> node in clients && r.value.state == clients[node]
      ensures r.Ok? && node in old(clients) ==> clients == old(clients)
      ensures r.Ok? && node !in old(clients) ==> fresh(clients[node]) && clients == old(clients)[node := clients[node]]
      ensures r.Ok? ==> Stores() == Opened(old(Stores()), node)
    {
      var known := substrate.GetNode(node);
      if known.Err? { return Err(NotFound("node " + Decimal(node))); }
      var client := EnsureNodeClient(node);
      return Ok(client);
    }
  }

  lemma OpenedFirst(stores: map<nat, Store>, node: nat)
    ensures node in Opened(stores, node)
    ensures Opened(stores, node)[node := Opened(stores, node)[node]] == Opened(stores, node)
  {
  }

  class Deployer {
    const substrate: L.MockSubstrate
    const pool: MockNodeClientGetter

    ghost function State(): Grid
      reads substrate, pool, pool.clients.Values
    {
      Grid(substrate.State(), pool.Stores())
    }

    constructor (substrate: L.MockSubstrate, pool: MockNodeClientGetter)
      ensures this.substrate == substrate && this.pool == pool
    {
      this.substrate, this.pool := substrate, pool;
    }

    /** The last two steps of `deploy`: reach the node and upload. */
    method Upload(node: nat, z: ZosDeployment) returns (r: Result<()>)
      requires pool.Valid()
      modifies pool, pool.clients.Values
      ensures pool.Valid() && fresh(pool.clients.Values - old(pool.clients.Values))
      ensures r == if node !in substrate.State().nodes then Err(NotFound("node " + Decimal(node)))
                   else if z.contractId == 0 then Err(Validation("contract id is required")) else Ok(())
      ensures pool.Stores() == if node !in substrate.State().nodes then old(pool.Stores())
                               else if r.Ok? then Put(old(pool.Stores()), node, z)
                               else Opened(old(pool.Stores()), node)
    {
      hide L.MockSubstrate.State, Opened, With;
      var client := pool.GetNodeClient(substrate, node);
      if client.Err? {
        assert pool.Stores() == old(pool.Stores());
        return Err(client.error);
      }
      OpenedFirst(old(pool.Stores()), node);
      ghost var open := pool.Stores();
      r := client.value.DeploymentPut(z);
      assert pool.Stores() == open[node := client.value.state.deployments];
    }

    /** The last two steps of `cancel`: reach the node and drop the deployment. */
    method Erase(node: nat, id: nat) returns (r: Result<()>)
      requires pool.Valid()
      modifies pool, pool.clients.Values
      ensures pool.Valid() && fresh(pool.clients.Values - old(pool.clients.Values))
      ensures r == if node in substrate.State().nodes then Ok(()) else Err(NotFound("node " + Decimal(node)))
      ensures pool.Stores() == if r.Ok? then Delete(old(pool.Stores()), node, id) else old(pool.Stores())
    {
      hide L.MockSubstrate.State, Opened, With;
      var client := pool.GetNodeClient(substrate, node);
      if client.Err? {
        assert pool.Stores() == old(pool.Stores());
        return Err(client.error);
      }
      OpenedFirst(old(pool.Stores()), node);
      ghost var open := pool.Stores();
      r := client.value.DeploymentDelete(id);
      assert pool.Stores() == open[node := client.value.state.deployments];
    }

    method Deploy(d: Deployment) returns (r: Result<nat>)
      requires pool.Valid()
      modifies substrate, pool, pool.clients.Values
      ensures pool.Valid() && fresh(pool.clients.Values - old(pool.clients.Values))
      ensures (State(), r) == old(State()).Deploy(d)
    {
      hide ToZos, GenerateMetadata, RoundTrips.GetPublicIpCount, DeploymentHash, L.Ledger.Create, L.MockSubstrate.State;
      hide Put, Opened;
      L.CreateAnswers(substrate.State(), d.nodeId, GenerateMetadata(d), DeploymentHash(d),
                      RoundTrips.GetPublicIpCount(d.vms));
      var twin := substrate.GetNodeTwin(d.nodeId);
      if twin.Err? { return Err(NotFound("node twin " + Decimal(d.nodeId))); }
      var contract := substrate.CreateNodeContract(d.nodeId, GenerateMetadata(d), DeploymentHash(d),
                                                   RoundTrips.GetPublicIpCount(d.vms));
      assert pool.Stores() == old(pool.Stores());
      if contract.Err? { return contract; }
      var z := ToZos(d, twin.value);
      z := z.(contractId := contract.value);
      var put := Upload(d.nodeId, z);
      if put.Err? { return Err(put.error); }
      return contract;
    }

    method Cancel(id: nat) returns (r: Result<()>)
      requires pool.Valid()
      modifies substrate, pool, pool.clients.Values
      ensures pool.Valid() && fresh(pool.clients.Values - old(pool.clients.Values))
      ensures (State(), r) == old(State()).Cancel(id)
    {
      hide L.Ledger.Cancel, L.MockSubstrate.State, L.ContractType.NodeId, Delete;
      L.CancelAnswers(substrate.State(), id);
      r := substrate.CancelContract(id);
      assert pool.Stores() == old(pool.Stores());
      if r.Err? { return; }
      var contract := substrate.GetContract(id);
      var node := contract.value.contractType.NodeId();
      if node.Some? {
        var erased := Erase(node.value, id);
        if erased.Err? { return Err(erased.error); }
      }
    }

    method LoadNodeDeployment(node: nat, id: nat) returns (r: Result<ZosDeployment>)
      requires pool.Valid()
      modifies pool
      ensures pool.Valid()
      ensures r.Ok? <==> node in old(State()).ledger.nodes && old(State()).Load(node, id).Some?
      ensures r.Ok? ==> old(State()).Load(node, id) == Some(r.value)
      ensures forall n: nat :: State().Holds(n) == old(State()).Holds(n)
    {
      var client := pool.GetNodeClient(substrate, node);
      if client.Err? {
        assert pool.Stores() == old(pool.Stores());
        return Err(client.error);
      }
      assert State().Holds(node) == old(State()).Holds(node);
      assert pool.Stores()[node] == client.value.state.deployments;
      r := client.value.DeploymentGet(id);
    }
  }
}
