/** Rebuilding networks from per-node fragments (src/state.rs), visited in hash-map order. */
module Networks {
  import opened GridErrors
  import opened Text
  import opened KeyOrder

  const NETWORK_TYPE := "network"
  const NETWORK_LIGHT_TYPE := "network-light"

  datatype Access = Access(subnet: string, privateKey: string, nodeId: nat)

  datatype NetworkMetadata = NetworkMetadata(userAccesses: seq<Access>, userAccessIp: string, privateKey: string,
                                             publicNodeId: nat)
  {
    /** `normalized`: older metadata carries one access in flat fields. */
    function Accesses(): seq<Access> {
      if userAccesses == [] && userAccessIp != "" then [Access(userAccessIp, privateKey, publicNodeId)]
      else userAccesses
    }
  }

  datatype NetworkData = NetworkData(ipRange: string, subnet: string, wgPrivateKey: string, wgListenPort: nat,
                                     myceliumKey: seq<nat>)

  /** A workload whose data and metadata may fail to parse. */
  datatype NetworkWorkload = NetworkWorkload(kind: string, name: string, description: string, data: Result<NetworkData>,
                                             metadata: Result<NetworkMetadata>)

  /** A deployment on a node; its project name comes from its metadata or the chain, and may be missing. */
  datatype StoredDeployment = StoredDeployment(contractId: nat, project: Result<string>,
                                               workloads: seq<NetworkWorkload>)

  datatype View = View(deployments: nat -> Result<seq<StoredDeployment>>, endpoint: nat -> Result<string>,
                       isCidr: string -> bool, wgIp: string -> Option<string>,
                       wgConfig: (string, string, string, string, string) -> string)

  datatype ZNet = ZNet(name: string, description: string, nodes: seq<nat>, ipRange: string, addWgAccess: bool,
                       myceliumKeys: map<nat, seq<nat>>, solutionType: string, accessWgConfig: string,
                       externalIp: Option<string>, externalSk: string, publicNodeId: nat,
                       nodesIpRange: map<nat, string>, nodeDeploymentId: map<nat, nat>,
                       wgPort: map<nat, nat>, keys: map<nat, string>)

  // ---- One workload ----

  function Own<V>(node: nat, present: bool, value: V): map<nat, V> {
    if present then map[node := value] else map[]
  }

  function NetworkFromWorkload(view: View, w: NetworkWorkload, node: nat): Result<ZNet> {
    var data :- w.data;
    var metadata :- w.metadata;
    var accesses := metadata.Accesses();
    if !view.isCidr(data.ipRange) || !view.isCidr(data.subnet) then Err(Validation("invalid cidr"))
    else
      var wg := accesses != [] && accesses[0].subnet != "";
      Ok(ZNet(w.name, w.description, [node], data.ipRange, wg, Own(node, data.myceliumKey != [], data.myceliumKey),
              "", "", if wg then Some(accesses[0].subnet) else None,
              if accesses != [] then accesses[0].privateKey else "",
              if accesses != [] then accesses[0].nodeId else 0, map[node := data.subnet], map[],
              Own(node, data.wgListenPort > 0, data.wgListenPort),
              Own(node, data.wgPrivateKey != "", data.wgPrivateKey)))
  }

  /** The light form has no WireGuard side and no range of its own. */
  function NetworkLightFromWorkload(view: View, w: NetworkWorkload, node: nat): Result<ZNet> {
    var data :- w.data;
    var metadata :- w.metadata;
    var accesses := metadata.Accesses();
    if !view.isCidr(data.subnet) then Err(Validation("invalid cidr"))
    else Ok(ZNet(w.name, w.description, [node], "", false, Own(node, data.myceliumKey != [], data.myceliumKey),
                 "", "", None, "", if accesses != [] then accesses[0].nodeId else 0, map[node := data.subnet],
                 map[], map[], map[]))
  }

  function ReadNetwork(view: View, light: bool, w: NetworkWorkload, node: nat): Result<ZNet> {
    if light then NetworkLightFromWorkload(view, w, node) else NetworkFromWorkload(view, w, node)
  }

  predicate IsNetwork(w: NetworkWorkload, light: bool, name: string) {
    w.kind == (if light then NETWORK_LIGHT_TYPE else NETWORK_TYPE) && w.name == name
  }

  // ---- Collecting fragments ----

  /** What one deployment contributes: a fragment of the network, and the endpoint when its node is the
      public one. */
  datatype Found = Found(node: nat, contractId: nat, net: ZNet, endpoint: Option<string>)

  function FirstMatch(ws: seq<NetworkWorkload>, light: bool, name: string): Option<NetworkWorkload> {
    if ws == [] then None else if IsNetwork(ws[0], light, name) then Some(ws[0]) else FirstMatch(ws[1..], light, name)
  }

  function FromDeployment(view: View, light: bool, name: string, node: nat,
                          d: StoredDeployment): Result<Option<Found>> {
    var project :- d.project;
    match FirstMatch(d.workloads, light, name)
    case None => Ok(None)
    case Some(w) =>
      var net :- ReadNetwork(view, light, w, node);
      if !light && net.publicNodeId == node then
        var endpoint :- view.endpoint(node);
        Ok(Some(Found(node, d.contractId, net.(solutionType := project), Some(endpoint))))
      else Ok(Some(Found(node, d.contractId, net.(solutionType := project), None)))
  }

  function Push(found: seq<Found>, one: Option<Found>): seq<Found> {
    if one.Some? then found + [one.value] else found
  }

  function FromDeployments(view: View, light: bool, name: string, node: nat,
                           ds: seq<StoredDeployment>): Result<seq<Found>> {
    if ds == [] then Ok([])
    else
      var before :- FromDeployments(view, light, name, node, ds[..|ds| - 1]);
      var one :- FromDeployment(view, light, name, node, ds[|ds| - 1]);
      Ok(Push(before, one))
  }

  function FromNode(view: View, light: bool, name: string, node: nat): Result<seq<Found>> {
    var ds :- view.deployments(node);
    FromDeployments(view, light, name, node, ds)
  }

  function FromNodes(view: View, light: bool, name: string, order: seq<nat>): Result<seq<Found>> {
    if order == [] then Ok([])
    else
      var before :- FromNodes(view, light, name, order[..|order| - 1]);
      var here :- FromNode(view, light, name, order[|order| - 1]);
      Ok(before + here)
  }

  // ---- Folding fragments ----

  function Join(z: ZNet, net: ZNet): ZNet {
    z.(nodes := z.nodes + net.nodes, nodesIpRange := z.nodesIpRange + net.nodesIpRange,
       myceliumKeys := z.myceliumKeys + net.myceliumKeys, keys := z.keys + net.keys, wgPort := z.wgPort + net.wgPort,
       ipRange := if z.ipRange == "" then net.ipRange else z.ipRange)
  }

  function MergeAll(found: seq<Found>): ZNet
    requires found != []
  {
    if |found| == 1 then found[0].net else Join(MergeAll(found[..|found| - 1]), found[|found| - 1].net)
  }

  function Deployments(found: seq<Found>): map<nat, nat> {
    if found == [] then map[]
    else Deployments(found[..|found| - 1])[found[|found| - 1].node := found[|found| - 1].contractId]
  }

  function PublicEndpoint(found: seq<Found>): string {
    if found == [] then ""
    else
      var last := found[|found| - 1];
      if last.endpoint.Some? then last.endpoint.value else PublicEndpoint(found[..|found| - 1])
  }

  predicate GivesAccess(view: View, z: ZNet, endpoint: string) {
    z.addWgAccess && endpoint != "" && z.externalIp.Some? && view.wgIp(z.externalIp.value).Some?
  }

  function Finish(view: View, z: ZNet, endpoint: string): Result<ZNet> {
    if !GivesAccess(view, z, endpoint) then Ok(z)
    else if z.publicNodeId !in z.wgPort || z.wgPort[z.publicNodeId] == 0 then Err(Validation("missing wireguard port"))
    else
      var peer := if z.publicNodeId in z.keys then z.keys[z.publicNodeId] else "";
      var wgIp := view.wgIp(z.externalIp.value).value;
      var address := endpoint + ":" + Decimal(z.wgPort[z.publicNodeId]);
      Ok(z.(accessWgConfig := view.wgConfig(wgIp, z.externalSk, peer, address, z.ipRange)))
  }

  function Rebuild(view: View, found: seq<Found>): Result<ZNet> {
    if found == [] then Err(NotFound("failed to get network"))
    else Finish(view, MergeAll(found).(nodeDeploymentId := Deployments(found)), PublicEndpoint(found))
  }

  function Load(view: View, light: bool, name: string, order: seq<nat>): Result<ZNet> {
    var found :- FromNodes(view, light, name, order);
    Rebuild(view, found)
  }

  // ---- Membership in what was collected ----

  lemma {:induction false} DeploymentsMembers(view: View, light: bool, name: string, node: nat,
                                              ds: seq<StoredDeployment>)
    ensures FromDeployments(view, light, name, node, ds).Ok?
       <==> forall d :: d in ds ==> FromDeployment(view, light, name, node, d).Ok?
    ensures FromDeployments(view, light, name, node, ds).Ok? ==>
              forall f :: f in FromDeployments(view, light, name, node, ds).value
                     <==> exists d :: d in ds && FromDeployment(view, light, name, node, d) == Ok(Some(f))
    decreases |ds|
  {
    hide FromDeployment;
    if ds != [] {
      var last := ds[|ds| - 1];
      DeploymentsMembers(view, light, name, node, ds[..|ds| - 1]);
      assert forall d :: d in ds <==> d in ds[..|ds| - 1] || d == last;
    }
  }

  lemma {:induction false} NodesMembers(view: View, light: bool, name: string, order: seq<nat>)
    ensures FromNodes(view, light, name, order).Ok? <==> forall n :: n in order ==> FromNode(view, light, name, n).Ok?
    ensures FromNodes(view, light, name, order).Ok? ==>
              forall f :: f in FromNodes(view, light, name, order).value
                     <==> exists n :: n in order && f in FromNode(view, light, name, n).value
    decreases |order|
  {
    hide FromNode;
    if order != [] {
      var last := order[|order| - 1];
      NodesMembers(view, light, name, order[..|order| - 1]);
      assert forall n :: n in order <==> n in order[..|order| - 1] || n == last;
    }
  }

  /** A fragment speaks of its own node only. */
  predicate OwnOnly(f: Found) {
    && f.net.nodes == [f.node] && f.net.nodesIpRange.Keys == {f.node}
    && f.net.keys.Keys <= {f.node} && f.net.wgPort.Keys <= {f.node} && f.net.myceliumKeys.Keys <= {f.node}
    && (f.endpoint.Some? ==> f.net.publicNodeId == f.node) && f.net.accessWgConfig == ""
    && forall n :: n in f.net.wgPort ==> f.net.wgPort[n] > 0
  }

  lemma FragmentsAreOwn(view: View, light: bool, name: string, node: nat, d: StoredDeployment)
    ensures var r := FromDeployment(view, light, name, node, d);
            r.Ok? && r.value.Some? ==> r.value.value.node == node && OwnOnly(r.value.value)
  {
  }

  lemma NodeFragmentsAreOwn(view: View, light: bool, name: string, node: nat)
    ensures var r := FromNode(view, light, name, node);
            r.Ok? ==> forall f :: f in r.value ==> f.node == node && OwnOnly(f)
  {
    hide FromDeployment, OwnOnly, FromDeployments;
    var r := FromNode(view, light, name, node);
    if r.Ok? {
      DeploymentsMembers(view, light, name, node, view.deployments(node).value);
      forall f | f in r.value ensures f.node == node && OwnOnly(f) {
        var d :| FromDeployment(view, light, name, node, d) == Ok(Some(f));
        FragmentsAreOwn(view, light, name, node, d);
      }
    }
  }

  /** At most one matching workload per node. */
  ghost predicate OnePerNode(view: View, light: bool, name: string, order: seq<nat>) {
    forall n :: n in order && FromNode(view, light, name, n).Ok? ==> |FromNode(view, light, name, n).value| <= 1
  }

  ghost predicate OwnAndApart(found: seq<Found>) {
    && (forall f :: f in found ==> OwnOnly(f))
    && forall i, j :: 0 <= i < j < |found| ==> found[i].node != found[j].node
  }

  lemma {:induction false} CollectedAreApart(view: View, light: bool, name: string, order: seq<nat>)
    requires Distinct(order) && OnePerNode(view, light, name, order) && FromNodes(view, light, name, order).Ok?
    ensures OwnAndApart(FromNodes(view, light, name, order).value)
    decreases |order|
  {
    hide FromNode, OwnOnly;
    if order != [] {
      var before, last := order[..|order| - 1], order[|order| - 1];
      assert OnePerNode(view, light, name, before);
      CollectedAreApart(view, light, name, before);
      NodesMembers(view, light, name, before);
      NodeFragmentsAreOwn(view, light, name, last);
      var earlier, here := FromNodes(view, light, name, before).value, FromNode(view, light, name, last).value;
      forall f | f in earlier ensures f.node != last {
        var n :| n in before && f in FromNode(view, light, name, n).value;
        NodeFragmentsAreOwn(view, light, name, n);
      }
      assert forall i :: 0 <= i < |earlier| ==> earlier[i] in earlier;
      assert forall i :: 0 <= i < |here| ==> here[i] in here;
    }
  }

  // ---- Unions of per-node maps ----

  function Union<V>(found: seq<Found>, part: Found -> map<nat, V>): map<nat, V> {
    if found == [] then map[] else Union(found[..|found| - 1], part) + part(found[|found| - 1])
  }

  ghost predicate PartsOwn<V>(found: seq<Found>, part: Found -> map<nat, V>) {
    forall f :: f in found ==> part(f).Keys <= {f.node}
  }

  lemma {:induction false} UnionByNode<V>(found: seq<Found>, part: Found -> map<nat, V>)
    requires PartsOwn(found, part) && forall i, j :: 0 <= i < j < |found| ==> found[i].node != found[j].node
    ensures forall n :: n in Union(found, part) <==> exists f :: f in found && n in part(f)
    ensures forall f, n :: f in found && n in part(f) ==> n in Union(found, part) && Union(found, part)[n] == part(f)[n]
    decreases |found|
  {
    if found != [] {
      var before, last := found[..|found| - 1], found[|found| - 1];
      UnionByNode(before, part);
      assert Union(found, part) == Union(before, part) + part(last);
      hide Union;
      AnyOf(before, last, found);
    }
  }

  lemma AnyOf(before: seq<Found>, last: Found, found: seq<Found>)
    requires found == before + [last]
    ensures forall f :: f in found <==> f in before || f == last
    ensures (forall i, j :: 0 <= i < j < |found| ==> found[i].node != found[j].node) ==>
              forall f :: f in before ==> f.node != last.node
  {
    if forall i, j :: 0 <= i < j < |found| ==> found[i].node != found[j].node {
      forall f | f in before ensures f.node != last.node {
        var i :| 0 <= i < |before| && before[i] == f;
        assert found[i] == f && found[|before|] == last;
      }
    }
  }

  /** The same fragments in any order have the same union. */
  lemma UnionIsConfluent<V>(a: seq<Found>, b: seq<Found>, part: Found -> map<nat, V>)
    requires forall f :: f in a <==> f in b
    requires PartsOwn(a, part) && (forall i, j :: 0 <= i < j < |a| ==> a[i].node != a[j].node)
    requires forall i, j :: 0 <= i < j < |b| ==> b[i].node != b[j].node
    ensures Union(a, part) == Union(b, part)
  {
    UnionByNode(a, part);
    UnionByNode(b, part);
    hide Union;
    forall n ensures n in Union(a, part) <==> n in Union(b, part) {}
  }

  function IpRangeOf(f: Found): map<nat, string> { f.net.nodesIpRange }
  function MyceliumOf(f: Found): map<nat, seq<nat>> { f.net.myceliumKeys }
  function KeysOf(f: Found): map<nat, string> { f.net.keys }
  function PortOf(f: Found): map<nat, nat> { f.net.wgPort }
  function ContractOf(f: Found): map<nat, nat> { map[f.node := f.contractId] }

  lemma {:induction false} MergeIsUnion(found: seq<Found>)
    requires found != []
    ensures var z := MergeAll(found);
            && z.nodesIpRange == Union(found, IpRangeOf) && z.myceliumKeys == Union(found, MyceliumOf)
            && z.keys == Union(found, KeysOf) && z.wgPort == Union(found, PortOf)
    decreases |found|
  {
    if |found| > 1 {
      MergeIsUnion(found[..|found| - 1]);
      assert MergeAll(found) == Join(MergeAll(found[..|found| - 1]), found[|found| - 1].net);
      hide MergeAll;
    } else {
      assert found[..0] == [];
    }
  }

  lemma {:induction false} DeploymentsIsUnion(found: seq<Found>)
    ensures Deployments(found) == Union(found, ContractOf)
    decreases |found|
  {
    if found != [] { DeploymentsIsUnion(found[..|found| - 1]); }
  }

  lemma {:induction false} MergedNodes(found: seq<Found>)
    requires found != [] && OwnAndApart(found)
    ensures var z := MergeAll(found);
            && |z.nodes| == |found| && forall i :: 0 <= i < |found| ==> z.nodes[i] == found[i].node
    decreases |found|
  {
    var last := found[|found| - 1];
    assert last in found;
    if |found| > 1 {
      MergedNodes(found[..|found| - 1]);
    }
  }

  lemma PartsAreOwn(found: seq<Found>)
    requires OwnAndApart(found)
    ensures PartsOwn(found, IpRangeOf) && PartsOwn(found, MyceliumOf) && PartsOwn(found, KeysOf)
    ensures PartsOwn(found, PortOf) && PartsOwn(found, ContractOf)
    ensures forall f :: f in found ==> f.node in IpRangeOf(f)
    ensures forall i, j :: 0 <= i < j < |found| ==> found[i].node != found[j].node
  {
  }

  /** The rebuilt network lists exactly the nodes it has a subnet and a deployment for, each once. */
  lemma NodesAreExact(found: seq<Found>)
    requires found != [] && OwnAndApart(found)
    ensures var z := MergeAll(found);
            && Distinct(z.nodes)
            && (forall n :: n in z.nodes <==> n in z.nodesIpRange)
            && (forall n :: n in z.nodes <==> n in Deployments(found))
            && z.keys.Keys <= Elements(z.nodes) && z.wgPort.Keys <= Elements(z.nodes)
            && z.myceliumKeys.Keys <= Elements(z.nodes)
  {
    MergedNodes(found);
    PartsAreOwn(found);
    hide OwnAndApart;
    MergeIsUnion(found);
    DeploymentsIsUnion(found);
    UnionByNode(found, IpRangeOf);
    UnionByNode(found, ContractOf);
    UnionByNode(found, KeysOf);
    UnionByNode(found, PortOf);
    UnionByNode(found, MyceliumOf);
    hide Union, MergeAll, Deployments, IpRangeOf, KeysOf, PortOf, MyceliumOf;
    var z := MergeAll(found);
    forall n ensures n in z.nodes <==> exists f :: f in found && f.node == n {
      if n in z.nodes {
        var i :| 0 <= i < |z.nodes| && z.nodes[i] == n;
        assert found[i] in found;
      }
    }
  }

  /** So does every network that loads. */
  lemma LoadedNodesAreExact(view: View, light: bool, name: string, order: seq<nat>)
    requires Distinct(order) && OnePerNode(view, light, name, order) && Load(view, light, name, order).Ok?
    ensures var z := Load(view, light, name, order).value;
            && z.nodes != [] && Distinct(z.nodes)
            && Elements(z.nodes) == z.nodesIpRange.Keys == z.nodeDeploymentId.Keys
  {
    hide FromNodes, OnePerNode, OwnAndApart, Elements, MergeAll, Deployments;
    var found := FromNodes(view, light, name, order).value;
    CollectedAreApart(view, light, name, order);
    NodesAreExact(found);
    MergedNodes(found);
    SameElements(MergeAll(found).nodes, MergeAll(found).nodesIpRange.Keys);
    SameElements(MergeAll(found).nodes, Deployments(found).Keys);
  }

  lemma SameElements(s: seq<nat>, keys: set<nat>)
    requires forall n :: n in s <==> n in keys
    ensures Elements(s) == keys
  {
  }

  /** Two complete listings of the same nodes and deployments, in any two orders. */
  ghost predicate SameGrid(a: View, b: View, keys: set<nat>) {
    && a.endpoint == b.endpoint && a.isCidr == b.isCidr && a.wgIp == b.wgIp && a.wgConfig == b.wgConfig
    && forall n :: n in keys ==> SameListing(a.deployments(n), b.deployments(n))
  }

  predicate SameListing(a: Result<seq<StoredDeployment>>, b: Result<seq<StoredDeployment>>) {
    (a.Ok? <==> b.Ok?) && (a.Ok? ==> multiset(a.value) == multiset(b.value))
  }

  lemma FromDeploymentIgnoresListings(a: View, b: View, light: bool, name: string, node: nat, d: StoredDeployment)
    requires a.endpoint == b.endpoint && a.isCidr == b.isCidr
    ensures FromDeployment(a, light, name, node, d) == FromDeployment(b, light, name, node, d)
  {
  }

  lemma NodeIsConfluent(a: View, b: View, light: bool, name: string, node: nat)
    requires a.endpoint == b.endpoint && a.isCidr == b.isCidr && SameListing(a.deployments(node), b.deployments(node))
    ensures var (x, y) := (FromNode(a, light, name, node), FromNode(b, light, name, node));
            (x.Ok? <==> y.Ok?) && (x.Ok? ==> forall f :: f in x.value <==> f in y.value)
  {
    hide FromDeployment, FromDeployments;
    if a.deployments(node).Ok? {
      var ds, es := a.deployments(node).value, b.deployments(node).value;
      SameItems(ds, es);
      DeploymentsMembers(a, light, name, node, ds);
      DeploymentsMembers(b, light, name, node, es);
      forall d ensures FromDeployment(a, light, name, node, d) == FromDeployment(b, light, name, node, d) {
        FromDeploymentIgnoresListings(a, b, light, name, node, d);
      }
    }
  }

  lemma CollectionIsConfluent(a: View, b: View, light: bool, name: string, o: seq<nat>, p: seq<nat>)
    requires Elements(o) == Elements(p) && SameGrid(a, b, Elements(o))
    ensures var (x, y) := (FromNodes(a, light, name, o), FromNodes(b, light, name, p));
            (x.Ok? <==> y.Ok?) && (x.Ok? ==> forall f :: f in x.value <==> f in y.value)
  {
    hide FromNode, SameListing;
    NodesMembers(a, light, name, o);
    NodesMembers(b, light, name, p);
    assert forall n :: n in o <==> n in Elements(o);
    assert forall n :: n in p <==> n in Elements(p);
    forall n | n in o
      ensures FromNode(a, light, name, n).Ok? <==> FromNode(b, light, name, n).Ok?
      ensures FromNode(a, light, name, n).Ok? ==>
                forall f :: f in FromNode(a, light, name, n).value <==> f in FromNode(b, light, name, n).value
    {
      NodeIsConfluent(a, b, light, name, n);
    }
  }

  /** Everything about a rebuilt network but its header and the order of its nodes. */
  ghost predicate SameParts(a: ZNet, b: ZNet) {
    && multiset(a.nodes) == multiset(b.nodes) && a.nodesIpRange == b.nodesIpRange && a.myceliumKeys == b.myceliumKeys
    && a.keys == b.keys && a.wgPort == b.wgPort
  }

  lemma DistinctSameItems(a: seq<nat>, b: seq<nat>)
    requires Distinct(a) && Distinct(b) && forall n :: n in a <==> n in b
    ensures multiset(a) == multiset(b)
  {
    forall n ensures multiset(a)[n] == multiset(b)[n] {
      DistinctCount(a, n);
      DistinctCount(b, n);
    }
  }

  lemma {:induction false} DistinctCount(a: seq<nat>, n: nat)
    requires Distinct(a)
    ensures multiset(a)[n] == if n in a then 1 else 0
  {
    if a != [] {
      DistinctCount(a[1..], n);
      assert a == [a[0]] + a[1..];
    }
  }

  lemma MergeIsConfluent(found: seq<Found>, other: seq<Found>)
    requires found != [] && OwnAndApart(found) && OwnAndApart(other) && forall f :: f in found <==> f in other
    ensures other != [] && SameParts(MergeAll(found), MergeAll(other)) && Deployments(found) == Deployments(other)
  {
    assert found[0] in other;
    MergeIsUnion(found);
    MergeIsUnion(other);
    DeploymentsIsUnion(found);
    DeploymentsIsUnion(other);
    UnionIsConfluent(found, other, IpRangeOf);
    UnionIsConfluent(found, other, MyceliumOf);
    UnionIsConfluent(found, other, KeysOf);
    UnionIsConfluent(found, other, PortOf);
    UnionIsConfluent(found, other, ContractOf);
    NodesAreExact(found);
    NodesAreExact(other);
    hide Union, MergeAll, Deployments;
    DistinctSameItems(MergeAll(found).nodes, MergeAll(other).nodes);
  }

  /** Rebuilding is confluent: any two visiting orders of nodes and deployments collect from the same
      grid or fail together, and agree on everything keyed by node. */
  lemma RebuildingIsConfluent(a: View, b: View, light: bool, name: string, o: seq<nat>, p: seq<nat>)
    requires Distinct(o) && Distinct(p) && Elements(o) == Elements(p) && SameGrid(a, b, Elements(o))
    requires OnePerNode(a, light, name, o) && OnePerNode(b, light, name, p)
    ensures var (x, y) := (FromNodes(a, light, name, o), FromNodes(b, light, name, p));
            && (x.Ok? <==> y.Ok?)
            && (x.Ok? ==> (x.value == [] <==> y.value == []))
            && (x.Ok? && x.value != [] ==>
                  SameParts(MergeAll(x.value), MergeAll(y.value)) && Deployments(x.value) == Deployments(y.value))
  {
    hide FromNodes, OnePerNode, OwnAndApart, SameGrid, SameParts;
    CollectionIsConfluent(a, b, light, name, o, p);
    var x, y := FromNodes(a, light, name, o), FromNodes(b, light, name, p);
    if x.Ok? {
      CollectedAreApart(a, light, name, o);
      CollectedAreApart(b, light, name, p);
      if x.value != [] { MergeIsConfluent(x.value, y.value); }
      if y.value != [] { assert y.value[0] in x.value; }
    }
  }
}
