/** What a loaded network says, in terms of the workloads the nodes store. */
module Fragments {
  import opened GridErrors
  import opened Text
  import opened KeyOrder
  import opened Networks

  // ---- The stored workloads ----

  predicate IsOf(w: NetworkWorkload, light: bool, name: string) {
    w.name == name && if light then w.kind == "network-light" else w.kind == "network"
  }

  /** `w` is the first workload of the network in the list. */
  ghost predicate FirstOf(ws: seq<NetworkWorkload>, light: bool, name: string, w: NetworkWorkload) {
    exists i: nat :: FirstOfAt(ws, light, name, w, i)
  }

  predicate FirstOfAt(ws: seq<NetworkWorkload>, light: bool, name: string, w: NetworkWorkload, i: nat) {
    i < |ws| && ws[i] == w && IsOf(w, light, name) && forall j :: 0 <= j < i ==> !IsOf(ws[j], light, name)
  }

  /** The node stores the network: deployment `d` holds its workload `w`. */
  ghost predicate Stores(view: View, light: bool, name: string, n: nat, d: StoredDeployment, w: NetworkWorkload) {
    view.deployments(n).Ok? && d in view.deployments(n).value && FirstOf(d.workloads, light, name, w)
  }

  ghost predicate StoresAny(view: View, light: bool, name: string, n: nat) {
    exists d, w :: Stores(view, light, name, n, d, w)
  }

  ghost predicate HasMatch(d: StoredDeployment, light: bool, name: string) {
    exists w :: w in d.workloads && IsOf(w, light, name)
  }

  /** At most one deployment of each node holds a workload of the network. */
  ghost predicate OneEach(view: View, light: bool, name: string, order: seq<nat>) {
    forall n, i, j :: n in order && view.deployments(n).Ok? && 0 <= i < j < |view.deployments(n).value| ==>
      !(HasMatch(view.deployments(n).value[i], light, name) && HasMatch(view.deployments(n).value[j], light, name))
  }

  lemma LaterIsFirstOf(ws: seq<NetworkWorkload>, light: bool, name: string, w: NetworkWorkload, i: nat)
    requires ws != [] && !IsOf(ws[0], light, name)
    ensures FirstOfAt(ws, light, name, w, i + 1) <==> FirstOfAt(ws[1..], light, name, w, i)
  {
    assert forall j :: 0 <= j < |ws| - 1 ==> ws[1..][j] == ws[j + 1];
    if FirstOfAt(ws[1..], light, name, w, i) {
      forall j | 0 <= j < i + 1 ensures !IsOf(ws[j], light, name) { if j > 0 { assert ws[j] == ws[1..][j - 1]; } }
    }
  }

  lemma NotFirstOf(ws: seq<NetworkWorkload>, light: bool, name: string, w: NetworkWorkload, i: nat)
    requires FirstOfAt(ws, light, name, w, i) && !IsOf(ws[0], light, name)
    ensures i > 0
  {
  }

  lemma {:induction false} FirstMatchIs(ws: seq<NetworkWorkload>, light: bool, name: string, w: NetworkWorkload)
    ensures FirstMatch(ws, light, name) == Some(w) <==> FirstOf(ws, light, name, w)
  {
    if ws != [] {
      assert IsNetwork(ws[0], light, name) <==> IsOf(ws[0], light, name);
      if IsOf(ws[0], light, name) {
        assert ws[0] == w ==> FirstOfAt(ws, light, name, w, 0);
      } else {
        FirstMatchIs(ws[1..], light, name, w);
        hide FirstOfAt, IsOf, IsNetwork;
        if i: nat :| FirstOfAt(ws, light, name, w, i) {
          NotFirstOf(ws, light, name, w, i);
          LaterIsFirstOf(ws, light, name, w, i - 1);
        }
        if i: nat :| FirstOfAt(ws[1..], light, name, w, i) { LaterIsFirstOf(ws, light, name, w, i); }
      }
    }
  }

  // ---- One fragment ----

  /** The access that counts: the first one listed, or that of older metadata's flat fields. */
  function FirstAccess(m: NetworkMetadata): Option<Access> {
    if m.userAccesses != [] then Some(m.userAccesses[0])
    else if m.userAccessIp != "" then Some(Access(m.userAccessIp, m.privateKey, m.publicNodeId))
    else None
  }

  /** The map speaks of one node: it holds the value there when that is given, and is empty otherwise. */
  predicate OnlyAt<V(==)>(m: map<nat, V>, n: nat, given: bool, value: V) {
    if given then m.Keys == {n} && m[n] == value else m == map[]
  }

  /** A fragment is what the stored workload says; the WireGuard side exists in full networks only. */
  predicate Says(view: View, light: bool, n: nat, d: StoredDeployment, w: NetworkWorkload, f: Found)
    requires w.data.Ok? && w.metadata.Ok? && d.project.Ok?
  {
    var data, access, net := w.data.value, FirstAccess(w.metadata.value), f.net;
    && f.node == n && f.contractId == d.contractId && net.nodes == [n] && net.nodeDeploymentId == map[]
    && OnlyAt(net.nodesIpRange, n, true, data.subnet)
    && OnlyAt(net.myceliumKeys, n, data.myceliumKey != [], data.myceliumKey)
    && OnlyAt(net.keys, n, !light && data.wgPrivateKey != "", data.wgPrivateKey)
    && OnlyAt(net.wgPort, n, !light && data.wgListenPort > 0, data.wgListenPort)
    && SaysHeader(light, d.project.value, w, net) && net.ipRange == (if light then "" else data.ipRange)
    && f.endpoint == if !light && net.publicNodeId == n && view.endpoint(n).Ok? then Some(view.endpoint(n).value)
                     else None
  }

  /** The header: name, description and project, the public node, and who has access with which key. */
  predicate SaysHeader(light: bool, project: string, w: NetworkWorkload, net: ZNet)
    requires w.metadata.Ok?
  {
    var access := FirstAccess(w.metadata.value);
    && net.name == w.name && net.description == w.description && net.solutionType == project
    && net.publicNodeId == (if access.Some? then access.value.nodeId else 0)
    && net.addWgAccess == (!light && access.Some? && access.value.subnet != "")
    && net.externalIp == (if net.addWgAccess then Some(access.value.subnet) else None)
    && net.externalSk == (if !light && access.Some? then access.value.privateKey else "")
  }

  lemma FirstAccessIs(m: NetworkMetadata)
    ensures m.Accesses() == [] <==> FirstAccess(m).None?
    ensures FirstAccess(m).Some? ==> m.Accesses()[0] == FirstAccess(m).value
  {
  }

  lemma ReadSays(view: View, light: bool, n: nat, w: NetworkWorkload)
    requires ReadNetwork(view, light, w, n).Ok?
    ensures w.data.Ok? && w.metadata.Ok?
    ensures var data, net := w.data.value, ReadNetwork(view, light, w, n).value;
            && net.nodes == [n] && net.nodeDeploymentId == map[] && net.ipRange == (if light then "" else data.ipRange)
            && OnlyAt(net.nodesIpRange, n, true, data.subnet)
            && OnlyAt(net.myceliumKeys, n, data.myceliumKey != [], data.myceliumKey)
            && OnlyAt(net.keys, n, !light && data.wgPrivateKey != "", data.wgPrivateKey)
            && OnlyAt(net.wgPort, n, !light && data.wgListenPort > 0, data.wgListenPort)
            && SaysHeader(light, net.solutionType, w, net)
  {
    FirstAccessIs(w.metadata.value);
    hide FirstAccess, NetworkMetadata.Accesses;
  }

  lemma FragmentSaysWhatIsStored(view: View, light: bool, name: string, n: nat, d: StoredDeployment)
    requires FromDeployment(view, light, name, n, d).Ok?
    ensures FromDeployment(view, light, name, n, d).value.Some? <==> exists w :: FirstOf(d.workloads, light, name, w)
    ensures forall w :: FirstOf(d.workloads, light, name, w) ==>
              && w.data.Ok? && w.metadata.Ok? && d.project.Ok?
              && Says(view, light, n, d, w, FromDeployment(view, light, name, n, d).value.value)
  {
    forall w ensures FirstMatch(d.workloads, light, name) == Some(w) <==> FirstOf(d.workloads, light, name, w) {
      FirstMatchIs(d.workloads, light, name, w);
    }
    hide FirstOf, FirstMatch, ReadNetwork;
    if w :| FirstOf(d.workloads, light, name, w) {
      ReadSays(view, light, n, w);
      hide FirstAccess, OnlyAt;
    }
  }

  // ---- The loaded network ----

  lemma {:induction false} OneMatchOneFragment(view: View, light: bool, name: string, n: nat, ds: seq<StoredDeployment>)
    requires FromDeployments(view, light, name, n, ds).Ok?
    requires forall i, j :: 0 <= i < j < |ds| ==> !(HasMatch(ds[i], light, name) && HasMatch(ds[j], light, name))
    ensures |FromDeployments(view, light, name, n, ds).value| <= 1
    ensures (forall d :: d in ds ==> !HasMatch(d, light, name)) ==>
              FromDeployments(view, light, name, n, ds).value == []
    decreases |ds|
  {
    hide FromDeployment, HasMatch;
    if ds != [] {
      var before, last := ds[..|ds| - 1], ds[|ds| - 1];
      OneMatchOneFragment(view, light, name, n, before);
      MatchOrNothing(view, light, name, n, last);
      if HasMatch(last, light, name) {
        forall d | d in before ensures !HasMatch(d, light, name) {
          var i :| 0 <= i < |before| && before[i] == d;
          assert ds[i] == d;
        }
      }
    }
  }

  lemma MatchOrNothing(view: View, light: bool, name: string, n: nat, d: StoredDeployment)
    requires FromDeployment(view, light, name, n, d).Ok?
    ensures FromDeployment(view, light, name, n, d).value.Some? <==> HasMatch(d, light, name)
  {
    FragmentSaysWhatIsStored(view, light, name, n, d);
    hide FromDeployment;
    if w :| FirstOf(d.workloads, light, name, w) {
      var i: nat :| FirstOfAt(d.workloads, light, name, w, i);
      assert w in d.workloads;
    }
    if HasMatch(d, light, name) { var w := FirstExists(d.workloads, light, name); }
  }

  lemma {:induction false} FirstExists(ws: seq<NetworkWorkload>, light: bool, name: string) returns (w: NetworkWorkload)
    requires exists v :: v in ws && IsOf(v, light, name)
    ensures FirstOf(ws, light, name, w)
  {
    if IsOf(ws[0], light, name) {
      w := ws[0];
      assert FirstOfAt(ws, light, name, w, 0);
    } else {
      w := FirstExists(ws[1..], light, name);
      var i: nat :| FirstOfAt(ws[1..], light, name, w, i);
      LaterIsFirstOf(ws, light, name, w, i);
    }
  }

  lemma OneEachIsOnePerNode(view: View, light: bool, name: string, order: seq<nat>)
    requires OneEach(view, light, name, order)
    ensures OnePerNode(view, light, name, order)
  {
    hide HasMatch, FromDeployments;
    forall n | n in order && FromNode(view, light, name, n).Ok?
      ensures |FromNode(view, light, name, n).value| <= 1
    {
      OneMatchOneFragment(view, light, name, n, view.deployments(n).value);
    }
  }

  /** What is stored on a visited node was collected, and nothing else. */
  lemma StoredIsCollected(view: View, light: bool, name: string, order: seq<nat>, n: nat, d: StoredDeployment,
                          w: NetworkWorkload) returns (f: Found)
    requires FromNodes(view, light, name, order).Ok? && n in order && Stores(view, light, name, n, d, w)
    ensures f in FromNodes(view, light, name, order).value
    ensures w.data.Ok? && w.metadata.Ok? && d.project.Ok? && Says(view, light, n, d, w, f)
  {
    NodesMembers(view, light, name, order);
    hide FromNodes;
    var ds := view.deployments(n).value;
    assert FromNode(view, light, name, n) == FromDeployments(view, light, name, n, ds);
    DeploymentsMembers(view, light, name, n, ds);
    hide FromDeployments, FromDeployment, Says, FirstOf;
    assert FromDeployment(view, light, name, n, d).Ok?;
    FragmentSaysWhatIsStored(view, light, name, n, d);
    f := FromDeployment(view, light, name, n, d).value.value;
    assert FromDeployment(view, light, name, n, d) == Ok(Some(f));
  }

  lemma CollectedIsStored(view: View, light: bool, name: string, order: seq<nat>, f: Found)
    requires FromNodes(view, light, name, order).Ok? && f in FromNodes(view, light, name, order).value
    ensures f.node in order && StoresAny(view, light, name, f.node)
  {
    NodesMembers(view, light, name, order);
    hide FromNodes;
    var n :| n in order && f in FromNode(view, light, name, n).value;
    NodeFragmentsAreOwn(view, light, name, n);
    var ds := view.deployments(n).value;
    DeploymentsMembers(view, light, name, n, ds);
    hide FromDeployments, FromDeployment, FirstOf, OwnOnly;
    var d :| d in ds && FromDeployment(view, light, name, n, d) == Ok(Some(f));
    FragmentSaysWhatIsStored(view, light, name, n, d);
    var w :| FirstOf(d.workloads, light, name, w);
    assert Stores(view, light, name, n, d, w);
  }

  /** The entry of a node: the value when given, and none otherwise. */
  predicate EntryIs<V(==)>(m: map<nat, V>, n: nat, given: bool, value: V) {
    (n in m <==> given) && (given ==> m[n] == value)
  }

  lemma EntryOfUnion<V>(found: seq<Found>, part: Found -> map<nat, V>, f: Found, given: bool, value: V)
    requires PartsOwn(found, part) && forall i, j :: 0 <= i < j < |found| ==> found[i].node != found[j].node
    requires f in found && OnlyAt(part(f), f.node, given, value)
    ensures EntryIs(Union(found, part), f.node, given, value)
  {
    UnionByNode(found, part);
    hide Union;
    if g :| g in found && f.node in part(g) {
      assert g.node == f.node;
      SameNodeSame(found, f, g);
    }
  }

  lemma SameNodeSame(found: seq<Found>, f: Found, g: Found)
    requires forall i, j :: 0 <= i < j < |found| ==> found[i].node != found[j].node
    requires f in found && g in found && f.node == g.node
    ensures f == g
  {
    var i :| 0 <= i < |found| && found[i] == f;
    var j :| 0 <= j < |found| && found[j] == g;
    assert i == j;
  }

  lemma ContractEntry(f: Found)
    ensures OnlyAt(ContractOf(f), f.node, true, f.contractId)
  {
  }

  /** A loaded network says of each node what that node stores: its subnet, its keys and port where it has
      them, and the contract of the deployment that holds it. */
  lemma LoadedNetworkIsStored(view: View, light: bool, name: string, order: seq<nat>, n: nat, d: StoredDeployment,
                              w: NetworkWorkload)
    requires Distinct(order) && OneEach(view, light, name, order) && Load(view, light, name, order).Ok?
    requires n in order && Stores(view, light, name, n, d, w)
    ensures w.data.Ok?
    ensures var z, data := Load(view, light, name, order).value, w.data.value;
            && EntryIs(z.nodesIpRange, n, true, data.subnet)
            && EntryIs(z.nodeDeploymentId, n, true, d.contractId)
            && EntryIs(z.keys, n, !light && data.wgPrivateKey != "", data.wgPrivateKey)
            && EntryIs(z.wgPort, n, !light && data.wgListenPort > 0, data.wgListenPort)
            && EntryIs(z.myceliumKeys, n, data.myceliumKey != [], data.myceliumKey)
  {
    hide OneEach, OnePerNode, FromNodes, OwnAndApart, Stores, EntryIs, OnlyAt, Union, MergeAll, Deployments;
    var found := FromNodes(view, light, name, order).value;
    var f := StoredIsCollected(view, light, name, order, n, d, w);
    OneEachIsOnePerNode(view, light, name, order);
    CollectedAreApart(view, light, name, order);
    PartsAreOwn(found);
    MergeIsUnion(found);
    DeploymentsIsUnion(found);
    var data := w.data.value;
    EntryOfUnion(found, IpRangeOf, f, true, data.subnet);
    ContractEntry(f);
    EntryOfUnion(found, ContractOf, f, true, d.contractId);
    EntryOfUnion(found, KeysOf, f, !light && data.wgPrivateKey != "", data.wgPrivateKey);
    EntryOfUnion(found, PortOf, f, !light && data.wgListenPort > 0, data.wgListenPort);
    EntryOfUnion(found, MyceliumOf, f, data.myceliumKey != [], data.myceliumKey);
    hide PublicEndpoint;
  }

  lemma SubnetsAreStored(view: View, light: bool, name: string, order: seq<nat>)
    requires Distinct(order) && OneEach(view, light, name, order) && Load(view, light, name, order).Ok?
    ensures forall n, d, w :: n in order && Stores(view, light, name, n, d, w) ==>
              w.data.Ok? && EntryIs(Load(view, light, name, order).value.nodesIpRange, n, true, w.data.value.subnet)
  {
    hide Load, OneEach, Stores, EntryIs;
    forall n, d, w | n in order && Stores(view, light, name, n, d, w)
      ensures w.data.Ok? && EntryIs(Load(view, light, name, order).value.nodesIpRange, n, true, w.data.value.subnet)
    {
      LoadedNetworkIsStored(view, light, name, order, n, d, w);
    }
  }

  /** And it speaks of no other node. */
  lemma LoadedNodesStoreIt(view: View, light: bool, name: string, order: seq<nat>, n: nat)
    requires Distinct(order) && OneEach(view, light, name, order) && Load(view, light, name, order).Ok?
    ensures n in Load(view, light, name, order).value.nodes <==> n in order && StoresAny(view, light, name, n)
  {
    hide OneEach, FromNodes, OwnAndApart, StoresAny, Stores, MergeAll, Deployments, EntryIs, PublicEndpoint, Says;
    OneEachIsOnePerNode(view, light, name, order);
    hide OnePerNode;
    var found := FromNodes(view, light, name, order).value;
    CollectedAreApart(view, light, name, order);
    MergedNodes(found);
    var z := MergeAll(found);
    if n in z.nodes {
      var i :| 0 <= i < |z.nodes| && z.nodes[i] == n;
      CollectedIsStored(view, light, name, order, found[i]);
    }
    if n in order && StoresAny(view, light, name, n) {
      var d, w := StoredOn(view, light, name, n);
      var f := StoredIsCollected(view, light, name, order, n, d, w);
      assert f.node == n by { SaysNode(view, light, n, d, w, f); }
      var i :| 0 <= i < |found| && found[i] == f;
      assert z.nodes[i] == n;
    }
  }

  lemma StoredOn(view: View, light: bool, name: string, n: nat) returns (d: StoredDeployment, w: NetworkWorkload)
    requires StoresAny(view, light, name, n)
    ensures Stores(view, light, name, n, d, w)
  {
    d, w :| Stores(view, light, name, n, d, w);
  }

  lemma SaysNode(view: View, light: bool, n: nat, d: StoredDeployment, w: NetworkWorkload, f: Found)
    requires w.data.Ok? && w.metadata.Ok? && d.project.Ok? && Says(view, light, n, d, w, f)
    ensures f.node == n
  {
  }

  // ---- The header of a loaded network ----

  lemma {:induction false} CollectedPrefix(view: View, light: bool, name: string, order: seq<nat>, k: nat)
    requires FromNodes(view, light, name, order).Ok? && k <= |order|
    ensures FromNodes(view, light, name, order[..k]).Ok?
    ensures FromNodes(view, light, name, order[..k]).value <= FromNodes(view, light, name, order).value
    decreases |order|
  {
    hide FromNode;
    if k == |order| {
      assert order[..k] == order;
    } else {
      var before := order[..|order| - 1];
      assert before[..k] == order[..k];
      CollectedPrefix(view, light, name, before, k);
    }
  }

  lemma NothingCollected(view: View, light: bool, name: string, order: seq<nat>)
    requires FromNodes(view, light, name, order).Ok? && forall n :: n in order ==> !StoresAny(view, light, name, n)
    ensures FromNodes(view, light, name, order).value == []
  {
    hide FromNodes, StoresAny;
    var found := FromNodes(view, light, name, order).value;
    if found != [] { CollectedIsStored(view, light, name, order, found[0]); }
  }

  /** What comes from the first node that stores the network comes first. */
  lemma FirstCollected(view: View, light: bool, name: string, order: seq<nat>, k: nat, d: StoredDeployment,
                       w: NetworkWorkload)
    requires FromNodes(view, light, name, order).Ok? && OnePerNode(view, light, name, order)
    requires k < |order| && Stores(view, light, name, order[k], d, w)
    requires forall j :: 0 <= j < k ==> !StoresAny(view, light, name, order[j])
    ensures FromNodes(view, light, name, order).value != []
    ensures w.data.Ok? && w.metadata.Ok? && d.project.Ok?
    ensures Says(view, light, order[k], d, w, FromNodes(view, light, name, order).value[0])
  {
    hide FromNodes, OnePerNode, Says, Stores, StoresAny;
    CollectedPrefix(view, light, name, order, k);
    NothingCollected(view, light, name, order[..k]);
    NextCollected(view, light, name, order, k, d, w);
  }

  /** The header of a loaded network is that of the first visited node that stores it. */
  lemma HeaderIsFirstStored(view: View, light: bool, name: string, order: seq<nat>, k: nat, d: StoredDeployment,
                            w: NetworkWorkload)
    requires Distinct(order) && OneEach(view, light, name, order) && Load(view, light, name, order).Ok?
    requires k < |order| && Stores(view, light, name, order[k], d, w)
    requires forall j :: 0 <= j < k ==> !StoresAny(view, light, name, order[j])
    ensures w.metadata.Ok? && d.project.Ok?
    ensures SaysHeader(light, d.project.value, w, Load(view, light, name, order).value)
  {
    hide OneEach, OnePerNode, FromNodes, Stores, StoresAny, MergeAll, Deployments, PublicEndpoint, OnlyAt;
    OneEachIsOnePerNode(view, light, name, order);
    FirstCollected(view, light, name, order, k, d, w);
    var found := FromNodes(view, light, name, order).value;
    MergeShowsFirst(found);
  }

  lemma {:induction false} MergeShowsFirst(found: seq<Found>)
    requires found != []
    ensures var z, first := MergeAll(found), found[0].net;
            && z.name == first.name && z.description == first.description && z.solutionType == first.solutionType
            && z.publicNodeId == first.publicNodeId && z.addWgAccess == first.addWgAccess
            && z.externalIp == first.externalIp && z.externalSk == first.externalSk
            && z.accessWgConfig == first.accessWgConfig
    decreases |found|
  {
    if |found| > 1 { MergeShowsFirst(found[..|found| - 1]); }
  }

  /** Its range is the first given one, in the order visited. */
  lemma RangeIsFirstGiven(view: View, name: string, order: seq<nat>, k: nat, d: StoredDeployment, w: NetworkWorkload)
    requires Distinct(order) && OneEach(view, false, name, order) && Load(view, false, name, order).Ok?
    requires k < |order| && Stores(view, false, name, order[k], d, w) && w.data.Ok? && w.data.value.ipRange != ""
    requires forall j, e, v :: 0 <= j < k && Stores(view, false, name, order[j], e, v) && v.data.Ok? ==>
               v.data.value.ipRange == ""
    ensures Load(view, false, name, order).value.ipRange == w.data.value.ipRange
  {
    hide OneEach, OnePerNode, Stores, MergeAll, Deployments, PublicEndpoint, FromNode, FromNodes, Says;
    var found, before := FromNodes(view, false, name, order).value, order[..k];
    CollectedPrefix(view, false, name, order, k);
    CollectedPrefix(view, false, name, order, k + 1);
    var early := FromNodes(view, false, name, before).value;
    forall f | f in early ensures f.net.ipRange == "" {
      CollectedIsStored(view, false, name, before, f);
      var n := f.node;
      var e, v := StoredOn(view, false, name, n);
      var g := StoredIsCollected(view, false, name, before, n, e, v);
      OneEachIsOnePerNode(view, false, name, order);
      CollectedAreApart(view, false, name, order);
      assert g.node == n by { SaysNode(view, false, n, e, v, g); }
      assert f in found && g in found;
      assert forall i, j :: 0 <= i < j < |found| ==> found[i].node != found[j].node;
      SameNodeSame(found, f, g);
      SaysRange(view, false, n, e, v, g);
      var j :| 0 <= j < k && order[j] == n;
    }
    OneEachIsOnePerNode(view, false, name, order);
    NextCollected(view, false, name, order, k, d, w);
    SaysRange(view, false, order[k], d, w, found[|early|]);
    FirstRange(found, |early|);
  }

  lemma SaysRange(view: View, light: bool, n: nat, d: StoredDeployment, w: NetworkWorkload, f: Found)
    requires w.data.Ok? && w.metadata.Ok? && d.project.Ok? && Says(view, light, n, d, w, f)
    ensures f.net.ipRange == if light then "" else w.data.value.ipRange
  {
  }

  lemma NextCollected(view: View, light: bool, name: string, order: seq<nat>, k: nat, d: StoredDeployment,
                      w: NetworkWorkload)
    requires FromNodes(view, light, name, order).Ok? && OnePerNode(view, light, name, order)
    requires k < |order| && Stores(view, light, name, order[k], d, w)
    ensures FromNodes(view, light, name, order[..k]).Ok?
    ensures var i := |FromNodes(view, light, name, order[..k]).value|;
            && i < |FromNodes(view, light, name, order).value| && w.data.Ok? && w.metadata.Ok? && d.project.Ok?
            && Says(view, light, order[k], d, w, FromNodes(view, light, name, order).value[i])
  {
    hide FromNode, Says, Stores;
    CollectedPrefix(view, light, name, order, k);
    NextNode(view, light, name, order, k);
    var here := FromNode(view, light, name, order[k]).value;
    AloneNode(view, light, name, order[k]);
    var f := StoredIsCollected(view, light, name, [order[k]], order[k], d, w);
    assert order[k] in order;
    hide FromNodes;
    assert here == [f];
  }

  lemma AloneNode(view: View, light: bool, name: string, n: nat)
    ensures FromNodes(view, light, name, [n]).Ok? <==> FromNode(view, light, name, n).Ok?
    ensures FromNode(view, light, name, n).Ok? ==>
              FromNodes(view, light, name, [n]).value == FromNode(view, light, name, n).value
  {
    hide FromNode;
    assert [n][..0] == [] && FromNodes(view, light, name, []) == Ok([]);
  }

  lemma NextNode(view: View, light: bool, name: string, order: seq<nat>, k: nat)
    requires FromNodes(view, light, name, order).Ok? && k < |order|
    ensures FromNodes(view, light, name, order[..k]).Ok? && FromNode(view, light, name, order[k]).Ok?
    ensures FromNodes(view, light, name, order[..k]).value + FromNode(view, light, name, order[k]).value
            <= FromNodes(view, light, name, order).value
  {
    hide FromNode;
    var upTo := order[..k + 1];
    assert upTo[..k] == order[..k] && upTo[|upTo| - 1] == order[k];
    CollectedPrefix(view, light, name, order, k + 1);
  }

  lemma {:induction false} FirstRange(found: seq<Found>, i: nat)
    requires i < |found| && found[i].net.ipRange != "" && forall j :: 0 <= j < i ==> found[j].net.ipRange == ""
    ensures MergeAll(found).ipRange == found[i].net.ipRange
    decreases |found|
  {
    var before := found[..|found| - 1];
    if i < |found| - 1 {
      FirstRange(before, i);
    } else if |found| > 1 {
      NoRange(before);
    }
  }

  lemma {:induction false} NoRange(found: seq<Found>)
    requires found != [] && forall j :: 0 <= j < |found| ==> found[j].net.ipRange == ""
    ensures MergeAll(found).ipRange == ""
    decreases |found|
  {
    if |found| > 1 { NoRange(found[..|found| - 1]); }
  }

  /** The text that gives users access names the access address and key, the public node's own key, its
      endpoint as it reported it with its port, and the network's range. */
  lemma AccessTextNamesThePublicNode(view: View, light: bool, name: string, order: seq<nat>)
    requires Distinct(order) && OneEach(view, light, name, order) && Load(view, light, name, order).Ok?
    requires Load(view, light, name, order).value.accessWgConfig != ""
    ensures var z := Load(view, light, name, order).value;
            && z.externalIp.Some? && view.wgIp(z.externalIp.value).Some? && z.publicNodeId in z.wgPort
            && exists n, endpoint :: && n in order && view.endpoint(n) == Ok(endpoint) && endpoint != ""
                 && z.accessWgConfig == view.wgConfig(view.wgIp(z.externalIp.value).value, z.externalSk,
                                                      if z.publicNodeId in z.keys then z.keys[z.publicNodeId] else "",
                                                      endpoint + ":" + Decimal(z.wgPort[z.publicNodeId]), z.ipRange)
  {
    hide OneEach, OnePerNode, FromNodes, MergeAll, Deployments, Decimal;
    var found := FromNodes(view, light, name, order).value;
    OneEachIsOnePerNode(view, light, name, order);
    CollectedAreApart(view, light, name, order);
    MergeShowsFirst(found);
    assert found[0] in found && found[0].net.accessWgConfig == "";
    var endpoint := PublicEndpoint(found);
    assert endpoint != "";
    LastEndpoint(found);
    var f :| f in found && f.endpoint == Some(endpoint);
    hide PublicEndpoint, OwnAndApart;
    EndpointWasReported(view, light, name, order, f);
    var z := Load(view, light, name, order).value;
    assert f.node in order && view.endpoint(f.node) == Ok(endpoint);
  }

  lemma {:induction false} LastEndpoint(found: seq<Found>)
    ensures PublicEndpoint(found) != "" ==> exists f :: f in found && f.endpoint == Some(PublicEndpoint(found))
    decreases |found|
  {
    if found != [] {
      assert found[|found| - 1] in found;
      LastEndpoint(found[..|found| - 1]);
    }
  }

  lemma EndpointWasReported(view: View, light: bool, name: string, order: seq<nat>, f: Found)
    requires FromNodes(view, light, name, order).Ok? && f in FromNodes(view, light, name, order).value
    requires f.endpoint.Some?
    ensures f.node in order && view.endpoint(f.node) == Ok(f.endpoint.value)
  {
    NodesMembers(view, light, name, order);
    hide FromNodes;
    var n :| n in order && f in FromNode(view, light, name, n).value;
    NodeFragmentsAreOwn(view, light, name, n);
    DeploymentsMembers(view, light, name, n, view.deployments(n).value);
    hide FromDeployments, OwnOnly, ReadNetwork, FirstMatch;
    var d :| d in view.deployments(n).value && FromDeployment(view, light, name, n, d) == Ok(Some(f));
  }
}
