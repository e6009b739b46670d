/** What nodes are sent, and what a caller is told, in the request's own terms. */
module Requested {
  import opened GridErrors
  import opened Text
  import opened HexCodec
  import opened Deployments
  import opened Addresses
  import opened Builders
  import opened Ports
  import opened DeployTrace
  import opened Accounting
  import opened DeployOrder

  // ---- Deployments ----

  /** One workload list under a twin's own single, optional signature request. */
  predicate Asks(d: DeployDeployment, twin: nat, kind: string, name: string, project: string) {
    && d.version == 0 && d.twinId == twin && d.description == "" && d.expiration == 0
    && d.metadata == "{\"version\":4,\"type\":\"" + kind + "\",\"name\":\"" + name
                     + "\",\"projectName\":\"" + project + "\"}"
    && |d.requests| == 1 && d.requests[0].twinId == twin && !d.requests[0].required && d.requests[0].weight == 1
    && d.weightRequired == 1 && d.signatureStyle == ""
  }

  /** A light network with that subnet and key, without peers. */
  predicate AsksForLightNetwork(w: DeployWorkload, name: string, subnet: string, key: seq<Byte>) {
    && w.kind == "network-light" && w.name == name && w.data.NetworkLightData? && w.data.subnet == subnet
    && w.data.lightMycelium.Some? && w.data.lightMycelium.value.key == key && w.data.lightMycelium.value.peers == []
  }

  /** A full network with those addresses and keys, without peers. */
  predicate AsksForNetwork(w: DeployWorkload, name: string, ipRange: string, subnet: string, wireguardKey: string,
                           port: nat, key: Option<seq<Byte>>)
  {
    && w.kind == "network" && w.name == name && w.data.NetworkData?
    && w.data.ipRange == ipRange && w.data.netSubnet == subnet
    && w.data.wireguardKey == wireguardKey && w.data.wireguardPort == port && w.data.wireguardPeers == []
    && (w.data.mycelium.Some? <==> key.Some?)
    && (key.Some? ==> w.data.mycelium.value.key == key.value && w.data.mycelium.value.peers == [])
  }

  /** What is given is used, and what is not is derived from the time. */
  predicate GivenOr(given: Option<string>, derived: string, used: string) {
    used == if given.Some? then given.value else derived
  }

  /** The third part of a derived address, from the time in seconds. */
  function Third(suffix: nat): string { Decimal(10 + suffix % 180) }

  /** The network's deployment as the request wants it. */
  ghost predicate NetworkAsRequested(request: Request, suffix: nat, ports: seq<Event>, ws: seq<DeployWorkload>) {
    && |ws| == 1
    && match request
       case LightRequest(Some(spec), _, _, _) =>
         exists name, subnet, key ::
           && AsksForLightNetwork(ws[0], name, subnet, key)
           && GivenOr(spec.name, "rust_net_light_" + Decimal(suffix), name)
           && GivenOr(spec.subnet, "10." + Third(suffix) + ".2.0/24", subnet)
           && (spec.myceliumKey.Some? ==> key == spec.myceliumKey.value)
       case FullRequest(Some(spec), _, _, _) =>
         exists name, range, subnet, wireguardKey, port ::
           && AsksForNetwork(ws[0], name, range, subnet, wireguardKey, port, spec.myceliumKey)
           && GivenOr(spec.name, "rust_net_" + Decimal(suffix), name)
           && GivenOr(spec.ipRange, "10." + Third(suffix) + ".0.0/16", range)
           && GivenOr(spec.subnet, "10." + Third(suffix) + ".2.0/24", subnet)
           && (spec.wireguardKey.Some? ==> wireguardKey == spec.wireguardKey.value)
           && if spec.wireguardPort.Some? then port == spec.wireguardPort.value
              else |ports| == 1 && ports[0].AskedPorts? && ports[0].ports.Ok? && LeastFree(ports[0].ports.value, port)
       case _ => false
  }

  /** The machine's deployment as the request wants it, on a network of that name at that address. */
  ghost predicate MachineAsRequested(request: Request, suffix: nat, network: string, ip: string,
                                     ws: seq<DeployWorkload>) {
    match request
    case LightRequest(_, _, _, spec) =>
      exists name, seed :: && AsksLight(ws, name, network, ip, spec, seed)
                           && GivenOr(spec.name, "rust_vm_light_" + Decimal(suffix), name)
                           && (spec.myceliumSeed.Some? ==> seed == spec.myceliumSeed.value)
    case FullRequest(_, _, _, spec) =>
      exists name :: AsksFull(ws, name, network, ip, spec) && GivenOr(spec.name, "rust_vm_" + Decimal(suffix), name)
  }

  lemma NetworkIsAsRequested(request: Request, signer: nat, suffix: nat, ports: seq<Event>, d: DeployDeployment)
    requires request.CreatesNetwork() && NetworkBuilt(request, signer, suffix, ports, d)
    ensures NetworkAsRequested(request, suffix, ports, d.workloads)
    ensures Asks(d, signer, if request.FullRequest? then "network" else "network-light", request.NetworkName(suffix),
                 "Network")
  {
    var name, subnet, w := request.NetworkName(suffix), request.Subnet(suffix), d.workloads[0];
    match request
    case LightRequest(Some(spec), _, _, _) =>
      var key :| && Given(spec.myceliumKey, key)
                 && BuiltAs(d, signer, DeploymentMetadata(name, "network-light", "Network"),
                            [BuildNetworkLight(name, subnet, key)]);
      assert AsksForLightNetwork(w, name, subnet, key);
    case FullRequest(Some(spec), _, _, _) =>
      var range := spec.ipRange.GetOr(DerivedRange(suffix, ".0.0/16"));
      var key, port :| && Given(spec.wireguardKey, key) && PortChosen(spec.wireguardPort, ports, port)
                       && BuiltAs(d, signer, DeploymentMetadata(name, "network", "Network"),
                                  [BuildNetwork(name, range, subnet, key, port, spec.myceliumKey)]);
      assert AsksForNetwork(w, name, range, subnet, key, port, spec.myceliumKey);
  }

  lemma MachineIsAsRequested(request: Request, signer: nat, network: NetworkInfo, suffix: nat, d: DeployDeployment)
    requires MachineBuilt(request, signer, network, suffix, d)
    ensures MachineAsRequested(request, suffix, network.name, network.vmIp, d.workloads)
    ensures var name := request.MachineName(suffix);
            Asks(d, signer, if request.FullRequest? then "vm" else "vm-light", name, name)
  {
    hide AsksLight, AsksFull, VmWorkloads, VmLightWorkloads;
    var name := request.MachineName(suffix);
    match request
    case LightRequest(_, _, _, spec) =>
      var seed :| && Given(spec.myceliumSeed, seed)
                  && BuiltAs(d, signer, DeploymentMetadata(name, "vm-light", name),
                             VmLightWorkloads(name, network.name, network.vmIp, spec, seed));
      LightAsksForItsSpec(name, network.name, network.vmIp, spec, seed);
    case FullRequest(_, _, _, spec) =>
      FullAsksForItsSpec(name, network.name, network.vmIp, spec);
  }

  /** Whatever a node is sent in an attempt is what the request asks for: the network while that is created, and
      afterwards the machine on it. */
  lemma NodesAreSentWhatWasRequested(k: Crypto, signer: nat, request: Request, a: Attempt, e: Event)
    requires AttemptSpec(k, signer, request, a) && e in AttemptEvents(a) && e.Sent?
    ensures e.deployment.twinId == signer
    ensures if e in StageEvents(a.network)
            then request.CreatesNetwork() && NetworkAsRequested(request, a.suffix, a.ports, e.deployment.workloads)
            else && a.info.Ok?
                 && MachineAsRequested(request, a.suffix, a.info.value.name, a.info.value.vmIp, e.deployment.workloads)
  {
    hide StageSpec, StageEvents, RollbackSpec, NetworkAsRequested, MachineAsRequested, Asks, PlanFails, ReadsBack;
    hide NetworkBuilt, MachineBuilt, OutcomeOf;
    AttemptStages(k, signer, request, a);
    OthersSendNothing(k, signer, request, a);
    NoStageEvents();
    if e in StageEvents(a.network) {
      SentByConfirm(k, signer, a.node, a.twin, a.network, e);
      NetworkIsAsRequested(request, signer, a.suffix, a.ports, a.network[0].deployment);
      TwinIs(a.network[0].deployment, signer, if request.FullRequest? then "network" else "network-light",
             request.NetworkName(a.suffix), "Network");
    } else {
      assert e in StageEvents(a.vm);
      SentByConfirm(k, signer, a.node, a.twin, a.vm, e);
      var name := request.MachineName(a.suffix);
      MachineIsAsRequested(request, signer, a.info.value, a.suffix, a.vm[0].deployment);
      TwinIs(a.vm[0].deployment, signer, if request.FullRequest? then "vm" else "vm-light", name, name);
    }
  }

  lemma TwinIs(d: DeployDeployment, twin: nat, kind: string, name: string, project: string)
    requires Asks(d, twin, kind, name, project)
    ensures d.twinId == twin
  {
  }

  // ---- Replies ----

  /** The items a reply lists: a list's own, or those under an object's `workloads`. */
  predicate Lists(p: Payload, items: seq<ReplyItem>) {
    p == ListReply(items) || p == ObjectReply(Some(items))
  }

  /** A reply reads as the workloads it lists, in order, unless one of them is malformed; a reply that lists
      nothing reads as none. */
  lemma ReadsAsListed(p: Payload, items: seq<ReplyItem>)
    ensures Lists(p, items) ==> (ExtractWorkloads(p).Ok? <==> forall i :: 0 <= i < |items| ==> items[i].Item?)
    ensures Lists(p, items) && ExtractWorkloads(p).Ok? ==>
              && |ExtractWorkloads(p).value| == |items|
              && forall i :: 0 <= i < |items| ==> Item(ExtractWorkloads(p).value[i]) == items[i]
    ensures p == OtherReply || p == ObjectReply(None) ==> ExtractWorkloads(p) == Ok([])
  {
    assert Malformed !in [];
    if Lists(p, items) && forall i :: 0 <= i < |items| ==> items[i].Item? {
      assert Malformed !in items;
    }
    if p == OtherReply || p == ObjectReply(None) {
      assert ExtractWorkloads(p).value == [];
    }
  }

  // ---- Outcomes ----

  /** `w` is the first workload of that name. */
  ghost predicate FirstNamed(ws: seq<DeployWorkload>, name: string, w: DeployWorkload) {
    exists i: nat :: FirstAt(ws, name, w, i)
  }

  predicate FirstAt(ws: seq<DeployWorkload>, name: string, w: DeployWorkload, i: nat) {
    i < |ws| && ws[i] == w && w.name == name && forall j :: 0 <= j < i ==> ws[j].name != name
  }

  /** The field is a text or an object whose `ip` is that text. */
  predicate Shows(data: map<string, ResultField>, key: string, text: string) {
    text != "" && key in data && (data[key] == TextField(text) || data[key] == ObjectField(Some(text)))
  }

  /** The field is an answer, if only an object's empty `ip`, so that no other is looked at. */
  ghost predicate IsAnswer(data: map<string, ResultField>, key: string) {
    key in data && (data[key] == ObjectField(Some("")) || exists text :: Shows(data, key, text))
  }

  predicate IsUp(w: DeployWorkload) {
    w.result.state == "ok" || w.result.state == "paused"
  }

  lemma LaterIsFirst(ws: seq<DeployWorkload>, name: string, w: DeployWorkload, i: nat)
    requires ws != [] && ws[0].name != name
    ensures FirstAt(ws, name, w, i + 1) <==> FirstAt(ws[1..], name, w, i)
  {
    assert forall j :: 0 <= j < |ws| - 1 ==> ws[1..][j] == ws[j + 1];
    if FirstAt(ws[1..], name, w, i) {
      forall j | 0 <= j < i + 1 ensures ws[j].name != name { if j > 0 { assert ws[j] == ws[1..][j - 1]; } }
    }
  }

  lemma {:induction false} FindsFirst(ws: seq<DeployWorkload>, name: string, w: DeployWorkload)
    ensures FindByName(ws, name) == Some(w) <==> FirstNamed(ws, name, w)
  {
    if ws != [] && ws[0].name != name {
      FindsFirst(ws[1..], name, w);
      hide FirstAt;
      if i: nat :| FirstAt(ws, name, w, i) {
        assert i > 0 by { FirstIsNot(ws, name, w, i); }
        LaterIsFirst(ws, name, w, i - 1);
      }
      if i: nat :| FirstAt(ws[1..], name, w, i) { LaterIsFirst(ws, name, w, i); }
    } else if ws != [] {
      assert ws[0] == w ==> FirstAt(ws, name, w, 0);
    }
  }

  lemma FirstIsNot(ws: seq<DeployWorkload>, name: string, w: DeployWorkload, i: nat)
    requires FirstAt(ws, name, w, i) && ws[0].name != name
    ensures i > 0
  {
  }

  /** The public addresses come from the machine's address workload once that is up: the second from `ipv6`,
      or from `ip6` when that is no answer. */
  lemma AddressesAreShown(ws: seq<DeployWorkload>, name: string)
    ensures var (v4, v6) := ResolvePublicIps(ws, name);
            && (v4 != "" <==>
                exists w :: FirstNamed(ws, name + "ip", w) && IsUp(w) && Shows(w.result.data, "ip", v4))
            && (v6 != "" <==>
                exists w :: FirstNamed(ws, name + "ip", w) && IsUp(w) && ShowsSecond(w.result.data, v6))
  {
    forall w ensures FindByName(ws, name + "ip") == Some(w) <==> FirstNamed(ws, name + "ip", w) {
      FindsFirst(ws, name + "ip", w);
    }
    hide FirstNamed, FindByName;
    if w :| FirstNamed(ws, name + "ip", w) {
      AddressIs(w.result.data, "ip");
      AddressIs(w.result.data, "ipv6");
      AddressIs(w.result.data, "ip6");
      hide AddressOf, Shows, IsAnswer;
    }
  }

  ghost predicate ShowsSecond(data: map<string, ResultField>, text: string) {
    Shows(data, "ipv6", text) || (!IsAnswer(data, "ipv6") && Shows(data, "ip6", text))
  }

  lemma AddressIs(data: map<string, ResultField>, key: string)
    ensures AddressOf(data, key).Some? <==> IsAnswer(data, key)
    ensures forall text :: Shows(data, key, text) <==> text != "" && AddressOf(data, key) == Some(text)
  {
    if AddressOf(data, key).Some? && AddressOf(data, key).value != "" {
      assert Shows(data, key, AddressOf(data, key).value);
    }
  }

  /** A text field, or nothing. */
  predicate ShowsText(data: map<string, ResultField>, key: string, text: string) {
    if key in data && data[key].TextField? then text == data[key].text else text == ""
  }

  /** What a successful attempt reports: the node it ran on, the network and the address the machine was given,
      the ids found, and what the first workload of the machine's name shows in the final read. A light machine
      has no public addresses. */
  lemma OutcomeTellsWhatWasDone(k: Crypto, signer: nat, request: Request, a: Attempt)
    requires AttemptSpec(k, signer, request, a) && a.result.Ok?
    ensures a.info.Ok? && Complete(a.vm) && |a.readback| == 1 && a.readback[0].Got? && a.readback[0].got.Ok?
    ensures var o, info := a.result.value, a.info.value;
            && o.nodeId == a.node && o.nodeTwinId == a.twin
            && o.networkName == info.name && o.networkContractId == info.contractId && o.vmIp == info.vmIp
            && o.vmName == request.MachineName(a.suffix) && o.vmContractId == a.vm[1].found.value
    ensures forall w :: w in a.vm[3].settled.value ==> w.result.state != "error"
    ensures ExtractWorkloads(a.readback[0].got.value).Ok?
    ensures var o, ws := a.result.value, ExtractWorkloads(a.readback[0].got.value).value;
            && (exists w :: FirstNamed(ws, o.vmName, w) && ShowsText(w.result.data, "mycelium_ip", o.myceliumIp)
                            && ShowsText(w.result.data, "console_url", o.consoleUrl))
            && if request.LightRequest? then o.publicIpv4 == "" && o.publicIpv6 == ""
               else (o.publicIpv4, o.publicIpv6) == ResolvePublicIps(ws, o.vmName)
  {
    hide StageSpec, RollbackSpec, NetworkBuilt, MachineBuilt, PlanFails, ExtractWorkloads, ResolvePublicIps;
    var ws, name := ExtractWorkloads(a.readback[0].got.value).value, request.MachineName(a.suffix);
    var w := FindByName(ws, name).value;
    FindsFirst(ws, name, w);
    hide FirstNamed, FindByName;
  }
}
